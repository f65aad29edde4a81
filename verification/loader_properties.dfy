/** Properties of the loader stated against the sheet's positions rather
    than its column names: which sheet rows become records, in what
    order, and when the empty-inventory exit is taken. */
module LoaderProperties {
  import opened Seqs
  import opened Cells
  import opened Loader

  /** A data row whose four cells (brand, product, boxes, location) are all
      filled. */
  predicate EssentialAt(row: seq<Cell>) {
    |row| == 4 && row[0] != Null && row[1] != Null && row[2] != Null && row[3] != Null
  }

  /** The record a four-cell data row stands for, read by position. */
  function RecordAt(row: seq<Cell>): Record
    requires |row| == 4
  {
    Record(row[0], row[1], CoerceToInt(row[2]), row[3])
  }

  /** The records read straight off the sheet's positions: the complete
      data rows, in order. */
  function RecordsAt(rows: seq<seq<Cell>>): (rs: seq<Record>)
    requires forall row :: row in rows ==> |row| == 4
    ensures |rs| == |rows|
  {
    seq(|rows|, i requires 0 <= i < |rows| => RecordAt(rows[i]))
  }

  /** The loader, stated by position instead of by column name: once the
      sheet has four columns, the result is the empty-inventory error
      exactly when no data row is complete, and otherwise the records of
      the complete data rows, in sheet order, with the boxes coerced. */
  lemma LoadPositional(g: Grid)
    requires Width(g) == ColumnCount
    ensures var kept := Keep(DataRows(g), EssentialAt);
            Load(g) == if kept == [] then Err(EmptyInventoryError) else Ok(RecordsAt(kept))
  {
    var rows := DataRows(g);
    RequiredColumnsAlwaysPresent();
    var f := Frame(InternalColumns, rows);
    assert BindHeaders(g) == Ok(Frame(ExcelHeaders, rows));
    assert RenameFrame(Frame(ExcelHeaders, rows), ColumnMapping) == f;
    assert CheckColumns(f) == Ok(f);
    CleanRowsPositional(rows);
  }

  /** On the renamed four-column frame, `dropna`'s mask is "all four
      cells filled" and building a record is reading it by position. */
  lemma InternalLayoutPositional(row: seq<Cell>)
    requires |row| == 4
    ensures CompleteMask(InternalColumns, EssentialCols)(row) == EssentialAt(row)
    ensures ToRecord(InternalColumns, row) == RecordAt(row)
  {
    assert IndexOf(InternalColumns, "Marca") == 0;
    assert IndexOf(InternalColumns, "Producto") == 1;
    assert IndexOf(InternalColumns, "Cajas disponibles") == 2;
    assert IndexOf(InternalColumns, "Ubicacion") == 3;
  }

  lemma DropNaPositional(rows: seq<seq<Cell>>)
    requires forall row :: row in rows ==> |row| == 4
    ensures DropNa(Frame(InternalColumns, rows), EssentialCols).rows == Keep(rows, EssentialAt)
  {
    var mask := CompleteMask(InternalColumns, EssentialCols);
    forall i | 0 <= i < |rows|
      ensures mask(rows[i]) == EssentialAt(rows[i])
    {
      assert rows[i] in rows;
      InternalLayoutPositional(rows[i]);
    }
    KeepCongruent(rows, mask, EssentialAt);
  }

  lemma ToRecordsPositional(kept: seq<seq<Cell>>)
    requires forall row :: row in kept ==> |row| == 4
    ensures ToRecords(Frame(InternalColumns, kept)) == RecordsAt(kept)
  {
    forall i | 0 <= i < |kept|
      ensures ToRecord(InternalColumns, kept[i]) == RecordAt(kept[i])
    {
      assert kept[i] in kept;
      InternalLayoutPositional(kept[i]);
    }
  }

  /** The cleaning stage on the renamed four-column frame, by position. */
  lemma CleanRowsPositional(rows: seq<seq<Cell>>)
    requires forall row :: row in rows ==> |row| == 4
    ensures var kept := Keep(rows, EssentialAt);
            CleanRows(Frame(InternalColumns, rows))
              == if kept == [] then Err(EmptyInventoryError) else Ok(RecordsAt(kept))
  {
    var f := Frame(InternalColumns, rows);
    var kept := Keep(rows, EssentialAt);
    assert WellFormed(f);
    assert forall c :: c in RequiredFinalCols ==> c in f.columns;
    DropNaPositional(rows);
    ToRecordsPositional(kept);
    if kept == [] {
      assert CleanRows(f) == Err(EmptyInventoryError);
    } else {
      assert CleanRows(f) == Ok(RecordsAt(kept));
    }
  }

  lemma NoCompleteDataRow(g: Grid)
    requires Width(g) == ColumnCount
    requires forall i :: 1 <= i < |g| ==> !EssentialAt(Pad(g[i], Width(g)))
    ensures forall k :: 0 <= k < |DataRows(g)| ==> !EssentialAt(DataRows(g)[k])
  {
  }

  lemma NoCompleteSheetRow(g: Grid)
    requires Width(g) == ColumnCount
    requires forall k :: 0 <= k < |DataRows(g)| ==> !EssentialAt(DataRows(g)[k])
    ensures forall i :: 1 <= i < |g| ==> !EssentialAt(Pad(g[i], Width(g)))
  {
    forall i | 1 <= i < |g|
      ensures !EssentialAt(Pad(g[i], Width(g)))
    {
      DataRowAt(g, i);
    }
  }

  /** No data row is complete exactly when no sheet row after the header
      has all four cells filled. */
  lemma NoCompleteRowIff(g: Grid)
    requires Width(g) == ColumnCount
    ensures Keep(DataRows(g), EssentialAt) == [] <==>
              forall i :: 1 <= i < |g| ==> !EssentialAt(Pad(g[i], Width(g)))
  {
    KeepEmptyIff(DataRows(g), EssentialAt);
    if forall i :: 1 <= i < |g| ==> !EssentialAt(Pad(g[i], Width(g))) {
      NoCompleteDataRow(g);
    } else if forall k :: 0 <= k < |DataRows(g)| ==> !EssentialAt(DataRows(g)[k]) {
      NoCompleteSheetRow(g);
    }
  }

  /** The empty-inventory exit is taken exactly when the sheet has four
      columns but no data row with all four cells filled. */
  lemma LoadEmptyIff(g: Grid)
    ensures Load(g) == Err(EmptyInventoryError) <==>
              Width(g) == ColumnCount &&
              forall i :: 1 <= i < |g| ==> !EssentialAt(Pad(g[i], Width(g)))
  {
    if Width(g) == ColumnCount {
      LoadPositional(g);
      NoCompleteRowIff(g);
    }
  }

  lemma RecordsAtMember(rows: seq<seq<Cell>>, row: seq<Cell>)
    requires forall r :: r in rows ==> |r| == 4
    requires row in rows
    ensures RecordAt(row) in RecordsAt(rows)
  {
    var j :| 0 <= j < |rows| && rows[j] == row;
    assert RecordsAt(rows)[j] == RecordAt(row);
  }

  /** Data row `i - 1` is sheet row `i`, padded to the sheet's width. */
  lemma DataRowAt(g: Grid, i: nat)
    requires 1 <= i < |g|
    ensures DataRows(g)[i - 1] == Pad(g[i], Width(g))
  {
  }

  /** A complete sheet row after the header is among the kept data rows. */
  lemma CompleteRowKept(g: Grid, i: nat)
    requires Width(g) == ColumnCount && 1 <= i < |g|
    requires EssentialAt(Pad(g[i], Width(g)))
    ensures Pad(g[i], Width(g)) in Keep(DataRows(g), EssentialAt)
  {
    DataRowAt(g, i);
    IndexedMember(DataRows(g), i - 1, Pad(g[i], Width(g)));
  }

  /** A complete sheet row contributes its positional record to the
      records of the complete data rows. */
  lemma CompleteRowContributes(g: Grid, i: nat)
    requires Width(g) == ColumnCount && 1 <= i < |g|
    requires EssentialAt(Pad(g[i], Width(g)))
    ensures var kept := Keep(DataRows(g), EssentialAt);
            kept != [] && RecordAt(Pad(g[i], Width(g))) in RecordsAt(kept)
  {
    CompleteRowKept(g, i);
    RecordsAtMember(Keep(DataRows(g), EssentialAt), Pad(g[i], Width(g)));
  }

  /** Every sheet row after the header with its four cells filled yields
      a record. */
  lemma CompleteRowLoaded(g: Grid, i: nat)
    requires Width(g) == ColumnCount && 1 <= i < |g|
    requires EssentialAt(Pad(g[i], Width(g)))
    ensures Load(g).Ok? && RecordAt(Pad(g[i], Width(g))) in Load(g).value
  {
    CompleteRowContributes(g, i);
    LoadPositional(g);
  }

  /** A row whose boxes cell holds text that is not a number ("aprox",
      "?") is not dropped: it survives cleaning with zero boxes and its other
      three fields unchanged. */
  lemma NonNumericBoxesKept(g: Grid, i: nat, row: seq<Cell>)
    requires Width(g) == ColumnCount && 1 <= i < |g| && row == Pad(g[i], Width(g))
    requires row[0] != Null && row[1] != Null && row[3] != Null
    requires row[2].Text? && !IsIntegerText(row[2].s)
    ensures Load(g).Ok? && Record(row[0], row[1], 0, row[3]) in Load(g).value
  {
    NonNumericRecord(row);
    CompleteRowLoaded(g, i);
  }

  lemma NonNumericRecord(row: seq<Cell>)
    requires |row| == 4 && row[0] != Null && row[1] != Null && row[3] != Null
    requires row[2].Text? && !IsIntegerText(row[2].s)
    ensures EssentialAt(row)
    ensures RecordAt(row) == Record(row[0], row[1], 0, row[3])
  {
  }
}
