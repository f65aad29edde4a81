/** The post-parse body of `load_and_process_data` in app.py: the
    spreadsheet has been read without a header into a grid of cells; the
    loader checks the column count, names the columns by position, drops
    the sheet's own header row, renames to the app's internal names,
    checks the required names are present, drops rows with an empty
    essential field and coerces the boxes column to integers.
    Every `st.stop()` of the source is an `Err` here. */
module Loader {
  import opened Seqs
  import opened Cells

  /** The sheet as read with `header=None`: row 0 is the sheet's header. */
  type Grid = seq<seq<Cell>>

  /** A data frame: named columns over rows of cells. */
  datatype Frame = Frame(columns: seq<string>, rows: seq<seq<Cell>>)

  predicate WellFormed(f: Frame) {
    forall row :: row in f.rows ==> |row| == |f.columns|
  }

  /** One inventory line after loading, fields in the internal names
      `Marca`, `Producto`, `Cajas disponibles`, `Ubicacion`. */
  datatype Record = Record(marca: Cell, producto: Cell, cajas: int, ubicacion: Cell)

  datatype LoadError =
    | ColumnCountError(actual: nat, expected: nat)
    | MissingColumnsError(missing: seq<string>)
    | EmptyInventoryError

  const ExcelHeaders: seq<string> := ["MARCA", "PRODUCTO", "CAJA APROX", "UBICACION"]

  /** `len(expected_excel_headers)`: the exact column count demanded. */
  const ColumnCount: nat := 4

  const ColumnMapping: map<string, string> :=
    map["MARCA" := "Marca", "PRODUCTO" := "Producto",
        "CAJA APROX" := "Cajas disponibles", "UBICACION" := "Ubicacion"]

  const RequiredFinalCols: seq<string> := ["Producto", "Cajas disponibles", "Marca", "Ubicacion"]

  /** The `subset` of `dropna`: rows missing any of these are dropped. */
  const EssentialCols: seq<string> := ["Producto", "Marca", "Ubicacion", "Cajas disponibles"]

  // ---------------------------------------------------------------------
  // Header binding

  /** The largest of a sequence of lengths, 0 for none. */
  function MaxOf(s: seq<nat>): (m: nat)
    ensures forall k :: 0 <= k < |s| ==> s[k] <= m
    ensures |s| > 0 ==> exists k :: 0 <= k < |s| && s[k] == m
    ensures |s| == 0 ==> m == 0
  {
    if |s| == 0 then 0
    else
      var m := MaxOf(s[1..]);
      if s[0] >= m then s[0] else m
  }

  /** Column count of the frame pandas builds: the longest row. */
  function Width(g: Grid): (w: nat)
    ensures forall i :: 0 <= i < |g| ==> |g[i]| <= w
    ensures |g| > 0 ==> exists i :: 0 <= i < |g| && |g[i]| == w
    ensures |g| == 0 ==> w == 0
  {
    var lengths := seq(|g|, i requires 0 <= i < |g| => |g[i]|);
    assert forall i :: 0 <= i < |g| ==> lengths[i] == |g[i]|;
    MaxOf(lengths)
  }

  /** A short row extended with empty cells, as pandas fills a ragged sheet. */
  function Pad(row: seq<Cell>, w: nat): (r: seq<Cell>)
    requires |row| <= w
    ensures |r| == w
    ensures forall j :: 0 <= j < w ==> r[j] == if j < |row| then row[j] else Null
  {
    row + seq(w - |row|, _ => Null)
  }

  /** The data rows of a sheet: every row after the header, padded. */
  function DataRows(g: Grid): seq<seq<Cell>>
    requires |g| > 0
  {
    seq(|g| - 1, i requires 0 <= i < |g| - 1 => Pad(g[i + 1], Width(g)))
  }

  /** Exactly four columns, or the load stops; then the columns are named
      positionally and row 0 (the sheet's header) is dropped. */
  function BindHeaders(g: Grid): (r: Result<Frame, LoadError>)
    ensures r.Err? <==> Width(g) != ColumnCount
    ensures r.Err? ==> r.error == ColumnCountError(Width(g), ColumnCount)
    ensures r.Ok? ==> r.value.columns == ExcelHeaders && WellFormed(r.value)
    ensures r.Ok? ==> |r.value.rows| == |g| - 1
    ensures r.Ok? ==> forall i, j :: 0 <= i < |r.value.rows| && 0 <= j < ColumnCount ==>
                        r.value.rows[i][j] == if j < |g[i + 1]| then g[i + 1][j] else Null
  {
    if Width(g) != ColumnCount then Err(ColumnCountError(Width(g), ColumnCount))
    else
      DataRowCells(g);
      Ok(Frame(ExcelHeaders, DataRows(g)))
  }

  /** Each cell of a data row is the sheet's cell, or empty past the end
      of a short sheet row. */
  lemma DataRowCells(g: Grid)
    requires |g| > 0
    ensures forall i, j :: 0 <= i < |DataRows(g)| && 0 <= j < Width(g) ==>
              DataRows(g)[i][j] == if j < |g[i + 1]| then g[i + 1][j] else Null
  {
    forall i, j | 0 <= i < |DataRows(g)| && 0 <= j < Width(g)
      ensures DataRows(g)[i][j] == if j < |g[i + 1]| then g[i + 1][j] else Null
    {
      assert DataRows(g)[i] == Pad(g[i + 1], Width(g));
    }
  }

  // ---------------------------------------------------------------------
  // Renaming and the required-column check

  /** `DataFrame.rename(columns=m)`: mapped names change, others stay. */
  function Rename(cols: seq<string>, m: map<string, string>): (r: seq<string>)
    ensures |r| == |cols|
  {
    seq(|cols|, i requires 0 <= i < |cols| => if cols[i] in m then m[cols[i]] else cols[i])
  }

  function RenameFrame(f: Frame, m: map<string, string>): (r: Frame)
    ensures r.rows == f.rows && |r.columns| == |f.columns|
    ensures WellFormed(f) ==> WellFormed(r)
  {
    Frame(Rename(f.columns, m), f.rows)
  }

  /** The required names absent from `present`, in the order required. */
  function MissingColumns(required: seq<string>, present: seq<string>): (r: seq<string>)
    ensures forall c :: c in r <==> c in required && c !in present
    ensures IsSubseq(r, required)
    ensures r == [] <==> forall c :: c in required ==> c in present
  {
    var r := Keep(required, c => c !in present);
    assert r != [] ==> r[0] in r;
    r
  }

  /** The internal column names the workbook layout is renamed to. */
  const InternalColumns: seq<string> := ["Marca", "Producto", "Cajas disponibles", "Ubicacion"]

  /** The rename mapping sends the four sheet headers exactly onto the
      required internal names, so the missing-column exit can never be
      taken once the column count has been checked. */
  lemma RequiredColumnsAlwaysPresent()
    ensures ColumnMapping.Keys == set h | h in ExcelHeaders
    ensures ColumnMapping.Values == set c | c in RequiredFinalCols
    ensures Rename(ExcelHeaders, ColumnMapping) == InternalColumns
    ensures MissingColumns(RequiredFinalCols, Rename(ExcelHeaders, ColumnMapping)) == []
  {
    var renamed := Rename(ExcelHeaders, ColumnMapping);
    assert renamed[0] == "Marca" && renamed[1] == "Producto";
    assert renamed[2] == "Cajas disponibles" && renamed[3] == "Ubicacion";
    assert renamed == InternalColumns;
    assert ColumnMapping["MARCA"] == "Marca";
    assert ColumnMapping["PRODUCTO"] == "Producto";
    assert ColumnMapping["CAJA APROX"] == "Cajas disponibles";
    assert ColumnMapping["UBICACION"] == "Ubicacion";
    forall c | c in RequiredFinalCols ensures c in ColumnMapping.Values {
    }
  }

  // ---------------------------------------------------------------------
  // Row cleaning and coercion

  /** First position of a column name (the names here are distinct). */
  function IndexOf(cols: seq<string>, c: string): (i: nat)
    requires c in cols
    ensures i < |cols| && cols[i] == c
    ensures forall j :: 0 <= j < i ==> cols[j] != c
  {
    if cols[0] == c then 0 else 1 + IndexOf(cols[1..], c)
  }

  /** No empty cell under any of the `subset` columns. */
  predicate Complete(columns: seq<string>, subset: seq<string>, row: seq<Cell>) {
    forall c :: c in subset && c in columns ==>
      IndexOf(columns, c) < |row| && row[IndexOf(columns, c)] != Null
  }

  /** The row mask `dropna` computes: keep the complete rows. */
  function CompleteMask(columns: seq<string>, subset: seq<string>): seq<Cell> -> bool {
    row => Complete(columns, subset, row)
  }

  /** `dropna(subset=...)`: pandas raises for an unknown subset name,
      hence the precondition. */
  function DropNa(f: Frame, subset: seq<string>): (r: Frame)
    requires forall c :: c in subset ==> c in f.columns
    ensures r.columns == f.columns
    ensures WellFormed(f) ==> WellFormed(r)
    ensures |r.rows| <= |f.rows| && IsSubseq(r.rows, f.rows)
    ensures forall row :: row in r.rows <==> row in f.rows && Complete(f.columns, subset, row)
    ensures r.rows == [] <==> forall row :: row in f.rows ==> !Complete(f.columns, subset, row)
  {
    var kept := Keep(f.rows, CompleteMask(f.columns, subset));
    assert kept != [] ==> kept[0] in kept;
    Frame(f.columns, kept)
  }

  /** One cleaned row as a record, the boxes cell coerced to an integer. */
  function ToRecord(columns: seq<string>, row: seq<Cell>): (r: Record)
    requires |row| == |columns|
    requires forall c :: c in InternalColumns ==> c in columns
    ensures Complete(columns, EssentialCols, row) ==>
              r.marca != Null && r.producto != Null && r.ubicacion != Null
  {
    Record(row[IndexOf(columns, "Marca")], row[IndexOf(columns, "Producto")],
           CoerceToInt(row[IndexOf(columns, "Cajas disponibles")]),
           row[IndexOf(columns, "Ubicacion")])
  }

  /** Every row of a cleaned frame as a record, in frame order. */
  function ToRecords(f: Frame): (rs: seq<Record>)
    requires WellFormed(f)
    requires forall c :: c in InternalColumns ==> c in f.columns
    ensures |rs| == |f.rows|
    ensures (forall row :: row in f.rows ==> Complete(f.columns, EssentialCols, row)) ==>
              forall rec :: rec in rs ==> rec.marca != Null && rec.producto != Null && rec.ubicacion != Null
  {
    seq(|f.rows|, i requires 0 <= i < |f.rows| => ToRecord(f.columns, f.rows[i]))
  }

  // ---------------------------------------------------------------------
  // The whole loader

  /** The `missing_cols` check: every required internal name must be a
      column after renaming. */
  function CheckColumns(f: Frame): (r: Result<Frame, LoadError>)
    ensures r.Ok? <==> forall c :: c in RequiredFinalCols ==> c in f.columns
    ensures r.Ok? ==> r.value == f
    ensures r.Err? ==> r.error.MissingColumnsError? && r.error.missing != []
    ensures r.Err? ==> forall c :: c in r.error.missing <==> c in RequiredFinalCols && c !in f.columns
  {
    var missing := MissingColumns(RequiredFinalCols, f.columns);
    if missing != [] then Err(MissingColumnsError(missing)) else Ok(f)
  }

  /** `dropna` on the essential columns, the empty-inventory exit, and
      the coercion of the boxes column. */
  function CleanRows(f: Frame): (r: Result<seq<Record>, LoadError>)
    requires WellFormed(f)
    requires forall c :: c in RequiredFinalCols ==> c in f.columns
    ensures r.Err? ==> r.error == EmptyInventoryError
    ensures r.Err? <==> forall row :: row in f.rows ==> !Complete(f.columns, EssentialCols, row)
    ensures r.Ok? ==> 0 < |r.value| <= |f.rows|
    ensures r.Ok? ==> forall rec :: rec in r.value ==>
                        rec.marca != Null && rec.producto != Null && rec.ubicacion != Null
  {
    var clean := DropNa(f, EssentialCols);
    if |clean.rows| == 0 then Err(EmptyInventoryError)
    else Ok(ToRecords(clean))
  }

  /** Load the inventory from a parsed sheet. The column-count exit and
      the empty-inventory exit are distinct; the missing-column exit is
      unreachable; every record has its three key fields filled. */
  function Load(g: Grid): (r: Result<seq<Record>, LoadError>)
    ensures Width(g) != ColumnCount ==> r == Err(ColumnCountError(Width(g), ColumnCount))
    ensures r.Err? ==> !r.error.MissingColumnsError?
    ensures r == Err(EmptyInventoryError) ==> Width(g) == ColumnCount
    ensures r.Ok? ==> 0 < |r.value| < |g|
    ensures r.Ok? ==> forall rec :: rec in r.value ==>
                        rec.marca != Null && rec.producto != Null && rec.ubicacion != Null
  {
    match BindHeaders(g)
    case Err(e) => Err(e)
    case Ok(raw) =>
      RequiredColumnsAlwaysPresent();
      match CheckColumns(RenameFrame(raw, ColumnMapping))
      case Err(e) => Err(e)
      case Ok(f) => CleanRows(f)
  }
}
