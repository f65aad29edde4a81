/** The option lists of the three select boxes (app.py:118-127):
    `[sentinel] + sorted(df[field].unique().tolist())`. Python's `sorted`
    orders numbers among numbers and text among text, and raises a
    `TypeError` as soon as it has to compare a number with a text; that
    comparison is unavoidable once both kinds occur, so a mixed column is
    an error here. */
module Options {
  import opened Seqs
  import opened Cells

  /** Raised by `sorted` on a column holding both a number and a text;
      the two cells are the pair Python cannot compare. */
  datatype OptionsError = UnorderableValues(number: Cell, text: Cell)

  /** Strictly increasing under Python's `<`: sorted and duplicate-free. */
  predicate Ascending(s: seq<Cell>) {
    forall i, j :: 0 <= i < j < |s| ==> CellLess(s[i], s[j])
  }

  /** All numbers or all texts: a column `sorted` can order. */
  predicate Uniform(column: seq<Cell>) {
    (forall c :: c in column ==> c.Int?) || (forall c :: c in column ==> c.Text?)
  }

  /** The first number of a column, if any. */
  function FirstInt(column: seq<Cell>): (r: Option<Cell>)
    ensures r.None? <==> forall c :: c in column ==> !c.Int?
    ensures r.Some? ==> r.value in column && r.value.Int?
  {
    if |column| == 0 then None
    else if column[0].Int? then Some(column[0])
    else
      var r := FirstInt(column[1..]);
      assert column == [column[0]] + column[1..];
      r
  }

  /** The first text of a column, if any. */
  function FirstText(column: seq<Cell>): (r: Option<Cell>)
    ensures r.None? <==> forall c :: c in column ==> !c.Text?
    ensures r.Some? ==> r.value in column && r.value.Text?
  {
    if |column| == 0 then None
    else if column[0].Text? then Some(column[0])
    else
      var r := FirstText(column[1..]);
      assert column == [column[0]] + column[1..];
      r
  }

  /** Below the head of an ascending sequence means below all of it. */
  lemma BelowHeadBelowAll(x: Cell, s: seq<Cell>)
    requires Ascending(s) && |s| > 0 && CellLess(x, s[0])
    ensures forall y :: y in s ==> CellLess(x, y)
  {
    forall y | y in s
      ensures CellLess(x, y)
    {
      if y != s[0] {
        CellLessTransitive(x, s[0], y);
      }
    }
  }

  /** A cell below every element extends an ascending sequence at the front. */
  lemma PrependAscending(a: Cell, s: seq<Cell>)
    requires Ascending(s)
    requires forall y :: y in s ==> CellLess(a, y)
    ensures Ascending([a] + s)
  {
    var r := [a] + s;
    forall i, j | 0 <= i < j < |r|
      ensures CellLess(r[i], r[j])
    {
      if i == 0 {
        assert r[j] == s[j - 1];
        IndexedMember(s, j - 1, r[j]);
      } else {
        assert r[i] == s[i - 1] && r[j] == s[j - 1];
      }
    }
  }

  /** The tail of an ascending sequence lies above its head. */
  lemma TailAboveHead(s: seq<Cell>)
    requires Ascending(s) && |s| > 0
    ensures Ascending(s[1..])
    ensures forall y :: y in s[1..] ==> CellLess(s[0], y)
  {
    forall y | y in s[1..]
      ensures CellLess(s[0], y)
    {
      var k :| 0 <= k < |s[1..]| && s[1..][k] == y;
      assert s[k + 1] == y;
    }
  }

  /** Insert one value into an ascending sequence of values of its kind;
      a value already present leaves the sequence unchanged (`unique`). */
  function Insert(x: Cell, s: seq<Cell>): (r: seq<Cell>)
    requires Ascending(s)
    requires forall y :: y in s ==> Comparable(x, y)
    ensures Ascending(r)
    ensures forall y :: y in r <==> y == x || y in s
  {
    if |s| == 0 then [x]
    else if x == s[0] then s
    else if CellLess(x, s[0]) then
      BelowHeadBelowAll(x, s);
      PrependAscending(x, s);
      [x] + s
    else
      assert s[0] in s;
      CellLessTotal(x, s[0]);
      TailAboveHead(s);
      var rest := Insert(x, s[1..]);
      assert s == [s[0]] + s[1..];
      PrependAscending(s[0], rest);
      [s[0]] + rest
  }

  /** `sorted(column.unique())`: the distinct values of a uniform column
      in ascending order. */
  function SortedValues(column: seq<Cell>): (r: seq<Cell>)
    requires Uniform(column)
    ensures Ascending(r)
    ensures forall c :: c in r <==> c in column
  {
    if |column| == 0 then []
    else
      var init := column[..|column| - 1];
      var x := column[|column| - 1];
      assert column == init + [x];
      assert Uniform(init);
      var r := SortedValues(init);
      assert x in column;
      Insert(x, r)
  }

  /** The option list of one select box. Every value of the column is
      offered once, in ascending order, after the sentinel; a column
      holding both numbers and text cannot be sorted and is an error. */
  function SelectOptions(sentinel: string, column: seq<Cell>): (r: Result<seq<Cell>, OptionsError>)
    requires forall c :: c in column ==> c != Null
    ensures r.Ok? <==> Uniform(column)
    ensures r.Ok? ==> |r.value| > 0 && r.value[0] == Text(sentinel)
    ensures r.Ok? ==> Ascending(r.value[1..])
    ensures r.Ok? ==> forall c :: c in r.value[1..] <==> c in column
    ensures r.Err? ==> r.error.number in column && r.error.number.Int?
    ensures r.Err? ==> r.error.text in column && r.error.text.Text?
  {
    match (FirstInt(column), FirstText(column))
    case (Some(n), Some(t)) => Err(UnorderableValues(n, t))
    case _ =>
      var values := SortedValues(column);
      assert ([Text(sentinel)] + values)[1..] == values;
      Ok([Text(sentinel)] + values)
  }

  /** An ascending sequence never repeats a value: each option is listed
      once. */
  lemma AscendingNoDuplicates(s: seq<Cell>)
    requires Ascending(s)
    ensures forall i, j :: 0 <= i < |s| && 0 <= j < |s| && i != j ==> s[i] != s[j]
  {
    forall i, j | 0 <= i < |s| && 0 <= j < |s| && i != j
      ensures s[i] != s[j]
    {
      CellLessIrreflexive(s[i]);
    }
  }

  /** The head of an ascending sequence is below every other member. */
  lemma HeadIsLeast(s: seq<Cell>, y: Cell)
    requires Ascending(s) && |s| > 0 && y in s && y != s[0]
    ensures CellLess(s[0], y)
  {
  }

  /** A member of the tail of an ascending sequence is a member other
      than the head. */
  lemma TailMember(s: seq<Cell>, c: Cell)
    requires Ascending(s) && |s| > 0 && c in s[1..]
    ensures c in s && c != s[0]
  {
    var k :| 0 <= k < |s| - 1 && s[1..][k] == c;
    assert s[k + 1] == c;
    CellLessIrreflexive(s[0]);
  }

  /** There is only one ascending sequence of a given set of values, so
      the option list is determined by the column whatever algorithm
      does the sorting. */
  lemma {:induction false} AscendingUnique(a: seq<Cell>, b: seq<Cell>)
    requires Ascending(a) && Ascending(b)
    requires forall c :: c in a <==> c in b
    ensures a == b
    decreases |a|
  {
    assert |a| > 0 ==> a[0] in a;
    assert |b| > 0 ==> b[0] in b;
    if |a| > 0 {
      if a[0] != b[0] {
        HeadIsLeast(a, b[0]);
        HeadIsLeast(b, a[0]);
        CellLessTransitive(a[0], b[0], a[0]);
        CellLessIrreflexive(a[0]);
        assert false;
      }
      TailAboveHead(a);
      TailAboveHead(b);
      CellLessIrreflexive(a[0]);
      assert a == [a[0]] + a[1..] && b == [b[0]] + b[1..];
      forall c | c in a[1..]
        ensures c in b[1..]
      {
        TailMember(a, c);
        assert c in b && c != b[0];
      }
      forall c | c in b[1..]
        ensures c in a[1..]
      {
        TailMember(b, c);
        assert c in a && c != a[0];
      }
      AscendingUnique(a[1..], b[1..]);
      assert a == [a[0]] + a[1..] && b == [b[0]] + b[1..];
    }
  }
}
