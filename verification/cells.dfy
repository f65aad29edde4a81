/** Spreadsheet cells as the data frame holds them after the workbook has
    been read without a header: empty (NaN), a whole number, or text.
    This module also gives the two things the pipeline does with a
    single cell: numeric coercion (`pd.to_numeric(errors='coerce')`
    followed by `fillna(0)`), and the `<` that Python's `sorted` uses on
    the selector values. */
module Cells {
  import opened Seqs

  datatype Cell = Null | Int(n: int) | Text(s: string)

  // ---------------------------------------------------------------------
  // Decimal text <-> integer

  predicate IsDigit(c: char) {
    '0' <= c <= '9'
  }

  predicate AllDigits(s: string) {
    forall i :: 0 <= i < |s| ==> IsDigit(s[i])
  }

  function DigitValue(c: char): (d: nat)
    requires IsDigit(c)
    ensures d < 10
  {
    (c as int) - ('0' as int)
  }

  function DigitChar(d: nat): (c: char)
    requires d < 10
    ensures IsDigit(c) && DigitValue(c) == d
  {
    (('0' as int) + d) as char
  }

  /** Value of a string of decimal digits, most significant digit first. */
  function DigitsValue(s: string): nat
    requires AllDigits(s)
  {
    if |s| == 0 then 0 else DigitsValue(s[..|s| - 1]) * 10 + DigitValue(s[|s| - 1])
  }

  /** Canonical decimal spelling of a natural number (no leading zeros). */
  function ShowNat(n: nat): (s: string)
    ensures |s| > 0 && AllDigits(s)
  {
    if n < 10 then [DigitChar(n)] else ShowNat(n / 10) + [DigitChar(n % 10)]
  }

  /** Canonical decimal spelling of an integer, with `-` for negatives. */
  function ShowInt(n: int): (s: string)
    ensures |s| > 0
  {
    if n < 0 then "-" + ShowNat(-n) else ShowNat(n)
  }

  /** The integer texts the model accepts: an optional `+` or `-` followed
      by at least one decimal digit. */
  predicate IsIntegerText(s: string) {
    if |s| > 0 && (s[0] == '-' || s[0] == '+') then |s| > 1 && AllDigits(s[1..])
    else |s| > 0 && AllDigits(s)
  }

  /** Parse an integer text; `None` for anything else ("aprox", "", "3.5"). */
  function ParseInt(s: string): (r: Option<int>)
    ensures r.Some? <==> IsIntegerText(s)
    ensures r.Some? && |s| > 0 && s[0] == '-' ==> r.value <= 0
    ensures r.Some? && |s| > 0 && s[0] != '-' ==> r.value >= 0
  {
    if |s| > 0 && (s[0] == '-' || s[0] == '+') then
      if |s| > 1 && AllDigits(s[1..]) then
        var m := DigitsValue(s[1..]);
        Some(if s[0] == '-' then 0 - m as int else m as int)
      else None
    else if |s| > 0 && AllDigits(s) then Some(DigitsValue(s))
    else None
  }

  lemma {:induction false} DigitsValueShowNat(n: nat)
    ensures DigitsValue(ShowNat(n)) == n
  {
    if n >= 10 {
      var s := ShowNat(n);
      assert s[..|s| - 1] == ShowNat(n / 10);
      DigitsValueShowNat(n / 10);
    }
  }

  /** Parsing undoes printing: every integer survives a round trip
      through its decimal text. */
  lemma ParseShowRoundTrip(n: int)
    ensures ParseInt(ShowInt(n)) == Some(n)
  {
    if n < 0 {
      NegativeRoundTrip(n);
    } else {
      var s := ShowNat(n);
      assert s[0] != '-' && s[0] != '+' by { assert IsDigit(s[0]); }
      DigitsValueShowNat(n);
    }
  }

  lemma NegativeRoundTrip(n: int)
    requires n < 0
    ensures ParseInt(ShowInt(n)) == Some(n)
  {
    var d := ShowNat(-n);
    var s := "-" + d;
    assert s[0] == '-' && s[1..] == d;
    DigitsValueShowNat(-n);
    assert DigitsValue(s[1..]) == -n;
  }

  /** A leading zero does not change the value of a digit string. */
  lemma {:induction false} DigitsValueLeadingZero(t: string)
    requires AllDigits(t)
    ensures AllDigits("0" + t) && DigitsValue("0" + t) == DigitsValue(t)
  {
    var z := "0" + t;
    assert AllDigits(z) by {
      forall i | 0 <= i < |z| ensures IsDigit(z[i]) {
        if i > 0 { assert z[i] == t[i - 1]; }
      }
    }
    if |t| > 0 {
      var init := t[..|t| - 1];
      assert z[..|z| - 1] == "0" + init;
      assert z[|z| - 1] == t[|t| - 1];
      DigitsValueLeadingZero(init);
    }
  }

  /** An explicit `+` reads the same integer as the bare digits. */
  lemma ParsePlusSign(t: string)
    requires |t| > 0 && AllDigits(t)
    ensures ParseInt("+" + t) == ParseInt(t)
  {
  }

  /** A `-` negates the integer the bare digits spell ("-0" is 0). */
  lemma ParseMinusSign(t: string)
    requires |t| > 0 && AllDigits(t)
    ensures ParseInt(t).Some? && ParseInt("-" + t) == Some(-ParseInt(t).value)
  {
  }

  /** Leading zeros are ignored: "007" reads as 7. */
  lemma ParseLeadingZero(t: string)
    requires |t| > 0 && AllDigits(t)
    ensures ParseInt("0" + t) == ParseInt(t)
  {
    DigitsValueLeadingZero(t);
  }

  // ---------------------------------------------------------------------
  // Numeric coercion of the boxes column

  /** `pd.to_numeric(errors='coerce').fillna(0)` on one cell: numbers stay,
      integer text is read, everything unparseable (and an empty cell)
      becomes 0. */
  function CoerceToInt(c: Cell): (v: int)
    ensures c.Int? ==> v == c.n
    ensures c.Text? && IsIntegerText(c.s) ==> ParseInt(c.s) == Some(v)
    ensures c.Null? || (c.Text? && !IsIntegerText(c.s)) ==> v == 0
  {
    match c
    case Null => 0
    case Int(n) => n
    case Text(s) => match ParseInt(s) { case Some(n) => n case None => 0 }
  }

  /** A number written as text coerces to the number itself. */
  lemma CoerceShownInt(n: int)
    ensures CoerceToInt(Text(ShowInt(n))) == n
  {
    ParseShowRoundTrip(n);
  }

  // ---------------------------------------------------------------------
  // Python's `<` on the values of one column

  /** Python's `str.__lt__`: lexicographic on code points, a proper prefix
      sorting first. */
  predicate StringLess(a: string, b: string)
    decreases |a|
  {
    if |a| == 0 then |b| > 0
    else if |b| == 0 then false
    else a[0] < b[0] || (a[0] == b[0] && StringLess(a[1..], b[1..]))
  }

  lemma {:induction false} StringLessIrreflexive(a: string)
    ensures !StringLess(a, a)
  {
    if |a| > 0 {
      StringLessIrreflexive(a[1..]);
    }
  }

  lemma {:induction false} StringLessTransitive(a: string, b: string, c: string)
    requires StringLess(a, b) && StringLess(b, c)
    ensures StringLess(a, c)
    decreases |a|
  {
    if |a| > 0 && |b| > 0 && |c| > 0 && a[0] == b[0] && b[0] == c[0] {
      StringLessTransitive(a[1..], b[1..], c[1..]);
    }
  }

  lemma {:induction false} StringLessTotal(a: string, b: string)
    requires a != b
    ensures StringLess(a, b) || StringLess(b, a)
    decreases |a|
  {
    if |a| > 0 && |b| > 0 && a[0] == b[0] {
      assert a == [a[0]] + a[1..] && b == [b[0]] + b[1..];
      StringLessTotal(a[1..], b[1..]);
    }
  }

  /** Two cells Python can compare with `<`: both numbers or both text. */
  predicate Comparable(a: Cell, b: Cell) {
    (a.Int? && b.Int?) || (a.Text? && b.Text?)
  }

  /** Python's `<` on comparable cells; false on every other pair. */
  predicate CellLess(a: Cell, b: Cell) {
    match (a, b)
    case (Int(x), Int(y)) => x < y
    case (Text(x), Text(y)) => StringLess(x, y)
    case _ => false
  }

  lemma CellLessIrreflexive(a: Cell)
    ensures !CellLess(a, a)
  {
    if a.Text? {
      StringLessIrreflexive(a.s);
    }
  }

  lemma CellLessTransitive(a: Cell, b: Cell, c: Cell)
    requires CellLess(a, b) && CellLess(b, c)
    ensures CellLess(a, c)
  {
    if a.Text? {
      StringLessTransitive(a.s, b.s, c.s);
    }
  }

  lemma CellLessTotal(a: Cell, b: Cell)
    requires Comparable(a, b) && a != b
    ensures CellLess(a, b) || CellLess(b, a)
  {
    if a.Text? {
      StringLessTotal(a.s, b.s);
    }
  }

  /** `CellLess` is a strict total order on each kind of non-empty cell. */
  lemma CellLessStrictOrder()
    ensures forall a :: !CellLess(a, a)
    ensures forall a, b, c :: CellLess(a, b) && CellLess(b, c) ==> CellLess(a, c)
    ensures forall a, b :: Comparable(a, b) && a != b ==> CellLess(a, b) || CellLess(b, a)
  {
    forall a
      ensures !CellLess(a, a)
    {
      CellLessIrreflexive(a);
    }
    forall a, b, c | CellLess(a, b) && CellLess(b, c)
      ensures CellLess(a, c)
    {
      CellLessTransitive(a, b, c);
    }
    forall a, b | Comparable(a, b) && a != b
      ensures CellLess(a, b) || CellLess(b, a)
    {
      CellLessTotal(a, b);
    }
  }
}
