/** `sort_values('Cajas disponibles', ascending=False)` (app.py:149,
    app.py:157-158) and its first ten rows, `.head(10)` (app.py:200).
    The sort pandas uses by default is not stable, so the order among
    records with equal boxes is not promised: the model promises a
    permutation in non-increasing order of boxes. */
module Ranking {
  import opened Loader

  /** Records in non-increasing order of boxes. */
  predicate NonIncreasing(rs: seq<Record>) {
    forall i, j :: 0 <= i < j < |rs| ==> rs[i].cajas >= rs[j].cajas
  }

  /** A record with at least the boxes of every element extends a
      non-increasing sequence at the front. */
  lemma PrependNonIncreasing(x: Record, s: seq<Record>)
    requires NonIncreasing(s)
    requires forall y :: y in s ==> x.cajas >= y.cajas
    ensures NonIncreasing([x] + s)
  {
    var r := [x] + s;
    forall i, j | 0 <= i < j < |r|
      ensures r[i].cajas >= r[j].cajas
    {
      if i == 0 {
        assert r[j] == s[j - 1];
      } else {
        assert r[i] == s[i - 1] && r[j] == s[j - 1];
      }
    }
  }

  /** The head of a non-increasing sequence bounds its tail with a
      smaller record inserted. */
  lemma HeadBoundsInsert(x: Record, s: seq<Record>, rest: seq<Record>)
    requires NonIncreasing(s) && |s| > 0 && x.cajas < s[0].cajas
    requires multiset(rest) == multiset(s[1..]) + multiset{x}
    ensures forall y :: y in rest ==> s[0].cajas >= y.cajas
  {
    forall y | y in rest
      ensures s[0].cajas >= y.cajas
    {
      assert y in multiset(rest);
      if y != x {
        assert y in s[1..];
        var k :| 0 <= k < |s| - 1 && s[1..][k] == y;
        assert s[k + 1] == y;
      }
    }
  }

  /** Insert a record after every record with more boxes. */
  function InsertByBoxes(x: Record, s: seq<Record>): (r: seq<Record>)
    requires NonIncreasing(s)
    ensures NonIncreasing(r)
    ensures multiset(r) == multiset(s) + multiset{x}
  {
    if |s| == 0 then [x]
    else if x.cajas >= s[0].cajas then
      PrependNonIncreasing(x, s);
      [x] + s
    else
      assert s == [s[0]] + s[1..];
      var rest := InsertByBoxes(x, s[1..]);
      HeadBoundsInsert(x, s, rest);
      PrependNonIncreasing(s[0], rest);
      [s[0]] + rest
  }

  /** The detail table: the records reordered, most boxes first. */
  function SortByBoxes(rs: seq<Record>): (r: seq<Record>)
    ensures NonIncreasing(r)
    ensures multiset(r) == multiset(rs)
    ensures |r| == |rs|
  {
    if |rs| == 0 then []
    else
      assert rs == [rs[0]] + rs[1..];
      var sorted := SortByBoxes(rs[1..]);
      var r := InsertByBoxes(rs[0], sorted);
      assert |r| == |multiset(r)|;
      r
  }

  function Min(a: int, b: int): int {
    if a <= b then a else b
  }

  /** The first `n` rows of the sorted table: as many records as there
      are, up to `n`, in non-increasing order, and no record left out has
      more boxes than one shown. */
  function Top(rs: seq<Record>, n: nat): (r: seq<Record>)
    ensures |r| == Min(n, |rs|)
    ensures NonIncreasing(r)
    ensures multiset(r) <= multiset(rs)
    ensures forall x, y :: x in r && multiset(rs)[y] > multiset(r)[y] ==> y.cajas <= x.cajas
  {
    var sorted := SortByBoxes(rs);
    var m := Min(n, |rs|);
    TopOfSorted(sorted, m);
    sorted[..m]
  }

  /** A prefix of a non-increasing sequence holds its largest elements. */
  lemma TopOfSorted(s: seq<Record>, m: nat)
    requires NonIncreasing(s) && m <= |s|
    ensures NonIncreasing(s[..m])
    ensures multiset(s[..m]) <= multiset(s)
    ensures forall x, y :: x in s[..m] && multiset(s)[y] > multiset(s[..m])[y] ==> y.cajas <= x.cajas
  {
    assert s == s[..m] + s[m..];
    forall x, y | x in s[..m] && multiset(s)[y] > multiset(s[..m])[y]
      ensures y.cajas <= x.cajas
    {
      LeftOutBelowShown(s, m, x, y);
    }
  }

  /** One record of the prefix against one occurrence beyond it. */
  lemma LeftOutBelowShown(s: seq<Record>, m: nat, x: Record, y: Record)
    requires NonIncreasing(s) && m <= |s| && s == s[..m] + s[m..]
    requires x in s[..m] && multiset(s)[y] > multiset(s[..m])[y]
    ensures y.cajas <= x.cajas
  {
    assert multiset(s) == multiset(s[..m]) + multiset(s[m..]);
    assert y in multiset(s[m..]);
    var i :| 0 <= i < m && s[..m][i] == x;
    var j :| 0 <= j < |s| - m && s[m..][j] == y;
    assert s[i] == x && s[m + j] == y;
  }

  /** The sequence of box counts, the column the tables display. */
  function Boxes(rs: seq<Record>): seq<int> {
    seq(|rs|, i requires 0 <= i < |rs| => rs[i].cajas)
  }

  /** Deleting one record keeps a sequence non-increasing. */
  lemma RemoveNonIncreasing(s: seq<Record>, j: nat)
    requires NonIncreasing(s) && j < |s|
    ensures NonIncreasing(s[..j] + s[j + 1..])
  {
    var t := s[..j] + s[j + 1..];
    forall p, q | 0 <= p < q < |t|
      ensures t[p].cajas >= t[q].cajas
    {
      var p' := if p < j then p else p + 1;
      var q' := if q < j then q else q + 1;
      assert t[p] == s[p'] && t[q] == s[q'];
    }
  }

  /** A record occurring in a sequence sits at some index. */
  lemma IndexOfMember(s: seq<Record>, x: Record) returns (j: nat)
    requires x in multiset(s)
    ensures j < |s| && s[j] == x
  {
    assert x in s;
    j :| 0 <= j < |s| && s[j] == x;
  }

  /** Two non-increasing arrangements of the same records begin with the
      same box count, the largest. */
  lemma HeadsAgree(a: seq<Record>, b: seq<Record>)
    requires NonIncreasing(a) && NonIncreasing(b)
    requires multiset(a) == multiset(b) && |a| > 0
    ensures |b| > 0 && a[0].cajas == b[0].cajas
  {
    assert a[0] in multiset(a);
    var j := IndexOfMember(b, a[0]);
    var i := IndexOfMember(a, b[0]);
  }

  /** Removing a record tied with the head shifts the box counts after
      the head by one place and changes none of them. */
  lemma RemoveTiedWithHead(b: seq<Record>, j: nat)
    requires NonIncreasing(b) && j < |b| && b[j].cajas == b[0].cajas
    ensures forall k :: 1 <= k < |b| ==> b[k].cajas == (b[..j] + b[j + 1..])[k - 1].cajas
  {
    var t := b[..j] + b[j + 1..];
    forall k | 1 <= k < |b|
      ensures b[k].cajas == t[k - 1].cajas
    {
      if k <= j {
        assert t[k - 1] == b[k - 1];
      } else {
        assert t[k - 1] == b[k];
      }
    }
  }

  /** Taking the head off one arrangement and an equal record off the
      other leaves equal multisets. */
  lemma RemoveSameRecord(a: seq<Record>, b: seq<Record>, j: nat)
    requires multiset(a) == multiset(b) && |a| > 0 && j < |b| && b[j] == a[0]
    ensures multiset(a[1..]) == multiset(b[..j] + b[j + 1..])
  {
    assert b == b[..j] + [b[j]] + b[j + 1..];
    assert multiset(b) == multiset(b[..j]) + multiset{b[j]} + multiset(b[j + 1..]);
    assert a == [a[0]] + a[1..];
    assert multiset(a) == multiset{a[0]} + multiset(a[1..]);
    assert multiset(a[1..]) == multiset(a) - multiset{a[0]};
    assert multiset(b[..j] + b[j + 1..]) == multiset(b[..j]) + multiset(b[j + 1..]);
  }

  /** Two non-increasing arrangements of the same records show the same
      box counts row by row: the order an unstable sort leaves among ties
      never changes the boxes column. */
  lemma {:induction false} SameBoxes(a: seq<Record>, b: seq<Record>)
    requires NonIncreasing(a) && NonIncreasing(b)
    requires multiset(a) == multiset(b)
    ensures Boxes(a) == Boxes(b)
    decreases |a|
  {
    assert |a| == |multiset(a)| && |b| == |multiset(b)|;
    if |a| > 0 {
      HeadsAgree(a, b);
      assert a[0] in multiset(b);
      var j := IndexOfMember(b, a[0]);
      var t := b[..j] + b[j + 1..];
      RemoveNonIncreasing(b, j);
      RemoveSameRecord(a, b, j);
      SameBoxes(a[1..], t);
      RemoveTiedWithHead(b, j);
      forall k | 1 <= k < |a|
        ensures a[k].cajas == b[k].cajas
      {
        assert a[k] == a[1..][k - 1];
        assert Boxes(a[1..])[k - 1] == Boxes(t)[k - 1];
      }
    }
  }

  /** The bar chart's rows, `head(10)`. */
  const BarLimit: nat := 10
}
