/** `df.groupby(field)['Cajas disponibles'].sum()`, the data behind the
    two pie charts (app.py:168 by Ubicacion, app.py:216 by Marca). */
module Groups {
  import opened Cells
  import opened Loader
  import opened Filters

  /** Boxes over all records. */
  function Total(rs: seq<Record>): int {
    if |rs| == 0 then 0 else Total(rs[..|rs| - 1]) + rs[|rs| - 1].cajas
  }

  /** Boxes over the records whose `f` field is `k`. */
  function TotalWhere(rs: seq<Record>, f: Field, k: Cell): int {
    if |rs| == 0 then 0
    else TotalWhere(rs[..|rs| - 1], f, k) + (if KeyOf(rs[|rs| - 1], f) == k then rs[|rs| - 1].cajas else 0)
  }

  /** One row of the grouped frame: a key and its summed boxes. */
  datatype Group = Group(key: Cell, boxes: int)

  function Keys(gs: seq<Group>): seq<Cell> {
    seq(|gs|, i requires 0 <= i < |gs| => gs[i].key)
  }

  predicate DistinctKeys(gs: seq<Group>) {
    forall i, j :: 0 <= i < j < |gs| ==> gs[i].key != gs[j].key
  }

  /** The boxes of all groups together. */
  function SumBoxes(gs: seq<Group>): int {
    if |gs| == 0 then 0 else gs[0].boxes + SumBoxes(gs[1..])
  }

  /** Account `v` boxes to key `k`: the group of `k` grows by `v`, or a
      new group for `k` is appended; every other group is unchanged. */
  function AddTo(gs: seq<Group>, k: Cell, v: int): (r: seq<Group>)
    requires DistinctKeys(gs)
    ensures |r| == if k in Keys(gs) then |gs| else |gs| + 1
    ensures forall i :: 0 <= i < |gs| ==>
              r[i] == Group(gs[i].key, gs[i].boxes + if gs[i].key == k then v else 0)
    ensures k !in Keys(gs) ==> r[|gs|] == Group(k, v)
  {
    if |gs| == 0 then [Group(k, v)]
    else
      assert Keys(gs) == [gs[0].key] + Keys(gs[1..]);
      if gs[0].key == k then
        [Group(k, gs[0].boxes + v)] + gs[1..]
      else
        [gs[0]] + AddTo(gs[1..], k, v)
  }

  /** Adding to a group never creates a second group for a key. */
  lemma AddToDistinct(gs: seq<Group>, k: Cell, v: int)
    requires DistinctKeys(gs)
    ensures DistinctKeys(AddTo(gs, k, v))
  {
    var r := AddTo(gs, k, v);
    if k !in Keys(gs) {
      forall i | 0 <= i < |gs|
        ensures r[i].key != r[|gs|].key
      {
        assert Keys(gs)[i] == gs[i].key;
      }
    }
  }

  /** Adding `v` boxes to the groups adds `v` to their sum. */
  lemma {:induction false} AddToSum(gs: seq<Group>, k: Cell, v: int)
    requires DistinctKeys(gs)
    ensures SumBoxes(AddTo(gs, k, v)) == SumBoxes(gs) + v
  {
    if |gs| > 0 && gs[0].key != k {
      AddToSum(gs[1..], k, v);
      var r := AddTo(gs, k, v);
      assert r[1..] == AddTo(gs[1..], k, v);
    } else if |gs| > 0 {
      var r := AddTo(gs, k, v);
      assert r[1..] == gs[1..];
    }
  }

  /** A key that no record carries has no boxes. */
  lemma {:induction false} TotalWhereAbsent(rs: seq<Record>, f: Field, k: Cell)
    ensures k !in Column(rs, f) ==> TotalWhere(rs, f, k) == 0
  {
    if |rs| > 0 && k !in Column(rs, f) {
      assert Column(rs, f) == Column(rs[..|rs| - 1], f) + [KeyOf(rs[|rs| - 1], f)];
      TotalWhereAbsent(rs[..|rs| - 1], f, k);
    }
  }

  /** The grouped frame: one group per distinct key of the column, in the
      order the keys first occur. */
  function GroupSum(rs: seq<Record>, f: Field): (r: seq<Group>)
    ensures DistinctKeys(r)
    ensures forall k :: k in Keys(r) <==> k in Column(rs, f)
    ensures |r| <= |rs| && (|r| == 0 <==> |rs| == 0)
  {
    if |rs| == 0 then []
    else
      var init := rs[..|rs| - 1];
      var k := KeyOf(rs[|rs| - 1], f);
      var p := GroupSum(init, f);
      assert Column(rs, f) == Column(init, f) + [k];
      var r := AddTo(p, k, rs[|rs| - 1].cajas);
      AddToDistinct(p, k, rs[|rs| - 1].cajas);
      assert Keys(r) == if k in Keys(p) then Keys(p) else Keys(p) + [k];
      r
  }

  /** Each group holds exactly the boxes of the records with its key. */
  lemma {:induction false} GroupSumTotals(rs: seq<Record>, f: Field)
    ensures forall i :: 0 <= i < |GroupSum(rs, f)| ==>
              GroupSum(rs, f)[i].boxes == TotalWhere(rs, f, GroupSum(rs, f)[i].key)
  {
    if |rs| > 0 {
      var init := rs[..|rs| - 1];
      var k := KeyOf(rs[|rs| - 1], f);
      var p := GroupSum(init, f);
      var v := rs[|rs| - 1].cajas;
      var r := GroupSum(rs, f);
      assert r == AddTo(p, k, v);
      GroupSumTotals(init, f);
      TotalWhereAbsent(init, f, k);
      forall i | 0 <= i < |r|
        ensures r[i].boxes == TotalWhere(rs, f, r[i].key)
      {
        if i < |p| {
          assert r[i].boxes == p[i].boxes + if p[i].key == k then v else 0;
        } else {
          assert r[i] == Group(k, v);
        }
      }
    }
  }

  /** Grouping loses no box and counts none twice: the groups' boxes add
      up to the boxes of all records. */
  lemma {:induction false} GroupSumConserves(rs: seq<Record>, f: Field)
    ensures SumBoxes(GroupSum(rs, f)) == Total(rs)
  {
    if |rs| > 0 {
      var init := rs[..|rs| - 1];
      GroupSumConserves(init, f);
      AddToSum(GroupSum(init, f), KeyOf(rs[|rs| - 1], f), rs[|rs| - 1].cajas);
    }
  }
}
