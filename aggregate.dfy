/** `groupby(keys)[column].sum()` over a column that may hold missing
    values. pandas' `sum` skips NaN, so a group whose values are all missing
    sums to 0; groups are formed only for keys that occur. A column is given
    as a sequence of (key, value) pairs, one per record. */
module Aggregate {
  import opened Values

  /** What one pair adds to the sum of group `k`. */
  function Contribution<K(==)>(x: (K, Option<real>), k: K): real
  {
    if x.0 == k && x.1.Some? then x.1.value else 0.0
  }

  /** The sum of group `k`. */
  function SumFor<K(==)>(ps: seq<(K, Option<real>)>, k: K): real
  {
    if ps == [] then 0.0 else SumFor(ps[..|ps| - 1], k) + Contribution(ps[|ps| - 1], k)
  }

  /** The present values of group `k`, in order. */
  function PresentValues<K(==)>(ps: seq<(K, Option<real>)>, k: K): (vs: seq<real>)
  {
    if ps == [] then []
    else
      var x := ps[|ps| - 1];
      PresentValues(ps[..|ps| - 1], k) + (if x.0 == k && x.1.Some? then [x.1.value] else [])
  }

  /** The plain sum of a sequence of numbers. */
  function Sum(xs: seq<real>): real
  {
    if xs == [] then 0.0 else Sum(xs[..|xs| - 1]) + xs[|xs| - 1]
  }

  lemma {:induction false} SumConcat(a: seq<real>, b: seq<real>)
    ensures Sum(a + b) == Sum(a) + Sum(b)
  {
    if b != [] {
      assert (a + b)[..|a + b| - 1] == a + b[..|b| - 1];
      SumConcat(a, b[..|b| - 1]);
    } else {
      assert a + b == a;
    }
  }

  /** A group sum is the sum of that group's present values and nothing
      else: missing values are skipped, and other groups do not count. */
  lemma {:induction false} SumForPresent<K>(ps: seq<(K, Option<real>)>, k: K)
    ensures SumFor(ps, k) == Sum(PresentValues(ps, k))
  {
    if ps != [] {
      var x := ps[|ps| - 1];
      var front := ps[..|ps| - 1];
      SumForPresent(front, k);
      SumConcat(PresentValues(front, k), if x.0 == k && x.1.Some? then [x.1.value] else []);
    }
  }

  /** The present values of group `k` are exactly the values of the pairs
      of that key whose value is present; there are none exactly when every
      pair of that key is missing. */
  lemma {:induction false} PresentValuesMembers<K>(ps: seq<(K, Option<real>)>, k: K)
    ensures |PresentValues(ps, k)| <= |ps|
    ensures forall v :: v in PresentValues(ps, k) <==>
      exists j :: 0 <= j < |ps| && ps[j].0 == k && ps[j].1 == Some(v)
    ensures (PresentValues(ps, k) == []) <==>
      forall j :: 0 <= j < |ps| && ps[j].0 == k ==> ps[j].1.None?
  {
    if ps != [] {
      var front := ps[..|ps| - 1];
      var x := ps[|ps| - 1];
      PresentValuesMembers(front, k);
      assert forall j :: 0 <= j < |front| ==> front[j] == ps[j];
      forall v
        ensures v in PresentValues(ps, k) <==> exists j :: 0 <= j < |ps| && ps[j].0 == k && ps[j].1 == Some(v)
      {
        if exists j :: 0 <= j < |ps| && ps[j].0 == k && ps[j].1 == Some(v) {
          var j :| 0 <= j < |ps| && ps[j].0 == k && ps[j].1 == Some(v);
          if j < |front| {
            assert front[j].0 == k && front[j].1 == Some(v);
          }
        }
      }
    }
  }

  /** A group whose values are all missing sums to 0. */
  lemma AllMissingSumsToZero<K>(ps: seq<(K, Option<real>)>, k: K)
    requires forall j :: 0 <= j < |ps| && ps[j].0 == k ==> ps[j].1.None?
    ensures SumFor(ps, k) == 0.0
  {
    PresentValuesMembers(ps, k);
    SumForPresent(ps, k);
  }

  lemma SumForSnoc<K>(ps: seq<(K, Option<real>)>, x: (K, Option<real>), k: K)
    ensures SumFor(ps + [x], k) == SumFor(ps, k) + Contribution(x, k)
  {
    assert (ps + [x])[..|ps|] == ps;
  }

  /** Group sums add up over concatenated columns. */
  lemma {:induction false} SumForConcat<K>(a: seq<(K, Option<real>)>, b: seq<(K, Option<real>)>, k: K)
    ensures SumFor(a + b, k) == SumFor(a, k) + SumFor(b, k)
  {
    if b != [] {
      var front := b[..|b| - 1];
      assert a + b == (a + front) + [b[|b| - 1]];
      SumForSnoc(a + front, b[|b| - 1], k);
      SumForConcat(a, front, k);
    } else {
      assert a + b == a;
    }
  }

  predicate Distinct<K(==)>(ks: seq<K>)
  {
    forall i, j :: 0 <= i < j < |ks| ==> ks[i] != ks[j]
  }

  /** The keys that occur, each once, in order of first appearance. */
  function Keys<K(==)>(ps: seq<(K, Option<real>)>): (ks: seq<K>)
    ensures Distinct(ks)
    ensures forall j :: 0 <= j < |ps| ==> ps[j].0 in ks
    ensures forall i :: 0 <= i < |ks| ==> exists j :: 0 <= j < |ps| && ps[j].0 == ks[i]
  {
    if ps == [] then []
    else
      var front := ps[..|ps| - 1];
      var ks := Keys(front);
      assert forall j :: 0 <= j < |front| ==> front[j] == ps[j];
      if ps[|ps| - 1].0 in ks then ks else ks + [ps[|ps| - 1].0]
  }

  /** One row per listed key, with that key's group sum. */
  function Table<K(==)>(ks: seq<K>, ps: seq<(K, Option<real>)>): (g: seq<(K, real)>)
  {
    seq(|ks|, j requires 0 <= j < |ks| => (ks[j], SumFor(ps, ks[j])))
  }

  /** `groupby(key)[col].sum()`. */
  function GroupSum<K(==)>(ps: seq<(K, Option<real>)>): (g: seq<(K, real)>)
  {
    Table(Keys(ps), ps)
  }

  /** The group-by result has one row per key, and each row holds the sum of
      its group. */
  lemma GroupSumRows<K>(ps: seq<(K, Option<real>)>)
    ensures forall i, j :: 0 <= i < j < |GroupSum(ps)| ==> GroupSum(ps)[i].0 != GroupSum(ps)[j].0
    ensures forall i :: 0 <= i < |GroupSum(ps)| ==> GroupSum(ps)[i].1 == SumFor(ps, GroupSum(ps)[i].0)
  {
    var g := GroupSum(ps);
    var ks := Keys(ps);
    assert |g| == |ks| && forall i :: 0 <= i < |g| ==> g[i].0 == ks[i];
  }

  /** The group-by result has a row for every key that occurs in the column
      and for no other key. */
  lemma GroupSumKeys<K>(ps: seq<(K, Option<real>)>)
    ensures forall j :: 0 <= j < |ps| ==> exists i :: 0 <= i < |GroupSum(ps)| && GroupSum(ps)[i].0 == ps[j].0
    ensures forall i :: 0 <= i < |GroupSum(ps)| ==> exists j :: 0 <= j < |ps| && ps[j].0 == GroupSum(ps)[i].0
  {
    var g := GroupSum(ps);
    var ks := Keys(ps);
    assert |g| == |ks| && forall i :: 0 <= i < |g| ==> g[i].0 == ks[i];
    forall j | 0 <= j < |ps|
      ensures exists i :: 0 <= i < |g| && g[i].0 == ps[j].0
    {
      assert ps[j].0 in ks;
      var i :| 0 <= i < |ks| && ks[i] == ps[j].0;
      assert g[i].0 == ps[j].0;
    }
  }

  /** The row of the group-by result that holds the group of pair `j`. */
  lemma GroupOfPair<K>(ps: seq<(K, Option<real>)>, j: nat) returns (i: nat)
    requires j < |ps|
    ensures i < |GroupSum(ps)| && GroupSum(ps)[i].0 == ps[j].0
  {
    var ks := Keys(ps);
    assert ps[j].0 in ks;
    i :| 0 <= i < |ks| && ks[i] == ps[j].0;
  }

  /** A pair of the group that row `i` of the group-by result holds. */
  lemma PairOfGroup<K>(ps: seq<(K, Option<real>)>, i: nat) returns (j: nat)
    requires i < |GroupSum(ps)|
    ensures j < |ps| && ps[j].0 == GroupSum(ps)[i].0
  {
    var ks := Keys(ps);
    assert GroupSum(ps)[i].0 == ks[i];
    j :| 0 <= j < |ps| && ps[j].0 == ks[i];
  }

  /** A column with every key replaced by its image under `proj`. */
  function Project<K, L>(ps: seq<(K, Option<real>)>, proj: K -> L): (qs: seq<(L, Option<real>)>)
  {
    seq(|ps|, j requires 0 <= j < |ps| => (proj(ps[j].0), ps[j].1))
  }

  lemma ProjectSnoc<K, L>(ps: seq<(K, Option<real>)>, x: (K, Option<real>), proj: K -> L)
    ensures Project(ps + [x], proj) == Project(ps, proj) + [(proj(x.0), x.1)]
  {
  }

  /** A group-by result re-read as a column keyed by `proj` of its keys:
      the input of a second, coarser group-by. */
  function Regroup<K, L>(g: seq<(K, real)>, proj: K -> L): (qs: seq<(L, Option<real>)>)
  {
    seq(|g|, j requires 0 <= j < |g| => (proj(g[j].0), Some(g[j].1)))
  }

  /** The sum of the group sums of the listed keys that `proj` maps to `l`. */
  function SumOver<K(==), L(==)>(ks: seq<K>, ps: seq<(K, Option<real>)>, proj: K -> L, l: L): real
  {
    if ks == [] then 0.0
    else
      var k := ks[|ks| - 1];
      SumOver(ks[..|ks| - 1], ps, proj, l) + (if proj(k) == l then SumFor(ps, k) else 0.0)
  }

  /** Adding a pair to the column changes the sum over distinct keys by that
      pair's contribution, once, when its key is listed. */
  lemma {:induction false} SumOverSnoc<K, L>(ks: seq<K>, ps: seq<(K, Option<real>)>, x: (K, Option<real>), proj: K -> L, l: L)
    requires Distinct(ks)
    ensures SumOver(ks, ps + [x], proj, l) ==
      SumOver(ks, ps, proj, l) + (if x.0 in ks && proj(x.0) == l then Contribution(x, x.0) else 0.0)
  {
    if ks != [] {
      var k := ks[|ks| - 1];
      var front := ks[..|ks| - 1];
      assert Distinct(front);
      SumOverSnoc(front, ps, x, proj, l);
      SumForSnoc(ps, x, k);
      assert x.0 in ks <==> x.0 in front || x.0 == k;
      if x.0 == k {
        assert x.0 !in front;
      }
    }
  }

  /** Summing the group sums of distinct keys that cover the column, by
      `proj`, gives the group sums of the column keyed by `proj` directly. */
  lemma {:induction false} SumOverCovers<K, L>(ks: seq<K>, ps: seq<(K, Option<real>)>, proj: K -> L, l: L)
    requires Distinct(ks)
    requires forall j :: 0 <= j < |ps| ==> ps[j].0 in ks
    ensures SumOver(ks, ps, proj, l) == SumFor(Project(ps, proj), l)
  {
    if ps == [] {
      SumOverEmpty(ks, ps, proj, l);
    } else {
      var front := ps[..|ps| - 1];
      var x := ps[|ps| - 1];
      assert ps == front + [x];
      SumOverCovers(ks, front, proj, l);
      SumOverSnoc(ks, front, x, proj, l);
      assert Project(ps, proj) == Project(front, proj) + [(proj(x.0), x.1)];
      SumForSnoc(Project(front, proj), (proj(x.0), x.1), l);
    }
  }

  lemma {:induction false} SumOverEmpty<K, L>(ks: seq<K>, ps: seq<(K, Option<real>)>, proj: K -> L, l: L)
    requires ps == []
    ensures SumOver(ks, ps, proj, l) == 0.0
  {
    if ks != [] {
      SumOverEmpty(ks[..|ks| - 1], ps, proj, l);
    }
  }

  /** Summing a table's rows by `proj` is the sum over its keys. */
  lemma {:induction false} RegroupTable<K, L>(ks: seq<K>, ps: seq<(K, Option<real>)>, proj: K -> L, l: L)
    ensures SumFor(Regroup(Table(ks, ps), proj), l) == SumOver(ks, ps, proj, l)
  {
    if ks != [] {
      var front := ks[..|ks| - 1];
      var k := ks[|ks| - 1];
      RegroupTable(front, ps, proj, l);
      assert Regroup(Table(ks, ps), proj) == Regroup(Table(front, ps), proj) + [(proj(k), Some(SumFor(ps, k)))];
      SumForSnoc(Regroup(Table(front, ps), proj), (proj(k), Some(SumFor(ps, k))), l);
    }
  }

  /** Sum decomposition: grouping by a fine key, then grouping those sums by
      a coarser key `proj`, gives for every coarse key the same total as
      grouping the original column by the coarse key directly. */
  lemma RegroupTotals<K, L>(ps: seq<(K, Option<real>)>, proj: K -> L, l: L)
    ensures SumFor(Regroup(GroupSum(ps), proj), l) == SumFor(Project(ps, proj), l)
  {
    RegroupTable(Keys(ps), ps, proj, l);
    forall j | 0 <= j < |ps|
      ensures ps[j].0 in Keys(ps)
    {
    }
    SumOverCovers(Keys(ps), ps, proj, l);
  }

  /** The row of the regrouped result that the image under `proj` of pair `j`'s key falls in. */
  lemma RegroupRowOfPair<K, L>(ps: seq<(K, Option<real>)>, proj: K -> L, j: nat) returns (i: nat)
    requires j < |ps|
    ensures i < |GroupSum(Regroup(GroupSum(ps), proj))|
    ensures GroupSum(Regroup(GroupSum(ps), proj))[i].0 == proj(ps[j].0)
  {
    var a := GroupOfPair(ps, j);
    var q := Regroup(GroupSum(ps), proj);
    assert q[a].0 == proj(ps[j].0);
    i := GroupOfPair(q, a);
  }

  /** A pair whose key `proj` maps to row `i` of the regrouped result. */
  lemma PairOfRegroupRow<K, L>(ps: seq<(K, Option<real>)>, proj: K -> L, i: nat) returns (j: nat)
    requires i < |GroupSum(Regroup(GroupSum(ps), proj))|
    ensures j < |ps| && proj(ps[j].0) == GroupSum(Regroup(GroupSum(ps), proj))[i].0
  {
    var q := Regroup(GroupSum(ps), proj);
    var a := PairOfGroup(q, i);
    j := PairOfGroup(ps, a);
  }
}
