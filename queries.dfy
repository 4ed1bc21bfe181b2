/** The dashboard's queries on the long-form frame: the unit filter, the
    inclusive period filter, the stacked per-(time, unit) sums with their
    per-time totals, and the per-unit and per-month summaries. Each is a
    vectorised pandas expression, so each is a function. */
module Queries {
  import opened Values
  import opened Aggregate
  import opened Metrics

  /** `df[mask]`: the records `keep` accepts, in their order. */
  function Where(rs: seq<EnergyRecord>, keep: EnergyRecord -> bool): (out: seq<EnergyRecord>)
    ensures |out| <= |rs|
    ensures forall j :: 0 <= j < |out| ==> keep(out[j])
  {
    if rs == [] then []
    else
      var last := rs[|rs| - 1];
      var front := rs[..|rs| - 1];
      assert rs == front + [last];
      Where(front, keep) + (if keep(last) then [last] else [])
  }

  /** The mask keeps each accepted record as often as it occurs and drops
      every other one. */
  lemma {:induction false} WhereCounts(rs: seq<EnergyRecord>, keep: EnergyRecord -> bool)
    ensures forall r :: multiset(Where(rs, keep))[r] == if keep(r) then multiset(rs)[r] else 0
  {
    if rs != [] {
      var last := rs[|rs| - 1];
      var front := rs[..|rs| - 1];
      WhereCounts(front, keep);
      assert rs == front + [last];
      assert multiset(rs) == multiset(front) + multiset{last};
    }
  }

  /** `df[df['Unidade'] == unidade]`. */
  function FilterUnit(rs: seq<EnergyRecord>, unit: string): (out: seq<EnergyRecord>)
  {
    Where(rs, (r: EnergyRecord) => r.unit == unit)
  }

  /** The unit filter keeps exactly the records of that unit, each as often
      as it occurs, and returns nothing for a unit no record has. */
  lemma FilterUnitSpec(rs: seq<EnergyRecord>, unit: string)
    ensures forall r :: r in FilterUnit(rs, unit) <==> r in rs && r.unit == unit
    ensures forall r: EnergyRecord :: r.unit == unit ==> multiset(FilterUnit(rs, unit))[r] == multiset(rs)[r]
    ensures (forall j :: 0 <= j < |rs| ==> rs[j].unit != unit) ==> FilterUnit(rs, unit) == []
  {
    var out := FilterUnit(rs, unit);
    WhereCounts(rs, (r: EnergyRecord) => r.unit == unit);
    forall r
      ensures r in out <==> r in rs && r.unit == unit
    {
      assert r in out <==> multiset(out)[r] > 0;
      assert r in rs <==> multiset(rs)[r] > 0;
    }
    if out != [] {
      assert out[0] in rs;
    }
  }

  /** `start <= Tempo <= end`; a missing time (NaT) compares false. */
  predicate InPeriod(t: Option<Timestamp>, start: Timestamp, end: Timestamp)
  {
    t.Some? && NotAfter(start, t.value) && NotAfter(t.value, end)
  }

  /** `df[(df['Tempo'] >= start) & (df['Tempo'] <= end)]`. */
  function FilterPeriod(rs: seq<EnergyRecord>, start: Timestamp, end: Timestamp): (out: seq<EnergyRecord>)
  {
    Where(rs, (r: EnergyRecord) => InPeriod(r.time, start, end))
  }

  /** The period filter keeps a record exactly when its time is present and
      lies between the bounds, both included; records at either bound stay,
      records with a missing time go, and an inverted period keeps nothing. */
  lemma FilterPeriodSpec(rs: seq<EnergyRecord>, start: Timestamp, end: Timestamp)
    ensures forall r :: r in FilterPeriod(rs, start, end) <==>
      r in rs && r.time.Some? && NotAfter(start, r.time.value) && NotAfter(r.time.value, end)
    ensures forall r :: r in rs && (r.time == Some(start) || r.time == Some(end)) && NotAfter(start, end) ==>
      r in FilterPeriod(rs, start, end)
    ensures !NotAfter(start, end) ==> FilterPeriod(rs, start, end) == []
  {
    var out := FilterPeriod(rs, start, end);
    WhereCounts(rs, (r: EnergyRecord) => InPeriod(r.time, start, end));
    forall r
      ensures r in out <==> r in rs && InPeriod(r.time, start, end)
    {
      assert r in out <==> multiset(out)[r] > 0;
      assert r in rs <==> multiset(rs)[r] > 0;
    }
    NotAfterIsTotalOrder(start, start, end);
    NotAfterIsTotalOrder(start, end, end);
    if !NotAfter(start, end) && out != [] {
      var t := out[0].time.value;
      NotAfterIsTotalOrder(start, t, end);
      assert false;
    }
  }

  /** The three indicators the dashboard sums. */
  datatype Indicator = Generation | Revenue | Ghg

  function Value(r: EnergyRecord, ind: Indicator): Option<real>
  {
    match ind
    case Generation => r.generation
    case Revenue => r.revenue
    case Ghg => r.ghg
  }

  /** The (group key, value) column a group-by sees: records whose key is
      missing are dropped, as `groupby` drops NaN keys. */
  function Pairs<K>(rs: seq<EnergyRecord>, key: EnergyRecord -> Option<K>, ind: Indicator): (ps: seq<(K, Option<real>)>)
    ensures |ps| <= |rs|
  {
    if rs == [] then []
    else
      var r := rs[|rs| - 1];
      var k := key(r);
      Pairs(rs[..|rs| - 1], key, ind) + (if k.Some? then [(k.value, Value(r, ind))] else [])
  }

  /** A record whose key is present has a pair with that key: the pair at
      position `m`. */
  lemma {:induction false} PairOfRecord<K>(rs: seq<EnergyRecord>, key: EnergyRecord -> Option<K>, ind: Indicator, j: nat)
    returns (m: nat)
    requires j < |rs| && key(rs[j]).Some?
    ensures m < |Pairs(rs, key, ind)| && Pairs(rs, key, ind)[m] == (key(rs[j]).value, Value(rs[j], ind))
  {
    var front := rs[..|rs| - 1];
    var r := rs[|rs| - 1];
    var a := Pairs(front, key, ind);
    assert Pairs(rs, key, ind) == a + (if key(r).Some? then [(key(r).value, Value(r, ind))] else []);
    if j == |rs| - 1 {
      m := |a|;
    } else {
      assert front[j] == rs[j];
      m := PairOfRecord(front, key, ind, j);
    }
  }

  /** Every pair comes from a record with that key and value: the record at
      position `j`. */
  lemma {:induction false} RecordOfPair<K>(rs: seq<EnergyRecord>, key: EnergyRecord -> Option<K>, ind: Indicator, m: nat)
    returns (j: nat)
    requires m < |Pairs(rs, key, ind)|
    ensures j < |rs| && key(rs[j]).Some? && Pairs(rs, key, ind)[m] == (key(rs[j]).value, Value(rs[j], ind))
  {
    var front := rs[..|rs| - 1];
    var r := rs[|rs| - 1];
    var a := Pairs(front, key, ind);
    assert Pairs(rs, key, ind) == a + (if key(r).Some? then [(key(r).value, Value(r, ind))] else []);
    if m < |a| {
      j := RecordOfPair(front, key, ind, m);
      assert front[j] == rs[j];
    } else {
      j := |rs| - 1;
    }
  }

  /** The group total of key `k` read off the records directly: the sum of
      the present values of the records whose key is `k`. */
  function RecordSum<K(==)>(rs: seq<EnergyRecord>, key: EnergyRecord -> Option<K>, ind: Indicator, k: K): real
  {
    if rs == [] then 0.0
    else
      var r := rs[|rs| - 1];
      RecordSum(rs[..|rs| - 1], key, ind, k) +
        (if key(r) == Some(k) && Value(r, ind).Some? then Value(r, ind).value else 0.0)
  }

  lemma PairsSnoc<K>(rs: seq<EnergyRecord>, key: EnergyRecord -> Option<K>, ind: Indicator)
    requires rs != []
    ensures Pairs(rs, key, ind) == Pairs(rs[..|rs| - 1], key, ind) +
      (if key(rs[|rs| - 1]).Some? then [(key(rs[|rs| - 1]).value, Value(rs[|rs| - 1], ind))] else [])
  {
  }

  /** One record's share of a group total equals the share of its pair. */
  lemma PairContribution<K>(r: EnergyRecord, key: EnergyRecord -> Option<K>, ind: Indicator, k: K)
    requires key(r).Some?
    ensures Contribution((key(r).value, Value(r, ind)), k) ==
      (if key(r) == Some(k) && Value(r, ind).Some? then Value(r, ind).value else 0.0)
  {
  }

  /** The group sum over the pair column is the record-level total. */
  lemma {:induction false} PairsSum<K>(rs: seq<EnergyRecord>, key: EnergyRecord -> Option<K>, ind: Indicator, k: K)
    ensures SumFor(Pairs(rs, key, ind), k) == RecordSum(rs, key, ind, k)
  {
    if rs != [] {
      var r := rs[|rs| - 1];
      var front := rs[..|rs| - 1];
      PairsSum(front, key, ind, k);
      PairsSnoc(rs, key, ind);
      var ps := Pairs(front, key, ind);
      if key(r).Some? {
        var x := (key(r).value, Value(r, ind));
        SumForSnoc(ps, x, k);
        PairContribution(r, key, ind, k);
      } else {
        assert ps + [] == ps;
      }
    }
  }

  /** A group whose records all miss the value sums to 0. */
  lemma {:induction false} RecordSumAllMissing<K>(rs: seq<EnergyRecord>, key: EnergyRecord -> Option<K>, ind: Indicator, k: K)
    requires forall j :: 0 <= j < |rs| && key(rs[j]) == Some(k) ==> Value(rs[j], ind).None?
    ensures RecordSum(rs, key, ind, k) == 0.0
  {
    if rs != [] {
      var front := rs[..|rs| - 1];
      assert forall j :: 0 <= j < |front| ==> front[j] == rs[j];
      RecordSumAllMissing(front, key, ind, k);
    }
  }

  /** Whether a record has the indicator's value. */
  function HasValue(ind: Indicator): EnergyRecord -> bool
  {
    (r: EnergyRecord) => Value(r, ind).Some?
  }

  lemma WhereSnoc(rs: seq<EnergyRecord>, keep: EnergyRecord -> bool)
    requires rs != []
    ensures Where(rs, keep) == Where(rs[..|rs| - 1], keep) + (if keep(rs[|rs| - 1]) then [rs[|rs| - 1]] else [])
  {
  }

  lemma RecordSumSnoc<K>(w: seq<EnergyRecord>, r: EnergyRecord, key: EnergyRecord -> Option<K>, ind: Indicator, k: K)
    ensures RecordSum(w + [r], key, ind, k) ==
      RecordSum(w, key, ind, k) + (if key(r) == Some(k) && Value(r, ind).Some? then Value(r, ind).value else 0.0)
  {
    assert (w + [r])[..|w + [r]| - 1] == w;
  }

  /** Appending record `r` to a list and to its filtered copy keeps their
      totals equal when `r` is kept, and adds nothing when it is dropped. */
  lemma SkipStep<K>(front: seq<EnergyRecord>, kept: seq<EnergyRecord>, r: EnergyRecord,
                    key: EnergyRecord -> Option<K>, ind: Indicator, k: K)
    requires RecordSum(front, key, ind, k) == RecordSum(kept, key, ind, k)
    ensures Value(r, ind).Some? ==> RecordSum(front + [r], key, ind, k) == RecordSum(kept + [r], key, ind, k)
    ensures Value(r, ind).None? ==> RecordSum(front + [r], key, ind, k) == RecordSum(kept, key, ind, k)
  {
    RecordSumSnoc(front, r, key, ind, k);
    RecordSumSnoc(kept, r, key, ind, k);
  }

  /** Records with a missing value add nothing to a group total, wherever
      they stand: removing them leaves every total unchanged. */
  lemma {:induction false} RecordSumSkipsMissing<K>(rs: seq<EnergyRecord>, key: EnergyRecord -> Option<K>, ind: Indicator, k: K)
    ensures RecordSum(rs, key, ind, k) == RecordSum(Where(rs, HasValue(ind)), key, ind, k)
  {
    if rs != [] {
      var front := rs[..|rs| - 1];
      var r := rs[|rs| - 1];
      RecordSumSkipsMissing(front, key, ind, k);
      var kept := Where(front, HasValue(ind));
      WhereSnoc(rs, HasValue(ind));
      SkipStep(front, kept, r, key, ind, k);
      assert rs == front + [r];
      if Value(r, ind).None? {
        assert kept + [] == kept;
      }
    }
  }

  // ---------------------------------------------------------------------
  // Stacked sums and per-time totals

  function StackKey(r: EnergyRecord): Option<(Timestamp, string)>
  {
    if r.time.Some? then Some((r.time.value, r.unit)) else None
  }

  function TimeKey(r: EnergyRecord): Option<Timestamp>
  {
    r.time
  }

  function TimeOf(k: (Timestamp, string)): Timestamp
  {
    k.0
  }

  /** `df.groupby(['Tempo', 'Unidade'])[indicador].sum()`. */
  function Stacked(rs: seq<EnergyRecord>, ind: Indicator): seq<((Timestamp, string), real)>
  {
    GroupSum(Pairs(rs, StackKey, ind))
  }

  /** `df_stacked.groupby('Tempo')[indicador].sum()`. */
  function TimeTotals(rs: seq<EnergyRecord>, ind: Indicator): seq<(Timestamp, real)>
  {
    GroupSum(Regroup(Stacked(rs, ind), TimeOf))
  }

  lemma {:induction false} ProjectStackPairs(rs: seq<EnergyRecord>, ind: Indicator)
    ensures Project(Pairs(rs, StackKey, ind), TimeOf) == Pairs(rs, TimeKey, ind)
  {
    if rs != [] {
      var front := rs[..|rs| - 1];
      var r := rs[|rs| - 1];
      ProjectStackPairs(front, ind);
      PairsSnoc(rs, StackKey, ind);
      PairsSnoc(rs, TimeKey, ind);
      var a := Pairs(front, StackKey, ind);
      if r.time.Some? {
        ProjectSnoc(a, ((r.time.value, r.unit), Value(r, ind)), TimeOf);
      } else {
        assert a + [] == a;
        assert Pairs(front, TimeKey, ind) + [] == Pairs(front, TimeKey, ind);
      }
    }
  }

  /** For every time, summing the stacked per-(time, unit) sums over the
      units gives the total of that time's records directly. */
  lemma StackedDecomposes(rs: seq<EnergyRecord>, ind: Indicator, t: Timestamp)
    ensures SumFor(Regroup(Stacked(rs, ind), TimeOf), t) == RecordSum(rs, TimeKey, ind, t)
  {
    RegroupTotals(Pairs(rs, StackKey, ind), TimeOf, t);
    ProjectStackPairs(rs, ind);
    PairsSum(rs, TimeKey, ind, t);
  }

  /** Every row of the per-time totals holds the total of that time's
      records, and no time has two rows. */
  lemma TimeTotalsSpec(rs: seq<EnergyRecord>, ind: Indicator)
    ensures forall i, j :: 0 <= i < j < |TimeTotals(rs, ind)| ==> TimeTotals(rs, ind)[i].0 != TimeTotals(rs, ind)[j].0
    ensures forall i :: 0 <= i < |TimeTotals(rs, ind)| ==>
      TimeTotals(rs, ind)[i].1 == RecordSum(rs, TimeKey, ind, TimeTotals(rs, ind)[i].0)
  {
    var g := TimeTotals(rs, ind);
    GroupSumRows(Regroup(Stacked(rs, ind), TimeOf));
    forall i | 0 <= i < |g|
      ensures g[i].1 == RecordSum(rs, TimeKey, ind, g[i].0)
    {
      StackedDecomposes(rs, ind, g[i].0);
    }
  }

  // ---------------------------------------------------------------------
  // Per-unit and per-month summaries

  /** One row of `groupby(key).agg({...: 'sum'})` over the three indicators. */
  datatype GroupTotals<K> = GroupTotals(key: K, generation: real, revenue: real, ghg: real)

  /** The summary grouped by `key`, one row per key that occurs. */
  function Summary<K(==)>(rs: seq<EnergyRecord>, key: EnergyRecord -> Option<K>): seq<GroupTotals<K>>
  {
    var ks := Keys(Pairs(rs, key, Generation));
    seq(|ks|, j requires 0 <= j < |ks| =>
      GroupTotals(ks[j],
        SumFor(Pairs(rs, key, Generation), ks[j]),
        SumFor(Pairs(rs, key, Revenue), ks[j]),
        SumFor(Pairs(rs, key, Ghg), ks[j])))
  }

  function UnitKey(r: EnergyRecord): Option<string>
  {
    Some(r.unit)
  }

  /** The year and month number; missing when the time is. */
  function MonthKey(r: EnergyRecord): Option<(int, int)>
  {
    if r.year.Some? && r.month.Some? then Some((r.year.value, r.month.value)) else None
  }

  /** `df.groupby('Unidade').agg(...)`. */
  function UnitSums(rs: seq<EnergyRecord>): seq<GroupTotals<string>>
  {
    Summary(rs, UnitKey)
  }

  /** `df.groupby(['Ano', 'MesNum']).agg(...)`. */
  function MonthSums(rs: seq<EnergyRecord>): seq<GroupTotals<(int, int)>>
  {
    Summary(rs, MonthKey)
  }

  /** No key has two rows, and each row's totals are its records' totals. */
  lemma SummaryRows<K>(rs: seq<EnergyRecord>, key: EnergyRecord -> Option<K>)
    ensures forall i, j :: 0 <= i < j < |Summary(rs, key)| ==> Summary(rs, key)[i].key != Summary(rs, key)[j].key
    ensures forall i :: 0 <= i < |Summary(rs, key)| ==>
      var g := Summary(rs, key)[i];
      g.generation == RecordSum(rs, key, Generation, g.key) &&
      g.revenue == RecordSum(rs, key, Revenue, g.key) &&
      g.ghg == RecordSum(rs, key, Ghg, g.key)
  {
    var s := Summary(rs, key);
    forall i | 0 <= i < |s|
      ensures s[i].generation == RecordSum(rs, key, Generation, s[i].key)
      ensures s[i].revenue == RecordSum(rs, key, Revenue, s[i].key)
      ensures s[i].ghg == RecordSum(rs, key, Ghg, s[i].key)
    {
      PairsSum(rs, key, Generation, s[i].key);
      PairsSum(rs, key, Revenue, s[i].key);
      PairsSum(rs, key, Ghg, s[i].key);
    }
  }

  /** The summary has a row for every key some record has, and for no other
      key: records whose key is missing form no group. */
  lemma SummaryKeys<K>(rs: seq<EnergyRecord>, key: EnergyRecord -> Option<K>)
    ensures forall j :: 0 <= j < |rs| && key(rs[j]).Some? ==>
      exists i :: 0 <= i < |Summary(rs, key)| && Summary(rs, key)[i].key == key(rs[j]).value
    ensures forall i :: 0 <= i < |Summary(rs, key)| ==>
      exists j :: 0 <= j < |rs| && key(rs[j]) == Some(Summary(rs, key)[i].key)
  {
    var ps := Pairs(rs, key, Generation);
    var ks := Keys(ps);
    var s := Summary(rs, key);
    assert |s| == |ks| && forall i :: 0 <= i < |s| ==> s[i].key == ks[i];
    forall j | 0 <= j < |rs| && key(rs[j]).Some?
      ensures exists i :: 0 <= i < |s| && s[i].key == key(rs[j]).value
    {
      var m := PairOfRecord(rs, key, Generation, j);
      assert ps[m].0 in ks;
      var i :| 0 <= i < |ks| && ks[i] == ps[m].0;
      assert s[i].key == key(rs[j]).value;
    }
    forall i | 0 <= i < |s|
      ensures exists j :: 0 <= j < |rs| && key(rs[j]) == Some(s[i].key)
    {
      var m :| 0 <= m < |ps| && ps[m].0 == ks[i];
      var j := RecordOfPair(rs, key, Generation, m);
      assert key(rs[j]) == Some(s[i].key);
    }
  }

  /** One indicator's total in a summary row. */
  function Total<K>(g: GroupTotals<K>, ind: Indicator): real
  {
    match ind
    case Generation => g.generation
    case Revenue => g.revenue
    case Ghg => g.ghg
  }

  /** A summary total skips missing values: it is the total over the records
      that have the value, and it is 0 when every record of the group misses
      it. */
  lemma SummaryMissing<K>(rs: seq<EnergyRecord>, key: EnergyRecord -> Option<K>, i: nat, ind: Indicator)
    requires i < |Summary(rs, key)|
    ensures var g := Summary(rs, key)[i];
      Total(g, ind) == RecordSum(Where(rs, HasValue(ind)), key, ind, g.key) &&
      ((forall j :: 0 <= j < |rs| && key(rs[j]) == Some(g.key) ==> Value(rs[j], ind).None?) ==> Total(g, ind) == 0.0)
  {
    var g := Summary(rs, key)[i];
    SummaryRows(rs, key);
    assert Total(g, ind) == RecordSum(rs, key, ind, g.key);
    RecordSumSkipsMissing(rs, key, ind, g.key);
    if forall j :: 0 <= j < |rs| && key(rs[j]) == Some(g.key) ==> Value(rs[j], ind).None? {
      RecordSumAllMissing(rs, key, ind, g.key);
    }
  }

  /** A unit whose records all miss an indicator shows 0 for it. */
  lemma UnitSumsAllMissing(rs: seq<EnergyRecord>, i: nat, ind: Indicator)
    requires i < |UnitSums(rs)|
    requires forall j :: 0 <= j < |rs| && rs[j].unit == UnitSums(rs)[i].key ==> Value(rs[j], ind).None?
    ensures Total(UnitSums(rs)[i], ind) == 0.0
  {
    var k := UnitSums(rs)[i].key;
    forall j | 0 <= j < |rs| && UnitKey(rs[j]) == Some(k)
      ensures Value(rs[j], ind).None?
    {
      assert rs[j].unit == k;
    }
    SummaryMissing(rs, UnitKey, i, ind);
  }

  /** Every record with a present time has a row in the per-time totals,
      and every row's time is some record's time. */
  lemma TimeTotalsKeys(rs: seq<EnergyRecord>, ind: Indicator)
    ensures forall j :: 0 <= j < |rs| && rs[j].time.Some? ==>
      exists i :: 0 <= i < |TimeTotals(rs, ind)| && TimeTotals(rs, ind)[i].0 == rs[j].time.value
    ensures forall i :: 0 <= i < |TimeTotals(rs, ind)| ==>
      exists j :: 0 <= j < |rs| && rs[j].time == Some(TimeTotals(rs, ind)[i].0)
  {
    var ps := Pairs(rs, StackKey, ind);
    var g := TimeTotals(rs, ind);
    forall j | 0 <= j < |rs| && rs[j].time.Some?
      ensures exists i :: 0 <= i < |g| && g[i].0 == rs[j].time.value
    {
      var m := PairOfRecord(rs, StackKey, ind, j);
      var i := RegroupRowOfPair(ps, TimeOf, m);
      assert g[i].0 == TimeOf(ps[m].0);
    }
    forall i | 0 <= i < |g|
      ensures exists j :: 0 <= j < |rs| && rs[j].time == Some(g[i].0)
    {
      var m := PairOfRegroupRow(ps, TimeOf, i);
      var j := RecordOfPair(rs, StackKey, ind, m);
      assert rs[j].time == Some(g[i].0);
    }
  }

  /** The summary row that a record with a present key falls in. */
  lemma SummaryRowOfRecord<K>(rs: seq<EnergyRecord>, key: EnergyRecord -> Option<K>, j: nat) returns (i: nat)
    requires j < |rs| && key(rs[j]).Some?
    ensures i < |Summary(rs, key)| && Summary(rs, key)[i].key == key(rs[j]).value
  {
    var ps := Pairs(rs, key, Generation);
    var ks := Keys(ps);
    var m := PairOfRecord(rs, key, Generation, j);
    assert ps[m].0 in ks;
    i :| 0 <= i < |ks| && ks[i] == ps[m].0;
  }

  /** A record whose key is that of summary row `i`. */
  lemma RecordOfSummaryRow<K>(rs: seq<EnergyRecord>, key: EnergyRecord -> Option<K>, i: nat) returns (j: nat)
    requires i < |Summary(rs, key)|
    ensures j < |rs| && key(rs[j]) == Some(Summary(rs, key)[i].key)
  {
    var ps := Pairs(rs, key, Generation);
    var ks := Keys(ps);
    var m :| 0 <= m < |ps| && ps[m].0 == ks[i];
    j := RecordOfPair(rs, key, Generation, m);
  }

  /** On consistent records, each row of the month summary is the (year,
      month) of some record's present time. */
  lemma MonthRowOrigin(rs: seq<EnergyRecord>, i: nat) returns (j: nat)
    requires forall j :: 0 <= j < |rs| ==> Consistent(rs[j])
    requires i < |MonthSums(rs)|
    ensures j < |rs| && rs[j].time.Some?
    ensures MonthSums(rs)[i].key == (rs[j].time.value.year, rs[j].time.value.month)
  {
    j := RecordOfSummaryRow(rs, MonthKey, i);
    assert Consistent(rs[j]);
  }

  /** On consistent records, a record with a present time falls in the row
      of its (year, month). */
  lemma MonthRowOfRecord(rs: seq<EnergyRecord>, j: nat) returns (i: nat)
    requires forall j :: 0 <= j < |rs| ==> Consistent(rs[j])
    requires j < |rs| && rs[j].time.Some?
    ensures i < |MonthSums(rs)|
    ensures MonthSums(rs)[i].key == (rs[j].time.value.year, rs[j].time.value.month)
  {
    assert Consistent(rs[j]);
    i := SummaryRowOfRecord(rs, MonthKey, j);
  }

  /** On consistent records, a record with a missing time belongs to no month
      row: its key is missing, so the group-by drops it. */
  lemma MonthKeyMissing(r: EnergyRecord)
    requires Consistent(r) && r.time.None?
    ensures MonthKey(r).None?
  {
  }
}
