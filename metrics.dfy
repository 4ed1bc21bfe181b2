/** The column assignments after the melt: the time column is parsed, `Ano`
    and the month are taken from it, generation, tariff and emission factor
    are coerced to numbers, and revenue and GHG reduction are computed. Each
    pandas assignment is elementwise, so the model runs them record by
    record. */
module Metrics {
  import opened Values
  import opened Unpivot

  /** One record of the long-form frame. `month` is `MesNum`; the `Mês`
      labels printed from it are left to the locale. */
  datatype EnergyRecord = EnergyRecord(
    time: Option<Timestamp>,
    tariff: Option<real>,
    factor: Option<real>,
    unit: string,
    generation: Option<real>,
    year: Option<int>,
    month: Option<int>,
    revenue: Option<real>,
    ghg: Option<real>)

  /** The derived fields are functions of the base fields:
      `Receita = Geração * Tarifa`, `Redução GEE = (Geração / 1000) * Fator`,
      and `Ano` / month from the time. */
  predicate Consistent(r: EnergyRecord)
  {
    r.revenue == Times(r.generation, r.tariff)
    && r.ghg == Times(PerThousand(r.generation), r.factor)
    && r.year == YearOf(r.time)
    && r.month == MonthOf(r.time)
  }

  /** Missing propagation: a derived value is present exactly when all of its
      operands are, and then it is the formula's value; a missing operand
      never counts as zero. */
  lemma ConsistentMissing(r: EnergyRecord)
    requires Consistent(r)
    ensures r.revenue.Some? <==> r.generation.Some? && r.tariff.Some?
    ensures r.revenue.Some? ==> r.revenue.value == r.generation.value * r.tariff.value
    ensures r.ghg.Some? <==> r.generation.Some? && r.factor.Some?
    ensures r.ghg.Some? ==> r.ghg.value == (r.generation.value / 1000.0) * r.factor.value
    ensures r.year.Some? <==> r.time.Some?
    ensures r.month.Some? <==> r.time.Some?
    ensures r.time.Some? ==> r.year.value == r.time.value.year && r.month.value == r.time.value.month
  {
  }

  /** One melted row after the assignments, given its parsed time. */
  function Derive(m: MeltedRow, time: Option<Timestamp>, p: Parsers): (r: EnergyRecord)
    ensures Consistent(r)
    ensures r.unit == m.unit && r.time == time
    ensures r.generation == ToNumeric(m.generation, p)
    ensures r.tariff == ToNumeric(m.tariff, p) && r.factor == ToNumeric(m.factor, p)
  {
    var g := ToNumeric(m.generation, p);
    var tr := ToNumeric(m.tariff, p);
    var f := ToNumeric(m.factor, p);
    EnergyRecord(time, tr, f, m.unit, g, YearOf(time), MonthOf(time), Times(g, tr), Times(PerThousand(g), f))
  }

  /** The frame after the assignments. */
  function Derived(ms: seq<MeltedRow>, times: seq<Option<Timestamp>>, p: Parsers): (rs: seq<EnergyRecord>)
    requires |times| == |ms|
  {
    seq(|ms|, k requires 0 <= k < |ms| => Derive(ms[k], times[k], p))
  }

  /** Record `k` of the derived frame comes from melted row `k` and time `k`. */
  lemma DerivedAt(ms: seq<MeltedRow>, times: seq<Option<Timestamp>>, p: Parsers, k: nat)
    requires |times| == |ms| && k < |ms|
    ensures |Derived(ms, times, p)| == |ms| && Derived(ms, times, p)[k] == Derive(ms[k], times[k], p)
  {
  }

  /** `pd.to_datetime(col, errors="coerce")`: unparseable cells become NaT. */
  function CoerceTimes(ms: seq<MeltedRow>, p: Parsers): (ts: seq<Option<Timestamp>>)
  {
    seq(|ms|, k requires 0 <= k < |ms| => ToDatetime(ms[k].time, p))
  }

  /** `pd.to_datetime(col)`: the first non-blank cell that does not parse
      raises; blank cells become NaT. */
  function StrictTimes(ms: seq<MeltedRow>, p: Parsers): (r: Result<seq<Option<Timestamp>>>)
    ensures r.Ok? ==> |r.value| == |ms|
  {
    if ms == [] then Ok([])
    else
      var front := StrictTimes(ms[..|ms| - 1], p);
      var c := ms[|ms| - 1].time;
      if front.Err? then front
      else if BadTime(c, p) then Err(UnparseableTime(c))
      else Ok(front.value + [ToDatetime(c, p)])
  }

  /** The strict parse succeeds exactly when no cell is bad, and then agrees
      with the coercing one; a failure names a bad cell. */
  lemma {:induction false} StrictTimesOutcome(ms: seq<MeltedRow>, p: Parsers)
    ensures StrictTimes(ms, p).Ok? <==> forall k :: 0 <= k < |ms| ==> !BadTime(ms[k].time, p)
    ensures StrictTimes(ms, p).Ok? ==> StrictTimes(ms, p).value == CoerceTimes(ms, p)
    ensures StrictTimes(ms, p).Err? ==>
      StrictTimes(ms, p).error.UnparseableTime? && BadTime(StrictTimes(ms, p).error.value, p)
  {
    if ms != [] {
      var front := ms[..|ms| - 1];
      StrictTimesOutcome(front, p);
      if StrictTimes(front, p).Ok? {
        assert CoerceTimes(ms, p) == CoerceTimes(front, p) + [ToDatetime(ms[|ms| - 1].time, p)];
      } else {
        var k :| 0 <= k < |front| && BadTime(front[k].time, p);
        assert ms[k] == front[k];
      }
    }
  }

  /** Once a prefix fails, the whole column fails with the same error. */
  lemma {:induction false} StrictTimesPrefix(ms: seq<MeltedRow>, j: nat, p: Parsers)
    requires j <= |ms| && StrictTimes(ms[..j], p).Err?
    ensures StrictTimes(ms, p) == StrictTimes(ms[..j], p)
  {
    if j < |ms| {
      var front := ms[..|ms| - 1];
      assert front[..j] == ms[..j];
      StrictTimesPrefix(front, j, p);
    } else {
      assert ms[..j] == ms;
    }
  }

  /** The assignment to the time column, with or without `errors="coerce"`. */
  method ParseTimes(ms: seq<MeltedRow>, p: Parsers, coerce: bool) returns (r: Result<seq<Option<Timestamp>>>)
    ensures coerce ==> r == Ok(CoerceTimes(ms, p))
    ensures !coerce ==> r == StrictTimes(ms, p)
  {
    var ts: seq<Option<Timestamp>> := [];
    var k := 0;
    while k < |ms|
      invariant 0 <= k <= |ms|
      invariant coerce ==> ts == CoerceTimes(ms[..k], p)
      invariant !coerce ==> StrictTimes(ms[..k], p) == Ok(ts)
    {
      var c := ms[k].time;
      assert ms[..k + 1][..k] == ms[..k];
      assert ms[..k + 1][k] == ms[k];
      var outcome := if c.Blank? then NullTime else p.time(c);
      if !coerce && outcome.Unparseable? {
        StrictTimesPrefix(ms, k + 1, p);
        return Err(UnparseableTime(c));
      }
      var parsed := if outcome.Parsed? then Some(outcome.t) else None;
      ts := ts + [parsed];
      assert coerce ==> CoerceTimes(ms[..k + 1], p) == CoerceTimes(ms[..k], p) + [parsed];
      k := k + 1;
    }
    assert ms[..|ms|] == ms;
    r := Ok(ts);
  }

  /** The numeric coercions and the two derived columns, record by record. */
  method DeriveAll(ms: seq<MeltedRow>, times: seq<Option<Timestamp>>, p: Parsers) returns (rs: seq<EnergyRecord>)
    requires |times| == |ms|
    ensures rs == Derived(ms, times, p)
  {
    rs := [];
    var k := 0;
    while k < |ms|
      invariant 0 <= k <= |ms|
      invariant |rs| == k
      invariant forall j :: 0 <= j < k ==> rs[j] == Derive(ms[j], times[j], p)
    {
      var m := ms[k];
      var g := ToNumeric(m.generation, p);
      var tr := ToNumeric(m.tariff, p);
      var f := ToNumeric(m.factor, p);
      var revenue: Option<real> := if g.Some? && tr.Some? then Some(g.value * tr.value) else None;
      var ghg: Option<real> := if g.Some? && f.Some? then Some((g.value / 1000.0) * f.value) else None;
      var record := EnergyRecord(times[k], tr, f, m.unit, g, YearOf(times[k]), MonthOf(times[k]), revenue, ghg);
      assert revenue.Some? ==> revenue.value == Times(g, tr).value;
      assert ghg.Some? ==> ghg.value == Times(PerThousand(g), f).value;
      assert record == Derive(m, times[k], p);
      rs := rs + [record];
      k := k + 1;
    }
  }
}
