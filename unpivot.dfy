/** The wide-to-long reshape `DataFrame.melt(id_vars=[time, tariff, factor],
    value_vars=units, var_name="Unidade", value_name="Geração (kWh)")`.

    pandas stacks the value columns one after another: the first unit column
    for every source row, then the second, and so on, repeating the three id
    cells of each row in every block. */
module Unpivot {
  import opened Values

  /** A sheet as the workbook reader returns it: a header and rows of cells. */
  datatype RawTable = RawTable(columns: seq<string>, rows: seq<seq<Cell>>)

  /** Every row has one cell per column. */
  predicate Rectangular(t: RawTable)
  {
    forall i :: 0 <= i < |t.rows| ==> |t.rows[i]| == |t.columns|
  }

  /** Positions of the three `id_vars` columns. */
  datatype IdColumns = IdColumns(time: nat, tariff: nat, factor: nat)

  /** One record of the melted frame, before any type coercion. */
  datatype MeltedRow = MeltedRow(time: Cell, tariff: Cell, factor: Cell, unit: string, generation: Cell)

  predicate Fits(t: RawTable, ids: IdColumns, units: seq<nat>)
  {
    Rectangular(t) && ids.time < |t.columns| && ids.tariff < |t.columns| && ids.factor < |t.columns|
    && forall j :: 0 <= j < |units| ==> units[j] < |t.columns|
  }

  /** The record that cell (row `i`, column `u`) becomes. */
  function CellRecord(t: RawTable, ids: IdColumns, u: nat, i: nat): MeltedRow
    requires Rectangular(t) && ids.time < |t.columns| && ids.tariff < |t.columns| && ids.factor < |t.columns|
    requires u < |t.columns| && i < |t.rows|
  {
    var row := t.rows[i];
    MeltedRow(row[ids.time], row[ids.tariff], row[ids.factor], t.columns[u], row[u])
  }

  /** The block of records one unit column contributes: one per source row. */
  function Block(t: RawTable, ids: IdColumns, u: nat): (b: seq<MeltedRow>)
    requires Rectangular(t) && ids.time < |t.columns| && ids.tariff < |t.columns| && ids.factor < |t.columns|
    requires u < |t.columns|
  {
    seq(|t.rows|, i requires 0 <= i < |t.rows| => CellRecord(t, ids, u, i))
  }

  /** The melted frame: the blocks of the unit columns, in their order. */
  function Melt(t: RawTable, ids: IdColumns, units: seq<nat>): seq<MeltedRow>
    requires Fits(t, ids, units)
  {
    if units == [] then []
    else Melt(t, ids, units[..|units| - 1]) + Block(t, ids, units[|units| - 1])
  }

  lemma MulStep(c: nat, m: nat, n: nat, i: nat)
    requires c < m && i < n
    ensures c * n + i < m * n
  {
    assert (c + 1) * n <= m * n;
  }

  /** Row-count identity: rows(source) x |unit columns| records. */
  lemma {:induction false} MeltLength(t: RawTable, ids: IdColumns, units: seq<nat>)
    requires Fits(t, ids, units)
    ensures |Melt(t, ids, units)| == |units| * |t.rows|
  {
    if units != [] {
      var front := units[..|units| - 1];
      MeltLength(t, ids, front);
      assert |units| * |t.rows| == |front| * |t.rows| + |t.rows|;
    }
  }

  /** The position in the melted frame of row `i` under the `c`-th unit column. */
  function Position(c: nat, i: nat, rows: nat): nat
  {
    c * rows + i
  }

  /** The record at position `c * rows + i` comes from row `i` and the `c`-th
      unit column: it carries that row's id cells and that column's name. */
  lemma {:induction false} MeltAt(t: RawTable, ids: IdColumns, units: seq<nat>, c: nat, i: nat)
    requires Fits(t, ids, units) && c < |units| && i < |t.rows|
    ensures c * |t.rows| + i < |Melt(t, ids, units)|
    ensures Melt(t, ids, units)[c * |t.rows| + i] == CellRecord(t, ids, units[c], i)
  {
    var n := |t.rows|;
    var front := units[..|units| - 1];
    MeltLength(t, ids, front);
    MeltLength(t, ids, units);
    MulStep(c, |units|, n, i);
    if c < |front| {
      MulStep(c, |front|, n, i);
      MeltAt(t, ids, front, c, i);
    } else {
      assert c * n + i == |front| * n + i;
    }
  }

  lemma MulMonotone(a: nat, b: nat, n: nat)
    requires a >= b
    ensures a * n >= b * n
  {
  }

  lemma DivBound(k: nat, m: nat, n: nat)
    requires n > 0 && k < m * n
    ensures k / n < m && k == (k / n) * n + k % n && k % n < n
  {
    var q := k / n;
    assert k == q * n + k % n;
    if q >= m {
      MulMonotone(q, m, n);
      assert false;
    }
  }

  /** Every record traces back to exactly one source cell: position `k` is
      row `k % rows` of unit column `k / rows`. */
  lemma MeltOrigin(t: RawTable, ids: IdColumns, units: seq<nat>, k: nat)
    requires Fits(t, ids, units) && k < |Melt(t, ids, units)|
    ensures |t.rows| > 0 && k / |t.rows| < |units|
    ensures Melt(t, ids, units)[k] == CellRecord(t, ids, units[k / |t.rows|], k % |t.rows|)
  {
    var n := |t.rows|;
    MeltLength(t, ids, units);
    assert n > 0;
    DivBound(k, |units|, n);
    MeltAt(t, ids, units, k / n, k % n);
  }

  /** `df.melt(...)`, written as the two loops it performs: for each unit
      column in order, one record per source row. */
  method MeltRows(t: RawTable, ids: IdColumns, units: seq<nat>) returns (out: seq<MeltedRow>)
    requires Fits(t, ids, units)
    ensures out == Melt(t, ids, units)
  {
    out := [];
    var c := 0;
    while c < |units|
      invariant 0 <= c <= |units|
      invariant out == Melt(t, ids, units[..c])
    {
      var u := units[c];
      ghost var before := out;
      var i := 0;
      while i < |t.rows|
        invariant 0 <= i <= |t.rows|
        invariant out == before + Block(t, ids, u)[..i]
      {
        var row := t.rows[i];
        out := out + [MeltedRow(row[ids.time], row[ids.tariff], row[ids.factor], t.columns[u], row[u])];
        assert Block(t, ids, u)[..i + 1] == Block(t, ids, u)[..i] + [CellRecord(t, ids, u, i)];
        i := i + 1;
      }
      assert Block(t, ids, u)[..|t.rows|] == Block(t, ids, u);
      assert units[..c + 1][..c] == units[..c];
      c := c + 1;
    }
    assert units[..|units|] == units;
  }
}
