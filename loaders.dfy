/** The table loaders: the photovoltaic loader of the utilities module (header
    stripped, unit columns chosen by name, times coerced), the KPI loader of
    the dashboard (unit columns chosen by position, times parsed strictly),
    and the two loaders that only strip the header (bus and system sheets).
    The workbook itself is an input: reading the file is not modelled. */
module Loaders {
  import opened Values
  import opened Columns
  import opened Unpivot
  import opened Metrics

  const UnitColumn: string := "Unidade"
  const GenerationColumn: string := "Geração (kWh)"
  const YearColumn: string := "Ano"
  const MonthNumberColumn: string := "MesNum"
  const MonthLabelColumn: string := "Mês"
  const RevenueColumn: string := "Receita (R$)"
  const GhgColumn: string := "Redução GEE (tCO2)"

  /** The long-form frame a loader returns: its header and its records. */
  datatype LongFrame = LongFrame(columns: seq<string>, records: seq<EnergyRecord>)

  /** `df[name] = ...` on a header: the old columns keep their places, the
      name is then present, no other name appears, and the header grows by
      one column exactly when the name is new. */
  function AddColumn(header: seq<string>, name: string): (r: seq<string>)
    ensures |header| <= |r| <= |header| + 1 && r[..|header|] == header
    ensures name in r
    ensures forall i :: |header| <= i < |r| ==> r[i] == name
    ensures |r| == |header| <==> name in header
  {
    if name in header then header else header + [name]
  }

  /** The melt, the time assignment and the derived columns, shared by both
      long-form loaders; `coerce` tells whether the time parse coerces. */
  function Records(s: RawTable, ids: IdColumns, units: seq<nat>, p: Parsers, coerce: bool): Result<seq<EnergyRecord>>
    requires Fits(s, ids, units)
  {
    var ms := Melt(s, ids, units);
    var ts := if coerce then Ok(CoerceTimes(ms, p)) else StrictTimes(ms, p);
    if ts.Err? then Err(ts.error) else Ok(Derived(ms, ts.value, p))
  }

  /** The record pipeline as the loaders run it: melt, then parse the time
      column, then the numeric columns and the derived ones. */
  method BuildRecords(s: RawTable, ids: IdColumns, units: seq<nat>, p: Parsers, coerce: bool)
    returns (r: Result<seq<EnergyRecord>>)
    requires Fits(s, ids, units)
    ensures r == Records(s, ids, units, p, coerce)
  {
    var ms := MeltRows(s, ids, units);
    var ts := ParseTimes(ms, p, coerce);
    if ts.Err? {
      return Err(ts.error);
    }
    var records := DeriveAll(ms, ts.value, p);
    r := Ok(records);
  }

  /** A parse that coerces never fails; a strict one fails exactly when some
      unit column exists and some source row's time cell is non-blank and
      unparseable, and that error names a bad cell. */
  lemma RecordsOutcome(s: RawTable, ids: IdColumns, units: seq<nat>, p: Parsers, coerce: bool)
    requires Fits(s, ids, units)
    ensures coerce ==> Records(s, ids, units, p, coerce).Ok?
    ensures !coerce ==>
      (Records(s, ids, units, p, coerce).Err? <==>
        |units| > 0 && exists i :: 0 <= i < |s.rows| && BadTime(s.rows[i][ids.time], p))
    ensures Records(s, ids, units, p, coerce).Err? ==>
      Records(s, ids, units, p, coerce).error.UnparseableTime? &&
      BadTime(Records(s, ids, units, p, coerce).error.value, p)
  {
    var ms := Melt(s, ids, units);
    StrictTimesOutcome(ms, p);
    if !coerce {
      if StrictTimes(ms, p).Err? {
        var k :| 0 <= k < |ms| && BadTime(ms[k].time, p);
        MeltOrigin(s, ids, units, k);
      }
      if |units| > 0 && exists i :: 0 <= i < |s.rows| && BadTime(s.rows[i][ids.time], p) {
        var i :| 0 <= i < |s.rows| && BadTime(s.rows[i][ids.time], p);
        MeltAt(s, ids, units, 0, i);
      }
    }
  }

  /** A successful load, strict or coercing, derives every melted record from
      its own coerced time. */
  lemma RecordsValue(s: RawTable, ids: IdColumns, units: seq<nat>, p: Parsers, coerce: bool)
    requires Fits(s, ids, units) && Records(s, ids, units, p, coerce).Ok?
    ensures var ms := Melt(s, ids, units);
      Records(s, ids, units, p, coerce).value == Derived(ms, CoerceTimes(ms, p), p)
  {
    StrictTimesOutcome(Melt(s, ids, units), p);
  }

  /** Row-count identity and per-record provenance: the record at position
      `c * rows + i` is row `i` under the `c`-th unit column; its unit is that
      column's name, its generation that cell, its tariff, factor and time
      the row's own cells, and its derived fields follow the formulas. */
  lemma RecordsAt(s: RawTable, ids: IdColumns, units: seq<nat>, p: Parsers, coerce: bool, c: nat, i: nat)
    requires Fits(s, ids, units) && Records(s, ids, units, p, coerce).Ok?
    requires c < |units| && i < |s.rows|
    ensures var rs := Records(s, ids, units, p, coerce).value;
      |rs| == |units| * |s.rows| && Position(c, i, |s.rows|) < |rs| &&
      var r := rs[Position(c, i, |s.rows|)];
      var row := s.rows[i];
      r.unit == s.columns[units[c]] &&
      r.generation == ToNumeric(row[units[c]], p) &&
      r.tariff == ToNumeric(row[ids.tariff], p) &&
      r.factor == ToNumeric(row[ids.factor], p) &&
      r.time == ToDatetime(row[ids.time], p) &&
      Consistent(r)
  {
    var ms := Melt(s, ids, units);
    var k := c * |s.rows| + i;
    MeltLength(s, ids, units);
    MeltAt(s, ids, units, c, i);
    RecordsValue(s, ids, units, p, coerce);
    DerivedAt(ms, CoerceTimes(ms, p), p, k);
  }

  /** Every record of a successful load satisfies the derivation formulas. */
  lemma RecordsConsistent(s: RawTable, ids: IdColumns, units: seq<nat>, p: Parsers, coerce: bool)
    requires Fits(s, ids, units) && Records(s, ids, units, p, coerce).Ok?
    ensures forall k :: 0 <= k < |Records(s, ids, units, p, coerce).value| ==>
      Consistent(Records(s, ids, units, p, coerce).value[k])
  {
  }

  // ---------------------------------------------------------------------
  // Photovoltaic loader

  /** The positions of the three `id_vars` in the stripped header; `melt`
      raises for the first one that is absent. */
  function PvIds(cols: seq<string>): (r: Result<IdColumns>)
    ensures r.Ok? <==> TimeColumn in cols && TariffColumn in cols && GeeColumn in cols
    ensures r.Err? ==>
      r.error.MissingColumn? && r.error.name !in cols && r.error.name in [TimeColumn, TariffColumn, GeeColumn]
    ensures r.Ok? ==> r.value.time < |cols| && cols[r.value.time] == TimeColumn
    ensures r.Ok? ==> r.value.tariff < |cols| && cols[r.value.tariff] == TariffColumn
    ensures r.Ok? ==> r.value.factor < |cols| && cols[r.value.factor] == GeeColumn
  {
    var t := IndexOf(cols, TimeColumn);
    var tr := IndexOf(cols, TariffColumn);
    var g := IndexOf(cols, GeeColumn);
    if t.None? then Err(MissingColumn(TimeColumn))
    else if tr.None? then Err(MissingColumn(TariffColumn))
    else if g.None? then Err(MissingColumn(GeeColumn))
    else Ok(IdColumns(t.value, tr.value, g.value))
  }

  /** The header of the photovoltaic frame before the rename. */
  function PvHeaderBeforeRename(): seq<string>
  {
    var h := [TimeColumn, TariffColumn, GeeColumn, UnitColumn, GenerationColumn];
    var h := AddColumn(AddColumn(AddColumn(h, YearColumn), MonthNumberColumn), MonthLabelColumn);
    AddColumn(AddColumn(h, RevenueColumn), GhgColumn)
  }

  /** The sheet with its header stripped. */
  function StrippedTable(t: RawTable): (s: RawTable)
    ensures s.columns == StripAll(t.columns) && s.rows == t.rows
    ensures Rectangular(t) ==> Rectangular(s)
  {
    RawTable(StripAll(t.columns), t.rows)
  }

  /** What the photovoltaic loader returns for a sheet. */
  function PhotovoltaicFrame(t: RawTable, p: Parsers): Result<LongFrame>
    requires Rectangular(t)
  {
    var s := StrippedTable(t);
    var ids := PvIds(s.columns);
    if ids.Err? then Err(ids.error)
    else
      var recs := Records(s, ids.value, PvUnitColumns(s.columns), p, true);
      Ok(LongFrame(Rename(PvHeaderBeforeRename(), TariffColumn, TariffRenamed), recs.value))
  }

  /** `carregar_dados_fotovoltaico`, step by step. */
  method LoadPhotovoltaic(t: RawTable, p: Parsers) returns (r: Result<LongFrame>)
    requires Rectangular(t)
    ensures r == PhotovoltaicFrame(t, p)
  {
    var s := RawTable(StripAll(t.columns), t.rows);
    var ids := PvIds(s.columns);
    if ids.Err? {
      return Err(ids.error);
    }
    var units := PvUnitColumns(s.columns);
    var header := [TimeColumn, TariffColumn, GeeColumn, UnitColumn, GenerationColumn];
    var records := BuildRecords(s, ids.value, units, p, true);
    RecordsOutcome(s, ids.value, units, p, true);
    header := AddColumn(header, YearColumn);
    header := AddColumn(header, MonthNumberColumn);
    header := AddColumn(header, MonthLabelColumn);
    header := AddColumn(header, RevenueColumn);
    header := AddColumn(header, GhgColumn);
    header := Rename(header, TariffColumn, TariffRenamed);
    r := Ok(LongFrame(header, records.value));
  }

  /** The photovoltaic load fails only when an id column is missing from the
      stripped header, never because of the data: unparseable times and
      numbers become missing values. */
  lemma PhotovoltaicOutcome(t: RawTable, p: Parsers)
    requires Rectangular(t)
    ensures var cols := StripAll(t.columns);
      PhotovoltaicFrame(t, p).Ok? <==> TimeColumn in cols && TariffColumn in cols && GeeColumn in cols
    ensures PhotovoltaicFrame(t, p).Err? ==>
      PhotovoltaicFrame(t, p).error.MissingColumn? &&
      PhotovoltaicFrame(t, p).error.name !in StripAll(t.columns)
  {
  }

  /** The records of a photovoltaic load: one per (row, unit column), in
      melt order, each carrying its row's cells, the stripped unit name and
      the coerced time; an unparseable time gives a missing time, year and
      month. */
  lemma PhotovoltaicRecords(t: RawTable, p: Parsers, c: nat, i: nat)
    requires Rectangular(t) && PhotovoltaicFrame(t, p).Ok?
    requires c < |PvUnitColumns(StrippedTable(t).columns)| && i < |t.rows|
    ensures var cols := StrippedTable(t).columns;
      var units := PvUnitColumns(cols);
      var ids := PvIds(cols).value;
      var rs := PhotovoltaicFrame(t, p).value.records;
      |rs| == |units| * |t.rows| && Position(c, i, |t.rows|) < |rs| &&
      var r := rs[Position(c, i, |t.rows|)];
      var row := t.rows[i];
      r.unit == cols[units[c]] && IsPvUnitName(r.unit) &&
      r.generation == ToNumeric(row[units[c]], p) &&
      r.tariff == ToNumeric(row[ids.tariff], p) &&
      r.factor == ToNumeric(row[ids.factor], p) &&
      r.time == ToDatetime(row[ids.time], p) &&
      (BadTime(row[ids.time], p) ==> r.time.None? && r.year.None? && r.month.None?) &&
      Consistent(r)
  {
    var s := StrippedTable(t);
    var ids := PvIds(s.columns).value;
    var units := PvUnitColumns(s.columns);
    assert PhotovoltaicFrame(t, p).value.records == Records(s, ids, units, p, true).value;
    RecordsAt(s, ids, units, p, true, c, i);
  }

  /** Adding a column that is not there yet appends it. */
  lemma AddNewColumn(header: seq<string>, name: string)
    requires name !in header
    ensures AddColumn(header, name) == header + [name]
  {
  }

  /** The three calendar columns are new to the melted header. */
  lemma PvCalendarColumns(h0: seq<string>)
    requires h0 == [TimeColumn, TariffColumn, GeeColumn, UnitColumn, GenerationColumn]
    ensures AddColumn(AddColumn(AddColumn(h0, YearColumn), MonthNumberColumn), MonthLabelColumn) ==
      h0 + [YearColumn, MonthNumberColumn, MonthLabelColumn]
  {
    AddNewColumn(h0, YearColumn);
    AddNewColumn(h0 + [YearColumn], MonthNumberColumn);
    assert h0 + [YearColumn] + [MonthNumberColumn] == h0 + [YearColumn, MonthNumberColumn];
    AddNewColumn(h0 + [YearColumn, MonthNumberColumn], MonthLabelColumn);
    assert h0 + [YearColumn, MonthNumberColumn] + [MonthLabelColumn] == h0 + [YearColumn, MonthNumberColumn, MonthLabelColumn];
  }

  /** The two computed columns are new as well. */
  lemma PvComputedColumns(h3: seq<string>)
    requires h3 == [TimeColumn, TariffColumn, GeeColumn, UnitColumn, GenerationColumn,
                    YearColumn, MonthNumberColumn, MonthLabelColumn]
    ensures AddColumn(AddColumn(h3, RevenueColumn), GhgColumn) == h3 + [RevenueColumn, GhgColumn]
  {
    AddNewColumn(h3, RevenueColumn);
    AddNewColumn(h3 + [RevenueColumn], GhgColumn);
    assert h3 + [RevenueColumn] + [GhgColumn] == h3 + [RevenueColumn, GhgColumn];
  }

  /** The photovoltaic header before the rename: the five melted columns,
      then the five derived ones, none of them already present. */
  lemma PvHeaderBeforeRenameValue()
    ensures PvHeaderBeforeRename() ==
      [TimeColumn, TariffColumn, GeeColumn, UnitColumn, GenerationColumn,
       YearColumn, MonthNumberColumn, MonthLabelColumn, RevenueColumn, GhgColumn]
  {
    var h0 := [TimeColumn, TariffColumn, GeeColumn, UnitColumn, GenerationColumn];
    PvCalendarColumns(h0);
    var h3 := h0 + [YearColumn, MonthNumberColumn, MonthLabelColumn];
    PvComputedColumns(h3);
  }

  /** Renaming the tariff column in the fixed photovoltaic header list. */
  lemma PvRenameValue(pre: seq<string>)
    requires pre == [TimeColumn, TariffColumn, GeeColumn, UnitColumn, GenerationColumn,
                     YearColumn, MonthNumberColumn, MonthLabelColumn, RevenueColumn, GhgColumn]
    ensures var h := Rename(pre, TariffColumn, TariffRenamed);
      h == [TimeColumn, TariffRenamed, GeeColumn, UnitColumn, GenerationColumn,
            YearColumn, MonthNumberColumn, MonthLabelColumn, RevenueColumn, GhgColumn] &&
      TariffColumn !in h
  {
    RenameEffect(pre, TariffColumn, TariffRenamed);
  }

  /** The photovoltaic header: the loader's fixed list of columns, with only
      the tariff column renamed. */
  lemma PvHeaderValue()
    ensures var h := Rename(PvHeaderBeforeRename(), TariffColumn, TariffRenamed);
      h == [TimeColumn, TariffRenamed, GeeColumn, UnitColumn, GenerationColumn,
            YearColumn, MonthNumberColumn, MonthLabelColumn, RevenueColumn, GhgColumn] &&
      TariffColumn !in h
  {
    PvHeaderBeforeRenameValue();
    PvRenameValue(PvHeaderBeforeRename());
  }

  /** Only the tariff column is renamed: the header is the fixed list of the
      loader's columns with "Tarifa (R$/kWh)" in second place. */
  lemma PhotovoltaicHeader(t: RawTable, p: Parsers)
    requires Rectangular(t) && PhotovoltaicFrame(t, p).Ok?
    ensures var h := PhotovoltaicFrame(t, p).value.columns;
      h == [TimeColumn, TariffRenamed, GeeColumn, UnitColumn, GenerationColumn,
            YearColumn, MonthNumberColumn, MonthLabelColumn, RevenueColumn, GhgColumn] &&
      TariffColumn !in h
  {
    PvHeaderValue();
  }

  // ---------------------------------------------------------------------
  // KPI loader

  /** The header of the KPI frame before the rename; `tariff` and `factor`
      are the names of the last two columns. */
  function KpiHeaderBeforeRename(tariff: string, factor: string): seq<string>
  {
    var h := [TimeColumn, tariff, factor, UnitColumn, GenerationColumn];
    var h := AddColumn(AddColumn(h, YearColumn), MonthLabelColumn);
    AddColumn(AddColumn(h, RevenueColumn), GhgColumn)
  }

  /** What the KPI loader returns for a sheet (its header is not stripped). */
  function KpiFrame(t: RawTable, p: Parsers): Result<LongFrame>
    requires Rectangular(t)
  {
    var cols := t.columns;
    var schema := KpiSchema(cols);
    if schema.Err? then Err(schema.error)
    else
      var ti := IndexOf(cols, TimeColumn);
      var sc := schema.value;
      if ti.None? then Err(MissingColumn(TimeColumn))
      else if cols[sc.tariff] == TimeColumn || cols[sc.factor] == TimeColumn then Err(RepeatedIdColumn(TimeColumn))
      else
        var recs := Records(t, IdColumns(ti.value, sc.tariff, sc.factor), sc.units, p, false);
        if recs.Err? then Err(recs.error)
        else
          var header := KpiHeaderBeforeRename(cols[sc.tariff], cols[sc.factor]);
          Ok(LongFrame(Rename(header, cols[sc.tariff], TariffRenamed), recs.value))
  }

  /** `carregar_dados`, step by step. */
  method LoadKpi(t: RawTable, p: Parsers) returns (r: Result<LongFrame>)
    requires Rectangular(t)
    ensures r == KpiFrame(t, p)
  {
    var cols := t.columns;
    var schema := KpiSchema(cols);
    if schema.Err? {
      return Err(schema.error);
    }
    var sc := schema.value;
    var ti := IndexOf(cols, TimeColumn);
    if ti.None? {
      return Err(MissingColumn(TimeColumn));
    }
    var tariff := cols[sc.tariff];
    var factor := cols[sc.factor];
    if tariff == TimeColumn || factor == TimeColumn {
      return Err(RepeatedIdColumn(TimeColumn));
    }
    var header := [TimeColumn, tariff, factor, UnitColumn, GenerationColumn];
    var records := BuildRecords(t, IdColumns(ti.value, sc.tariff, sc.factor), sc.units, p, false);
    if records.Err? {
      return Err(records.error);
    }
    header := AddColumn(header, YearColumn);
    header := AddColumn(header, MonthLabelColumn);
    header := AddColumn(header, RevenueColumn);
    header := AddColumn(header, GhgColumn);
    header := Rename(header, tariff, TariffRenamed);
    r := Ok(LongFrame(header, records.value));
  }

  /** `Tempo` is also the tariff or the factor column, so `melt` is given
      it twice among its `id_vars`. */
  predicate TimeIsLastTwo(cols: seq<string>)
    requires |cols| >= 2
  {
    cols[|cols| - 2] == TimeColumn || cols[|cols| - 1] == TimeColumn
  }

  /** Some source row's `Tempo` cell is non-blank and does not parse. */
  predicate KpiBadTime(t: RawTable, p: Parsers)
    requires Rectangular(t)
  {
    var ti := IndexOf(t.columns, TimeColumn);
    ti.Some? && exists i :: 0 <= i < |t.rows| && BadTime(t.rows[i][ti.value], p)
  }

  /** The four ways the KPI load fails, in the order the source meets them:
      fewer than two columns, no `Tempo` column, `Tempo` as one of the last
      two columns (it is then listed twice among the `id_vars`), then a
      non-blank time cell that does not parse (which only matters when there
      is at least one unit column, that is at least four columns); and the
      load succeeds exactly when none of them happens. */
  lemma KpiOutcome(t: RawTable, p: Parsers)
    requires Rectangular(t)
    ensures KpiFrame(t, p) == Err(TooFewColumns) <==> |t.columns| < 2
    ensures KpiFrame(t, p) == Err(MissingColumn(TimeColumn)) <==>
      |t.columns| >= 2 && TimeColumn !in t.columns
    ensures KpiFrame(t, p) == Err(RepeatedIdColumn(TimeColumn)) <==>
      |t.columns| >= 2 && TimeColumn in t.columns && TimeIsLastTwo(t.columns)
    ensures KpiFrame(t, p).Err? && KpiFrame(t, p).error.UnparseableTime? <==>
      |t.columns| >= 4 && !TimeIsLastTwo(t.columns) && KpiBadTime(t, p)
    ensures KpiFrame(t, p).Err? && KpiFrame(t, p).error.UnparseableTime? ==>
      BadTime(KpiFrame(t, p).error.value, p)
    ensures KpiFrame(t, p).Ok? <==>
      |t.columns| >= 2 && TimeColumn in t.columns && !TimeIsLastTwo(t.columns) &&
      !(|t.columns| >= 4 && KpiBadTime(t, p))
  {
    var cols := t.columns;
    if |cols| >= 2 && TimeColumn in cols && !TimeIsLastTwo(cols) {
      var sc := KpiSchema(cols).value;
      var ti := IndexOf(cols, TimeColumn).value;
      RecordsOutcome(t, IdColumns(ti, sc.tariff, sc.factor), sc.units, p, false);
    }
  }

  /** The records of a successful KPI load: one per (row, unit column), the
      unit columns being `columns[1:-2]`, each carrying its row's last two
      cells as tariff and factor and its parsed `Tempo` cell. */
  lemma KpiRecords(t: RawTable, p: Parsers, c: nat, i: nat)
    requires Rectangular(t) && KpiFrame(t, p).Ok?
    requires c + 3 < |t.columns| && i < |t.rows|
    ensures var n := |t.columns|;
      var ti := IndexOf(t.columns, TimeColumn).value;
      var rs := KpiFrame(t, p).value.records;
      |rs| == (n - 3) * |t.rows| && Position(c, i, |t.rows|) < |rs| &&
      var r := rs[Position(c, i, |t.rows|)];
      var row := t.rows[i];
      r.unit == t.columns[c + 1] &&
      r.generation == ToNumeric(row[c + 1], p) &&
      r.tariff == ToNumeric(row[n - 2], p) &&
      r.factor == ToNumeric(row[n - 1], p) &&
      r.time == ToDatetime(row[ti], p) && !BadTime(row[ti], p) &&
      Consistent(r)
  {
    var sc := KpiSchema(t.columns).value;
    var ti := IndexOf(t.columns, TimeColumn).value;
    RecordsAt(t, IdColumns(ti, sc.tariff, sc.factor), sc.units, p, false, c, i);
    KpiOutcome(t, p);
  }

  /** With fewer than four columns `columns[1:-2]` is empty and a successful
      KPI load has no records. */
  lemma KpiNoUnits(t: RawTable, p: Parsers)
    requires Rectangular(t) && KpiFrame(t, p).Ok? && |t.columns| < 4
    ensures KpiFrame(t, p).value.records == []
  {
    var sc := KpiSchema(t.columns).value;
    var ti := IndexOf(t.columns, TimeColumn).value;
    MeltLength(t, IdColumns(ti, sc.tariff, sc.factor), sc.units);
  }

  /** Renaming `tariff` in the KPI header: afterwards that name is gone
      (unless it already was "Tarifa (R$/kWh)"), the new name is present, and
      every other column keeps its name and place. */
  lemma KpiHeaderRenamed(tariff: string, factor: string)
    ensures var pre := KpiHeaderBeforeRename(tariff, factor);
      var h := Rename(pre, tariff, TariffRenamed);
      |h| == |pre| && |pre| >= 5 && pre[1] == tariff && h[1] == TariffRenamed &&
      (tariff != TariffRenamed ==> tariff !in h) &&
      forall j :: 0 <= j < |pre| && pre[j] != tariff ==> h[j] == pre[j]
  {
    var pre := KpiHeaderBeforeRename(tariff, factor);
    var h0 := [TimeColumn, tariff, factor, UnitColumn, GenerationColumn];
    assert pre[..5] == h0;
    assert pre[1] == tariff;
    if tariff != TariffRenamed {
      RenameEffect(pre, tariff, TariffRenamed);
    }
  }

  /** The KPI load renames the second-to-last column only. */
  lemma KpiHeader(t: RawTable, p: Parsers)
    requires Rectangular(t) && KpiFrame(t, p).Ok?
    ensures var n := |t.columns|;
      var tariff := t.columns[n - 2];
      var pre := KpiHeaderBeforeRename(tariff, t.columns[n - 1]);
      var h := KpiFrame(t, p).value.columns;
      |h| == |pre| && TariffRenamed in h &&
      (tariff != TariffRenamed ==> tariff !in h) &&
      forall j :: 0 <= j < |pre| && pre[j] != tariff ==> h[j] == pre[j]
  {
    var n := |t.columns|;
    var sc := KpiSchema(t.columns).value;
    assert t.columns[sc.tariff] == t.columns[n - 2] && t.columns[sc.factor] == t.columns[n - 1];
    var h := KpiFrame(t, p).value.columns;
    assert h == Rename(KpiHeaderBeforeRename(t.columns[n - 2], t.columns[n - 1]), t.columns[n - 2], TariffRenamed);
    KpiHeaderRenamed(t.columns[n - 2], t.columns[n - 1]);
    assert h[1] == TariffRenamed;
  }

  // ---------------------------------------------------------------------
  // Loaders that only strip the header

  /** `carregar_dados_sistema`: the sheet with a stripped header. */
  lemma SystemTableStripped(t: RawTable)
    ensures var s := StrippedTable(t);
      s.rows == t.rows && |s.columns| == |t.columns| &&
      (forall j :: 0 <= j < |t.columns| ==> s.columns[j] == Strip(t.columns[j])) &&
      StrippedTable(s) == s
  {
    var s := StrippedTable(t);
    forall j | 0 <= j < |s.columns|
      ensures Strip(s.columns[j]) == s.columns[j]
    {
      StripIdempotent(t.columns[j]);
    }
    assert StripAll(s.columns) == s.columns;
  }

  /** The bus sheet after loading: a stripped header, the cells, and, when
      there is a `Tempo` column, its coerced times (from which `Ano`,
      `MesNum` and `Mês` are taken). The rows keep the sheet's own cells and
      hold no cells for the three calendar columns, so a sheet that already
      has an `Ano`, `MesNum` or `Mês` column keeps its old cells here, where
      pandas overwrites them. */
  datatype BusTable = BusTable(columns: seq<string>, rows: seq<seq<Cell>>, times: Option<seq<Option<Timestamp>>>)

  /** `pd.to_datetime(df['Tempo'])`: column `c` parsed row by row. */
  function ParsedTimes(t: RawTable, c: nat, p: Parsers): (r: seq<Option<Timestamp>>)
    requires Rectangular(t) && c < |t.columns|
    ensures |r| == |t.rows|
    ensures forall i :: 0 <= i < |t.rows| ==> r[i] == ToDatetime(t.rows[i][c], p)
  {
    seq(|t.rows|, i requires 0 <= i < |t.rows| => ToDatetime(t.rows[i][c], p))
  }

  /** What `carregar_dados_onibus` returns for a sheet. */
  function BusFrame(t: RawTable, p: Parsers): BusTable
    requires Rectangular(t)
  {
    var cols := StripAll(t.columns);
    var ti := IndexOf(cols, TimeColumn);
    if ti.None? then BusTable(cols, t.rows, None)
    else
      var header := AddColumn(AddColumn(AddColumn(cols, YearColumn), MonthNumberColumn), MonthLabelColumn);
      BusTable(header, t.rows, Some(ParsedTimes(t, ti.value, p)))
  }

  /** Unfolding helper for `LoadBus`: the two cases of `BusFrame`, stated
      apart so that the method's proof does not unfold the function itself. */
  lemma BusFrameCases(t: RawTable, p: Parsers)
    requires Rectangular(t)
    ensures var cols := StripAll(t.columns);
      var ti := IndexOf(cols, TimeColumn);
      (ti.None? ==> BusFrame(t, p) == BusTable(cols, t.rows, None)) &&
      (ti.Some? ==>
         var header := AddColumn(AddColumn(AddColumn(cols, YearColumn), MonthNumberColumn), MonthLabelColumn);
         BusFrame(t, p) == BusTable(header, t.rows, Some(ParsedTimes(t, ti.value, p))))
  {
  }

  /** `carregar_dados_onibus`, step by step. */
  method LoadBus(t: RawTable, p: Parsers) returns (b: BusTable)
    requires Rectangular(t)
    ensures b == BusFrame(t, p)
  {
    BusFrameCases(t, p);
    var cols := StripAll(t.columns);
    var ti := IndexOf(cols, TimeColumn);
    if ti.None? {
      return BusTable(cols, t.rows, None);
    }
    var c := ti.value;
    var times: seq<Option<Timestamp>> := [];
    var i := 0;
    while i < |t.rows|
      invariant 0 <= i <= |t.rows|
      invariant |times| == i
      invariant forall j :: 0 <= j < i ==> times[j] == ToDatetime(t.rows[j][c], p)
    {
      times := times + [ToDatetime(t.rows[i][c], p)];
      i := i + 1;
    }
    assert times == ParsedTimes(t, c, p);
    var header := AddColumn(cols, YearColumn);
    header := AddColumn(header, MonthNumberColumn);
    header := AddColumn(header, MonthLabelColumn);
    b := BusTable(header, t.rows, Some(times));
  }

  /** The bus header: the stripped columns, then the three calendar columns. */
  lemma BusHeaderShape(cols: seq<string>)
    ensures var h := AddColumn(AddColumn(AddColumn(cols, YearColumn), MonthNumberColumn), MonthLabelColumn);
      |h| >= |cols| && h[..|cols|] == cols &&
      YearColumn in h && MonthNumberColumn in h && MonthLabelColumn in h &&
      forall x :: x in h ==> x in cols || x == YearColumn || x == MonthNumberColumn || x == MonthLabelColumn
  {
    var h1 := AddColumn(cols, YearColumn);
    var h2 := AddColumn(h1, MonthNumberColumn);
    var h3 := AddColumn(h2, MonthLabelColumn);
    assert h3[..|h1|] == h1 by {
      assert h3[..|h2|][..|h1|] == h1;
    }
    assert h3[..|cols|] == h3[..|h1|][..|cols|];
    assert YearColumn in h1 && MonthNumberColumn in h2;
  }

  /** The bus loader never fails; it keeps every row and column, and it
      parses times exactly when the stripped header has `Tempo`, each time
      coming from its own row. */
  lemma BusFrameShape(t: RawTable, p: Parsers)
    requires Rectangular(t)
    ensures var b := BusFrame(t, p);
      var cols := StripAll(t.columns);
      b.rows == t.rows && b.columns[..|cols|] == cols &&
      (b.times.Some? <==> TimeColumn in cols) &&
      (b.times.None? ==> b.columns == cols) &&
      (b.times.Some? ==>
         YearColumn in b.columns && MonthNumberColumn in b.columns &&
         MonthLabelColumn in b.columns &&
         (forall x :: x in b.columns ==>
            x in cols || x == YearColumn || x == MonthNumberColumn || x == MonthLabelColumn) &&
         |b.times.value| == |t.rows| &&
         forall i :: 0 <= i < |t.rows| ==>
           b.times.value[i] == ToDatetime(t.rows[i][IndexOf(cols, TimeColumn).value], p))
  {
    var cols := StripAll(t.columns);
    BusHeaderShape(cols);
    if TimeColumn !in cols {
      assert cols[..|cols|] == cols;
    }
  }
}
