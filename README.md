# Energy KPI pipeline — a verified model

This project models the data pipeline under the energy KPI dashboard
(`kpi.py`) and its utility module (`utils.py`). The dashboard itself is
Streamlit pages, Plotly charts and an FPDF report; the pipeline beneath it
has four parts:

* **Loading and unpivoting the energy sheet.** The sheet has one row per
  timestamp (`Tempo`), one column per production unit, a tariff column and
  an emission-factor column. It is melted into one record per (timestamp,
  unit). The photovoltaic loader picks the unit columns by name. It strips
  the header and drops `Tempo`, the tariff and factor columns, and any
  `Unnamed…` column. The KPI loader picks them by position: `columns[1:-2]`,
  with the last two columns as tariff and factor.
* **Derived metrics with missing values.** `Receita = Geração × Tarifa` and
  `Redução GEE = (Geração / 1000) × Fator`. A cell that fails numeric
  coercion is missing (NaN), and a missing operand makes the result missing.
  The photovoltaic loader coerces an unparseable `Tempo` to a missing time.
  The KPI loader parses `Tempo` strictly: when the sheet has at least one
  unit column (four or more columns), an unparseable non-blank time cell
  makes the whole load fail. It also fails when `Tempo` is one of the last
  two columns, since `melt` is then given `Tempo` twice as an id column.
* **Queries.** The unit filter (exact match), the period filter (inclusive
  at both ends), the stacked per-(time, unit) sums with their per-time
  totals, and the per-unit and per-month summaries. Group-by sums skip
  missing values, and records with a missing key form no group.
* **Brazilian number formatting.** `format_num` and `format_real` produce
  a grouped US-style text and swap `,` and `.` through an `X` placeholder.

Modules, one per file:

* `Values` (values.dfy): cells, missing-aware numbers, timestamps,
  coercions.
* `Format` (format.dfy): the two formatters and a reader for their output.
* `Columns` (columns.dfy): header stripping, renaming, and the two
  unit-column selections.
* `Unpivot` (unpivot.dfy): `melt`.
* `Metrics` (metrics.dfy): time parsing and derived fields.
* `Loaders` (loaders.dfy): the four sheet loaders (photovoltaic, KPI, bus
  and system).
* `Aggregate` (aggregate.dfy): group-by sums.
* `Queries` (queries.dfy): the dashboard's filters and summaries.

How things are represented:

* Missing values are `Option`.
* Numbers are exact `real`s.
* The formatters take a fixed-point integer, the value times 10^casas.
* A timestamp is a datatype `(year, month, day, second)` ordered
  lexicographically.
* The library's parsers are opaque function parameters (`Values.Parsers`):
  `to_numeric` on a text cell, and `to_datetime` on any non-blank cell.

The photovoltaic, KPI and bus loaders are methods that build the frame step
by step, as the source does. Each is proved equal to a specification
function, and the properties are lemmas about that function. The system
loader is only a read plus a header strip, so it is the function
`StrippedTable`, with its properties in `SystemTableStripped`.

## Model

| member | source | states |
|---|---|---|
| Format.FormatNum | utils.py:17-21 | a missing value gives exactly "0"; a present one gives the Brazilian grouped text with `casas` decimals, two when `casas` is omitted |
| Format.FormatReal | utils.py:12-15 | a missing value gives exactly "R$ 0,00"; a present one gives "R$ " followed by the Brazilian grouped text with two decimals |
| Format.FormatRealIsFormatNum | utils.py:12-21 | for a present value the currency text is "R$ " followed by `format_num(v)` with its default `casas=2`; for a missing one the two placeholders differ, "R$ 0,00" against "R$ 0" |
| Format.ReplaceChainSwaps | utils.py:21 | on a text without 'X', the three chained replaces swap ',' and '.' character by character and leave every other character unchanged |
| Format.ReplaceChainOnX | utils.py:15 | the placeholder premise is needed: an 'X' already in the text comes out as '.' |
| Format.BrFormatShape | utils.py:20-21 | '-' is the first character exactly for negatives; with 0 decimals there is no ','; otherwise the single ',' is followed by exactly `casas` digits; the integer part is grouped in threes by '.' |
| Format.FormatRealShape | utils.py:15 | the text starts with "R$ " and ends with ',' and exactly two digits |
| Format.FormatRealExample | utils.py:15 | 1234.5 reais prints as "R$ 1.234,50" |
| Format.FormatNumExample | utils.py:20-21 | one million with 0 decimals prints as "1.000.000" |
| Format.BrFormatRoundTrip | utils.py:20-21 | reading the Brazilian text of any fixed-point number back, with the same number of decimals, gives that number |
| Format.FormatNumRoundTrip | utils.py:17-21 | reading the formatted text back gives the original number, so no information is lost |
| Format.FormatNumInjective | utils.py:17-21 | distinct numbers never format alike |
| Columns.Strip | utils.py:25 | the result is a contiguous slice of the name, neither end is whitespace, and everything cut off is whitespace |
| Columns.StripIdempotent | utils.py:35 | stripping a stripped name changes nothing |
| Columns.RenameEffect | utils.py:56 | after renaming `from` to a different `to`, each column named `from` is called `to` at its own position, every other column keeps its place and name, no column is called `from`, and `to` is present exactly when `to` or `from` was |
| Columns.PvUnitColumns | utils.py:38-41 | exactly the columns that are not `Tempo`, the tariff or the factor column and do not start with "Unnamed", in increasing order |
| Columns.KpiSchema | kpi.py:25-27 | fewer than two columns fail with an index error; otherwise the units are columns 1..n-3, the tariff column is n-2 and the factor column is n-1 |
| Columns.KpiSchemaPartition | kpi.py:25-27 | with three or more columns, column 0, the units, the tariff and the factor are disjoint, cover every column, and keep the table's order |
| Columns.KpiSchemaTwoColumns | kpi.py:25-27 | with two columns there are no units and the tariff is column 0 |
| Unpivot.MeltLength | utils.py:42-46 | the melt has rows × unit-columns records |
| Unpivot.MeltAt | kpi.py:30-33 | the record at `c × rows + i` carries row `i`'s time, tariff and factor cells, the name of the `c`-th unit column, and that cell |
| Unpivot.MeltOrigin | utils.py:42-46 | every melted record comes from exactly one source cell: row `k mod rows` of unit column `k div rows` |
| Unpivot.MeltRows | utils.py:42-46 | the two loops of the melt produce the melt specification |
| Values.NotAfterIsTotalOrder | kpi.py:93 | the timestamp comparison is a total order |
| Values.ToNumeric | utils.py:51-53 | a blank cell is missing and a numeric cell keeps its value |
| Metrics.ConsistentMissing | utils.py:54-55 | revenue is present iff generation and tariff are, and then equals their product; GHG is present iff generation and factor are, and then equals generation/1000 × factor; year and month are present iff the time is, and are its fields |
| Metrics.Derive | kpi.py:40-46 | a record keeps its unit and time, its numbers are the coerced cells, and its derived fields follow the formulas |
| Metrics.StrictTimesOutcome | kpi.py:35 | a strict parse succeeds iff no time cell is non-blank and unparseable; on success it equals the coercing parse; a failure names such a cell |
| Metrics.StrictTimesPrefix | kpi.py:35 | the strict parse reports the first failing cell: a failure within a prefix is the failure of the whole column |
| Metrics.ParseTimes | utils.py:47 | with coercion the loop yields the coerced times; without coercion it yields the strict result |
| Metrics.DeriveAll | utils.py:48-55 | the column-by-column assignments produce the derived record of every melted row |
| Loaders.AddColumn | utils.py:48-50 | assigning a column keeps the old columns in their places, makes the name present, adds nothing but that name, and grows the header by one column exactly when the name is new |
| Loaders.BuildRecords | utils.py:42-55 | melt, time parse and derivation together produce the specified records |
| Loaders.RecordsOutcome | kpi.py:35 | with coercion the pipeline never fails; when strict, it fails iff there is a unit column and some row's time cell is non-blank and unparseable; the error names such a cell |
| Loaders.RecordsAt | kpi.py:30-46 | the record count is rows × units; the record at `c × rows + i` has the `c`-th unit column's name, that cell's number, its row's tariff, factor and time, and consistent derived fields |
| Loaders.RecordsConsistent | utils.py:54-55 | every loaded record satisfies the derivation formulas |
| Loaders.PvIds | utils.py:42-43 | the three id columns are located exactly when all are present; otherwise the error names an absent one |
| Loaders.LoadPhotovoltaic | utils.py:33-57 | the step-by-step loader returns the photovoltaic frame specification |
| Loaders.PhotovoltaicOutcome | utils.py:33-57 | the photovoltaic load fails only when an id column is missing from the stripped header, never because of the data |
| Loaders.PhotovoltaicRecords | utils.py:38-55 | each record comes from its source row and a unit column named by `IsPvUnitName`; an unparseable time gives a missing time, year and month |
| Loaders.PvHeaderValue | utils.py:56 | the photovoltaic header is the fixed column list with only the tariff renamed |
| Loaders.PhotovoltaicHeader | utils.py:56 | the loaded frame's header has "Tarifa (R$/kWh)" in place of the tariff column, and the old name is gone |
| Loaders.LoadKpi | kpi.py:21-49 | the step-by-step loader returns the KPI frame specification, including its failure when `Tempo` is also the tariff or the factor column |
| Loaders.KpiOutcome | kpi.py:25-35 | the load fails with an index error iff there are fewer than two columns; with a missing-column error iff `Tempo` is absent; with a repeated-id error iff `Tempo` is one of the last two columns; with a parse error iff there is a unit column and some non-blank time cell does not parse (that error names such a cell); and it succeeds iff none of these holds |
| Loaders.KpiRecords | kpi.py:30-46 | record `c × rows + i` is unit column `c+1` of row `i`, with that row's last two cells as tariff and factor and a parsed time |
| Loaders.KpiNoUnits | kpi.py:25 | with fewer than four columns `columns[1:-2]` is empty and the load has no records |
| Loaders.KpiHeaderRenamed | kpi.py:47 | the second-to-last column's name is replaced by "Tarifa (R$/kWh)", and every other column keeps its name and place |
| Loaders.KpiHeader | kpi.py:47 | the loaded KPI header renames only the tariff column |
| Loaders.SystemTableStripped | utils.py:59-62 | the system sheet keeps its rows, strips every column name, and stripping again changes nothing |
| Loaders.LoadBus | utils.py:23-31 | the step-by-step bus loader returns the bus frame specification |
| Loaders.BusFrameShape | utils.py:23-31 | the bus load never fails and keeps all rows and the stripped columns; it parses times exactly when `Tempo` is present, each from its own row, and then adds `Ano`, `MesNum` and `Mês` and no other column |
| Aggregate.SumForPresent | kpi.py:143-147 | a group sum is the plain sum of that group's present values |
| Aggregate.PresentValuesMembers | kpi.py:143-147 | a value is among a group's present values iff some pair of that key carries it; there are none iff every pair of that key is missing; there are at most as many as pairs |
| Aggregate.AllMissingSumsToZero | kpi.py:143-147 | a group whose values are all missing sums to 0 |
| Aggregate.SumForConcat | kpi.py:108 | group sums add up over a concatenated column |
| Aggregate.Keys | kpi.py:108 | the group keys are distinct, cover every pair, and each comes from some pair |
| Aggregate.GroupSumRows | kpi.py:108 | the group-by has one row per key, holding that key's sum |
| Aggregate.GroupSumKeys | kpi.py:108 | the group-by has a row for every key that occurs, and no other |
| Aggregate.RegroupTotals | kpi.py:108-109 | grouping by a fine key and then summing those sums by a coarser key gives the coarse group sum directly |
| Queries.WhereCounts | kpi.py:59 | a boolean mask keeps exactly the accepted records, each as often as it occurs |
| Queries.FilterUnitSpec | kpi.py:58-59 | the unit filter keeps exactly the records of that unit, with their multiplicity; an unknown unit gives an empty result |
| Queries.FilterPeriodSpec | kpi.py:93 | a record is kept iff its time is present and `start <= time <= end`; both bounds are included; an inverted period keeps nothing |
| Queries.PairsSum | kpi.py:108 | a group sum over the key and value column equals the sum over the records with that key |
| Queries.RecordSumAllMissing | kpi.py:143-147 | the records of a group that all miss a value sum to 0 |
| Queries.RecordSumSkipsMissing | kpi.py:143-147 | removing the records that miss a value changes no group total |
| Queries.StackedDecomposes | kpi.py:108-109 | for every time, the per-(time, unit) sums add up to that time's total |
| Queries.TimeTotalsSpec | kpi.py:109 | each per-time row holds the total of that time's records, and no time has two rows |
| Queries.TimeTotalsKeys | kpi.py:108-109 | every record with a time has a per-time row, and every row's time is some record's |
| Queries.SummaryRows | kpi.py:143-147 | summary keys are distinct, and each row's three totals are its records' totals |
| Queries.SummaryKeys | kpi.py:143-147 | the summary has a row for each key a record has, and no row for any other key |
| Queries.SummaryMissing | kpi.py:143-147 | a summary total counts only present values, and is 0 when every record of the group misses that value |
| Queries.UnitSumsAllMissing | kpi.py:143-147 | a unit whose records all miss an indicator shows 0 for that indicator |
| Queries.SummaryRowOfRecord | kpi.py:143-147 | a record with a present key falls in the summary row of that key |
| Queries.RecordOfSummaryRow | kpi.py:143-147 | every summary row's key comes from some record |
| Queries.MonthRowOrigin | utils.py:105-109 | every month-summary row is the (year, month) of some record's present time |
| Queries.MonthRowOfRecord | utils.py:105-109 | every record with a present time falls in the row of its (year, month) |
| Queries.MonthKeyMissing | utils.py:105-109 | a record with a missing time has no month key, so it is in no month row |

## Left out

- Streamlit pages, widgets, the sidebar and `st.cache_data` (kpi.py:9, 20, 51-151): these are UI and framework cache, with no data logic.
- Plotly figures, and the FPDF/matplotlib report (utils.py:64-148) apart from its month group-by at lines 105-109: these are rendering libraries.
- `pd.read_excel` and the CSV/Excel exports: this is file I/O. The sheet is an in-memory `RawTable` input.
- `locale.setlocale` and the dashboard metrics formatted with `locale.format_string` (kpi.py:62-67, 96-98): the output depends on the host locale.
- IEEE-754 floating point: rounding in `f"{v:,.2f}"` and in `/1000` is not modelled. The formatters take an exact fixed-point integer, and the metrics use exact reals.
- The parsers of `pd.to_numeric` and `pd.to_datetime`: they are opaque function parameters. For `to_numeric` the blank and number cases are fixed and only text is opaque. For `to_datetime` the blank case is fixed (it gives NaT). The opaque parser reads every non-blank cell, number or text, with three outcomes: a date; a text that stands for a missing time, such as "NaT" or "nan", which gives NaT without an error even in the strict parse; or a failure. Which texts are which is not modelled.
- Column labels that are not strings: a header is a sequence of `string`s. `read_excel` can give a date or number label; `.str.strip()` (utils.py:25, 35, 61) turns it into NaN, and then `col.startswith` (utils.py:40) raises `AttributeError`. Neither behaviour is modelled.
- `strftime` month labels (`Mês`): the model adds the column name; the label text depends on the locale.
- Format.FormatNum: the value is an exact integer count of 10^-casas units, so Python's round-half-even to `casas` decimals is not modelled.
- Loaders.PvIds: `melt` raises a `KeyError` that lists every missing id column; the model names only the first.
- A KPI sheet whose `Tempo` column lies inside `columns[1:-2]`: the model melts it both as the time and as a unit column, and what pandas does with a column that is both an id and a value column is not modelled.
- Duplicate column names after stripping, and derived column names that collide with source columns. A record keeps every field separately, so these collisions are not modelled.
- Group order: pandas sorts group keys, while the model lists groups in order of first appearance. No property here depends on the order.
- The KPI records carry the month number of `Tempo`, like the photovoltaic ones. kpi.py:36-37 adds only `Ano` and a `Mês` label, so the KPI header has no `MesNum` column.
- Column-wise assignments to the melted frame are modelled as one pass per record. The result is the same, but the order of the intermediate updates is not.
