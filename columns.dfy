/** Column names of the energy table: whitespace stripping (`str.strip`),
    renaming (`DataFrame.rename`), lookup by name, and the two ways the
    loaders pick the unit-generation columns. */
module Columns {
  import opened Values

  const TimeColumn: string := "Tempo"
  const TariffColumn: string := "Tarifa Fora Ponta (R$/kWh)"
  const GeeColumn: string := "Fator de Emissão de Gases do Efeito Estufa (tCO2/MWh)"
  const TariffRenamed: string := "Tarifa (R$/kWh)"

  /** Python's `str.isspace` on one character. */
  predicate IsSpace(c: char)
  {
    var n := c as int;
    (9 <= n <= 13) || (28 <= n <= 32) || n == 0x85 || n == 0xA0 || n == 0x1680
    || (0x2000 <= n <= 0x200A) || n == 0x2028 || n == 0x2029 || n == 0x202F
    || n == 0x205F || n == 0x3000
  }

  /** The number of whitespace characters `s` starts with. */
  function LeadingSpaces(s: string): (n: nat)
    ensures n <= |s|
    ensures forall k :: 0 <= k < n ==> IsSpace(s[k])
    ensures n < |s| ==> !IsSpace(s[n])
  {
    if |s| > 0 && IsSpace(s[0]) then 1 + LeadingSpaces(s[1..]) else 0
  }

  /** The number of whitespace characters `s` ends with. */
  function TrailingSpaces(s: string): (n: nat)
    ensures n <= |s|
    ensures forall k :: |s| - n <= k < |s| ==> IsSpace(s[k])
    ensures n < |s| ==> !IsSpace(s[|s| - n - 1])
  {
    if |s| > 0 && IsSpace(s[|s| - 1]) then 1 + TrailingSpaces(s[..|s| - 1]) else 0
  }

  /** `s.strip()`: the leading and trailing whitespace removed, nothing else. */
  function Strip(s: string): (r: string)
    ensures r == [] || (!IsSpace(r[0]) && !IsSpace(r[|r| - 1]))
    ensures var i := LeadingSpaces(s);
      i + |r| <= |s| && r == s[i..i + |r|] &&
      forall k :: 0 <= k < |s| && !(i <= k < i + |r|) ==> IsSpace(s[k])
  {
    var i := LeadingSpaces(s);
    var t := s[i..];
    t[..|t| - TrailingSpaces(t)]
  }

  /** Stripping twice is stripping once. */
  lemma StripIdempotent(s: string)
    ensures Strip(Strip(s)) == Strip(s)
  {
    var r := Strip(s);
    assert LeadingSpaces(r) == 0;
    assert r[0..] == r;
    assert TrailingSpaces(r) == 0;
  }

  /** `df.columns.str.strip()`. */
  function StripAll(cols: seq<string>): (r: seq<string>)
    ensures |r| == |cols|
    ensures forall i :: 0 <= i < |cols| ==> r[i] == Strip(cols[i])
  {
    seq(|cols|, i requires 0 <= i < |cols| => Strip(cols[i]))
  }

  /** `rename(columns={from: to})` on a header: every column named `from`
      is called `to`, all other names stay. */
  function Rename(header: seq<string>, from: string, to: string): (r: seq<string>)
  {
    seq(|header|, i requires 0 <= i < |header| => if header[i] == from then to else header[i])
  }

  /** After a rename with `from != to`, every column named `from` is called
      `to` at its own position, every column with another name keeps its
      position and name, no column is called `from`, and `to` is present
      exactly when it or `from` was. */
  lemma RenameEffect(header: seq<string>, from: string, to: string)
    requires from != to
    ensures var r := Rename(header, from, to);
      |r| == |header| && from !in r &&
      (to in r <==> to in header || from in header) &&
      (forall i :: 0 <= i < |header| && header[i] != from ==> r[i] == header[i]) &&
      (forall i :: 0 <= i < |header| && header[i] == from ==> r[i] == to)
  {
    var r := Rename(header, from, to);
    if to in r {
      var i :| 0 <= i < |r| && r[i] == to;
      assert header[i] == to || header[i] == from;
    }
    if from in header {
      var i :| 0 <= i < |header| && header[i] == from;
      assert r[i] == to;
    }
    if to in header {
      var i :| 0 <= i < |header| && header[i] == to;
      assert r[i] == to;
    }
  }

  /** The position of the first column called `name`. */
  function IndexOf(cols: seq<string>, name: string): (r: Option<nat>)
    ensures r.None? <==> name !in cols
    ensures r.Some? ==> r.value < |cols| && cols[r.value] == name &&
                        forall j :: 0 <= j < r.value ==> cols[j] != name
  {
    if cols == [] then None
    else if cols[0] == name then Some(0)
    else
      var t := IndexOf(cols[1..], name);
      if t.Some? then Some(t.value + 1) else None
  }

  /** Python's `s.startswith(prefix)`. */
  predicate StartsWith(s: string, prefix: string)
  {
    |prefix| <= |s| && s[..|prefix|] == prefix
  }

  /** Whether the photovoltaic loader melts a column of that (stripped) name. */
  predicate IsPvUnitName(name: string)
  {
    name != TimeColumn && name != TariffColumn && name != GeeColumn
    && !StartsWith(name, "Unnamed")
  }

  /** `colunas_geracao` of the photovoltaic loader, as column positions: the
      columns whose names pass `IsPvUnitName`, in increasing order. */
  function PvUnitColumns(cols: seq<string>): (r: seq<nat>)
    ensures forall j :: 0 <= j < |r| ==> r[j] < |cols| && IsPvUnitName(cols[r[j]])
    ensures forall j, k :: 0 <= j < k < |r| ==> r[j] < r[k]
    ensures forall i :: 0 <= i < |cols| && IsPvUnitName(cols[i]) ==> i in r
  {
    if cols == [] then []
    else
      var r := PvUnitColumns(cols[..|cols| - 1]);
      if IsPvUnitName(cols[|cols| - 1]) then r + [|cols| - 1] else r
  }

  /** The columns the KPI loader works with, as positions. */
  datatype Schema = Schema(units: seq<nat>, tariff: nat, factor: nat)

  /** `columns[1:-2]`, `columns[-2]` and `columns[-1]`; with fewer than two
      columns `columns[-2]` raises. */
  function KpiSchema(cols: seq<string>): (r: Result<Schema>)
    ensures r.Err? <==> |cols| < 2
    ensures r.Err? ==> r.error == TooFewColumns
    ensures r.Ok? ==> r.value.tariff == |cols| - 2 && r.value.factor == |cols| - 1
    ensures r.Ok? ==> |r.value.units| == (if |cols| >= 3 then |cols| - 3 else 0)
    ensures r.Ok? ==> forall j :: 0 <= j < |r.value.units| ==> r.value.units[j] == j + 1
  {
    if |cols| < 2 then Err(TooFewColumns)
    else Ok(Schema(seq(if |cols| >= 3 then |cols| - 3 else 0, j => j + 1), |cols| - 2, |cols| - 1))
  }

  /** With at least three columns, column 0, the unit columns, the tariff
      column and the emission-factor column are disjoint and cover every
      column, and the unit columns keep the table's order. */
  lemma KpiSchemaPartition(cols: seq<string>)
    requires |cols| >= 3
    ensures KpiSchema(cols).Ok?
    ensures var s := KpiSchema(cols).value;
      s.tariff == |cols| - 2 && s.factor == |cols| - 1 &&
      (forall j, k :: 0 <= j < k < |s.units| ==> s.units[j] < s.units[k]) &&
      forall i :: 0 <= i < |cols| ==>
        (i == 0 || i in s.units || i == s.tariff || i == s.factor) &&
        (i in s.units ==> 0 < i < s.tariff) &&
        s.tariff != s.factor && s.tariff != 0
  {
    var s := KpiSchema(cols).value;
    forall i | 0 <= i < |cols|
      ensures i == 0 || i in s.units || i == s.tariff || i == s.factor
    {
      if 0 < i < |cols| - 2 {
        assert s.units[i - 1] == i;
      }
    }
  }

  /** With exactly two columns there are no unit columns and the tariff
      column is column 0, the position the slice `[1:-2]` treats as the time
      column: the partition above needs three columns. */
  lemma KpiSchemaTwoColumns(cols: seq<string>)
    requires |cols| == 2
    ensures KpiSchema(cols) == Ok(Schema([], 0, 1))
  {
    assert KpiSchema(cols).value.units == [];
  }
}
