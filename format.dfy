/** Brazilian-style number formatting (`format_real`, `format_num`).

    The source formats a float with Python's `f"{v:,.Nf}"`, which groups the
    integer part with ',' and writes '.' before the N decimals, and then swaps
    the two separators with a three-step `str.replace` through the
    placeholder 'X'. Here a value with N decimals is given as the integer
    `units = v * 10^N`, so the text is exact and the digit grouping and the
    swap can be stated without floating-point rounding. */
module Format {
  import opened Values

  function Pow10(k: nat): (r: nat)
    ensures r >= 1
  {
    if k == 0 then 1 else 10 * Pow10(k - 1)
  }

  predicate IsDigit(c: char) { '0' <= c <= '9' }

  predicate AllDigits(s: string) { forall i :: 0 <= i < |s| ==> IsDigit(s[i]) }

  function DigitChar(d: nat): (c: char)
    requires d < 10
    ensures IsDigit(c)
  {
    (48 + d) as char
  }

  function DigitValue(c: char): (d: nat)
    requires IsDigit(c)
    ensures d < 10
  {
    c as int - 48
  }

  /** `str(n)`: the decimal digits of n, without leading zeros. */
  function Digits(n: nat): (s: string)
    ensures 1 <= |s| && AllDigits(s)
  {
    if n < 10 then [DigitChar(n)] else Digits(n / 10) + [DigitChar(n % 10)]
  }

  /** The number a string of decimal digits denotes. */
  function DigitsValue(s: string): nat
    requires AllDigits(s)
  {
    if s == [] then 0 else DigitsValue(s[..|s| - 1]) * 10 + DigitValue(s[|s| - 1])
  }

  lemma {:induction false} DigitsRoundTrip(n: nat)
    ensures DigitsValue(Digits(n)) == n
  {
    var s := Digits(n);
    if n >= 10 {
      assert s[..|s| - 1] == Digits(n / 10);
      DigitsRoundTrip(n / 10);
    }
  }

  function Zeros(k: nat): (s: string)
    ensures |s| == k && AllDigits(s)
  {
    seq(k, _ => '0')
  }

  /** Left-pads a digit string with '0' up to `width` characters. */
  function ZeroPad(s: string, width: nat): (r: string)
    requires AllDigits(s)
    ensures AllDigits(r)
    ensures |s| <= width ==> |r| == width
    ensures |r| >= width && |r| >= |s|
  {
    if |s| >= width then s else Zeros(width - |s|) + s
  }

  lemma {:induction false} ZerosValue(k: nat)
    ensures DigitsValue(Zeros(k)) == 0
  {
    if k > 0 {
      assert Zeros(k)[..k - 1] == Zeros(k - 1);
      ZerosValue(k - 1);
    }
  }

  /** Leading zeros do not change the value of a digit string. */
  lemma {:induction false} LeadingZerosValue(k: nat, s: string)
    requires AllDigits(s)
    ensures DigitsValue(Zeros(k) + s) == DigitsValue(s)
  {
    if s == [] {
      assert Zeros(k) + s == Zeros(k);
      ZerosValue(k);
    } else {
      var z := Zeros(k) + s;
      assert z[..|z| - 1] == Zeros(k) + s[..|s| - 1];
      LeadingZerosValue(k, s[..|s| - 1]);
    }
  }

  lemma {:induction false} ZeroPadValue(s: string, width: nat)
    requires AllDigits(s)
    ensures DigitsValue(ZeroPad(s, width)) == DigitsValue(s)
  {
    if |s| < width {
      LeadingZerosValue(width - |s|, s);
    }
  }

  /** Inserts `sep` between groups of three digits, counted from the right
      (the `,` option of Python's format mini-language, with `sep` for ','). */
  function Group(ds: string, sep: char): (r: string)
    decreases |ds|
  {
    if |ds| <= 3 then ds else Group(ds[..|ds| - 3], sep) + [sep] + ds[|ds| - 3..]
  }

  /** `s` is digits in groups separated by `sep`: a leading group of one to
      three digits, then groups of exactly three. */
  predicate Grouped(s: string, sep: char)
    decreases |s|
  {
    if |s| <= 3 then 1 <= |s| && AllDigits(s)
    else s[|s| - 4] == sep && AllDigits(s[|s| - 3..]) && Grouped(s[..|s| - 4], sep)
  }

  /** `s` with every `c` removed. */
  function Drop(s: string, c: char): string
  {
    if s == [] then [] else (if s[0] == c then [] else [s[0]]) + Drop(s[1..], c)
  }

  lemma {:induction false} DropConcat(a: string, b: string, c: char)
    ensures Drop(a + b, c) == Drop(a, c) + Drop(b, c)
  {
    if a != [] {
      assert (a + b)[1..] == a[1..] + b;
      DropConcat(a[1..], b, c);
    } else {
      assert a + b == b;
    }
  }

  lemma {:induction false} DropDigits(s: string, c: char)
    requires AllDigits(s) && !IsDigit(c)
    ensures Drop(s, c) == s
  {
    if s != [] {
      DropDigits(s[1..], c);
    }
  }

  /** A grouped string holds only digits and separators. */
  lemma {:induction false} GroupedChars(s: string, sep: char)
    requires Grouped(s, sep)
    ensures forall i :: 0 <= i < |s| ==> IsDigit(s[i]) || s[i] == sep
  {
    if |s| > 3 {
      GroupedChars(s[..|s| - 4], sep);
      assert s == s[..|s| - 4] + [sep] + s[|s| - 3..];
    }
  }

  lemma {:induction false} GroupedDropsToDigits(s: string, sep: char)
    requires Grouped(s, sep) && !IsDigit(sep)
    ensures AllDigits(Drop(s, sep))
  {
    if |s| <= 3 {
      DropDigits(s, sep);
    } else {
      var hi, lo := s[..|s| - 4], s[|s| - 3..];
      assert s == hi + [sep] + lo;
      DropConcat(hi + [sep], lo, sep);
      DropConcat(hi, [sep], sep);
      DropDigits(lo, sep);
      GroupedDropsToDigits(hi, sep);
    }
  }

  /** Grouping a digit string yields a grouped string that starts with a digit. */
  lemma {:induction false} GroupIsGrouped(ds: string, sep: char)
    requires 1 <= |ds| && AllDigits(ds) && !IsDigit(sep)
    ensures Grouped(Group(ds, sep), sep)
    ensures IsDigit(Group(ds, sep)[0])
  {
    if |ds| > 3 {
      var hi, lo := ds[..|ds| - 3], ds[|ds| - 3..];
      GroupIsGrouped(hi, sep);
      var g := Group(hi, sep) + [sep] + lo;
      assert g[..|g| - 4] == Group(hi, sep);
      assert g[|g| - 3..] == lo;
      assert g[0] == Group(hi, sep)[0];
    }
  }

  /** Grouping only inserts separators: removing them gives the digits back. */
  lemma {:induction false} GroupKeepsDigits(ds: string, sep: char)
    requires AllDigits(ds) && !IsDigit(sep)
    ensures Drop(Group(ds, sep), sep) == ds
  {
    if |ds| <= 3 {
      DropDigits(ds, sep);
    } else {
      var hi, lo := ds[..|ds| - 3], ds[|ds| - 3..];
      var g := Group(hi, sep);
      assert Group(ds, sep) == g + [sep] + lo;
      GroupKeepsDigits(hi, sep);
      DropConcat(g + [sep], lo, sep);
      DropConcat(g, [sep], sep);
      DropDigits(lo, sep);
      assert Drop([sep], sep) == [] by {
        assert [sep][1..] == [];
      }
      calc {
        Drop(Group(ds, sep), sep);
        Drop(g + [sep], sep) + Drop(lo, sep);
        Drop(g, sep) + Drop([sep], sep) + Drop(lo, sep);
        hi + lo;
        ds;
      }
    }
  }

  /** Appending a digit `d` to a numeral split as x·p + y. */
  lemma DigitsRegroup(x: int, p: int, y: int, d: int)
    ensures (x * p + y) * 10 + d == x * (p * 10) + (y * 10 + d)
  {
  }

  /** Concatenated digit strings: the left part counts in units of 10^|b|. */
  lemma {:induction false} DigitsValueConcat(a: string, b: string)
    requires AllDigits(a) && AllDigits(b)
    ensures DigitsValue(a + b) == DigitsValue(a) * Pow10(|b|) + DigitsValue(b)
  {
    if b == [] {
      assert a + b == a;
    } else {
      var b' := b[..|b| - 1];
      var ab := a + b;
      assert ab[..|ab| - 1] == a + b';
      assert ab[|ab| - 1] == b[|b| - 1];
      var d := DigitValue(b[|b| - 1]);
      assert DigitsValue(ab) == DigitsValue(a + b') * 10 + d;
      assert DigitsValue(b) == DigitsValue(b') * 10 + d;
      assert Pow10(|b|) == Pow10(|b'|) * 10;
      DigitsValueConcat(a, b');
      DigitsRegroup(DigitsValue(a), Pow10(|b'|), DigitsValue(b'), d);
    }
  }

  function Magnitude(units: int): nat
  {
    if units < 0 then -units else units
  }

  function SignText(units: int): string
  {
    if units < 0 then "-" else ""
  }

  /** All digits of |units|, padded so that at least one digit stands before
      the `casas` decimals. */
  function Padded(units: int, casas: nat): (s: string)
    ensures AllDigits(s) && |s| >= casas + 1
  {
    ZeroPad(Digits(Magnitude(units)), casas + 1)
  }

  /** The digits before the decimal point. */
  function WholeDigits(units: int, casas: nat): (s: string)
    ensures AllDigits(s) && |s| >= 1
  {
    var s := Padded(units, casas);
    s[..|s| - casas]
  }

  /** The `casas` digits after the decimal point. */
  function FracDigits(units: int, casas: nat): (s: string)
    ensures AllDigits(s) && |s| == casas
  {
    var s := Padded(units, casas);
    s[|s| - casas..]
  }

  /** The text of a number with `casas` decimals given as `units / 10^casas`:
      an optional '-', the integer part grouped by `groupSep`, and, when
      `casas > 0`, `point` followed by exactly `casas` digits. */
  function Render(units: int, casas: nat, groupSep: char, point: char): string
  {
    SignText(units) + Group(WholeDigits(units, casas), groupSep)
      + (if casas == 0 then "" else [point] + FracDigits(units, casas))
  }

  /** What `f"{v:,.{casas}f}"` prints for `v = units / 10^casas`. */
  function PyFormat(units: int, casas: nat): string
  {
    Render(units, casas, ',', '.')
  }

  /** The Brazilian rendering: '.' groups thousands, ',' marks decimals. */
  function BrFormat(units: int, casas: nat): string
  {
    Render(units, casas, '.', ',')
  }

  function SwapSeparator(c: char): char
  {
    if c == ',' then '.' else if c == '.' then ',' else c
  }

  /** The intended effect of the replace chain: ',' and '.' exchanged, every
      other character kept. */
  function SwapSeparators(s: string): string
  {
    seq(|s|, i requires 0 <= i < |s| => SwapSeparator(s[i]))
  }

  /** `s.replace(a, b)` for a one-character `a`. */
  function Replace(s: string, a: char, b: char): string
  {
    seq(|s|, i requires 0 <= i < |s| => if s[i] == a then b else s[i])
  }

  /** `.replace(",", "X").replace(".", ",").replace("X", ".")`, as written
      at utils.py lines 15 and 21. */
  function ReplaceChain(s: string): string
  {
    Replace(Replace(Replace(s, ',', 'X'), '.', ','), 'X', '.')
  }

  /** On a text without 'X' the replace chain is exactly the separator swap. */
  lemma ReplaceChainSwaps(s: string)
    requires 'X' !in s
    ensures ReplaceChain(s) == SwapSeparators(s)
  {
    var r := ReplaceChain(s);
    forall i | 0 <= i < |s|
      ensures r[i] == SwapSeparators(s)[i]
    {
      assert s[i] != 'X';
    }
  }

  /** Without the 'X'-free premise the chain is not a swap: an 'X' already in
      the text comes out as '.'. */
  lemma ReplaceChainOnX()
    ensures ReplaceChain("X") == "." && SwapSeparators("X") == "X"
  {
    assert ReplaceChain("X")[0] == '.';
  }

  lemma SwapConcat(a: string, b: string)
    ensures SwapSeparators(a + b) == SwapSeparators(a) + SwapSeparators(b)
  {
    assert forall i :: 0 <= i < |a + b| ==>
      SwapSeparators(a + b)[i] == (SwapSeparators(a) + SwapSeparators(b))[i];
  }

  lemma SwapKeeps(s: string)
    requires forall i :: 0 <= i < |s| ==> s[i] != ',' && s[i] != '.'
    ensures SwapSeparators(s) == s
  {
  }

  lemma {:induction false} SwapGroup(ds: string)
    requires AllDigits(ds)
    ensures SwapSeparators(Group(ds, ',')) == Group(ds, '.')
  {
    if |ds| > 3 {
      var hi, lo := ds[..|ds| - 3], ds[|ds| - 3..];
      SwapGroup(hi);
      SwapConcat(Group(hi, ',') + [','], lo);
      SwapConcat(Group(hi, ','), [',']);
      SwapKeeps(lo);
    } else {
      SwapKeeps(ds);
    }
  }

  /** The US-style text swaps into the Brazilian one. */
  lemma SwapRender(units: int, casas: nat)
    ensures SwapSeparators(PyFormat(units, casas)) == BrFormat(units, casas)
  {
    var sign := SignText(units);
    var ds := WholeDigits(units, casas);
    var frac := FracDigits(units, casas);
    var tail: string := if casas == 0 then "" else "." + frac;
    SwapConcat(sign + Group(ds, ','), tail);
    SwapConcat(sign, Group(ds, ','));
    SwapKeeps(sign);
    SwapGroup(ds);
    if casas > 0 {
      SwapConcat(".", frac);
      SwapKeeps(frac);
      assert SwapSeparators(".") == ",";
    }
  }

  lemma NoPlaceholder(units: int, casas: nat)
    ensures 'X' !in PyFormat(units, casas)
  {
    var ds := WholeDigits(units, casas);
    GroupIsGrouped(ds, ',');
    GroupedChars(Group(ds, ','), ',');
    var frac := FracDigits(units, casas);
    var r := PyFormat(units, casas);
    var sign := SignText(units);
    var tail: string := if casas == 0 then "" else "." + frac;
    assert r == sign + Group(ds, ',') + tail;
    assert forall i :: 0 <= i < |tail| ==> tail[i] != 'X';
  }

  /** `format_num(v, casas=2)`: missing gives "0", otherwise the
      separator-swapped grouped text with `casas` decimals (two by default). */
  function FormatNum(v: Option<int>, casas: nat := 2): (r: string)
    ensures v.None? ==> r == "0"
    ensures v.Some? ==> r == BrFormat(v.value, casas)
  {
    if v.None? then "0"
    else
      NoPlaceholder(v.value, casas);
      ReplaceChainSwaps(PyFormat(v.value, casas));
      SwapRender(v.value, casas);
      ReplaceChain(PyFormat(v.value, casas))
  }

  /** `format_real(v)` for an amount of `v` centavos: missing gives "R$ 0,00",
      otherwise "R$ " and the separator-swapped text with two decimals. */
  function FormatReal(v: Option<int>): (r: string)
    ensures v.None? ==> r == "R$ 0,00"
    ensures v.Some? ==> r == "R$ " + BrFormat(v.value, 2)
  {
    if v.None? then "R$ 0,00"
    else
      var s := PyFormat(v.value, 2);
      NoPlaceholder(v.value, 2);
      assert 'X' !in "R$ " + s;
      ReplaceChainSwaps("R$ " + s);
      SwapConcat("R$ ", s);
      SwapKeeps("R$ ");
      SwapRender(v.value, 2);
      ReplaceChain("R$ " + s)
  }

  function Signed(negative: bool, m: int): int
  {
    if negative then -m else m
  }

  /** The number a '.'-grouped integer part denotes; `None` when the text
      is not grouped. */
  function ParseWhole(whole: string): (r: Option<nat>)
    ensures r.Some? <==> Grouped(whole, '.')
  {
    if Grouped(whole, '.') then
      GroupedDropsToDigits(whole, '.');
      Some(DigitsValue(Drop(whole, '.')))
    else None
  }

  /** The magnitude a Brazilian-formatted text without sign denotes, in
      units of 10^-casas; `None` when the text is not of that form. */
  function ParseUnsigned(body: string, casas: nat): Option<int>
  {
    if casas == 0 then
      var w := ParseWhole(body);
      if w.Some? then Some(w.value) else None
    else if |body| < casas + 2 || body[|body| - casas - 1] != ',' then None
    else
      var w := ParseWhole(body[..|body| - casas - 1]);
      var frac := body[|body| - casas..];
      if w.Some? && AllDigits(frac) then Some(w.value * Pow10(casas) + DigitsValue(frac))
      else None
  }

  /** Reads a Brazilian-formatted number with `casas` decimals back into
      `units`; `None` when the text is not of that form. */
  function ParseBr(s: string, casas: nat): Option<int>
  {
    var neg := |s| > 0 && s[0] == '-';
    var m := ParseUnsigned(if neg then s[1..] else s, casas);
    if m.Some? then Some(Signed(neg, m.value)) else None
  }

  /** The whole and decimal digits together denote |units| (in units of 10^-casas). */
  lemma SplitValue(units: int, casas: nat)
    ensures DigitsValue(WholeDigits(units, casas)) * Pow10(casas) + DigitsValue(FracDigits(units, casas))
            == Magnitude(units)
  {
    var s := Padded(units, casas);
    assert s == WholeDigits(units, casas) + FracDigits(units, casas);
    DigitsValueConcat(WholeDigits(units, casas), FracDigits(units, casas));
    ZeroPadValue(Digits(Magnitude(units)), casas + 1);
    DigitsRoundTrip(Magnitude(units));
  }

  /** Reading an unsigned text without decimals: the grouped digits. */
  lemma ParseUnsignedWhole(g: string)
    requires Grouped(g, '.')
    ensures AllDigits(Drop(g, '.'))
    ensures ParseUnsigned(g, 0) == Some(DigitsValue(Drop(g, '.')))
  {
    GroupedDropsToDigits(g, '.');
  }

  /** The parts of `g + "," + frac`, as `ParseUnsigned` cuts them. */
  lemma SplitAtComma(g: string, frac: string)
    ensures var body := g + ([','] + frac);
      |body| >= |frac| + 1 && |body| - |frac| - 1 == |g| &&
      body[|g|] == ',' && body[..|g|] == g && body[|g| + 1..] == frac
  {
    var body := g + ([','] + frac);
    assert body[|g|..] == [','] + frac;
    assert ([','] + frac)[1..] == frac;
  }

  lemma ParseWholeGrouped(g: string)
    requires Grouped(g, '.')
    ensures AllDigits(Drop(g, '.'))
    ensures ParseWhole(g) == Some(DigitsValue(Drop(g, '.')))
  {
    GroupedDropsToDigits(g, '.');
  }

  /** Reading an unsigned text with decimals: the grouped integer part, ','
      and the decimal digits. */
  lemma ParseUnsignedFraction(g: string, frac: string)
    requires Grouped(g, '.') && AllDigits(frac) && |frac| > 0
    ensures AllDigits(Drop(g, '.'))
    ensures ParseUnsigned(g + ([','] + frac), |frac|)
      == Some(DigitsValue(Drop(g, '.')) * Pow10(|frac|) + DigitsValue(frac))
  {
    SplitAtComma(g, frac);
    ParseWholeGrouped(g);
  }

  /** The Brazilian rendering without its sign. */
  function BrBody(v: int, casas: nat): string
  {
    Group(WholeDigits(v, casas), '.') + (if casas == 0 then "" else [','] + FracDigits(v, casas))
  }

  /** The unsigned part reads back as |v|. */
  lemma ParseUnsignedRendered(v: int, casas: nat)
    ensures ParseUnsigned(BrBody(v, casas), casas) == Some(Magnitude(v))
  {
    var ds := WholeDigits(v, casas);
    var frac := FracDigits(v, casas);
    var g := Group(ds, '.');
    GroupIsGrouped(ds, '.');
    GroupKeepsDigits(ds, '.');
    SplitValue(v, casas);
    if casas == 0 {
      ParseUnsignedWhole(g);
      assert g + "" == g;
    } else {
      ParseUnsignedFraction(g, frac);
    }
  }

  lemma ParseBrSigned(negative: bool, body: string, casas: nat, m: int)
    requires |body| > 0 && IsDigit(body[0]) && ParseUnsigned(body, casas) == Some(m)
    ensures ParseBr((if negative then "-" else "") + body, casas) == Some(Signed(negative, m))
  {
    var s := (if negative then "-" else "") + body;
    if negative {
      assert s[1..] == body;
    } else {
      assert s == body;
    }
  }


  /** The unsigned part starts with a digit. */
  lemma BrBodyStartsWithDigit(v: int, casas: nat)
    ensures |BrBody(v, casas)| > 0 && IsDigit(BrBody(v, casas)[0])
  {
    GroupIsGrouped(WholeDigits(v, casas), '.');
  }

  /** The sign, then the unsigned part. */
  lemma BrFormatSplit(v: int, casas: nat)
    ensures BrFormat(v, casas) == (if v < 0 then "-" else "") + BrBody(v, casas)
  {
    var g := Group(WholeDigits(v, casas), '.');
    var tail: string := if casas == 0 then "" else [','] + FracDigits(v, casas);
    assert SignText(v) + g + tail == SignText(v) + (g + tail);
  }

  /** Reading the Brazilian rendering back gives the number. */
  lemma BrFormatRoundTrip(v: int, casas: nat)
    ensures ParseBr(BrFormat(v, casas), casas) == Some(v)
  {
    BrBodyStartsWithDigit(v, casas);
    ParseUnsignedRendered(v, casas);
    BrFormatSplit(v, casas);
    ParseBrSigned(v < 0, BrBody(v, casas), casas, Magnitude(v));
  }

  /** The formatted text determines the number: reading it back gives it. */
  lemma FormatNumRoundTrip(v: int, casas: nat)
    ensures ParseBr(FormatNum(Some(v), casas), casas) == Some(v)
  {
    BrFormatRoundTrip(v, casas);
  }

  /** Distinct numbers never print alike. */
  lemma FormatNumInjective(a: int, b: int, casas: nat)
    requires FormatNum(Some(a), casas) == FormatNum(Some(b), casas)
    ensures a == b
  {
    FormatNumRoundTrip(a, casas);
    FormatNumRoundTrip(b, casas);
  }

  /** The layout of a rendered number, on its three parts: the sign, the
      grouped integer part and the decimal digits. */
  lemma LayoutShape(sign: string, g: string, frac: string)
    requires sign == "" || sign == "-"
    requires |g| >= 1 && Grouped(g, '.') && IsDigit(g[0]) && AllDigits(frac)
    ensures var casas := |frac|;
      var r := sign + g + (if casas == 0 then "" else [','] + frac);
      var tail := if casas == 0 then 0 else casas + 1;
      |sign| + tail < |r| &&
      (r[0] == '-' <==> sign == "-") &&
      r[|sign|..|r| - tail] == g &&
      (casas == 0 ==> ',' !in r) &&
      (casas > 0 ==> r[|r| - casas - 1] == ',' && r[|r| - casas..] == frac
                     && ',' !in r[..|r| - casas - 1])
  {
    GroupedChars(g, '.');
    var casas := |frac|;
    var r := sign + g + (if casas == 0 then "" else [','] + frac);
    if casas == 0 {
      assert r == sign + g;
      assert r[|sign|..|r|] == g;
    } else {
      var pre := sign + g;
      assert r == pre + ([','] + frac);
      assert |r| - casas - 1 == |pre|;
      assert r[..|pre|] == pre;
      assert r[|sign|..|pre|] == g;
      var rest := [','] + frac;
      assert r[|pre|..] == rest;
      assert rest[1..] == frac;
      assert r[|pre| + 1..] == rest[1..];
    }
  }

  /** The layout of `format_num`'s text, which `FormatNum` equates with
      `BrFormat`: '-' exactly for negatives; with no decimals there is no
      ','; otherwise the only ',' stands right before exactly `casas` digits;
      between them the integer part is grouped in threes by '.'. */
  lemma BrFormatShape(v: int, casas: nat)
    ensures var r := BrFormat(v, casas);
      var lead := if v < 0 then 1 else 0;
      var tail := if casas == 0 then 0 else casas + 1;
      lead + tail < |r| &&
      (r[0] == '-' <==> v < 0) &&
      Grouped(r[lead..|r| - tail], '.') &&
      (casas == 0 ==> ',' !in r) &&
      (casas > 0 ==> r[|r| - casas - 1] == ',' && AllDigits(r[|r| - casas..])
                     && ',' !in r[..|r| - casas - 1])
  {
    var ds := WholeDigits(v, casas);
    var frac := FracDigits(v, casas);
    var g := Group(ds, '.');
    GroupIsGrouped(ds, '.');
    assert BrFormat(v, casas) == SignText(v) + g + (if casas == 0 then "" else [','] + frac);
    LayoutShape(SignText(v), g, frac);
  }

  /** The layout of `format_real`: "R$ ", the grouped integer part, ',' and
      exactly two digits. */
  lemma FormatRealShape(v: int)
    ensures var r := FormatReal(Some(v));
      6 < |r| && r[..3] == "R$ " && r[|r| - 3] == ',' && AllDigits(r[|r| - 2..])
  {
    BrFormatShape(v, 2);
    var n := BrFormat(v, 2);
    var r := FormatReal(Some(v));
    assert r == "R$ " + n;
    assert r[|r| - 2..] == n[|n| - 2..];
  }

  /** A present amount prints as "R$ " followed by `format_num(v)` with its
      default two decimals; a missing one does not, since `format_num` then
      gives "0". */
  lemma FormatRealIsFormatNum(v: Option<int>)
    ensures v.Some? ==> FormatReal(v) == "R$ " + FormatNum(v)
    ensures v.None? ==> FormatReal(v) != "R$ " + FormatNum(v)
  {
    if v.None? {
      assert ("R$ " + FormatNum(v))[3] == '0';
    }
  }

  lemma DigitsExample()
    ensures Digits(123450) == "123450"
  {
    assert Digits(1) == "1";
    assert Digits(12) == "12";
    assert Digits(123) == "123";
    assert Digits(1234) == "1234";
    assert Digits(12345) == "12345";
  }

  /** 1234.5 in the Brazilian rendering with two decimals. */
  lemma BrFormatRealExample()
    ensures BrFormat(123450, 2) == "1.234,50"
  {
    DigitsExample();
    assert Padded(123450, 2) == "123450";
    assert WholeDigits(123450, 2) == "1234";
    assert FracDigits(123450, 2) == "50";
    assert Group("1234", '.') == "1.234" by {
      assert "1234"[..1] == "1";
    }
  }

  /** The worked example of the currency format: 1234.5 reais, that is
      123450 centavos. The amount is a parameter fixed by `requires` rather
      than a literal, so that the verifier does not unfold the recursive
      digit functions on a literal argument all the way down. */
  lemma FormatRealExample(v: int)
    requires v == 123450
    ensures FormatReal(Some(v)) == "R$ 1.234,50"
  {
    BrFormatRealExample();
    assert FormatReal(Some(v)) == "R$ " + BrFormat(v, 2);
    assert "R$ " + "1.234,50" == "R$ 1.234,50";
  }

  lemma DigitsMillion()
    ensures Digits(1000000) == "1000000"
  {
    assert Digits(1) == "1";
    assert Digits(10) == "10";
    assert Digits(100) == "100";
    assert Digits(1000) == "1000";
    assert Digits(10000) == "10000";
    assert Digits(100000) == "100000";
  }

  lemma GroupMillion()
    ensures Group("1000000", '.') == "1.000.000"
  {
    assert "1000000"[..4] == "1000";
    assert "1000"[..1] == "1";
    assert Group("1000", '.') == "1.000";
  }

  /** One million in the Brazilian rendering without decimals. */
  lemma BrFormatNumExample()
    ensures BrFormat(1000000, 0) == "1.000.000"
  {
    DigitsMillion();
    assert Padded(1000000, 0) == "1000000";
    assert WholeDigits(1000000, 0) == "1000000";
    GroupMillion();
  }

  /** The worked example of the number format: one million, no decimals.
      As in `FormatRealExample`, the value is a parameter fixed by `requires`
      so that the literal does not make the verifier unfold the recursion. */
  lemma FormatNumExample(v: int)
    requires v == 1000000
    ensures FormatNum(Some(v), 0) == "1.000.000"
  {
    BrFormatNumExample();
  }
}
