/**
 * The record factory of `instrument_logging` (app/opentelemetry_wrapper/instrument_logging.py,
 * lines 240-241) rewrites the trace and span IDs that the OpenTelemetry logging
 * instrumentation put on the record: it reads them with `int(id, 16)` and writes them back
 * as `0x` followed by lowercase hex digits, zero-padded to 32 digits for a trace ID and
 * 16 digits for a span ID, so that they read like the IDs in exported spans.
 */
module TraceIds {
  import opened Wrappers
  import opened Values
  import opened Numerals

  /** Digits of a trace ID (128 bits) and of a span ID (64 bits). */
  const TraceIdDigits: nat := 32
  const SpanIdDigits: nat := 16

  predicate HasHexPrefix(s: string)
  {
    |s| >= 2 && s[0] == '0' && (s[1] == 'x' || s[1] == 'X')
  }

  /**
   * `int(s, 16)`: an optional `0x` or `0X` prefix, then at least one hex digit of either
   * case; anything else raises ValueError.
   */
  function ParseHex(s: string): (r: Outcome<nat>)
    ensures r.Err? ==> r.error == ValueError
    ensures r.Ok? ==> s != [] && s != "0x" && s != "0X"
  {
    var digits := if HasHexPrefix(s) then s[2..] else s;
    if digits != [] && IsDigitString(digits, 16) then Ok(FromBase(digits, 16)) else Err(ValueError)
  }

  /** `f'0x{n:0<width>x}'`. */
  function FormatHex(n: nat, width: nat): string
  {
    "0x" + PadLeft(ToBase(n, 16), width, '0')
  }

  /** The rewriting of one ID: parse it, then format it with `width` digits. */
  function ReformatId(id: string, width: nat): Outcome<string>
  {
    var n :- ParseHex(id);
    Ok(FormatHex(n, width))
  }

  /** Line 240. */
  function TraceIdText(id: string): Outcome<string>
  {
    ReformatId(id, TraceIdDigits)
  }

  /** Line 241. */
  function SpanIdText(id: string): Outcome<string>
  {
    ReformatId(id, SpanIdDigits)
  }

  /** The digits after `0x` are lowercase hex: zero padding, then the numeral of `n`, never cut. */
  lemma FormatHexDigits(n: nat, width: nat)
    ensures var r := FormatHex(n, width);
      r[..2] == "0x" && |r| == 2 + (if |ToBase(n, 16)| < width then width else |ToBase(n, 16)|) &&
      r[|r| - |ToBase(n, 16)|..] == ToBase(n, 16) &&
      forall i :: 2 <= i < |r| ==> IsLowercaseDigit(r[i])
  {
    var t := ToBase(n, 16);
    var p := PadLeft(t, width, '0');
    ToBaseDigits(n, 16);
    PaddedDigits(t, width);
    assert FormatHex(n, width) == "0x" + p;
  }

  /** Padding lower-case digits with '0' gives lower-case digits. */
  lemma PaddedDigits(t: string, width: nat)
    requires forall i :: 0 <= i < |t| ==> IsLowercaseDigit(t[i])
    ensures forall i :: 0 <= i < |PadLeft(t, width, '0')| ==> IsLowercaseDigit(PadLeft(t, width, '0')[i])
  {
    var p := PadLeft(t, width, '0');
    forall i | 0 <= i < |p| ensures IsLowercaseDigit(p[i]) {
      if i >= |p| - |t| {
        assert p[i] == p[|p| - |t|..][i - (|p| - |t|)];
      }
    }
  }

  /**
   * The formatted ID is exactly `2 + width` characters long when `n < 16^width`
   * (34 for a trace ID below 2^128, 18 for a span ID below 2^64), and longer otherwise.
   */
  lemma FormatHexLength(n: nat, width: nat)
    requires width >= 1
    ensures |FormatHex(n, width)| == 2 + width <==> n < Pow(16, width)
    ensures |FormatHex(n, width)| >= 2 + width
  {
    ToBaseLength(n, 16, width);
    FormatHexDigits(n, width);
  }

  /** Reading a formatted ID back with `int(s, 16)` gives the number it was made from. */
  lemma FormatHexParses(n: nat, width: nat)
    ensures ParseHex(FormatHex(n, width)) == Ok(n)
  {
    var t := ToBase(n, 16);
    var p := PadLeft(t, width, '0');
    ToBaseDigits(n, 16);
    FromToBase(n, 16);
    var z := p[..|p| - |t|];
    assert p == z + t;
    LeadingZeros(z, t, 16);
    assert FormatHex(n, width)[2..] == p;
  }

  /** Rewriting an ID keeps the number it denotes. */
  lemma ReformatKeepsNumber(id: string, width: nat)
    requires ReformatId(id, width).Ok?
    ensures ParseHex(ReformatId(id, width).value) == ParseHex(id)
  {
    FormatHexParses(ParseHex(id).value, width);
  }

  /** Rewriting an already rewritten ID changes nothing. */
  lemma ReformatIdempotent(id: string, width: nat)
    requires ReformatId(id, width).Ok?
    ensures ReformatId(ReformatId(id, width).value, width) == ReformatId(id, width)
  {
    FormatHexParses(ParseHex(id).value, width);
  }

  /** A trace ID below 2^128 becomes 34 characters, a span ID below 2^64 becomes 18. */
  lemma IdLengths(trace: string, span: string)
    requires ParseHex(trace).Ok? && ParseHex(trace).value < Pow(2, 128)
    requires ParseHex(span).Ok? && ParseHex(span).value < Pow(2, 64)
    ensures TraceIdText(trace).Ok? && |TraceIdText(trace).value| == 34
    ensures SpanIdText(span).Ok? && |SpanIdText(span).value| == 18
  {
    PowOfSixteen(32);
    PowOfSixteen(16);
    FormatHexLength(ParseHex(trace).value, TraceIdDigits);
    FormatHexLength(ParseHex(span).value, SpanIdDigits);
  }

  lemma {:induction false} PowOfSixteen(k: nat)
    ensures Pow(16, k) == Pow(2, 4 * k)
  {
    if k > 0 {
      PowOfSixteen(k - 1);
      var e := 4 * (k - 1);
      assert Pow(2, e + 4) == 2 * Pow(2, e + 3) == 4 * Pow(2, e + 2) == 8 * Pow(2, e + 1) == 16 * Pow(2, e);
    }
  }

  /** The span ID 0xbeef is written with twelve leading zeros. */
  lemma SpanIdExample()
    ensures SpanIdText("beef") == Ok("0x000000000000beef")
  {
    BeefParses();
    BeefFormatted();
  }

  /** The trace ID 0xbeef is written with twenty-eight leading zeros. */
  lemma TraceIdExample()
    ensures TraceIdText("beef") == Ok("0x" + seq(28, _ => '0') + "beef")
  {
    BeefParses();
    assert ToBase(48879, 16) == "beef";
    var r := PadLeft("beef", 32, '0');
    assert r[..28] == seq(28, _ => '0');
    assert r == r[..28] + r[28..];
    assert FormatHex(48879, TraceIdDigits) == "0x" + r;
    assert "0x" + r == "0x" + seq(28, _ => '0') + "beef";
  }

  lemma BeefParses()
    ensures ParseHex("beef") == Ok(48879)
  {
    assert ToBase(48879, 16) == "beef";
    FromToBase(48879, 16);
    assert !HasHexPrefix("beef");
  }

  lemma BeefFormatted()
    ensures FormatHex(48879, 16) == "0x000000000000beef"
  {
    assert ToBase(48879, 16) == "beef";
    assert PadLeft("beef", 16, '0') == "000000000000beef";
  }

  /** Outside a span the instrumentation reports the ID `0`, which becomes all zeroes. */
  lemma OutsideSpan()
    ensures TraceIdText("0").Ok? && |TraceIdText("0").value| == 34
    ensures forall i :: 2 <= i < 34 ==> TraceIdText("0").value[i] == '0'
  {
    assert ParseHex("0") == Ok(0);
    assert ToBase(0, 16) == "0";
    var r := FormatHex(0, TraceIdDigits);
    assert r == "0x" + PadLeft("0", 32, '0');
  }

  /** An empty ID, or a bare prefix, is not a number: `int` raises ValueError. */
  lemma EmptyIdRaises(id: string)
    requires id == "" || id == "0x" || id == "0X"
    ensures TraceIdText(id) == Err(ValueError) && SpanIdText(id) == Err(ValueError)
  {
  }
}
