/**
 * Strict UTF-8 decoding, as `bytes.decode()` does it with its default arguments
 * ("utf-8", errors="strict"): the well-formed byte sequences of the Unicode Standard,
 * Table 3-7, and a UnicodeDecodeError for anything else.
 */
module Utf8 {
  import opened Wrappers
  import opened Values

  predicate InRange(x: Byte, lo: int, hi: int)
  {
    lo <= x <= hi
  }

  predicate Continuation(x: Byte)
  {
    InRange(x, 0x80, 0xBF)
  }

  /**
   * The length of the well-formed sequence at the front of `b`, or 0 when `b`
   * does not start with one.
   */
  function PrefixLength(b: seq<Byte>): (n: nat)
    ensures n <= |b| && n <= 4
  {
    if |b| == 0 then 0
    else if b[0] <= 0x7F then 1
    else if InRange(b[0], 0xC2, 0xDF) then
      if |b| >= 2 && Continuation(b[1]) then 2 else 0
    else if InRange(b[0], 0xE0, 0xEF) then
      if |b| >= 3 && Continuation(b[2]) &&
         (if b[0] == 0xE0 then InRange(b[1], 0xA0, 0xBF)
          else if b[0] == 0xED then InRange(b[1], 0x80, 0x9F)
          else Continuation(b[1]))
      then 3 else 0
    else if InRange(b[0], 0xF0, 0xF4) then
      if |b| >= 4 && Continuation(b[2]) && Continuation(b[3]) &&
         (if b[0] == 0xF0 then InRange(b[1], 0x90, 0xBF)
          else if b[0] == 0xF4 then InRange(b[1], 0x80, 0x8F)
          else Continuation(b[1]))
      then 4 else 0
    else 0
  }

  /** The Unicode scalar value encoded by the well-formed sequence at the front of `b`. */
  function ScalarAt(b: seq<Byte>): (c: char)
    requires PrefixLength(b) > 0
  {
    var n := PrefixLength(b);
    if n == 1 then b[0] as char
    else if n == 2 then ((b[0] as int - 0xC0) * 64 + (b[1] as int - 0x80)) as char
    else if n == 3 then
      var cp := (b[0] as int - 0xE0) * 4096 + (b[1] as int - 0x80) * 64 + (b[2] as int - 0x80);
      assert cp < 0xD800 || 0xE000 <= cp;
      cp as char
    else ((b[0] as int - 0xF0) * 262144 + (b[1] as int - 0x80) * 4096 + (b[2] as int - 0x80) * 64 + (b[3] as int - 0x80)) as char
  }

  /** `b.decode()`. */
  function Decode(b: seq<Byte>): (r: Outcome<string>)
    ensures r.Ok? ==> |r.value| <= |b|
    ensures r.Err? ==> r.error == UnicodeDecodeError
    decreases |b|
  {
    if b == [] then Ok([])
    else
      var n := PrefixLength(b);
      if n == 0 then Err(UnicodeDecodeError)
      else
        var rest :- Decode(b[n..]);
        Ok([ScalarAt(b)] + rest)
  }

  /** Bytes below 0x80 decode one to one into the characters with the same codes. */
  lemma {:induction false} AsciiDecodes(b: seq<Byte>)
    requires forall i :: 0 <= i < |b| ==> b[i] < 0x80
    ensures Decode(b).Ok?
    ensures |Decode(b).value| == |b|
    ensures forall i :: 0 <= i < |b| ==> Decode(b).value[i] as int == b[i]
  {
    if b != [] {
      AsciiDecodes(b[1..]);
      assert PrefixLength(b) == 1;
    }
  }

  /** A continuation byte where a character must start is rejected. */
  lemma StrayContinuationRejected(b: seq<Byte>)
    requires |b| > 0 && Continuation(b[0])
    ensures Decode(b) == Err(UnicodeDecodeError)
  {
  }
}
