/**
 * The long-string rule at the end of `JsonFormatter.format`
 * (app/opentelemetry_wrapper/instrument_logging.py, lines 166-171): a top-level str value
 * longer than 10000 characters is meant to be cut to its first 9985 characters followed
 * by `... (truncated)`. Line 171 writes `k[v] = ...` instead of `safe_log_data[k] = ...`,
 * an item assignment into the key, which raises TypeError.
 */
module Truncation {
  import opened Wrappers
  import opened Values

  const MaxLength: nat := 10000
  const KeptLength: nat := 9985
  const Marker: string := "... (truncated)"

  predicate TooLong(v: Value)
  {
    v.Str? && |v.s| > MaxLength
  }

  /** `f'{s[:9985]}... (truncated)'` for a string that is too long; other strings stay. */
  function Truncated(s: string): string
  {
    if |s| > MaxLength then s[..KeptLength] + Marker else s
  }

  /**
   * A truncated string is exactly 10000 characters long and starts with the first 9985
   * characters of the original; a string of at most 10000 characters is untouched, so
   * truncating twice is truncating once.
   */
  lemma TruncatedFacts(s: string)
    ensures |Truncated(s)| == if |s| > MaxLength then MaxLength else |s|
    ensures |s| > MaxLength ==> Truncated(s)[..KeptLength] == s[..KeptLength]
    ensures |s| <= MaxLength ==> Truncated(s) == s
    ensures Truncated(Truncated(s)) == Truncated(s)
  {
    if |s| > MaxLength {
      assert |Marker| == 15;
      assert (s[..KeptLength] + Marker)[..KeptLength] == s[..KeptLength];
    }
  }

  function TruncateEntry(p: (Value, Value)): (Value, Value)
  {
    if TooLong(p.1) then (p.0, Str(Truncated(p.1.s))) else p
  }

  /** Lines 169-171 as intended: every top-level str value longer than 10000 is truncated. */
  function TruncateAll(data: Pairs): Pairs
  {
    seq(|data|, i requires 0 <= i < |data| => TruncateEntry(data[i]))
  }

  /**
   * The intended rule keeps every key in place, leaves values that are not too-long
   * strings (nested strings included) as they were, leaves no top-level string longer
   * than 10000, and changes nothing when applied again.
   */
  lemma TruncateAllFacts(data: Pairs)
    ensures |TruncateAll(data)| == |data|
    ensures forall i :: 0 <= i < |data| ==> TruncateAll(data)[i].0 == data[i].0
    ensures forall i :: 0 <= i < |data| ==> !TooLong(data[i].1) ==> TruncateAll(data)[i] == data[i]
    ensures forall i :: 0 <= i < |data| ==> !TooLong(TruncateAll(data)[i].1)
    ensures forall i :: 0 <= i < |data| && TooLong(data[i].1) ==>
      TruncateAll(data)[i].1.Str? && |TruncateAll(data)[i].1.s| == MaxLength
    ensures TruncateAll(TruncateAll(data)) == TruncateAll(data)
  {
    var r := TruncateAll(data);
    forall i | 0 <= i < |data| ensures !TooLong(r[i].1) && (TooLong(data[i].1) ==> |r[i].1.s| == MaxLength) {
      if TooLong(data[i].1) {
        TruncatedFacts(data[i].1.s);
      }
    }
  }

  /** The intended loop: `safe_log_data[k] = f'{v[:9985]}... (truncated)'`, in place. */
  method TruncateLoop(data: Pairs) returns (r: Pairs)
    ensures r == TruncateAll(data)
  {
    r := data;
    for i := 0 to |r|
      invariant |r| == |data|
      invariant forall j :: 0 <= j < i ==> r[j] == TruncateEntry(data[j])
      invariant forall j :: i <= j < |r| ==> r[j] == data[j]
    {
      if TooLong(r[i].1) {
        r := r[i := (r[i].0, Str(Truncated(r[i].1.s)))];
      }
    }
  }

  /** Lines 169-171 as written: the first too-long string makes `k[v] = ...` raise TypeError. */
  function TruncateAsWritten(data: Pairs): Outcome<Pairs>
  {
    if forall i :: 0 <= i < |data| ==> !TooLong(data[i].1) then Ok(data) else Err(TypeError)
  }

  /** The loop of lines 169-171 as written. */
  method TruncateLoopAsWritten(data: Pairs) returns (r: Outcome<Pairs>)
    ensures r == TruncateAsWritten(data)
  {
    for i := 0 to |data|
      invariant forall j :: 0 <= j < i ==> !TooLong(data[j].1)
    {
      if TooLong(data[i].1) {
        return Err(TypeError);
      }
    }
    return Ok(data);
  }

  /**
   * The rule as written agrees with the intended one exactly when no top-level string is
   * too long, and raises otherwise.
   */
  lemma AsWrittenAgreesWhenShort(data: Pairs)
    ensures TruncateAsWritten(data).Ok? <==> TruncateAll(data) == data
    ensures TruncateAsWritten(data).Ok? ==> TruncateAsWritten(data).value == TruncateAll(data)
    ensures TruncateAsWritten(data).Err? ==> TruncateAsWritten(data).error == TypeError
  {
    TruncateAllFacts(data);
    if TruncateAll(data) == data {
      forall i | 0 <= i < |data| ensures !TooLong(data[i].1) {
        assert TruncateAll(data)[i] == data[i];
      }
    }
  }

  /** A 10001-character message: as written the formatter raises, as intended it is cut to 10000. */
  lemma TruncationCounterexample()
    ensures var data := [(Str("message"), Str(seq(MaxLength + 1, _ => 'x')))];
      TruncateAsWritten(data) == Err(TypeError) &&
      TruncateAll(data)[0].1.Str? && |TruncateAll(data)[0].1.s| == MaxLength
  {
    var data := [(Str("message"), Str(seq(MaxLength + 1, _ => 'x')))];
    assert TooLong(data[0].1);
    TruncateAllFacts(data);
  }
}
