/**
 * The record factory installed by `instrument_logging`
 * (app/opentelemetry_wrapper/instrument_logging.py, lines 234-243): after the previous
 * factory has built the record, its `otelTraceID` and `otelSpanID` attributes are
 * rewritten in place, first the trace ID, then the span ID.
 */
module RecordFactory {
  import opened Wrappers
  import opened Values
  import opened LogRecords
  import opened TraceIds

  /**
   * `int(record.<name>, 16)` followed by the f-string: a missing attribute raises
   * AttributeError, a value that is not a str raises TypeError.
   */
  function RewrittenId(d: Pairs, name: string, width: nat): Outcome<string>
  {
    match Get(d, Str(name))
    case None => Err(AttributeError)
    case Some(v) => if v.Str? then ReformatId(v.s, width) else Err(TypeError)
  }

  /** Lines 240-241 when neither raises: the record dict with both IDs rewritten. */
  function RewriteIdsSpec(d: Pairs): Outcome<Pairs>
  {
    var t :- RewrittenId(d, "otelTraceID", TraceIdDigits);
    var d1 := Put(d, Str("otelTraceID"), Str(t));
    var s :- RewrittenId(d1, "otelSpanID", SpanIdDigits);
    Ok(Put(d1, Str("otelSpanID"), Str(s)))
  }

  /** Lines 240-241 on the record. When the span ID fails, the trace ID has already been rewritten. */
  method RewriteIds(record: LogRecord) returns (r: Outcome<()>)
    requires record.Valid()
    modifies record
    ensures record.Valid()
    ensures r.Ok? <==> RewriteIdsSpec(old(record.attrs)).Ok?
    ensures r.Ok? ==> record.attrs == RewriteIdsSpec(old(record.attrs)).value
    ensures var d := old(record.attrs);
      var t := RewrittenId(d, "otelTraceID", TraceIdDigits);
      if t.Err? then r == Err(t.error) && record.attrs == d
      else
        var d1 := Put(d, Str("otelTraceID"), Str(t.value));
        var s := RewrittenId(d1, "otelSpanID", SpanIdDigits);
        if s.Err? then r == Err(s.error) && record.attrs == d1
        else r == Ok(()) && record.attrs == Put(d1, Str("otelSpanID"), Str(s.value))
  {
    var t := RewrittenId(record.attrs, "otelTraceID", TraceIdDigits);
    if t.Err? {
      return Err(t.error);
    }
    record.SetAttr("otelTraceID", Str(t.value));
    var s := RewrittenId(record.attrs, "otelSpanID", SpanIdDigits);
    if s.Err? {
      return Err(s.error);
    }
    record.SetAttr("otelSpanID", Str(s.value));
    r := Ok(());
  }

  /**
   * On a record whose IDs are the strings `trace` and `span`, the rewrite succeeds exactly
   * when both parse as hex numbers; it then stores each as `0x` followed by its number in
   * lowercase hex, padded to 32 and 16 digits.
   */
  lemma RewriteIdsResult(d: Pairs, trace: string, span: string)
    requires DistinctKeys(d)
    requires Get(d, Str("otelTraceID")) == Some(Str(trace)) && Get(d, Str("otelSpanID")) == Some(Str(span))
    ensures RewriteIdsSpec(d).Ok? <==> ParseHex(trace).Ok? && ParseHex(span).Ok?
    ensures RewriteIdsSpec(d).Ok? ==>
      Get(RewriteIdsSpec(d).value, Str("otelTraceID")) == Some(Str(FormatHex(ParseHex(trace).value, TraceIdDigits))) &&
      Get(RewriteIdsSpec(d).value, Str("otelSpanID")) == Some(Str(FormatHex(ParseHex(span).value, SpanIdDigits)))
  {
    if ParseHex(trace).Ok? {
      var t := FormatHex(ParseHex(trace).value, TraceIdDigits);
      var d1 := Put(d, Str("otelTraceID"), Str(t));
      PutOther(d, Str("otelTraceID"), Str(t), Str("otelSpanID"));
      PutFacts(d, Str("otelTraceID"), Str(t));
      if ParseHex(span).Ok? {
        var s := FormatHex(ParseHex(span).value, SpanIdDigits);
        PutFacts(d1, Str("otelSpanID"), Str(s));
        PutOther(d1, Str("otelSpanID"), Str(s), Str("otelTraceID"));
      }
    }
  }

  /** The factory may run twice on the same record (re-instrumentation): the second run changes nothing. */
  lemma RewriteIdsIdempotent(d: Pairs)
    requires DistinctKeys(d) && RewriteIdsSpec(d).Ok?
    ensures RewriteIdsSpec(RewriteIdsSpec(d).value) == RewriteIdsSpec(d)
  {
    var t := RewrittenId(d, "otelTraceID", TraceIdDigits).value;
    var d1 := Put(d, Str("otelTraceID"), Str(t));
    PutOther(d, Str("otelTraceID"), Str(t), Str("otelSpanID"));
    PutFacts(d, Str("otelTraceID"), Str(t));
    var s := RewrittenId(d1, "otelSpanID", SpanIdDigits).value;
    var d2 := Put(d1, Str("otelSpanID"), Str(s));
    PutFacts(d1, Str("otelSpanID"), Str(s));
    PutOther(d1, Str("otelSpanID"), Str(s), Str("otelTraceID"));
    var trace := Get(d, Str("otelTraceID")).value.s;
    var span := Get(d, Str("otelSpanID")).value.s;
    ReformatIdempotent(trace, TraceIdDigits);
    ReformatIdempotent(span, SpanIdDigits);
    assert RewrittenId(d2, "otelTraceID", TraceIdDigits) == Ok(t);
    var d3 := Put(d2, Str("otelTraceID"), Str(t));
    PutSame(d2, Str("otelTraceID"), Str(t));
    PutOther(d2, Str("otelTraceID"), Str(t), Str("otelSpanID"));
    assert RewrittenId(d3, "otelSpanID", SpanIdDigits) == Ok(s);
    PutSame(d2, Str("otelSpanID"), Str(s));
  }
}
