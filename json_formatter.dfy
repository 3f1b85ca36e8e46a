/**
 * `JsonFormatter` (app/opentelemetry_wrapper/instrument_logging.py, lines 42-178): a
 * logging formatter that writes each record as one JSON object. `format` first stamps the
 * record with its message, its time stamps and its exception text, then selects the
 * attributes to write, makes them JSON-ready with `jsonable_encoder` (or, when that raises,
 * with the `repr()` failsafe), applies the long-string rule and hands the dict to
 * `json.dumps`.
 *
 * What the formatter gets from the outside for one call (the record's own `getMessage`,
 * `repr`, the clock-dependent time formatting, `formatException` and `json.dumps`) is a
 * parameter, an `Env`.
 */
module JsonFormatting {
  import opened Wrappers
  import opened Values
  import opened JsonEncoder
  import opened EncoderProperties
  import opened LogRecords
  import opened FormatterKeys
  import opened Failsafe
  import opened Truncation

  /** The keyword arguments passed on to `json.dumps` (lines 86-90, 173-178). */
  datatype DumpOptions = DumpOptions(
    ensureAscii: bool,
    allowNan: bool,
    indent: Option<int>,
    separators: Option<(string, string)>,
    sortKeys: bool)

  /** The defaults of lines 50-55. */
  const DefaultDump := DumpOptions(false, true, None, None, false)

  /** The local time zone found when the formatter was made (line 93): its name and UTC offset in seconds. */
  datatype TimeZone = TimeZone(name: string, utcOffset: int)

  /** What one call of `format` sees of the world outside the formatter. */
  datatype Env = Env(
    getMessage: Outcome<string>,                    // record.getMessage()
    repr: Repr,                                     // repr()
    formatTime: string -> string,                   // self.formatTime(record, datefmt)
    isoTime: string,                                // the record's creation time, isoformat()
    formatException: Value -> string,               // self.formatException(exc_info)
    dumps: (Value, DumpOptions) -> Outcome<string>) // json.dumps

  /** The arguments of `jsonable_encoder(log_data)`: its defaults, no custom encoders. */
  const EncoderDefaults := Options(false, true, [])

  // ---------------------------------------------------------------------------
  // The message (lines 115-119)

  /**
   * `record.getMessage()`, or, when that raises TypeError, a text made of the `repr` of the
   * record's `msg` and `args`; any other exception, and any exception of `repr`, escapes.
   */
  function MessageText(d: Pairs, env: Env): Outcome<string>
  {
    match env.getMessage
    case Ok(m) => Ok(m)
    case Err(e) =>
      if e != TypeError then Err(e)
      else
        var rm :- env.repr(Attr(d, "msg"));
        var ra :- env.repr(Attr(d, "args"));
        Ok("MSG=" + rm + " ARGS=" + ra)
  }

  /**
   * The message step raises only what `getMessage` raises other than TypeError, or what
   * `repr` raises; a TypeError of `getMessage` is always replaced by the fallback text,
   * which starts with `MSG=` followed by the `repr` of `msg`.
   */
  lemma MessageFacts(d: Pairs, env: Env)
    ensures env.getMessage.Ok? ==> MessageText(d, env) == env.getMessage
    ensures MessageText(d, env).Err? ==>
      (env.getMessage.Err? && env.getMessage.error != TypeError && MessageText(d, env) == env.getMessage) ||
      (env.getMessage == Err(TypeError) &&
        (env.repr(Attr(d, "msg")) == MessageText(d, env) || env.repr(Attr(d, "args")) == MessageText(d, env)))
    ensures env.getMessage == Err(TypeError) && env.repr(Attr(d, "msg")).Ok? && env.repr(Attr(d, "args")).Ok? ==>
      MessageText(d, env).Ok? &&
      MessageText(d, env).value[..4 + |env.repr(Attr(d, "msg")).value|] == "MSG=" + env.repr(Attr(d, "msg")).value
  {
    if env.getMessage == Err(TypeError) && env.repr(Attr(d, "msg")).Ok? && env.repr(Attr(d, "args")).Ok? {
      var rm := env.repr(Attr(d, "msg")).value;
      var ra := env.repr(Attr(d, "args")).value;
      assert "MSG=" + rm + " ARGS=" + ra == ("MSG=" + rm) + (" ARGS=" + ra);
    }
  }

  // ---------------------------------------------------------------------------
  // The time stamps (lines 121-128)

  /** `self._keys is None or 'asctime' in self._keys` (lines 95-96). */
  predicate UsesTimeFor(keys: Option<Pairs>)
  {
    keys.None? || FindKey(keys.value, Str("asctime")).Some?
  }

  /** A `datetime.timedelta` of whole seconds, normalised as Python stores it. */
  datatype Duration = Duration(days: int, seconds: int)

  /** `timedelta(seconds=total)`: whole days, rounded down, and a remainder in [0, 86400). */
  function MakeTimedelta(total: int): Duration
  {
    Duration(total / 86400, total % 86400)
  }

  /** `td.total_seconds()`. */
  function TotalSeconds(td: Duration): int
  {
    td.days * 86400 + td.seconds
  }

  /** A timedelta keeps its total: the days and the seconds together make up exactly the offset. */
  lemma TimedeltaExact(total: int)
    ensures 0 <= MakeTimedelta(total).seconds < 86400
    ensures TotalSeconds(MakeTimedelta(total)) == total
  {
  }

  /** Line 124 as written: `utcoffset(None).seconds`, the seconds field of the offset. */
  function OffsetAsWritten(utcOffset: int): int
  {
    MakeTimedelta(utcOffset).seconds
  }

  /** Line 124 as intended: the offset in seconds, `utcoffset(None).total_seconds()`. */
  function OffsetIntended(utcOffset: int): int
  {
    TotalSeconds(MakeTimedelta(utcOffset))
  }

  /** The intended attribute is the offset itself, for every offset. */
  lemma OffsetIntendedExact(utcOffset: int)
    ensures OffsetIntended(utcOffset) == utcOffset
  {
    TimedeltaExact(utcOffset);
  }

  /**
   * As written, the attribute is never negative; for an offset of less than a day it is the
   * offset exactly when the zone is not west of UTC, and otherwise the offset plus a day.
   */
  lemma OffsetAsWrittenFacts(utcOffset: int)
    ensures 0 <= OffsetAsWritten(utcOffset) < 86400
    ensures -86400 < utcOffset < 86400 ==> (OffsetAsWritten(utcOffset) == utcOffset <==> utcOffset >= 0)
    ensures -86400 < utcOffset < 0 ==> OffsetAsWritten(utcOffset) == utcOffset + 86400
  {
    TimedeltaExact(utcOffset);
    if -86400 < utcOffset < 0 {
      assert MakeTimedelta(utcOffset).days == -1;
    }
  }

  /** UTC-5 (New York in winter): written as 68400 instead of -18000. */
  lemma OffsetCounterexample()
    ensures OffsetAsWritten(-18000) == 68400
    ensures OffsetIntended(-18000) == -18000
  {
    OffsetAsWrittenFacts(-18000);
    OffsetIntendedExact(-18000);
  }

  /** Lines 125-128: `formatTime` with a non-empty `datefmt`, else the ISO 8601 creation time. */
  function AscTime(datefmt: Option<string>, env: Env): string
  {
    if datefmt.Some? && datefmt.value != [] then env.formatTime(datefmt.value) else env.isoTime
  }

  /** Lines 123-128: `tz_name`, `tz_utc_offset_seconds` and `asctime` are set, in that order. */
  function TimeStamped(d: Pairs, tz: TimeZone, datefmt: Option<string>, env: Env): Pairs
  {
    var d1 := Put(d, Str("tz_name"), Str(tz.name));
    var d2 := Put(d1, Str("tz_utc_offset_seconds"), Int(OffsetAsWritten(tz.utcOffset)));
    Put(d2, Str("asctime"), Str(AscTime(datefmt, env)))
  }

  /** Lines 131-132: a truthy `exc_info` without a truthy `exc_text` gets its formatted text. */
  function ExcTextStamped(d: Pairs, env: Env): Pairs
  {
    var info := Attr(d, "exc_info");
    if Truthy(info) && !Truthy(Attr(d, "exc_text")) then Put(d, Str("exc_text"), Str(env.formatException(info)))
    else d
  }

  /** Lines 115-132 after a successful message step: the record dict that the rest of `format` reads. */
  function Prepared(d: Pairs, message: string, keys: Option<Pairs>, tz: TimeZone, datefmt: Option<string>, env: Env): Pairs
  {
    ExcTextStamped(MessageAndTime(d, message, keys, tz, datefmt, env), env)
  }

  /** Lines 115-128 after a successful message step. */
  function MessageAndTime(d: Pairs, message: string, keys: Option<Pairs>, tz: TimeZone, datefmt: Option<string>, env: Env): Pairs
  {
    var d1 := Put(d, Str("message"), Str(message));
    if UsesTimeFor(keys) then TimeStamped(d1, tz, datefmt, env) else d1
  }

  /** The attributes `format` may write. */
  predicate Stamped(name: string)
  {
    name == "message" || name == "tz_name" || name == "tz_utc_offset_seconds" || name == "asctime" || name == "exc_text"
  }

  /** The three time attributes hold the zone's name, the offset as written and the time text; nothing else changes. */
  lemma TimeStampedFacts(d: Pairs, tz: TimeZone, datefmt: Option<string>, env: Env)
    requires RecordDict(d)
    ensures RecordDict(TimeStamped(d, tz, datefmt, env))
    ensures Attr(TimeStamped(d, tz, datefmt, env), "tz_name") == Str(tz.name)
    ensures Attr(TimeStamped(d, tz, datefmt, env), "tz_utc_offset_seconds") == Int(OffsetAsWritten(tz.utcOffset))
    ensures Attr(TimeStamped(d, tz, datefmt, env), "asctime") == Str(AscTime(datefmt, env))
    ensures forall other :: other != "tz_name" && other != "tz_utc_offset_seconds" && other != "asctime" ==>
      Attr(TimeStamped(d, tz, datefmt, env), other) == Attr(d, other)
  {
    var d1 := Put(d, Str("tz_name"), Str(tz.name));
    var d2 := Put(d1, Str("tz_utc_offset_seconds"), Int(OffsetAsWritten(tz.utcOffset)));
    SetAttrFacts(d, "tz_name", Str(tz.name));
    SetAttrFacts(d1, "tz_utc_offset_seconds", Int(OffsetAsWritten(tz.utcOffset)));
    SetAttrFacts(d2, "asctime", Str(AscTime(datefmt, env)));
  }

  /** `exc_text` is filled in exactly when `exc_info` is truthy and `exc_text` is not; nothing else changes. */
  lemma ExcTextFacts(d: Pairs, env: Env)
    requires RecordDict(d)
    ensures RecordDict(ExcTextStamped(d, env))
    ensures Attr(ExcTextStamped(d, env), "exc_text") ==
      if Truthy(Attr(d, "exc_info")) && !Truthy(Attr(d, "exc_text"))
      then Str(env.formatException(Attr(d, "exc_info"))) else Attr(d, "exc_text")
    ensures forall other :: other != "exc_text" ==> Attr(ExcTextStamped(d, env), other) == Attr(d, other)
  {
    SetAttrFacts(d, "exc_text", Str(env.formatException(Attr(d, "exc_info"))));
  }

  /**
   * After the preparatory steps the record holds the message; it holds the three time
   * attributes exactly when the formatter uses the time, and keeps whatever it had under
   * those names otherwise; `exc_text` follows lines 131-132; no other attribute changes.
   */
  lemma PreparedFacts(d: Pairs, message: string, keys: Option<Pairs>, tz: TimeZone, datefmt: Option<string>, env: Env)
    requires RecordDict(d)
    ensures var p := Prepared(d, message, keys, tz, datefmt, env);
      RecordDict(p) && Attr(p, "message") == Str(message) &&
      (UsesTimeFor(keys) ==>
        Attr(p, "tz_name") == Str(tz.name) &&
        Attr(p, "tz_utc_offset_seconds") == Int(OffsetAsWritten(tz.utcOffset)) &&
        Attr(p, "asctime") == Str(AscTime(datefmt, env))) &&
      (!UsesTimeFor(keys) ==>
        Attr(p, "tz_name") == Attr(d, "tz_name") &&
        Attr(p, "tz_utc_offset_seconds") == Attr(d, "tz_utc_offset_seconds") &&
        Attr(p, "asctime") == Attr(d, "asctime"))
    ensures Attr(Prepared(d, message, keys, tz, datefmt, env), "exc_text") ==
      if Truthy(Attr(d, "exc_info")) && !Truthy(Attr(d, "exc_text"))
      then Str(env.formatException(Attr(d, "exc_info"))) else Attr(d, "exc_text")
    ensures forall other :: !Stamped(other) ==> Attr(Prepared(d, message, keys, tz, datefmt, env), other) == Attr(d, other)
  {
    PreparedTime(d, message, keys, tz, datefmt, env);
    PreparedExcText(d, message, keys, tz, datefmt, env);
    PreparedOthers(d, message, keys, tz, datefmt, env);
  }

  lemma PreparedTime(d: Pairs, message: string, keys: Option<Pairs>, tz: TimeZone, datefmt: Option<string>, env: Env)
    requires RecordDict(d)
    ensures var p := Prepared(d, message, keys, tz, datefmt, env);
      RecordDict(p) && Attr(p, "message") == Str(message) &&
      (UsesTimeFor(keys) ==>
        Attr(p, "tz_name") == Str(tz.name) &&
        Attr(p, "tz_utc_offset_seconds") == Int(OffsetAsWritten(tz.utcOffset)) &&
        Attr(p, "asctime") == Str(AscTime(datefmt, env))) &&
      (!UsesTimeFor(keys) ==>
        Attr(p, "tz_name") == Attr(d, "tz_name") &&
        Attr(p, "tz_utc_offset_seconds") == Attr(d, "tz_utc_offset_seconds") &&
        Attr(p, "asctime") == Attr(d, "asctime"))
  {
    var m := MessageAndTime(d, message, keys, tz, datefmt, env);
    var p := Prepared(d, message, keys, tz, datefmt, env);
    MessageAndTimeFacts(d, message, keys, tz, datefmt, env);
    ExcTextFacts(m, env);
    assert "exc_text" != "message" && "exc_text" != "tz_name" && "exc_text" != "tz_utc_offset_seconds" && "exc_text" != "asctime";
    assert Attr(p, "message") == Attr(m, "message");
    assert Attr(p, "tz_name") == Attr(m, "tz_name");
    assert Attr(p, "tz_utc_offset_seconds") == Attr(m, "tz_utc_offset_seconds");
    assert Attr(p, "asctime") == Attr(m, "asctime");
  }

  lemma PreparedExcText(d: Pairs, message: string, keys: Option<Pairs>, tz: TimeZone, datefmt: Option<string>, env: Env)
    requires RecordDict(d)
    ensures Attr(Prepared(d, message, keys, tz, datefmt, env), "exc_text") ==
      if Truthy(Attr(d, "exc_info")) && !Truthy(Attr(d, "exc_text"))
      then Str(env.formatException(Attr(d, "exc_info"))) else Attr(d, "exc_text")
  {
    MessageAndTimeKeepsExc(d, message, keys, tz, datefmt, env);
    ExcTextFrom(MessageAndTime(d, message, keys, tz, datefmt, env), d, env);
  }

  lemma MessageAndTimeKeepsExc(d: Pairs, message: string, keys: Option<Pairs>, tz: TimeZone, datefmt: Option<string>, env: Env)
    requires RecordDict(d)
    ensures var m := MessageAndTime(d, message, keys, tz, datefmt, env);
      RecordDict(m) && Attr(m, "exc_info") == Attr(d, "exc_info") && Attr(m, "exc_text") == Attr(d, "exc_text")
  {
    MessageAndTimeFacts(d, message, keys, tz, datefmt, env);
    assert !Stamped("exc_info") && "exc_info" != "exc_text";
    assert "exc_text" != "message" && "exc_text" != "tz_name" && "exc_text" != "tz_utc_offset_seconds" && "exc_text" != "asctime";
  }

  lemma ExcTextFrom(m: Pairs, d: Pairs, env: Env)
    requires RecordDict(m) && Attr(m, "exc_info") == Attr(d, "exc_info") && Attr(m, "exc_text") == Attr(d, "exc_text")
    ensures Attr(ExcTextStamped(m, env), "exc_text") ==
      if Truthy(Attr(d, "exc_info")) && !Truthy(Attr(d, "exc_text"))
      then Str(env.formatException(Attr(d, "exc_info"))) else Attr(d, "exc_text")
  {
    ExcTextFacts(m, env);
  }

  lemma PreparedOthers(d: Pairs, message: string, keys: Option<Pairs>, tz: TimeZone, datefmt: Option<string>, env: Env)
    requires RecordDict(d)
    ensures forall other :: !Stamped(other) ==> Attr(Prepared(d, message, keys, tz, datefmt, env), other) == Attr(d, other)
  {
    MessageAndTimeFacts(d, message, keys, tz, datefmt, env);
    ExcTextFacts(MessageAndTime(d, message, keys, tz, datefmt, env), env);
  }

  lemma MessageAndTimeFacts(d: Pairs, message: string, keys: Option<Pairs>, tz: TimeZone, datefmt: Option<string>, env: Env)
    requires RecordDict(d)
    ensures var m := MessageAndTime(d, message, keys, tz, datefmt, env);
      RecordDict(m) && Attr(m, "message") == Str(message) &&
      (UsesTimeFor(keys) ==>
        Attr(m, "tz_name") == Str(tz.name) &&
        Attr(m, "tz_utc_offset_seconds") == Int(OffsetAsWritten(tz.utcOffset)) &&
        Attr(m, "asctime") == Str(AscTime(datefmt, env))) &&
      forall other :: other != "message" && (UsesTimeFor(keys) ==> other != "tz_name" && other != "tz_utc_offset_seconds" && other != "asctime") ==>
        Attr(m, other) == Attr(d, other)
  {
    var d1 := Put(d, Str("message"), Str(message));
    SetAttrFacts(d, "message", Str(message));
    if UsesTimeFor(keys) {
      TimeStampedFacts(d1, tz, datefmt, env);
      assert "message" != "tz_name" && "message" != "tz_utc_offset_seconds" && "message" != "asctime";
    }
  }

  // ---------------------------------------------------------------------------
  // Encoding, failsafe, truncation and dumping (lines 134-178)

  /** Lines 140-164: the encoded dict, or the failsafe's dict when the encoder raises. */
  function SafeData(data: Pairs, repr: Repr): Pairs
  {
    match Encode(Dict(data), Null, Null, EncoderDefaults)
    case Ok(v) =>
      DictStaysDict(data, EncoderDefaults);
      v.items
    case Err(_) => SafeEntries(data, repr)
  }

  /**
   * Plain JSON data (scalars, lists and dicts with distinct plain keys) passes the encoder
   * unchanged; when the encoder raises, the failsafe's dict is a well-formed dict of str
   * keys and scalar values.
   */
  lemma SafeDataFacts(data: Pairs, repr: Repr)
    ensures PlainJson(Dict(data)) ==> SafeData(data, repr) == data
    ensures Encode(Dict(data), Null, Null, EncoderDefaults).Err? ==>
      DistinctKeys(SafeData(data, repr)) &&
      forall j :: 0 <= j < |SafeData(data, repr)| ==> SafeData(data, repr)[j].0.Str? && JsonScalar(SafeData(data, repr)[j].1)
  {
    if PlainJson(Dict(data)) {
      PlainIdentity(Dict(data), EncoderDefaults);
    }
    SafeEntriesJsonReady(data, repr);
  }

  /** Lines 134-171 as written: the dict handed to `json.dumps`, or the exception raised before it. */
  function Payload(d: Pairs, keys: Option<Pairs>, repr: Repr): Outcome<Pairs>
  {
    var data :- SelectData(keys, d);
    TruncateAsWritten(SafeData(data, repr))
  }

  /** Lines 134-171 with the long-string rule as intended. */
  function IntendedPayload(d: Pairs, keys: Option<Pairs>, repr: Repr): Outcome<Pairs>
  {
    var data :- SelectData(keys, d);
    Ok(TruncateAll(SafeData(data, repr)))
  }

  /** Lines 134-178 as written: the JSON text of a prepared record dict. */
  function Emit(d: Pairs, keys: Option<Pairs>, dump: DumpOptions, env: Env): Outcome<string>
  {
    var payload :- Payload(d, keys, env.repr);
    env.dumps(Dict(payload), dump)
  }

  /**
   * Before `json.dumps`, the formatter raises only TypeError (a key map with a value that
   * is not a str, or a top-level string longer than 10000); when it does not raise, it
   * hands over what the intended rule would, and the intended rule never leaves a
   * top-level string longer than 10000.
   */
  lemma PayloadFacts(d: Pairs, keys: Option<Pairs>, repr: Repr)
    requires keys.Some? ==> DistinctKeys(keys.value)
    ensures Payload(d, keys, repr).Err? ==> Payload(d, keys, repr).error == TypeError
    ensures Payload(d, keys, repr).Ok? ==> IntendedPayload(d, keys, repr) == Payload(d, keys, repr)
    ensures IntendedPayload(d, keys, repr).Ok? <==> SelectData(keys, d).Ok?
    ensures IntendedPayload(d, keys, repr).Ok? ==>
      forall i :: 0 <= i < |IntendedPayload(d, keys, repr).value| ==> !TooLong(IntendedPayload(d, keys, repr).value[i].1)
  {
    if keys.Some? {
      SelectKeysFacts(keys.value, d);
    }
    var sel := SelectData(keys, d);
    if sel.Ok? {
      var safe := SafeData(sel.value, repr);
      AsWrittenAgreesWhenShort(safe);
      TruncateAllFacts(safe);
    }
  }

  /**
   * The whole-record case of the docstring: with no key map, a record whose attributes are
   * plain JSON with no string longer than 10000 is dumped exactly as it is.
   */
  lemma PlainRecordDumped(d: Pairs, dump: DumpOptions, env: Env)
    requires PlainJson(Dict(d))
    requires forall i :: 0 <= i < |d| ==> !TooLong(d[i].1)
    ensures Emit(d, None, dump, env) == env.dumps(Dict(d), dump)
  {
    SafeDataFacts(d, env.repr);
  }

  // ---------------------------------------------------------------------------
  // Construction (lines 47-93)
  //
  // Line 70 passes the date format to `logging.Formatter.__init__` as its first positional
  // argument, which is `fmt`, the record format, not `datefmt`. The base class then checks
  // that format in the '%' style (`validate=True`, Python 3.8 and later), and its own
  // `datefmt` stays None.

  /** `\w` of Python's `re`, on the ASCII range. */
  predicate IsWordChar(c: char)
  {
    'a' <= c <= 'z' || 'A' <= c <= 'Z' || '0' <= c <= '9' || c == '_'
  }

  /** `[#0+ -]`: a flag of %-formatting. */
  predicate IsFlag(c: char)
  {
    c == '#' || c == '0' || c == '+' || c == ' ' || c == '-'
  }

  predicate IsDecimalDigit(c: char)
  {
    '0' <= c <= '9'
  }

  /** `[diouxefgcrsa%]`, in either case. */
  predicate IsConversion(c: char)
  {
    c in "diouxefgcrsaDIOUXEFGCRSA%"
  }

  /** The first position at or after `i` whose character fails `p`. */
  function SkipWhile(s: string, i: nat, p: char -> bool): (j: nat)
    requires i <= |s|
    ensures i <= j <= |s|
    ensures forall k :: i <= k < j ==> p(s[k])
    ensures j < |s| ==> !p(s[j])
    decreases |s| - i
  {
    if i == |s| || !p(s[i]) then i else SkipWhile(s, i + 1, p)
  }

  /**
   * A match, starting at `i`, of the pattern the '%' style validates with: `%(name)`, then
   * flags, a width, a precision and a conversion. Flags, digits and names are taken
   * greedily; no conversion character is a flag, a digit, `.` or `*`, so the greedy reading
   * finds a match exactly where the regular expression does.
   */
  predicate FieldAt(s: string, i: nat)
  {
    i + 1 < |s| && s[i] == '%' && s[i + 1] == '(' &&
    var n := SkipWhile(s, i + 2, IsWordChar);
    n > i + 2 && n < |s| && s[n] == ')' &&
    var f := SkipWhile(s, n + 1, IsFlag);
    var w := if f < |s| && s[f] == '*' then f + 1 else SkipWhile(s, f, IsDecimalDigit);
    var p :=
      if w + 1 < |s| && s[w] == '.' && s[w + 1] == '*' then w + 2
      else if w + 1 < |s| && s[w] == '.' && IsDecimalDigit(s[w + 1]) then SkipWhile(s, w + 1, IsDecimalDigit)
      else w;
    p < |s| && IsConversion(s[p])
  }

  /** The '%'-style check: the format names at least one record attribute. */
  predicate HasPercentField(s: string)
  {
    exists i: nat :: i < |s| && FieldAt(s, i)
  }

  /**
   * `logging.Formatter.__init__(fmt)`: None and the empty string fall back to the default
   * `%(message)s`; any other format must pass the '%'-style check, or ValueError is raised.
   */
  predicate FormatAccepted(fmt: Option<string>)
  {
    fmt.None? || fmt.value == [] || HasPercentField(fmt.value)
  }

  /**
   * `JsonFormatter(keys, datefmt=...)` as written: the base class may reject the date
   * format, then `keys` is read; the formatter's own date format is None.
   */
  function InitAsWritten(keysArg: Value, datefmt: Option<string>): Outcome<(Option<Pairs>, Option<string>)>
  {
    if !FormatAccepted(datefmt) then Err(ValueError)
    else match NormaliseKeys(keysArg)
      case Ok(k) => Ok((k, None))
      case Err(e) => Err(e)
  }

  /** What `super().__init__(datefmt=datefmt)` gives: only `keys` can fail, and the date format is kept. */
  function InitIntended(keysArg: Value, datefmt: Option<string>): Outcome<(Option<Pairs>, Option<string>)>
  {
    match NormaliseKeys(keysArg)
    case Ok(k) => Ok((k, datefmt))
    case Err(e) => Err(e)
  }

  /**
   * As written, a date format that names no record attribute makes construction raise
   * ValueError before `keys` is read; otherwise construction fails only as `keys` does; and
   * a formatter that is made always stamps `asctime` with the ISO 8601 time, whatever the
   * date format was.
   */
  lemma InitAsWrittenFacts(keysArg: Value, datefmt: Option<string>, env: Env)
    ensures !FormatAccepted(datefmt) ==> InitAsWritten(keysArg, datefmt) == Err(ValueError)
    ensures FormatAccepted(datefmt) ==>
      (InitAsWritten(keysArg, datefmt).Ok? <==> NormaliseKeys(keysArg).Ok?) &&
      (NormaliseKeys(keysArg).Err? ==> InitAsWritten(keysArg, datefmt) == Err(NormaliseKeys(keysArg).error))
    ensures InitAsWritten(keysArg, datefmt).Ok? ==>
      InitAsWritten(keysArg, datefmt).value.0 == NormaliseKeys(keysArg).value &&
      AscTime(InitAsWritten(keysArg, datefmt).value.1, env) == env.isoTime
  {
  }

  /**
   * As documented at line 62: construction fails only as `keys` does, and `asctime` is the
   * date format applied by `formatTime` when one is set, else the ISO 8601 time.
   */
  lemma InitIntendedFacts(keysArg: Value, datefmt: Option<string>, env: Env)
    ensures InitIntended(keysArg, datefmt).Ok? <==> NormaliseKeys(keysArg).Ok?
    ensures InitIntended(keysArg, datefmt).Ok? ==>
      InitIntended(keysArg, datefmt).value.0 == NormaliseKeys(keysArg).value &&
      AscTime(InitIntended(keysArg, datefmt).value.1, env) ==
        if datefmt.Some? && datefmt.value != [] then env.formatTime(datefmt.value) else env.isoTime
  {
  }

  /** A format without `(` names no record attribute. */
  lemma NoFieldWithoutParen(s: string)
    requires '(' !in s
    ensures !HasPercentField(s)
  {
    forall i: nat | i < |s| ensures !FieldAt(s, i) {
      if i + 1 < |s| {
        assert s[i + 1] in s;
      }
    }
  }

  /**
   * `JsonFormatter(datefmt='%Y-%m-%d')` raises ValueError as written, where the date format
   * was meant for `asctime`; and `JsonFormatter(datefmt='%(asctime)s')` is accepted, but
   * its `asctime` is the ISO 8601 time.
   */
  lemma DateFormatCounterexample(env: Env)
    ensures InitAsWritten(Null, Some("%Y-%m-%d")) == Err(ValueError)
    ensures InitIntended(Null, Some("%Y-%m-%d")) == Ok((None, Some("%Y-%m-%d")))
    ensures AscTime(Some("%Y-%m-%d"), env) == env.formatTime("%Y-%m-%d")
    ensures InitAsWritten(Null, Some("%(asctime)s")) == Ok((None, None))
  {
    DateOnlyRejected();
    AsctimeFieldAccepted();
    assert NormaliseKeys(Null) == Ok(None);
  }

  /** `%Y-%m-%d` fails the '%'-style check. */
  lemma DateOnlyRejected()
    ensures !FormatAccepted(Some("%Y-%m-%d"))
  {
    var s := "%Y-%m-%d";
    assert '(' !in s;
    NoFieldWithoutParen(s);
  }

  lemma AsctimeFieldAccepted()
    ensures FormatAccepted(Some("%(asctime)s"))
  {
    var s := "%(asctime)s";
    assert SkipWhile(s, 2, IsWordChar) == 9 by {
      assert forall k :: 2 <= k < 9 ==> IsWordChar(s[k]);
      assert !IsWordChar(s[9]);
    }
    assert SkipWhile(s, 10, IsFlag) == 10;
    assert SkipWhile(s, 10, IsDecimalDigit) == 10;
    assert FieldAt(s, 0);
  }


  // ---------------------------------------------------------------------------
  // The formatter object

  class JsonFormatter {
    /** `self._keys`: output key -> record attribute name, or None for the whole record. */
    var keys: Option<Pairs>
    /** `self.datefmt` of `logging.Formatter`: None, since line 70 passes the date format as `fmt`. */
    var datefmt: Option<string>
    /** The `json.dumps` arguments. */
    var dump: DumpOptions
    /** `self.tz`. */
    var tz: TimeZone

    predicate Valid()
      reads this
    {
      (keys.Some? ==> DistinctKeys(keys.value)) && datefmt.None?
    }

    constructor (keys0: Option<Pairs>, dump0: DumpOptions, tz0: TimeZone)
      requires keys0.Some? ==> DistinctKeys(keys0.value)
      ensures keys == keys0 && datefmt == None && dump == dump0 && tz == tz0
      ensures Valid()
    {
      keys := keys0;
      datefmt := None;
      dump := dump0;
      tz := tz0;
    }

    /**
     * `JsonFormatter(keys, datefmt=..., ...)` (lines 47-93): the formatter, or the
     * exception raised by the base class's check of the date format (line 70) or while
     * reading `keys`; `InitAsWrittenFacts` says what each outcome holds.
     */
    static method Create(keysArg: Value, datefmt: Option<string>, dump: DumpOptions, tz: TimeZone)
      returns (r: Outcome<JsonFormatter>)
      ensures r.Ok? <==> InitAsWritten(keysArg, datefmt).Ok?
      ensures r.Err? ==> InitAsWritten(keysArg, datefmt) == Err(r.error)
      ensures r.Ok? ==> fresh(r.value) && r.value.Valid()
      ensures r.Ok? ==> InitAsWritten(keysArg, datefmt) == Ok((r.value.keys, r.value.datefmt))
      ensures r.Ok? ==> r.value.dump == dump && r.value.tz == tz
    {
      if !FormatAccepted(datefmt) {
        return Err(ValueError);
      }
      var k: Option<Pairs>;
      if keysArg.Dict? {
        k := Some(CopyDict(keysArg.items));
        CopyDictFacts(keysArg.items);
      } else if !keysArg.Str? && Iterate(keysArg).Some? {
        var m := KeysFromIterable(Iterate(keysArg).value);
        if m.Err? {
          return Err(m.error);
        }
        k := Some(m.value);
        IdentityKeysFacts(Iterate(keysArg).value);
      } else if keysArg.Null? {
        k := None;
      } else {
        return Err(TypeError);
      }
      var f := new JsonFormatter(k, dump, tz);
      r := Ok(f);
    }

    /** Lines 95-96. */
    predicate UsesTime()
      reads this
    {
      UsesTimeFor(keys)
    }

    /** Lines 115-119: `record.message`, computed in place. */
    method StampMessage(record: LogRecord, env: Env) returns (r: Outcome<string>)
      requires record.Valid()
      modifies record
      ensures r == MessageText(old(record.attrs), env)
      ensures r.Err? ==> record.attrs == old(record.attrs)
      ensures r.Ok? ==> record.attrs == Put(old(record.attrs), Str("message"), Str(r.value))
      ensures record.Valid()
    {
      var m: string;
      match env.getMessage {
        case Ok(s) =>
          m := s;
        case Err(e) =>
          if e != TypeError {
            return Err(e);
          }
          var rm := env.repr(record.Attribute("msg"));
          if rm.Err? {
            return Err(rm.error);
          }
          var ra := env.repr(record.Attribute("args"));
          if ra.Err? {
            return Err(ra.error);
          }
          m := "MSG=" + rm.value + " ARGS=" + ra.value;
      }
      record.SetAttr("message", Str(m));
      r := Ok(m);
    }

    /** Lines 121-132: the time stamps and the exception text, in place. */
    method StampRecord(record: LogRecord, env: Env)
      requires record.Valid()
      modifies record
      ensures record.Valid()
      ensures var d := old(record.attrs);
        record.attrs == ExcTextStamped(if UsesTimeFor(keys) then TimeStamped(d, tz, datefmt, env) else d, env)
    {
      if UsesTime() {
        record.SetAttr("tz_name", Str(tz.name));
        record.SetAttr("tz_utc_offset_seconds", Int(MakeTimedelta(tz.utcOffset).seconds));
        if datefmt.Some? && datefmt.value != [] {
          record.SetAttr("asctime", Str(env.formatTime(datefmt.value)));
        } else {
          record.SetAttr("asctime", Str(env.isoTime));
        }
      }
      var info := record.Attribute("exc_info");
      if Truthy(info) && !Truthy(record.Attribute("exc_text")) {
        record.SetAttr("exc_text", Str(env.formatException(info)));
      }
    }

    /** Lines 140-164: `jsonable_encoder`, and the failsafe when it raises. */
    static method MakeSafe(data: Pairs, repr: Repr) returns (safe: Pairs)
      ensures safe == SafeData(data, repr)
    {
      var encoded := JsonableEncoder(Dict(data), Null, Null, EncoderDefaults);
      if encoded.Ok? {
        DictStaysDict(data, EncoderDefaults);
        safe := encoded.value.items;
      } else {
        safe := FailsafeLoop(data, repr);
      }
    }

    /**
     * `format(record)` (lines 102-178): stamps the record, then dumps the selected and
     * JSON-ready attributes. When the message step raises, the record is left as it was;
     * otherwise it is left prepared, even when a later step raises.
     */
    method Format(record: LogRecord, env: Env) returns (r: Outcome<string>)
      requires Valid() && record.Valid()
      modifies record
      ensures record.Valid()
      ensures MessageText(old(record.attrs), env).Err? ==>
        r == Err(MessageText(old(record.attrs), env).error) && record.attrs == old(record.attrs)
      ensures MessageText(old(record.attrs), env).Ok? ==>
        record.attrs == Prepared(old(record.attrs), MessageText(old(record.attrs), env).value, keys, tz, datefmt, env) &&
        r == Emit(record.attrs, keys, dump, env)
    {
      var message := StampMessage(record, env);
      if message.Err? {
        return Err(message.error);
      }
      StampRecord(record, env);
      var data: Pairs;
      if keys.Some? {
        var selected := SelectKeys(keys.value, record.attrs);
        if selected.Err? {
          return Err(selected.error);
        }
        data := selected.value;
      } else {
        data := record.attrs;
      }
      var safe := MakeSafe(data, env.repr);
      var checked := TruncateLoopAsWritten(safe);
      if checked.Err? {
        return Err(checked.error);
      }
      r := env.dumps(Dict(checked.value), dump);
    }
  }
}
