# JSON logging for OpenTelemetry, in Dafny

This project models the JSON logging of `opentelemetry_wrapper`. It has two parts.

The first is `jsonable_encoder`, the encoder from `fastapi.encoders` with pydantic stripped out. Its type registry `ENCODERS_BY_TYPE` is taken from `pydantic.json`, and the fallbacks were edited to return a callable's name or an object's `repr`. It turns an arbitrary Python value into JSON-ready data:
- custom encoders first, by exact type and then by `isinstance` in insertion order;
- dataclasses, Enum members, paths and scalars;
- dicts, filtered by `sqlalchemy_safe`, `exclude_none` and include/exclude;
- lists, sets, frozensets, generators and tuples;
- the registry: an exact type lookup, then `isinstance` over the classes grouped by encoder;
- then callables, `dict(obj)`, `vars(obj)` and `repr(obj)`.

The second is the logging side: `JsonFormatter`, the record factory that rewrites the trace and span IDs, and the destination check of `get_json_handler`. The formatter:
- normalises its `keys` argument;
- stamps each record with its message, its time stamps and its exception text;
- selects the attributes to write;
- makes them JSON-ready with the encoder, or with its `repr()` failsafe when the encoder raises;
- applies its long-string rule and hands the dict to `json.dumps`.

Python values are a closed datatype, `Values.Value`. Exceptions are values of `Values.Exception`, and every operation that can raise returns an `Outcome`. A dict is a sequence of pairs in insertion order. Assignment (`Values.Put`) keeps an equal key where it is and replaces its value, as Python does; key equality is structural, except that `True == 1` at the top level.

The encoder and the formatter's pure steps are functions. The loops of the source are methods with loop invariants, each proved equal to its function:
- the encoder's loops;
- the grouping of the registry;
- the `keys` loop;
- the failsafe;
- the truncation loop.

The log record is a class whose attribute dict the formatter and the record factory update in place. So is the formatter, whose `Format` method runs the steps of `format` one after another on the record.

Modules:
- Wrappers: Option and Result.
- Values: the value universe and dict operations.
- Utf8: `bytes.decode()`.
- Numerals: numerals in a base, with zero padding.
- Registry: the type table, the grouping, the lookup and the `parse_*` helpers.
- JsonEncoder: the encoder.
- EncoderProperties: what the encoder promises.
- TraceIds: the hex ID format.
- LogRecords: the record class.
- FormatterKeys: `keys` and attribute selection.
- Failsafe: the `repr()` fallback.
- Truncation: the long-string rule.
- JsonFormatting: the formatter.
- RecordFactory: the ID rewrite.
- JsonHandler: `get_json_handler`.

The code and its docstring disagree in one place. The `keys` docstring (line 61) describes a dict as mapping a record attribute to an output key. Line 135 reads the dict the other way round: output key to attribute name. The model follows the code.

The code and its docstring also disagree on the date format. The docstring (line 62) says it formats `asctime`. Line 70 hands it to `logging.Formatter` as the record format instead, which is checked and then never used, so `asctime` is always ISO 8601. The formatter is built as line 70 is written; the documented behaviour is stated beside it (see Findings).

## Model

| member | source | states |
|---|---|---|
| Values.PutFacts | app/opentelemetry_wrapper/utils/json_encoder.py:168 | `d[k] = v` on a dict with distinct keys: keys stay distinct and in place, `k` is appended only when new, and `k` then maps to `v` |
| Values.PutOther | app/opentelemetry_wrapper/utils/json_encoder.py:168 | `d[k] = v` leaves every key not equal to `k` mapped as before |
| Values.Iterate | app/opentelemetry_wrapper/utils/json_encoder.py:170-172 | `for x in v` visits a sequence's elements and one item per character of a str; None when `v` is not iterable |
| Utf8.Decode | app/opentelemetry_wrapper/utils/json_encoder.py:40-41 | `bytes.decode()` gives at most one character per byte, or raises UnicodeDecodeError |
| Utf8.AsciiDecodes | app/opentelemetry_wrapper/utils/json_encoder.py:40-41 | bytes below 0x80 decode one to one into the characters with those codes |
| Utf8.StrayContinuationRejected | app/opentelemetry_wrapper/utils/json_encoder.py:40-41 | a continuation byte where a character must start raises UnicodeDecodeError |
| Numerals.PadLeft | app/opentelemetry_wrapper/instrument_logging.py:240-241 | the `0…` width of a format spec pads with zeros to the width and never shortens the digits |
| Numerals.ToBaseDigits | app/opentelemetry_wrapper/instrument_logging.py:240-241 | the `x` format writes at least one digit, all lowercase digits of the base |
| Numerals.FromToBase | app/opentelemetry_wrapper/instrument_logging.py:240-241 | `int(format(n, 'x'), 16) == n`: reading a written numeral back gives the number |
| Numerals.LeadingZeros | app/opentelemetry_wrapper/instrument_logging.py:240-241 | leading zeros do not change the number `int(s, 16)` reads |
| Numerals.ToBaseLength | app/opentelemetry_wrapper/instrument_logging.py:240-241 | a numeral fits in `width` digits exactly when the number is below base^width |
| Values.PutKeys | app/opentelemetry_wrapper/utils/json_encoder.py:168 | `d[k] = v` keeps the key order, and appends `k` when it is new |
| Registry.GroupByEncoder | app/opentelemetry_wrapper/utils/json_encoder.py:83-85 | the module-level loop builds exactly the grouping function `ClassTuples` |
| Registry.FindGroup | app/opentelemetry_wrapper/utils/json_encoder.py:83-85 | the lookup of an encoder among the groups finds its group, or reports that there is none |
| Registry.FirstUse | app/opentelemetry_wrapper/utils/json_encoder.py:60-85 | the first table position that names an encoder, and no earlier position names it |
| Registry.DistinctEncoders | app/opentelemetry_wrapper/utils/json_encoder.py:83-85 | each encoder has at most one group, as a dict key |
| Values.Keys | app/opentelemetry_wrapper/utils/json_encoder.py:83-85 | the keys of a dict in insertion order, one per entry, used for the keys of the grouping and of the failsafe dict |
| Registry.AddToGroupEncoders | app/opentelemetry_wrapper/utils/json_encoder.py:85 | `groups[e] += (t,)` keeps the keys, or appends `e` as the last key when it is new |
| Registry.GroupedIffUsed | app/opentelemetry_wrapper/utils/json_encoder.py:83-85 | an encoder has a group exactly when the table names it |
| Registry.GroupsInFirstUseOrder | app/opentelemetry_wrapper/utils/json_encoder.py:83-85 | groups are ordered by where their encoders first appear in the table |
| Registry.UnusedHasNoTypes | app/opentelemetry_wrapper/utils/json_encoder.py:83-85 | an encoder that the table does not name has no classes |
| Registry.GroupsHoldTheirTypes | app/opentelemetry_wrapper/utils/json_encoder.py:83-85 | each group holds exactly its encoder's classes, in table order |
| Registry.TypesForMembers | app/opentelemetry_wrapper/utils/json_encoder.py:83-85 | a class is in an encoder's group exactly when the table registers it with that encoder |
| Registry.TableClasses | app/opentelemetry_wrapper/utils/json_encoder.py:60-81 | the table has no entry for `object`, functions, user classes or PosixPath |
| Registry.TableEncoders | app/opentelemetry_wrapper/utils/json_encoder.py:60-81 | each standard-library class in the table is registered with the encoder for that library type |
| Registry.LibraryTypeRegistered | app/opentelemetry_wrapper/utils/json_encoder.py:60-81 | every standard-library class the model knows has its own entry in the table |
| Registry.ExactEncoder | app/opentelemetry_wrapper/utils/json_encoder.py:188-189 | `ENCODERS_BY_TYPE.get(type(obj))` finds an encoder exactly when the type has an entry, and it is that entry's |
| Registry.Lookup | app/opentelemetry_wrapper/utils/json_encoder.py:188-189 | the exact-type lookup in any table finds the entry of that type, if there is one |
| Registry.InstanceEncoder | app/opentelemetry_wrapper/utils/json_encoder.py:190-192 | the first group whose classes `v` is an instance of; None exactly when it is an instance of none |
| Registry.GroupMatch | app/opentelemetry_wrapper/utils/json_encoder.py:190-191 | `isinstance(obj, classes_tuple)` holds exactly when `v` is an instance of a class registered for the group's encoder |
| Registry.LookupFindsOnlyEncoder | app/opentelemetry_wrapper/utils/json_encoder.py:188-192 | when every registered class that `v` is an instance of names encoder `e`, both lookup stages give `e` |
| Registry.InstanceFindsOnlyEncoder | app/opentelemetry_wrapper/utils/json_encoder.py:190-192 | under the same conditions the `isinstance` stage alone gives `e` |
| Registry.LookupFindsNothing | app/opentelemetry_wrapper/utils/json_encoder.py:188-192 | a value that is an instance of no class in the table finds no encoder |
| Registry.RegisteredLookup | app/opentelemetry_wrapper/utils/json_encoder.py:188-192 | a standard-library value, or a user subclass of one, gets the encoder registered for its class |
| Registry.UnregisteredLookup | app/opentelemetry_wrapper/utils/json_encoder.py:188-195 | functions and plain objects get no encoder from the registry |
| Registry.ParseDecimalInt | app/opentelemetry_wrapper/utils/json_encoder.py:48-49 | `parse_decimal` gives an int exactly when the exponent is finite and not negative, with the Decimal's value; a NaN or infinity raises |
| Registry.RegisteredEncoderOutcome | app/opentelemetry_wrapper/utils/json_encoder.py:36-81 | the registered encoder of a library value succeeds, except on bytes that are not UTF-8, which raise UnicodeDecodeError, and on a NaN or infinite Decimal, whose exponent is a letter and so raises TypeError; a deque becomes a list of its items |
| Registry.DateIsoFields | app/opentelemetry_wrapper/utils/json_encoder.py:36-37 | `date.isoformat()` of a valid date is `YYYY-MM-DD`, ten characters, and its fields read back give the date |
| Registry.Padded | app/opentelemetry_wrapper/utils/json_encoder.py:36-37 | a field below 10^width is written in `width` zero-padded digits that read back as the number |
| Registry.DateIsoExample | app/opentelemetry_wrapper/utils/json_encoder.py:36-37 | 1 January 2024 is written `2024-01-01` |
| JsonEncoder.FindExact | app/opentelemetry_wrapper/utils/json_encoder.py:101-102 | `type(obj) in custom_encoder` finds the entry for exactly that type; None exactly when there is none |
| JsonEncoder.FindInstance | app/opentelemetry_wrapper/utils/json_encoder.py:104-106 | the first custom entry, in insertion order, whose class `v` is an instance of |
| JsonEncoder.NormaliseFilter | app/opentelemetry_wrapper/utils/json_encoder.py:107-110 | include/exclude become None, a set or a dict; None, sets and dicts are kept as they are |
| JsonEncoder.DictErrPropagates | app/opentelemetry_wrapper/utils/json_encoder.py:141-169 | an exception raised while visiting part of a dict ends the whole call with that exception |
| JsonEncoder.ElemsErrPropagates | app/opentelemetry_wrapper/utils/json_encoder.py:171-186 | an exception raised while visiting part of a list ends the whole call with that exception |
| JsonEncoder.CustomLookup | app/opentelemetry_wrapper/utils/json_encoder.py:99-106 | the loop over `custom_encoder.items()` picks the exact entry, else the first `isinstance` entry |
| JsonEncoder.JsonableEncoder | app/opentelemetry_wrapper/utils/json_encoder.py:89-217 | the recursive method computes exactly the specification `Encode`, whose properties are proved in EncoderProperties |
| JsonEncoder.DispatchBuiltin | app/opentelemetry_wrapper/utils/json_encoder.py:132-217 | the checks after the custom encoders compute `EncodeBuiltin` |
| JsonEncoder.EncodeContainer | app/opentelemetry_wrapper/utils/json_encoder.py:140-186 | dicts and sequences are encoded as `EncodeBuiltin` says |
| JsonEncoder.EncodeDictItems | app/opentelemetry_wrapper/utils/json_encoder.py:141-169 | the loop over `obj.items()` computes `EncodeDict` |
| JsonEncoder.InsertEntry | app/opentelemetry_wrapper/utils/json_encoder.py:152-168 | computes `EncodeEntry`: encode the key, then the value, then assign them, stopping at the first exception |
| JsonEncoder.EncodeSeqItems | app/opentelemetry_wrapper/utils/json_encoder.py:171-186 | the loop over the items computes `EncodeElems` |
| JsonEncoder.AppendItem | app/opentelemetry_wrapper/utils/json_encoder.py:172-185 | each item is encoded with include/exclude passed on, then appended |
| JsonEncoder.EncodeWithRegistry | app/opentelemetry_wrapper/utils/json_encoder.py:188-217 | the real two-stage lookup, then the fallbacks, compute `EncodeOther` |
| JsonEncoder.FirstInstanceGroup | app/opentelemetry_wrapper/utils/json_encoder.py:190-192 | the loop over the groups stops at the first `isinstance` match |
| JsonEncoder.EncodeObjectFallback | app/opentelemetry_wrapper/utils/json_encoder.py:198-217 | `dict(obj)`, else `vars(obj)`, else `repr(obj)` |
| EncoderProperties.BuiltinDecides | app/opentelemetry_wrapper/utils/json_encoder.py:99-110 | with no custom encoders and filters that normalise, the built-in rules alone decide |
| EncoderProperties.CustomExactWins | app/opentelemetry_wrapper/utils/json_encoder.py:99-102 | the custom encoder for exactly `type(obj)` wins over earlier `isinstance` entries and every built-in rule, and filters are not looked at |
| EncoderProperties.CustomInstanceInOrder | app/opentelemetry_wrapper/utils/json_encoder.py:103-106 | without an exact entry, the first `isinstance` entry in insertion order wins |
| EncoderProperties.CustomMatchNone | app/opentelemetry_wrapper/utils/json_encoder.py:99-106 | no custom encoder applies exactly when `obj` is an instance of none of their classes |
| EncoderProperties.EarlyRules | app/opentelemetry_wrapper/utils/json_encoder.py:132-139 | with no custom encoders and filters that normalise, the whole call gives a dataclass's `asdict`, an Enum member's `.value`, a path's `str` and a scalar itself, none of them encoded again |
| EncoderProperties.EnumValueNotEncoded | app/opentelemetry_wrapper/utils/json_encoder.py:134-135 | an Enum member's value is returned as it is, even a tuple |
| EncoderProperties.PlainIdentity | app/opentelemetry_wrapper/utils/json_encoder.py:138-186 | plain JSON data (scalars, lists, dicts with distinct plain keys) encodes to itself |
| EncoderProperties.PlainDictIdentity | app/opentelemetry_wrapper/utils/json_encoder.py:140-169 | each prefix of a plain dict encodes to itself |
| EncoderProperties.PlainElemsIdentity | app/opentelemetry_wrapper/utils/json_encoder.py:170-186 | each prefix of a plain list encodes to itself |
| EncoderProperties.IntKeyStaysInt | app/opentelemetry_wrapper/utils/json_encoder.py:152-159 | an int key stays an int and is not turned into a string |
| EncoderProperties.Survivors | app/opentelemetry_wrapper/utils/json_encoder.py:143-151 | the entries the dict filter lets through, in order, never more than the dict has |
| EncoderProperties.SurvivorsMembers | app/opentelemetry_wrapper/utils/json_encoder.py:143-151 | an entry survives exactly when it is in the dict and passes the `_sa`, `exclude_none` and include/exclude tests |
| EncoderProperties.DictFilter | app/opentelemetry_wrapper/utils/json_encoder.py:140-169 | a dict of scalar keys and values encodes to exactly its surviving entries, in order |
| EncoderProperties.DictEncodesSurvivors | app/opentelemetry_wrapper/utils/json_encoder.py:140-169 | for any dict, the filtered loop gives exactly what the unfiltered loop gives over the surviving entries in their order, result or exception: the filters only choose entries |
| EncoderProperties.KeepWithoutFilters | app/opentelemetry_wrapper/utils/json_encoder.py:143-151 | an entry kept under include/exclude is kept with no include and no exclude |
| EncoderProperties.DictStaysDict | app/opentelemetry_wrapper/utils/json_encoder.py:140-169 | without custom encoders a dict is encoded to a dict, or the call raises |
| EncoderProperties.ScalarIdentity | app/opentelemetry_wrapper/utils/json_encoder.py:138-139 | a str, int, float, bool or None is returned unchanged |
| EncoderProperties.FiltersOnlySelect | app/opentelemetry_wrapper/utils/json_encoder.py:150-167 | include/exclude matter only through which top-level entries they keep: two pairs of filters that keep the same entries give the same result |
| EncoderProperties.BadFilterRaises | app/opentelemetry_wrapper/utils/json_encoder.py:107-108 | an include that is not iterable, or has an unhashable element, makes the call raise TypeError |
| EncoderProperties.ElemsLength | app/opentelemetry_wrapper/utils/json_encoder.py:171-186 | a successful list loop has one encoded item per item |
| EncoderProperties.ElemsAt | app/opentelemetry_wrapper/utils/json_encoder.py:171-186 | item `i` encoded is at position `i` |
| EncoderProperties.ElemsAllOk | app/opentelemetry_wrapper/utils/json_encoder.py:171-186 | the list loop succeeds when every item encodes |
| EncoderProperties.ElemsOkEach | app/opentelemetry_wrapper/utils/json_encoder.py:171-186 | the list loop succeeds only when every item encodes |
| EncoderProperties.ElemsFirstError | app/opentelemetry_wrapper/utils/json_encoder.py:171-186 | a failing list loop raises what the first failing item raised, and every item before it encodes |
| EncoderProperties.SeqEncoding | app/opentelemetry_wrapper/utils/json_encoder.py:170-186 | a list, set, frozenset, generator or tuple becomes a list of the same length of its items' encodings, with the filters passed on |
| EncoderProperties.RegistryResult | app/opentelemetry_wrapper/utils/json_encoder.py:188-192 | a library value is encoded by the encoder the lookup finds, and the result is not encoded again |
| EncoderProperties.RegisteredEncoding | app/opentelemetry_wrapper/utils/json_encoder.py:188-192 | that encoder is the one registered for the value's library class |
| EncoderProperties.DecimalToInt | app/opentelemetry_wrapper/utils/json_encoder.py:48-49 | a finite Decimal becomes an int exactly when its exponent is not negative, with the Decimal's value |
| EncoderProperties.ShadowedEntries | app/opentelemetry_wrapper/utils/json_encoder.py:67-79 | the entries for Enum, frozenset, generators, Path and set are never reached |
| EncoderProperties.CallableName | app/opentelemetry_wrapper/utils/json_encoder.py:195-196 | a function or coroutine is encoded as its name |
| EncoderProperties.ObjectFallback | app/opentelemetry_wrapper/utils/json_encoder.py:198-217 | `dict(obj)`, else `vars(obj)`, each encoded again without filters, else `repr(obj)`; one step failing never stops the next |
| EncoderProperties.TupleKeyRaises | app/opentelemetry_wrapper/utils/json_encoder.py:152-168 | in any dict whose earlier entries encode, a kept entry with a tuple key whose key and value encode makes the call raise TypeError: the key becomes a list, which cannot be a dict key |
| EncoderProperties.TupleBecomesList | app/opentelemetry_wrapper/utils/json_encoder.py:170-186 | a tuple is encoded as a list |
| EncoderProperties.InvalidBytesRaise | app/opentelemetry_wrapper/utils/json_encoder.py:40-41 | any bytes that are not UTF-8, of any bytes subclass, make the call raise UnicodeDecodeError when there are no custom encoders and the filters normalise |
| EncoderProperties.ReprFailureRaises | app/opentelemetry_wrapper/utils/json_encoder.py:198-206 | an object with no dict view, no `vars` and a raising `repr` makes the call raise |
| TraceIds.ParseHex | app/opentelemetry_wrapper/instrument_logging.py:240-241 | `int(s, 16)` raises only ValueError, and never succeeds on an empty string or a bare `0x` |
| TraceIds.FormatHexDigits | app/opentelemetry_wrapper/instrument_logging.py:240-241 | `0x` followed by lowercase hex digits: zero padding, then the whole numeral of the number |
| TraceIds.FormatHexLength | app/opentelemetry_wrapper/instrument_logging.py:240-241 | the ID is exactly `2 + width` characters long when the number is below 16^width, and longer otherwise |
| TraceIds.FormatHexParses | app/opentelemetry_wrapper/instrument_logging.py:240-241 | `int(f'0x{n:0Wx}', 16) == n` |
| TraceIds.ReformatKeepsNumber | app/opentelemetry_wrapper/instrument_logging.py:240-241 | rewriting an ID keeps the number it denotes |
| TraceIds.ReformatIdempotent | app/opentelemetry_wrapper/instrument_logging.py:240-241 | rewriting an already rewritten ID changes nothing |
| TraceIds.IdLengths | app/opentelemetry_wrapper/instrument_logging.py:240-241 | a trace ID below 2^128 becomes 34 characters, a span ID below 2^64 becomes 18 |
| TraceIds.TraceIdExample | app/opentelemetry_wrapper/instrument_logging.py:240 | the trace ID `beef` becomes `0x`, 28 zeros and `beef` |
| TraceIds.SpanIdExample | app/opentelemetry_wrapper/instrument_logging.py:241 | the span ID `beef` becomes `0x000000000000beef` |
| TraceIds.OutsideSpan | app/opentelemetry_wrapper/instrument_logging.py:237-240 | the invalid ID `0` reported outside a span becomes `0x` and 32 zeros |
| TraceIds.EmptyIdRaises | app/opentelemetry_wrapper/instrument_logging.py:240-241 | an empty ID or a bare prefix raises ValueError |
| RecordFactory.RewriteIds | app/opentelemetry_wrapper/instrument_logging.py:234-243 | the record's trace ID is rewritten, then its span ID; a failure leaves the record as far as it got; a missing ID raises AttributeError, a non-str ID raises TypeError |
| RecordFactory.RewriteIdsResult | app/opentelemetry_wrapper/instrument_logging.py:240-241 | the rewrite succeeds exactly when both IDs parse, and then stores each as its number in `0x` hex, padded to 32 and 16 digits |
| RecordFactory.RewriteIdsIdempotent | app/opentelemetry_wrapper/instrument_logging.py:234-243 | running the factory's rewrite on an already rewritten record changes nothing |
| LogRecords.SetAttrFacts | app/opentelemetry_wrapper/instrument_logging.py:117-132 | `record.name = v` keeps a record dict well formed, sets `name` to `v` and leaves every other attribute as it was |
| LogRecords.LogRecord.constructor | app/opentelemetry_wrapper/instrument_logging.py:102 | a record holds the attribute dict it is built with |
| LogRecords.LogRecord.SetAttr | app/opentelemetry_wrapper/instrument_logging.py:117-132 | attribute assignment in place: the new dict is `Put` of the old one, `name` reads `v`, other attributes are unchanged |
| FormatterKeys.CopyDictFacts | app/opentelemetry_wrapper/instrument_logging.py:73-75 | `dict(); update(keys)` gives a dict with distinct keys, equal to `keys` when `keys` already has them |
| FormatterKeys.IdentityKeysFacts | app/opentelemetry_wrapper/instrument_logging.py:76-80 | the loop succeeds exactly when every item is a str and then maps every item, and only the items, to itself; otherwise AssertionError |
| FormatterKeys.Deduplicated | app/opentelemetry_wrapper/instrument_logging.py:77-80 | the items without repeats, first occurrences kept: the same members, no duplicates |
| FormatterKeys.DeduplicatedDistinct | app/opentelemetry_wrapper/instrument_logging.py:77-80 | items without repeats are their own deduplication |
| FormatterKeys.IdentityKeysOrder | app/opentelemetry_wrapper/instrument_logging.py:77-80 | the keys of the identity map follow the items, first occurrences only |
| FormatterKeys.IdentityKeysListed | app/opentelemetry_wrapper/instrument_logging.py:77-80 | for distinct items the identity map is exactly `[(items[i], items[i])]` in item order |
| FormatterKeys.ListedKeysInOrder | app/opentelemetry_wrapper/instrument_logging.py:72-84 | a list or tuple of strs normalises to a map whose keys are the strs in first-occurrence order, and to exactly the pairs `(s, s)` in list order when the strs are distinct |
| FormatterKeys.KeysFromIterable | app/opentelemetry_wrapper/instrument_logging.py:77-80 | the `for key in keys` loop computes `IdentityKeys` |
| FormatterKeys.NormalisedKeysDistinct | app/opentelemetry_wrapper/instrument_logging.py:72-84 | whatever `keys` was, the normalised map has distinct keys |
| FormatterKeys.NormaliseKeysCases | app/opentelemetry_wrapper/instrument_logging.py:72-84 | a dict is kept; a list or tuple of strs becomes its identity map; one with a non-str raises AssertionError; None stays None; a str or a non-iterable raises TypeError |
| FormatterKeys.SelectKeysFacts | app/opentelemetry_wrapper/instrument_logging.py:134-135 | the selection has the map's keys in order, each with the attribute its value names (None when absent); it raises TypeError exactly when a value is not a str |
| FormatterKeys.SelectAll | app/opentelemetry_wrapper/instrument_logging.py:136-137 | without a key map the whole record dict is encoded |
| Failsafe.FailsafeLoop | app/opentelemetry_wrapper/instrument_logging.py:145-164 | the loop with its two `continue`s computes `SafeEntries` |
| Failsafe.SafeEntriesJsonReady | app/opentelemetry_wrapper/instrument_logging.py:145-164 | the failsafe's dict has distinct str keys and only int, float, bool, str or None values |
| Failsafe.SafeEntriesDropsOnlyFailures | app/opentelemetry_wrapper/instrument_logging.py:145-164 | on a record-like dict, exactly the entries whose value's `repr` raises are dropped; others map to the value or its `repr`; no other key appears |
| Failsafe.SafeEntriesByKey | app/opentelemetry_wrapper/instrument_logging.py:145-164 | for any keys: every key of the failsafe dict is some entry's `repr`-stringified key; a key holds the value of the last kept entry stringified to it; a key no kept entry is stringified to is absent, so an entry whose key's `repr` raises adds nothing |
| Failsafe.SafeEntriesIdentity | app/opentelemetry_wrapper/instrument_logging.py:156-158 | a dict of str keys and scalar values passes unchanged |
| Truncation.TruncatedFacts | app/opentelemetry_wrapper/instrument_logging.py:170-171 | a truncated string is exactly 10000 characters and starts with the original's first 9985; short strings stay; truncating twice is truncating once |
| Truncation.TruncateAllFacts | app/opentelemetry_wrapper/instrument_logging.py:169-171 | the intended rule keeps keys, touches only too-long top-level strings, leaves none longer than 10000 and is idempotent |
| Truncation.TruncateLoop | app/opentelemetry_wrapper/instrument_logging.py:169-171 | the intended loop computes `TruncateAll` |
| Truncation.TruncateLoopAsWritten | app/opentelemetry_wrapper/instrument_logging.py:169-171 | the loop as written computes `TruncateAsWritten` |
| Truncation.AsWrittenAgreesWhenShort | app/opentelemetry_wrapper/instrument_logging.py:169-171 | the rule as written succeeds exactly when the intended rule would change nothing; otherwise TypeError |
| Truncation.TruncationCounterexample | app/opentelemetry_wrapper/instrument_logging.py:171 | a 10001-character message raises as written and is cut to 10000 as intended |
| JsonFormatting.MessageFacts | app/opentelemetry_wrapper/instrument_logging.py:116-119 | a TypeError from `getMessage` is replaced by `MSG=<repr msg> ARGS=<repr args>`; only other exceptions, or those of `repr`, escape |
| JsonFormatting.TimedeltaExact | app/opentelemetry_wrapper/instrument_logging.py:124 | a timedelta's seconds lie in [0, 86400) and days and seconds together make up the offset |
| JsonFormatting.OffsetAsWrittenFacts | app/opentelemetry_wrapper/instrument_logging.py:124 | `.seconds` is never negative; for an offset under a day it equals the offset exactly when the zone is not west of UTC |
| JsonFormatting.OffsetIntendedExact | app/opentelemetry_wrapper/instrument_logging.py:124 | the total seconds of the offset is the offset |
| JsonFormatting.OffsetCounterexample | app/opentelemetry_wrapper/instrument_logging.py:124 | UTC-5 is written as 68400, not -18000 |
| JsonFormatting.TimeStampedFacts | app/opentelemetry_wrapper/instrument_logging.py:122-128 | `tz_name`, `tz_utc_offset_seconds` and `asctime` hold the zone name, the offset and the time text; nothing else changes |
| JsonFormatting.ExcTextFacts | app/opentelemetry_wrapper/instrument_logging.py:131-132 | `exc_text` is filled in exactly when `exc_info` is truthy and `exc_text` is not; nothing else changes |
| JsonFormatting.MessageAndTimeFacts | app/opentelemetry_wrapper/instrument_logging.py:116-128 | after the message and time steps the record holds the message and, when the time is used, the three time attributes; other attributes are unchanged |
| JsonFormatting.PreparedFacts | app/opentelemetry_wrapper/instrument_logging.py:95-132 | after the preparatory steps: the message is set; the time attributes are set exactly when `usesTime()`, else kept; `exc_text` follows lines 131-132; no other attribute changes |
| JsonFormatting.SafeDataFacts | app/opentelemetry_wrapper/instrument_logging.py:140-164 | plain JSON data passes the encoder unchanged; when the encoder raises, the failsafe gives distinct str keys and scalar values |
| JsonFormatting.PayloadFacts | app/opentelemetry_wrapper/instrument_logging.py:134-171 | before `json.dumps` only TypeError is raised; a payload that gets through equals the intended one, and the intended one has no top-level string over 10000 |
| JsonFormatting.PlainRecordDumped | app/opentelemetry_wrapper/instrument_logging.py:134-178 | without keys, a record of plain JSON with no string over 10000 is dumped exactly as it is |
| JsonFormatting.NoFieldWithoutParen | app/opentelemetry_wrapper/instrument_logging.py:70 | a format without `(` fails the '%'-style check that `logging.Formatter` applies to `fmt` |
| JsonFormatting.DateOnlyRejected | app/opentelemetry_wrapper/instrument_logging.py:70 | the date format `%Y-%m-%d`, passed as `fmt`, fails that check |
| JsonFormatting.AsctimeFieldAccepted | app/opentelemetry_wrapper/instrument_logging.py:70 | the format `%(asctime)s` passes that check |
| JsonFormatting.InitAsWrittenFacts | app/opentelemetry_wrapper/instrument_logging.py:47-93 | as written, a date format that fails the check raises ValueError before `keys` is read; otherwise construction fails only as `keys` does; a formatter that is made stamps `asctime` with the ISO 8601 time whatever the date format was |
| JsonFormatting.InitIntendedFacts | app/opentelemetry_wrapper/instrument_logging.py:62 | as documented, construction fails only as `keys` does, and `asctime` is the date format applied by `formatTime` when one is set, else ISO 8601 |
| JsonFormatting.DateFormatCounterexample | app/opentelemetry_wrapper/instrument_logging.py:70 | `datefmt='%Y-%m-%d'` raises ValueError as written, where the documented behaviour keeps it for `asctime`; `datefmt='%(asctime)s'` is accepted but dropped |
| JsonFormatting.JsonFormatter.constructor | app/opentelemetry_wrapper/instrument_logging.py:70-93 | the formatter holds its key map, its `json.dumps` options and time zone, and a date format of None, since line 70 passes the date format as `fmt` |
| JsonFormatting.JsonFormatter.Create | app/opentelemetry_wrapper/instrument_logging.py:47-93 | construction as written (`InitAsWritten`): ValueError when the date format names no record attribute, else the exception of normalising `keys`, else a formatter with the normalised map and no date format |
| JsonFormatting.JsonFormatter.StampMessage | app/opentelemetry_wrapper/instrument_logging.py:115-119 | sets `record.message` to the message text; when that raises, the record is unchanged |
| JsonFormatting.JsonFormatter.StampRecord | app/opentelemetry_wrapper/instrument_logging.py:121-132 | writes the time stamps when `usesTime()`, then the exception text, in place |
| JsonFormatting.JsonFormatter.MakeSafe | app/opentelemetry_wrapper/instrument_logging.py:139-164 | the encoder's dict, or the failsafe's when the encoder raises |
| JsonFormatting.JsonFormatter.Format | app/opentelemetry_wrapper/instrument_logging.py:102-178 | a failed message step raises and leaves the record alone; otherwise the record is left prepared and the result is `Emit` of it, even when a later step raises |
| JsonHandler.HandlerFacts | app/opentelemetry_wrapper/instrument_logging.py:187-198 | both a path and a stream raise ValueError, and that is the only error; otherwise the handler writes to the one given, or to stderr, at the given level |

## Left out

- Only the pydantic-free arguments of `jsonable_encoder` are modelled: `by_alias`, `exclude_unset` and `exclude_defaults` change nothing once the pydantic branch is commented out.
- `datetime.isoformat()` for datetimes and times, `timedelta.total_seconds()` and floats are carried as opaque tokens. Only dates are formatted in full.
- `dataclasses.asdict` is modelled without its deep copy. `str()` is modelled only for the classes the registry maps to `str`. `CodeInfo(obj).name` is the callable's recorded name.
- `Values.Iterate` covers lists, tuples, sets, frozensets, generators, strs, dict keys, bytes and deques. Iterating other objects is not modelled.
- `json.dumps`, `Formatter.formatTime`, `formatException`, `LogRecord.getMessage`, `repr()` and the clock are parameters of the formatter (an `Env`). Their own behaviour is not part of this model.
- The local time zone found at construction (line 93) is a parameter of the formatter.
- Python's `-O` switch, which removes the `assert` at line 79, is not modelled. The assert always runs.
- `getattr` (line 135) finds only instance attributes. Class attributes and methods of the record are not modelled.
- `instrument_logging` itself is not modelled (lines 203-263): the instrumentor, `basicConfig`, the root logger, adding handlers, and the `lru_cache` of `get_json_handler`.
- The handler's level and formatter are only carried: a `Handler` value records the destination and the level. Opening files and streams is not modelled.
- `int(s, 16)` is modelled for an optional `0x` prefix followed by hex digits. Surrounding whitespace, a sign and digit-group underscores, which Python also accepts, are not modelled, so negative IDs are out of scope.
- The `__dict__` of a record is assumed to have str keys, with the attributes that the logging library always sets.
- A value that two early rules both match (an `IntEnum` or `StrEnum` member, which is also an int or a str; an Enum that is a dataclass) is not representable: each value has one kind, so the order of lines 132-139 between such rules is not modelled.
- The '%'-style check of `logging.Formatter` is modelled with `\w` on ASCII letters, digits and `_` only; Python's Unicode word characters are not modelled.
- Python before 3.8, whose `logging.Formatter` does not check its format, is not modelled: line 70 then never raises.
- JsonFormatting.JsonFormatter.Format: models lines 124 and 171 as written, so the record gets the `.seconds` offset and a long string raises TypeError. The corrected behaviour is stated beside it; see Findings.

## Findings

| source | as written | input that shows it | evidently intended | confidence | as-written member | corrected member |
|---|---|---|---|---|---|---|
| app/opentelemetry_wrapper/instrument_logging.py:171 | `k[v] = ...` assigns into the key, which raises TypeError for every str value longer than 10000 characters | a record whose message is 10001 characters, formatted without keys | `safe_log_data[k] = f'{v[:9985]}... (truncated)'`, cutting the value to 10000 characters | high, not executed | Truncation.TruncationCounterexample | Truncation.TruncateAllFacts |
| app/opentelemetry_wrapper/instrument_logging.py:70 | `super().__init__(datefmt)` passes the date format as `fmt`, the record format: it is checked as one and never used for `asctime` | `JsonFormatter(datefmt='%Y-%m-%d')` raises ValueError; `JsonFormatter(datefmt='%(asctime)s')` is accepted and its `asctime` is still ISO 8601 | `super().__init__(datefmt=datefmt)`, as the docstring at line 62 describes | high, not executed | JsonFormatting.DateFormatCounterexample | JsonFormatting.InitIntendedFacts |
| app/opentelemetry_wrapper/instrument_logging.py:124 | `utcoffset(None).seconds` is the seconds field of a normalised timedelta, never negative | a zone at UTC-5: offset -18000 is written as 68400 | `utcoffset(None).total_seconds()`, the signed offset | high, not executed | JsonFormatting.OffsetCounterexample | JsonFormatting.OffsetIntendedExact |
