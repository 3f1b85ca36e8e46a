/**
 * `jsonable_encoder` (app/opentelemetry_wrapper/utils/json_encoder.py): turns an arbitrary
 * value into something `json.dumps` can write. `Encode` is the specification, one branch per
 * check of the source in the source's order; `JsonableEncoder` is the recursive procedure
 * with the source's loops, proved to compute `Encode`.
 */
module JsonEncoder {
  import opened Wrappers
  import opened Values
  import opened Registry

  /** One entry of `custom_encoder`: a class and the function registered for it. */
  datatype CustomEntry = CustomEntry(key: PyType, encode: Value -> Outcome<Value>)

  /**
   * The keyword arguments that change the result. `by_alias`, `exclude_unset` and
   * `exclude_defaults` are only passed along and never read, so they are not modelled.
   */
  datatype Options = Options(excludeNone: bool, sqlalchemySafe: bool, custom: seq<CustomEntry>)

  /** `custom_encoder[type(obj)]`: the entry whose class is exactly the type of `v`. */
  function FindExact(custom: seq<CustomEntry>, t: PyType): (r: Option<nat>)
    ensures r.Some? ==> r.value < |custom| && custom[r.value].key == t
    ensures r.Some? ==> forall j :: 0 <= j < r.value ==> custom[j].key != t
    ensures r.None? <==> forall i :: 0 <= i < |custom| ==> custom[i].key != t
  {
    if custom == [] then None
    else if custom[0].key == t then Some(0)
    else
      var r := FindExact(custom[1..], t);
      assert forall i :: 1 <= i < |custom| ==> custom[i] == custom[1..][i - 1];
      if r.Some? then Some(r.value + 1) else None
  }

  /** The first entry, in insertion order, whose class `v` is an instance of. */
  function FindInstance(custom: seq<CustomEntry>, v: Value): (r: Option<nat>)
    ensures r.Some? ==> r.value < |custom| && IsInstance(v, custom[r.value].key)
    ensures r.Some? ==> forall j :: 0 <= j < r.value ==> !IsInstance(v, custom[j].key)
    ensures r.None? <==> forall i :: 0 <= i < |custom| ==> !IsInstance(v, custom[i].key)
  {
    if custom == [] then None
    else if IsInstance(v, custom[0].key) then Some(0)
    else
      var r := FindInstance(custom[1..], v);
      assert forall i :: 1 <= i < |custom| ==> custom[i] == custom[1..][i - 1];
      if r.Some? then Some(r.value + 1) else None
  }

  /** Lines 99-106: the custom encoder that applies to `v`, if any. */
  function CustomMatch(v: Value, custom: seq<CustomEntry>): Option<nat>
  {
    match FindExact(custom, TypeOf(v))
    case Some(i) => Some(i)
    case None => FindInstance(custom, v)
  }

  /**
   * Lines 107-110: an include/exclude argument that is not None, a set or a dict becomes
   * `set(arg)`, which raises on something not iterable or on an unhashable element.
   */
  function NormaliseFilter(f: Value): (r: Outcome<Value>)
    ensures r.Ok? ==> r.value.Null? || (r.value.Seq? && r.value.kind == SetKind) || r.value.Dict?
    ensures (f.Null? || f.Dict? || (f.Seq? && f.kind == SetKind)) ==> r == Ok(f)
  {
    if f.Null? || f.Dict? || (f.Seq? && f.kind == SetKind) then Ok(f)
    else
      match Iterate(f)
      case None => Err(TypeError)
      case Some(items) =>
        if forall i :: 0 <= i < |items| ==> Hashable(items[i]) then Ok(Seq(SetKind, items))
        else Err(TypeError)
  }

  /** `key in f` for a normalised filter (a set, or a dict's keys). */
  predicate InFilter(k: Value, f: Value)
  {
    match f
    case Seq(_, elems) => exists i :: 0 <= i < |elems| && SameKey(elems[i], k)
    case Dict(items) => FindKey(items, k).Some?
    case _ => false
  }

  predicate StartsWithSa(s: string)
  {
    |s| >= 3 && s[..3] == "_sa"
  }

  /** Lines 143-151: whether the dict entry (k, v) survives. */
  predicate Keep(k: Value, v: Value, incl: Value, excl: Value, opts: Options)
  {
    (!opts.sqlalchemySafe || !k.Str? || !StartsWithSa(k.s))
    && (!v.Null? || !opts.excludeNone)
    && ((Truthy(incl) && InFilter(k, incl)) || !Truthy(excl) || !InFilter(k, excl))
  }

  /** `dataclasses.asdict`: dataclass instances become dicts keyed by field name, recursively. */
  function AsDict(v: Value): Value
  {
    match v
    case Dataclass(_, fields) =>
      Dict(seq(|fields|, i requires 0 <= i < |fields| => (Str(fields[i].0), AsDict(fields[i].1))))
    case Seq(kind, elems) =>
      if kind == ListKind || kind == TupleKind then
        Seq(kind, seq(|elems|, i requires 0 <= i < |elems| => AsDict(elems[i])))
      else v
    case Dict(items) =>
      Dict(seq(|items|, i requires 0 <= i < |items| => (AsDict(items[i].0), AsDict(items[i].1))))
    case _ => v
  }

  /** `jsonable_encoder(v, include=incl, exclude=excl, ...)`. */
  function Encode(v: Value, incl: Value, excl: Value, opts: Options): Outcome<Value>
    decreases Size(v), 3
  {
    match CustomMatch(v, opts.custom)
    case Some(i) => opts.custom[i].encode(v)
    case None =>
      var incl' :- NormaliseFilter(incl);
      var excl' :- NormaliseFilter(excl);
      EncodeBuiltin(v, incl', excl', opts)
  }

  /** Lines 132-217: the checks after the custom encoders, with include/exclude normalised. */
  function EncodeBuiltin(v: Value, incl: Value, excl: Value, opts: Options): Outcome<Value>
    decreases Size(v), 2
  {
    if v.Dataclass? then Ok(AsDict(v))
    else if v.Enum? then Ok(v.member)
    else if v.Path? then Ok(Str(v.path))
    else if v.Null? || v.Bool? || v.Int? || v.Float? || v.Str? then Ok(v)
    else if v.Dict? then
      var items :- EncodeDict(v.items, incl, excl, opts);
      Ok(Dict(items))
    else if v.Seq? then
      var elems :- EncodeElems(v.elems, incl, excl, opts);
      Ok(Seq(ListKind, elems))
    else EncodeOther(v, opts)
  }

  /**
   * Lines 188-217: the type registry, then callables, then `dict(obj)`, `vars(obj)`, `repr(obj)`.
   * The registry's choice is written as `ExpectedEncoder`; `RegisteredLookup` and
   * `UnregisteredLookup` prove that the two-stage lookup makes exactly this choice.
   */
  function EncodeOther(v: Value, opts: Options): Outcome<Value>
    requires v.Registered? || v.Callable? || v.Object?
    decreases Size(v), 1
  {
    match v
    case Registered(lib, _) => Apply(ExpectedEncoder(lib), v)
    case Callable(name) => Ok(Str(name))
    case Object(_, _, _, _) => EncodeObject(v, opts)
  }

  /** Lines 199-217: `dict(obj)`, else `vars(obj)`, encoded again; else `repr(obj)`. */
  function EncodeObject(v: Value, opts: Options): Outcome<Value>
    requires v.Object?
    decreases Size(v), 0
  {
    assert Size(v) == 2 + HarvestSize(v.asDict) + HarvestSize(v.vars);
    match v.asDict
    case Gives(data) =>
      assert Size(Dict(data)) == 1 + HarvestSize(v.asDict);
      Encode(Dict(data), Null, Null, opts)
    case Raises =>
      match v.vars
      case Gives(data) =>
        assert Size(Dict(data)) == 1 + HarvestSize(v.vars);
        Encode(Dict(data), Null, Null, opts)
      case Raises =>
        if v.repr.Some? then Ok(Str(v.repr.value)) else Err(Raised("repr"))
  }

  /** Lines 141-169, after visiting `items`: the encoded dict, or the first exception. */
  function EncodeDict(items: Pairs, incl: Value, excl: Value, opts: Options): Outcome<Pairs>
    decreases PairsSize(items), 1
  {
    if items == [] then Ok([])
    else
      var last := items[|items| - 1];
      assert PairsSize(items) == PairsSize(items[..|items| - 1]) + Size(last.0) + Size(last.1) + 1;
      var acc :- EncodeDict(items[..|items| - 1], incl, excl, opts);
      if !Keep(last.0, last.1, incl, excl, opts) then Ok(acc)
      else EncodeEntry(acc, last.0, last.1, opts)
  }

  /** Lines 152-168: `encoded_dict[encoded_key] = encoded_value`, which raises on an unhashable key. */
  function EncodeEntry(acc: Pairs, k: Value, v: Value, opts: Options): Outcome<Pairs>
    decreases Size(k) + Size(v), 0
  {
    var ek :- Encode(k, Null, Null, opts);
    var ev :- Encode(v, Null, Null, opts);
    if Hashable(ek) then Ok(Put(acc, ek, ev)) else Err(TypeError)
  }

  /** Lines 171-186, after visiting `elems`: the encoded list, or the first exception. */
  function EncodeElems(elems: seq<Value>, incl: Value, excl: Value, opts: Options): Outcome<seq<Value>>
    decreases ElemsSize(elems), 1
  {
    if elems == [] then Ok([])
    else
      var acc :- EncodeElems(elems[..|elems| - 1], incl, excl, opts);
      EncodeItem(acc, elems[|elems| - 1], incl, excl, opts)
  }

  /** Lines 172-185: `encoded_list.append(jsonable_encoder(item, ...))`. */
  function EncodeItem(acc: seq<Value>, item: Value, incl: Value, excl: Value, opts: Options): Outcome<seq<Value>>
    decreases Size(item) + 1, 0
  {
    var e :- Encode(item, incl, excl, opts);
    Ok(acc + [e])
  }

  /** An exception raised while visiting a prefix of the dict ends the whole loop with it. */
  lemma {:induction false} DictErrPropagates(items: Pairs, n: nat, incl: Value, excl: Value, opts: Options)
    requires n <= |items| && EncodeDict(items[..n], incl, excl, opts).Err?
    ensures EncodeDict(items, incl, excl, opts) == EncodeDict(items[..n], incl, excl, opts)
    decreases |items|
  {
    if n == |items| {
      assert items[..n] == items;
    } else {
      var pre := items[..|items| - 1];
      assert pre[..n] == items[..n];
      DictErrPropagates(pre, n, incl, excl, opts);
    }
  }

  /** An exception raised while visiting a prefix of the list ends the whole loop with it. */
  lemma {:induction false} ElemsErrPropagates(elems: seq<Value>, n: nat, incl: Value, excl: Value, opts: Options)
    requires n <= |elems| && EncodeElems(elems[..n], incl, excl, opts).Err?
    ensures EncodeElems(elems, incl, excl, opts) == EncodeElems(elems[..n], incl, excl, opts)
    decreases |elems|
  {
    if n == |elems| {
      assert elems[..n] == elems;
    } else {
      var pre := elems[..|elems| - 1];
      assert pre[..n] == elems[..n];
      ElemsErrPropagates(pre, n, incl, excl, opts);
    }
  }

  /** One more iteration of the dict loop. */
  lemma DictStep(items: Pairs, i: nat, acc: Pairs, incl: Value, excl: Value, opts: Options)
    requires i < |items| && EncodeDict(items[..i], incl, excl, opts) == Ok(acc)
    ensures EncodeDict(items[..i + 1], incl, excl, opts) ==
      if Keep(items[i].0, items[i].1, incl, excl, opts) then EncodeEntry(acc, items[i].0, items[i].1, opts) else Ok(acc)
  {
    assert items[..i + 1][..i] == items[..i];
  }

  /** One more iteration of the list loop. */
  lemma ElemsStep(elems: seq<Value>, i: nat, acc: seq<Value>, incl: Value, excl: Value, opts: Options)
    requires i < |elems| && EncodeElems(elems[..i], incl, excl, opts) == Ok(acc)
    ensures EncodeElems(elems[..i + 1], incl, excl, opts) == EncodeItem(acc, elems[i], incl, excl, opts)
  {
    assert elems[..i + 1][..i] == elems[..i];
  }

  lemma {:induction false} PairsSizeBound(items: Pairs, i: nat)
    requires i < |items|
    ensures Size(items[i].0) + Size(items[i].1) < PairsSize(items)
  {
    if i < |items| - 1 {
      var pre := items[..|items| - 1];
      assert pre[i] == items[i];
      PairsSizeBound(pre, i);
    }
  }

  lemma {:induction false} ElemsSizeBound(elems: seq<Value>, i: nat)
    requires i < |elems|
    ensures Size(elems[i]) < ElemsSize(elems)
  {
    if i < |elems| - 1 {
      var pre := elems[..|elems| - 1];
      assert pre[i] == elems[i];
      ElemsSizeBound(pre, i);
    }
  }

  /** Lines 99-106, with the loop over `custom_encoder.items()`. */
  method CustomLookup(v: Value, custom: seq<CustomEntry>) returns (r: Option<nat>)
    ensures r == CustomMatch(v, custom)
  {
    r := FindExact(custom, TypeOf(v));
    if r.Some? {
      return;
    }
    for i := 0 to |custom|
      invariant forall j :: 0 <= j < i ==> !IsInstance(v, custom[j].key)
    {
      if IsInstance(v, custom[i].key) {
        return Some(i);
      }
    }
    return None;
  }

  /**
   * `jsonable_encoder`, step by step. Each branch states its own outcome, so that the
   * branches are proved one at a time.
   */
  method JsonableEncoder(v: Value, incl: Value, excl: Value, opts: Options) returns (r: Outcome<Value>)
    ensures r == Encode(v, incl, excl, opts)
    decreases Size(v), 3
  {
    var custom := CustomLookup(v, opts.custom);
    if custom.Some? {
      r := opts.custom[custom.value].encode(v);
      assert r == Encode(v, incl, excl, opts);
    } else {
      var incl' := NormaliseFilter(incl);
      var excl' := NormaliseFilter(excl);
      if incl'.Err? {
        r := Err(incl'.error);
        assert r == Encode(v, incl, excl, opts);
      } else if excl'.Err? {
        r := Err(excl'.error);
        assert r == Encode(v, incl, excl, opts);
      } else {
        r := DispatchBuiltin(v, incl'.value, excl'.value, opts);
        assert r == Encode(v, incl, excl, opts);
      }
    }
  }

  /** Lines 132-217, once the custom encoders did not apply. */
  method DispatchBuiltin(v: Value, incl: Value, excl: Value, opts: Options) returns (r: Outcome<Value>)
    ensures r == EncodeBuiltin(v, incl, excl, opts)
    decreases Size(v), 2
  {
    if v.Dataclass? {
      r := Ok(AsDict(v));
      assert r == EncodeBuiltin(v, incl, excl, opts);
    } else if v.Enum? {
      r := Ok(v.member);
      assert r == EncodeBuiltin(v, incl, excl, opts);
    } else if v.Path? {
      r := Ok(Str(v.path));
      assert r == EncodeBuiltin(v, incl, excl, opts);
    } else if v.Null? || v.Bool? || v.Int? || v.Float? || v.Str? {
      r := Ok(v);
      assert r == EncodeBuiltin(v, incl, excl, opts);
    } else if v.Dict? || v.Seq? {
      r := EncodeContainer(v, incl, excl, opts);
    } else {
      r := EncodeWithRegistry(v, opts);
      assert r == EncodeBuiltin(v, incl, excl, opts);
    }
  }

  /** Lines 140-186: a dict, or a list, set, frozenset, generator or tuple. */
  method EncodeContainer(v: Value, incl: Value, excl: Value, opts: Options) returns (r: Outcome<Value>)
    requires v.Dict? || v.Seq?
    ensures r == EncodeBuiltin(v, incl, excl, opts)
    decreases Size(v), 1
  {
    if v.Dict? {
      var items := EncodeDictItems(v.items, incl, excl, opts);
      r := if items.Ok? then Ok(Dict(items.value)) else Err(items.error);
      assert r == EncodeBuiltin(v, incl, excl, opts);
    } else {
      var elems := EncodeSeqItems(v.elems, incl, excl, opts);
      r := if elems.Ok? then Ok(Seq(ListKind, elems.value)) else Err(elems.error);
      assert r == EncodeBuiltin(v, incl, excl, opts);
    }
  }

  /** Lines 141-169: the loop over `obj.items()`. */
  method EncodeDictItems(items: Pairs, incl: Value, excl: Value, opts: Options) returns (r: Outcome<Pairs>)
    ensures r == EncodeDict(items, incl, excl, opts)
    decreases PairsSize(items), 1
  {
    var encoded: Pairs := [];
    for i := 0 to |items|
      invariant EncodeDict(items[..i], incl, excl, opts) == Ok(encoded)
    {
      DictStep(items, i, encoded, incl, excl, opts);
      var (key, value) := items[i];
      if Keep(key, value, incl, excl, opts) {
        PairsSizeBound(items, i);
        var next := InsertEntry(encoded, key, value, opts);
        if next.Err? {
          DictErrPropagates(items, i + 1, incl, excl, opts);
          r := Err(next.error);
          assert r == EncodeDict(items, incl, excl, opts);
          return;
        }
        encoded := next.value;
      }
      assert EncodeDict(items[..i + 1], incl, excl, opts) == Ok(encoded);
    }
    assert items[..|items|] == items;
    r := Ok(encoded);
  }

  /** Lines 152-168: encode the key, then the value, then store them. */
  method InsertEntry(encoded: Pairs, key: Value, value: Value, opts: Options) returns (r: Outcome<Pairs>)
    ensures r == EncodeEntry(encoded, key, value, opts)
    decreases Size(key) + Size(value), 0
  {
    var encodedKey := JsonableEncoder(key, Null, Null, opts);
    if encodedKey.Err? {
      r := Err(encodedKey.error);
      assert r == EncodeEntry(encoded, key, value, opts);
      return;
    }
    var encodedValue := JsonableEncoder(value, Null, Null, opts);
    if encodedValue.Err? {
      r := Err(encodedValue.error);
      assert r == EncodeEntry(encoded, key, value, opts);
      return;
    }
    if !Hashable(encodedKey.value) {
      r := Err(TypeError);
      assert r == EncodeEntry(encoded, key, value, opts);
      return;
    }
    r := Ok(Put(encoded, encodedKey.value, encodedValue.value));
    assert r == EncodeEntry(encoded, key, value, opts);
  }

  /** Lines 171-186: the loop over the items of a list, set, frozenset, generator or tuple. */
  method EncodeSeqItems(elems: seq<Value>, incl: Value, excl: Value, opts: Options) returns (r: Outcome<seq<Value>>)
    ensures r == EncodeElems(elems, incl, excl, opts)
    decreases ElemsSize(elems), 1
  {
    var encoded: seq<Value> := [];
    for i := 0 to |elems|
      invariant EncodeElems(elems[..i], incl, excl, opts) == Ok(encoded)
    {
      ElemsStep(elems, i, encoded, incl, excl, opts);
      ElemsSizeBound(elems, i);
      var next := AppendItem(encoded, elems[i], incl, excl, opts);
      if next.Err? {
        ElemsErrPropagates(elems, i + 1, incl, excl, opts);
        r := Err(next.error);
        assert r == EncodeElems(elems, incl, excl, opts);
        return;
      }
      encoded := next.value;
      assert EncodeElems(elems[..i + 1], incl, excl, opts) == Ok(encoded);
    }
    assert elems[..|elems|] == elems;
    r := Ok(encoded);
  }

  /** Lines 172-185: encode one item and append it. */
  method AppendItem(encoded: seq<Value>, item: Value, incl: Value, excl: Value, opts: Options) returns (r: Outcome<seq<Value>>)
    ensures r == EncodeItem(encoded, item, incl, excl, opts)
    decreases Size(item) + 1, 0
  {
    var e := JsonableEncoder(item, incl, excl, opts);
    if e.Err? {
      r := Err(e.error);
      assert r == EncodeItem(encoded, item, incl, excl, opts);
      return;
    }
    r := Ok(encoded + [e.value]);
    assert r == EncodeItem(encoded, item, incl, excl, opts);
  }

  /** Lines 188-217, with the loop over `encoders_by_class_tuples.items()`. */
  method EncodeWithRegistry(v: Value, opts: Options) returns (r: Outcome<Value>)
    requires v.Registered? || v.Callable? || v.Object?
    ensures r == EncodeOther(v, opts)
    decreases Size(v), 1
  {
    var encoder := ExactEncoder(TypeOf(v));
    if encoder.None? {
      encoder := FirstInstanceGroup(v, ClassTuples(EncodersByType));
    }
    assert encoder == RegistryEncoder(v);
    if v.Registered? {
      RegisteredLookup(v.lib, v.subclass);
      r := Apply(encoder.value, v);
    } else {
      UnregisteredLookup(v);
      if v.Callable? {
        r := Ok(Str(v.name));
      } else {
        r := EncodeObjectFallback(v, opts);
      }
    }
  }

  /** Lines 190-192: the loop over the groups, stopping at the first `isinstance` match. */
  method FirstInstanceGroup(v: Value, groups: Groups) returns (r: Option<EncoderId>)
    ensures r == InstanceEncoder(v, groups)
  {
    for i := 0 to |groups|
      invariant forall j :: 0 <= j < i ==> !InstanceOfAny(v, groups[j].1)
    {
      if InstanceOfAny(v, groups[i].1) {
        assert FirstMatch(v, groups, i);
        var k: nat :| FirstMatch(v, groups, k) && groups[k].0 == InstanceEncoder(v, groups).value;
        return Some(groups[i].0);
      }
    }
    return None;
  }

  /** Lines 199-217: `dict(obj)`, else `vars(obj)`, else `repr(obj)`. */
  method EncodeObjectFallback(v: Value, opts: Options) returns (r: Outcome<Value>)
    requires v.Object?
    ensures r == EncodeObject(v, opts)
    decreases Size(v), 0
  {
    assert Size(v) == 2 + HarvestSize(v.asDict) + HarvestSize(v.vars);
    var data: Pairs;
    if v.asDict.Gives? {
      data := v.asDict.data;
    } else if v.vars.Gives? {
      data := v.vars.data;
    } else if v.repr.Some? {
      return Ok(Str(v.repr.value));
    } else {
      return Err(Raised("repr"));
    }
    assert Size(Dict(data)) == 1 + PairsSize(data);
    r := JsonableEncoder(Dict(data), Null, Null, opts);
  }
}
