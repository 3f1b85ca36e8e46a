/**
 * What `jsonable_encoder` promises, and where it breaks the promise at the top of its
 * file ("always return and never error"): precedence of the rules, identity on plain JSON
 * data, dict filtering, element-wise encoding of sequences, the registry and the fallback
 * chain, and inputs that make it raise.
 */
module EncoderProperties {
  import opened Wrappers
  import opened Values
  import opened Registry
  import opened JsonEncoder

  /** `str`, `int` (and `bool`), `float` and `None`: returned unchanged by line 139. */
  predicate Scalar(v: Value)
  {
    v.Null? || v.Bool? || v.Int? || v.Float? || v.Str?
  }

  /** A dict key that survives `sqlalchemy_safe`: a scalar, and not a str starting with `_sa`. */
  predicate PlainKey(k: Value)
  {
    Scalar(k) && !(k.Str? && StartsWithSa(k.s))
  }

  /** Data made only of scalars, lists, and dicts with distinct plain keys. */
  predicate PlainJson(v: Value)
  {
    match v
    case Dict(items) =>
      DistinctKeys(items) &&
      forall i :: 0 <= i < |items| ==> PlainKey(items[i].0) && PlainJson(items[i].1)
    case Seq(kind, elems) =>
      kind == ListKind && forall i :: 0 <= i < |elems| ==> PlainJson(elems[i])
    case _ => Scalar(v)
  }

  /** The keyword arguments of a call with no custom encoders. */
  predicate NoCustom(opts: Options)
  {
    opts.custom == []
  }

  /** With no custom encoders and filters that normalise, the built-in rules decide. */
  lemma BuiltinDecides(v: Value, incl: Value, excl: Value, opts: Options)
    requires NoCustom(opts) && NormaliseFilter(incl).Ok? && NormaliseFilter(excl).Ok?
    ensures Encode(v, incl, excl, opts) == EncodeBuiltin(v, NormaliseFilter(incl).value, NormaliseFilter(excl).value, opts)
  {
  }

  // ---------------------------------------------------------------------------
  // Precedence of the custom encoders (lines 99-106)

  /**
   * The custom encoder registered for exactly `type(v)` wins, over every earlier entry
   * that `v` is only an instance of and over every built-in rule; its result is returned
   * as it is, and include/exclude are not even looked at.
   */
  lemma CustomExactWins(v: Value, incl: Value, excl: Value, opts: Options, i: nat)
    requires i < |opts.custom| && opts.custom[i].key == TypeOf(v)
    requires forall j :: 0 <= j < i ==> opts.custom[j].key != TypeOf(v)
    ensures Encode(v, incl, excl, opts) == opts.custom[i].encode(v)
  {
    var r := FindExact(opts.custom, TypeOf(v));
    assert r.Some?;
    assert r.value == i;
  }

  /**
   * Without an exact entry, the first entry in insertion order whose class `v` is an
   * instance of wins.
   */
  lemma CustomInstanceInOrder(v: Value, incl: Value, excl: Value, opts: Options, i: nat)
    requires forall j :: 0 <= j < |opts.custom| ==> opts.custom[j].key != TypeOf(v)
    requires i < |opts.custom| && IsInstance(v, opts.custom[i].key)
    requires forall j :: 0 <= j < i ==> !IsInstance(v, opts.custom[j].key)
    ensures Encode(v, incl, excl, opts) == opts.custom[i].encode(v)
  {
    var r := FindInstance(opts.custom, v);
    assert r.Some?;
    assert r.value == i;
  }

  /** No custom encoder applies exactly when `v` is an instance of none of their classes. */
  lemma CustomMatchNone(v: Value, custom: seq<CustomEntry>)
    ensures CustomMatch(v, custom).None? <==> forall j :: 0 <= j < |custom| ==> !IsInstance(v, custom[j].key)
  {
    if FindExact(custom, TypeOf(v)).Some? {
      assert IsInstance(v, custom[FindExact(custom, TypeOf(v)).value].key);
    }
  }

  // ---------------------------------------------------------------------------
  // The early rules (lines 132-139)

  /**
   * Without custom encoders, and whatever include and exclude are (as long as they
   * normalise), a dataclass becomes its `asdict`, an Enum member its `.value`, a path its
   * string and a scalar itself. None of these results is encoded again, and the filters play
   * no part in them.
   */
  lemma EarlyRules(v: Value, incl: Value, excl: Value, opts: Options)
    requires NoCustom(opts) && NormaliseFilter(incl).Ok? && NormaliseFilter(excl).Ok?
    ensures v.Dataclass? ==> Encode(v, incl, excl, opts) == Ok(AsDict(v))
    ensures v.Enum? ==> Encode(v, incl, excl, opts) == Ok(v.member)
    ensures v.Path? ==> Encode(v, incl, excl, opts) == Ok(Str(v.path))
    ensures Scalar(v) ==> Encode(v, incl, excl, opts) == Ok(v)
  {
    BuiltinDecides(v, incl, excl, opts);
  }

  /** The value of an Enum member is returned as it is, even when it is not JSON data. */
  lemma EnumValueNotEncoded(opts: Options)
    requires NoCustom(opts)
    ensures Encode(Enum("Color", Seq(TupleKind, [Int(1)])), Null, Null, opts) == Ok(Seq(TupleKind, [Int(1)]))
  {
  }

  // ---------------------------------------------------------------------------
  // Identity on plain JSON data (lines 138-186)

  /**
   * With no custom encoders and `exclude_none` off, plain JSON data (scalars, lists, and
   * dicts with distinct plain keys) encodes to itself.
   */
  lemma {:induction false} PlainIdentity(v: Value, opts: Options)
    requires NoCustom(opts) && !opts.excludeNone && PlainJson(v)
    ensures Encode(v, Null, Null, opts) == Ok(v)
    decreases Size(v), 1, 0
  {
    if v.Dict? {
      PlainDictIdentity(v.items, |v.items|, opts);
      assert v.items[..|v.items|] == v.items;
    } else if v.Seq? {
      PlainElemsIdentity(v.elems, |v.elems|, opts);
      assert v.elems[..|v.elems|] == v.elems;
    }
  }

  lemma {:induction false} PlainDictIdentity(items: Pairs, n: nat, opts: Options)
    requires NoCustom(opts) && !opts.excludeNone && n <= |items|
    requires DistinctKeys(items)
    requires forall i :: 0 <= i < |items| ==> PlainKey(items[i].0) && PlainJson(items[i].1)
    ensures EncodeDict(items[..n], Null, Null, opts) == Ok(items[..n])
    decreases PairsSize(items), 0, n
  {
    if n > 0 {
      var k, x := items[n - 1].0, items[n - 1].1;
      PlainDictIdentity(items, n - 1, opts);
      DictStep(items, n - 1, items[..n - 1], Null, Null, opts);
      PairsSizeBound(items, n - 1);
      PlainIdentity(k, opts);
      PlainIdentity(x, opts);
      assert Keep(k, x, Null, Null, opts);
      assert EncodeEntry(items[..n - 1], k, x, opts) == Ok(Put(items[..n - 1], k, x));
      PutNewKey(items, n - 1);
    }
  }

  lemma {:induction false} PlainElemsIdentity(elems: seq<Value>, n: nat, opts: Options)
    requires NoCustom(opts) && !opts.excludeNone && n <= |elems|
    requires forall i :: 0 <= i < |elems| ==> PlainJson(elems[i])
    ensures EncodeElems(elems[..n], Null, Null, opts) == Ok(elems[..n])
    decreases ElemsSize(elems), 0, n
  {
    if n > 0 {
      PlainElemsIdentity(elems, n - 1, opts);
      ElemsStep(elems, n - 1, elems[..n - 1], Null, Null, opts);
      ElemsSizeBound(elems, n - 1);
      PlainIdentity(elems[n - 1], opts);
      assert elems[..n - 1] + [elems[n - 1]] == elems[..n];
    }
  }

  /** An int key is encoded as itself, so it stays an int and is not turned into a string. */
  lemma IntKeyStaysInt(opts: Options)
    requires NoCustom(opts) && !opts.excludeNone
    ensures Encode(Dict([(Int(7), Str("seven"))]), Null, Null, opts) == Ok(Dict([(Int(7), Str("seven"))]))
  {
    PlainIdentity(Dict([(Int(7), Str("seven"))]), opts);
  }

  // ---------------------------------------------------------------------------
  // Dict filtering (lines 140-169)

  /** The entries of `items` that `Keep` lets through, in their order. */
  function Survivors(items: Pairs, incl: Value, excl: Value, opts: Options): (r: Pairs)
    ensures |r| <= |items|
  {
    if items == [] then []
    else
      var rest := Survivors(items[..|items| - 1], incl, excl, opts);
      var last := items[|items| - 1];
      if Keep(last.0, last.1, incl, excl, opts) then rest + [last] else rest
  }

  /** An entry survives exactly when it is in the dict and `Keep` holds of it. */
  lemma {:induction false} SurvivorsMembers(items: Pairs, incl: Value, excl: Value, opts: Options)
    ensures forall p :: p in Survivors(items, incl, excl, opts) <==> p in items && Keep(p.0, p.1, incl, excl, opts)
  {
    if items != [] {
      var pre := items[..|items| - 1];
      SurvivorsMembers(pre, incl, excl, opts);
      assert items == pre + [items[|items| - 1]];
    }
  }

  /**
   * With no custom encoders and scalar keys and values, the encoded dict is exactly the
   * surviving entries in their original order: keys and values come back unchanged.
   */
  lemma {:induction false} DictFilter(items: Pairs, incl: Value, excl: Value, opts: Options)
    requires NoCustom(opts) && DistinctKeys(items)
    requires forall i :: 0 <= i < |items| ==> Scalar(items[i].0) && Scalar(items[i].1)
    ensures EncodeDict(items, incl, excl, opts) == Ok(Survivors(items, incl, excl, opts))
    decreases |items|
  {
    if items != [] {
      var n := |items| - 1;
      var pre := items[..n];
      var k, x := items[n].0, items[n].1;
      assert DistinctKeys(pre);
      DictFilter(pre, incl, excl, opts);
      DictStep(items, n, Survivors(pre, incl, excl, opts), incl, excl, opts);
      if Keep(k, x, incl, excl, opts) {
        ScalarIdentity(k, opts);
        ScalarIdentity(x, opts);
        SurvivorsFresh(items, incl, excl, opts);
      }
      assert items[..n + 1] == items;
    }
  }

  /**
   * For any dict: include/exclude, `exclude_none` and `sqlalchemy_safe` only choose the
   * entries; the loop over a dict gives what the loop without filters gives over exactly
   * the surviving entries, in their order, raising what that raises.
   */
  lemma {:induction false} DictEncodesSurvivors(items: Pairs, incl: Value, excl: Value, opts: Options)
    ensures EncodeDict(items, incl, excl, opts) == EncodeDict(Survivors(items, incl, excl, opts), Null, Null, opts)
    decreases |items|
  {
    if items != [] {
      var n := |items| - 1;
      DictEncodesSurvivors(items[..n], incl, excl, opts);
      if Keep(items[n].0, items[n].1, incl, excl, opts) {
        KeptStep(items, incl, excl, opts);
      } else {
        DroppedStep(items, incl, excl, opts);
      }
    }
  }

  /** The step of `DictEncodesSurvivors` for a last entry that the filters keep. */
  lemma KeptStep(items: Pairs, incl: Value, excl: Value, opts: Options)
    requires items != [] && Keep(items[|items| - 1].0, items[|items| - 1].1, incl, excl, opts)
    requires var pre := items[..|items| - 1];
      EncodeDict(pre, incl, excl, opts) == EncodeDict(Survivors(pre, incl, excl, opts), Null, Null, opts)
    ensures EncodeDict(items, incl, excl, opts) == EncodeDict(Survivors(items, incl, excl, opts), Null, Null, opts)
  {
    var n := |items| - 1;
    var last := items[n];
    var s := Survivors(items[..n], incl, excl, opts);
    KeepWithoutFilters(last.0, last.1, incl, excl, opts);
    SurvivorsKeep(items, incl, excl, opts);
    var t := s + [last];
    assert t[..|s|] == s;
    if EncodeDict(s, Null, Null, opts).Ok? {
      var acc := EncodeDict(s, Null, Null, opts).value;
      DictStep(items, n, acc, incl, excl, opts);
      DictStep(t, |s|, acc, Null, Null, opts);
      assert t[..|s| + 1] == t && items[..n + 1] == items;
    } else {
      DictErrPropagates(items, n, incl, excl, opts);
      DictErrPropagates(t, |s|, Null, Null, opts);
    }
  }

  /** The step of `DictEncodesSurvivors` for a last entry that the filters drop. */
  lemma DroppedStep(items: Pairs, incl: Value, excl: Value, opts: Options)
    requires items != [] && !Keep(items[|items| - 1].0, items[|items| - 1].1, incl, excl, opts)
    requires var pre := items[..|items| - 1];
      EncodeDict(pre, incl, excl, opts) == EncodeDict(Survivors(pre, incl, excl, opts), Null, Null, opts)
    ensures EncodeDict(items, incl, excl, opts) == EncodeDict(Survivors(items, incl, excl, opts), Null, Null, opts)
  {
    var n := |items| - 1;
    var s := Survivors(items[..n], incl, excl, opts);
    SurvivorsDrop(items, incl, excl, opts);
    if EncodeDict(s, Null, Null, opts).Ok? {
      DictStep(items, n, EncodeDict(s, Null, Null, opts).value, incl, excl, opts);
      assert items[..n + 1] == items;
    } else {
      DictErrPropagates(items, n, incl, excl, opts);
    }
  }

  /** The last entry survives when `Keep` holds of it. */
  lemma SurvivorsKeep(items: Pairs, incl: Value, excl: Value, opts: Options)
    requires items != [] && Keep(items[|items| - 1].0, items[|items| - 1].1, incl, excl, opts)
    ensures Survivors(items, incl, excl, opts) == Survivors(items[..|items| - 1], incl, excl, opts) + [items[|items| - 1]]
  {
  }

  /** The last entry is dropped when `Keep` fails of it. */
  lemma SurvivorsDrop(items: Pairs, incl: Value, excl: Value, opts: Options)
    requires items != [] && !Keep(items[|items| - 1].0, items[|items| - 1].1, incl, excl, opts)
    ensures Survivors(items, incl, excl, opts) == Survivors(items[..|items| - 1], incl, excl, opts)
  {
  }

  /** An entry that the filters keep is kept by the loop without filters too. */
  lemma KeepWithoutFilters(k: Value, v: Value, incl: Value, excl: Value, opts: Options)
    requires Keep(k, v, incl, excl, opts)
    ensures Keep(k, v, Null, Null, opts)
  {
  }

  /** In a well-formed dict, the last key is new to the survivors of the entries before it. */
  lemma SurvivorsFresh(items: Pairs, incl: Value, excl: Value, opts: Options)
    requires DistinctKeys(items) && items != []
    ensures FindKey(Survivors(items[..|items| - 1], incl, excl, opts), items[|items| - 1].0).None?
  {
    var pre := items[..|items| - 1];
    var k := items[|items| - 1].0;
    SurvivorsMembers(pre, incl, excl, opts);
    var s := Survivors(pre, incl, excl, opts);
    forall j | 0 <= j < |s| ensures !SameKey(s[j].0, k) {
      assert s[j] in pre;
    }
  }

  /** Without custom encoders a dict is encoded to a dict, or the encoder raises (lines 140-169). */
  lemma DictStaysDict(items: Pairs, opts: Options)
    requires NoCustom(opts)
    ensures Encode(Dict(items), Null, Null, opts).Ok? ==> Encode(Dict(items), Null, Null, opts).value.Dict?
  {
    BuiltinDecides(Dict(items), Null, Null, opts);
  }

  /** A scalar encodes to itself whatever the options, when there are no custom encoders. */
  lemma ScalarIdentity(v: Value, opts: Options)
    requires NoCustom(opts) && Scalar(v)
    ensures Encode(v, Null, Null, opts) == Ok(v)
  {
  }

  /**
   * Include and exclude decide only which top-level entries survive: two filter pairs that
   * keep the same entries give the same encoded dict, because keys and values are encoded
   * without them (lines 152-167).
   */
  lemma {:induction false} FiltersOnlySelect(items: Pairs, incl: Value, excl: Value, incl': Value, excl': Value, opts: Options)
    requires forall i :: 0 <= i < |items| ==>
      Keep(items[i].0, items[i].1, incl, excl, opts) == Keep(items[i].0, items[i].1, incl', excl', opts)
    ensures EncodeDict(items, incl, excl, opts) == EncodeDict(items, incl', excl', opts)
    decreases |items|
  {
    if items != [] {
      var n := |items| - 1;
      FiltersOnlySelect(items[..n], incl, excl, incl', excl', opts);
      assert items[..n + 1] == items;
      var acc := EncodeDict(items[..n], incl, excl, opts);
      if acc.Ok? {
        DictStep(items, n, acc.value, incl, excl, opts);
        DictStep(items, n, acc.value, incl', excl', opts);
      } else {
        DictErrPropagates(items, n, incl, excl, opts);
        DictErrPropagates(items, n, incl', excl', opts);
      }
    }
  }

  /** An include argument that is neither None, a set, a dict nor iterable makes the call raise (line 108). */
  lemma BadFilterRaises(v: Value, f: Value, excl: Value, opts: Options)
    requires NoCustom(opts) && !f.Null? && !f.Dict? && !(f.Seq? && f.kind == SetKind)
    requires Iterate(f).None? || exists i :: 0 <= i < |Iterate(f).value| && !Hashable(Iterate(f).value[i])
    ensures Encode(v, f, excl, opts) == Err(TypeError)
  {
  }

  // ---------------------------------------------------------------------------
  // Sequences (lines 170-186)

  /** When the list loop succeeds, it holds one encoded item per item visited. */
  lemma {:induction false} ElemsLength(elems: seq<Value>, incl: Value, excl: Value, opts: Options)
    requires EncodeElems(elems, incl, excl, opts).Ok?
    ensures |EncodeElems(elems, incl, excl, opts).value| == |elems|
    decreases |elems|
  {
    if elems != [] {
      var pre := elems[..|elems| - 1];
      assert EncodeElems(pre, incl, excl, opts).Ok?;
      ElemsLength(pre, incl, excl, opts);
    }
  }

  /** When the list loop succeeds, item `i` encoded is at position `i`. */
  lemma {:induction false} ElemsAt(elems: seq<Value>, i: nat, incl: Value, excl: Value, opts: Options)
    requires i < |elems| && EncodeElems(elems, incl, excl, opts).Ok?
    ensures |EncodeElems(elems, incl, excl, opts).value| == |elems|
    ensures Encode(elems[i], incl, excl, opts) == Ok(EncodeElems(elems, incl, excl, opts).value[i])
    decreases |elems|
  {
    ElemsLength(elems, incl, excl, opts);
    var n := |elems| - 1;
    var pre := elems[..n];
    var acc := EncodeElems(pre, incl, excl, opts);
    assert acc.Ok?;
    ElemsLength(pre, incl, excl, opts);
    if i < n {
      ElemsAt(pre, i, incl, excl, opts);
      assert pre[i] == elems[i];
    }
  }

  /** The list loop succeeds when every item encodes. */
  lemma {:induction false} ElemsAllOk(elems: seq<Value>, incl: Value, excl: Value, opts: Options)
    requires forall i :: 0 <= i < |elems| ==> Encode(elems[i], incl, excl, opts).Ok?
    ensures EncodeElems(elems, incl, excl, opts).Ok?
    decreases |elems|
  {
    if elems != [] {
      var pre := elems[..|elems| - 1];
      forall i | 0 <= i < |pre| ensures Encode(pre[i], incl, excl, opts).Ok? {
        assert pre[i] == elems[i];
      }
      ElemsAllOk(pre, incl, excl, opts);
    }
  }

  /** When the list loop raises, it raises what the first item that fails to encode raised. */
  lemma {:induction false} ElemsFirstError(elems: seq<Value>, incl: Value, excl: Value, opts: Options) returns (i: nat)
    requires EncodeElems(elems, incl, excl, opts).Err?
    ensures i < |elems| && Encode(elems[i], incl, excl, opts) == Err(EncodeElems(elems, incl, excl, opts).error)
    ensures forall j :: 0 <= j < i ==> Encode(elems[j], incl, excl, opts).Ok?
    decreases |elems|
  {
    var n := |elems| - 1;
    var pre := elems[..n];
    if EncodeElems(pre, incl, excl, opts).Ok? {
      ElemsFailAtEnd(elems, incl, excl, opts);
      ElemsOkEach(pre, incl, excl, opts);
      forall j | 0 <= j < n ensures Encode(elems[j], incl, excl, opts).Ok? {
        assert pre[j] == elems[j];
      }
      i := n;
    } else {
      ElemsErrPropagates(elems, n, incl, excl, opts);
      i := ElemsFirstError(pre, incl, excl, opts);
      assert pre[i] == elems[i];
      forall j | 0 <= j < i ensures Encode(elems[j], incl, excl, opts).Ok? {
        assert pre[j] == elems[j];
      }
    }
  }

  /** When the list loop gets through all but the last item, it raises what the last item raised. */
  lemma ElemsFailAtEnd(elems: seq<Value>, incl: Value, excl: Value, opts: Options)
    requires elems != [] && EncodeElems(elems[..|elems| - 1], incl, excl, opts).Ok?
    requires EncodeElems(elems, incl, excl, opts).Err?
    ensures Encode(elems[|elems| - 1], incl, excl, opts) == Err(EncodeElems(elems, incl, excl, opts).error)
  {
  }

  /** The list loop succeeds only when every item encodes. */
  lemma ElemsOkEach(elems: seq<Value>, incl: Value, excl: Value, opts: Options)
    requires EncodeElems(elems, incl, excl, opts).Ok?
    ensures forall j :: 0 <= j < |elems| ==> Encode(elems[j], incl, excl, opts).Ok?
  {
    forall j | 0 <= j < |elems| ensures Encode(elems[j], incl, excl, opts).Ok? {
      ElemsAt(elems, j, incl, excl, opts);
    }
  }

  /**
   * A list, tuple, set, frozenset or generator becomes a list of the same length whose
   * items are the items' encodings, with the (normalised) include and exclude passed on.
   * A generator is handled here, so the registry's entry for generators is never used.
   */
  lemma SeqEncoding(kind: SeqKind, elems: seq<Value>, incl: Value, excl: Value, opts: Options, i: nat)
    requires NoCustom(opts) && NormaliseFilter(incl).Ok? && NormaliseFilter(excl).Ok?
    requires i < |elems| && Encode(Seq(kind, elems), incl, excl, opts).Ok?
    ensures var r := Encode(Seq(kind, elems), incl, excl, opts).value;
      r.Seq? && r.kind == ListKind && |r.elems| == |elems| &&
      Encode(elems[i], NormaliseFilter(incl).value, NormaliseFilter(excl).value, opts) == Ok(r.elems[i])
  {
    var incl', excl' := NormaliseFilter(incl).value, NormaliseFilter(excl).value;
    BuiltinDecides(Seq(kind, elems), incl, excl, opts);
    ElemsAt(elems, i, incl', excl', opts);
  }

  // ---------------------------------------------------------------------------
  // The registry (lines 60-85, 188-192)

  /**
   * A standard-library value, or an instance of a user subclass of one, is encoded by the
   * encoder that the two-stage registry lookup finds, and the result is not encoded again.
   */
  lemma RegistryResult(lib: LibraryValue, sub: Option<string>, incl: Value, excl: Value, opts: Options)
    requires NoCustom(opts) && NormaliseFilter(incl).Ok? && NormaliseFilter(excl).Ok?
    ensures RegistryEncoder(Registered(lib, sub)).Some?
    ensures Encode(Registered(lib, sub), incl, excl, opts) == Apply(RegistryEncoder(Registered(lib, sub)).value, Registered(lib, sub))
  {
    RegisteredEncoding(lib, sub, incl, excl, opts);
    RegisteredLookup(lib, sub);
  }

  lemma RegisteredEncoding(lib: LibraryValue, sub: Option<string>, incl: Value, excl: Value, opts: Options)
    requires NoCustom(opts) && NormaliseFilter(incl).Ok? && NormaliseFilter(excl).Ok?
    ensures Encode(Registered(lib, sub), incl, excl, opts) == Apply(ExpectedEncoder(lib), Registered(lib, sub))
  {
    var v := Registered(lib, sub);
    BuiltinDecides(v, incl, excl, opts);
    assert EncodeBuiltin(v, NormaliseFilter(incl).value, NormaliseFilter(excl).value, opts) == EncodeOther(v, opts);
  }

  /** A Decimal becomes an int exactly when its exponent is at least 0, with the Decimal's value. */
  lemma DecimalToInt(negative: bool, coefficient: nat, exponent: int, opts: Options)
    requires NoCustom(opts)
    ensures var r := Encode(Registered(Decimal(negative, coefficient, Finite(exponent)), None), Null, Null, opts);
      r.Ok? && (r.value.Int? <==> exponent >= 0) &&
      (exponent >= 0 ==> r.value.i == (if negative then -1 else 1) * coefficient * Numerals.Pow(10, exponent))
  {
    var lib := Decimal(negative, coefficient, Finite(exponent));
    RegisteredEncoding(lib, None, Null, Null, opts);
    assert Apply(ExpectedEncoder(lib), Registered(lib, None)) == ParseDecimalValue(negative, coefficient, Finite(exponent));
  }

  /**
   * The registry's entries for Enum, frozenset, generators, Path and set are shadowed: the
   * values that reach the registry are instances of none of these classes.
   */
  lemma ShadowedEntries(v: Value)
    requires v.Registered? || v.Callable? || v.Object?
    ensures !IsInstance(v, EnumType) && !IsInstance(v, FrozenSetType) && !IsInstance(v, GeneratorType)
    ensures !IsInstance(v, PathType) && !IsInstance(v, SetType)
  {
  }

  // ---------------------------------------------------------------------------
  // Callables and the fallback chain (lines 195-217)

  /** A function or coroutine is encoded as its name. */
  lemma CallableName(name: string, incl: Value, excl: Value, opts: Options)
    requires NoCustom(opts) && NormaliseFilter(incl).Ok? && NormaliseFilter(excl).Ok?
    ensures Encode(Callable(name), incl, excl, opts) == Ok(Str(name))
  {
    BuiltinDecides(Callable(name), incl, excl, opts);
    assert EncodeBuiltin(Callable(name), NormaliseFilter(incl).value, NormaliseFilter(excl).value, opts) ==
      EncodeOther(Callable(name), opts);
  }

  /**
   * Any other object: `dict(obj)` if it succeeds, else `vars(obj)` if it succeeds, each
   * encoded again as a dict without include/exclude; else `repr(obj)`. A failure of one
   * step never stops the next.
   */
  lemma ObjectFallback(v: Value, incl: Value, excl: Value, opts: Options)
    requires v.Object? && NoCustom(opts) && NormaliseFilter(incl).Ok? && NormaliseFilter(excl).Ok?
    ensures Encode(v, incl, excl, opts) ==
      if v.asDict.Gives? then Encode(Dict(v.asDict.data), Null, Null, opts)
      else if v.vars.Gives? then Encode(Dict(v.vars.data), Null, Null, opts)
      else if v.repr.Some? then Ok(Str(v.repr.value))
      else Err(Raised("repr"))
  {
    BuiltinDecides(v, incl, excl, opts);
    assert EncodeBuiltin(v, NormaliseFilter(incl).value, NormaliseFilter(excl).value, opts) == EncodeOther(v, opts);
    assert EncodeOther(v, opts) == EncodeObject(v, opts);
  }

  // ---------------------------------------------------------------------------
  // Inputs that make the encoder raise

  /**
   * A tuple used as a dict key is encoded into a list, which cannot be a key of the encoded
   * dict: once the entries before it have been encoded, a tuple key that passes the filters
   * and whose key and value both encode makes the call raise TypeError (line 168).
   */
  lemma TupleKeyRaises(items: Pairs, n: nat, es: seq<Value>, opts: Options)
    requires NoCustom(opts) && n < |items| && items[n].0 == Seq(TupleKind, es)
    requires Keep(items[n].0, items[n].1, Null, Null, opts)
    requires EncodeDict(items[..n], Null, Null, opts).Ok?
    requires Encode(items[n].0, Null, Null, opts).Ok? && Encode(items[n].1, Null, Null, opts).Ok?
    ensures Encode(Dict(items), Null, Null, opts) == Err(TypeError)
  {
    var acc := EncodeDict(items[..n], Null, Null, opts).value;
    BuiltinDecides(items[n].0, Null, Null, opts);
    assert Encode(items[n].0, Null, Null, opts).value.Seq?;
    assert EncodeEntry(acc, items[n].0, items[n].1, opts) == Err(TypeError);
    DictStep(items, n, acc, Null, Null, opts);
    DictErrPropagates(items, n + 1, Null, Null, opts);
    BuiltinDecides(Dict(items), Null, Null, opts);
  }


  /** A tuple is encoded as a list. */
  lemma TupleBecomesList(opts: Options)
    requires NoCustom(opts)
    ensures Encode(Seq(TupleKind, [Int(1)]), Null, Null, opts) == Ok(Seq(ListKind, [Int(1)]))
  {
    ScalarIdentity(Int(1), opts);
    ElemsStep([Int(1)], 0, [], Null, Null, opts);
    assert [Int(1)][..1] == [Int(1)];
    assert [] + [Int(1)] == [Int(1)];
    BuiltinDecides(Seq(TupleKind, [Int(1)]), Null, Null, opts);
  }


  /** Bytes that are not UTF-8, or a subclass of bytes holding them, make the call raise UnicodeDecodeError (line 41). */
  lemma InvalidBytesRaise(b: seq<Byte>, sub: Option<string>, incl: Value, excl: Value, opts: Options)
    requires NoCustom(opts) && NormaliseFilter(incl).Ok? && NormaliseFilter(excl).Ok?
    requires Utf8.Decode(b).Err?
    ensures Encode(Registered(Bytes(b), sub), incl, excl, opts) == Err(UnicodeDecodeError)
  {
    RegisteredEncoding(Bytes(b), sub, incl, excl, opts);
    RegisteredEncoderOutcome(Bytes(b), sub);
  }


  /** An object without a dict view, without `vars` and whose `repr` raises makes the call raise. */
  lemma ReprFailureRaises(name: string, opts: Options)
    requires NoCustom(opts)
    ensures Encode(Object(name, Raises, Raises, None), Null, Null, opts) == Err(Raised("repr"))
  {
    ObjectFallback(Object(name, Raises, Raises, None), Null, Null, opts);
  }
}
