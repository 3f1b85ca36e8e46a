/**
 * The `keys` argument of `JsonFormatter` (app/opentelemetry_wrapper/instrument_logging.py,
 * lines 72-84) and the field selection it drives in `format` (lines 134-137).
 */
module FormatterKeys {
  import opened Wrappers
  import opened Values
  import opened LogRecords

  /** `d = dict(); d.update(items)`: later equal keys overwrite earlier ones in place. */
  function CopyDict(items: Pairs): (r: Pairs)
  {
    if items == [] then []
    else Put(CopyDict(items[..|items| - 1]), items[|items| - 1].0, items[|items| - 1].1)
  }

  /** A copy is a well-formed dict, and copying a well-formed dict gives it back. */
  lemma {:induction false} CopyDictFacts(items: Pairs)
    ensures DistinctKeys(CopyDict(items))
    ensures DistinctKeys(items) ==> CopyDict(items) == items
  {
    if items != [] {
      var pre := items[..|items| - 1];
      CopyDictFacts(pre);
      PutFacts(CopyDict(pre), items[|items| - 1].0, items[|items| - 1].1);
      if DistinctKeys(items) {
        assert DistinctKeys(pre);
        PutNewKey(items, |items| - 1);
        assert items[..|items|] == items;
      }
    }
  }

  /**
   * Lines 77-80: `for key in keys: assert isinstance(key, str); _keys[key] = key`,
   * after visiting `items`.
   */
  function IdentityKeys(items: seq<Value>): Outcome<Pairs>
  {
    if items == [] then Ok([])
    else
      var acc :- IdentityKeys(items[..|items| - 1]);
      var key := items[|items| - 1];
      if key.Str? then Ok(Put(acc, key, key)) else Err(AssertionError)
  }

  /**
   * The loop succeeds exactly when every item is a str; it then maps each item to itself,
   * and has no other keys; `IdentityKeysOrder` gives their order.
   */
  lemma {:induction false} IdentityKeysFacts(items: seq<Value>)
    ensures IdentityKeys(items).Ok? <==> forall i :: 0 <= i < |items| ==> items[i].Str?
    ensures IdentityKeys(items).Err? ==> IdentityKeys(items).error == AssertionError
    ensures IdentityKeys(items).Ok? ==> IdentityMap(IdentityKeys(items).value, items)
  {
    if items != [] {
      var pre := items[..|items| - 1];
      var key := items[|items| - 1];
      IdentityKeysFacts(pre);
      if IdentityKeys(pre).Ok? && key.Str? {
        var acc := IdentityKeys(pre).value;
        IdentityStep(acc, pre, key);
        assert pre + [key] == items;
      }
    }
  }

  /** A successful loop holds the keys in the order in which they first appear. */
  lemma {:induction false} IdentityKeysOrder(items: seq<Value>)
    requires IdentityKeys(items).Ok?
    ensures Keys(IdentityKeys(items).value) == Deduplicated(items)
  {
    if items != [] {
      var pre := items[..|items| - 1];
      var key := items[|items| - 1];
      IdentityKeysOrder(pre);
      var acc := IdentityKeys(pre).value;
      assert key.Str?;
      PutKeys(acc, key, key);
      forall j | 0 <= j < |acc| ensures acc[j].0.Str? {
        assert Keys(acc)[j] in Deduplicated(pre);
        var i :| 0 <= i < |pre| && pre[i] == Keys(acc)[j];
        IdentityKeysStr(pre, i);
      }
      StrKeyFound(acc, key);
    }
  }

  /** Every item a successful loop visited is a str. */
  lemma {:induction false} IdentityKeysStr(items: seq<Value>, i: nat)
    requires IdentityKeys(items).Ok? && i < |items|
    ensures items[i].Str?
  {
    if i < |items| - 1 {
      assert items[..|items| - 1][i] == items[i];
      IdentityKeysStr(items[..|items| - 1], i);
    }
  }

  /** Among str keys, `d[k]` finds an existing entry exactly when `k` is one of the keys. */
  lemma StrKeyFound(d: Pairs, k: Value)
    requires k.Str? && forall j :: 0 <= j < |d| ==> d[j].0.Str?
    ensures FindKey(d, k).Some? <==> k in Keys(d)
  {
    if k in Keys(d) {
      var j :| 0 <= j < |d| && Keys(d)[j] == k;
      assert SameKey(d[j].0, k);
    }
  }

  /** The items in the order in which they first appear, each once. */
  function Deduplicated(items: seq<Value>): (r: seq<Value>)
    ensures forall x :: x in r <==> x in items
    ensures forall i, j :: 0 <= i < j < |r| ==> r[i] != r[j]
  {
    if items == [] then []
    else
      var pre := Deduplicated(items[..|items| - 1]);
      var x := items[|items| - 1];
      assert items == items[..|items| - 1] + [x];
      if x in pre then pre else pre + [x]
  }

  /** Items that do not repeat are kept as they are, in their order. */
  lemma {:induction false} DeduplicatedDistinct(items: seq<Value>)
    requires forall i, j :: 0 <= i < j < |items| ==> items[i] != items[j]
    ensures Deduplicated(items) == items
  {
    if items != [] {
      var pre := items[..|items| - 1];
      DeduplicatedDistinct(pre);
      assert items[|items| - 1] !in pre;
      assert pre + [items[|items| - 1]] == items;
    }
  }

  /** The loop of lines 77-80, over the items of the iterable. */
  method KeysFromIterable(items: seq<Value>) returns (r: Outcome<Pairs>)
    ensures r == IdentityKeys(items)
  {
    var m: Pairs := [];
    for i := 0 to |items|
      invariant IdentityKeys(items[..i]) == Ok(m)
    {
      assert items[..i + 1][..i] == items[..i];
      var key := items[i];
      if !key.Str? {
        IdentityKeysFacts(items);
        return Err(AssertionError);
      }
      m := Put(m, key, key);
    }
    assert items[..|items|] == items;
    r := Ok(m);
  }

  /** `m` maps every item, and only the items, to itself, each once. */
  predicate IdentityMap(m: Pairs, items: seq<Value>)
  {
    DistinctKeys(m) &&
    (forall j :: 0 <= j < |m| ==> m[j].0 == m[j].1 && m[j].0 in items) &&
    (forall i :: 0 <= i < |items| ==> Get(m, items[i]) == Some(items[i]))
  }

  lemma IdentityStep(m: Pairs, items: seq<Value>, key: Value)
    requires IdentityMap(m, items) && key.Str?
    requires forall i :: 0 <= i < |items| ==> items[i].Str?
    ensures IdentityMap(Put(m, key, key), items + [key])
  {
    var r := Put(m, key, key);
    var all := items + [key];
    PutFacts(m, key, key);
    forall j | 0 <= j < |r| ensures r[j].0 == r[j].1 && r[j].0 in all {
      if j < |m| {
        assert r[j].0 == m[j].0;
        if FindKey(m, key).Some? && j == FindKey(m, key).value {
          assert SameKey(m[j].0, key);
          assert m[j].0 == key by {
            assert m[j].0 in items;
          }
        } else {
          assert r[j] == m[j];
        }
      }
    }
    forall i | 0 <= i < |all| ensures Get(r, all[i]) == Some(all[i]) {
      if i < |items| && !SameKey(all[i], key) {
        PutOther(m, key, key, all[i]);
      } else if i < |items| {
        assert all[i] == key;
      }
    }
  }

  /**
   * Lines 72-84: a dict is copied; any other iterable except a str becomes the identity
   * map of its items (an item that is not a str fails the assert); None stays None;
   * anything else raises TypeError.
   */
  function NormaliseKeys(keys: Value): Outcome<Option<Pairs>>
  {
    if keys.Dict? then Ok(Some(CopyDict(keys.items)))
    else if !keys.Str? && Iterate(keys).Some? then
      var m :- IdentityKeys(Iterate(keys).value);
      Ok(Some(m))
    else if keys.Null? then Ok(None)
    else Err(TypeError)
  }

  /** Whatever `keys` was, the normalised map is a well-formed dict. */
  lemma NormalisedKeysDistinct(keys: Value)
    requires NormaliseKeys(keys).Ok? && NormaliseKeys(keys).value.Some?
    ensures DistinctKeys(NormaliseKeys(keys).value.value)
  {
    if keys.Dict? {
      CopyDictFacts(keys.items);
    } else {
      IdentityKeysFacts(Iterate(keys).value);
    }
  }

  /**
   * The four ways `keys` is read: a well-formed dict is kept as it is, a list or tuple of
   * strs becomes their identity map, None stays None, and a str or a non-iterable value
   * raises TypeError.
   */
  lemma NormaliseKeysCases(keys: Value)
    ensures keys.Dict? && DistinctKeys(keys.items) ==> NormaliseKeys(keys) == Ok(Some(keys.items))
    ensures keys.Seq? && (forall i :: 0 <= i < |keys.elems| ==> keys.elems[i].Str?) ==>
      NormaliseKeys(keys).Ok? && NormaliseKeys(keys).value.Some? &&
      IdentityMap(NormaliseKeys(keys).value.value, keys.elems)
    ensures keys.Seq? && (exists i :: 0 <= i < |keys.elems| && !keys.elems[i].Str?) ==>
      NormaliseKeys(keys) == Err(AssertionError)
    ensures keys.Null? ==> NormaliseKeys(keys) == Ok(None)
    ensures keys.Str? || (Iterate(keys).None? && !keys.Null?) ==> NormaliseKeys(keys) == Err(TypeError)
  {
    if keys.Dict? {
      CopyDictFacts(keys.items);
    } else if keys.Seq? {
      IdentityKeysFacts(keys.elems);
    }
  }

  /**
   * A list or tuple of strs becomes the map of each str to itself, with the keys in the
   * order in which they first appear; without repeats, that is the list's own order.
   */
  lemma ListedKeysInOrder(keys: Value)
    requires keys.Seq? && forall i :: 0 <= i < |keys.elems| ==> keys.elems[i].Str?
    ensures NormaliseKeys(keys).Ok? && NormaliseKeys(keys).value.Some?
    ensures Keys(NormaliseKeys(keys).value.value) == Deduplicated(keys.elems)
    ensures (forall i, j :: 0 <= i < j < |keys.elems| ==> keys.elems[i] != keys.elems[j]) ==>
      NormaliseKeys(keys).value.value == seq(|keys.elems|, i requires 0 <= i < |keys.elems| => (keys.elems[i], keys.elems[i]))
  {
    var items := keys.elems;
    assert Iterate(keys) == Some(items);
    IdentityKeysFacts(items);
    assert NormaliseKeys(keys) == Ok(Some(IdentityKeys(items).value));
    IdentityKeysOrder(items);
    if forall i, j :: 0 <= i < j < |items| ==> items[i] != items[j] {
      IdentityKeysListed(items);
    }
  }

  /** Without repeats, the loop's map lists the items in their order, each mapped to itself. */
  lemma IdentityKeysListed(items: seq<Value>)
    requires IdentityKeys(items).Ok?
    requires forall i, j :: 0 <= i < j < |items| ==> items[i] != items[j]
    ensures IdentityKeys(items).value == seq(|items|, i requires 0 <= i < |items| => (items[i], items[i]))
  {
    var m := IdentityKeys(items).value;
    IdentityKeysFacts(items);
    IdentityKeysOrder(items);
    DeduplicatedDistinct(items);
    assert |m| == |Keys(m)| == |items|;
    forall j | 0 <= j < |m| ensures m[j] == (items[j], items[j]) {
      assert Keys(m)[j] == items[j];
    }
  }

  /**
   * `getattr(record, name, None)`: the attribute, or None when the record has none; a
   * name that is not a str raises TypeError.
   */
  function AttrNamed(d: Pairs, name: Value): Outcome<Value>
  {
    if name.Str? then Ok(Attr(d, name.s)) else Err(TypeError)
  }

  /** Line 135: `{k: getattr(record, v, None) for k, v in self._keys.items()}`, after visiting `m`. */
  function SelectKeys(m: Pairs, d: Pairs): Outcome<Pairs>
  {
    if m == [] then Ok([])
    else
      var acc :- SelectKeys(m[..|m| - 1], d);
      var v :- AttrNamed(d, m[|m| - 1].1);
      Ok(Put(acc, m[|m| - 1].0, v))
  }

  /** Lines 134-137: the data to encode, from the key map if there is one, else the whole record dict. */
  function SelectData(keys: Option<Pairs>, d: Pairs): Outcome<Pairs>
  {
    match keys
    case None => Ok(d)
    case Some(m) => SelectKeys(m, d)
  }

  /**
   * With a key map, the selection has exactly the map's keys in the map's order, each
   * paired with the record attribute named by its value (None when absent); it raises
   * TypeError exactly when some value is not a str.
   */
  lemma {:induction false} SelectKeysFacts(m: Pairs, d: Pairs)
    requires DistinctKeys(m)
    ensures SelectKeys(m, d).Ok? <==> forall i :: 0 <= i < |m| ==> m[i].1.Str?
    ensures SelectKeys(m, d).Err? ==> SelectKeys(m, d).error == TypeError
    ensures SelectKeys(m, d).Ok? ==> (|SelectKeys(m, d).value| == |m| &&
      forall i :: 0 <= i < |m| ==> SelectKeys(m, d).value[i] == (m[i].0, Attr(d, m[i].1.s)))
  {
    if m != [] {
      var pre := m[..|m| - 1];
      assert DistinctKeys(pre);
      SelectKeysFacts(pre, d);
      var acc := SelectKeys(pre, d);
      if acc.Ok? && m[|m| - 1].1.Str? {
        SelectStep(m, d, acc.value);
      }
    }
  }

  lemma SelectStep(m: Pairs, d: Pairs, acc: Pairs)
    requires DistinctKeys(m) && m != [] && m[|m| - 1].1.Str?
    requires |acc| == |m| - 1
    requires forall i :: 0 <= i < |m| - 1 ==> m[i].1.Str? && acc[i] == (m[i].0, Attr(d, m[i].1.s))
    ensures Put(acc, m[|m| - 1].0, Attr(d, m[|m| - 1].1.s)) == acc + [(m[|m| - 1].0, Attr(d, m[|m| - 1].1.s))]
  {
    var k := m[|m| - 1].0;
    forall j | 0 <= j < |acc| ensures !SameKey(acc[j].0, k) {
      assert acc[j].0 == m[j].0;
    }
    assert FindKey(acc, k).None?;
  }

  /** Without a key map, the whole record dict is encoded. */
  lemma SelectAll(d: Pairs)
    ensures SelectData(None, d) == Ok(d)
  {
  }
}
