/**
 * The failsafe of `JsonFormatter.format` (app/opentelemetry_wrapper/instrument_logging.py,
 * lines 143-164): when `jsonable_encoder` raises, the selected data is made JSON-ready by
 * hand, with `repr()` for anything that is not a plain scalar, skipping entries whose
 * `repr()` raises.
 */
module Failsafe {
  import opened Wrappers
  import opened Values

  /** `repr()` as the formatter sees it: a string, or an exception. */
  type Repr = Value -> Outcome<string>

  /** Line 157: `isinstance(v, (int, float, bool, str, type(None)))`. */
  predicate JsonScalar(v: Value)
  {
    v.Int? || v.Float? || v.Bool? || v.Str? || v.Null?
  }

  /** Lines 148-154: a str key is kept; another key becomes its `repr`, or the entry is skipped. */
  function SafeKey(k: Value, repr: Repr): Option<Value>
  {
    if k.Str? then Some(k)
    else match repr(k)
      case Ok(s) => Some(Str(s))
      case Err(_) => None
  }

  /** Lines 156-164: a scalar value is kept; another value becomes its `repr`, or the entry is skipped. */
  function SafeValue(v: Value, repr: Repr): Option<Value>
  {
    if JsonScalar(v) then Some(v)
    else match repr(v)
      case Ok(s) => Some(Str(s))
      case Err(_) => None
  }

  /** Lines 145-164, after visiting `data`: `safe_log_data`. */
  function SafeEntries(data: Pairs, repr: Repr): Pairs
  {
    if data == [] then []
    else
      var acc := SafeEntries(data[..|data| - 1], repr);
      var p := data[|data| - 1];
      match SafeKey(p.0, repr)
      case None => acc
      case Some(k) =>
        match SafeValue(p.1, repr)
        case None => acc
        case Some(v) => Put(acc, k, v)
  }

  /** The loop of lines 145-164. */
  method FailsafeLoop(data: Pairs, repr: Repr) returns (safe: Pairs)
    ensures safe == SafeEntries(data, repr)
  {
    safe := [];
    for i := 0 to |data|
      invariant safe == SafeEntries(data[..i], repr)
    {
      assert data[..i + 1][..i] == data[..i];
      var k := data[i].0;
      var v := data[i].1;
      if !k.Str? {
        var rk := repr(k);
        if rk.Err? {
          continue;
        }
        k := Str(rk.value);
      }
      if JsonScalar(v) {
        safe := Put(safe, k, v);
      } else {
        var rv := repr(v);
        if rv.Err? {
          continue;
        }
        safe := Put(safe, k, Str(rv.value));
      }
    }
    assert data[..|data|] == data;
  }

  /** What the failsafe builds is JSON-ready: a well-formed dict with str keys and scalar values. */
  lemma {:induction false} SafeEntriesJsonReady(data: Pairs, repr: Repr)
    ensures DistinctKeys(SafeEntries(data, repr))
    ensures forall j :: 0 <= j < |SafeEntries(data, repr)| ==>
      SafeEntries(data, repr)[j].0.Str? && JsonScalar(SafeEntries(data, repr)[j].1)
  {
    if data != [] {
      var pre := data[..|data| - 1];
      var p := data[|data| - 1];
      SafeEntriesJsonReady(pre, repr);
      var acc := SafeEntries(pre, repr);
      if SafeKey(p.0, repr).Some? && SafeValue(p.1, repr).Some? {
        var k, v := SafeKey(p.0, repr).value, SafeValue(p.1, repr).value;
        PutFacts(acc, k, v);
        var r := Put(acc, k, v);
        forall j | 0 <= j < |r| ensures r[j].0.Str? && JsonScalar(r[j].1) {
          if j < |acc| {
            assert r[j].0 == acc[j].0;
            if FindKey(acc, k).Some? && j == FindKey(acc, k).value {
              assert r[j].1 == v;
            } else {
              assert r[j] == acc[j];
            }
          }
        }
      }
    }
  }

  /** A record-like dict: distinct str keys. */
  predicate StrKeyed(data: Pairs)
  {
    DistinctKeys(data) && forall i :: 0 <= i < |data| ==> data[i].0.Str?
  }

  /**
   * On a dict with distinct str keys, the failsafe drops exactly the entries whose value's
   * `repr` raises: every other key maps to its value, or to its value's `repr` when the
   * value is not a scalar; and no other key appears.
   */
  lemma {:induction false} SafeEntriesDropsOnlyFailures(data: Pairs, repr: Repr)
    requires StrKeyed(data)
    ensures forall i :: 0 <= i < |data| ==> Get(SafeEntries(data, repr), data[i].0) == SafeValue(data[i].1, repr)
    ensures forall j :: 0 <= j < |SafeEntries(data, repr)| ==> SafeEntries(data, repr)[j].0 in Keys(data)
  {
    if data != [] {
      var n := |data| - 1;
      var pre := data[..n];
      assert StrKeyed(pre);
      SafeEntriesDropsOnlyFailures(pre, repr);
      SafeEntriesJsonReady(pre, repr);
      assert Keys(data) == Keys(pre) + [data[n].0];
      FailsafeStep(data, repr);
    }
  }

  lemma FailsafeStep(data: Pairs, repr: Repr)
    requires StrKeyed(data) && data != []
    requires var pre := data[..|data| - 1];
      DistinctKeys(SafeEntries(pre, repr)) &&
      (forall i :: 0 <= i < |pre| ==> Get(SafeEntries(pre, repr), pre[i].0) == SafeValue(pre[i].1, repr)) &&
      (forall j :: 0 <= j < |SafeEntries(pre, repr)| ==> SafeEntries(pre, repr)[j].0 in Keys(pre))
    ensures forall i :: 0 <= i < |data| ==> Get(SafeEntries(data, repr), data[i].0) == SafeValue(data[i].1, repr)
    ensures forall j :: 0 <= j < |SafeEntries(data, repr)| ==> SafeEntries(data, repr)[j].0 in Keys(data)
  {
    LastKeyFresh(data, repr);
    FailsafeStepGet(data, repr);
    FailsafeStepKeys(data, repr);
  }

  lemma FailsafeStepGet(data: Pairs, repr: Repr)
    requires StrKeyed(data) && data != []
    requires var pre := data[..|data| - 1];
      DistinctKeys(SafeEntries(pre, repr)) &&
      (forall i :: 0 <= i < |pre| ==> Get(SafeEntries(pre, repr), pre[i].0) == SafeValue(pre[i].1, repr)) &&
      FindKey(SafeEntries(pre, repr), data[|data| - 1].0).None?
    ensures forall i :: 0 <= i < |data| ==> Get(SafeEntries(data, repr), data[i].0) == SafeValue(data[i].1, repr)
  {
    var n := |data| - 1;
    var pre := data[..n];
    var k := data[n].0;
    var acc := SafeEntries(pre, repr);
    match SafeValue(data[n].1, repr)
    case None =>
    case Some(v) =>
      PutFacts(acc, k, v);
      forall i | 0 <= i < n ensures Get(Put(acc, k, v), data[i].0) == SafeValue(data[i].1, repr) {
        assert pre[i] == data[i];
        PutOther(acc, k, v, data[i].0);
      }
  }

  lemma FailsafeStepKeys(data: Pairs, repr: Repr)
    requires StrKeyed(data) && data != []
    requires var pre := data[..|data| - 1];
      DistinctKeys(SafeEntries(pre, repr)) &&
      (forall j :: 0 <= j < |SafeEntries(pre, repr)| ==> SafeEntries(pre, repr)[j].0 in Keys(pre)) &&
      FindKey(SafeEntries(pre, repr), data[|data| - 1].0).None?
    ensures forall j :: 0 <= j < |SafeEntries(data, repr)| ==> SafeEntries(data, repr)[j].0 in Keys(data)
  {
    var n := |data| - 1;
    var pre := data[..n];
    assert Keys(data) == Keys(pre) + [data[n].0];
  }

  /** In a dict with distinct keys, the last key is not among the keys kept from the entries before it. */
  lemma LastKeyFresh(data: Pairs, repr: Repr)
    requires DistinctKeys(data) && data != []
    requires var pre := data[..|data| - 1];
      forall j :: 0 <= j < |SafeEntries(pre, repr)| ==> SafeEntries(pre, repr)[j].0 in Keys(pre)
    ensures FindKey(SafeEntries(data[..|data| - 1], repr), data[|data| - 1].0).None?
  {
    var pre := data[..|data| - 1];
    var k := data[|data| - 1].0;
    var acc := SafeEntries(pre, repr);
    forall j | 0 <= j < |acc| ensures !SameKey(acc[j].0, k) {
      var f :| 0 <= f < |pre| && Keys(pre)[f] == acc[j].0;
      assert pre[f] == data[f];
    }
  }

  /** Entry `i` of `data` has its key stringified to `s`, and its value is kept. */
  predicate Survives(data: Pairs, i: int, s: Value, repr: Repr)
  {
    0 <= i < |data| && SafeKey(data[i].0, repr) == Some(s) && SafeValue(data[i].1, repr).Some?
  }

  /** Some entry of `data` has its key stringified to `k`. */
  predicate StringifiedKey(data: Pairs, k: Value, repr: Repr)
  {
    exists i :: 0 <= i < |data| && SafeKey(data[i].0, repr) == Some(k)
  }

  /**
   * Whatever the keys are: every key of the failsafe's dict is the stringified key of some
   * entry; a key holds the value of the last entry that is stringified to it and whose
   * value is kept; a key to which no kept entry is stringified is absent. So an entry whose
   * key's `repr` raises adds nothing, and a str key `'1'` and a key `1` whose `repr` is
   * `'1'` compete for one key, the later one winning.
   */
  lemma SafeEntriesByKey(data: Pairs, repr: Repr)
    ensures forall j :: 0 <= j < |SafeEntries(data, repr)| ==> StringifiedKey(data, SafeEntries(data, repr)[j].0, repr)
    ensures forall i, s :: Survives(data, i, s, repr) && (forall i' :: i < i' < |data| ==> !Survives(data, i', s, repr)) ==>
      Get(SafeEntries(data, repr), s) == SafeValue(data[i].1, repr)
    ensures forall s :: (forall i :: 0 <= i < |data| ==> !Survives(data, i, s, repr)) ==>
      Get(SafeEntries(data, repr), s) == None
  {
    SafeEntriesKeysFrom(data, repr);
    SafeEntriesLastWins(data, repr);
    SafeEntriesAbsent(data, repr);
  }

  lemma {:induction false} SafeEntriesKeysFrom(data: Pairs, repr: Repr)
    ensures forall j :: 0 <= j < |SafeEntries(data, repr)| ==> StringifiedKey(data, SafeEntries(data, repr)[j].0, repr)
  {
    if data != [] {
      var n := |data| - 1;
      var pre := data[..n];
      SafeEntriesKeysFrom(pre, repr);
      var acc := SafeEntries(pre, repr);
      var r := SafeEntries(data, repr);
      forall j | 0 <= j < |r| ensures StringifiedKey(data, r[j].0, repr) {
        if SafeKey(data[n].0, repr).Some? && SafeValue(data[n].1, repr).Some? {
          var k, v := SafeKey(data[n].0, repr).value, SafeValue(data[n].1, repr).value;
          PutKeys(acc, k, v);
          assert r[j].0 == Keys(r)[j];
          if j < |acc| {
            assert r[j].0 == acc[j].0;
            KeyFromPrefix(data, acc[j].0, repr);
          } else {
            assert SafeKey(data[n].0, repr) == Some(r[j].0);
          }
        } else {
          KeyFromPrefix(data, acc[j].0, repr);
        }
      }
    }
  }

  lemma KeyFromPrefix(data: Pairs, k: Value, repr: Repr)
    requires data != [] && StringifiedKey(data[..|data| - 1], k, repr)
    ensures StringifiedKey(data, k, repr)
  {
    var pre := data[..|data| - 1];
    var i :| 0 <= i < |pre| && SafeKey(pre[i].0, repr) == Some(k);
    assert pre[i] == data[i];
  }

  /** One step of `SafeEntriesLastWins`, for one entry and one key. */
  lemma LastWinsAt(data: Pairs, repr: Repr, i: nat, s: Value)
    requires data != [] && DistinctKeys(SafeEntries(data[..|data| - 1], repr))
    requires Survives(data, i, s, repr) && forall i' :: i < i' < |data| ==> !Survives(data, i', s, repr)
    requires i < |data| - 1 ==> Get(SafeEntries(data[..|data| - 1], repr), s) == SafeValue(data[i].1, repr)
    ensures Get(SafeEntries(data, repr), s) == SafeValue(data[i].1, repr)
  {
    var n := |data| - 1;
    var acc := SafeEntries(data[..n], repr);
    if i == n {
      PutFacts(acc, s, SafeValue(data[n].1, repr).value);
    } else {
      assert !Survives(data, n, s, repr);
      if SafeKey(data[n].0, repr).Some? && SafeValue(data[n].1, repr).Some? {
        PutOther(acc, SafeKey(data[n].0, repr).value, SafeValue(data[n].1, repr).value, s);
      }
    }
  }

  lemma {:induction false} SafeEntriesLastWins(data: Pairs, repr: Repr)
    ensures forall i, s :: Survives(data, i, s, repr) && (forall i' :: i < i' < |data| ==> !Survives(data, i', s, repr)) ==>
      Get(SafeEntries(data, repr), s) == SafeValue(data[i].1, repr)
  {
    if data != [] {
      var n := |data| - 1;
      var pre := data[..n];
      SafeEntriesLastWins(pre, repr);
      SafeEntriesJsonReady(pre, repr);
      forall i, s | Survives(data, i, s, repr) && (forall i' :: i < i' < |data| ==> !Survives(data, i', s, repr))
        ensures Get(SafeEntries(data, repr), s) == SafeValue(data[i].1, repr)
      {
        if i < n {
          assert pre[i] == data[i];
          assert Survives(pre, i, s, repr);
          forall i' | i < i' < |pre| ensures !Survives(pre, i', s, repr) {
            assert pre[i'] == data[i'];
            assert !Survives(data, i', s, repr);
          }
        }
        LastWinsAt(data, repr, i, s);
      }
    }
  }

  lemma {:induction false} SafeEntriesAbsent(data: Pairs, repr: Repr)
    ensures forall s :: (forall i :: 0 <= i < |data| ==> !Survives(data, i, s, repr)) ==>
      Get(SafeEntries(data, repr), s) == None
  {
    if data != [] {
      var n := |data| - 1;
      var pre := data[..n];
      SafeEntriesAbsent(pre, repr);
      SafeEntriesJsonReady(pre, repr);
      var acc := SafeEntries(pre, repr);
      forall s | forall i :: 0 <= i < |data| ==> !Survives(data, i, s, repr)
        ensures Get(SafeEntries(data, repr), s) == None
      {
        forall i | 0 <= i < |pre| ensures !Survives(pre, i, s, repr) {
          assert pre[i] == data[i];
          assert !Survives(data, i, s, repr);
        }
        assert !Survives(data, n, s, repr);
        if SafeKey(data[n].0, repr).Some? && SafeValue(data[n].1, repr).Some? {
          PutOther(acc, SafeKey(data[n].0, repr).value, SafeValue(data[n].1, repr).value, s);
        }
      }
    }
  }

  /** A dict of distinct str keys and scalar values goes through the failsafe unchanged. */
  lemma {:induction false} SafeEntriesIdentity(data: Pairs, repr: Repr)
    requires StrKeyed(data)
    requires forall i :: 0 <= i < |data| ==> JsonScalar(data[i].1)
    ensures SafeEntries(data, repr) == data
  {
    if data != [] {
      var n := |data| - 1;
      assert StrKeyed(data[..n]);
      SafeEntriesIdentity(data[..n], repr);
      PutNewKey(data, n);
      assert data[..n + 1] == data;
    }
  }
}
