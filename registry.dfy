/**
 * The type registry of the encoder: the table `ENCODERS_BY_TYPE`, the grouping
 * `encoders_by_class_tuples` built from it at import time, the two-stage lookup
 * (exact type, then `isinstance` per encoder group) and the `parse_*` helpers.
 */
module Registry {
  import opened Wrappers
  import opened Values
  import Utf8
  import opened Numerals

  /** The encoder functions that the table names. */
  datatype EncoderId =
    | ParseBytes | ParseDatetime | ParseTimedelta | ParseDecimal | ParseEnum
    | ToList     // the builtin `list`
    | ToStr      // the builtin `str`
    | ParsePattern

  type Table = seq<(PyType, EncoderId)>

  /** `ENCODERS_BY_TYPE`, in its insertion order. */
  const EncodersByType: Table := [
    (BytesType, ParseBytes),
    (DateType, ParseDatetime),
    (DateTimeType, ParseDatetime),
    (TimeType, ParseDatetime),
    (TimeDeltaType, ParseTimedelta),
    (DecimalType, ParseDecimal),
    (EnumType, ParseEnum),
    (FrozenSetType, ToList),
    (DequeType, ToList),
    (GeneratorType, ToList),
    (IPv4AddressType, ToStr),
    (IPv4InterfaceType, ToStr),
    (IPv4NetworkType, ToStr),
    (IPv6AddressType, ToStr),
    (IPv6InterfaceType, ToStr),
    (IPv6NetworkType, ToStr),
    (PathType, ToStr),
    (PatternType, ParsePattern),
    (SetType, ToList),
    (UuidType, ToStr)
  ]

  /** A dict from encoder to the tuple of classes it is registered for. */
  type Groups = seq<(EncoderId, seq<PyType>)>

  /** The position of encoder `e` in `groups`, if it has a group yet. */
  function FindGroup(groups: Groups, e: EncoderId): (r: Option<nat>)
    ensures r.Some? ==> r.value < |groups| && groups[r.value].0 == e
    ensures r.None? ==> forall i :: 0 <= i < |groups| ==> groups[i].0 != e
  {
    if groups == [] then None
    else if groups[|groups| - 1].0 == e then Some(|groups| - 1)
    else FindGroup(groups[..|groups| - 1], e)
  }

  /** `encoders_by_class_tuples[e] += (t,)` on a `defaultdict(tuple)`. */
  function AddToGroup(groups: Groups, e: EncoderId, t: PyType): Groups
  {
    match FindGroup(groups, e)
    case Some(i) => groups[i := (e, groups[i].1 + [t])]
    case None => groups + [(e, [t])]
  }

  /** The grouping that the module-level loop leaves behind after visiting `table`. */
  function ClassTuples(table: Table): Groups
  {
    if table == [] then []
    else AddToGroup(ClassTuples(table[..|table| - 1]), table[|table| - 1].1, table[|table| - 1].0)
  }

  /** The module-level loop that builds `encoders_by_class_tuples`. */
  method GroupByEncoder(table: Table) returns (groups: Groups)
    ensures groups == ClassTuples(table)
  {
    groups := [];
    for i := 0 to |table|
      invariant groups == ClassTuples(table[..i])
    {
      var (t, e) := table[i];
      var j := 0;
      while j < |groups| && groups[j].0 != e
        invariant 0 <= j <= |groups|
        invariant forall k :: 0 <= k < j ==> groups[k].0 != e
      {
        j := j + 1;
      }
      DistinctEncoders(table[..i]);
      assert table[..i + 1][..i] == table[..i];
      AddAtFirstMatch(groups, e, t, j);
      if j < |groups| {
        groups := groups[j := (e, groups[j].1 + [t])];
      } else {
        groups := groups + [(e, [t])];
      }
    }
    assert table[..|table|] == table;
  }

  /** With distinct encoders, the group `AddToGroup` extends is the first one whose encoder is `e`. */
  lemma AddAtFirstMatch(groups: Groups, e: EncoderId, t: PyType, j: nat)
    requires forall i, k :: 0 <= i < k < |groups| ==> groups[i].0 != groups[k].0
    requires j <= |groups| && (j < |groups| ==> groups[j].0 == e)
    requires forall k :: 0 <= k < j ==> groups[k].0 != e
    ensures AddToGroup(groups, e, t) ==
      if j < |groups| then groups[j := (e, groups[j].1 + [t])] else groups + [(e, [t])]
  {
  }

  /** The classes registered for encoder `e`, in table order. */
  function TypesFor(table: Table, e: EncoderId): seq<PyType>
  {
    if table == [] then []
    else TypesFor(table[..|table| - 1], e) + (if table[|table| - 1].1 == e then [table[|table| - 1].0] else [])
  }

  /** The position where encoder `e` first appears in the table (|table| when it does not). */
  function FirstUse(table: Table, e: EncoderId): (r: nat)
    ensures r <= |table|
    ensures r < |table| ==> table[r].1 == e
    ensures forall i :: 0 <= i < r ==> table[i].1 != e
  {
    if table == [] then 0
    else if table[0].1 == e then 0
    else FirstUse(table[1..], e) + 1
  }

  /** In the grouping every encoder appears at most once. */
  lemma {:induction false} DistinctEncoders(table: Table)
    ensures forall i, j :: 0 <= i < j < |ClassTuples(table)| ==> ClassTuples(table)[i].0 != ClassTuples(table)[j].0
  {
    if table != [] {
      DistinctEncoders(table[..|table| - 1]);
    }
  }

  /** Adding a class to a group keeps the keys, or appends the new encoder as the last key. */
  lemma AddToGroupEncoders(groups: Groups, e: EncoderId, t: PyType)
    ensures e in Keys(groups) <==> FindGroup(groups, e).Some?
    ensures Keys(AddToGroup(groups, e, t)) ==
      if e in Keys(groups) then Keys(groups) else Keys(groups) + [e]
  {
    var g' := AddToGroup(groups, e, t);
    match FindGroup(groups, e)
    case Some(i) =>
      assert Keys(groups)[i] == e;
      assert Keys(g') == Keys(groups);
    case None =>
      assert Keys(g') == Keys(groups) + [e];
  }

  /** The encoders that have a group are exactly those that the table names. */
  lemma {:induction false} GroupedIffUsed(table: Table)
    ensures forall e :: e in Keys(ClassTuples(table)) <==> FirstUse(table, e) < |table|
  {
    if table != [] {
      var pre, last := table[..|table| - 1], table[|table| - 1];
      assert pre + [last] == table;
      AddToGroupEncoders(ClassTuples(pre), last.1, last.0);
      forall e
        ensures e in Keys(ClassTuples(table)) <==> FirstUse(table, e) < |table|
      {
        GroupedIffUsed(pre);
        FirstUseExtends(pre, last, e);
      }
    }
  }

  /** Groups come in the order in which their encoders first appear in the table. */
  lemma {:induction false} GroupsInFirstUseOrder(table: Table)
    ensures forall i, j :: 0 <= i < j < |Keys(ClassTuples(table))| ==>
      FirstUse(table, Keys(ClassTuples(table))[i]) < FirstUse(table, Keys(ClassTuples(table))[j])
  {
    if table != [] {
      var pre, last := table[..|table| - 1], table[|table| - 1];
      assert pre + [last] == table;
      var ks, ks' := Keys(ClassTuples(pre)), Keys(ClassTuples(table));
      AddToGroupEncoders(ClassTuples(pre), last.1, last.0);
      GroupsInFirstUseOrder(pre);
      forall i, j | 0 <= i < j < |ks'|
        ensures FirstUse(table, ks'[i]) < FirstUse(table, ks'[j])
      {
        OrderStep(pre, last, ks, ks', i, j);
      }
    }
  }

  lemma OrderStep(pre: Table, last: (PyType, EncoderId), ks: seq<EncoderId>, ks': seq<EncoderId>, i: nat, j: nat)
    requires ks == Keys(ClassTuples(pre))
    requires ks' == if last.1 in ks then ks else ks + [last.1]
    requires forall i, j :: 0 <= i < j < |ks| ==> FirstUse(pre, ks[i]) < FirstUse(pre, ks[j])
    requires i < j < |ks'|
    ensures FirstUse(pre + [last], ks'[i]) < FirstUse(pre + [last], ks'[j])
  {
    GroupedIffUsed(pre);
    assert ks[i] in ks;
    FirstUseExtends(pre, last, ks[i]);
    FirstUseExtends(pre, last, ks'[j]);
    if j < |ks| {
      assert ks[j] in ks;
    }
  }

  /** An encoder that the table does not name has no classes. */
  lemma {:induction false} UnusedHasNoTypes(table: Table, e: EncoderId)
    requires FirstUse(table, e) == |table|
    ensures TypesFor(table, e) == []
  {
    if table != [] {
      var pre := table[..|table| - 1];
      FirstUseExtends(pre, table[|table| - 1], e);
      assert pre + [table[|table| - 1]] == table;
      UnusedHasNoTypes(pre, e);
    }
  }

  lemma {:induction false} FirstUseBound(table: Table, k: nat, e: EncoderId)
    requires k < |table| && table[k].1 == e
    ensures FirstUse(table, e) <= k
  {
    if k > 0 && table[0].1 != e {
      FirstUseBound(table[1..], k - 1, e);
    }
  }

  /** Each group holds exactly the classes registered for its encoder, in table order. */
  lemma {:induction false} GroupsHoldTheirTypes(table: Table)
    ensures forall i :: 0 <= i < |ClassTuples(table)| ==>
      ClassTuples(table)[i].1 == TypesFor(table, ClassTuples(table)[i].0)
  {
    if table != [] {
      var pre, last := table[..|table| - 1], table[|table| - 1];
      var g, g' := ClassTuples(pre), ClassTuples(table);
      GroupsHoldTheirTypes(pre);
      DistinctEncoders(pre);
      GroupedIffUsed(pre);
      AddToGroupEncoders(g, last.1, last.0);
      assert g' == AddToGroup(g, last.1, last.0);
      if FindGroup(g, last.1).None? {
        UnusedHasNoTypes(pre, last.1);
      }
      forall i | 0 <= i < |g'|
        ensures g'[i].1 == TypesFor(table, g'[i].0)
      {
        if i < |g| && g[i].0 != last.1 {
          assert g'[i] == g[i];
          assert TypesFor(table, g[i].0) == TypesFor(pre, g[i].0) + [];
        }
      }
    }
  }

  /** Where an encoder first appears once one more entry is added to the table. */
  lemma FirstUseExtends(pre: Table, last: (PyType, EncoderId), e: EncoderId)
    ensures FirstUse(pre + [last], e) ==
      if FirstUse(pre, e) < |pre| then FirstUse(pre, e)
      else if last.1 == e then |pre| else |pre| + 1
  {
    var t := pre + [last];
    assert forall i :: 0 <= i < |pre| ==> t[i] == pre[i];
    if FirstUse(pre, e) < |pre| {
      FirstUseIsFirst(t, FirstUse(pre, e), e);
    } else if last.1 == e {
      FirstUseIsFirst(t, |pre|, e);
    }
  }

  lemma {:induction false} FirstUseIsFirst(table: Table, k: nat, e: EncoderId)
    requires k < |table| && table[k].1 == e
    requires forall i :: 0 <= i < k ==> table[i].1 != e
    ensures FirstUse(table, e) == k
  {
    if k > 0 {
      FirstUseIsFirst(table[1..], k - 1, e);
    }
  }

  /** The classes of a group are exactly the table entries registered for its encoder. */
  lemma {:induction false} TypesForMembers(table: Table, e: EncoderId)
    ensures forall t :: t in TypesFor(table, e) <==> (t, e) in table
  {
    if table != [] {
      var pre := table[..|table| - 1];
      TypesForMembers(pre, e);
      assert table == pre + [table[|table| - 1]];
    }
  }

  /** No entry of the real table is for `object`, functions, user classes or PosixPath. */
  lemma TableClasses()
    ensures forall k :: 0 <= k < |EncodersByType| ==>
      var t := EncodersByType[k].0;
      t != ObjectType && t != FunctionType && !t.UserClass? && t != PosixPathType
  {
  }

  /** Each standard-library class of the real table is registered with that library's encoder. */
  lemma TableEncoders()
    ensures forall k, lib: LibraryValue :: 0 <= k < |EncodersByType| && EncodersByType[k].0 == LibraryType(lib) ==>
      EncodersByType[k].1 == ExpectedEncoder(lib)
    ensures forall k, lib: LibraryValue :: 0 <= k < |EncodersByType| && lib.DateTime? && EncodersByType[k].0 == DateType ==>
      EncodersByType[k].1 == ExpectedEncoder(lib)
  {
    forall k, lib: LibraryValue | 0 <= k < |EncodersByType| && EncodersByType[k].0 == LibraryType(lib)
      ensures EncodersByType[k].1 == ExpectedEncoder(lib)
    {
      EntryEncoder(k, lib);
    }
  }

  lemma EntryEncoder(k: nat, lib: LibraryValue)
    requires k < |EncodersByType| && EncodersByType[k].0 == LibraryType(lib)
    ensures EncodersByType[k].1 == ExpectedEncoder(lib)
  {
    TableLibraryEntries();
    ExpectedEncoderByClass(lib);
  }

  /** The encoder of a standard-library class, by the class alone. */
  function ClassEncoder(t: PyType): Option<EncoderId>
  {
    match t
    case BytesType => Some(ParseBytes)
    case DateType => Some(ParseDatetime)
    case DateTimeType => Some(ParseDatetime)
    case TimeType => Some(ParseDatetime)
    case TimeDeltaType => Some(ParseTimedelta)
    case DecimalType => Some(ParseDecimal)
    case DequeType => Some(ToList)
    case PatternType => Some(ParsePattern)
    case IPv4AddressType => Some(ToStr)
    case IPv4InterfaceType => Some(ToStr)
    case IPv4NetworkType => Some(ToStr)
    case IPv6AddressType => Some(ToStr)
    case IPv6InterfaceType => Some(ToStr)
    case IPv6NetworkType => Some(ToStr)
    case UuidType => Some(ToStr)
    case _ => None
  }

  lemma ExpectedEncoderByClass(lib: LibraryValue)
    ensures ClassEncoder(LibraryType(lib)) == Some(ExpectedEncoder(lib))
  {
  }

  lemma TableLibraryEntries()
    ensures forall k :: 0 <= k < |EncodersByType| && ClassEncoder(EncodersByType[k].0).Some? ==>
      EncodersByType[k].1 == ClassEncoder(EncodersByType[k].0).value
  {
  }

  /** Every standard-library class the model knows has an entry of its own in the table. */
  lemma LibraryTypeRegistered(lib: LibraryValue)
    ensures (LibraryType(lib), ExpectedEncoder(lib)) in EncodersByType
  {
    var t := EncodersByType;
    match lib
    case Bytes(_) => assert t[0] == (BytesType, ParseBytes);
    case Date(_, _, _) => assert t[1] == (DateType, ParseDatetime);
    case DateTime(_) => assert t[2] == (DateTimeType, ParseDatetime);
    case Time(_) => assert t[3] == (TimeType, ParseDatetime);
    case TimeDelta(_) => assert t[4] == (TimeDeltaType, ParseTimedelta);
    case Decimal(_, _, _) => assert t[5] == (DecimalType, ParseDecimal);
    case Deque(_) => assert t[8] == (DequeType, ToList);
    case IPv4Address(_) => assert t[10] == (IPv4AddressType, ToStr);
    case IPv4Interface(_) => assert t[11] == (IPv4InterfaceType, ToStr);
    case IPv4Network(_) => assert t[12] == (IPv4NetworkType, ToStr);
    case IPv6Address(_) => assert t[13] == (IPv6AddressType, ToStr);
    case IPv6Interface(_) => assert t[14] == (IPv6InterfaceType, ToStr);
    case IPv6Network(_) => assert t[15] == (IPv6NetworkType, ToStr);
    case Pattern(_) => assert t[17] == (PatternType, ParsePattern);
    case Uuid(_) => assert t[19] == (UuidType, ToStr);
  }

  /** `ENCODERS_BY_TYPE.get(t)`: the table is a dict, so the entry for `t` (types are distinct). */
  function ExactEncoder(t: PyType): (r: Option<EncoderId>)
    ensures r.Some? <==> exists k :: 0 <= k < |EncodersByType| && EncodersByType[k].0 == t
    ensures r.Some? ==> (t, r.value) in EncodersByType
  {
    Lookup(EncodersByType, t)
  }

  function Lookup(table: Table, t: PyType): (r: Option<EncoderId>)
    ensures r.Some? <==> exists k :: 0 <= k < |table| && table[k].0 == t
    ensures r.Some? ==> (t, r.value) in table
  {
    if table == [] then None
    else if table[0].0 == t then Some(table[0].1)
    else
      var r := Lookup(table[1..], t);
      assert forall k :: 1 <= k < |table| ==> table[k] == table[1..][k - 1];
      r
  }

  /** `isinstance(v, classes)` for a tuple of classes. */
  predicate InstanceOfAny(v: Value, classes: seq<PyType>)
  {
    exists k :: 0 <= k < |classes| && IsInstance(v, classes[k])
  }

  /** `groups[i]` is the first group whose classes `v` is an instance of. */
  predicate FirstMatch(v: Value, groups: Groups, i: nat)
  {
    i < |groups| && InstanceOfAny(v, groups[i].1) &&
    forall j :: 0 <= j < i ==> !InstanceOfAny(v, groups[j].1)
  }

  /** The loop over `encoders_by_class_tuples.items()`: the first group `v` is an instance of. */
  function InstanceEncoder(v: Value, groups: Groups): (r: Option<EncoderId>)
    ensures r.None? <==> forall i :: 0 <= i < |groups| ==> !InstanceOfAny(v, groups[i].1)
    ensures r.Some? ==> exists i: nat :: FirstMatch(v, groups, i) && groups[i].0 == r.value
  {
    if groups == [] then None
    else if InstanceOfAny(v, groups[0].1) then
      assert FirstMatch(v, groups, 0);
      Some(groups[0].0)
    else
      var r := InstanceEncoder(v, groups[1..]);
      assert forall j :: 1 <= j < |groups| ==> groups[j] == groups[1..][j - 1];
      if r.Some? then
        var i: nat :| FirstMatch(v, groups[1..], i) && groups[1..][i].0 == r.value;
        assert FirstMatch(v, groups, i + 1);
        r
      else r
  }

  /** Lines 188-192: the exact type first, then `isinstance` against each group in order. */
  function RegistryEncoder(v: Value): Option<EncoderId>
  {
    LookupIn(EncodersByType, v)
  }

  /** The two-stage lookup against any table. */
  function LookupIn(table: Table, v: Value): Option<EncoderId>
  {
    match Lookup(table, TypeOf(v))
    case Some(e) => Some(e)
    case None => InstanceEncoder(v, ClassTuples(table))
  }

  /** The encoder the registry is meant to pick for a standard-library value. */
  function ExpectedEncoder(lib: LibraryValue): EncoderId
  {
    match lib
    case Bytes(_) => ParseBytes
    case Date(_, _, _) => ParseDatetime
    case DateTime(_) => ParseDatetime
    case Time(_) => ParseDatetime
    case TimeDelta(_) => ParseTimedelta
    case Decimal(_, _, _) => ParseDecimal
    case Deque(_) => ToList
    case Pattern(_) => ParsePattern
    case _ => ToStr
  }

  /** `v` is an instance of a group's classes exactly when it is an instance of a class registered for its encoder. */
  lemma GroupMatch(table: Table, v: Value, i: nat)
    requires i < |ClassTuples(table)|
    ensures InstanceOfAny(v, ClassTuples(table)[i].1) <==>
      exists t :: (t, ClassTuples(table)[i].0) in table && IsInstance(v, t)
  {
    var g := ClassTuples(table)[i];
    GroupsHoldTheirTypes(table);
    TypesForMembers(table, g.0);
    if InstanceOfAny(v, g.1) {
      var k :| 0 <= k < |g.1| && IsInstance(v, g.1[k]);
      assert g.1[k] in TypesFor(table, g.0);
    }
    if exists t :: (t, g.0) in table && IsInstance(v, t) {
      var t :| (t, g.0) in table && IsInstance(v, t);
      assert t in g.1;
    }
  }

  /**
   * When every class of the table that `v` is an instance of names encoder `e`, and one of
   * them is there, both stages of the lookup give `e`.
   */
  lemma LookupFindsOnlyEncoder(table: Table, v: Value, e: EncoderId, t: PyType)
    requires (t, e) in table && IsInstance(v, t)
    requires forall k :: 0 <= k < |table| && IsInstance(v, table[k].0) ==> table[k].1 == e
    ensures LookupIn(table, v) == Some(e)
  {
    if Lookup(table, TypeOf(v)).None? {
      InstanceFindsOnlyEncoder(table, v, e, t);
    }
  }

  /** The `isinstance` stage alone, under the same conditions. */
  lemma InstanceFindsOnlyEncoder(table: Table, v: Value, e: EncoderId, t: PyType)
    requires (t, e) in table && IsInstance(v, t)
    requires forall k :: 0 <= k < |table| && IsInstance(v, table[k].0) ==> table[k].1 == e
    ensures InstanceEncoder(v, ClassTuples(table)) == Some(e)
  {
    var groups := ClassTuples(table);
    var k :| 0 <= k < |table| && table[k] == (t, e);
    FirstUseBound(table, k, e);
    GroupedIffUsed(table);
    var i :| 0 <= i < |groups| && Keys(groups)[i] == e;
    GroupMatch(table, v, i);
    var r := InstanceEncoder(v, groups);
    var j: nat :| FirstMatch(v, groups, j) && groups[j].0 == r.value;
    GroupMatch(table, v, j);
  }

  /** When `v` is an instance of no class in the table, neither stage finds an encoder. */
  lemma LookupFindsNothing(table: Table, v: Value)
    requires forall k :: 0 <= k < |table| ==> !IsInstance(v, table[k].0)
    ensures LookupIn(table, v) == None
  {
    forall i | 0 <= i < |ClassTuples(table)|
      ensures !InstanceOfAny(v, ClassTuples(table)[i].1)
    {
      GroupMatch(table, v, i);
    }
  }

  /**
   * A standard-library value, or a user subclass of one, gets the encoder registered for its
   * class: an exact entry when the class is the library's own, otherwise the first group
   * that `isinstance` matches, which holds only that encoder's classes.
   */
  lemma RegisteredLookup(lib: LibraryValue, sub: Option<string>)
    ensures RegistryEncoder(Registered(lib, sub)) == Some(ExpectedEncoder(lib))
  {
    TableClasses();
    TableEncoders();
    LibraryTypeRegistered(lib);
    LookupFindsOnlyEncoder(EncodersByType, Registered(lib, sub), ExpectedEncoder(lib), LibraryType(lib));
  }

  /** Functions and plain objects are in no class of the table, so the registry gives nothing. */
  lemma UnregisteredLookup(v: Value)
    requires v.Callable? || v.Object?
    ensures RegistryEncoder(v) == None
  {
    TableClasses();
    LookupFindsNothing(EncodersByType, v);
  }

  /** `date.isoformat()`: YYYY-MM-DD with zero padding. */
  function DateIso(year: nat, month: nat, day: nat): string
  {
    PadLeft(ToBase(year, 10), 4, '0') + "-" + PadLeft(ToBase(month, 10), 2, '0') + "-" + PadLeft(ToBase(day, 10), 2, '0')
  }

  /** `parse_decimal`: `int(o)` when the exponent is at least 0, else `float(o)`. */
  function ParseDecimalValue(negative: bool, coefficient: nat, exponent: DecimalExponent): Outcome<Value>
  {
    match exponent
    case Finite(x) =>
      if x >= 0 then Ok(Int((if negative then -1 else 1) * coefficient * Pow(10, x)))
      else Ok(Float(DecimalFloat(negative, coefficient, x)))
      // NaN, sNaN and Infinity have the letters 'n', 'N', 'F' as exponent: `str >= int` raises
    case _ => Err(TypeError)
  }

  /** `str(v)` for the values whose string form the model carries. */
  function StrOf(v: Value): Option<string>
  {
    match v
    case Str(s) => Some(s)
    case Path(p) => Some(p)
    case Registered(IPv4Address(a), _) => Some(a)
    case Registered(IPv4Interface(a), _) => Some(a)
    case Registered(IPv4Network(a), _) => Some(a)
    case Registered(IPv6Address(a), _) => Some(a)
    case Registered(IPv6Interface(a), _) => Some(a)
    case Registered(IPv6Network(a), _) => Some(a)
    case Registered(Uuid(u), _) => Some(u)
    case _ => None
  }

  /** Calling the encoder function `e` on `v`; a method the object lacks raises AttributeError. */
  function Apply(e: EncoderId, v: Value): Outcome<Value>
  {
    match e
    case ParseBytes =>
      if v.Registered? && v.lib.Bytes? then
        var s :- Utf8.Decode(v.lib.data);
        Ok(Str(s))
      else Err(AttributeError)
    case ParseDatetime =>
      if v.Registered? && v.lib.Date? then Ok(Str(DateIso(v.lib.year, v.lib.month, v.lib.day)))
      else if v.Registered? && v.lib.DateTime? then Ok(Str(v.lib.isoDateTime))
      else if v.Registered? && v.lib.Time? then Ok(Str(v.lib.isoTime))
      else Err(AttributeError)
    case ParseTimedelta =>
      if v.Registered? && v.lib.TimeDelta? then Ok(Float(v.lib.totalSeconds)) else Err(AttributeError)
    case ParseDecimal =>
      if v.Registered? && v.lib.Decimal? then ParseDecimalValue(v.lib.negative, v.lib.coefficient, v.lib.exponent)
      else Err(AttributeError)
    case ParseEnum =>
      if v.Enum? then Ok(v.member) else Err(AttributeError)
    case ToList =>
      if Iterate(v).Some? then Ok(Seq(ListKind, Iterate(v).value)) else Err(TypeError)
    case ToStr =>
      // str() of objects outside the registry's str group is not modelled
      if StrOf(v).Some? then Ok(Str(StrOf(v).value)) else Err(Raised("str"))
    case ParsePattern =>
      if v.Registered? && v.lib.Pattern? then Ok(Str(v.lib.pattern)) else Err(AttributeError)
  }

  /** `parse_decimal` gives an int exactly for finite decimals with a non-negative exponent, with the decimal's value. */
  lemma ParseDecimalInt(negative: bool, coefficient: nat, exponent: DecimalExponent)
    ensures ParseDecimalValue(negative, coefficient, exponent).Ok? <==> exponent.Finite?
    ensures ParseDecimalValue(negative, coefficient, exponent).Ok? ==>
      (ParseDecimalValue(negative, coefficient, exponent).value.Int? <==> exponent.exp >= 0)
    ensures exponent.Finite? && exponent.exp >= 0 ==>
      var i := ParseDecimalValue(negative, coefficient, exponent).value.i;
      (if negative then -i else i) == coefficient * Pow(10, exponent.exp)
  {
  }

  /**
   * The encoder the registry picks for a standard-library value succeeds, except on bytes
   * that are not UTF-8, which raise UnicodeDecodeError, and on a NaN or infinite Decimal,
   * which raises TypeError.
   */
  lemma RegisteredEncoderOutcome(lib: LibraryValue, sub: Option<string>)
    ensures var r := Apply(ExpectedEncoder(lib), Registered(lib, sub));
      r.Err? <==> (lib.Bytes? && Utf8.Decode(lib.data).Err?) || (lib.Decimal? && !lib.exponent.Finite?)
    ensures lib.Bytes? && Utf8.Decode(lib.data).Err? ==>
      Apply(ExpectedEncoder(lib), Registered(lib, sub)) == Err(UnicodeDecodeError)
    ensures lib.Decimal? && !lib.exponent.Finite? ==>
      Apply(ExpectedEncoder(lib), Registered(lib, sub)) == Err(TypeError)
    ensures lib.Deque? ==> Apply(ExpectedEncoder(lib), Registered(lib, sub)) == Ok(Seq(ListKind, lib.items))
  {
  }

  /** An ISO date of a valid date is ten characters, YYYY-MM-DD, and reading the fields back gives the date. */
  lemma {:induction false} DateIsoFields(year: nat, month: nat, day: nat)
    requires 1 <= year <= 9999 && 1 <= month <= 12 && 1 <= day <= 31
    ensures var s := DateIso(year, month, day);
      |s| == 10 && s[4] == '-' && s[7] == '-' &&
      IsDigitString(s[..4], 10) && FromBase(s[..4], 10) == year &&
      IsDigitString(s[5..7], 10) && FromBase(s[5..7], 10) == month &&
      IsDigitString(s[8..], 10) && FromBase(s[8..], 10) == day
  {
    assert Pow(10, 2) == 100 && Pow(10, 4) == 10000;
    var y := Padded(year, 4);
    var m := Padded(month, 2);
    var d := Padded(day, 2);
    DashedFields(y, m, d);
  }

  /** Where the three fields of `y-m-d` sit. */
  lemma DashedFields(y: string, m: string, d: string)
    requires |y| == 4 && |m| == 2 && |d| == 2
    ensures var s := y + "-" + m + "-" + d;
      |s| == 10 && s[4] == '-' && s[7] == '-' && s[..4] == y && s[5..7] == m && s[8..] == d
  {
  }

  /** A number below 10^width written in `width` zero-padded digits, and read back. */
  lemma {:induction false} Padded(n: nat, width: nat) returns (s: string)
    requires 1 <= width && n < Pow(10, width)
    ensures s == PadLeft(ToBase(n, 10), width, '0')
    ensures |s| == width && IsDigitString(s, 10) && FromBase(s, 10) == n
  {
    var digits := ToBase(n, 10);
    ToBaseLength(n, 10, width);
    FromToBase(n, 10);
    s := PadLeft(digits, width, '0');
    var z := seq(width - |digits|, _ => '0');
    assert s == z + digits;
    LeadingZeros(z, digits, 10);
  }

  lemma DateIsoExample()
    ensures DateIso(2024, 1, 1) == "2024-01-01"
  {
    assert ToBase(2024, 10) == "2024" by {
      assert ToBase(2, 10) == "2";
      assert ToBase(20, 10) == "20";
      assert ToBase(202, 10) == "202";
    }
    assert ToBase(1, 10) == "1";
  }
}
