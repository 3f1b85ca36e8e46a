/**
 * The universe of Python values that the encoder and the log formatter see.
 *
 * Python decides what a value is by `type(obj)`, `isinstance` and duck typing; the
 * model replaces these with a closed set of constructors (one per kind of object the
 * encoder distinguishes) and an explicit class table (`TypeOf`, `IsInstance`).
 */
module Values {
  import opened Wrappers

  /** The Python exceptions that the modelled code can raise or let through. */
  datatype Exception =
    | TypeError            // unhashable key, object not iterable, item assignment into a str, ...
    | ValueError           // bad literal for int(..., 16), conflicting handler destinations
    | AssertionError       // a failed `assert`
    | AttributeError       // a method called on an object that does not have it
    | UnicodeDecodeError   // bytes.decode() on ill-formed UTF-8
    | Raised(origin: string)  // raised by code the model only sees as an outcome (custom encoder, repr, ...)

  type Outcome<T> = Result<T, Exception>

  type Byte = b: int | 0 <= b < 256

  /** A Python float, kept as an opaque token (no arithmetic on floats is modelled). */
  datatype FloatToken =
    | Opaque(id: nat)
    | DecimalFloat(negative: bool, coefficient: nat, exponent: int)  // float(Decimal) with exponent < 0

  /** The iterable containers that `jsonable_encoder` turns into lists. */
  datatype SeqKind = ListKind | TupleKind | SetKind | FrozenSetKind | GeneratorKind

  /** The exponent field of `Decimal.as_tuple()`: an int, or a letter for the special values. */
  datatype DecimalExponent = Finite(exp: int) | NaN | SignalingNaN | Infinity

  /** Standard-library objects that only the type registry knows how to encode. */
  datatype LibraryValue =
    | Bytes(data: seq<Byte>)
    | Date(year: nat, month: nat, day: nat)
    | DateTime(isoDateTime: string)         // datetime.isoformat(), not modelled further
    | Time(isoTime: string)                 // time.isoformat(), not modelled further
    | TimeDelta(totalSeconds: FloatToken)   // timedelta.total_seconds()
    | Decimal(negative: bool, coefficient: nat, exponent: DecimalExponent)
    | Deque(items: seq<Value>)
    | IPv4Address(v4Address: string)
    | IPv4Interface(v4Interface: string)
    | IPv4Network(v4Network: string)
    | IPv6Address(v6Address: string)
    | IPv6Interface(v6Interface: string)
    | IPv6Network(v6Network: string)
    | Pattern(pattern: string)              // re.Pattern.pattern
    | Uuid(uuid: string)                    // str(UUID)

  /**
   * A Python value. A dict is the sequence of its (key, value) pairs in insertion order;
   * a set, frozenset or generator is the sequence of its items in iteration order.
   */
  datatype Value =
    | Null                                   // None
    | Bool(b: bool)
    | Int(i: int)
    | Float(f: FloatToken)
    | Str(s: string)
    | Dict(items: seq<(Value, Value)>)
    | Seq(kind: SeqKind, elems: seq<Value>)
    | Enum(enumClass: string, member: Value)  // an Enum member and its `.value`
    | Path(path: string)                     // a pathlib.Path (a PosixPath) and `str(path)`
    | Dataclass(dataClass: string, fields: seq<(string, Value)>)
    | Registered(lib: LibraryValue, subclass: Option<string>)  // exact type, or a user subclass of it
    | Callable(name: string)                 // function, method or coroutine; `CodeInfo(obj).name`
      /**
       * Any other object: what `dict(obj)` and `vars(obj)` do with it, and what
       * `repr(obj)` returns (None if it raises).
       */
    | Object(objClass: string, asDict: Harvest, vars: Harvest, repr: Option<string>)

  /** The outcome of `dict(obj)` or `vars(obj)` on an object: it raises, or it gives a dict. */
  datatype Harvest = Raises | Gives(data: seq<(Value, Value)>)

  type Pairs = seq<(Value, Value)>

  /** Python classes, named as far as the model distinguishes them. */
  datatype PyType =
    | ObjectType | NoneType | BoolType | IntType | FloatType | StrType | DictType
    | ListType | TupleType | SetType | FrozenSetType | GeneratorType
    | EnumType | PurePathType | PathType | PosixPathType | FunctionType
    | BytesType | DateType | DateTimeType | TimeType | TimeDeltaType | DecimalType | DequeType
    | IPv4AddressType | IPv4InterfaceType | IPv4NetworkType
    | IPv6AddressType | IPv6InterfaceType | IPv6NetworkType
    | PatternType | UuidType
    | UserClass(className: string)

  function SeqType(kind: SeqKind): PyType
  {
    match kind
    case ListKind => ListType
    case TupleKind => TupleType
    case SetKind => SetType
    case FrozenSetKind => FrozenSetType
    case GeneratorKind => GeneratorType
  }

  function LibraryType(lib: LibraryValue): PyType
  {
    match lib
    case Bytes(_) => BytesType
    case Date(_, _, _) => DateType
    case DateTime(_) => DateTimeType
    case Time(_) => TimeType
    case TimeDelta(_) => TimeDeltaType
    case Decimal(_, _, _) => DecimalType
    case Deque(_) => DequeType
    case IPv4Address(_) => IPv4AddressType
    case IPv4Interface(_) => IPv4InterfaceType
    case IPv4Network(_) => IPv4NetworkType
    case IPv6Address(_) => IPv6AddressType
    case IPv6Interface(_) => IPv6InterfaceType
    case IPv6Network(_) => IPv6NetworkType
    case Pattern(_) => PatternType
    case Uuid(_) => UuidType
  }

  /** `type(v)`. */
  function TypeOf(v: Value): PyType
  {
    match v
    case Null => NoneType
    case Bool(_) => BoolType
    case Int(_) => IntType
    case Float(_) => FloatType
    case Str(_) => StrType
    case Dict(_) => DictType
    case Seq(kind, _) => SeqType(kind)
    case Enum(c, _) => UserClass(c)
    case Path(_) => PosixPathType
    case Dataclass(c, _) => UserClass(c)
    case Registered(lib, sub) => if sub.Some? then UserClass(sub.value) else LibraryType(lib)
    case Callable(_) => FunctionType
    case Object(c, _, _, _) => UserClass(c)
  }

  /**
   * `isinstance(v, t)`: the exact type, `object`, and the base classes Python gives these
   * values (bool is an int, an Enum member is an Enum, a PosixPath is a Path and a PurePath,
   * a datetime is a date, a user subclass of a library type is an instance of that type).
   */
  predicate IsInstance(v: Value, t: PyType)
  {
    t == ObjectType || t == TypeOf(v) ||
    match v
    case Bool(_) => t == IntType
    case Enum(_, _) => t == EnumType
    case Path(_) => t == PathType || t == PurePathType
    case Registered(lib, _) => t == LibraryType(lib) || (lib.DateTime? && t == DateType)
    case _ => false
  }

  /** Whether `hash(v)` succeeds, i.e. whether `v` can be a dict key or a set element. */
  predicate Hashable(v: Value)
  {
    match v
    case Dict(_) => false
    case Seq(kind, elems) =>
      kind == GeneratorKind ||
      ((kind == TupleKind || kind == FrozenSetKind) && forall i :: 0 <= i < |elems| ==> Hashable(elems[i]))
    case Dataclass(_, _) => false
    case Registered(lib, _) => !lib.Deque?
    case _ => true
  }

  /** The form under which Python compares dict keys: `True == 1` and `False == 0`. */
  function KeyForm(v: Value): Value
  {
    if v.Bool? then Int(if v.b then 1 else 0) else v
  }

  /** Python `==` on the dict keys the model distinguishes. */
  predicate SameKey(a: Value, b: Value)
  {
    KeyForm(a) == KeyForm(b)
  }

  /** The first position of a key equal to `k` in a dict. */
  function FindKey(d: Pairs, k: Value): (r: Option<nat>)
    ensures r.Some? ==> r.value < |d| && SameKey(d[r.value].0, k)
    ensures r.Some? ==> forall j :: 0 <= j < r.value ==> !SameKey(d[j].0, k)
    ensures r.None? ==> forall j :: 0 <= j < |d| ==> !SameKey(d[j].0, k)
  {
    if d == [] then None
    else if SameKey(d[0].0, k) then Some(0)
    else match FindKey(d[1..], k)
      case None => None
      case Some(j) => Some(j + 1)
  }

  /** `d.get(k)`. */
  function Get(d: Pairs, k: Value): Option<Value>
  {
    match FindKey(d, k)
    case None => None
    case Some(i) => Some(d[i].1)
  }

  /**
   * `d[k] = v`: an existing equal key keeps its position (and its original key object)
   * and takes the new value; a new key is appended.
   */
  function Put(d: Pairs, k: Value, v: Value): Pairs
  {
    match FindKey(d, k)
    case Some(i) => d[i := (d[i].0, v)]
    case None => d + [(k, v)]
  }

  /** A well-formed dict: no two keys are equal. */
  predicate DistinctKeys(d: Pairs)
  {
    forall i, j :: 0 <= i < j < |d| ==> !SameKey(d[i].0, d[j].0)
  }

  /** In a well-formed dict, each key is new to the entries before it, so `d[k] = v` appends. */
  lemma PutNewKey(d: Pairs, n: nat)
    requires DistinctKeys(d) && n < |d|
    ensures Put(d[..n], d[n].0, d[n].1) == d[..n + 1]
  {
    var pre := d[..n];
    forall j | 0 <= j < n ensures !SameKey(pre[j].0, d[n].0) {
      assert pre[j] == d[j];
    }
    assert FindKey(pre, d[n].0).None?;
    assert pre + [d[n]] == d[..n + 1];
  }

  /** FindKey finds the first key equal to `k`, wherever it is. */
  lemma FindKeyFirst(d: Pairs, k: Value, j: nat)
    requires j < |d| && SameKey(d[j].0, k)
    requires forall i :: 0 <= i < j ==> !SameKey(d[i].0, k)
    ensures FindKey(d, k) == Some(j)
  {
  }

  /**
   * `d[k] = v` on a well-formed dict: the result is well formed, the old keys stay in
   * place, `k` is appended only when it is new, and `k` now maps to `v`.
   */
  lemma PutFacts(d: Pairs, k: Value, v: Value)
    requires DistinctKeys(d)
    ensures DistinctKeys(Put(d, k, v))
    ensures |Put(d, k, v)| == if FindKey(d, k).Some? then |d| else |d| + 1
    ensures forall i :: 0 <= i < |d| ==> Put(d, k, v)[i].0 == d[i].0
    ensures FindKey(d, k).None? ==> Put(d, k, v)[|d|] == (k, v)
    ensures Get(Put(d, k, v), k) == Some(v)
  {
    var r := Put(d, k, v);
    match FindKey(d, k)
    case Some(i) =>
      assert forall j :: 0 <= j < |r| ==> r[j].0 == d[j].0;
      FindKeyFirst(r, k, i);
    case None =>
      assert r == d + [(k, v)];
      assert forall j :: 0 <= j < |d| ==> r[j].0 == d[j].0;
      FindKeyFirst(r, k, |d|);
  }

  /** The keys of a dict (or of any list of pairs), in its order. */
  function Keys<K, V>(d: seq<(K, V)>): (r: seq<K>)
    ensures |r| == |d| && forall i :: 0 <= i < |d| ==> r[i] == d[i].0
  {
    seq(|d|, i requires 0 <= i < |d| => d[i].0)
  }

  /** `d[k] = v` keeps the key order, and appends `k` when it is new. */
  lemma PutKeys(d: Pairs, k: Value, v: Value)
    ensures Keys(Put(d, k, v)) == if FindKey(d, k).Some? then Keys(d) else Keys(d) + [k]
  {
    if FindKey(d, k).Some? {
      assert forall j :: 0 <= j < |d| ==> Keys(Put(d, k, v))[j] == Keys(d)[j];
    } else {
      assert forall j :: 0 <= j <= |d| ==> Keys(Put(d, k, v))[j] == (Keys(d) + [k])[j];
    }
  }

  /** Assigning a key the value it already has changes nothing. */
  lemma PutSame(d: Pairs, k: Value, v: Value)
    requires Get(d, k) == Some(v)
    ensures Put(d, k, v) == d
  {
    var i := FindKey(d, k).value;
    assert d[i := (d[i].0, v)] == d;
  }

  /** `d[k] = v` leaves every key not equal to `k` mapped as before. */
  lemma PutOther(d: Pairs, k: Value, v: Value, other: Value)
    requires DistinctKeys(d) && !SameKey(other, k)
    ensures Get(Put(d, k, v), other) == Get(d, other)
  {
    var r := Put(d, k, v);
    PutFacts(d, k, v);
    var f := FindKey(d, other);
    if f.Some? {
      FindKeyFirst(r, other, f.value);
      assert r[f.value] == d[f.value] by {
        if FindKey(d, k).Some? {
          assert FindKey(d, k).value != f.value;
        }
      }
    } else {
      forall j | 0 <= j < |r| ensures !SameKey(r[j].0, other) {
        if j < |d| {
          assert r[j].0 == d[j].0;
        }
      }
      assert FindKey(r, other).None?;
    }
  }

  /** Python truthiness (`bool(v)`), with default truthiness for objects. */
  predicate Truthy(v: Value)
  {
    match v
    case Null => false
    case Bool(b) => b
    case Int(i) => i != 0
    case Str(s) => s != ""
    case Dict(items) => items != []
    case Seq(kind, elems) => kind == GeneratorKind || elems != []
    case Registered(Bytes(data), _) => data != []
    case Registered(Deque(items), _) => items != []
    case Registered(Decimal(_, c, e), _) => !(e.Finite? && c == 0)
    case _ => true
  }

  /** What `for x in v` visits, or None when `v` is not iterable. */
  function Iterate(v: Value): (r: Option<seq<Value>>)
    ensures v.Seq? ==> r == Some(v.elems)
    ensures v.Str? ==> r.Some? && |r.value| == |v.s|
  {
    match v
    case Str(s) => Some(seq(|s|, i requires 0 <= i < |s| => Str([s[i]])))
    case Dict(items) => Some(seq(|items|, i requires 0 <= i < |items| => items[i].0))
    case Seq(_, elems) => Some(elems)
    case Registered(Bytes(data), _) => Some(seq(|data|, i requires 0 <= i < |data| => Int(data[i])))
    case Registered(Deque(items), _) => Some(items)
    case _ => None
  }

  /** A measure that every recursive call of the encoder decreases. */
  function Size(v: Value): (n: nat)
    ensures n >= 1
  {
    match v
    case Dict(items) => 1 + PairsSize(items)
    case Seq(_, elems) => 1 + ElemsSize(elems)
    case Object(_, asDict, vars, _) => 2 + HarvestSize(asDict) + HarvestSize(vars)
    case _ => 1
  }

  function HarvestSize(h: Harvest): nat
  {
    match h
    case Raises => 0
    case Gives(data) => PairsSize(data)
  }

  function PairSize(p: (Value, Value)): nat
  {
    Size(p.0) + Size(p.1) + 1
  }

  function PairsSize(items: Pairs): nat
  {
    if items == [] then 0
    else PairsSize(items[..|items| - 1]) + PairSize(items[|items| - 1])
  }

  function ElemsSize(elems: seq<Value>): nat
  {
    if elems == [] then 0
    else ElemsSize(elems[..|elems| - 1]) + Size(elems[|elems| - 1]) + 1
  }
}
