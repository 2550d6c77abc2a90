/** Python values as the device-merging engine sees them: the scalars, containers
    and the two descriptor classes (`XTDeviceStatusRange`, `XTDeviceFunction`) that
    `XTMergingManager.smart_merge` dispatches on, together with the few dictionary
    operations and exceptions the merging code relies on. */
module PyValue {

  datatype Option<T> = None | Some(value: T)

  /** The Python exceptions the modelled code can raise on malformed input. */
  datatype Failure =
    | KeyError(key: Value)
    | AttributeError(name: string)
    | TypeError
    | JsonDecodeError
    | UnboundLocalError(name: string)

  datatype Result<T> = Ok(value: T) | Err(error: Failure)

  /** `type(x)`: the exact runtime type of a value. */
  datatype Kind =
    | NoneType | BoolType | IntType | StrType | ListType | TupleType | SetType | DictType
    | StatusRangeType | FunctionType

  /** A Python value. A dictionary keeps its keys in insertion order (`keys`) beside
      the mapping itself (`vals`); the two agree for every dictionary Python builds
      (see `WellFormed`). `dataType` is the descriptors' `type` attribute. */
  datatype Value =
    | Null
    | Bool(b: bool)
    | Int(i: int)
    | Str(s: string)
    | List(items: seq<Value>)
    | Tuple(items: seq<Value>)
    | Set(elems: set<Value>)
    | Dict(keys: seq<Value>, vals: map<Value, Value>)
    | StatusRange(code: Value, dataType: Value, values: Value, dpId: Value)
    | Function(code: Value, dataType: Value, desc: Value, name: Value, values: Value, dpId: Value)
  {
    function KindOf(): Kind {
      match this
      case Null => NoneType
      case Bool(_) => BoolType
      case Int(_) => IntType
      case Str(_) => StrType
      case List(_) => ListType
      case Tuple(_) => TupleType
      case Set(_) => SetType
      case Dict(_, _) => DictType
      case StatusRange(_, _, _, _) => StatusRangeType
      case Function(_, _, _, _, _, _) => FunctionType
    }

    /** A status-range or function descriptor object. */
    predicate IsDescriptor() {
      StatusRange? || Function?
    }
  }

  /** Python truthiness (`bool(x)`); descriptor objects are always true. */
  predicate Truthy(v: Value) {
    match v
    case Null => false
    case Bool(b) => b
    case Int(i) => i != 0
    case Str(s) => s != []
    case List(xs) => xs != []
    case Tuple(xs) => xs != []
    case Set(e) => e != {}
    case Dict(_, m) => m != map[]
    case _ => true
  }

  /** `iter(x)` succeeds. */
  predicate Iterable(v: Value) {
    v.Str? || v.List? || v.Tuple? || v.Set? || v.Dict?
  }

  /** Python's `==`: a bool equals the integer it stands for (`True == 1`), lists
      and tuples compare item by item, dictionaries as mappings whatever their key
      order, descriptor objects field by field; values of other kinds never compare
      equal. Set elements and dictionary keys are compared as the model stores them. */
  predicate PyEq(a: Value, b: Value)
    decreases a
  {
    match a
    case Null => b.Null?
    case Bool(x) => (b.Bool? && b.b == x) || (b.Int? && b.i == (if x then 1 else 0))
    case Int(x) => (b.Int? && b.i == x) || (b.Bool? && x == (if b.b then 1 else 0))
    case Str(x) => b.Str? && b.s == x
    case List(xs) => b.List? && |b.items| == |xs| && forall i | 0 <= i < |xs| :: PyEq(xs[i], b.items[i])
    case Tuple(xs) => b.Tuple? && |b.items| == |xs| && forall i | 0 <= i < |xs| :: PyEq(xs[i], b.items[i])
    case Set(e) => b.Set? && b.elems == e
    case Dict(_, m) => b.Dict? && b.vals.Keys == m.Keys && forall k | k in m :: PyEq(m[k], b.vals[k])
    case StatusRange(c, t, vs, p) =>
      && b.StatusRange?
      && PyEq(c, b.code) && PyEq(t, b.dataType) && PyEq(vs, b.values) && PyEq(p, b.dpId)
    case Function(c, t, ds, n, vs, p) =>
      && b.Function?
      && PyEq(c, b.code) && PyEq(t, b.dataType) && PyEq(ds, b.desc) && PyEq(n, b.name)
      && PyEq(vs, b.values) && PyEq(p, b.dpId)
  }

  /** `x in xs` on a list: some item `==` x. */
  predicate ListHas(xs: seq<Value>, x: Value) {
    exists i | 0 <= i < |xs| :: PyEq(xs[i], x)
  }

  /** Every value equals itself, so a list holds each of its own items. */
  lemma {:induction false} PyEqRefl(v: Value)
    ensures PyEq(v, v)
    decreases v
  {
    match v
    case List(xs) =>
      forall i | 0 <= i < |xs| ensures PyEq(xs[i], xs[i]) { PyEqRefl(xs[i]); }
    case Tuple(xs) =>
      forall i | 0 <= i < |xs| ensures PyEq(xs[i], xs[i]) { PyEqRefl(xs[i]); }
    case Dict(_, m) =>
      forall k | k in m ensures PyEq(m[k], m[k]) { PyEqRefl(m[k]); }
    case StatusRange(c, t, vs, p) =>
      PyEqRefl(c); PyEqRefl(t); PyEqRefl(vs); PyEqRefl(p);
    case Function(c, t, ds, n, vs, p) =>
      PyEqRefl(c); PyEqRefl(t); PyEqRefl(ds); PyEqRefl(n); PyEqRefl(vs); PyEqRefl(p);
    case _ =>
  }

  /** An item of a list is `in` it. */
  lemma ListHasItem(xs: seq<Value>, i: int)
    requires 0 <= i < |xs|
    ensures ListHas(xs, xs[i])
  {
    PyEqRefl(xs[i]);
  }

  predicate Distinct<T(==)>(s: seq<T>) {
    forall i, j | 0 <= i < j < |s| :: s[i] != s[j]
  }

  /** A dictionary as Python has it: every key listed once, in the map and only there. */
  predicate WellFormed(d: Value) {
    d.Dict? && Distinct(d.keys) && (forall k | k in d.keys :: k in d.vals) && (forall k | k in d.vals :: k in d.keys)
  }

  function EmptyDict(): (d: Value)
    ensures WellFormed(d) && d.vals == map[]
  {
    Dict([], map[])
  }

  /** `d.get(k)`: the value stored under `k`, or None. */
  function Get(d: Value, k: Value): Value
    requires d.Dict?
  {
    if k in d.vals then d.vals[k] else Null
  }

  /** `d[k] = v`: an existing key keeps its place, a new key goes to the end. */
  function Put(d: Value, k: Value, v: Value): (r: Value)
    requires d.Dict?
    ensures r.Dict? && r.vals == d.vals[k := v]
    ensures WellFormed(d) ==> WellFormed(r)
    ensures k in d.vals ==> r.keys == d.keys
    ensures k !in d.vals ==> r.keys == d.keys + [k]
  {
    if k in d.vals then Dict(d.keys, d.vals[k := v])
    else Dict(d.keys + [k], d.vals[k := v])
  }

  /** A dictionary literal `{k1: v1, k2: v2}` with distinct keys. */
  function Pair(k1: Value, v1: Value, k2: Value, v2: Value): (d: Value)
    requires k1 != k2
    ensures WellFormed(d) && d.keys == [k1, k2]
    ensures Get(d, k1) == v1 && Get(d, k2) == v2
  {
    Dict([k1, k2], map[k1 := v1, k2 := v2])
  }

  /** A one-entry dictionary literal `{k: v}`. */
  function Single(k: Value, v: Value): (d: Value)
    ensures WellFormed(d) && d.keys == [k] && Get(d, k) == v
  {
    Dict([k], map[k := v])
  }

  /** A measure that shrinks from a container to what it holds, and from a string
      to the value parsed out of it (see `Json.Codec.Valid`). */
  ghost function Size(v: Value): nat
    decreases v, if v.Dict? then |v.vals.Keys| + 1 else 0
  {
    match v
    case Str(s) => |s| + 1
    case Dict(_, vals) => 1 + SizeOver(v, vals.Keys)
    case StatusRange(c, t, vs, p) => 1 + Size(c) + Size(t) + Size(vs) + Size(p)
    case Function(c, t, ds, n, vs, p) => 1 + Size(c) + Size(t) + Size(ds) + Size(n) + Size(vs) + Size(p)
    case _ => 1
  }

  ghost function SizeOver(d: Value, ks: set<Value>): nat
    requires d.Dict? && ks <= d.vals.Keys
    decreases d, |ks|
  {
    if ks == {} then 0 else var k :| k in ks; Size(d.vals[k]) + SizeOver(d, ks - {k})
  }

  lemma {:induction false} SizeOverBound(d: Value, ks: set<Value>, k: Value)
    requires d.Dict? && ks <= d.vals.Keys && k in ks
    ensures Size(d.vals[k]) <= SizeOver(d, ks)
    decreases |ks|
  {
    var k0 :| k0 in ks && SizeOver(d, ks) == Size(d.vals[k0]) + SizeOver(d, ks - {k0});
    if k0 != k {
      SizeOverBound(d, ks - {k0}, k);
      assert SizeOver(d, ks) == Size(d.vals[k0]) + SizeOver(d, ks - {k0});
    } else {
      assert SizeOver(d, ks) == Size(d.vals[k]) + SizeOver(d, ks - {k});
    }
  }

  /** Every value stored in a dictionary is smaller than the dictionary. */
  lemma EntrySmaller(d: Value, k: Value)
    requires d.Dict? && k in d.vals
    ensures Size(d.vals[k]) < Size(d)
  {
    SizeOverBound(d, d.vals.Keys, k);
  }
}
