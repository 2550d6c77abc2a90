/** The dictionary operations the alignment and repair steps apply to entries
    whose type the source does not pin down (`dict[str, Any]`), with the
    exception Python raises when the object is not what the code expects. Every
    key these steps use is a string literal, which is what the operations take. */
module PyOps {
  import opened PyValue

  /** `hash(v)` succeeds: lists, dictionaries and sets have no hash; a tuple has
      one when its items do. */
  predicate Hashable(v: Value)
  {
    match v
    case List(_) => false
    case Dict(_, _) => false
    case Set(_) => false
    case Tuple(xs) => forall i | 0 <= i < |xs| :: Hashable(xs[i])
    case _ => true
  }

  /** `d.get(k)`: only a dictionary has `get`, and the key must be hashable. */
  function DictGet(d: Value, k: Value): (r: Result<Value>)
    ensures r.Ok? <==> d.Dict? && Hashable(k)
    ensures r.Ok? ==> r.value == Get(d, k)
  {
    if !d.Dict? then Err(AttributeError("get"))
    else if !Hashable(k) then Err(TypeError)
    else Ok(Get(d, k))
  }

  /** `d[key]` for a string key: a missing key is a KeyError; anything but a
      dictionary refuses a string subscript with a TypeError. */
  function Subscript(d: Value, key: string): (r: Result<Value>)
    ensures r.Ok? <==> d.Dict? && Str(key) in d.vals
    ensures r.Ok? ==> r.value == d.vals[Str(key)]
  {
    if !d.Dict? then Err(TypeError)
    else if Str(key) !in d.vals then Err(KeyError(Str(key)))
    else Ok(d.vals[Str(key)])
  }

  /** `d[key] = v` for a string key: only a dictionary accepts it. */
  function SetItem(d: Value, key: string, v: Value): (r: Result<Value>)
    ensures r.Ok? <==> d.Dict?
    ensures r.Ok? ==> r.value.Dict? && r.value.vals == d.vals[Str(key) := v]
  {
    if d.Dict? then Ok(Put(d, Str(key), v)) else Err(TypeError)
  }

  /** `t` occurs in `s` as a contiguous piece. */
  predicate IsSubstring(t: string, s: string)
  {
    t <= s || (s != [] && IsSubstring(t, s[1..]))
  }

  /** `key in c` for a string key: a key of a dictionary, an item of a list,
      tuple or set, a substring of a string; other objects are not containers. */
  function ContainsKey(c: Value, key: string): (r: Result<bool>)
    ensures c.Dict? ==> r == Ok(Str(key) in c.vals)
    ensures r.Err? <==> !Iterable(c)
  {
    match c
    case Dict(_, vals) => Ok(Str(key) in vals)
    case List(xs) => Ok(Str(key) in xs)
    case Tuple(xs) => Ok(Str(key) in xs)
    case Set(e) => Ok(Str(key) in e)
    case Str(s) => Ok(IsSubstring(key, s))
    case _ => Err(TypeError)
  }
}
