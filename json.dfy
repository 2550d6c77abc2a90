/** `json.loads` and `json.dumps` as the merging code uses them. The JSON grammar
    itself is not modelled: a codec is a pair of functions supplied by the caller. */
module Json {
  import opened PyValue

  /** `parse(s)` is `json.loads(s)` (None when it raises), `dumps(v)` is `json.dumps(v)`. */
  datatype Codec = Codec(parse: string -> Option<Value>, dumps: Value -> string)
  {
    /** A parsed value is never bigger than its text. Every JSON text spends at
        least one character per value node and one per character of a string, so
        `json.loads` meets this; it is what makes the string case of smart_merge
        terminate. */
    ghost predicate Valid() {
      forall s :: parse(s).Some? ==> Size(parse(s).value) <= |s|
    }
  }

  /** `json.loads(v)`: a TypeError for anything but a string, a JSONDecodeError for
      text that does not parse. */
  function Loads(json: Codec, v: Value): (r: Result<Value>)
    ensures r.Ok? <==> v.Str? && json.parse(v.s).Some?
    ensures r.Err? && !v.Str? ==> r.error == TypeError
  {
    if !v.Str? then Err(TypeError)
    else match json.parse(v.s)
      case None => Err(JsonDecodeError)
      case Some(x) => Ok(x)
  }

  /** `json.dumps(v)` as a Python string. */
  function Dumps(json: Codec, v: Value): (r: Value)
    ensures r.Str?
  {
    Str(json.dumps(v))
  }

  /** What `json.loads` yields is smaller than the string it came from. */
  lemma LoadsShrinks(json: Codec, v: Value)
    requires json.Valid() && Loads(json, v).Ok?
    ensures Size(Loads(json, v).value) < Size(v)
  {
  }
}
