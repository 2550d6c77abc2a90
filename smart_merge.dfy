/** `XTMergingManager.smart_merge`: the generic recursive deep merge of two values.

    Python merges in place: dictionaries and lists on both sides are updated, a
    descriptor on the left gets its fields reassigned, a set on the left is
    updated. Here those updates are returned as the post-states `left` and `right`
    of the two arguments, beside the value the call returns (`result`). The
    messages the call appends to `msg_queue` are returned too; `log` says whether
    a queue was supplied. `Merge` is the specification, `Run` the loop-based
    procedure the source runs, proved to compute it. */
module SmartMerge {
  import opened PyValue
  import opened Json

  /** One step of the diagnostic path: `.field`, `[key]`, or the `.@JS@` marker
      for a descent into a string that holds JSON. */
  datatype Step = Field(name: string) | Key(key: Value) | JsonBoundary

  type Path = seq<Step>

  /** The two diagnostics smart_merge emits. */
  datatype Message =
    | KindMismatch(leftKind: Kind, rightKind: Kind, path: Path)
    | Differs(kind: Kind, left: Value, right: Value, path: Path)

  /** What one call returns, and the states it leaves its two arguments in. */
  datatype Outcome = Outcome(result: Value, left: Value, right: Value, msgs: seq<Message>)

  /** Both dictionaries, and the messages so far, while the two key loops run. */
  datatype DictState = DictState(
    lk: seq<Value>, lv: map<Value, Value>, rk: seq<Value>, rv: map<Value, Value>, msgs: seq<Message>)

  /** `for x in src: if x not in dst: dst.append(x)`, where `not in` asks whether
      some item of dst `==` x. */
  function AppendMissing(dst: seq<Value>, src: seq<Value>): seq<Value>
  {
    if src == [] then dst
    else
      var d := AppendMissing(dst, src[..|src| - 1]);
      if ListHas(d, src[|src| - 1]) then d else d + [src[|src| - 1]]
  }

  /** The list rule: the left's missing elements are appended to the right, then
      the (grown) right's missing elements to the left. Returns (left, right). */
  function MergeLists(xs: seq<Value>, ys: seq<Value>): (seq<Value>, seq<Value>)
  {
    var right := AppendMissing(ys, xs);
    (AppendMissing(xs, right), right)
  }

  /** `json.loads(s)` inside smart_merge's try block: a parse error gives None, and
      so does the JSON text `null`. */
  function LoadsOrNull(json: Codec, s: string): Value
  {
    match json.parse(s)
    case None => Null
    case Some(x) => x
  }

  /** Left wins; one message when the two differ and a queue was supplied. */
  function Scalar(l: Value, r: Value, log: bool, path: Path): Outcome
  {
    Outcome(l, l, r, if log && l != r then [Differs(l.KindOf(), l, r, path)] else [])
  }

  function Merge(json: Codec, l: Value, r: Value, log: bool, path: Path): (o: Outcome)
    requires json.Valid()
    ensures l.Null? ==> o == Outcome(r, l, r, [])
    ensures !l.Null? && r.Null? ==> o == Outcome(l, l, r, [])
    ensures !l.Null? && !r.Null? && l.KindOf() != r.KindOf() ==>
              o == Outcome(l, l, r, if log then [KindMismatch(l.KindOf(), r.KindOf(), path)] else [])
    ensures (l.Bool? || l.Int?) && r.KindOf() == l.KindOf() ==>
              o.result == l && o.msgs == (if log && l != r then [Differs(l.KindOf(), l, r, path)] else [])
    ensures !log ==> o.msgs == []
    ensures l.Dict? && r.Dict? ==> o.result == o.left && o.left.Dict? && o.right.Dict?
    decreases Size(l) + Size(r), if l.Dict? then |l.keys| + 1 else 0
  {
    if l.Null? || r.Null? then
      Outcome(if !l.Null? then l else r, l, r, [])
    else if l.KindOf() != r.KindOf() then
      Outcome(l, l, r, if log then [KindMismatch(l.KindOf(), r.KindOf(), path)] else [])
    else match l
      case StatusRange(code, dataType, values, dpId) =>
        var c := Merge(json, code, r.code, log, path + [Field("code")]);
        var t := Merge(json, dataType, r.dataType, log, path + [Field("type")]);
        var v := Merge(json, values, r.values, log, path + [Field("values")]);
        var p := Merge(json, dpId, r.dpId, log, path + [Field("dp_id")]);
        var merged := StatusRange(c.result, t.result, v.result, p.result);
        Outcome(merged, merged, StatusRange(c.right, t.right, v.right, p.right),
                c.msgs + t.msgs + v.msgs + p.msgs)
      case Function(code, dataType, desc, name, values, dpId) =>
        var c := Merge(json, code, r.code, log, path + [Field("code")]);
        var t := Merge(json, dataType, r.dataType, log, path + [Field("type")]);
        var d := Merge(json, desc, r.desc, log, path + [Field("desc")]);
        var n := Merge(json, name, r.name, log, path + [Field("name")]);
        var v := Merge(json, values, r.values, log, path + [Field("values")]);
        var p := Merge(json, dpId, r.dpId, log, path + [Field("dp_id")]);
        var merged := Function(c.result, t.result, d.result, n.result, v.result, p.result);
        Outcome(merged, merged, Function(c.right, t.right, d.right, n.right, v.right, p.right),
                c.msgs + t.msgs + d.msgs + n.msgs + v.msgs + p.msgs)
      case Dict(_, _) =>
        var t := FillPass(SharedPass(l, r, Children(json, l, r, log, path), |l.keys|));
        Outcome(Dict(t.lk, t.lv), Dict(t.lk, t.lv), Dict(t.rk, t.rv), t.msgs)
      case List(xs) =>
        var (left, right) := MergeLists(xs, r.items);
        Outcome(List(left), List(left), List(right), [])
      case Tuple(xs) =>
        // tuple(smart_merge(list(left), list(right))): the lists are copies
        Outcome(Tuple(MergeLists(xs, r.items).0), l, r, [])
      case Set(e) =>
        // left.update(right) updates the left set and returns None
        Outcome(Null, Set(e + r.elems), r, [])
      case Str(a) =>
        var lj := LoadsOrNull(json, a);
        var rj := LoadsOrNull(json, r.s);
        if !lj.Null? && !rj.Null? then
          var o := Merge(json, lj, rj, log, path + [JsonBoundary]);
          Outcome(Dumps(json, o.result), l, r, o.msgs)
        else if !lj.Null? then Outcome(Dumps(json, lj), l, r, [])
        else if !rj.Null? then Outcome(Dumps(json, rj), l, r, [])
        else Scalar(l, r, log, path)
      case _ =>
        Scalar(l, r, log, path)
  }

  /** What smart_merge does under each key the two dictionaries share. The
      source merges them one by one as its loop reaches them; as the merges of
      different keys touch different values, computing them up front is the same. */
  function Children(json: Codec, l: Value, r: Value, log: bool, path: Path): (m: map<Value, Outcome>)
    requires json.Valid() && l.Dict? && r.Dict?
    ensures m.Keys == l.vals.Keys * r.vals.Keys
    ensures !log ==> forall k | k in m :: m[k].msgs == []
    decreases Size(l) + Size(r), 0
  {
    map k | k in l.vals.Keys * r.vals.Keys ::
      (EntrySmaller(l, k); EntrySmaller(r, k); Merge(json, l.vals[k], r.vals[k], log, path + [Key(k)]))
  }

  /** The `for key in left` loop over the first `n` keys of the left dictionary:
      a shared key gets its merged value on both sides, a left-only key is copied
      to the right. Each key is visited once, so the values it reads are the ones
      the two dictionaries held on entry. */
  function SharedPass(l: Value, r: Value, children: map<Value, Outcome>, n: nat): (s: DictState)
    requires l.Dict? && r.Dict? && n <= |l.keys| && l.vals.Keys * r.vals.Keys <= children.Keys
    ensures (forall k | k in children :: children[k].msgs == []) ==> s.msgs == []
  {
    if n == 0 then DictState(l.keys, l.vals, r.keys, r.vals, [])
    else
      var s := SharedPass(l, r, children, n - 1);
      var k := l.keys[n - 1];
      if k !in l.vals then s  // never taken for a well-formed dictionary
      else if k in r.vals then
        var o := children[k];
        s.(lv := s.lv[k := o.result], rv := s.rv[k := o.result], msgs := s.msgs + o.msgs)
      else
        s.(rk := s.rk + [k], rv := s.rv[k := l.vals[k]])
  }

  /** The `for key in right` loop: every key the right has and the left lacks is
      copied to the left. */
  function FillPass(s: DictState): (t: DictState)
    ensures t.rk == s.rk && t.rv == s.rv && t.msgs == s.msgs
  {
    FillUpTo(s, |s.rk|)
  }

  function FillUpTo(s: DictState, n: nat): (t: DictState)
    requires n <= |s.rk|
    ensures t.rk == s.rk && t.rv == s.rv && t.msgs == s.msgs
  {
    if n == 0 then s
    else
      var t := FillUpTo(s, n - 1);
      var k := s.rk[n - 1];
      if k in t.lv || k !in s.rv then t
      else t.(lk := t.lk + [k], lv := t.lv[k := s.rv[k]])
  }

  /** The two list loops of smart_merge. */
  method RunLists(xs: seq<Value>, ys: seq<Value>) returns (left: seq<Value>, right: seq<Value>)
    ensures (left, right) == MergeLists(xs, ys)
  {
    right := ys;
    var i := 0;
    while i < |xs|
      invariant 0 <= i <= |xs|
      invariant right == AppendMissing(ys, xs[..i])
    {
      assert xs[..i + 1][..i] == xs[..i];
      if !ListHas(right, xs[i]) {
        right := right + [xs[i]];
      }
      i := i + 1;
    }
    assert xs[..|xs|] == xs;
    left := xs;
    var j := 0;
    while j < |right|
      invariant 0 <= j <= |right|
      invariant left == AppendMissing(xs, right[..j])
    {
      assert right[..j + 1][..j] == right[..j];
      if !ListHas(left, right[j]) {
        left := left + [right[j]];
      }
      j := j + 1;
    }
    assert right[..|right|] == right;
  }

  /** smart_merge as the source runs it: recursion, and loops over the keys of the
      two dictionaries. */
  method Run(json: Codec, l: Value, r: Value, log: bool, path: Path) returns (o: Outcome)
    requires json.Valid()
    ensures o == Merge(json, l, r, log, path)
    decreases Size(l) + Size(r), if l.Dict? then |l.keys| + 1 else 0
  {
    if l.Null? || r.Null? {
      return Outcome(if !l.Null? then l else r, l, r, []);
    }
    if l.KindOf() != r.KindOf() {
      var msgs := [];
      if log {
        msgs := [KindMismatch(l.KindOf(), r.KindOf(), path)];
      }
      return Outcome(l, l, r, msgs);
    }
    match l
    case StatusRange(code, dataType, values, dpId) => {
      var c := Run(json, code, r.code, log, path + [Field("code")]);
      var t := Run(json, dataType, r.dataType, log, path + [Field("type")]);
      var v := Run(json, values, r.values, log, path + [Field("values")]);
      var p := Run(json, dpId, r.dpId, log, path + [Field("dp_id")]);
      var merged := StatusRange(c.result, t.result, v.result, p.result);
      o := Outcome(merged, merged, StatusRange(c.right, t.right, v.right, p.right),
                   c.msgs + t.msgs + v.msgs + p.msgs);
    }
    case Function(code, dataType, desc, name, values, dpId) => {
      var c := Run(json, code, r.code, log, path + [Field("code")]);
      var t := Run(json, dataType, r.dataType, log, path + [Field("type")]);
      var d := Run(json, desc, r.desc, log, path + [Field("desc")]);
      var n := Run(json, name, r.name, log, path + [Field("name")]);
      var v := Run(json, values, r.values, log, path + [Field("values")]);
      var p := Run(json, dpId, r.dpId, log, path + [Field("dp_id")]);
      var merged := Function(c.result, t.result, d.result, n.result, v.result, p.result);
      o := Outcome(merged, merged, Function(c.right, t.right, d.right, n.right, v.right, p.right),
                   c.msgs + t.msgs + d.msgs + n.msgs + v.msgs + p.msgs);
    }
    case Dict(_, _) => {
      o := RunDict(json, l, r, log, path);
    }
    case List(xs) => {
      var left, right := RunLists(xs, r.items);
      o := Outcome(List(left), List(left), List(right), []);
    }
    case Tuple(xs) => {
      var left, _ := RunLists(xs, r.items);
      o := Outcome(Tuple(left), l, r, []);
    }
    case Set(e) => {
      o := Outcome(Null, Set(e + r.elems), r, []);
    }
    case Str(a) => {
      var lj := LoadsOrNull(json, a);
      var rj := LoadsOrNull(json, r.s);
      if !lj.Null? && !rj.Null? {
        var m := Run(json, lj, rj, log, path + [JsonBoundary]);
        o := Outcome(Dumps(json, m.result), l, r, m.msgs);
      } else if !lj.Null? {
        o := Outcome(Dumps(json, lj), l, r, []);
      } else if !rj.Null? {
        o := Outcome(Dumps(json, rj), l, r, []);
      } else {
        o := Scalar(l, r, log, path);
      }
    }
    case _ => {
      o := Scalar(l, r, log, path);
    }
  }

  /** The dictionary branch of smart_merge: the two key loops. */
  method RunDict(json: Codec, l: Value, r: Value, log: bool, path: Path) returns (o: Outcome)
    requires json.Valid() && l.Dict? && r.Dict?
    ensures var t := FillPass(SharedPass(l, r, Children(json, l, r, log, path), |l.keys|));
            o == Outcome(Dict(t.lk, t.lv), Dict(t.lk, t.lv), Dict(t.rk, t.rv), t.msgs)
    decreases Size(l) + Size(r), |l.keys|
  {
    ghost var children := Children(json, l, r, log, path);
    var lk, lv, rk, rv, msgs := l.keys, l.vals, r.keys, r.vals, [];
    var i := 0;
    while i < |l.keys|
      invariant 0 <= i <= |l.keys|
      invariant DictState(lk, lv, rk, rv, msgs) == SharedPass(l, r, children, i)
    {
      var key := l.keys[i];
      if key in l.vals {
        if key in r.vals {
          EntrySmaller(l, key);
          EntrySmaller(r, key);
          var m := Run(json, l.vals[key], r.vals[key], log, path + [Key(key)]);
          lv := lv[key := m.result];
          rv := rv[key := m.result];
          msgs := msgs + m.msgs;
        } else {
          rk := rk + [key];
          rv := rv[key := l.vals[key]];
        }
      }
      i := i + 1;
    }
    ghost var shared := DictState(lk, lv, rk, rv, msgs);
    var j := 0;
    while j < |rk|
      invariant 0 <= j <= |rk| && rk == shared.rk && rv == shared.rv && msgs == shared.msgs
      invariant DictState(lk, lv, rk, rv, msgs) == FillUpTo(shared, j)
    {
      var key := rk[j];
      if key !in lv && key in rv {
        lk := lk + [key];
        lv := lv[key := rv[key]];
      }
      j := j + 1;
    }
    o := Outcome(Dict(lk, lv), Dict(lk, lv), Dict(rk, rv), msgs);
  }
}
