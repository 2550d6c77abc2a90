/** `XTMergingManager._align_api_usage(device1, device2)`: for every dpId both
    devices' `local_strategy` tables have, a priority chain on the
    `use_open_api` and `property_update` flags picks a side, whose three
    API-usage fields are then copied onto the other side. The chosen side is
    kept in the local variable `prefer`, which a dpId whose flags are all
    truthy does not assign: it reuses the previous dpId's choice, or raises
    UnboundLocalError when there is none yet. */
module ApiUsage {
  import opened PyValue
  import opened PyOps
  import opened Devices
  import MP = MergeProperties

  /** The fields copied together, in the order they are assigned. */
  const Fields: seq<string> := ["use_open_api", "property_update", "status_code"]

  /** The chain: device1 when its `use_open_api` is falsy, else device2 when its
      `use_open_api` is falsy, then the same on `property_update`; None when all
      four flags are truthy. */
  function Chain(useApi1: Value, useApi2: Value, propUpdate1: Value, propUpdate2: Value): Option<int>
  {
    if !Truthy(useApi1) then Some(1)
    else if !Truthy(useApi2) then Some(2)
    else if !Truthy(propUpdate1) then Some(1)
    else if !Truthy(propUpdate2) then Some(2)
    else None
  }

  /** The chain on two entries; reading the flags of anything but a dictionary
      raises. */
  function Decide(e1: Value, e2: Value): Result<Option<int>>
  {
    if !e1.Dict? || !e2.Dict? then Err(AttributeError("get"))
    else Ok(Chain(Get(e1, Str("use_open_api")), Get(e2, Str("use_open_api")),
                  Get(e1, Str("property_update")), Get(e2, Str("property_update"))))
  }

  /** `dst[f] = src[f]` for each of `fields` in turn: the new `dst`, and the
      KeyError of the first field `src` lacks, which stops the copying. */
  function CopyFields(src: Value, dst: Value, fields: seq<string>): (Value, Option<Failure>)
    requires dst.Dict?
    decreases |fields|
  {
    if fields == [] then (dst, None)
    else
      var x := Subscript(src, fields[0]);
      if x.Err? then (dst, Some(x.error))
      else CopyFields(src, Put(dst, Str(fields[0]), x.value), fields[1..])
  }

  /** What one pass leaves: both entries, `prefer`, and the exception. */
  datatype Passed = Passed(left: Value, right: Value, prefer: Option<int>, err: Option<Failure>)

  /** The body at a dpId both tables have, with `prefer` as the previous pass
      left it (None while unassigned). */
  function Pass(e1: Value, e2: Value, prefer: Option<int>): Passed
  {
    var d := Decide(e1, e2);
    if d.Err? then Passed(e1, e2, prefer, Some(d.error))
    else
      var p := if d.value.Some? then d.value else prefer;
      if p.None? then Passed(e1, e2, p, Some(UnboundLocalError("prefer")))
      else if p.value == 1 then
        var (c, err) := CopyFields(e1, e2, Fields);
        Passed(e1, c, p, err)
      else if p.value == 2 then
        var (c, err) := CopyFields(e2, e1, Fields);
        Passed(c, e2, p, err)
      else Passed(e1, e2, p, None)
  }

  /** A loop body: the two entries and `prefer` in, a `Passed` out. */
  type Body = (Value, Value, Option<int>) -> Passed

  /** `prefer` is unassigned, 1 or 2. */
  predicate Chosen(p: Option<int>)
  {
    p == None || p == Some(1) || p == Some(2)
  }

  datatype State = State(m1: map<Value, Value>, m2: map<Value, Value>, prefer: Option<int>, err: Option<Failure>)

  /** One iteration, at `dpId`: nothing happens once a pass has raised or
      when the second table lacks `dpId`. */
  function Next(body: Body, s: State, dpId: Value): (t: State)
    ensures t.m1.Keys == s.m1.Keys && t.m2.Keys == s.m2.Keys
  {
    if s.err.Some? || dpId !in s.m1 || dpId !in s.m2 then s
    else
      var p := body(s.m1[dpId], s.m2[dpId], s.prefer);
      State(s.m1[dpId := p.left], s.m2[dpId := p.right], p.prefer, p.err)
  }

  /** The first `n` iterations of `for dpId in device1.local_strategy`. */
  function AlignUpTo(body: Body, keys: seq<Value>, m1: map<Value, Value>, m2: map<Value, Value>, n: nat): (s: State)
    requires n <= |keys|
    ensures s.m1.Keys == m1.Keys && s.m2.Keys == m2.Keys
  {
    if n == 0 then State(m1, m2, None, None)
    else Next(body, AlignUpTo(body, keys, m1, m2, n - 1), keys[n - 1])
  }

  /** The whole loop over both `local_strategy` tables. */
  function AlignApi(r1: Record, r2: Record): Stepped
  {
    var a, b := r1.localStrategy, r2.localStrategy;
    var s := AlignUpTo(Pass, a.keys, a.vals, b.vals, |a.keys|);
    Stepped(r1.(localStrategy := Dict(a.keys, s.m1)), r2.(localStrategy := Dict(b.keys, s.m2)), s.err)
  }

  method AlignApiUsage(d1: Device, d2: Device) returns (err: Option<Failure>)
    requires Separate(d1, d2)
    modifies d1.localStrategy, d2.localStrategy
    ensures Stepped(d1.Snapshot(), d2.Snapshot(), err) == AlignApi(old(d1.Snapshot()), old(d2.Snapshot()))
  {
    SeparateTables(d1, d2);
    err := AlignTables(d1.localStrategy, d2.localStrategy, Pass);
  }

  /** The loop itself, on the two `local_strategy` tables. */
  method AlignTables(t1: Table, t2: Table, body: Body) returns (err: Option<Failure>)
    requires t1 != t2
    modifies t1, t2
    ensures t1.keys == old(t1.keys) && t2.keys == old(t2.keys)
    ensures State(t1.vals, t2.vals, AlignUpTo(body, old(t1.keys), old(t1.vals), old(t2.vals), |old(t1.keys)|).prefer, err)
            == AlignUpTo(body, old(t1.keys), old(t1.vals), old(t2.vals), |old(t1.keys)|)
  {
    var keys := t1.keys;
    ghost var m1, m2 := t1.vals, t2.vals;
    var prefer: Option<int> := None;
    var i := 0;
    while i < |keys|
      invariant 0 <= i <= |keys| && t1.keys == keys && t2.keys == old(t2.keys)
      invariant State(t1.vals, t2.vals, prefer, None) == AlignUpTo(body, keys, m1, m2, i)
    {
      ghost var s := State(t1.vals, t2.vals, prefer, None);
      prefer, err := PassAt(t1, t2, body, keys[i], prefer);
      assert State(t1.vals, t2.vals, prefer, err) == AlignUpTo(body, keys, m1, m2, i + 1);
      if err.Some? {
        Stops(body, keys, m1, m2, i + 1, |keys|);
        return;
      }
      i := i + 1;
    }
    err := None;
  }

  /** One iteration, at `dpId`, on the two tables. */
  method PassAt(t1: Table, t2: Table, body: Body, dpId: Value, prefer: Option<int>) returns (prefer': Option<int>, err: Option<Failure>)
    requires t1 != t2
    modifies t1, t2
    ensures t1.keys == old(t1.keys) && t2.keys == old(t2.keys)
    ensures State(t1.vals, t2.vals, prefer', err) == Next(body, State(old(t1.vals), old(t2.vals), prefer, None), dpId)
  {
    prefer', err := prefer, None;
    if dpId in t1.vals && dpId in t2.vals {
      var p := body(t1.vals[dpId], t2.vals[dpId], prefer);
      t1.vals := t1.vals[dpId := p.left];
      t2.vals := t2.vals[dpId := p.right];
      prefer', err := p.prefer, p.err;
    }
  }

  /** Once a pass has raised, later dpIds are not visited. */
  lemma {:induction false} Stops(body: Body, keys: seq<Value>, m1: map<Value, Value>, m2: map<Value, Value>, n: nat, m: nat)
    requires n <= m <= |keys| && AlignUpTo(body, keys, m1, m2, n).err.Some?
    ensures AlignUpTo(body, keys, m1, m2, m) == AlignUpTo(body, keys, m1, m2, n)
    decreases m
  {
    if m > n {
      Stops(body, keys, m1, m2, n, m - 1);
    }
  }

  /** `dst` with the three fields of `src` written over it. */
  function Carried(src: Value, dst: Value): Value
    requires src.Dict? && dst.Dict?
    requires forall f | f in Fields :: Str(f) in src.vals
  {
    var u, p, c := Str("use_open_api"), Str("property_update"), Str("status_code");
    Put(Put(Put(dst, u, src.vals[u]), p, src.vals[p]), c, src.vals[c])
  }

  /** Both entries hold the three fields, with equal values. */
  predicate Agree(e1: Value, e2: Value)
  {
    e1.Dict? && e2.Dict? && forall f | f in Fields :: Str(f) in e1.vals && Str(f) in e2.vals && e1.vals[Str(f)] == e2.vals[Str(f)]
  }

  lemma CopyFieldsCarries(src: Value, dst: Value)
    requires src.Dict? && dst.Dict?
    ensures var (c, err) := CopyFields(src, dst, Fields);
            && (err.None? <==> forall f | f in Fields :: Str(f) in src.vals)
            && (err.None? ==> c == Carried(src, dst))
  {
    var u, p, s := Str("use_open_api"), Str("property_update"), Str("status_code");
    assert Fields == ["use_open_api"] + ["property_update", "status_code"];
    assert forall f | f in Fields :: f == "use_open_api" || f == "property_update" || f == "status_code";
    if u !in src.vals {
      assert CopyFields(src, dst, Fields) == (dst, Some(KeyError(u)));
    } else {
      var d1 := Put(dst, u, src.vals[u]);
      assert CopyFields(src, dst, Fields) == CopyFields(src, d1, ["property_update", "status_code"]);
      if p !in src.vals {
        assert CopyFields(src, d1, ["property_update", "status_code"]) == (d1, Some(KeyError(p)));
      } else {
        var d2 := Put(d1, p, src.vals[p]);
        assert ["property_update", "status_code"][1..] == ["status_code"];
        assert CopyFields(src, d1, ["property_update", "status_code"]) == CopyFields(src, d2, ["status_code"]);
        assert ["status_code"][1..] == [];
        if s !in src.vals {
          assert CopyFields(src, d2, ["status_code"]) == (d2, Some(KeyError(s)));
        } else {
          assert CopyFields(src, d2, ["status_code"]) == (Put(d2, s, src.vals[s]), None);
        }
      }
    }
  }

  /** One pass at a shared dpId. The side the chain names (or, when every flag
      is truthy, the side the previous dpId chose) keeps its entry and the
      other takes its three fields, after which the two agree on them; the copy
      raises a KeyError when the chosen side lacks one of them. With every flag
      truthy and no earlier choice the pass raises UnboundLocalError. */
  lemma PassEntry(e1: Value, e2: Value, prefer: Option<int>)
    requires e1.Dict? && e2.Dict? && (prefer == None || prefer == Some(1) || prefer == Some(2))
    ensures var v := Pass(e1, e2, prefer);
            var chosen := if Decide(e1, e2).value.Some? then Decide(e1, e2).value else prefer;
            && v.prefer == chosen
            && (chosen == None ==> v.err == Some(UnboundLocalError("prefer")) && v.left == e1 && v.right == e2)
            && (chosen == Some(1) ==>
                  && v.left == e1
                  && (v.err.None? <==> forall f | f in Fields :: Str(f) in e1.vals)
                  && (v.err.None? ==> v.right == Carried(e1, e2) && Agree(v.left, v.right)))
            && (chosen == Some(2) ==>
                  && v.right == e2
                  && (v.err.None? <==> forall f | f in Fields :: Str(f) in e2.vals)
                  && (v.err.None? ==> v.left == Carried(e2, e1) && Agree(v.left, v.right)))
  {
    CopyFieldsCarries(e1, e2);
    CopyFieldsCarries(e2, e1);
  }

  /** `prefer` is only ever unassigned, 1 or 2, when each pass keeps it so. */
  lemma {:induction false} PreferRange(body: Body, keys: seq<Value>, m1: map<Value, Value>, m2: map<Value, Value>, n: nat)
    requires n <= |keys|
    requires forall e1: Value, e2: Value, p: Option<int> | Chosen(p) :: Chosen(body(e1, e2, p).prefer)
    ensures Chosen(AlignUpTo(body, keys, m1, m2, n).prefer)
  {
    if n > 0 {
      PreferRange(body, keys, m1, m2, n - 1);
    }
  }

  /** The chain's verdict on two original entries, when it gives one. */
  function Verdict(e1: Value, e2: Value): Option<int>
  {
    var d := Decide(e1, e2);
    if d.Ok? then d.value else None
  }

  /** What a quiet pass leaves at a dpId whose original entries were `e1` and
      `e2`: the new entries agree on the three fields; one side, holding all
      three, kept its entry and the other took its fields, every other field of
      it unchanged; and where the chain gave a verdict that side is the one it
      chose (otherwise it is the one the previous dpId chose). */
  predicate Settled(e1: Value, e2: Value, n1: Value, n2: Value)
  {
    && Agree(n1, n2)
    && e1.Dict? && e2.Dict?
    && ((n1 == e1 && (forall f | f in Fields :: Str(f) in e1.vals) && n2 == Carried(e1, e2))
        || (n2 == e2 && (forall f | f in Fields :: Str(f) in e2.vals) && n1 == Carried(e2, e1)))
    && (Verdict(e1, e2) == Some(1) ==> n1 == e1 && n2 == Carried(e1, e2))
    && (Verdict(e1, e2) == Some(2) ==> n2 == e2 && n1 == Carried(e2, e1))
  }

  /** The body keeps `prefer` unassigned, 1 or 2, and a quiet pass settles the
      dpId. */
  lemma PassSettles(e1: Value, e2: Value, prefer: Option<int>)
    requires Chosen(prefer)
    ensures Chosen(Pass(e1, e2, prefer).prefer)
    ensures Pass(e1, e2, prefer).err.None? ==> Settled(e1, e2, Pass(e1, e2, prefer).left, Pass(e1, e2, prefer).right)
  {
    if e1.Dict? && e2.Dict? {
      PassEntry(e1, e2, prefer);
    }
  }

  /** What the loop has done after its first `n` iterations, as state `s`: the
      keys are kept, every dpId visited so far that both tables have satisfies
      `settled`, and every other entry is as it was. */
  predicate Progress(settled: (Value, Value, Value, Value) -> bool, keys: seq<Value>,
                     m1: map<Value, Value>, m2: map<Value, Value>, n: nat, s: State)
    requires n <= |keys|
  {
    && s.m1.Keys == m1.Keys && s.m2.Keys == m2.Keys && Chosen(s.prefer)
    && (forall k | k in MP.Seen(keys, n) && k in m1 && k in m2 :: settled(m1[k], m2[k], s.m1[k], s.m2[k]))
    && (forall k | k in m1 && !(k in MP.Seen(keys, n) && k in m2) :: s.m1[k] == m1[k])
    && (forall k | k in m2 && !(k in MP.Seen(keys, n) && k in m1) :: s.m2[k] == m2[k])
  }

  /** A quiet iteration keeps `Progress`. */
  lemma ProgressStep(body: Body, settled: (Value, Value, Value, Value) -> bool, keys: seq<Value>,
                     m1: map<Value, Value>, m2: map<Value, Value>, n: nat, s: State, t: State)
    requires n < |keys| && keys[n] !in MP.Seen(keys, n) && t == Next(body, s, keys[n])
    requires Progress(settled, keys, m1, m2, n, s) && s.err.None?
    requires forall e1: Value, e2: Value, p: Option<int> | Chosen(p) :: Chosen(body(e1, e2, p).prefer)
    requires forall e1: Value, e2: Value, p: Option<int> | Chosen(p) && body(e1, e2, p).err.None? ::
               settled(e1, e2, body(e1, e2, p).left, body(e1, e2, p).right)
    ensures t.err.None? ==> Progress(settled, keys, m1, m2, n + 1, t)
  {
    var k := keys[n];
    assert MP.Seen(keys, n + 1) == MP.Seen(keys, n) + {k};
  }

  /** The loop so far, when it has not raised, has made `Progress` towards
      `settled`, for any body that keeps `prefer` unassigned, 1 or 2 and whose
      quiet passes establish `settled`. */
  lemma {:induction false} Visited(body: Body, settled: (Value, Value, Value, Value) -> bool,
                                   keys: seq<Value>, m1: map<Value, Value>, m2: map<Value, Value>, n: nat)
    requires n <= |keys| && Distinct(keys)
    requires forall e1: Value, e2: Value, p: Option<int> | Chosen(p) :: Chosen(body(e1, e2, p).prefer)
    requires forall e1: Value, e2: Value, p: Option<int> | Chosen(p) && body(e1, e2, p).err.None? ::
               settled(e1, e2, body(e1, e2, p).left, body(e1, e2, p).right)
    ensures var s := AlignUpTo(body, keys, m1, m2, n);
            s.err.None? ==> Progress(settled, keys, m1, m2, n, s)
  {
    if n > 0 {
      var s0 := AlignUpTo(body, keys, m1, m2, n - 1);
      Visited(body, settled, keys, m1, m2, n - 1);
      if s0.err.None? {
        MP.NotSeenLater(keys, n - 1, n - 1);
        ProgressStep(body, settled, keys, m1, m2, n - 1, s0, AlignUpTo(body, keys, m1, m2, n));
      }
    }
  }

  /** The whole loop over a well-formed first table, when it does not raise:
      every dpId both tables have ends `Settled`: one side kept its entry and
      the other took its `use_open_api`, `property_update` and `status_code`,
      the kept side being the one the chain chose whenever it chose one; every
      other entry is unchanged. */
  lemma ApiTables(a: DictValue, b: DictValue)
    requires WellFormed(a)
    ensures var s := AlignUpTo(Pass, a.keys, a.vals, b.vals, |a.keys|);
            s.err.None? ==>
              && (forall k | k in a.vals && k in b.vals :: Settled(a.vals[k], b.vals[k], s.m1[k], s.m2[k]))
              && (forall k | k in a.vals && k !in b.vals :: s.m1[k] == a.vals[k])
              && (forall k | k in b.vals && k !in a.vals :: s.m2[k] == b.vals[k])
  {
    forall e1: Value, e2: Value, p: Option<int> | Chosen(p)
      ensures Chosen(Pass(e1, e2, p).prefer)
      ensures Pass(e1, e2, p).err.None? ==> Settled(e1, e2, Pass(e1, e2, p).left, Pass(e1, e2, p).right)
    {
      PassSettles(e1, e2, p);
    }
    Visited(Pass, Settled, a.keys, a.vals, b.vals, |a.keys|);
    MP.SeenWhole(a.keys);
  }

  /** No dpId among the first `n` is in the second table: nothing has happened. */
  lemma {:induction false} NothingShared(body: Body, keys: seq<Value>, m1: map<Value, Value>, m2: map<Value, Value>, n: nat)
    requires n <= |keys| && forall j | 0 <= j < n :: keys[j] !in m2
    ensures AlignUpTo(body, keys, m1, m2, n) == State(m1, m2, None, None)
  {
    if n > 0 {
      NothingShared(body, keys, m1, m2, n - 1);
    }
  }

  /** When the first dpId the two tables share has all four flags truthy, the
      loop raises UnboundLocalError there, having changed nothing. */
  lemma FirstSharedUnbound(a: DictValue, b: DictValue, i: nat)
    requires i < |a.keys| && a.keys[i] in a.vals && a.keys[i] in b.vals
    requires forall j | 0 <= j < i :: a.keys[j] !in b.vals
    requires Decide(a.vals[a.keys[i]], b.vals[a.keys[i]]) == Ok(None)
    ensures AlignUpTo(Pass, a.keys, a.vals, b.vals, |a.keys|) == State(a.vals, b.vals, None, Some(UnboundLocalError("prefer")))
  {
    NothingShared(Pass, a.keys, a.vals, b.vals, i);
    var k := a.keys[i];
    assert a.vals[k := a.vals[k]] == a.vals && b.vals[k := b.vals[k]] == b.vals;
    Stops(Pass, a.keys, a.vals, b.vals, i + 1, |a.keys|);
  }
}
