/** `XTMergingManager._align_valuedescr(device1, device2)`: for every code or
    dpId both devices have, both value descriptions are parsed, every field the
    aligner returns is written into both parsed objects, and both are written
    back as JSON text. */
module ValueDescrAlignment {
  import opened PyValue
  import opened Json
  import opened PyOps
  import opened Devices
  import opened TableWalk
  import MP = MergeProperties

  /** `CloudFixes.compute_aligned_valuedescr(value1, value2, None)`: the fields
      both descriptions should hold, as a dictionary. Supplied by the caller. */
  type Aligner = (Value, Value) -> DictValue

  /** `for fix_code in diff: value[fix_code] = diff[fix_code]` on one object,
      over the first `n` keys of the diff. */
  function Overlay(v: Value, diff: Value, n: nat): (r: Value)
    requires v.Dict? && diff.Dict? && n <= |diff.keys|
    ensures r.Dict?
  {
    if n == 0 then v
    else
      var k := diff.keys[n - 1];
      Put(Overlay(v, diff, n - 1), k, Get(diff, k))
  }

  /** The inner loop on both parsed objects: an empty diff leaves both alone;
      otherwise assigning a field into anything but a dictionary raises. */
  function AlignPair(value1: Value, value2: Value, diff: DictValue): (r: Result<(Value, Value)>)
    ensures r.Ok? <==> diff.keys == [] || (value1.Dict? && value2.Dict?)
    ensures r.Err? ==> r.error == TypeError
    ensures diff.keys == [] ==> r == Ok((value1, value2))
  {
    if diff.keys == [] then Ok((value1, value2))
    else if !value1.Dict? || !value2.Dict? then Err(TypeError)
    else Ok((Overlay(value1, diff, |diff.keys|), Overlay(value2, diff, |diff.keys|)))
  }

  /** The inner loop as the source writes it: each key of the diff is assigned
      into the first object, then into the second. */
  method ApplyDiff(value1: Value, value2: Value, diff: DictValue) returns (r: Result<(Value, Value)>)
    ensures r == AlignPair(value1, value2, diff)
  {
    var v1, v2 := value1, value2;
    var i := 0;
    while i < |diff.keys|
      invariant 0 <= i <= |diff.keys|
      invariant i == 0 ==> v1 == value1 && v2 == value2
      invariant i > 0 ==> && value1.Dict? && value2.Dict?
                          && v1 == Overlay(value1, diff, i) && v2 == Overlay(value2, diff, i)
    {
      var fixCode := diff.keys[i];
      if !v1.Dict? || !v2.Dict? {
        return Err(TypeError);
      }
      v1 := Put(v1, fixCode, Get(diff, fixCode));
      v2 := Put(v2, fixCode, Get(diff, fixCode));
      i := i + 1;
    }
    return Ok((v1, v2));
  }

  /** The entries the first `n` assignments write. */
  function Taken(diff: Value, n: nat): map<Value, Value>
    requires diff.Dict? && n <= |diff.keys|
  {
    if n == 0 then map[] else Taken(diff, n - 1)[diff.keys[n - 1] := Get(diff, diff.keys[n - 1])]
  }

  lemma {:induction false} TakenEntries(diff: Value, n: nat)
    requires diff.Dict? && n <= |diff.keys|
    ensures Taken(diff, n).Keys == MP.Seen(diff.keys, n)
    ensures forall k | k in Taken(diff, n) :: Taken(diff, n)[k] == Get(diff, k)
  {
    if n > 0 {
      TakenEntries(diff, n - 1);
    }
  }

  /** All the assignments of a well-formed diff write exactly the diff. */
  lemma TakenWhole(diff: Value)
    requires WellFormed(diff)
    ensures Taken(diff, |diff.keys|) == diff.vals
  {
    TakenEntries(diff, |diff.keys|);
    MP.SeenWhole(diff.keys);
  }

  lemma {:induction false} OverlayVals(v: Value, diff: Value, n: nat)
    requires v.Dict? && diff.Dict? && n <= |diff.keys|
    ensures Overlay(v, diff, n).vals == v.vals + Taken(diff, n)
  {
    if n > 0 {
      OverlayVals(v, diff, n - 1);
      var k := diff.keys[n - 1];
      assert Overlay(v, diff, n).vals == Overlay(v, diff, n - 1).vals[k := Get(diff, k)];
      assert (v.vals + Taken(diff, n - 1))[k := Get(diff, k)] == v.vals + Taken(diff, n);
    }
  }

  lemma {:induction false} OverlayWellFormed(v: Value, diff: Value, n: nat)
    requires WellFormed(v) && diff.Dict? && n <= |diff.keys|
    ensures WellFormed(Overlay(v, diff, n))
  {
    if n > 0 {
      OverlayWellFormed(v, diff, n - 1);
    }
  }

  lemma {:induction false} OverlayKeys(v: Value, diff: Value, n: nat)
    requires v.Dict? && diff.Dict? && Distinct(diff.keys) && n <= |diff.keys|
    ensures Overlay(v, diff, n).keys == v.keys + MP.MissingUpTo(diff.keys, n, v.vals.Keys)
  {
    if n > 0 {
      OverlayKeys(v, diff, n - 1);
      var w := Overlay(v, diff, n - 1);
      var k := diff.keys[n - 1];
      OverlayVals(v, diff, n - 1);
      TakenEntries(diff, n - 1);
      MP.NotSeenLater(diff.keys, n - 1, n - 1);
      assert k in w.vals <==> k in v.vals;
      var m := MP.MissingUpTo(diff.keys, n - 1, v.vals.Keys);
      if k !in v.vals {
        assert MP.MissingUpTo(diff.keys, n, v.vals.Keys) == m + [k];
        assert v.keys + (m + [k]) == (v.keys + m) + [k];
      }
    }
  }

  /** The aligned object: the diff's entries replace or extend the object's own,
      existing keys keep their place and new keys follow in the diff's order. */
  lemma OverlayFields(v: Value, diff: Value)
    requires WellFormed(v) && WellFormed(diff)
    ensures var r := Overlay(v, diff, |diff.keys|);
            && WellFormed(r)
            && r.vals == v.vals + diff.vals
            && r.keys == v.keys + MP.Missing(diff.keys, v.vals.Keys)
  {
    OverlayWellFormed(v, diff, |diff.keys|);
    OverlayKeys(v, diff, |diff.keys|);
    OverlayVals(v, diff, |diff.keys|);
    TakenWhole(diff);
    MP.MissingUpToWhole(diff.keys, v.vals.Keys);
  }

  /** Both objects the inner loop yields hold the diff's value at every key the
      diff has and their own value everywhere else; so they agree on every field
      the aligner returned. */
  lemma AlignedAgree(value1: Value, value2: Value, diff: Value)
    requires WellFormed(value1) && WellFormed(value2) && WellFormed(diff)
    ensures var r := AlignPair(value1, value2, diff);
            && r.Ok?
            && r.value.0.vals == value1.vals + diff.vals
            && r.value.1.vals == value2.vals + diff.vals
            && (forall f | f in diff.vals :: r.value.0.vals[f] == r.value.1.vals[f] == diff.vals[f])
  {
    if diff.keys != [] {
      OverlayFields(value1, diff);
      OverlayFields(value2, diff);
    } else {
      assert diff.vals == map[];
      assert value1.vals + diff.vals == value1.vals;
      assert value2.vals + diff.vals == value2.vals;
    }
  }

  /** Parse both descriptions, align them, serialise both again. */
  function Realign(json: Codec, aligner: Aligner, text1: Value, text2: Value): (r: Result<(Value, Value)>)
    ensures r.Ok? ==> r.value.0.Str? && r.value.1.Str?
  {
    var x := Loads(json, text1);
    if x.Err? then Err(x.error)
    else
      var y := Loads(json, text2);
      if y.Err? then Err(y.error)
      else
        var p := AlignPair(x.value, y.value, aligner(x.value, y.value));
        if p.Err? then Err(p.error)
        else Ok((Dumps(json, p.value.0), Dumps(json, p.value.1)))
  }

  /** The body of `for code in device1.status_range` and of
      `for code in device1.function`: only descriptors whose `values` strings
      differ (`!=`) are realigned. An entry with no `values` raises; a
      dictionary's `values` is a method, unequal to anything the other side
      holds, which `json.loads` refuses. */
  function AlignDescriptor(json: Codec, aligner: Aligner, e1: Value, e2: Option<Value>): Visit
  {
    if e2.None? then Keep(e1, e2)
    else if !HasValues(e1) || !HasValues(e2.value) then Raise(e1, e2, AttributeError("values"))
    else if e1.Dict? then Raise(e1, e2, TypeError)
    else if e2.value.Dict? then
      var x := Loads(json, e1.values);
      Raise(e1, e2, if x.Err? then x.error else TypeError)
    else if PyEq(e1.values, e2.value.values) then Keep(e1, e2)
    else
      var r := Realign(json, aligner, e1.values, e2.value.values);
      if r.Err? then Raise(e1, e2, r.error)
      else Visit(e1.(values := r.value.0), e2.value.(values := r.value.1), None)
  }

  /** The body of `for dp_id in device1.local_strategy`: realigned whenever both
      `config_item`s and both `valueDesc`s are present (not None), even when the
      two strings are equal. */
  function AlignLocalStrategy(json: Codec, aligner: Aligner, e1: Value, e2: Option<Value>): Visit
  {
    if e2.None? then Keep(e1, e2)
    else
      var c1 := DictGet(e1, Str("config_item"));
      if c1.Err? then Raise(e1, e2, c1.error)
      else
        var c2 := DictGet(e2.value, Str("config_item"));
        if c2.Err? then Raise(e1, e2, c2.error)
        else if c1.value == Null || c2.value == Null then Keep(e1, e2)
        else
          var d1 := DictGet(c1.value, Str("valueDesc"));
          if d1.Err? then Raise(e1, e2, d1.error)
          else
            var d2 := DictGet(c2.value, Str("valueDesc"));
            if d2.Err? then Raise(e1, e2, d2.error)
            else if d1.value == Null || d2.value == Null then Keep(e1, e2)
            else
              var r := Realign(json, aligner, d1.value, d2.value);
              if r.Err? then Raise(e1, e2, r.error)
              else
                Visit(Put(e1, Str("config_item"), Put(c1.value, Str("valueDesc"), r.value.0)),
                      Put(e2.value, Str("config_item"), Put(c2.value, Str("valueDesc"), r.value.1)), None)
  }

  function DescriptorRule(json: Codec, aligner: Aligner): Rule
  {
    (code, e1, e2) => AlignDescriptor(json, aligner, e1, e2)
  }

  function LocalStrategyRule(json: Codec, aligner: Aligner): Rule
  {
    (dpId, e1, e2) => AlignLocalStrategy(json, aligner, e1, e2)
  }

  /** The three loops in order; an exception ends the step. */
  function AlignValueDescr(json: Codec, aligner: Aligner, r1: Record, r2: Record): Stepped
  {
    var (s1, s2, e1) := WalkDicts(DescriptorRule(json, aligner), r1.statusRange, r2.statusRange);
    var r1, r2 := r1.(statusRange := s1), r2.(statusRange := s2);
    if e1.Some? then Stepped(r1, r2, e1)
    else
      var (f1, f2, e2) := WalkDicts(DescriptorRule(json, aligner), r1.functions, r2.functions);
      var r1, r2 := r1.(functions := f1), r2.(functions := f2);
      if e2.Some? then Stepped(r1, r2, e2)
      else
        var (l1, l2, e3) := WalkDicts(LocalStrategyRule(json, aligner), r1.localStrategy, r2.localStrategy);
        Stepped(r1.(localStrategy := l1), r2.(localStrategy := l2), e3)
  }

  method AlignValuedescr(json: Codec, aligner: Aligner, d1: Device, d2: Device) returns (err: Option<Failure>)
    requires Separate(d1, d2)
    modifies d1.statusRange, d2.statusRange, d1.functions, d2.functions, d1.localStrategy, d2.localStrategy
    ensures Stepped(d1.Snapshot(), d2.Snapshot(), err) == AlignValueDescr(json, aligner, old(d1.Snapshot()), old(d2.Snapshot()))
  {
    SeparateTables(d1, d2);
    err := WalkTables(d1.statusRange, d2.statusRange, DescriptorRule(json, aligner));
    if err.Some? {
      return;
    }
    err := WalkTables(d1.functions, d2.functions, DescriptorRule(json, aligner));
    if err.Some? {
      return;
    }
    err := WalkTables(d1.localStrategy, d2.localStrategy, LocalStrategyRule(json, aligner));
  }

  /** Two descriptors with the same `values` text are left alone; descriptors
      whose texts differ both get the serialisation of their own parsed
      description with the aligner's fields written in, and nothing else of the
      descriptor changes; a text that does not parse raises. */
  lemma DescriptorEntry(json: Codec, aligner: Aligner, e1: Value, e2: Value)
    requires e1.IsDescriptor() && e2.IsDescriptor()
    ensures var v := AlignDescriptor(json, aligner, e1, Some(e2));
            && (PyEq(e1.values, e2.values) ==> v == Keep(e1, Some(e2)))
            && (!PyEq(e1.values, e2.values) ==>
                  && (v.err.None? <==> Realign(json, aligner, e1.values, e2.values).Ok?)
                  && (v.err.None? ==>
                        var r := Realign(json, aligner, e1.values, e2.values).value;
                        v.left == e1.(values := r.0) && v.right == e2.(values := r.1)))
            && (Loads(json, e1.values).Err? && !PyEq(e1.values, e2.values) ==> v.err == Some(Loads(json, e1.values).error))
  {
  }

  /** A pass at a code both tables have raises unless both entries are
      descriptors; an entry with no `values` at all raises AttributeError. */
  lemma NonDescriptorRaises(json: Codec, aligner: Aligner, e1: Value, e2: Value)
    ensures var v := AlignDescriptor(json, aligner, e1, Some(e2));
            && (v.err.None? ==> e1.IsDescriptor() && e2.IsDescriptor())
            && (!HasValues(e1) || !HasValues(e2) ==> v.err == Some(AttributeError("values")))
  {
  }

  /** Realigning two descriptions that parse to dictionaries, with an aligner
      that returns a dictionary: no exception, and each side is the
      serialisation of its own object with the aligner's entries written over
      it. */
  lemma RealignWellFormed(json: Codec, aligner: Aligner, text1: Value, text2: Value)
    requires Loads(json, text1).Ok? && Loads(json, text2).Ok?
    requires var x, y := Loads(json, text1).value, Loads(json, text2).value;
             WellFormed(x) && WellFormed(y) && WellFormed(aligner(x, y))
    ensures var x, y := Loads(json, text1).value, Loads(json, text2).value;
            var diff := aligner(x, y);
            var r := Realign(json, aligner, text1, text2);
            && r.Ok?
            && exists a: Value, b: Value ::
                 && a.Dict? && b.Dict? && r.value == (Dumps(json, a), Dumps(json, b))
                 && a.vals == x.vals + diff.vals && b.vals == y.vals + diff.vals
  {
    var x, y := Loads(json, text1).value, Loads(json, text2).value;
    var diff := aligner(x, y);
    AlignedAgree(x, y, diff);
    var p := AlignPair(x, y, diff).value;
    assert Realign(json, aligner, text1, text2).value == (Dumps(json, p.0), Dumps(json, p.1));
  }

  /** A code both tables have, holding descriptors whose `values` texts differ:
      the codes the status-range and function loops realign. */
  predicate Differing(a: DictValue, b: DictValue, k: Value)
  {
    && k in a.vals && k in b.vals
    && a.vals[k].IsDescriptor() && b.vals[k].IsDescriptor()
    && !PyEq(a.vals[k].values, b.vals[k].values)
  }

  /** The status-range and function loops, over a well-formed first table: when
      no pass raised, every code both tables have held descriptors on both
      sides, every code on which the two differ holds both realigned texts, and
      every other entry of either table is as it was. */
  lemma DescriptorTables(json: Codec, aligner: Aligner, a: DictValue, b: DictValue)
    requires WellFormed(a)
    ensures var (a', b', err) := WalkDicts(DescriptorRule(json, aligner), a, b);
            err.None? ==>
              && a'.keys == a.keys && b'.keys == b.keys
              && (forall k | k in a.vals && k in b.vals :: a.vals[k].IsDescriptor() && b.vals[k].IsDescriptor())
              && (forall k | Differing(a, b, k) ::
                    && Realign(json, aligner, a.vals[k].values, b.vals[k].values).Ok?
                    && var r := Realign(json, aligner, a.vals[k].values, b.vals[k].values).value;
                       a'.vals[k] == a.vals[k].(values := r.0) && b'.vals[k] == b.vals[k].(values := r.1))
              && (forall k | k in a.vals && !Differing(a, b, k) :: a'.vals[k] == a.vals[k])
              && (forall k | k in b.vals && !Differing(a, b, k) :: b'.vals[k] == b.vals[k])
  {
    var rule := DescriptorRule(json, aligner);
    WalkPointwise(rule, a, b);
    var (a', b', err) := WalkDicts(rule, a, b);
    if err.None? {
      forall k | k in a.vals
        ensures rule(k, a.vals[k], Lookup(b.vals, k)).err.None?
      {
        WalkVisitsQuietly(rule, a, b, k);
      }
      forall k | k in a.vals && k in b.vals
        ensures a.vals[k].IsDescriptor() && b.vals[k].IsDescriptor()
      {
        NonDescriptorRaises(json, aligner, a.vals[k], b.vals[k]);
      }
      forall k | k in a.vals && k in b.vals && a.vals[k].IsDescriptor() && b.vals[k].IsDescriptor() {
        DescriptorEntry(json, aligner, a.vals[k], b.vals[k]);
      }
    }
  }

  /** Both local-strategy entries are dictionaries whose `config_item`s are
      dictionaries holding a `valueDesc` that is not None: the dpIds the
      local-strategy loop realigns, whether or not the two texts are equal. */
  predicate Described(e1: Value, e2: Value)
  {
    && e1.Dict? && e2.Dict?
    && Get(e1, Str("config_item")).Dict? && Get(e2, Str("config_item")).Dict?
    && Get(Get(e1, Str("config_item")), Str("valueDesc")) != Null
    && Get(Get(e2, Str("config_item")), Str("valueDesc")) != Null
  }

  function Desc(e: Value): Value
    requires e.Dict? && Get(e, Str("config_item")).Dict?
  {
    Get(Get(e, Str("config_item")), Str("valueDesc"))
  }

  /** The entry with its `config_item`'s `valueDesc` replaced by `text`. */
  function WithDesc(e: Value, text: Value): Value
    requires e.Dict? && Get(e, Str("config_item")).Dict?
  {
    Put(e, Str("config_item"), Put(Get(e, Str("config_item")), Str("valueDesc"), text))
  }

  /** Described entries get both realigned texts, equal texts included; a dpId
      whose `config_item` or `valueDesc` is None on either side is left alone,
      and any other entries that are not described either raise or are left
      alone. */
  lemma LocalStrategyEntry(json: Codec, aligner: Aligner, e1: Value, e2: Value)
    ensures var v := AlignLocalStrategy(json, aligner, e1, Some(e2));
            && (Described(e1, e2) ==>
                  var r := Realign(json, aligner, Desc(e1), Desc(e2));
                  && (v.err.None? <==> r.Ok?)
                  && (r.Ok? ==> v.left == WithDesc(e1, r.value.0) && v.right == WithDesc(e2, r.value.1)))
            && (e1.Dict? && e2.Dict? && (Get(e1, Str("config_item")) == Null || Get(e2, Str("config_item")) == Null) ==>
                  v == Keep(e1, Some(e2)))
            && (e1.Dict? && e2.Dict? && Get(e1, Str("config_item")).Dict? && Get(e2, Str("config_item")).Dict?
                && (Desc(e1) == Null || Desc(e2) == Null) ==>
                  v == Keep(e1, Some(e2)))
            && (!Described(e1, e2) && v.err.None? ==> v.left == e1 && v.right == e2)
  {
  }

  /** The local-strategy loop, over a well-formed first table: when no pass
      raised, every dpId both tables describe holds both realigned texts, and
      every other entry of either table, shared or not, is as it was. */
  lemma LocalStrategyTables(json: Codec, aligner: Aligner, a: DictValue, b: DictValue)
    requires WellFormed(a)
    ensures var (a', b', err) := WalkDicts(LocalStrategyRule(json, aligner), a, b);
            err.None? ==>
              && a'.keys == a.keys && b'.keys == b.keys
              && (forall k | k in a.vals && k in b.vals && Described(a.vals[k], b.vals[k]) ::
                    && Realign(json, aligner, Desc(a.vals[k]), Desc(b.vals[k])).Ok?
                    && var r := Realign(json, aligner, Desc(a.vals[k]), Desc(b.vals[k])).value;
                       a'.vals[k] == WithDesc(a.vals[k], r.0) && b'.vals[k] == WithDesc(b.vals[k], r.1))
              && (forall k | k in a.vals && k in b.vals && !Described(a.vals[k], b.vals[k]) ::
                    a'.vals[k] == a.vals[k] && b'.vals[k] == b.vals[k])
              && (forall k | k in a.vals && k !in b.vals :: a'.vals[k] == a.vals[k])
              && (forall k | k in b.vals && k !in a.vals :: b'.vals[k] == b.vals[k])
  {
    var rule := LocalStrategyRule(json, aligner);
    WalkPointwise(rule, a, b);
    var (a', b', err) := WalkDicts(rule, a, b);
    if err.None? {
      forall k | k in a.vals && k in b.vals
        ensures rule(k, a.vals[k], Some(b.vals[k])).err.None?
      {
        WalkVisitsQuietly(rule, a, b, k);
      }
      forall k | k in a.vals && k in b.vals {
        LocalStrategyEntry(json, aligner, a.vals[k], b.vals[k]);
      }
    }
  }
}
