/** `XTMergingManager._align_DPTypes(device1, device2)`: for every code or dpId
    both devices have, an outside judge decides which side's type is the more
    plausible given the device's current state, and the losing side takes the
    winner's type together with its value description. */
module TypeAlignment {
  import opened PyValue
  import opened PyOps
  import opened Devices
  import opened TableWalk

  /** `CloudFixes.determine_most_plausible(dict1, dict2, key, state_value)`:
      1 prefers the first, 2 the second, anything else neither. Supplied by the
      caller. */
  type Plausible = (Value, Value, Value, Value) -> int

  /** `state_value` for a status-range or function code: device1's status
      under that code, or device2's when device1's is None. */
  function Evidence(s1: DictValue, s2: DictValue, key: Value): Value
  {
    if Get(s1, key) != Null then Get(s1, key) else Get(s2, key)
  }

  /** The judge's verdict on two descriptors. */
  function DescriptorVerdict(plausible: Plausible, s1: DictValue, s2: DictValue, key: Value, e1: Value, e2: Value): int
    requires e1.IsDescriptor() && e2.IsDescriptor()
  {
    plausible(Single(Str("type"), e1.dataType), Single(Str("type"), e2.dataType), Str("type"), Evidence(s1, s2, key))
  }

  /** The body of `for key in device1.status_range` and of
      `for key in device1.function`. Only descriptor objects have a `type`. */
  function AlignDescriptorType(plausible: Plausible, s1: DictValue, s2: DictValue, key: Value, e1: Value, e2: Option<Value>): Visit
  {
    if e2.None? then Keep(e1, e2)
    else if !e1.IsDescriptor() || !e2.value.IsDescriptor() then Raise(e1, e2, AttributeError("type"))
    else
      var verdict := DescriptorVerdict(plausible, s1, s2, key, e1, e2.value);
      if verdict == 1 then Visit(e1, e2.value.(dataType := e1.dataType, values := e1.values), None)
      else if verdict == 2 then Visit(e1.(dataType := e2.value.dataType, values := e2.value.values), e2.value, None)
      else Keep(e1, e2)
  }

  /** `device1.status.get(code)`, or device2's when that is None; an
      unhashable code raises a TypeError. */
  function StatusOf(s1: DictValue, s2: DictValue, code: Value): (r: Result<Value>)
    ensures r.Ok? <==> Hashable(code)
    ensures r.Ok? ==> r.value == Evidence(s1, s2, code)
  {
    var a := DictGet(s1, code);
    if a.Err? || a.value != Null then a else DictGet(s2, code)
  }

  /** `state_value` for a local-strategy dpId: the state under device1's
      `status_code` when that is truthy, otherwise (or when that state is None)
      the state under device2's `status_code` when that is truthy. */
  function LocalEvidence(s1: DictValue, s2: DictValue, e1: Value, e2: Value): Result<Value>
  {
    var c1 := DictGet(e1, Str("status_code"));
    if c1.Err? then c1
    else
      var st := if Truthy(c1.value) then StatusOf(s1, s2, c1.value) else Ok(Null);
      if st.Err? || st.value != Null then st
      else
        var c2 := DictGet(e2, Str("status_code"));
        if c2.Err? then c2
        else if Truthy(c2.value) then StatusOf(s1, s2, c2.value)
        else Ok(Null)
  }

  /** `dst["valueType"] = src["valueType"]; dst["valueDesc"] = src["valueDesc"]`:
      the new `dst`, and the exception that stopped it part-way, if any. */
  function CopyType(src: Value, dst: Value): (Value, Option<Failure>)
  {
    var t := Subscript(src, "valueType");
    if t.Err? then (dst, Some(t.error))
    else
      var d1 := SetItem(dst, "valueType", t.value);
      if d1.Err? then (dst, Some(d1.error))
      else
        var d := Subscript(src, "valueDesc");
        if d.Err? then (d1.value, Some(d.error))
        else (Put(d1.value, Str("valueDesc"), d.value), None)
  }

  /** The body of `for dpId in device1.local_strategy`. */
  function AlignLocalType(plausible: Plausible, s1: DictValue, s2: DictValue, e1: Value, e2: Option<Value>): Visit
  {
    if e2.None? then Keep(e1, e2)
    else
      var st := LocalEvidence(s1, s2, e1, e2.value);
      if st.Err? then Raise(e1, e2, st.error)
      else
        var ci1 := DictGet(e1, Str("config_item"));
        if ci1.Err? then Raise(e1, e2, ci1.error)
        else if !Truthy(ci1.value) then Keep(e1, e2)
        else
          var h1 := ContainsKey(ci1.value, "valueType");
          if h1.Err? then Raise(e1, e2, h1.error)
          else if !h1.value then Keep(e1, e2)
          else
            var ci2 := DictGet(e2.value, Str("config_item"));
            if ci2.Err? then Raise(e1, e2, ci2.error)
            else if !Truthy(ci2.value) then Keep(e1, e2)
            else
              var h2 := ContainsKey(ci2.value, "valueType");
              if h2.Err? then Raise(e1, e2, h2.error)
              else if !h2.value then Keep(e1, e2)
              else
                var verdict := plausible(ci1.value, ci2.value, Str("valueType"), st.value);
                if verdict == 1 then
                  var (c, err) := CopyType(ci1.value, ci2.value);
                  Visit(e1, Put(e2.value, Str("config_item"), c), err)
                else if verdict == 2 then
                  var (c, err) := CopyType(ci2.value, ci1.value);
                  Visit(Put(e1, Str("config_item"), c), e2.value, err)
                else Keep(e1, e2)
  }

  function DescriptorRule(plausible: Plausible, s1: DictValue, s2: DictValue): Rule
  {
    (key, e1, e2) => AlignDescriptorType(plausible, s1, s2, key, e1, e2)
  }

  function LocalStrategyRule(plausible: Plausible, s1: DictValue, s2: DictValue): Rule
  {
    (dpId, e1, e2) => AlignLocalType(plausible, s1, s2, e1, e2)
  }

  /** The three loops in order, judged against both devices' `status`, which
      the step does not change; an exception ends the step. */
  function AlignTypes(plausible: Plausible, r1: Record, r2: Record): Stepped
  {
    var rule := DescriptorRule(plausible, r1.status, r2.status);
    var local := LocalStrategyRule(plausible, r1.status, r2.status);
    var (s1, s2, e1) := WalkDicts(rule, r1.statusRange, r2.statusRange);
    var r1, r2 := r1.(statusRange := s1), r2.(statusRange := s2);
    if e1.Some? then Stepped(r1, r2, e1)
    else
      var (f1, f2, e2) := WalkDicts(rule, r1.functions, r2.functions);
      var r1, r2 := r1.(functions := f1), r2.(functions := f2);
      if e2.Some? then Stepped(r1, r2, e2)
      else
        var (l1, l2, e3) := WalkDicts(local, r1.localStrategy, r2.localStrategy);
        Stepped(r1.(localStrategy := l1), r2.(localStrategy := l2), e3)
  }

  method AlignDPTypes(plausible: Plausible, d1: Device, d2: Device) returns (err: Option<Failure>)
    requires Separate(d1, d2)
    modifies d1.statusRange, d2.statusRange, d1.functions, d2.functions, d1.localStrategy, d2.localStrategy
    ensures Stepped(d1.Snapshot(), d2.Snapshot(), err) == AlignTypes(plausible, old(d1.Snapshot()), old(d2.Snapshot()))
  {
    SeparateTables(d1, d2);
    var s1, s2 := d1.status.Contents(), d2.status.Contents();
    err := WalkTables(d1.statusRange, d2.statusRange, DescriptorRule(plausible, s1, s2));
    if err.Some? {
      return;
    }
    err := WalkTables(d1.functions, d2.functions, DescriptorRule(plausible, s1, s2));
    if err.Some? {
      return;
    }
    err := WalkTables(d1.localStrategy, d2.localStrategy, LocalStrategyRule(plausible, s1, s2));
  }

  /** `loser` with the `type` and `values` of `winner`, and nothing else changed. */
  function Retyped(loser: Value, winner: Value): Value
    requires loser.IsDescriptor() && winner.IsDescriptor()
  {
    loser.(dataType := winner.dataType, values := winner.values)
  }

  /** One pass on two descriptors raises nothing: verdict 1 gives the second
      descriptor the first's type and values, verdict 2 the other way round,
      any other verdict leaves both alone; afterwards, on a verdict of 1 or 2,
      both sides hold the same type and values. */
  lemma DescriptorTypeEntry(plausible: Plausible, s1: DictValue, s2: DictValue, key: Value, e1: Value, e2: Value)
    requires e1.IsDescriptor() && e2.IsDescriptor()
    ensures var v := AlignDescriptorType(plausible, s1, s2, key, e1, Some(e2));
            var verdict := DescriptorVerdict(plausible, s1, s2, key, e1, e2);
            && v.err.None?
            && (verdict == 1 ==> v.left == e1 && v.right == Retyped(e2, e1))
            && (verdict == 2 ==> v.left == Retyped(e1, e2) && v.right == e2)
            && (verdict != 1 && verdict != 2 ==> v.left == e1 && v.right == e2)
            && (verdict == 1 || verdict == 2 ==>
                  v.left.dataType == v.right.dataType && v.left.values == v.right.values)
  {
  }

  /** A code both status-range tables (or both function tables) hold as
      descriptors. */
  predicate SharedDescriptor(a: DictValue, b: DictValue, k: Value)
  {
    k in a.vals && k in b.vals && a.vals[k].IsDescriptor() && b.vals[k].IsDescriptor()
  }

  /** The status-range and function loops raise exactly when some code both
      tables have is not held as a descriptor by both. Otherwise, at every shared
      code the judge's verdict, on device1's status under that code or else
      device2's, picks the side whose type and values both end up with; every
      other entry of either table is left as it was. */
  lemma DescriptorTypeTables(plausible: Plausible, s1: DictValue, s2: DictValue, a: DictValue, b: DictValue)
    requires WellFormed(a)
    ensures var (a', b', err) := WalkDicts(DescriptorRule(plausible, s1, s2), a, b);
            && a'.keys == a.keys && b'.keys == b.keys
            && (err.None? <==> forall k | k in a.vals && k in b.vals :: SharedDescriptor(a, b, k))
            && (err.None? ==>
                  && (forall k | SharedDescriptor(a, b, k) ::
                        var verdict := DescriptorVerdict(plausible, s1, s2, k, a.vals[k], b.vals[k]);
                        && (verdict == 1 ==> a'.vals[k] == a.vals[k] && b'.vals[k] == Retyped(b.vals[k], a.vals[k]))
                        && (verdict == 2 ==> a'.vals[k] == Retyped(a.vals[k], b.vals[k]) && b'.vals[k] == b.vals[k])
                        && (verdict != 1 && verdict != 2 ==> a'.vals[k] == a.vals[k] && b'.vals[k] == b.vals[k]))
                  && (forall k | k in a.vals && !SharedDescriptor(a, b, k) :: a'.vals[k] == a.vals[k])
                  && (forall k | k in b.vals && !SharedDescriptor(a, b, k) :: b'.vals[k] == b.vals[k]))
  {
    var rule := DescriptorRule(plausible, s1, s2);
    WalkRaisesIff(rule, a, b);
    WalkPointwise(rule, a, b);
    forall k | SharedDescriptor(a, b, k) {
      DescriptorTypeEntry(plausible, s1, s2, k, a.vals[k], b.vals[k]);
    }
  }

  /** A local-strategy entry whose `config_item` is a non-empty dictionary with
      a `valueType`: the entries whose types the judge compares. */
  predicate Typed(e: Value)
  {
    e.Dict? && Get(e, Str("config_item")).Dict? && Str("valueType") in Get(e, Str("config_item")).vals
  }

  function Item(e: Value): Value
    requires Typed(e)
  {
    Get(e, Str("config_item"))
  }

  /** The loser's entry once its `config_item` holds the winner's `valueType`
      and `valueDesc`. */
  function Adopted(loser: Value, winner: Value): Value
    requires Typed(loser) && Typed(winner) && Str("valueDesc") in Item(winner).vals
  {
    var item := Put(Put(Item(loser), Str("valueType"), Item(winner).vals[Str("valueType")]),
                    Str("valueDesc"), Item(winner).vals[Str("valueDesc")]);
    Put(loser, Str("config_item"), item)
  }

  /** One pass on two typed entries. Looking up the state can raise (a
      `status_code` that cannot be hashed); otherwise verdict 1 gives the second
      entry the first's `valueType` and `valueDesc`, verdict 2 the other way
      round, and any other verdict changes nothing. A winner without a
      `valueDesc` raises a KeyError after the loser's `valueType` has been
      written. */
  lemma LocalTypeEntry(plausible: Plausible, s1: DictValue, s2: DictValue, e1: Value, e2: Value)
    requires Typed(e1) && Typed(e2)
    ensures var v := AlignLocalType(plausible, s1, s2, e1, Some(e2));
            var st := LocalEvidence(s1, s2, e1, e2);
            && (st.Err? ==> v == Raise(e1, Some(e2), st.error))
            && (st.Ok? ==>
                  var verdict := plausible(Item(e1), Item(e2), Str("valueType"), st.value);
                  && (verdict == 1 ==> v.left == e1 && (v.err.None? <==> Str("valueDesc") in Item(e1).vals)
                                       && (v.err.None? ==> v.right == Adopted(e2, e1)))
                  && (verdict == 2 ==> v.right == e2 && (v.err.None? <==> Str("valueDesc") in Item(e2).vals)
                                       && (v.err.None? ==> v.left == Adopted(e1, e2)))
                  && (verdict != 1 && verdict != 2 ==> v == Keep(e1, Some(e2))))
  {
  }

  /** One pass on two entries that are not both typed: the source `continue`s
      before any write, so a pass that does not raise changes neither entry. */
  lemma LocalUntypedEntry(plausible: Plausible, s1: DictValue, s2: DictValue, e1: Value, e2: Value)
    requires !(Typed(e1) && Typed(e2))
    ensures var v := AlignLocalType(plausible, s1, s2, e1, Some(e2));
            v.err.None? ==> v.left == e1 && v.right == e2
  {
  }

  /** The local-strategy loop, when it does not raise: at a dpId both tables
      hold as typed entries, the verdict on the two `config_item`s picks the
      side whose `valueType` and `valueDesc` both end up with; every entry of
      either table at another key is left as it was. */
  lemma LocalTypeTables(plausible: Plausible, s1: DictValue, s2: DictValue, a: DictValue, b: DictValue)
    requires WellFormed(a)
    ensures var (a', b', err) := WalkDicts(LocalStrategyRule(plausible, s1, s2), a, b);
            err.None? ==>
              && a'.keys == a.keys && b'.keys == b.keys
              && (forall k | k in a.vals && k in b.vals && Typed(a.vals[k]) && Typed(b.vals[k]) ::
                    && LocalEvidence(s1, s2, a.vals[k], b.vals[k]).Ok?
                    && var verdict := plausible(Item(a.vals[k]), Item(b.vals[k]), Str("valueType"),
                                                LocalEvidence(s1, s2, a.vals[k], b.vals[k]).value);
                       && (verdict == 1 ==> Str("valueDesc") in Item(a.vals[k]).vals
                                            && a'.vals[k] == a.vals[k] && b'.vals[k] == Adopted(b.vals[k], a.vals[k]))
                       && (verdict == 2 ==> Str("valueDesc") in Item(b.vals[k]).vals
                                            && a'.vals[k] == Adopted(a.vals[k], b.vals[k]) && b'.vals[k] == b.vals[k])
                       && (verdict != 1 && verdict != 2 ==> a'.vals[k] == a.vals[k] && b'.vals[k] == b.vals[k]))
              && (forall k | k in a.vals && k in b.vals && !(Typed(a.vals[k]) && Typed(b.vals[k])) ::
                    a'.vals[k] == a.vals[k] && b'.vals[k] == b.vals[k])
              && (forall k | k in a.vals && k !in b.vals :: a'.vals[k] == a.vals[k])
              && (forall k | k in b.vals && k !in a.vals :: b'.vals[k] == b.vals[k])
  {
    var rule := LocalStrategyRule(plausible, s1, s2);
    WalkPointwise(rule, a, b);
    var (a', b', err) := WalkDicts(rule, a, b);
    if err.None? {
      forall k | k in a.vals && k in b.vals && Typed(a.vals[k]) && Typed(b.vals[k])
        ensures rule(k, a.vals[k], Some(b.vals[k])).err.None?
      {
        WalkVisitsQuietly(rule, a, b, k);
      }
      forall k | k in a.vals && k in b.vals && Typed(a.vals[k]) && Typed(b.vals[k]) {
        LocalTypeEntry(plausible, s1, s2, a.vals[k], b.vals[k]);
      }
      forall k | k in a.vals && k in b.vals && !(Typed(a.vals[k]) && Typed(b.vals[k]))
        ensures a'.vals[k] == a.vals[k] && b'.vals[k] == b.vals[k]
      {
        WalkVisitsQuietly(rule, a, b, k);
        LocalUntypedEntry(plausible, s1, s2, a.vals[k], b.vals[k]);
      }
    }
  }
}
