/** `XTMergingManager._fix_incorrect_valuedescr(device1, device2)`: three loops
    over device1's `function`, `status_range` and `local_strategy` tables that
    repair value descriptors which do not parse, or which an earlier repair
    marked with `ErrorValue1`. */
module DescriptorRepair {
  import opened PyValue
  import opened Json
  import opened PyOps
  import opened Devices
  import opened TableWalk

  /** The judging `try` block: the descriptor needs fixing when it does not
      parse, when what it parses to has no `get` (is not a dictionary), or when
      its `ErrorValue1` is truthy. */
  predicate NeedsFixing(json: Codec, values: Value)
  {
    match Loads(json, values)
    case Err(_) => true
    case Ok(x) => !x.Dict? || Truthy(Get(x, Str("ErrorValue1")))
  }

  /** The fixing `try` block accepts a candidate that parses to something `iter`
      accepts. */
  predicate Usable(json: Codec, values: Value)
  {
    Loads(json, values).Ok? && Iterable(Loads(json, values).value)
  }

  /** `json.dumps({"ErrorValue1": first, "ErrorValue2": second})`. */
  function ErrorWrapper(json: Codec, first: Value, second: Value): (r: Value)
    ensures r.Str?
  {
    Dumps(json, Pair(Str("ErrorValue1"), first, Str("ErrorValue2"), second))
  }

  /** The body of `for code in device1.function`: a descriptor that needs fixing
      and whose code the second device has takes the second's `values` when
      those are usable; otherwise both get the same error wrapper. Entries that
      are not descriptors reach the exception handler, which raises. */
  function FixFunction(json: Codec, e1: Value, e2: Option<Value>): Visit
  {
    if e1.IsDescriptor() then
      if !NeedsFixing(json, e1.values) || e2.None? then Keep(e1, e2)
      else if e2.value.IsDescriptor() then
        if Usable(json, e2.value.values) then Visit(e1.(values := e2.value.values), e2.value, None)
        else
          var w := ErrorWrapper(json, e1.values, e2.value.values);
          Visit(e1.(values := w), e2.value.(values := w), None)
      // The wrapper reads device2's `values` again: a dictionary's is a method,
      // which `json.dumps` refuses; anything else has none.
      else if e2.value.Dict? then Raise(e1, e2, TypeError)
      else Raise(e1, e2, AttributeError("values"))
    // The handler's log line reads device1's `values`.
    else if !e1.Dict? then Raise(e1, e2, AttributeError("values"))
    // A dictionary's `values` method does not parse, so it needs fixing.
    else if e2.None? then Keep(e1, e2)
    // Assigning a dictionary's `values` fails inside the `try` just as a bad
    // candidate does; the wrapper then holds device1's `values` method, which
    // `json.dumps` refuses, unless device2's entry has no `values` to read.
    else if HasValues(e2.value) then Raise(e1, e2, TypeError)
    else Raise(e1, e2, AttributeError("values"))
  }

  /** The body of `for code in device1.status_range`: as for functions, except
      that an unusable candidate changes nothing (the source only logs), and
      every failure of the fixing attempt is caught. */
  function FixStatusRange(json: Codec, e1: Value, e2: Option<Value>): Visit
  {
    if e1.IsDescriptor() then
      if !NeedsFixing(json, e1.values) || e2.None? || !e2.value.IsDescriptor() then Keep(e1, e2)
      else if Usable(json, e2.value.values) then Visit(e1.(values := e2.value.values), e2.value, None)
      else Keep(e1, e2)
    // A dictionary's `values` method does not parse; the attempt to assign it fails
    // inside the `try`. Anything else has no `values` for the handler's log line.
    else if e1.Dict? then Keep(e1, e2)
    else Raise(e1, e2, AttributeError("values"))
  }

  /** The body of `for dpId in device1.local_strategy`. The candidate is read
      from `device1.local_strategy[dpId]` again, the very `config_item` being
      repaired, and re-parsed from the primary's own `valueDesc`: a usable one
      is assigned to itself, an unusable one is replaced by a wrapper holding
      it twice. The second device is only asked whether it has the dpId. */
  function FixLocalStrategy(json: Codec, e1: Value, e2: Option<Value>): Visit
  {
    var item := DictGet(e1, Str("config_item"));
    if item.Err? then Raise(e1, e2, item.error)
    else if !Truthy(item.value) then Keep(e1, e2)
    else
      var desc := DictGet(item.value, Str("valueDesc"));
      if desc.Err? then Raise(e1, e2, desc.error)
      else if !Truthy(desc.value) || !NeedsFixing(json, desc.value) || e2.None? || Usable(json, desc.value) then Keep(e1, e2)
      else
        var w := ErrorWrapper(json, desc.value, desc.value);
        Visit(Put(e1, Str("config_item"), Put(item.value, Str("valueDesc"), w)), e2.value, None)
  }

  function FunctionRule(json: Codec): Rule
  {
    (code, e1, e2) => FixFunction(json, e1, e2)
  }

  function StatusRangeRule(json: Codec): Rule
  {
    (code, e1, e2) => FixStatusRange(json, e1, e2)
  }

  function LocalStrategyRule(json: Codec): Rule
  {
    (dpId, e1, e2) => FixLocalStrategy(json, e1, e2)
  }

  /** The three loops in order; an exception ends the step. */
  function Fix(json: Codec, r1: Record, r2: Record): Stepped
  {
    var (f1, f2, e1) := WalkDicts(FunctionRule(json), r1.functions, r2.functions);
    var r1, r2 := r1.(functions := f1), r2.(functions := f2);
    if e1.Some? then Stepped(r1, r2, e1)
    else
      var (s1, s2, e2) := WalkDicts(StatusRangeRule(json), r1.statusRange, r2.statusRange);
      var r1, r2 := r1.(statusRange := s1), r2.(statusRange := s2);
      if e2.Some? then Stepped(r1, r2, e2)
      else
        var (l1, l2, e3) := WalkDicts(LocalStrategyRule(json), r1.localStrategy, r2.localStrategy);
        Stepped(r1.(localStrategy := l1), r2.(localStrategy := l2), e3)
  }

  method FixIncorrectValuedescr(json: Codec, d1: Device, d2: Device) returns (err: Option<Failure>)
    requires Separate(d1, d2)
    modifies d1.functions, d2.functions, d1.statusRange, d2.statusRange, d1.localStrategy, d2.localStrategy
    ensures Stepped(d1.Snapshot(), d2.Snapshot(), err) == Fix(json, old(d1.Snapshot()), old(d2.Snapshot()))
  {
    SeparateTables(d1, d2);
    err := WalkTables(d1.functions, d2.functions, FunctionRule(json));
    if err.Some? {
      return;
    }
    err := WalkTables(d1.statusRange, d2.statusRange, StatusRangeRule(json));
    if err.Some? {
      return;
    }
    err := WalkTables(d1.localStrategy, d2.localStrategy, LocalStrategyRule(json));
  }

  /** Both entries are descriptors, the first needs fixing: the condition under
      which the function and status-range loops try a repair. */
  predicate Repairs(json: Codec, e1: Value, e2: Option<Value>)
  {
    e1.IsDescriptor() && NeedsFixing(json, e1.values) && e2.Some? && e2.value.IsDescriptor()
  }

  /** The `values` a function-table repair leaves on both sides: the second's
      own when usable, otherwise the wrapper of both. */
  function Repaired(json: Codec, e1: Value, e2: Value): Value
    requires e1.IsDescriptor() && e2.IsDescriptor()
  {
    if Usable(json, e2.values) then e2.values else ErrorWrapper(json, e1.values, e2.values)
  }

  /** One pass of the function loop: a broken descriptor whose code the second
      device holds as a descriptor is repaired on both sides; any other
      descriptor is left alone. The pass raises exactly when an entry it has to
      read has no `values` field: device1's entry is not a descriptor (and, if
      a dictionary, its code is in device2), or device1's descriptor is broken
      and device2's entry under its code is not a descriptor. */
  lemma FixFunctionEntry(json: Codec, e1: Value, e2: Option<Value>)
    ensures var v := FixFunction(json, e1, e2);
            && (v.err.None? <==>
                  || (e1.IsDescriptor() && (NeedsFixing(json, e1.values) && e2.Some? ==> e2.value.IsDescriptor()))
                  || (e1.Dict? && e2.None?))
            && (!HasValues(e1) ==> v.err == Some(AttributeError("values")))
            && (e1.Dict? && e2.Some? && HasValues(e2.value) ==> v.err == Some(TypeError))
            && (e1.Dict? && e2.Some? && !HasValues(e2.value) ==> v.err == Some(AttributeError("values")))
            && (Repairs(json, e1, e2) ==>
                  var r := Repaired(json, e1, e2.value);
                  v.err.None? && v.left == e1.(values := r) && v.right == e2.value.(values := r))
            && (!Repairs(json, e1, e2) ==> v.left == e1 && (e2.Some? ==> v.right == e2.value))
  {
  }

  /** The function-table repair. Tables of descriptors never raise; an entry
      with no `values` at all always does. When the loop ends quietly, a
      descriptor that needs fixing and whose code the second device has ends up
      with the same `values` on both sides: the second's own when usable (so the
      second is unchanged), otherwise the error wrapper of both. Only `values`
      changes; every other entry of either table is left as it was. */
  lemma FunctionRepair(json: Codec, a: DictValue, b: DictValue)
    requires WellFormed(a)
    ensures var (a', b', err) := WalkDicts(FunctionRule(json), a, b);
            && a'.keys == a.keys && b'.keys == b.keys
            && (DescriptorTable(a) && DescriptorTable(b) ==> err.None?)
            && ((exists code | code in a.vals :: !HasValues(a.vals[code])) ==> err.Some?)
            && (err.None? ==>
                  && (forall code | code in a.vals && Repairs(json, a.vals[code], Lookup(b.vals, code)) ::
                        var r := Repaired(json, a.vals[code], b.vals[code]);
                        a'.vals[code] == a.vals[code].(values := r) && b'.vals[code] == b.vals[code].(values := r))
                  && (forall code | code in a.vals && !Repairs(json, a.vals[code], Lookup(b.vals, code)) ::
                        a'.vals[code] == a.vals[code])
                  && (forall code | code in b.vals && (code !in a.vals || !Repairs(json, a.vals[code], Some(b.vals[code]))) ::
                        b'.vals[code] == b.vals[code]))
  {
    var rule := FunctionRule(json);
    WalkRaisesIff(rule, a, b);
    WalkPointwise(rule, a, b);
    forall code | code in a.vals {
      FixFunctionEntry(json, a.vals[code], Lookup(b.vals, code));
    }
  }

  /** One pass of the status-range loop: it raises exactly when device1's entry
      has no `values` at all, and device2's entry is never written. */
  lemma FixStatusRangeEntry(json: Codec, e1: Value, e2: Option<Value>)
    ensures var v := FixStatusRange(json, e1, e2);
            && (v.err.None? <==> HasValues(e1))
            && (v.err.Some? ==> v.err == Some(AttributeError("values")))
            && (e2.Some? ==> v.right == e2.value)
            && (Repairs(json, e1, e2) && Usable(json, e2.value.values) ==> v.left == e1.(values := e2.value.values))
            && (!(Repairs(json, e1, e2) && Usable(json, e2.value.values)) ==> v.left == e1)
  {
  }

  /** The status-range repair: the loop raises exactly when some entry of
      device1's table has no `values` at all. Otherwise a descriptor that needs
      fixing takes the second device's usable `values`; when those are unusable
      nothing changes. The second table is never written. */
  lemma StatusRangeRepair(json: Codec, a: DictValue, b: DictValue)
    requires WellFormed(a)
    ensures var (a', b', err) := WalkDicts(StatusRangeRule(json), a, b);
            && a'.keys == a.keys
            && (err.None? <==> forall code | code in a.vals :: HasValues(a.vals[code]))
            && (err.None? ==>
                  && b' == b
                  && (forall code | code in a.vals && Repairs(json, a.vals[code], Lookup(b.vals, code))
                                      && Usable(json, b.vals[code].values) ::
                        a'.vals[code] == a.vals[code].(values := b.vals[code].values))
                  && (forall code | code in a.vals && !(Repairs(json, a.vals[code], Lookup(b.vals, code))
                                      && Usable(json, b.vals[code].values)) ::
                        a'.vals[code] == a.vals[code]))
  {
    var rule := StatusRangeRule(json);
    WalkRaisesIff(rule, a, b);
    forall code | code in a.vals ensures rule(code, a.vals[code], Lookup(b.vals, code)).err.None? <==> HasValues(a.vals[code]) {
      FixStatusRangeEntry(json, a.vals[code], Lookup(b.vals, code));
    }
    WalkPointwise(rule, a, b);
    var (a', b', err) := WalkDicts(rule, a, b);
    if err.None? {
      forall code | code in a.vals && Repairs(json, a.vals[code], Lookup(b.vals, code)) && Usable(json, b.vals[code].values)
        ensures a'.vals[code] == a.vals[code].(values := b.vals[code].values)
      {
        assert a'.vals[code] == FixStatusRange(json, a.vals[code], Lookup(b.vals, code)).left;
        FixStatusRangeEntry(json, a.vals[code], Lookup(b.vals, code));
      }
      forall code | code in a.vals && !(Repairs(json, a.vals[code], Lookup(b.vals, code)) && Usable(json, b.vals[code].values))
        ensures a'.vals[code] == a.vals[code]
      {
        assert a'.vals[code] == FixStatusRange(json, a.vals[code], Lookup(b.vals, code)).left;
        FixStatusRangeEntry(json, a.vals[code], Lookup(b.vals, code));
      }
      forall code | code in b.vals ensures b'.vals[code] == b.vals[code] {
        if code in a.vals {
          FixStatusRangeEntry(json, a.vals[code], Some(b.vals[code]));
        }
      }
      assert b'.vals == b.vals;
    }
  }

  /** A local-strategy entry whose `config_item` holds a truthy `valueDesc` that
      needs fixing and does not parse to anything iterable. */
  predicate Unusable(json: Codec, e: Value)
  {
    && e.Dict? && Truthy(Get(e, Str("config_item"))) && Get(e, Str("config_item")).Dict?
    && var desc := Get(Get(e, Str("config_item")), Str("valueDesc"));
       Truthy(desc) && NeedsFixing(json, desc) && !Usable(json, desc)
  }

  /** The entry with its `valueDesc` replaced by the wrapper of itself twice. */
  function Rewrapped(json: Codec, e: Value): Value
    requires Unusable(json, e)
  {
    var item := Get(e, Str("config_item"));
    var desc := Get(item, Str("valueDesc"));
    Put(e, Str("config_item"), Put(item, Str("valueDesc"), ErrorWrapper(json, desc, desc)))
  }

  lemma FixLocalStrategyEntry(json: Codec, e1: Value, e2: Option<Value>)
    ensures var v := FixLocalStrategy(json, e1, e2);
            && (e2.Some? ==> v.right == e2.value)
            && (v.err.None? && e2.Some? && Unusable(json, e1) ==> v.left == Rewrapped(json, e1))
            && (v.err.None? && !(e2.Some? && Unusable(json, e1)) ==> v.left == e1)
  {
  }

  lemma FixLocalStrategyOnlyKeys(json: Codec, e1: Value, x: Value, y: Value)
    ensures FixLocalStrategy(json, e1, Some(x)).left == FixLocalStrategy(json, e1, Some(y)).left
    ensures FixLocalStrategy(json, e1, Some(x)).err == FixLocalStrategy(json, e1, Some(y)).err
  {
  }

  /** The local-strategy repair as written: the second table is never changed;
      an entry whose description is unusable and whose dpId the second device
      has gets the wrapper of its own description twice; every other entry is
      left as it was. */
  lemma LocalStrategyRepair(json: Codec, a: DictValue, b: DictValue)
    requires WellFormed(a)
    ensures var (a', b', err) := WalkDicts(LocalStrategyRule(json), a, b);
            err.None? ==>
              && a'.keys == a.keys && b' == b
              && (forall dpId | dpId in a.vals && dpId in b.vals && Unusable(json, a.vals[dpId]) ::
                    a'.vals[dpId] == Rewrapped(json, a.vals[dpId]))
              && (forall dpId | dpId in a.vals && !(dpId in b.vals && Unusable(json, a.vals[dpId])) ::
                    a'.vals[dpId] == a.vals[dpId])
  {
    var rule := LocalStrategyRule(json);
    forall k: Value, e1: Value, e2: Option<Value>
      ensures e2.Some? ==> rule(k, e1, e2).right == e2.value
      ensures rule(k, e1, e2).err.None? && e2.Some? && Unusable(json, e1) ==> rule(k, e1, e2).left == Rewrapped(json, e1)
      ensures rule(k, e1, e2).err.None? && !(e2.Some? && Unusable(json, e1)) ==> rule(k, e1, e2).left == e1
    {
      FixLocalStrategyEntry(json, e1, e2);
    }
    RewrapWalk(json, rule, a, b);
  }

  /** `LocalStrategyRepair` for any loop body that behaves as the local-strategy
      repair does at each key. */
  lemma RewrapWalk(json: Codec, rule: Rule, a: DictValue, b: DictValue)
    requires WellFormed(a)
    requires forall k: Value, e1: Value, e2: Option<Value> | e2.Some? :: rule(k, e1, e2).right == e2.value
    requires forall k: Value, e1: Value, e2: Option<Value> | rule(k, e1, e2).err.None? && e2.Some? && Unusable(json, e1) ::
               rule(k, e1, e2).left == Rewrapped(json, e1)
    requires forall k: Value, e1: Value, e2: Option<Value> | rule(k, e1, e2).err.None? && !(e2.Some? && Unusable(json, e1)) ::
               rule(k, e1, e2).left == e1
    ensures var (a', b', err) := WalkDicts(rule, a, b);
            err.None? ==>
              && a'.keys == a.keys && b' == b
              && (forall dpId | dpId in a.vals && dpId in b.vals && Unusable(json, a.vals[dpId]) ::
                    a'.vals[dpId] == Rewrapped(json, a.vals[dpId]))
              && (forall dpId | dpId in a.vals && !(dpId in b.vals && Unusable(json, a.vals[dpId])) ::
                    a'.vals[dpId] == a.vals[dpId])
  {
    WalkPointwise(rule, a, b);
    var (a', b', err) := WalkDicts(rule, a, b);
    if err.None? {
      forall dpId | dpId in a.vals
        ensures rule(dpId, a.vals[dpId], Lookup(b.vals, dpId)).err.None?
      {
        WalkVisitsQuietly(rule, a, b, dpId);
      }
      assert b'.vals == b.vals;
    }
  }

  /** The local-strategy repair reads nothing of the second device but its key
      set: two second tables with the same keys give the same first table and
      the same exception. */
  lemma LocalStrategyIgnoresSecond(json: Codec, a: DictValue, b: DictValue, c: DictValue)
    requires b.vals.Keys == c.vals.Keys
    ensures WalkDicts(LocalStrategyRule(json), a, b).0 == WalkDicts(LocalStrategyRule(json), a, c).0
    ensures WalkDicts(LocalStrategyRule(json), a, b).2 == WalkDicts(LocalStrategyRule(json), a, c).2
  {
    LocalStrategyKeyBlind(json);
    WalkKeyBlind(LocalStrategyRule(json), a.keys, a.vals, b.vals, c.vals, |a.keys|);
  }

  /** The local-strategy pass reads of device2's entry only whether there is one. */
  lemma LocalStrategyKeyBlind(json: Codec)
    ensures KeyBlind(LocalStrategyRule(json))
  {
    forall k, e1, x, y
      ensures StepOn(LocalStrategyRule(json), k, e1, x) == StepOn(LocalStrategyRule(json), k, e1, y)
    {
      FixLocalStrategyOnlyKeys(json, e1, x, y);
    }
  }
}
