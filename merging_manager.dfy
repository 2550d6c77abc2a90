/** `XTMergingManager.merge_devices(device1, device2)`: the two views of one
    physical device, one from each cloud API, are repaired, aligned and merged,
    after which both `XTDevice` objects share the same four table objects.

    `CloudFixes.apply_fixes` is not part of this model: it is a parameter that
    maps a device's table contents to their fixed contents. */
module MergingManager {
  import opened PyValue
  import opened Json
  import opened Devices
  import opened SmartMerge
  import MP = MergeProperties
  import DescriptorRepair
  import TypeAlignment
  import ApiUsage
  import ValueConvert
  import ValueDescrAlignment

  /** What the merge depends on but does not define: the JSON codec, the
      per-device cloud fixes, the status plausibility test `_align_DPTypes`
      consults and the value-description aligner `_align_valuedescr` uses. */
  datatype Env = Env(json: Codec, fixes: Record -> Record,
                     plausible: TypeAlignment.Plausible, aligner: ValueDescrAlignment.Aligner)

  /** The first steps of `merge_devices`: each device's descriptors repaired
      against the other's, then the cloud fixes on each. An exception ends
      `merge_devices` there. */
  function Repair(env: Env, r1: Record, r2: Record): Stepped
  {
    var s := DescriptorRepair.Fix(env.json, r1, r2);
    if s.err.Some? then s
    else
      var t := DescriptorRepair.Fix(env.json, s.r2, s.r1);
      if t.err.Some? then Stepped(t.r2, t.r1, t.err)
      else Stepped(env.fixes(t.r2), env.fixes(t.r1), None)
  }

  /** The alignment steps, in the source's order: types, API usage, value
      conversion, value descriptions. */
  function Align(env: Env, r1: Record, r2: Record): Stepped
  {
    var s := TypeAlignment.AlignTypes(env.plausible, r1, r2);
    if s.err.Some? then s
    else
      var s := ApiUsage.AlignApi(s.r1, s.r2);
      if s.err.Some? then s
      else
        var s := ValueConvert.Prefer(s.r1, s.r2);
        if s.err.Some? then s
        else ValueDescrAlignment.AlignValueDescr(env.json, env.aligner, s.r1, s.r2)
  }

  /** Everything before the final merge. */
  function Prepare(env: Env, r1: Record, r2: Record): Stepped
  {
    var s := Repair(env, r1, r2);
    if s.err.Some? then s else Align(env, s.r1, s.r2)
  }

  /** The four `smart_merge` calls: device1's tables are merged with device2's
      in place (`status` without a message queue). */
  datatype Final = Final(shared: Record, second: Record, msgs: seq<Message>)

  function MergeRecords(json: Codec, a: Record, b: Record): Final
    requires json.Valid()
  {
    var sr := Merge(json, a.statusRange, b.statusRange, true, [Field("status_range")]);
    var fn := Merge(json, a.functions, b.functions, true, [Field("function")]);
    var st := Merge(json, a.status, b.status, false, [Field("status")]);
    var ls := Merge(json, a.localStrategy, b.localStrategy, true, [Field("local_strategy")]);
    Final(Record(sr.left, fn.left, st.left, ls.left), Record(sr.right, fn.right, st.right, ls.right),
          sr.msgs + fn.msgs + st.msgs + ls.msgs)
  }

  /** `if a: b = a` / `elif b: a = b`, for `data_model` and `set_up`: when
      either side is truthy both end with the same truthy value, device1's
      first; otherwise both keep their own. */
  function Pick(a: Value, b: Value): (r: (Value, Value))
    ensures Truthy(a) || Truthy(b) ==> r.0 == r.1 && Truthy(r.0)
    ensures Truthy(a) ==> r.0 == a
    ensures !Truthy(a) && !Truthy(b) ==> r == (a, b)
  {
    if Truthy(a) then (a, a) else if Truthy(b) then (b, b) else (a, b)
  }

  /** `CloudFixes.apply_fixes(device)`, on the device's own tables. */
  method ApplyFixes(fixes: Record -> Record, d: Device)
    requires Distinct(d.Tables())
    modifies d.statusRange, d.functions, d.status, d.localStrategy
    ensures d.Snapshot() == fixes(old(d.Snapshot()))
  {
    TablesApart(d);
    var r := fixes(d.Snapshot());
    d.statusRange.Load(r.statusRange);
    d.functions.Load(r.functions);
    d.status.Load(r.status);
    d.localStrategy.Load(r.localStrategy);
  }

  /** `smart_merge(left, right, msg_queue, name)` on two tables: both dict
      objects are updated in place and the left one is returned. */
  method MergeTable(json: Codec, left: Table, right: Table, log: bool, name: string) returns (msgs: seq<Message>)
    requires json.Valid() && left != right
    modifies left, right
    ensures var o := Merge(json, old(left.Contents()), old(right.Contents()), log, [Field(name)]);
            left.Contents() == o.left == o.result && right.Contents() == o.right && msgs == o.msgs
  {
    var o := Run(json, left.Contents(), right.Contents(), log, [Field(name)]);
    left.Load(o.left);
    right.Load(o.right);
    msgs := o.msgs;
  }

  method MergeDevices(env: Env, d1: Device, d2: Device) returns (msgs: seq<Message>, err: Option<Failure>)
    requires env.json.Valid() && Separate(d1, d2)
    modifies d1, d2, d1.statusRange, d1.functions, d1.status, d1.localStrategy
    modifies d2.statusRange, d2.functions, d2.status, d2.localStrategy
    ensures var s := Prepare(env, old(d1.Snapshot()), old(d2.Snapshot()));
            && err == s.err
            && d1.statusRange == old(d1.statusRange) && d1.functions == old(d1.functions)
            && d1.status == old(d1.status) && d1.localStrategy == old(d1.localStrategy)
            && (err.Some? ==>
                  && d1.Snapshot() == s.r1 && d2.Snapshot() == s.r2 && msgs == []
                  && d2.statusRange == old(d2.statusRange) && d2.functions == old(d2.functions)
                  && d2.status == old(d2.status) && d2.localStrategy == old(d2.localStrategy)
                  && d1.dataModel == old(d1.dataModel) && d2.dataModel == old(d2.dataModel)
                  && d1.setUp == old(d1.setUp) && d2.setUp == old(d2.setUp))
            && (err.None? ==>
                  var f := MergeRecords(env.json, s.r1, s.r2);
                  && d2.Tables() == d1.Tables()
                  && d1.Snapshot() == f.shared && msgs == f.msgs
                  && old(d2.statusRange).Contents() == f.second.statusRange
                  && old(d2.functions).Contents() == f.second.functions
                  && old(d2.status).Contents() == f.second.status
                  && old(d2.localStrategy).Contents() == f.second.localStrategy
                  && (d1.dataModel, d2.dataModel) == Pick(old(d1.dataModel), old(d2.dataModel))
                  && (d1.setUp, d2.setUp) == Pick(old(d1.setUp), old(d2.setUp)))
  {
    msgs := [];
    err := PrepareDevices(env, d1, d2);
    if err.Some? {
      return;
    }
    msgs := MergeAll(env.json, d1, d2);
    Share(d1, d2);
  }

  /** device2 takes device1's four table objects, and `data_model` and `set_up`
      are settled between the two. */
  method Share(d1: Device, d2: Device)
    modifies d1, d2
    ensures d2.Tables() == d1.Tables() == old(d1.Tables())
    ensures (d1.dataModel, d2.dataModel) == Pick(old(d1.dataModel), old(d2.dataModel))
    ensures (d1.setUp, d2.setUp) == Pick(old(d1.setUp), old(d2.setUp))
  {
    d2.statusRange := d1.statusRange;
    d2.functions := d1.functions;
    d2.status := d1.status;
    d2.localStrategy := d1.localStrategy;
    if Truthy(d1.dataModel) {
      d2.dataModel := d1.dataModel;
    } else if Truthy(d2.dataModel) {
      d1.dataModel := d2.dataModel;
    }
    if Truthy(d1.setUp) {
      d2.setUp := d1.setUp;
    } else if Truthy(d2.setUp) {
      d1.setUp := d2.setUp;
    }
  }

  /** The four `smart_merge` calls, on the tables in place. */
  method MergeAll(json: Codec, d1: Device, d2: Device) returns (msgs: seq<Message>)
    requires json.Valid() && Separate(d1, d2)
    modifies d1.statusRange, d1.functions, d1.status, d1.localStrategy
    modifies d2.statusRange, d2.functions, d2.status, d2.localStrategy
    ensures var f := MergeRecords(json, old(d1.Snapshot()), old(d2.Snapshot()));
            d1.Snapshot() == f.shared && d2.Snapshot() == f.second && msgs == f.msgs
  {
    SeparateTables(d1, d2);
    ghost var f := MergeRecords(json, d1.Snapshot(), d2.Snapshot());
    var m1 := MergeTable(json, d1.statusRange, d2.statusRange, true, "status_range");
    assert d1.statusRange.Contents() == f.shared.statusRange && d2.statusRange.Contents() == f.second.statusRange;
    var m2 := MergeTable(json, d1.functions, d2.functions, true, "function");
    assert d1.functions.Contents() == f.shared.functions && d2.functions.Contents() == f.second.functions;
    var m3 := MergeTable(json, d1.status, d2.status, false, "status");
    assert d1.status.Contents() == f.shared.status && d2.status.Contents() == f.second.status;
    var m4 := MergeTable(json, d1.localStrategy, d2.localStrategy, true, "local_strategy");
    msgs := m1 + m2 + m3 + m4;
  }

  /** The steps before the final merge, on the devices' tables. */
  method PrepareDevices(env: Env, d1: Device, d2: Device) returns (err: Option<Failure>)
    requires Separate(d1, d2)
    modifies d1.statusRange, d1.functions, d1.status, d1.localStrategy
    modifies d2.statusRange, d2.functions, d2.status, d2.localStrategy
    ensures Stepped(d1.Snapshot(), d2.Snapshot(), err) == Prepare(env, old(d1.Snapshot()), old(d2.Snapshot()))
  {
    err := RepairDevices(env, d1, d2);
    if err.Some? {
      return;
    }
    err := AlignDevices(env, d1, d2);
  }

  method RepairDevices(env: Env, d1: Device, d2: Device) returns (err: Option<Failure>)
    requires Separate(d1, d2)
    modifies d1.statusRange, d1.functions, d1.status, d1.localStrategy
    modifies d2.statusRange, d2.functions, d2.status, d2.localStrategy
    ensures Stepped(d1.Snapshot(), d2.Snapshot(), err) == Repair(env, old(d1.Snapshot()), old(d2.Snapshot()))
  {
    SeparateSwap(d1, d2);
    SeparateTables(d1, d2);
    err := DescriptorRepair.FixIncorrectValuedescr(env.json, d1, d2);
    if err.Some? {
      return;
    }
    ghost var s := DescriptorRepair.Fix(env.json, old(d1.Snapshot()), old(d2.Snapshot()));
    assert d1.Snapshot() == s.r1 && d2.Snapshot() == s.r2;
    err := DescriptorRepair.FixIncorrectValuedescr(env.json, d2, d1);
    ghost var t := DescriptorRepair.Fix(env.json, s.r2, s.r1);
    assert d1.Snapshot() == t.r2 && d2.Snapshot() == t.r1 && err == t.err;
    if err.Some? {
      return;
    }
    ApplyFixes(env.fixes, d1);
    assert d1.Snapshot() == env.fixes(t.r2);
    ApplyFixes(env.fixes, d2);
    assert d1.Snapshot() == env.fixes(t.r2);
  }

  method AlignDevices(env: Env, d1: Device, d2: Device) returns (err: Option<Failure>)
    requires Separate(d1, d2)
    modifies d1.statusRange, d1.functions, d1.status, d1.localStrategy
    modifies d2.statusRange, d2.functions, d2.status, d2.localStrategy
    ensures Stepped(d1.Snapshot(), d2.Snapshot(), err) == Align(env, old(d1.Snapshot()), old(d2.Snapshot()))
  {
    err := TypeAlignment.AlignDPTypes(env.plausible, d1, d2);
    if err.Some? {
      return;
    }
    err := ApiUsage.AlignApiUsage(d1, d2);
    if err.Some? {
      return;
    }
    err := ValueConvert.PreferNonDefaultValueConvert(d1, d2);
    if err.Some? {
      return;
    }
    err := ValueDescrAlignment.AlignValuedescr(env.json, env.aligner, d1, d2);
  }

  /** The four tables of a device are four different objects. */
  lemma TablesApart(d: Device)
    requires Distinct(d.Tables())
    ensures d.statusRange != d.functions && d.statusRange != d.status && d.statusRange != d.localStrategy
    ensures d.functions != d.status && d.functions != d.localStrategy && d.status != d.localStrategy
  {
    var ts := d.Tables();
    assert ts[0] == d.statusRange && ts[1] == d.functions && ts[2] == d.status && ts[3] == d.localStrategy;
  }

  /** The eight tables are as distinct seen from either device. */
  lemma SeparateSwap(d1: Device, d2: Device)
    requires Separate(d1, d2)
    ensures Separate(d2, d1) && Distinct(d1.Tables()) && Distinct(d2.Tables())
  {
    SeparateTables(d1, d2);
  }

  /** After `smart_merge(l, r)` on two dictionaries, `merged` (the left dict
      object, which is also returned) and `second` (the right one) hold the same
      entries: the union of both key sets, the left's keys first in their
      order and then the right's new ones; a shared key holds the merge of the
      two entries and any other key the one entry it had. */
  predicate Unites(json: Codec, l: DictValue, r: DictValue, merged: DictValue, second: DictValue, log: bool, path: Path)
    requires json.Valid()
  {
    && WellFormed(merged) && WellFormed(second) && merged.vals == second.vals
    && merged.keys == l.keys + MP.Missing(r.keys, l.vals.Keys)
    && second.keys == r.keys + MP.Missing(l.keys, r.vals.Keys)
    && merged.vals.Keys == l.vals.Keys + r.vals.Keys
    && (forall k | k in l.vals && k in r.vals :: merged.vals[k] == Merge(json, l.vals[k], r.vals[k], log, path + [Key(k)]).result)
    && (forall k | k in l.vals && k !in r.vals :: merged.vals[k] == l.vals[k])
    && (forall k | k in r.vals && k !in l.vals :: merged.vals[k] == r.vals[k])
  }

  lemma TableUnites(json: Codec, l: DictValue, r: DictValue, log: bool, path: Path)
    requires json.Valid() && WellFormed(l) && WellFormed(r)
    ensures var o := Merge(json, l, r, log, path);
            Unites(json, l, r, o.left, o.right, log, path)
  {
    MP.DictMergeUnion(json, l, r, log, path);
    var o := Merge(json, l, r, log, path);
    SameEntries(o.left.vals, o.right.vals);
  }

  lemma SameEntries(m: map<Value, Value>, n: map<Value, Value>)
    requires m.Keys == n.Keys && forall k | k in m :: m[k] == n[k]
    ensures m == n
  {
  }

  /** The final merge over well-formed tables: each of device1's four tables
      and the table device2 held before sharing end with the same entries, the
      union of both sides with shared entries merged. */
  lemma MergeRecordsUnite(json: Codec, a: Record, b: Record)
    requires json.Valid()
    requires WellFormed(a.statusRange) && WellFormed(a.functions) && WellFormed(a.status) && WellFormed(a.localStrategy)
    requires WellFormed(b.statusRange) && WellFormed(b.functions) && WellFormed(b.status) && WellFormed(b.localStrategy)
    ensures var f := MergeRecords(json, a, b);
            && Unites(json, a.statusRange, b.statusRange, f.shared.statusRange, f.second.statusRange, true, [Field("status_range")])
            && Unites(json, a.functions, b.functions, f.shared.functions, f.second.functions, true, [Field("function")])
            && Unites(json, a.status, b.status, f.shared.status, f.second.status, false, [Field("status")])
            && Unites(json, a.localStrategy, b.localStrategy, f.shared.localStrategy, f.second.localStrategy, true, [Field("local_strategy")])
  {
    TableUnites(json, a.statusRange, b.statusRange, true, [Field("status_range")]);
    TableUnites(json, a.functions, b.functions, true, [Field("function")]);
    TableUnites(json, a.status, b.status, false, [Field("status")]);
    TableUnites(json, a.localStrategy, b.localStrategy, true, [Field("local_strategy")]);
  }
}
