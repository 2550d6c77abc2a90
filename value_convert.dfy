/** `XTMergingManager._prefer_non_default_value_convert(device1, device2)`: for
    every dpId both devices' `local_strategy` tables have, a `value_convert`
    that differs between the two is settled in favour of the one that is not
    "default". */
module ValueConvert {
  import opened PyValue
  import opened PyOps
  import opened Devices
  import opened TableWalk

  /** The first device gives way: its `value_convert` is "default" or None
      (absent keys read as None). */
  predicate GivesWay(vc1: Value)
  {
    vc1 == Str("default") || vc1 == Null
  }

  /** The body of `for dpId in device1.local_strategy`. */
  function PreferNonDefault(e1: Value, e2: Option<Value>): Visit
  {
    if e2.None? then Keep(e1, e2)
    else
      var vc1 := DictGet(e1, Str("value_convert"));
      if vc1.Err? then Raise(e1, e2, vc1.error)
      else
        var vc2 := DictGet(e2.value, Str("value_convert"));
        if vc2.Err? then Raise(e1, e2, vc2.error)
        else if PyEq(vc1.value, vc2.value) then Keep(e1, e2)
        else if GivesWay(vc1.value) then
          var x := Subscript(e2.value, "value_convert");
          if x.Err? then Raise(e1, e2, x.error)
          else Visit(Put(e1, Str("value_convert"), x.value), e2.value, None)
        else
          // A `value_convert` that is not None is present, so `device1`'s
          // subscript cannot raise here.
          Visit(e1, Put(e2.value, Str("value_convert"), e1.vals[Str("value_convert")]), None)
  }

  function PreferRule(): Rule
  {
    (dpId, e1, e2) => PreferNonDefault(e1, e2)
  }

  /** The whole loop over both `local_strategy` tables. */
  function Prefer(r1: Record, r2: Record): Stepped
  {
    var (l1, l2, err) := WalkDicts(PreferRule(), r1.localStrategy, r2.localStrategy);
    Stepped(r1.(localStrategy := l1), r2.(localStrategy := l2), err)
  }

  method PreferNonDefaultValueConvert(d1: Device, d2: Device) returns (err: Option<Failure>)
    requires Separate(d1, d2)
    modifies d1.localStrategy, d2.localStrategy
    ensures Stepped(d1.Snapshot(), d2.Snapshot(), err) == Prefer(old(d1.Snapshot()), old(d2.Snapshot()))
  {
    SeparateTables(d1, d2);
    err := WalkTables(d1.localStrategy, d2.localStrategy, PreferRule());
  }

  /** The two entries disagree on `value_convert` (Python's `!=`). */
  predicate Disagree(e1: Value, e2: Value)
    requires e1.Dict? && e2.Dict?
  {
    !PyEq(Get(e1, Str("value_convert")), Get(e2, Str("value_convert")))
  }

  /** The `value_convert` both entries hold after a disagreement: the second's
      when the first's is "default" or None, the first's otherwise. */
  function Winner(e1: Value, e2: Value): Value
    requires e1.Dict? && e2.Dict?
  {
    if GivesWay(Get(e1, Str("value_convert"))) then Get(e2, Str("value_convert")) else Get(e1, Str("value_convert"))
  }

  /** One pass on two dictionaries: when they agree nothing changes; when they
      disagree the loser is overwritten with the winner's value, so afterwards
      both hold the winner's `value_convert` and nothing else changed; the only
      way to raise is the winner having no `value_convert` key at all. */
  lemma PreferEntry(e1: Value, e2: Value)
    requires e1.Dict? && e2.Dict?
    ensures var v := PreferNonDefault(e1, Some(e2));
            var w := Winner(e1, e2);
            && (!Disagree(e1, e2) ==> v == Keep(e1, Some(e2)))
            && (Disagree(e1, e2) && v.err.None? ==>
                  && Str("value_convert") in v.left.vals && Str("value_convert") in v.right.vals
                  && v.left.vals[Str("value_convert")] == v.right.vals[Str("value_convert")] == w
                  && v.left.vals == e1.vals[Str("value_convert") := w]
                  && v.right.vals == e2.vals[Str("value_convert") := w])
            && (Disagree(e1, e2) ==>
                  (v.err.Some? <==> Str("value_convert") !in (if GivesWay(Get(e1, Str("value_convert"))) then e2 else e1).vals))
  {
  }

  /** The whole loop, over a well-formed first table: when it does not raise,
      the shared entries were dictionaries, and every shared dpId on which the two
      disagreed now holds the winner's `value_convert` on both sides and is
      otherwise unchanged; every other entry of either table is as it was. */
  lemma PreferTables(a: DictValue, b: DictValue)
    requires WellFormed(a)
    ensures var (a', b', err) := WalkDicts(PreferRule(), a, b);
            err.None? ==>
              && a'.keys == a.keys && b'.keys == b.keys
              && (forall k | k in a.vals && k in b.vals :: a.vals[k].Dict? && b.vals[k].Dict?)
              && (forall k | k in a.vals && k in b.vals && Disagree(a.vals[k], b.vals[k]) ::
                    var w := Winner(a.vals[k], b.vals[k]);
                    && a'.vals[k].Dict? && b'.vals[k].Dict?
                    && a'.vals[k].vals == a.vals[k].vals[Str("value_convert") := w]
                    && b'.vals[k].vals == b.vals[k].vals[Str("value_convert") := w])
              && (forall k | k in a.vals && !(k in b.vals && Disagree(a.vals[k], b.vals[k])) :: a'.vals[k] == a.vals[k])
              && (forall k | k in b.vals && !(k in a.vals && Disagree(a.vals[k], b.vals[k])) :: b'.vals[k] == b.vals[k])
  {
    var rule := PreferRule();
    WalkPointwise(rule, a, b);
    var (a', b', err) := WalkDicts(rule, a, b);
    if err.None? {
      forall k | k in a.vals && k in b.vals
        ensures rule(k, a.vals[k], Some(b.vals[k])).err.None?
      {
        WalkVisitsQuietly(rule, a, b, k);
      }
      forall k | k in a.vals && k in b.vals && a.vals[k].Dict? && b.vals[k].Dict? {
        PreferEntry(a.vals[k], b.vals[k]);
      }
    }
  }
}
