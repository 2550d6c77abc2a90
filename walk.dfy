/** The loop of every repair and alignment step except `_align_api_usage`, whose
    loop carries `prefer` from one dpId to the next (`ApiUsage.AlignUpTo`):
    `for key in device1.<table>: <body>`, where the body reads the entry of the
    first table and, when the second table has the key, the second table's entry,
    and writes back both entries. The body is given as a `Rule`; an exception
    raised by the body ends the loop, and the step, at once. */
module TableWalk {
  import opened PyValue
  import opened Devices
  import MP = MergeProperties

  /** What the body does at one key: the first table's new entry, the second
      table's new entry (written only when the second table has the key), and the
      exception the body raised, if any. */
  datatype Visit = Visit(left: Value, right: Value, err: Option<Failure>)

  /** A loop body: the key, the first table's entry, the second table's entry
      when it has the key. */
  type Rule = (Value, Value, Option<Value>) -> Visit

  /** A pass that changes neither entry. */
  function Keep(e1: Value, e2: Option<Value>): (v: Visit)
    ensures v.left == e1 && v.err.None? && (e2.Some? ==> v.right == e2.value)
  {
    Visit(e1, if e2.Some? then e2.value else Null, None)
  }

  /** A pass that raised before writing anything. */
  function Raise(e1: Value, e2: Option<Value>, f: Failure): (v: Visit)
    ensures v.left == e1 && v.err == Some(f) && (e2.Some? ==> v.right == e2.value)
  {
    Visit(e1, if e2.Some? then e2.value else Null, Some(f))
  }

  function Lookup(m: map<Value, Value>, k: Value): Option<Value>
  {
    if k in m then Some(m[k]) else None
  }

  datatype Walked = Walked(m1: map<Value, Value>, m2: map<Value, Value>, err: Option<Failure>)

  /** The first `n` passes of the loop over `keys`, the first table's keys. */
  function Walk(rule: Rule, keys: seq<Value>, m1: map<Value, Value>, m2: map<Value, Value>, n: nat): (w: Walked)
    requires n <= |keys|
    ensures forall k :: (k in w.m1 <==> k in m1) && (k in w.m2 <==> k in m2)
  {
    if n == 0 then Walked(m1, m2, None)
    else
      var w := Walk(rule, keys, m1, m2, n - 1);
      var k := keys[n - 1];
      if w.err.Some? || k !in w.m1 then w
      else
        var v := rule(k, w.m1[k], Lookup(w.m2, k));
        Walked(w.m1[k := v.left], if k in w.m2 then w.m2[k := v.right] else w.m2, v.err)
  }

  /** The whole loop on two tables' contents: both new contents (the key lists
      do not change) and the exception, if one ended it. */
  function WalkDicts(rule: Rule, a: DictValue, b: DictValue): (DictValue, DictValue, Option<Failure>)
  {
    var w := Walk(rule, a.keys, a.vals, b.vals, |a.keys|);
    (Dict(a.keys, w.m1), Dict(b.keys, w.m2), w.err)
  }

  /** `for key in t1: <rule>` on two different table objects. */
  method WalkTables(t1: Table, t2: Table, rule: Rule) returns (err: Option<Failure>)
    requires t1 != t2
    modifies t1, t2
    ensures t1.keys == old(t1.keys) && t2.keys == old(t2.keys)
    ensures Walked(t1.vals, t2.vals, err) == Walk(rule, old(t1.keys), old(t1.vals), old(t2.vals), |old(t1.keys)|)
  {
    var keys := t1.keys;
    ghost var m1, m2 := t1.vals, t2.vals;
    var i := 0;
    while i < |keys|
      invariant 0 <= i <= |keys| && t1.keys == keys && t2.keys == old(t2.keys)
      invariant Walk(rule, keys, m1, m2, i) == Walked(t1.vals, t2.vals, None)
    {
      err := Pass(t1, t2, rule, keys[i]);
      if err.Some? {
        WalkStops(rule, keys, m1, m2, i + 1, |keys|);
        return;
      }
      i := i + 1;
    }
    err := None;
  }

  /** One pass of the loop body, at `key`. */
  method Pass(t1: Table, t2: Table, rule: Rule, key: Value) returns (err: Option<Failure>)
    requires t1 != t2
    modifies t1, t2
    ensures t1.keys == old(t1.keys) && t2.keys == old(t2.keys)
    ensures key !in old(t1.vals) ==> t1.vals == old(t1.vals) && t2.vals == old(t2.vals) && err.None?
    ensures key in old(t1.vals) ==>
              var v := rule(key, old(t1.vals)[key], Lookup(old(t2.vals), key));
              && t1.vals == old(t1.vals)[key := v.left]
              && t2.vals == (if key in old(t2.vals) then old(t2.vals)[key := v.right] else old(t2.vals))
              && err == v.err
  {
    err := None;
    if key in t1.vals {
      var v := rule(key, t1.vals[key], Lookup(t2.vals, key));
      t1.vals := t1.vals[key := v.left];
      if key in t2.vals {
        t2.vals := t2.vals[key := v.right];
      }
      err := v.err;
    }
  }

  /** Once the body has raised, later keys are not visited. */
  lemma {:induction false} WalkStops(rule: Rule, keys: seq<Value>, m1: map<Value, Value>, m2: map<Value, Value>, n: nat, m: nat)
    requires n <= m <= |keys| && Walk(rule, keys, m1, m2, n).err.Some?
    ensures Walk(rule, keys, m1, m2, m) == Walk(rule, keys, m1, m2, n)
    decreases m
  {
    if m > n {
      WalkStops(rule, keys, m1, m2, n, m - 1);
    }
  }

  /** The first table once the keys in `seen` have had their pass. */
  function Applied1(rule: Rule, m1: map<Value, Value>, m2: map<Value, Value>, seen: set<Value>): map<Value, Value>
  {
    map k | k in m1 :: if k in seen then rule(k, m1[k], Lookup(m2, k)).left else m1[k]
  }

  /** The second table once the keys in `seen` have had their pass. */
  function Applied2(rule: Rule, m1: map<Value, Value>, m2: map<Value, Value>, seen: set<Value>): map<Value, Value>
  {
    map k | k in m2 :: if k in seen && k in m1 then rule(k, m1[k], Some(m2[k])).right else m2[k]
  }

  lemma AppliedStep(rule: Rule, m1: map<Value, Value>, m2: map<Value, Value>, seen: set<Value>, k: Value, seen': set<Value>)
    requires k in m1 && seen' == seen + {k}
    ensures var v := rule(k, m1[k], Lookup(m2, k));
            && Applied1(rule, m1, m2, seen') == Applied1(rule, m1, m2, seen)[k := v.left]
            && Applied2(rule, m1, m2, seen') ==
                 if k in m2 then Applied2(rule, m1, m2, seen)[k := v.right] else Applied2(rule, m1, m2, seen)
  {
  }

  /** Each key is visited once, with the entries it held before the loop. */
  lemma {:induction false} WalkState(rule: Rule, keys: seq<Value>, m1: map<Value, Value>, m2: map<Value, Value>, n: nat)
    requires n <= |keys| && Distinct(keys) && forall i | 0 <= i < |keys| :: keys[i] in m1
    ensures var w := Walk(rule, keys, m1, m2, n);
            w.err.None? ==>
              && w.m1 == Applied1(rule, m1, m2, MP.Seen(keys, n))
              && w.m2 == Applied2(rule, m1, m2, MP.Seen(keys, n))
  {
    if n > 0 {
      var w := Walk(rule, keys, m1, m2, n - 1);
      var k := keys[n - 1];
      var seen := MP.Seen(keys, n - 1);
      if w.err.None? {
        WalkState(rule, keys, m1, m2, n - 1);
        MP.NotSeenLater(keys, n - 1, n - 1);
        assert w.m1[k] == m1[k];
        assert k in w.m2 ==> w.m2[k] == m2[k];
        assert Lookup(w.m2, k) == Lookup(m2, k);
        AppliedStep(rule, m1, m2, seen, k, MP.Seen(keys, n));
      }
    }
  }

  /** The whole loop over a well-formed first table: when no pass raised, every
      entry of the first table is what the body made of it, every key the two
      share has the second table's entry the body made, and the second table's
      other entries are as they were. Key lists stay, so both tables stay well
      formed. */
  lemma WalkPointwise(rule: Rule, a: DictValue, b: DictValue)
    requires WellFormed(a)
    ensures var (a', b', err) := WalkDicts(rule, a, b);
            && a'.keys == a.keys && a'.vals.Keys == a.vals.Keys
            && b'.keys == b.keys && b'.vals.Keys == b.vals.Keys
            && WellFormed(a') && (WellFormed(b) ==> WellFormed(b'))
            && (err.None? ==>
                  && (forall k | k in a.vals :: a'.vals[k] == rule(k, a.vals[k], Lookup(b.vals, k)).left)
                  && (forall k | k in b.vals && k in a.vals :: b'.vals[k] == rule(k, a.vals[k], Some(b.vals[k])).right)
                  && (forall k | k in b.vals && k !in a.vals :: b'.vals[k] == b.vals[k]))
  {
    WalkState(rule, a.keys, a.vals, b.vals, |a.keys|);
    MP.SeenWhole(a.keys);
  }

  /** When the loop ends without an exception, no pass raised one. */
  lemma WalkVisitsQuietly(rule: Rule, a: DictValue, b: DictValue, k: Value)
    requires WellFormed(a) && k in a.vals && WalkDicts(rule, a, b).2.None?
    ensures rule(k, a.vals[k], Lookup(b.vals, k)).err.None?
  {
    var i :| 0 <= i < |a.keys| && a.keys[i] == k;
    QuietBefore(rule, a.keys, a.vals, b.vals, i + 1, |a.keys|);
    WalkState(rule, a.keys, a.vals, b.vals, i);
    MP.NotSeenLater(a.keys, i, i);
  }

  lemma {:induction false} QuietBefore(rule: Rule, keys: seq<Value>, m1: map<Value, Value>, m2: map<Value, Value>, n: nat, m: nat)
    requires n <= m <= |keys| && Walk(rule, keys, m1, m2, m).err.None?
    ensures Walk(rule, keys, m1, m2, n).err.None?
    decreases m
  {
    if m > n {
      QuietBefore(rule, keys, m1, m2, n, m - 1);
    }
  }

  /** What a pass leaves in the first table and raises, given the second table's entry. */
  function StepOn(rule: Rule, k: Value, e1: Value, x: Value): (Value, Option<Failure>)
  {
    (rule(k, e1, Some(x)).left, rule(k, e1, Some(x)).err)
  }

  /** A pass that reads of the second table's entry only whether there is one. */
  ghost predicate KeyBlind(rule: Rule)
  {
    forall k, e1, x, y :: StepOn(rule, k, e1, x) == StepOn(rule, k, e1, y)
  }

  lemma KeyBlindAt(rule: Rule, k: Value, e1: Value, x: Value, y: Value)
    requires KeyBlind(rule)
    ensures rule(k, e1, Some(x)).left == rule(k, e1, Some(y)).left
    ensures rule(k, e1, Some(x)).err == rule(k, e1, Some(y)).err
  {
    assert StepOn(rule, k, e1, x) == StepOn(rule, k, e1, y);
  }

  /** Two walks that left the first table and the exception alike. */
  predicate Agree(w1: Walked, w2: Walked)
  {
    w1.m1 == w2.m1 && w1.err == w2.err
  }

  /** One more step of the loop keeps the two walks' first tables and exceptions
      equal when the pass reads only whether the second table has the key. */
  lemma WalkKeyBlindStep(rule: Rule, keys: seq<Value>, m1: map<Value, Value>,
                         b: map<Value, Value>, c: map<Value, Value>, n: nat)
    requires 0 < n <= |keys| && b.Keys == c.Keys && KeyBlind(rule)
    requires Agree(Walk(rule, keys, m1, b, n - 1), Walk(rule, keys, m1, c, n - 1))
    ensures Agree(Walk(rule, keys, m1, b, n), Walk(rule, keys, m1, c, n))
  {
    var wb, wc := Walk(rule, keys, m1, b, n - 1), Walk(rule, keys, m1, c, n - 1);
    var k := keys[n - 1];
    if wb.err.None? && k in wb.m1 {
      if k in b {
        assert Lookup(wb.m2, k) == Some(wb.m2[k]) && Lookup(wc.m2, k) == Some(wc.m2[k]);
        KeyBlindAt(rule, k, wb.m1[k], wb.m2[k], wc.m2[k]);
      } else {
        assert Lookup(wb.m2, k) == None == Lookup(wc.m2, k);
      }
    }
  }

  /** With such a pass, the first `n` steps of the loop leave the first table and
      the exception the same for any two second tables with the same keys. */
  lemma {:induction false} WalkKeyBlind(rule: Rule, keys: seq<Value>, m1: map<Value, Value>,
                                        b: map<Value, Value>, c: map<Value, Value>, n: nat)
    requires n <= |keys| && b.Keys == c.Keys && KeyBlind(rule)
    ensures Agree(Walk(rule, keys, m1, b, n), Walk(rule, keys, m1, c, n))
  {
    if n > 0 {
      WalkKeyBlind(rule, keys, m1, b, c, n - 1);
      WalkKeyBlindStep(rule, keys, m1, b, c, n);
    }
  }

  /** A rule that never raises gives a loop that never raises. */
  lemma {:induction false} WalkNeverRaises(rule: Rule, keys: seq<Value>, m1: map<Value, Value>, m2: map<Value, Value>, n: nat)
    requires n <= |keys| && forall k, e1, e2 :: rule(k, e1, e2).err.None?
    ensures Walk(rule, keys, m1, m2, n).err.None?
  {
    if n > 0 {
      WalkNeverRaises(rule, keys, m1, m2, n - 1);
    }
  }

  /** No pass raises on the entries the tables hold. */
  predicate Quiet(rule: Rule, m1: map<Value, Value>, m2: map<Value, Value>)
  {
    forall k | k in m1 :: rule(k, m1[k], Lookup(m2, k)).err.None?
  }

  /** A loop none of whose passes raises on the entries the tables held before it
      ends without an exception. */
  lemma {:induction false} WalkQuiet(rule: Rule, keys: seq<Value>, m1: map<Value, Value>, m2: map<Value, Value>, n: nat)
    requires n <= |keys| && Distinct(keys) && (forall i | 0 <= i < |keys| :: keys[i] in m1) && Quiet(rule, m1, m2)
    ensures Walk(rule, keys, m1, m2, n).err.None?
  {
    if n > 0 {
      WalkQuiet(rule, keys, m1, m2, n - 1);
      WalkUntouched(rule, keys, m1, m2, n - 1);
      assert rule(keys[n - 1], m1[keys[n - 1]], Lookup(m2, keys[n - 1])).err.None?;
    }
  }

  /** Before its own pass, a key still holds its entries from before the loop. */
  lemma WalkUntouched(rule: Rule, keys: seq<Value>, m1: map<Value, Value>, m2: map<Value, Value>, n: nat)
    requires n < |keys| && Distinct(keys) && forall i | 0 <= i < |keys| :: keys[i] in m1
    requires Walk(rule, keys, m1, m2, n).err.None?
    ensures var w := Walk(rule, keys, m1, m2, n);
            keys[n] in w.m1 && w.m1[keys[n]] == m1[keys[n]] && Lookup(w.m2, keys[n]) == Lookup(m2, keys[n])
  {
    WalkState(rule, keys, m1, m2, n);
    MP.NotSeenLater(keys, n, n);
  }

  /** The loop over a well-formed first table raises exactly when the body raises
      on some entry as it stood before the loop. */
  lemma WalkRaisesIff(rule: Rule, a: DictValue, b: DictValue)
    requires WellFormed(a)
    ensures WalkDicts(rule, a, b).2.None? <==> forall k | k in a.vals :: rule(k, a.vals[k], Lookup(b.vals, k)).err.None?
  {
    if Quiet(rule, a.vals, b.vals) {
      WalkQuiet(rule, a.keys, a.vals, b.vals, |a.keys|);
    } else {
      var k :| k in a.vals && rule(k, a.vals[k], Lookup(b.vals, k)).err.Some?;
      if WalkDicts(rule, a, b).2.None? {
        WalkVisitsQuietly(rule, a, b, k);
      }
    }
  }
}
