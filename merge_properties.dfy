/** What smart_merge guarantees, for all inputs: the union laws for dictionaries
    and lists, the set and string rules, and what merging a value with itself does. */
module MergeProperties {
  import opened PyValue
  import opened Json
  import opened SmartMerge

  /** The elements of `src`, in order, that are not in `present`. */
  function Missing(src: seq<Value>, present: set<Value>): (r: seq<Value>)
    ensures forall x | x in r :: x in src && x !in present
  {
    if src == [] then []
    else Missing(src[..|src| - 1], present) + (if src[|src| - 1] in present then [] else [src[|src| - 1]])
  }

  lemma {:induction false} MissingConcat(a: seq<Value>, b: seq<Value>, present: set<Value>)
    ensures Missing(a + b, present) == Missing(a, present) + Missing(b, present)
    decreases |b|
  {
    if b != [] {
      var b' := b[..|b| - 1];
      assert (a + b)[..|a + b| - 1] == a + b';
      MissingConcat(a, b', present);
    } else {
      assert a + b == a;
    }
  }

  lemma {:induction false} MissingMembers(src: seq<Value>, present: set<Value>)
    ensures forall x :: x in Missing(src, present) <==> x in src && x !in present
    decreases |src|
  {
    if src != [] {
      var src' := src[..|src| - 1];
      MissingMembers(src', present);
      assert src == src' + [src[|src| - 1]];
    }
  }

  lemma {:induction false} MissingNone(src: seq<Value>, present: set<Value>)
    requires forall x | x in src :: x in present
    ensures Missing(src, present) == []
    decreases |src|
  {
    if src != [] {
      MissingNone(src[..|src| - 1], present);
    }
  }

  lemma {:induction false} MissingDistinct(src: seq<Value>, present: set<Value>)
    requires Distinct(src)
    ensures Distinct(Missing(src, present))
    decreases |src|
  {
    if src != [] {
      var src' := src[..|src| - 1];
      MissingDistinct(src', present);
      MissingMembers(src', present);
      var x := src[|src| - 1];
      assert x !in src';
    }
  }

  /** What the append loop `for x in src: if x not in dst: dst.append(x)` leaves:
      the old list as a prefix, then, once each, the items of src that `==` nothing
      already there; afterwards every item of src `==` some item of the list. */
  lemma {:induction false} AppendMissingSpec(dst: seq<Value>, src: seq<Value>)
    ensures var r := AppendMissing(dst, src);
            && |r| >= |dst| && r[..|dst|] == dst
            && (forall x | x in r :: x in dst || x in src)
            && (forall x | x in src :: ListHas(r, x))
            && (forall i | |dst| <= i < |r| :: r[i] in src && !ListHas(dst, r[i]))
            && (forall i, j | |dst| <= i < j < |r| :: !PyEq(r[i], r[j]))
    decreases |src|
  {
    if src != [] {
      var src' := src[..|src| - 1];
      var x := src[|src| - 1];
      AppendMissingSpec(dst, src');
      assert src == src' + [x];
      var d := AppendMissing(dst, src');
      if !ListHas(d, x) {
        var r := d + [x];
        assert forall i | 0 <= i < |d| :: r[i] == d[i];
        assert forall y | y in src' :: ListHas(r, y) by {
          forall y | y in src' ensures ListHas(r, y) {
            var i :| 0 <= i < |d| && PyEq(d[i], y);
            assert PyEq(r[i], y);
          }
        }
        ListHasItem(r, |d|);
        forall i | |dst| <= i < |d| ensures !PyEq(r[i], x) {
          assert r[i] == d[i];
        }
        assert r[..|dst|] == d[..|dst|];
      }
    }
  }

  /** Merging two lists: the left keeps its items as a prefix and gains, once each,
      only right items it had no equal of; the right likewise gains the left's; and
      afterwards each list holds an equal of every item of either. The left list is
      returned. */
  lemma ListMergeUnion(json: Codec, xs: seq<Value>, ys: seq<Value>, log: bool, path: Path)
    requires json.Valid()
    ensures var o := Merge(json, List(xs), List(ys), log, path);
            && o.result == o.left && o.left.List? && o.right.List? && o.msgs == []
            && |o.left.items| >= |xs| && o.left.items[..|xs|] == xs
            && |o.right.items| >= |ys| && o.right.items[..|ys|] == ys
            && (forall i | |xs| <= i < |o.left.items| :: !ListHas(xs, o.left.items[i]) && o.left.items[i] in ys)
            && (forall i | |ys| <= i < |o.right.items| :: !ListHas(ys, o.right.items[i]) && o.right.items[i] in xs)
            && (forall i, j | |xs| <= i < j < |o.left.items| :: !PyEq(o.left.items[i], o.left.items[j]))
            && (forall i, j | |ys| <= i < j < |o.right.items| :: !PyEq(o.right.items[i], o.right.items[j]))
            && (forall x | x in xs || x in ys :: ListHas(o.left.items, x) && ListHas(o.right.items, x))
  {
    var right := AppendMissing(ys, xs);
    AppendMissingSpec(ys, xs);
    AppendMissingSpec(xs, right);
    var left := AppendMissing(xs, right);
    forall i | |xs| <= i < |left| ensures left[i] in ys {
      if left[i] !in ys {
        var k :| 0 <= k < |xs| && xs[k] == left[i];
        ListHasItem(xs, k);
      }
    }
    forall x | x in ys ensures ListHas(right, x) {
      var k :| 0 <= k < |ys| && ys[k] == x;
      assert right[k] == x;
      ListHasItem(right, k);
    }
    forall x | x in xs ensures ListHas(left, x) {
      var k :| 0 <= k < |xs| && xs[k] == x;
      assert left[k] == x;
      ListHasItem(left, k);
    }
    forall x | x in ys ensures ListHas(left, x) {
      var k :| 0 <= k < |ys| && ys[k] == x;
      assert right[k] in right;
    }
  }

  /** Two lists each of which holds an equal of every item of the other are both
      left as they were, whether or not the items are identical. */
  lemma MutuallyPresentKept(json: Codec, xs: seq<Value>, ys: seq<Value>, log: bool, path: Path)
    requires json.Valid()
    requires forall x | x in xs :: ListHas(ys, x)
    requires forall y | y in ys :: ListHas(xs, y)
    ensures Merge(json, List(xs), List(ys), log, path) == Outcome(List(xs), List(xs), List(ys), [])
  {
    AppendMissingPresent(ys, xs);
    AppendMissingPresent(xs, ys);
  }

  /** `[1]` merged with `[True]` appends nothing, since `True == 1`. */
  lemma BoolEqualsInt(json: Codec, log: bool, path: Path)
    requires json.Valid()
    ensures Merge(json, List([Int(1)]), List([Bool(true)]), log, path)
            == Outcome(List([Int(1)]), List([Int(1)]), List([Bool(true)]), [])
  {
    assert PyEq([Bool(true)][0], Int(1)) && PyEq([Int(1)][0], Bool(true));
    MutuallyPresentKept(json, [Int(1)], [Bool(true)], log, path);
  }

  /** A dictionary equals the same dictionary with its keys in another order, so
      merging the two one-item lists appends nothing. */
  lemma ReorderedDictEqual(json: Codec, log: bool, path: Path)
    requires json.Valid()
    ensures var a, b := Str("a"), Str("b");
            var d1 := Dict([a, b], map[a := Int(1), b := Int(2)]);
            var d2 := Dict([b, a], map[b := Int(2), a := Int(1)]);
            Merge(json, List([d1]), List([d2]), log, path) == Outcome(List([d1]), List([d1]), List([d2]), [])
  {
    var a, b := Str("a"), Str("b");
    var d1 := Dict([a, b], map[a := Int(1), b := Int(2)]);
    var d2 := Dict([b, a], map[b := Int(2), a := Int(1)]);
    assert PyEq([d2][0], d1) && PyEq([d1][0], d2);
    MutuallyPresentKept(json, [d1], [d2], log, path);
  }

  /** The left's entries once the `for key in left` loop has visited the keys in
      `seen`: each visited shared key holds its merged value. */
  function VisitLeft(lv: map<Value, Value>, rv: map<Value, Value>, children: map<Value, Outcome>, seen: set<Value>)
    : (m: map<Value, Value>)
    requires lv.Keys * rv.Keys <= children.Keys
    ensures m.Keys == lv.Keys
  {
    map k | k in lv :: if k in seen && k in rv then children[k].result else lv[k]
  }

  /** The right's entries once the `for key in left` loop has visited the keys in
      `seen`: each visited shared key holds its merged value, each visited
      left-only key has been copied over. */
  function VisitRight(lv: map<Value, Value>, rv: map<Value, Value>, children: map<Value, Outcome>, seen: set<Value>)
    : (m: map<Value, Value>)
    requires lv.Keys * rv.Keys <= children.Keys && seen <= lv.Keys
    ensures m.Keys == rv.Keys + seen
  {
    map k | k in rv.Keys + seen :: if k in seen then (if k in rv then children[k].result else lv[k]) else rv[k]
  }

  /** The left's entries once the `for key in right` loop has visited the keys in
      `seen`: each visited key it lacked holds the right's value. */
  function Fill(lv: map<Value, Value>, rv: map<Value, Value>, seen: set<Value>): (m: map<Value, Value>)
    requires seen <= rv.Keys
    ensures m.Keys == lv.Keys + seen
  {
    map k | k in lv.Keys + seen :: if k in lv then lv[k] else rv[k]
  }

  lemma VisitStep(lv: map<Value, Value>, rv: map<Value, Value>, children: map<Value, Outcome>,
                  seen: set<Value>, k: Value, seen': set<Value>)
    requires lv.Keys * rv.Keys <= children.Keys && seen <= lv.Keys && k in lv && seen' == seen + {k}
    ensures VisitLeft(lv, rv, children, seen') ==
              if k in rv then VisitLeft(lv, rv, children, seen)[k := children[k].result]
              else VisitLeft(lv, rv, children, seen)
    ensures VisitRight(lv, rv, children, seen') ==
              if k in rv then VisitRight(lv, rv, children, seen)[k := children[k].result]
              else VisitRight(lv, rv, children, seen)[k := lv[k]]
  {
  }

  lemma FillStep(lv: map<Value, Value>, rv: map<Value, Value>, seen: set<Value>, k: Value, seen': set<Value>)
    requires seen <= rv.Keys && k in rv && seen' == seen + {k}
    ensures Fill(lv, rv, seen') == if k in lv then Fill(lv, rv, seen) else Fill(lv, rv, seen)[k := rv[k]]
  {
  }

  /** The first `n` elements of `xs`, as a set. */
  function Seen(xs: seq<Value>, n: nat): set<Value>
    requires n <= |xs|
  {
    if n == 0 then {} else Seen(xs, n - 1) + {xs[n - 1]}
  }

  /** `Missing` of the first `n` elements, one element at a time. */
  function MissingUpTo(xs: seq<Value>, n: nat, present: set<Value>): seq<Value>
    requires n <= |xs|
  {
    if n == 0 then [] else MissingUpTo(xs, n - 1, present) + (if xs[n - 1] in present then [] else [xs[n - 1]])
  }

  lemma {:induction false} SeenMembers(xs: seq<Value>, n: nat)
    requires n <= |xs|
    ensures forall x :: x in Seen(xs, n) <==> x in xs[..n]
  {
    if n > 0 {
      SeenMembers(xs, n - 1);
      assert xs[..n] == xs[..n - 1] + [xs[n - 1]];
    }
  }

  lemma {:induction false} NotSeenLater(xs: seq<Value>, n: nat, j: nat)
    requires Distinct(xs) && n <= j < |xs|
    ensures xs[j] !in Seen(xs, n)
  {
    if n > 0 {
      NotSeenLater(xs, n - 1, j);
    }
  }

  lemma {:induction false} MissingUpToIsMissing(xs: seq<Value>, n: nat, present: set<Value>)
    requires n <= |xs|
    ensures MissingUpTo(xs, n, present) == Missing(xs[..n], present)
  {
    if n > 0 {
      MissingUpToIsMissing(xs, n - 1, present);
      assert xs[..n][..n - 1] == xs[..n - 1];
    } else {
      assert xs[..0] == [];
    }
  }

  lemma MissingUpToWhole(xs: seq<Value>, present: set<Value>)
    ensures MissingUpTo(xs, |xs|, present) == Missing(xs, present)
  {
    MissingUpToIsMissing(xs, |xs|, present);
    assert xs[..|xs|] == xs;
  }

  lemma SharedPassStep(l: Value, r: Value, children: map<Value, Outcome>, n: nat)
    requires l.Dict? && r.Dict? && 0 < n <= |l.keys| && l.keys[n - 1] in l.vals && l.vals.Keys * r.vals.Keys <= children.Keys
    ensures var s0 := SharedPass(l, r, children, n - 1);
            var s := SharedPass(l, r, children, n);
            var k := l.keys[n - 1];
            && k in l.vals
            && (k in r.vals ==>
                  && s.lk == s0.lk && s.rk == s0.rk
                  && s.lv == s0.lv[k := children[k].result] && s.rv == s0.rv[k := children[k].result])
            && (k !in r.vals ==> s.lk == s0.lk && s.rk == s0.rk + [k] && s.lv == s0.lv && s.rv == s0.rv[k := l.vals[k]])
  {
  }

  /** The `for key in left` loop, after `n` keys: the left has the merged value at
      each shared key seen so far; the right has it too, and has gained each
      left-only key seen so far, appended in the left's order. */
  lemma {:induction false} SharedPassState(l: Value, r: Value, children: map<Value, Outcome>, n: nat)
    requires l.Dict? && r.Dict? && n <= |l.keys| && l.vals.Keys * r.vals.Keys <= children.Keys
    requires forall i | 0 <= i < |l.keys| :: l.keys[i] in l.vals
    ensures Seen(l.keys, n) <= l.vals.Keys
    ensures var s := SharedPass(l, r, children, n);
            && s.lk == l.keys
            && s.rk == r.keys + MissingUpTo(l.keys, n, r.vals.Keys)
            && s.lv == VisitLeft(l.vals, r.vals, children, Seen(l.keys, n))
            && s.rv == VisitRight(l.vals, r.vals, children, Seen(l.keys, n))
  {
    if n > 0 {
      SharedPassState(l, r, children, n - 1);
      SharedPassStep(l, r, children, n);
      VisitStep(l.vals, r.vals, children, Seen(l.keys, n - 1), l.keys[n - 1], Seen(l.keys, n));
      var m0 := MissingUpTo(l.keys, n - 1, r.vals.Keys);
      AppendAssoc(r.keys, m0, [l.keys[n - 1]]);
      assert m0 + [] == m0;
    } else {
      assert r.keys + [] == r.keys;
      assert VisitLeft(l.vals, r.vals, children, {}) == l.vals;
      assert VisitRight(l.vals, r.vals, children, {}) == r.vals;
    }
  }

  lemma FillUpToStep(s: DictState, n: nat)
    requires 0 < n <= |s.rk|
    ensures var t0 := FillUpTo(s, n - 1);
            var k := s.rk[n - 1];
            FillUpTo(s, n) == if k in t0.lv || k !in s.rv then t0 else t0.(lk := t0.lk + [k], lv := t0.lv[k := s.rv[k]])
  {
  }

  /** The `for key in right` loop, after `n` keys: the left has gained each key of
      the right it lacked, in the right's order, with the right's value. */
  lemma {:induction false} FillUpToState(s: DictState, n: nat)
    requires n <= |s.rk| && Distinct(s.rk) && forall i | 0 <= i < |s.rk| :: s.rk[i] in s.rv
    ensures Seen(s.rk, n) <= s.rv.Keys
    ensures var t := FillUpTo(s, n);
            && t.lk == s.lk + MissingUpTo(s.rk, n, s.lv.Keys)
            && t.lv == Fill(s.lv, s.rv, Seen(s.rk, n))
  {
    if n > 0 {
      FillUpToState(s, n - 1);
      FillUpToStep(s, n);
      var k := s.rk[n - 1];
      FillStep(s.lv, s.rv, Seen(s.rk, n - 1), k, Seen(s.rk, n));
      NotSeenLater(s.rk, n - 1, n - 1);
      var m0 := MissingUpTo(s.rk, n - 1, s.lv.Keys);
      AppendAssoc(s.lk, m0, [k]);
      assert m0 + [] == m0;
    } else {
      assert s.lk + [] == s.lk;
      assert Fill(s.lv, s.rv, {}) == s.lv;
    }
  }

  lemma AppendAssoc(a: seq<Value>, b: seq<Value>, c: seq<Value>)
    ensures a + b + c == a + (b + c)
  {
  }

  lemma SeenWhole(xs: seq<Value>)
    ensures forall x :: x in Seen(xs, |xs|) <==> x in xs
  {
    SeenMembers(xs, |xs|);
    assert xs[..|xs|] == xs;
  }

  /** A list of keys followed by the other list's keys it lacks: no key twice, and
      every key of either. */
  lemma UnionKeys(lk: seq<Value>, rk: seq<Value>, L: set<Value>, R: set<Value>)
    requires Distinct(lk) && Distinct(rk)
    requires (forall x | x in lk :: x in L) && (forall x | x in L :: x in lk)
    requires (forall x | x in rk :: x in R) && (forall x | x in R :: x in rk)
    ensures Distinct(lk + Missing(rk, L))
    ensures forall x :: x in lk + Missing(rk, L) <==> x in L + R
  {
    var m := Missing(rk, L);
    MissingMembers(rk, L);
    MissingDistinct(rk, L);
    forall i, j | 0 <= i < j < |lk + m| ensures (lk + m)[i] != (lk + m)[j] {
      if j >= |lk| {
        assert (lk + m)[j] == m[j - |lk|];
        assert (lk + m)[j] in m;
        if i >= |lk| {
          assert (lk + m)[i] == m[i - |lk|];
        } else {
          assert (lk + m)[i] in lk;
        }
      }
    }
  }

  /** After both loops over two dictionaries with key sets L and R: the left's
      entries, and the right's, hold the merged value at a shared key and the
      one side's value at a one-sided key. */
  lemma UnionValues(lv: map<Value, Value>, rv: map<Value, Value>, children: map<Value, Outcome>)
    requires lv.Keys * rv.Keys <= children.Keys
    ensures var sl := VisitLeft(lv, rv, children, lv.Keys);
            var sr := VisitRight(lv, rv, children, lv.Keys);
            var fl := Fill(sl, sr, sr.Keys);
            && fl.Keys == lv.Keys + rv.Keys == sr.Keys
            && (forall k | k in lv && k in rv :: fl[k] == sr[k] == children[k].result)
            && (forall k | k in lv && k !in rv :: fl[k] == sr[k] == lv[k])
            && (forall k | k in rv && k !in lv :: fl[k] == sr[k] == rv[k])
  {
  }

  /** Merging two dictionaries: both end up with the same keys, the union of the
      originals; a shared key holds the recursively merged value on both sides; a
      one-sided key is copied across unchanged. The left keeps its key order and
      gains the right-only keys at the end, in the right's order; the right
      likewise. Both stay well formed, and the left dictionary is returned. */
  lemma DictMergeUnion(json: Codec, l: Value, r: Value, log: bool, path: Path)
    requires json.Valid() && WellFormed(l) && WellFormed(r)
    ensures var o := Merge(json, l, r, log, path);
            && o.result == o.left
            && WellFormed(o.left) && WellFormed(o.right)
            && o.left.keys == l.keys + Missing(r.keys, l.vals.Keys)
            && o.right.keys == r.keys + Missing(l.keys, r.vals.Keys)
            && o.left.vals.Keys == l.vals.Keys + r.vals.Keys == o.right.vals.Keys
            && (forall k | k in l.vals && k in r.vals ::
                  o.left.vals[k] == o.right.vals[k] == Merge(json, l.vals[k], r.vals[k], log, path + [Key(k)]).result)
            && (forall k | k in l.vals && k !in r.vals :: o.left.vals[k] == o.right.vals[k] == l.vals[k])
            && (forall k | k in r.vals && k !in l.vals :: o.left.vals[k] == o.right.vals[k] == r.vals[k])
  {
    var children := Children(json, l, r, log, path);
    DictBranch(json, l, r, log, path);
    DictPasses(l, r, children);
  }

  /** The two key loops, for any outcomes of the shared keys' merges. */
  lemma DictPasses(l: Value, r: Value, children: map<Value, Outcome>)
    requires WellFormed(l) && WellFormed(r) && l.vals.Keys * r.vals.Keys <= children.Keys
    ensures var s := SharedPass(l, r, children, |l.keys|);
            var t := FillUpTo(s, |s.rk|);
            && WellFormed(Dict(t.lk, t.lv)) && WellFormed(Dict(s.rk, s.rv))
            && t.lk == l.keys + Missing(r.keys, l.vals.Keys)
            && s.rk == r.keys + Missing(l.keys, r.vals.Keys)
            && t.lv.Keys == l.vals.Keys + r.vals.Keys == s.rv.Keys
            && (forall k | k in l.vals && k in r.vals :: t.lv[k] == s.rv[k] == children[k].result)
            && (forall k | k in l.vals && k !in r.vals :: t.lv[k] == s.rv[k] == l.vals[k])
            && (forall k | k in r.vals && k !in l.vals :: t.lv[k] == s.rv[k] == r.vals[k])
  {
    var s := SharedPass(l, r, children, |l.keys|);
    var t := FillUpTo(s, |s.rk|);
    SharedFacts(l, r, children);
    FillFacts(l, r, children);
    Assemble(l, r, children, t.lk, t.lv, s.rk, s.rv);
  }

  /** What the two loops leave behind, described without the loops. */
  lemma Assemble(l: Value, r: Value, children: map<Value, Outcome>,
                 lk: seq<Value>, lv: map<Value, Value>, rk: seq<Value>, rv: map<Value, Value>)
    requires WellFormed(l) && WellFormed(r) && l.vals.Keys * r.vals.Keys <= children.Keys
    requires lk == l.keys + Missing(r.keys, l.vals.Keys) && rk == r.keys + Missing(l.keys, r.vals.Keys)
    requires rv == VisitRight(l.vals, r.vals, children, l.vals.Keys)
    requires lv == Fill(VisitLeft(l.vals, r.vals, children, l.vals.Keys), rv, rv.Keys)
    ensures && WellFormed(Dict(lk, lv)) && WellFormed(Dict(rk, rv))
            && lv.Keys == l.vals.Keys + r.vals.Keys == rv.Keys
            && (forall k | k in l.vals && k in r.vals :: lv[k] == rv[k] == children[k].result)
            && (forall k | k in l.vals && k !in r.vals :: lv[k] == rv[k] == l.vals[k])
            && (forall k | k in r.vals && k !in l.vals :: lv[k] == rv[k] == r.vals[k])
  {
    UnionValues(l.vals, r.vals, children);
    UnionDict(l, r, lv);
    UnionDict(r, l, rv);
  }

  lemma SharedFacts(l: Value, r: Value, children: map<Value, Outcome>)
    requires WellFormed(l) && WellFormed(r) && l.vals.Keys * r.vals.Keys <= children.Keys
    ensures var s := SharedPass(l, r, children, |l.keys|);
            && s.lk == l.keys && s.rk == r.keys + Missing(l.keys, r.vals.Keys)
            && s.lv == VisitLeft(l.vals, r.vals, children, l.vals.Keys)
            && s.rv == VisitRight(l.vals, r.vals, children, l.vals.Keys)
  {
    SharedPassState(l, r, children, |l.keys|);
    SeenWhole(l.keys);
    assert Seen(l.keys, |l.keys|) == l.vals.Keys;
    MissingUpToWhole(l.keys, r.vals.Keys);
  }

  lemma FillFacts(l: Value, r: Value, children: map<Value, Outcome>)
    requires WellFormed(l) && WellFormed(r) && l.vals.Keys * r.vals.Keys <= children.Keys
    ensures var s := SharedPass(l, r, children, |l.keys|);
            var t := FillUpTo(s, |s.rk|);
            t.lk == l.keys + Missing(r.keys, l.vals.Keys) && t.lv == Fill(s.lv, s.rv, s.rv.Keys)
  {
    var L, R := l.vals.Keys, r.vals.Keys;
    var s := SharedPass(l, r, children, |l.keys|);
    SharedFacts(l, r, children);
    UnionKeys(r.keys, l.keys, R, L);
    FillUpToState(s, |s.rk|);
    SeenWhole(s.rk);
    assert Seen(s.rk, |s.rk|) == s.rv.Keys;
    MissingUpToWhole(s.rk, L);
    MissingConcat(r.keys, Missing(l.keys, R), L);
    MissingMembers(l.keys, R);
    MissingNone(Missing(l.keys, R), L);
    assert Missing(r.keys, L) + [] == Missing(r.keys, L);
  }

  /** The key list a merged dictionary ends up with, beside any entries over the
      union of the two key sets, is a well-formed dictionary. */
  lemma UnionDict(l: Value, r: Value, m: map<Value, Value>)
    requires WellFormed(l) && WellFormed(r) && m.Keys == l.vals.Keys + r.vals.Keys
    ensures WellFormed(Dict(l.keys + Missing(r.keys, l.vals.Keys), m))
  {
    UnionKeys(l.keys, r.keys, l.vals.Keys, r.vals.Keys);
  }

  /** The dictionary branch of `Merge`, unfolded. */
  lemma DictBranch(json: Codec, l: Value, r: Value, log: bool, path: Path)
    requires json.Valid() && l.Dict? && r.Dict?
    ensures var s := SharedPass(l, r, Children(json, l, r, log, path), |l.keys|);
            var t := FillUpTo(s, |s.rk|);
            Merge(json, l, r, log, path) == Outcome(Dict(t.lk, t.lv), Dict(t.lk, t.lv), Dict(s.rk, s.rv), t.msgs)
  {
  }

  /** Inside a dictionary, two sets under the same key both become None: the set
      branch returns what `set.update` returns. */
  lemma SetsInDictBecomeNone(json: Codec, l: Value, r: Value, k: Value, log: bool, path: Path)
    requires json.Valid() && WellFormed(l) && WellFormed(r)
    requires k in l.vals && k in r.vals && l.vals[k].Set? && r.vals[k].Set?
    ensures var o := Merge(json, l, r, log, path);
            && k in o.left.vals && k in o.right.vals
            && o.left.vals[k] == Null && o.right.vals[k] == Null
  {
    DictMergeUnion(json, l, r, log, path);
    SetMergeIsNone(json, l.vals[k].elems, r.vals[k].elems, log, path + [Key(k)]);
  }

  /** The string rule: two JSON strings merge as their parsed values and are
      re-serialised; when only one parses, its re-serialisation wins (a JSON right
      replaces a plain left); when neither does, the left wins with one message
      if they differ and a queue was supplied. The JSON text `null` counts as
      not parsing. */
  lemma StringMerge(json: Codec, a: string, b: string, log: bool, path: Path)
    requires json.Valid()
    ensures var o := Merge(json, Str(a), Str(b), log, path);
            var lj, rj := LoadsOrNull(json, a), LoadsOrNull(json, b);
            && o.left == Str(a) && o.right == Str(b)
            && (!lj.Null? && !rj.Null? ==>
                  var m := Merge(json, lj, rj, log, path + [JsonBoundary]);
                  o.result == Str(json.dumps(m.result)) && o.msgs == m.msgs)
            && (!lj.Null? && rj.Null? ==> o.result == Str(json.dumps(lj)) && o.msgs == [])
            && (lj.Null? && !rj.Null? ==> o.result == Str(json.dumps(rj)) && o.msgs == [])
            && (lj.Null? && rj.Null? ==>
                  o.result == Str(a) && o.msgs == (if log && a != b then [Differs(StrType, Str(a), Str(b), path)] else []))
  {
  }

  /** A value that merging with itself gives back unchanged: no sets (their merge
      returns None), and every string that parses is the canonical text of a
      settled value. */
  ghost predicate Settled(json: Codec, v: Value)
    requires json.Valid()
    decreases Size(v)
  {
    match v
    case Set(_) => false
    case Dict(_, vals) =>
      WellFormed(v) && forall k | k in vals :: EntrySmaller(v, k); Settled(json, vals[k])
    case StatusRange(c, t, vs, p) =>
      Settled(json, c) && Settled(json, t) && Settled(json, vs) && Settled(json, p)
    case Function(c, t, ds, n, vs, p) =>
      Settled(json, c) && Settled(json, t) && Settled(json, ds) && Settled(json, n)
      && Settled(json, vs) && Settled(json, p)
    case Str(s) =>
      var p := LoadsOrNull(json, s);
      p.Null? || (Settled(json, p) && json.dumps(p) == s)
    case _ => true
  }

  /** Merging a value with itself never produces a message, and gives back a
      settled value unchanged on both sides. */
  lemma {:induction false} SelfMerge(json: Codec, v: Value, log: bool, path: Path)
    requires json.Valid()
    ensures var o := Merge(json, v, v, log, path);
            && o.msgs == []
            && (Settled(json, v) ==> o == Outcome(v, v, v, []))
    decreases Size(v) + Size(v), if v.Dict? then |v.keys| + 1 else 0
  {
    match v
    case StatusRange(c, t, vs, p) =>
      SelfMerge(json, c, log, path + [Field("code")]);
      SelfMerge(json, t, log, path + [Field("type")]);
      SelfMerge(json, vs, log, path + [Field("values")]);
      SelfMerge(json, p, log, path + [Field("dp_id")]);
    case Function(c, t, ds, n, vs, p) =>
      SelfMerge(json, c, log, path + [Field("code")]);
      SelfMerge(json, t, log, path + [Field("type")]);
      SelfMerge(json, ds, log, path + [Field("desc")]);
      SelfMerge(json, n, log, path + [Field("name")]);
      SelfMerge(json, vs, log, path + [Field("values")]);
      SelfMerge(json, p, log, path + [Field("dp_id")]);
    case Dict(_, _) =>
      ChildrenSelf(json, v, log, path);
      DictSelf(json, v, log, path);
    case List(xs) =>
      ListHasItems(xs);
      AppendMissingPresent(xs, xs);
    case Tuple(xs) =>
      ListHasItems(xs);
      AppendMissingPresent(xs, xs);
    case Str(a) =>
      var p := LoadsOrNull(json, a);
      if !p.Null? {
        SelfMerge(json, p, log, path + [JsonBoundary]);
      }
    case _ =>
  }

  /** The merges under the keys of a dictionary merged with itself. */
  lemma ChildrenSelf(json: Codec, v: Value, log: bool, path: Path)
    requires json.Valid() && v.Dict?
    ensures var children := Children(json, v, v, log, path);
            && (forall k | k in children :: children[k].msgs == [])
            && (Settled(json, v) ==> forall k | k in children :: children[k].result == v.vals[k])
    decreases Size(v) + Size(v), 0
  {
    forall k | k in v.vals
      ensures var o := Merge(json, v.vals[k], v.vals[k], log, path + [Key(k)]);
              o.msgs == [] && (Settled(json, v) ==> o.result == v.vals[k])
    {
      EntrySmaller(v, k);
      SelfMerge(json, v.vals[k], log, path + [Key(k)]);
    }
  }

  /** The dictionary case of `SelfMerge`, given what merging the entries with
      themselves gives. */
  lemma DictSelf(json: Codec, v: Value, log: bool, path: Path)
    requires json.Valid() && v.Dict?
    requires var children := Children(json, v, v, log, path);
             && (forall k | k in children :: children[k].msgs == [])
             && (Settled(json, v) ==> forall k | k in children :: children[k].result == v.vals[k])
    ensures var o := Merge(json, v, v, log, path);
            && o.msgs == []
            && (Settled(json, v) ==> o == Outcome(v, v, v, []))
  {
    var children := Children(json, v, v, log, path);
    DictBranch(json, v, v, log, path);
    var s := SharedPass(v, v, children, |v.keys|);
    if Settled(json, v) {
      assert WellFormed(v);
      SharedPassIdle(v, children, |v.keys|);
      FillUpToNothingMissing(s, |s.rk|);
    }
  }

  /** The `for key in left` loop changes nothing when every shared key merges
      back to its own value. */
  lemma {:induction false} SharedPassIdle(v: Value, children: map<Value, Outcome>, n: nat)
    requires WellFormed(v) && n <= |v.keys| && v.vals.Keys <= children.Keys
    requires forall k | k in v.vals :: children[k].result == v.vals[k] && children[k].msgs == []
    ensures SharedPass(v, v, children, n) == DictState(v.keys, v.vals, v.keys, v.vals, [])
  {
    if n > 0 {
      SharedPassIdle(v, children, n - 1);
    }
  }

  lemma {:induction false} AppendMissingPresent(dst: seq<Value>, src: seq<Value>)
    requires forall x | x in src :: ListHas(dst, x)
    ensures AppendMissing(dst, src) == dst
    decreases |src|
  {
    if src != [] {
      AppendMissingPresent(dst, src[..|src| - 1]);
    }
  }

  lemma ListHasItems(xs: seq<Value>)
    ensures forall x | x in xs :: ListHas(xs, x)
  {
    forall x | x in xs ensures ListHas(xs, x) {
      var k :| 0 <= k < |xs| && xs[k] == x;
      ListHasItem(xs, k);
    }
  }

  lemma {:induction false} FillUpToNothingMissing(s: DictState, n: nat)
    requires n <= |s.rk| && forall k | k in s.rk :: k in s.lv
    ensures FillUpTo(s, n) == s
  {
    if n > 0 {
      FillUpToNothingMissing(s, n - 1);
    }
  }

  /** Merging a set with itself returns None, so self-merge is not the identity
      on sets. */
  lemma SetMergeIsNone(json: Codec, a: set<Value>, b: set<Value>, log: bool, path: Path)
    requires json.Valid()
    ensures Merge(json, Set(a), Set(b), log, path).result == Null
  {
  }
}
