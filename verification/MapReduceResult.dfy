/** What the reduce function sees: for every key, all values emitted for it. */
module MapReduceResult {
  import opened MapReduceInsert
  import opened MapReduceReduce

  datatype Pair<K, V> = Pair(key: K, val: V)

  /** The partition gives equal keys the same reduce task. */
  ghost predicate Consistent<K(!new)>(cmp: Cmp<K>, part: K -> nat) {
    forall a, b :: cmp(a, b) == 0 ==> part(a) == part(b)
  }

  // -------------------------------------------------------------------------------------
  // What a map thread leaves for a reduce task

  /** The array of task r after the thread has emitted these pairs. */
  ghost function Build<K, V>(cmp: Cmp<K>, part: K -> nat, pairs: seq<Pair<K, V>>, r: nat): (es: seq<Entry<K, V>>)
    ensures forall i :: 0 <= i < |es| ==> |es[i].chunks| > 0
  {
    if pairs == [] then [] else
      var es := Build(cmp, part, pairs[..|pairs| - 1], r);
      var last := pairs[|pairs| - 1];
      if part(last.key) == r then Insert(cmp, es, last.key, last.val) else es
  }

  lemma {:induction false} BuildValid<K(!new), V>(cmp: Cmp<K>, part: K -> nat, pairs: seq<Pair<K, V>>, r: nat)
    requires Order(cmp)
    ensures ValidArray(cmp, Build(cmp, part, pairs, r))
  {
    if pairs != [] {
      var rest := pairs[..|pairs| - 1];
      BuildValid(cmp, part, rest, r);
      InsertKeepsArray(cmp, Build(cmp, part, rest, r), pairs[|pairs| - 1].key, pairs[|pairs| - 1].val);
    }
  }

  /** The values emitted for a key. */
  ghost function Emitted<K, V>(cmp: Cmp<K>, pairs: seq<Pair<K, V>>, k: K): seq<V> {
    if pairs == [] then [] else
      Emitted(cmp, pairs[..|pairs| - 1], k) + if cmp(pairs[|pairs| - 1].key, k) == 0 then [pairs[|pairs| - 1].val] else []
  }

  lemma {:induction false} EmittedAppend<K, V>(cmp: Cmp<K>, a: seq<Pair<K, V>>, b: seq<Pair<K, V>>, k: K)
    ensures Emitted(cmp, a + b, k) == Emitted(cmp, a, k) + Emitted(cmp, b, k)
  {
    if b == [] {
      assert a + b == a;
    } else {
      var last := |b| - 1;
      EmittedAppend(cmp, a, b[..last], k);
      assert (a + b)[..|a + b| - 1] == a + b[..last];
    }
  }

  /** The array holds for each of its keys exactly the values emitted for it. */
  lemma {:induction false} BuildHolds<K(!new), V>(cmp: Cmp<K>, part: K -> nat, pairs: seq<Pair<K, V>>, r: nat, k: K)
    requires Order(cmp) && Consistent(cmp, part)
    ensures multiset(Lookup(cmp, Build(cmp, part, pairs, r), k)) ==
            if part(k) == r then multiset(Emitted(cmp, pairs, k)) else multiset{}
  {
    if pairs != [] {
      var rest, last := pairs[..|pairs| - 1], pairs[|pairs| - 1];
      BuildHolds(cmp, part, rest, r, k);
      BuildValid(cmp, part, rest, r);
      if part(last.key) == r { InsertAdds(cmp, Build(cmp, part, rest, r), last.key, last.val, k); }
    }
  }

  // -------------------------------------------------------------------------------------
  // What the reduce function sees

  ghost function BuildAll<K, V>(cmp: Cmp<K>, part: K -> nat, emits: seq<seq<Pair<K, V>>>, r: nat): Arrays<K, V> {
    seq(|emits|, t requires 0 <= t < |emits| => Build(cmp, part, emits[t], r))
  }

  /** The pairs of the first n threads, one thread after another. */
  ghost function AllPairs<K, V>(emits: seq<seq<Pair<K, V>>>, n: nat): seq<Pair<K, V>>
    requires n <= |emits|
  {
    if n == 0 then [] else AllPairs(emits, n - 1) + emits[n - 1]
  }

  lemma HasLookup<K(!new), V>(cmp: Cmp<K>, es: seq<Entry<K, V>>, k: K)
    requires Order(cmp) && ValidArray(cmp, es)
    ensures Lookup(cmp, es, k) == if Has(cmp, es, k) then Values(es[Position(cmp, es, k)]) else []
    ensures Has(cmp, es, k) <==> Lookup(cmp, es, k) != []
  {
    var p := Position(cmp, es, k);
    PositionSplits(cmp, es, k);
    if Has(cmp, es, k) {
      LookupAt(cmp, es, k, p);
      assert ValidEntry(es[p]);
    } else {
      forall i | 0 <= i < |es| ensures cmp(es[i].key, k) != 0 {
        if p < i { Transitive(cmp, k, es[p].key, es[i].key); }
      }
      LookupNone(cmp, es, k);
    }
  }

  /** The lists that match a key hold all values that the threads emitted for it. */
  lemma {:induction false} MatchingHolds<K(!new), V>(cmp: Cmp<K>, part: K -> nat, emits: seq<seq<Pair<K, V>>>, r: nat, k: K, n: nat)
    requires Order(cmp) && Consistent(cmp, part) && n <= |emits|
    ensures multiset(AllValues(Matching(cmp, BuildAll(cmp, part, emits, r), k, n))) ==
            if part(k) == r then multiset(Emitted(cmp, AllPairs(emits, n), k)) else multiset{}
  {
    if n > 0 {
      var arrays := BuildAll(cmp, part, emits, r);
      MatchingHolds(cmp, part, emits, r, k, n - 1);
      BuildValid(cmp, part, emits[n - 1], r);
      BuildHolds(cmp, part, emits[n - 1], r, k);
      MatchingNext(cmp, arrays, k, n);
      EmittedAppend(cmp, AllPairs(emits, n - 1), emits[n - 1], k);
    }
  }

  lemma MatchingNext<K(!new), V>(cmp: Cmp<K>, arrays: Arrays<K, V>, k: K, n: nat)
    requires Order(cmp) && 0 < n <= |arrays| && ValidArray(cmp, arrays[n - 1])
    ensures AllValues(Matching(cmp, arrays, k, n)) == AllValues(Matching(cmp, arrays, k, n - 1)) + Lookup(cmp, arrays[n - 1], k)
  {
    var es := arrays[n - 1];
    HasLookup(cmp, es, k);
    if Has(cmp, es, k) { AllValuesAppend(Matching(cmp, arrays, k, n - 1), es[Position(cmp, es, k)]); }
    else { assert Matching(cmp, arrays, k, n) == Matching(cmp, arrays, k, n - 1); }
  }

  /** What ReduceTask promises for the arrays of a task. */
  ghost predicate Reduced<K, V>(cmp: Cmp<K>, arrays: Arrays<K, V>, calls: seq<Call<K, V>>) {
    && CallsOk(cmp, arrays, calls)
    && forall t, i :: 0 <= t < |arrays| && 0 <= i < |arrays[t]| ==> Covered(cmp, calls, arrays[t][i].key)
  }

  /** calls[r] is what the reduce function is given in task r. */
  ghost predicate AllReduced<K, V>(cmp: Cmp<K>, part: K -> nat, emits: seq<seq<Pair<K, V>>>, calls: seq<seq<Call<K, V>>>) {
    forall r :: 0 <= r < |calls| ==> Reduced(cmp, BuildAll(cmp, part, emits, r), calls[r])
  }

  /** A call has exactly the values that were emitted for its key, by all threads together. */
  lemma CallHasAllValues<K(!new), V>(cmp: Cmp<K>, part: K -> nat, emits: seq<seq<Pair<K, V>>>, calls: seq<seq<Call<K, V>>>, r: nat, c: nat)
    requires Order(cmp) && Consistent(cmp, part) && AllReduced(cmp, part, emits, calls) && r < |calls| && c < |calls[r]|
    ensures part(calls[r][c].key) == r
    ensures multiset(AllValues(calls[r][c].lists)) == multiset(Emitted(cmp, AllPairs(emits, |emits|), calls[r][c].key))
  {
    var arrays, k := BuildAll(cmp, part, emits, r), calls[r][c].key;
    assert Reduced(cmp, arrays, calls[r]);
    MatchingHolds(cmp, part, emits, r, k, |emits|);
    var t := MatchingSomewhere(cmp, arrays, k, |emits|);
    BuildValid(cmp, part, emits[t], r);
    BuildHolds(cmp, part, emits[t], r, k);
    HasLookup(cmp, arrays[t], k);
  }

  // -------------------------------------------------------------------------------------
  // Folding the values with a commutative monoid

  ghost predicate Monoid<V(!new)>(op: (V, V) -> V, unit: V) {
    && (forall a :: op(a, unit) == a)
    && (forall a, b :: op(a, b) == op(b, a))
    && (forall a, b, c {:trigger Triple(a, b, c)} :: Triple(a, b, c) ==> op(op(a, b), c) == op(a, op(b, c)))
  }

  ghost function Fold<V>(op: (V, V) -> V, unit: V, vs: seq<V>): V {
    if vs == [] then unit else op(Fold(op, unit, vs[..|vs| - 1]), vs[|vs| - 1])
  }

  lemma {:induction false} FoldAppend<V(!new)>(op: (V, V) -> V, unit: V, a: seq<V>, b: seq<V>)
    requires Monoid(op, unit)
    ensures Fold(op, unit, a + b) == op(Fold(op, unit, a), Fold(op, unit, b))
  {
    if b == [] {
      assert a + b == a;
    } else {
      var last := |b| - 1;
      FoldAppend(op, unit, a, b[..last]);
      assert (a + b)[..|a + b| - 1] == a + b[..last];
      assert Triple(Fold(op, unit, a), Fold(op, unit, b[..last]), b[last]);
    }
  }

  lemma FoldOne<V(!new)>(op: (V, V) -> V, unit: V, v: V)
    requires Monoid(op, unit)
    ensures Fold(op, unit, [v]) == v
  {
    assert [v][..0] == [] && Fold(op, unit, [v]) == op(unit, v) == op(v, unit);
  }

  /** An element of the middle may be taken out and put last. */
  lemma FoldMiddle<V(!new)>(op: (V, V) -> V, unit: V, a: seq<V>, x: V, b: seq<V>)
    requires Monoid(op, unit)
    ensures Fold(op, unit, a + [x] + b) == op(Fold(op, unit, a + b), x)
  {
    FoldAppend(op, unit, a + [x], b);
    FoldAppend(op, unit, a, [x]);
    FoldAppend(op, unit, a, b);
    FoldOne(op, unit, x);
    var p, q := Fold(op, unit, a), Fold(op, unit, b);
    assert Triple(p, x, q) && Triple(p, q, x);
    assert op(x, q) == op(q, x);
  }

  lemma TakeOut<V>(b: seq<V>, x: V, rest: multiset<V>) returns (b1: seq<V>, b2: seq<V>)
    requires multiset(b) == rest + multiset{x}
    ensures b == b1 + [x] + b2 && multiset(b1 + b2) == rest
  {
    assert x in multiset(b);
    var i :| 0 <= i < |b| && b[i] == x;
    b1, b2 := b[..i], b[i + 1..];
    assert b == b1 + [x] + b2;
    assert multiset(b1 + [x] + b2) == multiset(b1) + multiset{x} + multiset(b2);
    assert rest == multiset(b) - multiset{x} == multiset(b1) + multiset(b2);
  }

  /** The fold does not depend on the order. */
  lemma {:induction false} FoldPermutation<V(!new)>(op: (V, V) -> V, unit: V, a: seq<V>, b: seq<V>)
    requires Monoid(op, unit) && multiset(a) == multiset(b)
    ensures Fold(op, unit, a) == Fold(op, unit, b)
    decreases |a|
  {
    if a == [] {
      assert |multiset(b)| == |b| && multiset(b) == multiset{};
    } else {
      var last := |a| - 1;
      assert a == a[..last] + [a[last]];
      var b1, b2 := TakeOut(b, a[last], multiset(a[..last]));
      FoldPermutation(op, unit, a[..last], b1 + b2);
      FoldMiddle(op, unit, b1, a[last], b2);
    }
  }

  /** The values of a key do not depend on the order of the pairs. */
  lemma {:induction false} EmittedPermutation<K(!new), V>(cmp: Cmp<K>, a: seq<Pair<K, V>>, b: seq<Pair<K, V>>, k: K)
    requires multiset(a) == multiset(b)
    ensures multiset(Emitted(cmp, a, k)) == multiset(Emitted(cmp, b, k))
    decreases |a|
  {
    if a == [] {
      assert |multiset(b)| == |b| && multiset(b) == multiset{};
    } else {
      var last := |a| - 1;
      assert a == a[..last] + [a[last]];
      var b1, b2 := TakeOut(b, a[last], multiset(a[..last]));
      EmittedPermutation(cmp, a[..last], b1 + b2, k);
      EmittedAppend(cmp, b1, b2, k);
      EmittedAppend(cmp, b1 + [a[last]], b2, k);
      EmittedAppend(cmp, b1, [a[last]], k);
      EmittedAppend(cmp, a[..last], [a[last]], k);
    }
  }

  // -------------------------------------------------------------------------------------
  // The combiner

  /** The values of an entry folded into one, in its newest chunk. */
  ghost function Combine<K, V>(op: (V, V) -> V, unit: V, e: Entry<K, V>): Entry<K, V>
  {
    if e.chunks == [] then e else Entry(e.key, 1, [Chunk(e.chunks[0].size, [Fold(op, unit, Values(e))])])
  }

  ghost function CombineList<K, V>(op: (V, V) -> V, unit: V, es: seq<Entry<K, V>>): (r: seq<Entry<K, V>>)
    ensures |r| == |es| && forall i :: 0 <= i < |es| ==> r[i] == Combine(op, unit, es[i])
  {
    seq(|es|, i requires 0 <= i < |es| => Combine(op, unit, es[i]))
  }

  lemma CombineValid<K(!new), V>(op: (V, V) -> V, unit: V, e: Entry<K, V>)
    requires ValidEntry(e)
    ensures ValidEntry(Combine(op, unit, e)) && Values(Combine(op, unit, e)) == [Fold(op, unit, Values(e))]
  {
    var chunks := Combine(op, unit, e).chunks;
    assert chunks[1..] == [] && Chain(chunks) == chunks[0].vals + Chain(chunks[1..]);
  }

  lemma CombineListValid<K(!new), V>(cmp: Cmp<K>, op: (V, V) -> V, unit: V, es: seq<Entry<K, V>>)
    requires ValidArray(cmp, es)
    ensures ValidArray(cmp, CombineList(op, unit, es))
  {
    forall i | 0 <= i < |es| ensures ValidEntry(CombineList(op, unit, es)[i]) { CombineValid(op, unit, es[i]); }
  }

  lemma {:induction false} CombinePosition<K(!new), V>(cmp: Cmp<K>, op: (V, V) -> V, unit: V, es: seq<Entry<K, V>>, k: K)
    ensures Position(cmp, CombineList(op, unit, es), k) == Position(cmp, es, k)
  {
    if es != [] {
      var last := |es| - 1;
      CombinePosition(cmp, op, unit, es[..last], k);
      assert CombineList(op, unit, es)[..last] == CombineList(op, unit, es[..last]);
    }
  }

  ghost function CombineArrays<K, V>(op: (V, V) -> V, unit: V, arrays: Arrays<K, V>): Arrays<K, V>
  {
    seq(|arrays|, t requires 0 <= t < |arrays| => CombineList(op, unit, arrays[t]))
  }

  lemma {:induction false} MatchingCombined<K(!new), V>(cmp: Cmp<K>, op: (V, V) -> V, unit: V, arrays: Arrays<K, V>, k: K, n: nat)
    requires n <= |arrays|
    ensures Matching(cmp, CombineArrays(op, unit, arrays), k, n) == CombineList(op, unit, Matching(cmp, arrays, k, n))
  {
    if n > 0 {
      MatchingCombined(cmp, op, unit, arrays, k, n - 1);
      CombinePosition(cmp, op, unit, arrays[n - 1], k);
    }
  }

  lemma {:induction false} FoldCombined<K(!new), V(!new)>(op: (V, V) -> V, unit: V, lists: seq<Entry<K, V>>)
    requires Monoid(op, unit) && forall i :: 0 <= i < |lists| ==> ValidEntry(lists[i])
    ensures Fold(op, unit, AllValues(CombineList(op, unit, lists))) == Fold(op, unit, AllValues(lists))
  {
    if lists != [] {
      var c := CombineList(op, unit, lists);
      FoldCombined(op, unit, lists[1..]);
      assert c[1..] == CombineList(op, unit, lists[1..]);
      CombineValid(op, unit, lists[0]);
      FoldAppend(op, unit, Values(lists[0]), AllValues(lists[1..]));
      FoldAppend(op, unit, Values(c[0]), AllValues(c[1..]));
      FoldOne(op, unit, Fold(op, unit, Values(lists[0])));
    }
  }

  lemma {:induction false} MatchingValid<K, V>(cmp: Cmp<K>, arrays: Arrays<K, V>, k: K, n: nat)
    requires ValidArrays(cmp, arrays) && n <= |arrays|
    ensures forall i :: 0 <= i < |Matching(cmp, arrays, k, n)| ==> ValidEntry(Matching(cmp, arrays, k, n)[i])
  {
    if n > 0 {
      MatchingValid(cmp, arrays, k, n - 1);
      assert ValidArray(cmp, arrays[n - 1]);
    }
  }

  /** With or without the combiner, the values for a key fold to the same. */
  lemma CombinerKeepsFold<K(!new), V(!new)>(cmp: Cmp<K>, op: (V, V) -> V, unit: V, arrays: Arrays<K, V>, k: K)
    requires Monoid(op, unit) && ValidArrays(cmp, arrays)
    ensures Fold(op, unit, AllValues(Matching(cmp, CombineArrays(op, unit, arrays), k, |arrays|))) ==
            Fold(op, unit, AllValues(Matching(cmp, arrays, k, |arrays|)))
  {
    MatchingCombined(cmp, op, unit, arrays, k, |arrays|);
    MatchingValid(cmp, arrays, k, |arrays|);
    FoldCombined(op, unit, Matching(cmp, arrays, k, |arrays|));
  }

  // -------------------------------------------------------------------------------------
  // Every emitted key, and the combiner

  /** calls[r] is what the reduce function is given in task r, with or without the combiner. */
  ghost predicate Runs<K, V>(cmp: Cmp<K>, part: K -> nat, op: (V, V) -> V, unit: V, combiner: bool, emits: seq<seq<Pair<K, V>>>,
                             calls: seq<seq<Call<K, V>>>) {
    forall r :: 0 <= r < |calls| ==>
      Reduced(cmp, if combiner then CombineArrays(op, unit, BuildAll(cmp, part, emits, r)) else BuildAll(cmp, part, emits, r), calls[r])
  }

  lemma BuildAllValid<K(!new), V>(cmp: Cmp<K>, part: K -> nat, emits: seq<seq<Pair<K, V>>>, r: nat)
    requires Order(cmp)
    ensures ValidArrays(cmp, BuildAll(cmp, part, emits, r))
  {
    forall t | 0 <= t < |emits| ensures ValidArray(cmp, BuildAll(cmp, part, emits, r)[t]) { BuildValid(cmp, part, emits[t], r); }
  }

  /** The key of a call belongs to the task. */
  lemma {:induction false} CombinedKey<K(!new), V>(cmp: Cmp<K>, part: K -> nat, op: (V, V) -> V, unit: V, emits: seq<seq<Pair<K, V>>>,
                                                   r: nat, k: K, combiner: bool)
    requires Order(cmp) && Consistent(cmp, part)
    requires Matching(cmp, if combiner then CombineArrays(op, unit, BuildAll(cmp, part, emits, r)) else BuildAll(cmp, part, emits, r),
                      k, |emits|) != []
    ensures part(k) == r
  {
    var arrays := BuildAll(cmp, part, emits, r);
    MatchingCombined(cmp, op, unit, arrays, k, |emits|);
    var t := MatchingSomewhere(cmp, arrays, k, |emits|);
    BuildValid(cmp, part, emits[t], r);
    BuildHolds(cmp, part, emits[t], r, k);
    HasLookup(cmp, arrays[t], k);
  }

  /** The reduced value of a key is the fold of everything emitted for it, whatever the distribution
      of the pairs over threads, and whether or not the combiner is used: pairs is any other
      arrangement of the emitted pairs. */
  lemma ResultIsGrouping<K(!new), V(!new)>(cmp: Cmp<K>, part: K -> nat, op: (V, V) -> V, unit: V, combiner: bool,
                                           emits: seq<seq<Pair<K, V>>>, calls: seq<seq<Call<K, V>>>, r: nat, c: nat, pairs: seq<Pair<K, V>>)
    requires Order(cmp) && Consistent(cmp, part) && Monoid(op, unit) && Runs(cmp, part, op, unit, combiner, emits, calls)
    requires r < |calls| && c < |calls[r]| && multiset(pairs) == multiset(AllPairs(emits, |emits|))
    ensures part(calls[r][c].key) == r
    ensures Fold(op, unit, AllValues(calls[r][c].lists)) == Fold(op, unit, Emitted(cmp, pairs, calls[r][c].key))
  {
    var k, arrays := calls[r][c].key, BuildAll(cmp, part, emits, r);
    BuildAllValid(cmp, part, emits, r);
    CombinedKey(cmp, part, op, unit, emits, r, k, combiner);
    CombinerKeepsFold(cmp, op, unit, arrays, k);
    MatchingHolds(cmp, part, emits, r, k, |emits|);
    EmittedPermutation(cmp, pairs, AllPairs(emits, |emits|), k);
    FoldPermutation(op, unit, AllValues(Matching(cmp, arrays, k, |emits|)), Emitted(cmp, pairs, k));
  }

  ghost function TaskArrays<K, V>(cmp: Cmp<K>, part: K -> nat, op: (V, V) -> V, unit: V, combiner: bool, emits: seq<seq<Pair<K, V>>>, r: nat)
    : Arrays<K, V>
  {
    if combiner then CombineArrays(op, unit, BuildAll(cmp, part, emits, r)) else BuildAll(cmp, part, emits, r)
  }

  /** Every emitted key is reduced exactly once: in the task of its partition, by one call. */
  lemma EmittedKeyIsReduced<K(!new), V(!new)>(cmp: Cmp<K>, part: K -> nat, op: (V, V) -> V, unit: V, combiner: bool,
                                              emits: seq<seq<Pair<K, V>>>, calls: seq<seq<Call<K, V>>>, k: K)
    returns (c: nat)
    requires Order(cmp) && Consistent(cmp, part) && Runs(cmp, part, op, unit, combiner, emits, calls)
    requires part(k) < |calls| && Emitted(cmp, AllPairs(emits, |emits|), k) != []
    ensures c < |calls[part(k)]| && cmp(calls[part(k)][c].key, k) == 0
    ensures forall r, d :: 0 <= r < |calls| && 0 <= d < |calls[r]| && cmp(calls[r][d].key, k) == 0 ==> r == part(k) && d == c
  {
    var r := part(k);
    var arrays := TaskArrays(cmp, part, op, unit, combiner, emits, r);
    assert Reduced(cmp, arrays, calls[r]);
    MatchingHolds(cmp, part, emits, r, k, |emits|);
    MatchingCombined(cmp, op, unit, BuildAll(cmp, part, emits, r), k, |emits|);
    assert Matching(cmp, arrays, k, |emits|) != [];
    var t := MatchingSomewhere(cmp, arrays, k, |emits|);
    var e := arrays[t][Position(cmp, arrays[t], k)];
    assert Covered(cmp, calls[r], e.key);
    c :| 0 <= c < |calls[r]| && cmp(calls[r][c].key, e.key) == 0;
    SameKey(cmp, calls[r][c].key, e.key, k);
    forall q, d | 0 <= q < |calls| && 0 <= d < |calls[q]| && cmp(calls[q][d].key, k) == 0 ensures q == r && d == c {
      CallOfKey(cmp, part, op, unit, combiner, emits, calls, q, d, k);
      OneCall(cmp, arrays, calls[r], c, if q == r then d else c, k);
    }
  }

  lemma CallOfKey<K(!new), V(!new)>(cmp: Cmp<K>, part: K -> nat, op: (V, V) -> V, unit: V, combiner: bool,
                                    emits: seq<seq<Pair<K, V>>>, calls: seq<seq<Call<K, V>>>, q: nat, d: nat, k: K)
    requires Order(cmp) && Consistent(cmp, part) && Runs(cmp, part, op, unit, combiner, emits, calls)
    requires q < |calls| && d < |calls[q]| && cmp(calls[q][d].key, k) == 0
    ensures q == part(k)
  {
    assert Reduced(cmp, TaskArrays(cmp, part, op, unit, combiner, emits, q), calls[q]);
    CombinedKey(cmp, part, op, unit, emits, q, calls[q][d].key, combiner);
  }

  ghost predicate HasCall<K, V>(cmp: Cmp<K>, calls: seq<seq<Call<K, V>>>, r: nat, d: nat, k: K) {
    r < |calls| && d < |calls[r]| && cmp(calls[r][d].key, k) == 0
  }

  /** Exactly the emitted keys whose reduce task was queued are reduced. */
  lemma KeyIsReducedIff<K(!new), V(!new)>(cmp: Cmp<K>, part: K -> nat, op: (V, V) -> V, unit: V, combiner: bool,
                                          emits: seq<seq<Pair<K, V>>>, calls: seq<seq<Call<K, V>>>, k: K)
    requires Order(cmp) && Consistent(cmp, part) && Runs(cmp, part, op, unit, combiner, emits, calls)
    requires Emitted(cmp, AllPairs(emits, |emits|), k) != []
    ensures (exists r, d :: HasCall(cmp, calls, r, d, k)) <==> part(k) < |calls|
  {
    if part(k) < |calls| {
      var c := EmittedKeyIsReduced(cmp, part, op, unit, combiner, emits, calls, k);
      assert HasCall(cmp, calls, part(k), c, k);
    }
    forall r: nat, d: nat | HasCall(cmp, calls, r, d, k) ensures r == part(k) {
      CallOfKey(cmp, part, op, unit, combiner, emits, calls, r, d, k);
    }
  }

  lemma OneCall<K(!new), V>(cmp: Cmp<K>, arrays: Arrays<K, V>, calls: seq<Call<K, V>>, c: nat, d: nat, k: K)
    requires Order(cmp) && CallsOk(cmp, arrays, calls) && c < |calls| && d < |calls|
    requires cmp(calls[c].key, k) == 0 && cmp(calls[d].key, k) == 0
    ensures c == d
  {
    SameKey(cmp, calls[c].key, k, calls[d].key);
  }

  // -------------------------------------------------------------------------------------
  // The loops of the combiner

  lemma FoldNext<V>(op: (V, V) -> V, unit: V, seen: seq<V>, x: V, rest: seq<V>)
    ensures Fold(op, unit, seen + [x]) == op(Fold(op, unit, seen), x)
    ensures seen + ([x] + rest) == seen + [x] + rest
  {
    assert (seen + [x])[..|seen + [x]| - 1] == seen;
  }

  /** Fold the next value, if there is one. */
  method FoldOnce<K, V(!new)>(op: (V, V) -> V, unit: V, itr: ValueIterator<K, V>, v: V, ghost seen: seq<V>)
    returns (w: V, more: bool, ghost seen': seq<V>)
    requires itr.Valid() && itr.lists != [] && v == Fold(op, unit, seen)
    modifies itr`chain, itr`current, itr`index
    ensures itr.Valid() && w == Fold(op, unit, seen')
    ensures seen' + itr.Rest() == seen + old(itr.Rest())
    ensures if more then |itr.Rest()| < |old(itr.Rest())| else itr.Rest() == []
  {
    var next := itr.Next();
    w, more, seen' := v, next.Some?, seen;
    if more {
      FoldNext(op, unit, seen, next.value, itr.Rest());
      w := op(v, next.value);
      seen' := seen + [next.value];
    }
  }

  /** The callback: fold what the iterator delivers. */
  method FoldIterator<K, V(!new)>(op: (V, V) -> V, unit: V, itr: ValueIterator<K, V>) returns (v: V)
    requires itr.Valid() && itr.lists != []
    modifies itr`chain, itr`current, itr`index
    ensures itr.Valid() && v == Fold(op, unit, old(itr.Rest()))
  {
    v := unit;
    ghost var seen: seq<V> := [];
    var more := true;
    while more
      invariant itr.Valid() && itr.lists != []
      invariant v == Fold(op, unit, seen) && seen + itr.Rest() == old(itr.Rest())
      invariant !more ==> itr.Rest() == []
      decreases more, |itr.Rest()|
    {
      v, more, seen := FoldOnce(op, unit, itr, v, seen);
    }
    assert seen == seen + itr.Rest();
  }

  /** Fold the values of one entry. */
  method CombineEntry<K, V(!new)>(op: (V, V) -> V, unit: V, itr: ValueIterator<K, V>, e: Entry<K, V>) returns (r: Entry<K, V>)
    requires itr.Valid() && itr.lists == [] && itr.maxList == 1 && ValidEntry(e)
    modifies itr
    ensures itr.Valid() && itr.lists == [] && r == Combine(op, unit, e)
  {
    var ok := itr.Add(e);
    assert itr.Rest() == Values(e);
    var reduced := FoldIterator(op, unit, itr);
    r := Entry(e.key, 1, [Chunk(e.chunks[0].size, [reduced])]);
    itr.Reset();
  }

  lemma NoEmptyEntry<K, V>(e: Entry<K, V>)
    requires ValidEntry(e)
    ensures e.len > 0
  {
  }

  /** run_combiner on one array: fold the values of every entry. */
  method RunCombiner<K(!new), V(!new)>(cmp: Cmp<K>, op: (V, V) -> V, unit: V, output: KeyvalsArr<K, V>)
    requires output.Valid() && ValidArray(cmp, output.Contents())
    modifies output.arr
    ensures output.Valid() && output.Contents() == CombineList(op, unit, old(output.Contents()))
    ensures ValidArray(cmp, output.Contents())
  {
    ghost var es := output.Contents();
    CombineListValid(cmp, op, unit, es);
    ghost var combined := CombineList(op, unit, es);
    var itr := new ValueIterator<K, V>(1);
    for j := 0 to output.len
      invariant itr.Valid() && itr.lists == [] && itr.maxList == 1 && fresh(itr)
      invariant output.arr[..j] == combined[..j]
      invariant output.arr[j..output.len] == es[j..]
    {
      var e := output.arr[j];
      assert e == es[j];
      NoEmptyEntry(e);
      if e.len != 0 { output.arr[j] := CombineEntry(op, unit, itr, e); }
    }
  }
}
