/** A whole MapReduce run: from the pairs that the map threads emit to the one merged array. */
module MapReduceEndToEnd {
  import opened MapReduceInsert
  import opened MapReduceReduce
  import opened MapReduceResult
  import opened MapReduceMerge
  import opened MapReduceTasks

  // -------------------------------------------------------------------------------------
  // What a run has to compute

  ghost predicate HasKey<K, V>(cmp: Cmp<K>, ps: seq<Pair<K, V>>, k: K) {
    exists i :: 0 <= i < |ps| && cmp(ps[i].key, k) == 0
  }

  /** The keys of the result increase, every emitted key is there, and with each key of the result
      stands the fold of all that was emitted for it. */
  ghost predicate IsGrouping<K, V>(cmp: Cmp<K>, op: (V, V) -> V, unit: V, pairs: seq<Pair<K, V>>, result: seq<Pair<K, V>>) {
    && (forall i, j :: 0 <= i < j < |result| ==> cmp(result[i].key, result[j].key) < 0)
    && (forall i :: 0 <= i < |result| ==> Emitted(cmp, pairs, result[i].key) != []
                                          && result[i].val == Fold(op, unit, Emitted(cmp, pairs, result[i].key)))
    && (forall j :: 0 <= j < |pairs| ==> HasKey(cmp, result, pairs[j].key))
  }

  /** The pairs whose reduce task is among the first so many. */
  ghost function Kept<K, V>(part: K -> nat, pairs: seq<Pair<K, V>>, queued: int): seq<Pair<K, V>> {
    if pairs == [] then [] else
      var last := |pairs| - 1;
      Kept(part, pairs[..last], queued) + if part(pairs[last].key) < queued then [pairs[last]] else []
  }

  lemma {:induction false} KeptAll<K, V>(part: K -> nat, pairs: seq<Pair<K, V>>, queued: int)
    requires forall j :: 0 <= j < |pairs| ==> part(pairs[j].key) < queued
    ensures Kept(part, pairs, queued) == pairs
  {
    if pairs != [] {
      var rest, x := pairs[..|pairs| - 1], pairs[|pairs| - 1];
      assert forall j :: 0 <= j < |rest| ==> rest[j] == pairs[j];
      KeptAll(part, rest, queued);
      assert part(x.key) < queued;
      assert Kept(part, pairs, queued) == rest + [x];
    }
  }

  lemma {:induction false} KeptOfKey<K(!new), V>(cmp: Cmp<K>, part: K -> nat, pairs: seq<Pair<K, V>>, queued: int, k: K)
    requires Consistent(cmp, part)
    ensures Emitted(cmp, Kept(part, pairs, queued), k) == if part(k) < queued then Emitted(cmp, pairs, k) else []
  {
    if pairs != [] {
      var last := |pairs| - 1;
      var x, rest := pairs[last], Kept(part, pairs[..last], queued);
      KeptOfKey(cmp, part, pairs[..last], queued, k);
      if part(x.key) < queued {
        EmittedAppend(cmp, rest, [x], k);
        EmittedOne(cmp, x, k);
      } else {
        assert Kept(part, pairs, queued) == rest;
      }
    }
  }

  lemma EmittedOne<K, V>(cmp: Cmp<K>, x: Pair<K, V>, k: K)
    ensures Emitted(cmp, [x], k) == if cmp(x.key, k) == 0 then [x.val] else []
  {
    assert [x][..0] == [];
  }

  lemma {:induction false} EmittedSameKey<K(!new), V>(cmp: Cmp<K>, ps: seq<Pair<K, V>>, a: K, b: K)
    requires Order(cmp) && cmp(a, b) == 0
    ensures Emitted(cmp, ps, a) == Emitted(cmp, ps, b)
  {
    if ps != [] {
      EmittedSameKey(cmp, ps[..|ps| - 1], a, b);
      SameKey(cmp, a, b, ps[|ps| - 1].key);
    }
  }

  /** A key has an emitted value exactly when it is the key of a pair. */
  lemma {:induction false} EmittedIffHasKey<K, V>(cmp: Cmp<K>, ps: seq<Pair<K, V>>, k: K)
    ensures Emitted(cmp, ps, k) != [] <==> HasKey(cmp, ps, k)
  {
    if ps != [] {
      var last := |ps| - 1;
      EmittedIffHasKey(cmp, ps[..last], k);
      assert ps == ps[..last] + [ps[last]];
    }
  }

  /** When only one pair has the key, its value is all that was emitted. */
  lemma OnlyOne<K, V>(cmp: Cmp<K>, ps: seq<Pair<K, V>>, k: K, c: nat)
    requires c < |ps| && cmp(ps[c].key, k) == 0
    requires forall i :: 0 <= i < |ps| && i != c ==> cmp(ps[i].key, k) != 0
    ensures Emitted(cmp, ps, k) == [ps[c].val]
  {
    var before, after := ps[..c], ps[c + 1..];
    assert ps == before + [ps[c]] + after;
    EmittedAppend(cmp, before + [ps[c]], after, k);
    EmittedAppend(cmp, before, [ps[c]], k);
    EmittedOne(cmp, ps[c], k);
    EmittedIffHasKey(cmp, before, k);
    EmittedIffHasKey(cmp, after, k);
  }

  lemma TwoOfKey<K, V>(cmp: Cmp<K>, ps: seq<Pair<K, V>>, k: K, i: nat, j: nat)
    requires i < j < |ps| && cmp(ps[i].key, k) == 0 && cmp(ps[j].key, k) == 0
    ensures |Emitted(cmp, ps, k)| >= 2
  {
    assert ps == ps[..j] + ps[j..];
    EmittedAppend(cmp, ps[..j], ps[j..], k);
    EmittedIffHasKey(cmp, ps[..j], k);
    EmittedIffHasKey(cmp, ps[j..], k);
    assert ps[..j][i] == ps[i] && ps[j..][0] == ps[j];
  }

  /** When at most one value was emitted for a key, no two pairs have it. */
  lemma OneOfKey<K, V>(cmp: Cmp<K>, ps: seq<Pair<K, V>>, k: K)
    requires |Emitted(cmp, ps, k)| <= 1
    ensures forall i, j :: 0 <= i < j < |ps| && cmp(ps[i].key, k) == 0 ==> cmp(ps[j].key, k) != 0
  {
    forall i, j | 0 <= i < j < |ps| && cmp(ps[i].key, k) == 0 ensures cmp(ps[j].key, k) != 0 {
      if cmp(ps[j].key, k) == 0 { TwoOfKey(cmp, ps, k, i, j); }
    }
  }

  /** What the result must hold for a key. */
  ghost function Group<K, V>(cmp: Cmp<K>, op: (V, V) -> V, unit: V, pairs: seq<Pair<K, V>>, k: K): seq<V> {
    if Emitted(cmp, pairs, k) == [] then [] else [Fold(op, unit, Emitted(cmp, pairs, k))]
  }

  lemma GroupAt<K(!new), V>(cmp: Cmp<K>, op: (V, V) -> V, unit: V, pairs: seq<Pair<K, V>>, result: seq<Pair<K, V>>, i: nat)
    requires Order(cmp) && InOrder(cmp, result) && i < |result|
    requires Emitted(cmp, result, result[i].key) == Group(cmp, op, unit, pairs, result[i].key)
    ensures Emitted(cmp, pairs, result[i].key) != [] && result[i].val == Fold(op, unit, Emitted(cmp, pairs, result[i].key))
    ensures forall j :: i < j < |result| ==> cmp(result[i].key, result[j].key) < 0
  {
    var k := result[i].key;
    assert HasKey(cmp, result, k);
    EmittedIffHasKey(cmp, result, k);
    OneOfKey(cmp, result, k);
    OnlyOne(cmp, result, k, i);
  }

  lemma GroupingFromKeys<K(!new), V>(cmp: Cmp<K>, op: (V, V) -> V, unit: V, pairs: seq<Pair<K, V>>, result: seq<Pair<K, V>>)
    requires Order(cmp) && InOrder(cmp, result)
    requires forall k :: Emitted(cmp, result, k) == Group(cmp, op, unit, pairs, k)
    ensures IsGrouping(cmp, op, unit, pairs, result)
  {
    forall i | 0 <= i < |result|
      ensures Emitted(cmp, pairs, result[i].key) != [] && result[i].val == Fold(op, unit, Emitted(cmp, pairs, result[i].key))
      ensures forall j :: i < j < |result| ==> cmp(result[i].key, result[j].key) < 0
    {
      GroupAt(cmp, op, unit, pairs, result, i);
    }
    forall j | 0 <= j < |pairs| ensures HasKey(cmp, result, pairs[j].key) {
      var k := pairs[j].key;
      assert HasKey(cmp, pairs, k);
      EmittedIffHasKey(cmp, pairs, k);
      EmittedIffHasKey(cmp, result, k);
      assert Emitted(cmp, result, k) == Group(cmp, op, unit, pairs, k);
    }
  }

  // -------------------------------------------------------------------------------------
  // What the reduce tasks emit

  /** A reduce function that folds the values emits one pair for each call. */
  ghost function Output<K, V>(op: (V, V) -> V, unit: V, calls: seq<Call<K, V>>): (ps: seq<Pair<K, V>>)
    ensures |ps| == |calls|
    ensures forall c :: 0 <= c < |ps| ==> ps[c] == Pair(calls[c].key, Fold(op, unit, AllValues(calls[c].lists)))
  {
    seq(|calls|, c requires 0 <= c < |calls| => Pair(calls[c].key, Fold(op, unit, AllValues(calls[c].lists))))
  }

  ghost predicate TasksBelow(tasks: seq<nat>, n: int) { forall i :: 0 <= i < |tasks| ==> tasks[i] < n }

  /** What the tasks of a list emit, one task after another. */
  ghost function Outputs<K, V>(op: (V, V) -> V, unit: V, calls: seq<seq<Call<K, V>>>, tasks: seq<nat>): seq<Pair<K, V>>
    requires TasksBelow(tasks, |calls|)
  {
    if tasks == [] then [] else
      Outputs(op, unit, calls, tasks[..|tasks| - 1]) + Output(op, unit, calls[tasks[|tasks| - 1]])
  }

  lemma {:induction false} OutputsAppend<K, V>(op: (V, V) -> V, unit: V, calls: seq<seq<Call<K, V>>>, a: seq<nat>, b: seq<nat>)
    requires TasksBelow(a, |calls|) && TasksBelow(b, |calls|)
    ensures TasksBelow(a + b, |calls|) && Outputs(op, unit, calls, a + b) == Outputs(op, unit, calls, a) + Outputs(op, unit, calls, b)
  {
    if b == [] {
      assert a + b == a;
    } else {
      var rest, r := b[..|b| - 1], b[|b| - 1];
      OutputsAppend(op, unit, calls, a, rest);
      assert a + b == (a + rest) + [r] && (a + b)[..|a + b| - 1] == a + rest;
      Associate(Outputs(op, unit, calls, a), Outputs(op, unit, calls, rest), Output(op, unit, calls[r]));
    }
  }

  /** The key of a call was emitted. */
  lemma CallIsEmitted<K(!new), V(!new)>(cmp: Cmp<K>, part: K -> nat, op: (V, V) -> V, unit: V, combiner: bool,
                                        emits: seq<seq<Pair<K, V>>>, calls: seq<seq<Call<K, V>>>, r: nat, c: nat)
    requires Order(cmp) && Consistent(cmp, part) && Runs(cmp, part, op, unit, combiner, emits, calls) && r < |calls| && c < |calls[r]|
    ensures Emitted(cmp, AllPairs(emits, |emits|), calls[r][c].key) != []
  {
    var k, arrays := calls[r][c].key, BuildAll(cmp, part, emits, r);
    assert Reduced(cmp, TaskArrays(cmp, part, op, unit, combiner, emits, r), calls[r]);
    MatchingCombined(cmp, op, unit, arrays, k, |emits|);
    var matching := Matching(cmp, arrays, k, |emits|);
    assert matching != [];
    BuildAllValid(cmp, part, emits, r);
    MatchingValid(cmp, arrays, k, |emits|);
    MatchingHolds(cmp, part, emits, r, k, |emits|);
    assert ValidEntry(matching[0]) && |Values(matching[0])| > 0 && AllValues(matching) != [] by { SomeValue(matching[0]); }
    assert AllValues(matching)[0] in multiset(AllValues(matching));
  }

  lemma SomeValue<K, V>(e: Entry<K, V>)
    requires ValidEntry(e)
    ensures Values(e) != []
  {
  }

  /** A task emits one pair for every emitted key of its partition, with the fold, and no other. */
  lemma OutputOfKey<K(!new), V(!new)>(cmp: Cmp<K>, part: K -> nat, op: (V, V) -> V, unit: V, combiner: bool,
                                      emits: seq<seq<Pair<K, V>>>, calls: seq<seq<Call<K, V>>>, r: nat, k: K)
    requires Order(cmp) && Consistent(cmp, part) && Monoid(op, unit) && Runs(cmp, part, op, unit, combiner, emits, calls)
    requires r < |calls|
    ensures Emitted(cmp, Output(op, unit, calls[r]), k) ==
            if part(k) == r then Group(cmp, op, unit, AllPairs(emits, |emits|), k) else []
  {
    var out, all := Output(op, unit, calls[r]), AllPairs(emits, |emits|);
    if part(k) == r && Emitted(cmp, all, k) != [] {
      var c := EmittedKeyIsReduced(cmp, part, op, unit, combiner, emits, calls, k);
      ResultIsGrouping(cmp, part, op, unit, combiner, emits, calls, r, c, all);
      EmittedSameKey(cmp, all, calls[r][c].key, k);
      OnlyOne(cmp, out, k, c);
    } else {
      forall c | 0 <= c < |out| ensures cmp(out[c].key, k) != 0 {
        if cmp(out[c].key, k) == 0 {
          CallOfKey(cmp, part, op, unit, combiner, emits, calls, r, c, k);
          CallIsEmitted(cmp, part, op, unit, combiner, emits, calls, r, c);
          EmittedSameKey(cmp, all, calls[r][c].key, k);
        }
      }
      EmittedIffHasKey(cmp, out, k);
    }
  }

  ghost predicate NoneTwice(tasks: seq<nat>) { forall i, j :: 0 <= i < j < |tasks| ==> tasks[i] != tasks[j] }

  /** When only one task emits for a key, the tasks of a list emit that if the task is in the list. */
  lemma {:induction false} OutputsOfKey<K, V>(cmp: Cmp<K>, op: (V, V) -> V, unit: V, calls: seq<seq<Call<K, V>>>, tasks: seq<nat>, k: K,
                                              home: nat, group: seq<V>)
    requires forall r :: 0 <= r < |calls| ==> Emitted(cmp, Output(op, unit, calls[r]), k) == if r == home then group else []
    requires TasksBelow(tasks, |calls|) && NoneTwice(tasks)
    ensures Emitted(cmp, Outputs(op, unit, calls, tasks), k) == if home in tasks then group else []
  {
    if tasks != [] {
      var rest, r := tasks[..|tasks| - 1], tasks[|tasks| - 1];
      assert tasks == rest + [r];
      OutputsOfKey(cmp, op, unit, calls, rest, k, home, group);
      EmittedAppend(cmp, Outputs(op, unit, calls, rest), Output(op, unit, calls[r]), k);
    }
  }

  // -------------------------------------------------------------------------------------
  // The output arrays

  /** The tasks of all output arrays, one array after another. */
  ghost function Flat(schedule: seq<seq<nat>>): seq<nat> {
    if schedule == [] then [] else Flat(schedule[..|schedule| - 1]) + schedule[|schedule| - 1]
  }

  /** Every queued task is taken once. */
  ghost predicate TakenOnce(tasks: seq<nat>, queued: int) {
    NoneTwice(tasks) && TasksBelow(tasks, queued) && forall r: nat :: r < queued ==> r in tasks
  }

  /** Array a holds what its tasks have emitted, in the order of the keys. */
  ghost predicate Filled<K, V>(cmp: Cmp<K>, op: (V, V) -> V, unit: V, calls: seq<seq<Call<K, V>>>, tasks: seq<nat>,
                               final: seq<Pair<K, V>>) {
    && TasksBelow(tasks, |calls|)
    && multiset(final) == multiset(Outputs(op, unit, calls, tasks))
    && InOrder(cmp, final)
  }

  ghost predicate AllFilled<K, V>(cmp: Cmp<K>, op: (V, V) -> V, unit: V, calls: seq<seq<Call<K, V>>>, schedule: seq<seq<nat>>,
                                  finals: seq<seq<Pair<K, V>>>) {
    |finals| == |schedule| && forall a :: 0 <= a < |finals| ==> Filled(cmp, op, unit, calls, schedule[a], finals[a])
  }

  /** The output arrays together hold what all tasks have emitted. */
  lemma {:induction false} FinalsHoldAll<K, V>(cmp: Cmp<K>, op: (V, V) -> V, unit: V, calls: seq<seq<Call<K, V>>>,
                                               schedule: seq<seq<nat>>, finals: seq<seq<Pair<K, V>>>)
    requires AllFilled(cmp, op, unit, calls, schedule, finals)
    ensures TasksBelow(Flat(schedule), |calls|)
    ensures AllOf(finals) == multiset(Outputs(op, unit, calls, Flat(schedule)))
  {
    if finals != [] {
      var last := |finals| - 1;
      FinalsHoldAll(cmp, op, unit, calls, schedule[..last], finals[..last]);
      assert Filled(cmp, op, unit, calls, schedule[last], finals[last]);
      OutputsAppend(op, unit, calls, Flat(schedule[..last]), schedule[last]);
    }
  }

  /** The merged result is the grouping of the pairs whose task was queued. */
  lemma MergedIsGrouping<K(!new), V(!new)>(cmp: Cmp<K>, part: K -> nat, op: (V, V) -> V, unit: V, combiner: bool,
                                           emits: seq<seq<Pair<K, V>>>, calls: seq<seq<Call<K, V>>>, schedule: seq<seq<nat>>,
                                           finals: seq<seq<Pair<K, V>>>, result: seq<Pair<K, V>>)
    requires Order(cmp) && Consistent(cmp, part) && Monoid(op, unit) && Runs(cmp, part, op, unit, combiner, emits, calls)
    requires TakenOnce(Flat(schedule), |calls|) && AllFilled(cmp, op, unit, calls, schedule, finals)
    requires multiset(result) == AllOf(finals) && InOrder(cmp, result)
    ensures IsGrouping(cmp, op, unit, Kept(part, AllPairs(emits, |emits|), |calls|), result)
  {
    var all, tasks := AllPairs(emits, |emits|), Flat(schedule);
    FinalsHoldAll(cmp, op, unit, calls, schedule, finals);
    forall k ensures Emitted(cmp, result, k) == Group(cmp, op, unit, Kept(part, all, |calls|), k) {
      forall r | 0 <= r < |calls|
        ensures Emitted(cmp, Output(op, unit, calls[r]), k) == if r == part(k) then Group(cmp, op, unit, all, k) else []
      {
        OutputOfKey(cmp, part, op, unit, combiner, emits, calls, r, k);
      }
      MergedOfKey(cmp, part, op, unit, all, calls, tasks, result, k);
    }
    GroupingFromKeys(cmp, op, unit, Kept(part, all, |calls|), result);
  }

  lemma MergedOfKey<K(!new), V>(cmp: Cmp<K>, part: K -> nat, op: (V, V) -> V, unit: V, all: seq<Pair<K, V>>,
                                calls: seq<seq<Call<K, V>>>, tasks: seq<nat>, result: seq<Pair<K, V>>, k: K)
    requires Order(cmp) && Consistent(cmp, part) && TakenOnce(tasks, |calls|)
    requires forall r :: 0 <= r < |calls| ==>
               Emitted(cmp, Output(op, unit, calls[r]), k) == if r == part(k) then Group(cmp, op, unit, all, k) else []
    requires multiset(result) == multiset(Outputs(op, unit, calls, tasks))
    ensures Emitted(cmp, result, k) == Group(cmp, op, unit, Kept(part, all, |calls|), k)
  {
    EmittedPermutation(cmp, result, Outputs(op, unit, calls, tasks), k);
    OutputsOfKey(cmp, op, unit, calls, tasks, k, part(k), Group(cmp, op, unit, all, k));
    KeptOfKey(cmp, part, all, |calls|, k);
    AtMostOne(Emitted(cmp, result, k), Emitted(cmp, Outputs(op, unit, calls, tasks), k));
  }

  lemma AtMostOne<T>(a: seq<T>, b: seq<T>)
    requires multiset(a) == multiset(b) && |b| <= 1
    ensures a == b
  {
    assert |multiset(a)| == |a| && |multiset(b)| == |b|;
    if |b| == 1 {
      assert multiset(a)[b[0]] == 1 && b[0] in multiset(a);
      assert a[0] in multiset(b);
    }
  }

  /** The result groups all pairs exactly when the reduce task of every emitted key was queued. */
  lemma GroupsAllIff<K(!new), V(!new)>(cmp: Cmp<K>, part: K -> nat, op: (V, V) -> V, unit: V, pairs: seq<Pair<K, V>>, queued: int,
                                       result: seq<Pair<K, V>>)
    requires Order(cmp) && Consistent(cmp, part) && IsGrouping(cmp, op, unit, Kept(part, pairs, queued), result)
    ensures IsGrouping(cmp, op, unit, pairs, result) <==> forall j :: 0 <= j < |pairs| ==> part(pairs[j].key) < queued
  {
    var kept := Kept(part, pairs, queued);
    if forall j :: 0 <= j < |pairs| ==> part(pairs[j].key) < queued { KeptAll(part, pairs, queued); }
    if IsGrouping(cmp, op, unit, pairs, result) {
      forall j | 0 <= j < |pairs| ensures part(pairs[j].key) < queued {
        assert HasKey(cmp, result, pairs[j].key);
        var i :| 0 <= i < |result| && cmp(result[i].key, pairs[j].key) == 0;
        KeptOfKey(cmp, part, pairs, queued, result[i].key);
        assert Emitted(cmp, kept, result[i].key) != [];
      }
    }
  }

  /** An emitted key is in the result exactly when its reduce task was queued. */
  lemma KeyIsInResultIff<K(!new), V(!new)>(cmp: Cmp<K>, part: K -> nat, op: (V, V) -> V, unit: V, pairs: seq<Pair<K, V>>, queued: int,
                                           result: seq<Pair<K, V>>, k: K)
    requires Order(cmp) && Consistent(cmp, part) && IsGrouping(cmp, op, unit, Kept(part, pairs, queued), result)
    requires HasKey(cmp, pairs, k)
    ensures HasKey(cmp, result, k) <==> part(k) < queued
  {
    var kept := Kept(part, pairs, queued);
    KeptOfKey(cmp, part, pairs, queued, k);
    EmittedIffHasKey(cmp, pairs, k);
    EmittedIffHasKey(cmp, kept, k);
    if HasKey(cmp, kept, k) {
      var j :| 0 <= j < |kept| && cmp(kept[j].key, k) == 0;
      assert HasKey(cmp, result, kept[j].key);
      var i :| 0 <= i < |result| && cmp(result[i].key, kept[j].key) == 0;
      Transitive(cmp, result[i].key, kept[j].key, k);
    }
    if HasKey(cmp, result, k) {
      var i :| 0 <= i < |result| && cmp(result[i].key, k) == 0;
      EmittedSameKey(cmp, kept, result[i].key, k);
    }
  }

  /** An emitted key is reduced exactly when its reduce task was queued; with no more map threads
      than reduce threads, always. */
  lemma KeyIsReducedIffQueued<K(!new), V(!new)>(cmp: Cmp<K>, part: K -> nat, op: (V, V) -> V, unit: V, combiner: bool,
                                                emits: seq<seq<Pair<K, V>>>, calls: seq<seq<Call<K, V>>>, k: K,
                                                tasks: nat, reduceThreads: nat)
    requires Order(cmp) && Consistent(cmp, part) && Runs(cmp, part, op, unit, combiner, emits, calls)
    requires HasKey(cmp, AllPairs(emits, |emits|), k) && part(k) < tasks && reduceThreads > 0
    requires |calls| == QueuedTasks(tasks, reduceThreads, |emits|)
    ensures (exists r, d :: HasCall(cmp, calls, r, d, k)) <==> part(k) < QueuedTasks(tasks, reduceThreads, |emits|)
    ensures tasks < reduceThreads || tasks % reduceThreads == 0 || |emits| <= reduceThreads ==> exists r, d :: HasCall(cmp, calls, r, d, k)
  {
    EmittedIffHasKey(cmp, AllPairs(emits, |emits|), k);
    KeyIsReducedIff(cmp, part, op, unit, combiner, emits, calls, k);
    AllTasksQueued(tasks, reduceThreads, |emits|);
  }

  // -------------------------------------------------------------------------------------
  // The map phase

  /** The arrays of one map thread, one for each reduce task, after it has emitted these pairs. */
  ghost predicate Row<K(!new), V(!new)>(cmp: Cmp<K>, part: K -> nat, arrays: seq<KeyvalsArr<K, V>>, pairs: seq<Pair<K, V>>)
    reads arrays, set i | 0 <= i < |arrays| :: arrays[i].arr
  {
    RowFrom(cmp, part, arrays, pairs, 0)
  }

  ghost predicate RowFrom<K(!new), V(!new)>(cmp: Cmp<K>, part: K -> nat, arrays: seq<KeyvalsArr<K, V>>, pairs: seq<Pair<K, V>>, first: nat)
    reads arrays, set i | 0 <= i < |arrays| :: arrays[i].arr
  {
    && Separate(arrays)
    && forall r :: first <= r < |arrays| ==> arrays[r].Valid() && arrays[r].Contents() == Build(cmp, part, pairs, r)
  }

  ghost predicate Separate<K(!new), V(!new)>(arrays: seq<KeyvalsArr<K, V>>)
    reads arrays
  {
    forall r, q :: 0 <= r < q < |arrays| ==> arrays[r] != arrays[q] && arrays[r].arr != arrays[q].arr
  }

  /** Every array of the row was allocated since the method began. */
  twostate predicate NewArrays<K(!new), V(!new)>(new arrays: seq<KeyvalsArr<K, V>>)
    reads arrays
  {
    forall r :: 0 <= r < |arrays| ==> fresh(arrays[r]) && fresh(arrays[r].arr)
  }

  method NewRow<K(!new), V(!new)>(cmp: Cmp<K>, part: K -> nat, tasks: nat) returns (arrays: seq<KeyvalsArr<K, V>>)
    ensures |arrays| == tasks && Row(cmp, part, arrays, []) && NewArrays(arrays)
  {
    arrays := [];
    for r := 0 to tasks
      invariant |arrays| == r && Row(cmp, part, arrays, []) && NewArrays(arrays)
    {
      var a := new KeyvalsArr<K, V>();
      arrays := arrays + [a];
    }
  }

  /** emit_intermediate: the pair goes to the array of its reduce task. */
  method EmitIntermediate<K(!new), V(!new)>(cmp: Cmp<K>, part: K -> nat, arrays: seq<KeyvalsArr<K, V>>, key: K, val: V,
                                            ghost pairs: seq<Pair<K, V>>)
    requires Order(cmp) && Row(cmp, part, arrays, pairs) && part(key) < |arrays|
    modifies arrays[part(key)], arrays[part(key)].arr
    ensures Row(cmp, part, arrays, pairs + [Pair(key, val)])
    ensures arrays[part(key)].arr == old(arrays[part(key)].arr) || fresh(arrays[part(key)].arr)
  {
    BuildValid(cmp, part, pairs, part(key));
    arrays[part(key)].InsertMerged(cmp, key, val);
    ghost var more := pairs + [Pair(key, val)];
    assert more[..|more| - 1] == pairs;
  }

  /** What a map thread leaves for task r. */
  ghost function Left<K, V>(cmp: Cmp<K>, part: K -> nat, op: (V, V) -> V, unit: V, combiner: bool, pairs: seq<Pair<K, V>>, r: nat)
    : seq<Entry<K, V>>
  {
    if combiner then CombineList(op, unit, Build(cmp, part, pairs, r)) else Build(cmp, part, pairs, r)
  }

  lemma TakeNext<T>(s: seq<T>, c: nat)
    requires c < |s|
    ensures s[..c + 1] == s[..c] + [s[c]]
  {
  }

  /** The map function: emit the pairs. */
  method EmitAll<K(!new), V(!new)>(cmp: Cmp<K>, part: K -> nat, pairs: seq<Pair<K, V>>, tasks: nat) returns (arrays: seq<KeyvalsArr<K, V>>)
    requires Order(cmp) && forall k :: part(k) < tasks
    ensures |arrays| == tasks && Row(cmp, part, arrays, pairs) && NewArrays(arrays)
  {
    arrays := NewRow(cmp, part, tasks);
    assert pairs[..0] == [];
    for j := 0 to |pairs|
      invariant Row(cmp, part, arrays, pairs[..j]) && NewArrays(arrays)
    {
      TakeNext(pairs, j);
      EmitIntermediate(cmp, part, arrays, pairs[j].key, pairs[j].val, pairs[..j]);
    }
    assert pairs[..|pairs|] == pairs;
  }

  /** run_combiner for one task, if there is a combiner; then the array is final. */
  method Finish<K(!new), V(!new)>(cmp: Cmp<K>, part: K -> nat, op: (V, V) -> V, unit: V, combiner: bool, arrays: seq<KeyvalsArr<K, V>>,
                                  r: nat, ghost pairs: seq<Pair<K, V>>) returns (left: seq<Entry<K, V>>)
    requires Order(cmp) && r < |arrays| && RowFrom(cmp, part, arrays, pairs, r)
    modifies arrays[r].arr
    ensures RowFrom(cmp, part, arrays, pairs, r + 1)
    ensures left == Left(cmp, part, op, unit, combiner, pairs, r)
  {
    BuildValid(cmp, part, pairs, r);
    if combiner { RunCombiner(cmp, op, unit, arrays[r]); }
    left := arrays[r].arr[..arrays[r].len];
  }

  /** map_worker: emit the pairs, then fold the values of every entry if there is a combiner. */
  method MapThread<K(!new), V(!new)>(cmp: Cmp<K>, part: K -> nat, op: (V, V) -> V, unit: V, combiner: bool, pairs: seq<Pair<K, V>>, tasks: nat)
    returns (row: Arrays<K, V>)
    requires Order(cmp) && forall k :: part(k) < tasks
    ensures |row| == tasks && forall r :: 0 <= r < tasks ==> row[r] == Left(cmp, part, op, unit, combiner, pairs, r)
  {
    var arrays := EmitAll(cmp, part, pairs, tasks);
    row := [];
    for r := 0 to tasks
      invariant RowFrom(cmp, part, arrays, pairs, r) && NewArrays(arrays) && |row| == r
      invariant forall q :: 0 <= q < r ==> row[q] == Left(cmp, part, op, unit, combiner, pairs, q)
    {
      var left := Finish(cmp, part, op, unit, combiner, arrays, r, pairs);
      row := row + [left];
    }
  }

  ghost predicate AllLeft<K, V>(cmp: Cmp<K>, part: K -> nat, op: (V, V) -> V, unit: V, combiner: bool, emits: seq<seq<Pair<K, V>>>,
                                tasks: nat, rows: seq<Arrays<K, V>>)
  {
    && |rows| <= |emits|
    && (forall t :: 0 <= t < |rows| ==> |rows[t]| == tasks)
    && (forall t, r :: 0 <= t < |rows| && 0 <= r < tasks ==> rows[t][r] == Left(cmp, part, op, unit, combiner, emits[t], r))
  }

  /** The map phase. */
  method MapAll<K(!new), V(!new)>(cmp: Cmp<K>, part: K -> nat, op: (V, V) -> V, unit: V, combiner: bool, emits: seq<seq<Pair<K, V>>>, tasks: nat)
    returns (rows: seq<Arrays<K, V>>)
    requires Order(cmp) && forall k :: part(k) < tasks
    ensures |rows| == |emits| && AllLeft(cmp, part, op, unit, combiner, emits, tasks, rows)
  {
    rows := [];
    for t := 0 to |emits|
      invariant |rows| == t && AllLeft(cmp, part, op, unit, combiner, emits, tasks, rows)
    {
      var row := MapThread(cmp, part, op, unit, combiner, emits[t], tasks);
      rows := rows + [row];
    }
  }

  // -------------------------------------------------------------------------------------
  // The reduce phase

  /** The arrays of a reduce task, one from every map thread. */
  function Column<K, V>(rows: seq<Arrays<K, V>>, r: nat): Arrays<K, V>
    requires forall t :: 0 <= t < |rows| ==> r < |rows[t]|
  {
    seq(|rows|, t requires 0 <= t < |rows| => rows[t][r])
  }

  lemma ColumnIs<K(!new), V(!new)>(cmp: Cmp<K>, part: K -> nat, op: (V, V) -> V, unit: V, combiner: bool, emits: seq<seq<Pair<K, V>>>,
                                   tasks: nat, rows: seq<Arrays<K, V>>, r: nat)
    requires Order(cmp) && AllLeft(cmp, part, op, unit, combiner, emits, tasks, rows) && |rows| == |emits| && r < tasks
    ensures Column(rows, r) == TaskArrays(cmp, part, op, unit, combiner, emits, r)
    ensures ValidArrays(cmp, Column(rows, r))
  {
    BuildAllValid(cmp, part, emits, r);
    forall t | 0 <= t < |emits|
      ensures Column(rows, r)[t] == TaskArrays(cmp, part, op, unit, combiner, emits, r)[t]
      ensures ValidArray(cmp, Column(rows, r)[t])
    {
      assert rows[t][r] == Left(cmp, part, op, unit, combiner, emits[t], r);
      assert ValidArray(cmp, BuildAll(cmp, part, emits, r)[t]);
      CombineListValid(cmp, op, unit, Build(cmp, part, emits[t], r));
    }
  }

  /** A call has one to maxList lists, none of them empty. */
  ghost predicate ValidCall<K, V>(call: Call<K, V>, maxList: nat) {
    0 < |call.lists| <= maxList && forall i :: 0 <= i < |call.lists| ==> ValidEntry(call.lists[i])
  }

  /** The calls of a task can be made, and their keys increase. */
  ghost predicate ValidCalls<K, V>(cmp: Cmp<K>, calls: seq<Call<K, V>>, maxList: nat) {
    && (forall c :: 0 <= c < |calls| ==> ValidCall(calls[c], maxList))
    && (forall c, d :: 0 <= c < d < |calls| ==> cmp(calls[c].key, calls[d].key) < 0)
  }

  lemma CallsAreValid<K(!new), V>(cmp: Cmp<K>, arrays: Arrays<K, V>, calls: seq<Call<K, V>>)
    requires ValidArrays(cmp, arrays) && CallsOk(cmp, arrays, calls)
    ensures ValidCalls(cmp, calls, |arrays|)
  {
    forall c | 0 <= c < |calls| ensures ValidCall(calls[c], |arrays|) { MatchingValid(cmp, arrays, calls[c].key, |arrays|); }
  }

  lemma RunsAdd<K(!new), V(!new)>(cmp: Cmp<K>, part: K -> nat, op: (V, V) -> V, unit: V, combiner: bool, emits: seq<seq<Pair<K, V>>>,
                                  calls: seq<seq<Call<K, V>>>, done: seq<Call<K, V>>)
    requires Runs(cmp, part, op, unit, combiner, emits, calls)
    requires Reduced(cmp, TaskArrays(cmp, part, op, unit, combiner, emits, |calls|), done)
    ensures Runs(cmp, part, op, unit, combiner, emits, calls + [done])
  {
    var more := calls + [done];
    forall r | 0 <= r < |more| ensures Reduced(cmp, TaskArrays(cmp, part, op, unit, combiner, emits, r), more[r]) {
      assert more[r] == if r < |calls| then calls[r] else done;
      if r < |calls| { assert Reduced(cmp, TaskArrays(cmp, part, op, unit, combiner, emits, r), calls[r]); }
    }
  }

  /** All reduce tasks of the queue: what the reduce function is called with. */
  method ReduceAll<K(!new), V(!new)>(cmp: Cmp<K>, part: K -> nat, op: (V, V) -> V, unit: V, combiner: bool, rows: seq<Arrays<K, V>>,
                                     queue: seq<nat>, tasks: nat, ghost emits: seq<seq<Pair<K, V>>>)
    returns (calls: seq<seq<Call<K, V>>>)
    requires Order(cmp) && AllLeft(cmp, part, op, unit, combiner, emits, tasks, rows) && |rows| == |emits| > 0
    requires |queue| <= tasks && forall i :: 0 <= i < |queue| ==> queue[i] == i
    ensures |calls| == |queue| && Runs(cmp, part, op, unit, combiner, emits, calls)
    ensures forall r :: 0 <= r < |calls| ==> ValidCalls(cmp, calls[r], |emits|)
  {
    calls := [];
    for r := 0 to |queue|
      invariant |calls| == r && Runs(cmp, part, op, unit, combiner, emits, calls)
      invariant forall q :: 0 <= q < r ==> ValidCalls(cmp, calls[q], |emits|)
    {
      ColumnIs(cmp, part, op, unit, combiner, emits, tasks, rows, queue[r]);
      var done := ReduceTask(cmp, Column(rows, queue[r]));
      CallsAreValid(cmp, Column(rows, queue[r]), done);
      RunsAdd(cmp, part, op, unit, combiner, emits, calls, done);
      calls := calls + [done];
    }
  }

  /** The reduce function: fold the values that the iterator delivers. */
  method ReduceCall<K, V(!new)>(op: (V, V) -> V, unit: V, call: Call<K, V>, maxList: nat) returns (v: V)
    requires ValidCall(call, maxList)
    ensures v == Fold(op, unit, AllValues(call.lists))
  {
    var itr := new ValueIterator<K, V>(maxList);
    for i := 0 to |call.lists|
      invariant fresh(itr) && itr.Valid() && itr.maxList == maxList
      invariant itr.lists == call.lists[..i] && itr.Rest() == AllValues(call.lists[..i])
    {
      AllValuesAppend(call.lists[..i], call.lists[i]);
      assert call.lists[..i] + [call.lists[i]] == call.lists[..i + 1];
      var ok := itr.Add(call.lists[i]);
    }
    assert call.lists[..|call.lists|] == call.lists;
    v := FoldIterator(op, unit, itr);
  }

  lemma OutputInOrder<K(!new), V>(cmp: Cmp<K>, op: (V, V) -> V, unit: V, calls: seq<Call<K, V>>, maxList: nat)
    requires ValidCalls(cmp, calls, maxList)
    ensures InOrder(cmp, Output(op, unit, calls))
  {
    var out := Output(op, unit, calls);
    forall i, j | 0 <= i < j < |out| ensures cmp(out[i].key, out[j].key) <= 0 { assert cmp(calls[i].key, calls[j].key) < 0; }
  }

  /** The array now holds what it held before together with what has been emitted. */
  ghost predicate Emitting<K, V>(cmp: Cmp<K>, perTask: bool, before: seq<Pair<K, V>>, emitted: seq<Pair<K, V>>, now: seq<Pair<K, V>>) {
    && (perTask ==> now == before + emitted)
    && (!perTask ==> InOrder(cmp, now))
    && multiset(now) == multiset(before) + multiset(emitted)
  }

  /** Make a call and put what the reduce function emits into the output array. */
  method EmitCall<K(!new), V(!new)>(cmp: Cmp<K>, perTask: bool, op: (V, V) -> V, unit: V, calls: seq<Call<K, V>>, c: nat, maxList: nat,
                                    out: KeyvalArr<K, V>, ghost before: seq<Pair<K, V>>)
    requires Order(cmp) && c < |calls| && ValidCall(calls[c], maxList)
    requires out.Valid() && Emitting(cmp, perTask, before, Output(op, unit, calls)[..c], out.Contents())
    modifies out, out.arr
    ensures out.Valid() && (out.arr == old(out.arr) || fresh(out.arr))
    ensures Emitting(cmp, perTask, before, Output(op, unit, calls)[..c + 1], out.Contents())
  {
    ghost var emitted := Output(op, unit, calls);
    var v := ReduceCall(op, unit, calls[c], maxList);
    out.Insert(cmp, perTask, calls[c].key, v);
    TakeNext(emitted, c);
    Associate(before, emitted[..c], [emitted[c]]);
  }

  /** Make the calls of one task. */
  method EmitCalls<K(!new), V(!new)>(cmp: Cmp<K>, perTask: bool, op: (V, V) -> V, unit: V, calls: seq<Call<K, V>>, maxList: nat,
                                     out: KeyvalArr<K, V>)
    requires Order(cmp) && ValidCalls(cmp, calls, maxList)
    requires out.Valid() && InOrder(cmp, out.Contents()) && (perTask ==> out.Contents() == [])
    modifies out, out.arr
    ensures out.Valid() && (out.arr == old(out.arr) || fresh(out.arr)) && InOrder(cmp, out.Contents())
    ensures multiset(out.Contents()) == multiset(old(out.Contents())) + multiset(Output(op, unit, calls))
  {
    ghost var before := out.Contents();
    for c := 0 to |calls|
      invariant out.Valid() && (out.arr == old(out.arr) || fresh(out.arr))
      invariant Emitting(cmp, perTask, before, Output(op, unit, calls)[..c], out.Contents())
    {
      EmitCall(cmp, perTask, op, unit, calls, c, maxList, out, before);
    }
    AllEmitted(cmp, perTask, op, unit, calls, maxList, before, out.Contents());
  }

  lemma AllEmitted<K(!new), V>(cmp: Cmp<K>, perTask: bool, op: (V, V) -> V, unit: V, calls: seq<Call<K, V>>, maxList: nat,
                               before: seq<Pair<K, V>>, now: seq<Pair<K, V>>)
    requires ValidCalls(cmp, calls, maxList) && (perTask ==> before == [])
    requires Emitting(cmp, perTask, before, Output(op, unit, calls)[..|calls|], now)
    ensures InOrder(cmp, now) && multiset(now) == multiset(before) + multiset(Output(op, unit, calls))
  {
    var emitted := Output(op, unit, calls);
    assert emitted[..|calls|] == emitted;
    if perTask {
      OutputInOrder(cmp, op, unit, calls, maxList);
      assert now == emitted;
    }
  }

  lemma FilledNext<K, V>(cmp: Cmp<K>, op: (V, V) -> V, unit: V, calls: seq<seq<Call<K, V>>>, tasks: seq<nat>, i: nat,
                         before: seq<Pair<K, V>>, after: seq<Pair<K, V>>)
    requires TasksBelow(tasks, |calls|) && i < |tasks| && Filled(cmp, op, unit, calls, tasks[..i], before) && InOrder(cmp, after)
    requires multiset(after) == multiset(before) + multiset(Output(op, unit, calls[tasks[i]]))
    ensures Filled(cmp, op, unit, calls, tasks[..i + 1], after)
  {
    assert tasks[..i + 1][..i] == tasks[..i];
  }

  /** The output array after these tasks. */
  method FillArray<K(!new), V(!new)>(cmp: Cmp<K>, perTask: bool, op: (V, V) -> V, unit: V, calls: seq<seq<Call<K, V>>>, maxList: nat,
                                     tasks: seq<nat>)
    returns (final: seq<Pair<K, V>>)
    requires Order(cmp) && TasksBelow(tasks, |calls|) && (perTask ==> |tasks| <= 1)
    requires forall r :: 0 <= r < |calls| ==> ValidCalls(cmp, calls[r], maxList)
    ensures Filled(cmp, op, unit, calls, tasks, final)
  {
    var out := new KeyvalArr<K, V>();
    for i := 0 to |tasks|
      invariant fresh(out) && fresh(out.arr) && out.Valid() && Filled(cmp, op, unit, calls, tasks[..i], out.Contents())
      invariant i == 0 ==> out.Contents() == []
    {
      ghost var before := out.Contents();
      EmitCalls(cmp, perTask, op, unit, calls[tasks[i]], maxList, out);
      FilledNext(cmp, op, unit, calls, tasks, i, before, out.Contents());
    }
    assert tasks[..|tasks|] == tasks;
    final := out.arr[..out.len];
  }

  /** The tasks of every array are among the queued ones. */
  lemma {:induction false} ScheduleBelow(schedule: seq<seq<nat>>, n: int, a: nat)
    requires TasksBelow(Flat(schedule), n) && a < |schedule|
    ensures TasksBelow(schedule[a], n)
  {
    var last := |schedule| - 1;
    var before := Flat(schedule[..last]);
    assert forall i :: 0 <= i < |before| ==> before[i] == Flat(schedule)[i];
    assert forall i :: 0 <= i < |schedule[last]| ==> schedule[last][i] == Flat(schedule)[|before| + i];
    if a < last { ScheduleBelow(schedule[..last], n, a); }
  }

  /** All output arrays. */
  method FillAll<K(!new), V(!new)>(cmp: Cmp<K>, perTask: bool, op: (V, V) -> V, unit: V, calls: seq<seq<Call<K, V>>>, maxList: nat,
                                   schedule: seq<seq<nat>>)
    returns (finals: seq<seq<Pair<K, V>>>)
    requires Order(cmp) && TasksBelow(Flat(schedule), |calls|)
    requires perTask ==> forall a :: 0 <= a < |schedule| ==> |schedule[a]| <= 1
    requires forall r :: 0 <= r < |calls| ==> ValidCalls(cmp, calls[r], maxList)
    ensures AllFilled(cmp, op, unit, calls, schedule, finals)
  {
    finals := [];
    for a := 0 to |schedule|
      invariant |finals| == a && AllFilled(cmp, op, unit, calls, schedule[..a], finals)
    {
      ScheduleBelow(schedule, |calls|, a);
      var final := FillArray(cmp, perTask, op, unit, calls, maxList, schedule[a]);
      finals := finals + [final];
    }
    assert schedule[..|schedule|] == schedule;
  }

  // -------------------------------------------------------------------------------------
  // A whole run

  /** The reduce task of a key. */
  function TaskOf<K>(partition: K -> nat, tasks: nat): K -> nat
    requires tasks > 0
  {
    k => partition(k) % tasks
  }

  /** Which output array takes the pairs of which tasks: with one array for each task, its own task;
      otherwise each reduce thread has an array, and takes tasks as they come. */
  ghost predicate ValidSchedule(perTask: bool, reduceThreads: nat, queued: int, schedule: seq<seq<nat>>) {
    && TakenOnce(Flat(schedule), queued)
    && |schedule| == (if perTask then ReduceTasks(perTask) else reduceThreads)
    && (perTask ==> forall a :: 0 <= a < |schedule| ==> schedule[a] == if a < queued then [a] else [])
  }

  /** map_reduce with a reduce function that folds the values: the result is the grouping of the
      emitted pairs, but for those whose reduce task is not queued.  An emitted key is in it exactly
      when the partition number, modulo the number of tasks, is below the number of queued tasks. */
  method MapReduce<K(!new), V(!new)>(cmp: Cmp<K>, partition: K -> nat, op: (V, V) -> V, unit: V, combiner: bool, perTask: bool,
                                     emits: seq<seq<Pair<K, V>>>, reduceThreads: nat, mergeThreads: int, schedule: seq<seq<nat>>)
    returns (result: seq<Pair<K, V>>)
    requires Order(cmp) && Consistent(cmp, partition) && Monoid(op, unit)
    requires |emits| > 0 && reduceThreads > 0
    requires ValidSchedule(perTask, reduceThreads, QueuedTasks(ReduceTasks(perTask), reduceThreads, |emits|), schedule)
    ensures var tasks := ReduceTasks(perTask);
      var part, queued, all := TaskOf(partition, tasks), QueuedTasks(tasks, reduceThreads, |emits|), AllPairs(emits, |emits|);
      && IsGrouping(cmp, op, unit, Kept(part, all, queued), result)
      && (forall k :: HasKey(cmp, all, k) ==> (HasKey(cmp, result, k) <==> partition(k) % (if perTask then 256 else 32768) < queued))
      && (IsGrouping(cmp, op, unit, all, result) <==>
          forall j :: 0 <= j < |all| ==> partition(all[j].key) % (if perTask then 256 else 32768) < queued)
      && (|emits| <= reduceThreads || tasks % reduceThreads == 0 || tasks < reduceThreads ==> IsGrouping(cmp, op, unit, all, result))
  {
    var tasks := ReduceTasks(perTask);
    var part := TaskOf(partition, tasks);
    var rows := MapAll(cmp, part, op, unit, combiner, emits, tasks);
    var queue := GenReduceTasks(tasks, reduceThreads, |emits|);
    AllTasksQueued(tasks, reduceThreads, |emits|);
    var calls := ReduceAll(cmp, part, op, unit, combiner, rows, queue, tasks, emits);
    var finals := FillAll(cmp, perTask, op, unit, calls, |emits|, schedule);
    MergeThreadsFit(perTask, reduceThreads, mergeThreads);
    result := Merge(cmp, finals, MergeThreads(perTask, reduceThreads, mergeThreads));
    MergedIsGrouping(cmp, part, op, unit, combiner, emits, calls, schedule, finals, result);
    GroupsAllIff(cmp, part, op, unit, AllPairs(emits, |emits|), |calls|, result);
    forall k | HasKey(cmp, AllPairs(emits, |emits|), k) ensures HasKey(cmp, result, k) <==> part(k) < |calls| {
      KeyIsInResultIff(cmp, part, op, unit, AllPairs(emits, |emits|), |calls|, result, k);
    }
  }
}
