/** Reduce tasks of the MapReduce runtime: the value iterator and the k-way grouping loop. */
module MapReduceReduce {
  import opened MapReduceInsert
  import opened Wrappers

  // -------------------------------------------------------------------------------------
  // The iterator over value lists

  /** The values of several entries in iteration order. */
  ghost function AllValues<K, V>(lists: seq<Entry<K, V>>): seq<V> {
    if lists == [] then [] else Values(lists[0]) + AllValues(lists[1..])
  }

  lemma {:induction false} AllValuesAppend<K, V>(lists: seq<Entry<K, V>>, e: Entry<K, V>)
    ensures AllValues(lists + [e]) == AllValues(lists) + Values(e)
  {
    if lists == [] {
      assert (lists + [e])[1..] == [];
    } else {
      assert (lists + [e])[1..] == lists[1..] + [e];
      AllValuesAppend(lists[1..], e);
    }
  }

  lemma ChainStep<V>(chunks: seq<Chunk<V>>)
    requires |chunks| > 1
    ensures Chain(chunks[1..]) == chunks[1].vals + Chain(chunks[1..][1..])
  {
  }

  lemma Associate<V>(a: seq<V>, b: seq<V>, c: seq<V>)
    ensures a + (b + c) == a + b + c
  {
  }

  lemma Prepend<V>(vals: seq<V>, i: nat, b: seq<V>, c: seq<V>)
    requires i < |vals|
    ensures [vals[i]] + (vals[i + 1..] + b + c) == vals[i..] + b + c
  {
    assert vals[i..] == [vals[i]] + vals[i + 1..];
  }

  lemma RestAppend<K, V>(head: seq<V>, lists: seq<Entry<K, V>>, c: nat, e: Entry<K, V>)
    requires c <= |lists|
    ensures head + AllValues((lists + [e])[c..]) == head + AllValues(lists[c..]) + Values(e)
  {
    AllValuesAppend(lists[c..], e);
    Associate(head, AllValues(lists[c..]), Values(e));
    assert (lists + [e])[c..] == lists[c..] + [e];
  }

  lemma EndOfChain<V>(chain: seq<Chunk<V>>, index: nat, rest: seq<V>)
    requires |chain| == 1 && index == |chain[0].vals|
    ensures chain[0].vals[index..] + Chain(chain[1..]) + rest == rest
  {
    assert chain[0].vals[index..] == [] && chain[1..] == [] && Chain(chain[1..]) == [];
  }

  /** At the start of list number c, all its values and those of the later lists are to come. */
  lemma RestOfNextList<K, V>(lists: seq<Entry<K, V>>, c: nat)
    requires c < |lists| && |lists[c].chunks| > 0
    ensures var chain := lists[c].chunks;
      AllValues(lists[c..]) == chain[0].vals[0..] + Chain(chain[1..]) + AllValues(lists[c + 1..])
  {
    var rest, chain := lists[c..], lists[c].chunks;
    assert rest[1..] == lists[c + 1..];
    assert chain[0].vals[0..] == chain[0].vals;
    assert AllValues(rest) == Values(rest[0]) + AllValues(rest[1..]);
  }

  class ValueIterator<K, V> {
    const maxList: nat
    /** The lists that were added, the number of the current one, its remaining chunks, and the
        index in the current chunk. */
    var lists: seq<Entry<K, V>>
    var current: nat
    var chain: seq<Chunk<V>>
    var index: nat
    var size: nat

    constructor (maxList: nat)
      requires maxList > 0
      ensures Valid() && lists == [] && this.maxList == maxList
    {
      this.maxList := maxList;
      lists, current, chain, index, size := [], 0, [], 0, 0;
    }

    ghost predicate Valid()
      reads this
    {
      && |lists| <= maxList && (forall i :: 0 <= i < |lists| ==> ValidEntry(lists[i]))
      && size == |AllValues(lists)|
      && (lists != [] ==> current < |lists| && |chain| > 0 && index <= |chain[0].vals|)
      && (forall i :: 0 <= i < |chain| ==> |chain[i].vals| > 0)
    }

    /** What Next has still to deliver. */
    ghost function Rest(): seq<V>
      reads this
      requires Valid()
    {
      if lists == [] then [] else chain[0].vals[index..] + Chain(chain[1..]) + AllValues(lists[current + 1..])
    }

    /** iter_add: refuse when full. */
    method Add(list: Entry<K, V>) returns (ok: bool)
      requires Valid() && ValidEntry(list)
      modifies this
      ensures Valid() && ok == (|old(lists)| < maxList)
      ensures lists == if ok then old(lists) + [list] else old(lists)
      ensures Rest() == if ok then old(Rest()) + Values(list) else old(Rest())
    {
      if |lists| >= maxList { return false; }
      AllValuesAppend(lists, list);
      if lists == [] { AddFirst(list); } else { AddNext(list); }
      ok := true;
    }

    method AddFirst(list: Entry<K, V>)
      requires Valid() && ValidEntry(list) && lists == [] && maxList > 0 && AllValues([list]) == Values(list)
      modifies this
      ensures Valid() && lists == [list] && Rest() == Values(list)
    {
      chain, index, current := list.chunks, 0, 0;
      lists := [list];
      size := list.len;
      assert lists[1..] == [];
    }

    method AddNext(list: Entry<K, V>)
      requires Valid() && ValidEntry(list) && lists != [] && |lists| < maxList
      requires AllValues(lists + [list]) == AllValues(lists) + Values(list)
      modifies this
      ensures Valid() && lists == old(lists) + [list] && Rest() == old(Rest()) + Values(list)
    {
      RestAppend(chain[0].vals[index..] + Chain(chain[1..]), lists, current + 1, list);
      lists := lists + [list];
      size := size + list.len;
    }

    /** Leave a used-up chunk for the next chunk of the list. */
    method HopChunk()
      requires Valid() && lists != [] && index == |chain[0].vals| && |chain| > 1
      modifies this`chain, this`index
      ensures Valid() && Rest() == old(Rest()) && index < |chain[0].vals|
    {
      ChainStep(chain);
      chain := chain[1..];
      index := 0;
    }

    /** Leave a used-up list for the next list. */
    method HopList()
      requires Valid() && lists != [] && index == |chain[0].vals| && |chain| == 1 && current + 1 < |lists|
      modifies this`chain, this`current, this`index
      ensures Valid() && Rest() == old(Rest()) && index < |chain[0].vals|
    {
      ghost var next := current + 1;
      EndOfChain(chain, index, AllValues(lists[next..]));
      RestOfNextList(lists, next);
      assert ValidEntry(lists[next]);
      current := current + 1;
      chain := lists[current].chunks;
      index := 0;
    }

    /** Find the next value. */
    method Hop() returns (found: bool)
      requires Valid() && lists != []
      modifies this`chain, this`current, this`index
      ensures Valid() && Rest() == old(Rest())
      ensures found ==> index < |chain[0].vals|
      ensures !found ==> Rest() == []
    {
      found := true;
      if index >= |chain[0].vals| {
        if |chain| > 1 { HopChunk(); }
        else if current + 1 < |lists| { HopList(); }
        else { found := false; }
      }
    }

    /** Deliver the value that has been found. */
    method Read() returns (v: V)
      requires Valid() && lists != [] && index < |chain[0].vals|
      modifies this`index
      ensures Valid() && [v] + Rest() == old(Rest())
    {
      v := chain[0].vals[index];
      Prepend(chain[0].vals, index, Chain(chain[1..]), AllValues(lists[current + 1..]));
      index := index + 1;
    }

    /** iter_next: the next value, across chunks and lists, or none at the end. */
    method Next() returns (v: Option<V>)
      requires Valid() && lists != []
      modifies this`chain, this`current, this`index
      ensures Valid()
      ensures v.Some? ==> [v.value] + Rest() == old(Rest())
      ensures v.None? ==> Rest() == old(Rest()) == []
    {
      var found := Hop();
      if found {
        var value := Read();
        v := Some(value);
      } else {
        v := None;
      }
    }

    /** iter_rewind: deliver everything again. */
    method Rewind()
      requires Valid() && lists != []
      modifies this`chain, this`current, this`index
      ensures Valid() && Rest() == AllValues(lists)
    {
      current, chain, index := 0, lists[0].chunks, 0;
    }

    /** iter_reset: forget the lists. */
    method Reset()
      modifies this
      ensures Valid() && lists == []
    {
      lists, current, chain, index, size := [], 0, [], 0, 0;
    }
  }

  // -------------------------------------------------------------------------------------
  // One reduce task: arrays[t] is what map thread t emitted for it

  type Arrays<K, V> = seq<seq<Entry<K, V>>>

  ghost predicate ValidArrays<K, V>(cmp: Cmp<K>, arrays: Arrays<K, V>) {
    forall t :: 0 <= t < |arrays| ==> ValidArray(cmp, arrays[t])
  }

  /** The array has an entry for the key. */
  ghost predicate Has<K, V>(cmp: Cmp<K>, es: seq<Entry<K, V>>, k: K) {
    Position(cmp, es, k) < |es| && cmp(es[Position(cmp, es, k)].key, k) == 0
  }

  /** The entries for the key in the first n arrays. */
  ghost function Matching<K, V>(cmp: Cmp<K>, arrays: Arrays<K, V>, k: K, n: nat): (r: seq<Entry<K, V>>)
    requires n <= |arrays|
    ensures |r| <= n
  {
    if n == 0 then [] else
      Matching(cmp, arrays, k, n - 1) + if Has(cmp, arrays[n - 1], k) then [arrays[n - 1][Position(cmp, arrays[n - 1], k)]] else []
  }

  /** Where the search of an array stands before and after the entries for min are gathered. */
  ghost function Before<K, V>(cmp: Cmp<K>, es: seq<Entry<K, V>>, min: Option<K>): nat {
    match min case None => 0 case Some(m) => Position(cmp, es, m)
  }

  ghost function After<K, V>(cmp: Cmp<K>, es: seq<Entry<K, V>>, min: Option<K>): nat {
    match min case None => 0 case Some(m) => Position(cmp, es, m) + if Has(cmp, es, m) then 1 else 0
  }

  ghost function Gathered<K, V>(cmp: Cmp<K>, arrays: Arrays<K, V>, min: Option<K>, n: nat): seq<Entry<K, V>>
    requires n <= |arrays|
  {
    match min case None => [] case Some(m) => Matching(cmp, arrays, m, n)
  }

  /** next is the least key at the current positions of the first n arrays. */
  ghost predicate IsLeast<K, V>(cmp: Cmp<K>, arrays: Arrays<K, V>, pos: seq<nat>, next: Option<K>, n: nat)
    requires n <= |arrays| == |pos|
  {
    match next
    case None => forall t :: 0 <= t < n ==> pos[t] >= |arrays[t]|
    case Some(k) =>
      && (exists t :: 0 <= t < n && pos[t] < |arrays[t]| && arrays[t][pos[t]].key == k)
      && (forall t :: 0 <= t < n && pos[t] < |arrays[t]| ==> cmp(k, arrays[t][pos[t]].key) <= 0)
  }

  lemma AfterSplits<K(!new), V>(cmp: Cmp<K>, es: seq<Entry<K, V>>, m: K)
    requires Order(cmp) && Sorted(cmp, es)
    ensures After(cmp, es, Some(m)) <= |es|
    ensures forall i :: 0 <= i < After(cmp, es, Some(m)) ==> cmp(es[i].key, m) <= 0
    ensures forall i :: After(cmp, es, Some(m)) <= i < |es| ==> cmp(es[i].key, m) > 0
  {
    PositionSplits(cmp, es, m);
    var p := Position(cmp, es, m);
    if p < |es| {
      forall i | p < i < |es| ensures cmp(es[i].key, m) > 0 { Transitive(cmp, m, es[p].key, es[i].key); }
    }
  }

  lemma NewLeast<K(!new), V>(cmp: Cmp<K>, arrays: Arrays<K, V>, pos: seq<nat>, next: Option<K>, t: nat)
    requires Order(cmp) && t < |arrays| == |pos| && pos[t] < |arrays[t]| && IsLeast(cmp, arrays, pos, next, t)
    ensures var k := arrays[t][pos[t]].key;
      IsLeast(cmp, arrays, pos, if next.None? || cmp(k, next.value) < 0 then Some(k) else next, t + 1)
  {
    var k := arrays[t][pos[t]].key;
    if next.Some? && cmp(k, next.value) < 0 {
      forall u | 0 <= u < t && pos[u] < |arrays[u]| ensures cmp(k, arrays[u][pos[u]].key) <= 0 {
        Transitive(cmp, k, next.value, arrays[u][pos[u]].key);
      }
    }
  }

  /** The first t arrays have been visited. */
  ghost predicate VisitedTo<K, V>(cmp: Cmp<K>, arrays: Arrays<K, V>, pos: seq<nat>, min: Option<K>, t: nat)
    requires t <= |arrays| == |pos|
  {
    && (forall u :: 0 <= u < t ==> pos[u] == After(cmp, arrays[u], min))
    && (forall u :: t <= u < |arrays| ==> pos[u] == Before(cmp, arrays[u], min))
  }

  lemma VisitedNext<K, V>(cmp: Cmp<K>, arrays: Arrays<K, V>, was: seq<nat>, pos: seq<nat>, min: Option<K>, t: nat)
    requires t < |arrays| == |pos| == |was| && VisitedTo(cmp, arrays, was, min, t)
    requires pos[t] == After(cmp, arrays[t], min) && forall u :: 0 <= u < |arrays| && u != t ==> pos[u] == was[u]
    ensures VisitedTo(cmp, arrays, pos, min, t + 1)
  {
    forall u | 0 <= u < t + 1 ensures pos[u] == After(cmp, arrays[u], min) { }
    forall u | t + 1 <= u < |arrays| ensures pos[u] == Before(cmp, arrays[u], min) { }
  }

  ghost predicate AtMin<K, V>(cmp: Cmp<K>, arrays: Arrays<K, V>, pos: seq<nat>, min: Option<K>)
    requires |pos| == |arrays|
  {
    VisitedTo(cmp, arrays, pos, min, 0)
  }

  ghost predicate PastMin<K, V>(cmp: Cmp<K>, arrays: Arrays<K, V>, pos: seq<nat>, min: Option<K>)
    requires |pos| == |arrays|
  {
    VisitedTo(cmp, arrays, pos, min, |arrays|)
  }

  /** One round of the loop: gather the entries for min and find the next key. */
  method Gather<K(!new), V>(cmp: Cmp<K>, arrays: Arrays<K, V>, pos: array<nat>, min: Option<K>, itr: ValueIterator<K, V>)
    returns (next: Option<K>)
    requires Order(cmp) && ValidArrays(cmp, arrays) && pos.Length == |arrays| == itr.maxList
    requires itr.Valid() && itr.lists == [] && AtMin(cmp, arrays, pos[..], min)
    modifies pos, itr
    ensures PastMin(cmp, arrays, pos[..], min)
    ensures itr.Valid() && itr.lists == Gathered(cmp, arrays, min, |arrays|)
    ensures IsLeast(cmp, arrays, pos[..], next, |arrays|)
  {
    next := None;
    for t := 0 to |arrays|
      invariant VisitedTo(cmp, arrays, pos[..], min, t)
      invariant itr.Valid() && itr.lists == Gathered(cmp, arrays, min, t)
      invariant IsLeast(cmp, arrays, pos[..], next, t)
    {
      next := Visit(cmp, arrays, pos, min, itr, t, next);
    }
  }

  /** Visit array t: gather its entry for min, then see whether its next key is smaller. */
  method Visit<K(!new), V>(cmp: Cmp<K>, arrays: Arrays<K, V>, pos: array<nat>, min: Option<K>, itr: ValueIterator<K, V>, t: nat,
                           least: Option<K>) returns (next: Option<K>)
    requires Order(cmp) && ValidArrays(cmp, arrays) && t < pos.Length == |arrays| == itr.maxList
    requires itr.Valid() && itr.lists == Gathered(cmp, arrays, min, t)
    requires VisitedTo(cmp, arrays, pos[..], min, t) && IsLeast(cmp, arrays, pos[..], least, t)
    modifies pos, itr
    ensures VisitedTo(cmp, arrays, pos[..], min, t + 1)
    ensures itr.Valid() && itr.lists == Gathered(cmp, arrays, min, t + 1)
    ensures IsLeast(cmp, arrays, pos[..], next, t + 1)
  {
    ghost var before := pos[..];
    TakeMatching(cmp, arrays, pos, min, itr, t);
    VisitedNext(cmp, arrays, before, pos[..], min, t);
    SameLeast(cmp, arrays, before, pos[..], least, t);
    next := least;
    if pos[t] < |arrays[t]| {
      var k := arrays[t][pos[t]].key;
      NewLeast(cmp, arrays, pos[..], least, t);
      if least.None? || cmp(k, least.value) < 0 { next := Some(k); }
    }
  }

  lemma SameLeast<K(!new), V>(cmp: Cmp<K>, arrays: Arrays<K, V>, pos: seq<nat>, pos': seq<nat>, next: Option<K>, t: nat)
    requires t <= |arrays| == |pos| == |pos'| && IsLeast(cmp, arrays, pos, next, t)
    requires forall u :: 0 <= u < t ==> pos'[u] == pos[u]
    ensures IsLeast(cmp, arrays, pos', next, t)
  {
  }

  ghost predicate Matches<K, V>(cmp: Cmp<K>, es: seq<Entry<K, V>>, min: Option<K>, i: nat) {
    i < |es| && min.Some? && cmp(es[i].key, min.value) == 0
  }

  /** An array has at most one entry for min, and it is the one where the search stands. */
  lemma MatchingAt<K(!new), V>(cmp: Cmp<K>, arrays: Arrays<K, V>, min: Option<K>, t: nat)
    requires Order(cmp) && ValidArrays(cmp, arrays) && t < |arrays|
    ensures var es := arrays[t]; var p, q := Before(cmp, es, min), After(cmp, es, min);
      && p <= q <= |es| && !Matches(cmp, es, min, q) && |Gathered(cmp, arrays, min, t)| <= t
      && (if Matches(cmp, es, min, p)
          then q == p + 1 && Gathered(cmp, arrays, min, t + 1) == Gathered(cmp, arrays, min, t) + [es[p]]
          else q == p && Gathered(cmp, arrays, min, t + 1) == Gathered(cmp, arrays, min, t))
  {
    assert ValidArray(cmp, arrays[t]);
    if min.Some? { AfterSplits(cmp, arrays[t], min.value); }
  }

  lemma EntryOfArrays<K, V>(cmp: Cmp<K>, arrays: Arrays<K, V>, t: nat, i: nat)
    requires ValidArrays(cmp, arrays) && t < |arrays| && i < |arrays[t]|
    ensures ValidEntry(arrays[t][i])
  {
    assert ValidArray(cmp, arrays[t]);
  }

  /** The rounds of the inner loop that stay at array t. */
  method TakeMatching<K(!new), V>(cmp: Cmp<K>, arrays: Arrays<K, V>, pos: array<nat>, min: Option<K>, itr: ValueIterator<K, V>, t: nat)
    requires Order(cmp) && ValidArrays(cmp, arrays) && t < pos.Length == |arrays| == itr.maxList
    requires itr.Valid() && itr.lists == Gathered(cmp, arrays, min, t)
    requires pos[t] == Before(cmp, arrays[t], min)
    modifies pos, itr
    ensures pos[t] == After(cmp, arrays[t], min) && forall u :: 0 <= u < |arrays| && u != t ==> pos[u] == old(pos[u])
    ensures itr.Valid() && itr.lists == Gathered(cmp, arrays, min, t + 1)
  {
    ghost var first, last, had, has := pos[t], After(cmp, arrays[t], min), itr.lists, Gathered(cmp, arrays, min, t + 1);
    MatchingAt(cmp, arrays, min, t);
    while pos[t] < |arrays[t]| && min.Some? && cmp(arrays[t][pos[t]].key, min.value) == 0
      invariant pos[t] == first || pos[t] == last
      invariant forall u :: 0 <= u < |arrays| && u != t ==> pos[u] == old(pos[u])
      invariant itr.Valid() && itr.lists == (if pos[t] == first then had else has)
      decreases |arrays[t]| - pos[t]
    {
      assert Matches(cmp, arrays[t], min, pos[t]);
      EntryOfArrays(cmp, arrays, t, pos[t]);
      var ok := itr.Add(arrays[t][pos[t]]);
      assert ok;
      pos[t] := pos[t] + 1;
    }
  }

  /** A call of the reduce function: the key and the lists in the iterator. */
  datatype Call<K, V> = Call(key: K, lists: seq<Entry<K, V>>)

  ghost predicate Covered<K, V>(cmp: Cmp<K>, calls: seq<Call<K, V>>, k: K) {
    exists c :: 0 <= c < |calls| && cmp(calls[c].key, k) == 0
  }

  /** The calls are in the order of the keys, no key twice, each with all the entries for its key. */
  ghost predicate CallsOk<K, V>(cmp: Cmp<K>, arrays: Arrays<K, V>, calls: seq<Call<K, V>>) {
    && (forall c :: 0 <= c < |calls| ==> calls[c].lists == Matching(cmp, arrays, calls[c].key, |arrays|) != [])
    && (forall c, d :: 0 <= c < d < |calls| ==> cmp(calls[c].key, calls[d].key) < 0)
  }

  /** Every key found before these positions has been reduced. */
  ghost predicate CoveredTo<K, V>(cmp: Cmp<K>, arrays: Arrays<K, V>, calls: seq<Call<K, V>>, pos: seq<nat>)
    requires |pos| == |arrays|
  {
    forall t, i :: 0 <= t < |arrays| && 0 <= i < pos[t] && i < |arrays[t]| ==> Covered(cmp, calls, arrays[t][i].key)
  }

  lemma PastIsLarger<K(!new), V>(cmp: Cmp<K>, es: seq<Entry<K, V>>, m: K, p: nat)
    requires Order(cmp) && Sorted(cmp, es) && After(cmp, es, Some(m)) <= p < |es|
    ensures cmp(m, es[p].key) < 0
  {
    AfterSplits(cmp, es, m);
  }

  lemma NextIsHere<K(!new), V>(cmp: Cmp<K>, es: seq<Entry<K, V>>, min: Option<K>, next: K, p: nat)
    requires Order(cmp) && Sorted(cmp, es) && p == After(cmp, es, min) && (min.Some? ==> cmp(min.value, next) < 0)
    requires p < |es| ==> cmp(next, es[p].key) <= 0
    ensures p == Before(cmp, es, Some(next))
  {
    if min.Some? {
      AfterSplits(cmp, es, min.value);
      if p > 0 { Transitive(cmp, es[p - 1].key, min.value, next); }
    }
    PositionUnique(cmp, es, next, p);
  }

  lemma SortedArray<K, V>(cmp: Cmp<K>, arrays: Arrays<K, V>, t: nat)
    requires ValidArrays(cmp, arrays) && t < |arrays|
    ensures Sorted(cmp, arrays[t])
  {
    assert ValidArray(cmp, arrays[t]);
  }

  /** Past the entries for min, all arrays stand at the next key, which is larger. */
  lemma NextMin<K(!new), V>(cmp: Cmp<K>, arrays: Arrays<K, V>, pos: seq<nat>, min: Option<K>, next: K)
    requires Order(cmp) && ValidArrays(cmp, arrays) && |pos| == |arrays| && PastMin(cmp, arrays, pos, min)
    requires IsLeast(cmp, arrays, pos, Some(next), |arrays|)
    ensures AtMin(cmp, arrays, pos, Some(next)) && Matching(cmp, arrays, next, |arrays|) != []
    ensures min.Some? ==> cmp(min.value, next) < 0
  {
    var t: nat :| t < |arrays| && pos[t] < |arrays[t]| && arrays[t][pos[t]].key == next;
    SortedArray(cmp, arrays, t);
    if min.Some? { PastIsLarger(cmp, arrays[t], min.value, pos[t]); }
    forall u: nat | u < |arrays| ensures pos[u] == Before(cmp, arrays[u], Some(next)) {
      SortedArray(cmp, arrays, u);
      NextIsHere(cmp, arrays[u], min, next, pos[u]);
    }
    MatchingNotEmpty(cmp, arrays, next, |arrays|, t);
  }

  lemma {:induction false} MatchingNotEmpty<K, V>(cmp: Cmp<K>, arrays: Arrays<K, V>, k: K, n: nat, t: nat)
    requires t < n <= |arrays| && Has(cmp, arrays[t], k)
    ensures Matching(cmp, arrays, k, n) != []
  {
    if t < n - 1 { MatchingNotEmpty(cmp, arrays, k, n - 1, t); }
  }

  lemma CallsGrow<K(!new), V>(cmp: Cmp<K>, arrays: Arrays<K, V>, calls: seq<Call<K, V>>, m: K)
    requires CallsOk(cmp, arrays, calls) && Matching(cmp, arrays, m, |arrays|) != []
    requires forall c :: 0 <= c < |calls| ==> cmp(calls[c].key, m) < 0
    ensures CallsOk(cmp, arrays, calls + [Call(m, Matching(cmp, arrays, m, |arrays|))])
  {
    var call := Call(m, Matching(cmp, arrays, m, |arrays|));
    assert |call.lists| > 0;
    forall c | 0 <= c < |calls| + 1
      ensures (calls + [call])[c].lists == Matching(cmp, arrays, (calls + [call])[c].key, |arrays|) != []
    {
      assert (calls + [call])[c] == if c < |calls| then calls[c] else call;
    }
  }

  /** The reduce call for min: it extends the calls, and covers the entries for min. */
  lemma CallAdded<K(!new), V>(cmp: Cmp<K>, arrays: Arrays<K, V>, calls: seq<Call<K, V>>, m: K, before: seq<nat>, after: seq<nat>)
    requires Order(cmp) && ValidArrays(cmp, arrays) && |before| == |after| == |arrays|
    requires CallsOk(cmp, arrays, calls) && Matching(cmp, arrays, m, |arrays|) != []
    requires forall c :: 0 <= c < |calls| ==> cmp(calls[c].key, m) < 0
    requires AtMin(cmp, arrays, before, Some(m)) && PastMin(cmp, arrays, after, Some(m)) && CoveredTo(cmp, arrays, calls, before)
    ensures CallsOk(cmp, arrays, calls + [Call(m, Matching(cmp, arrays, m, |arrays|))])
    ensures CoveredTo(cmp, arrays, calls + [Call(m, Matching(cmp, arrays, m, |arrays|))], after)
  {
    var call := Call(m, Matching(cmp, arrays, m, |arrays|));
    CallsGrow(cmp, arrays, calls, m);
    assert CoveredTo(cmp, arrays, calls + [call], after) by {
      forall t: nat, i: nat | t < |arrays| && i < after[t] && i < |arrays[t]|
        ensures Covered(cmp, calls + [call], arrays[t][i].key) {
        if i >= before[t] { MinIsHere(cmp, arrays[t], m, i); }
        AddedCovers(cmp, calls, call, arrays[t][i].key, i < before[t]);
      }
    }
  }

  lemma MinIsHere<K(!new), V>(cmp: Cmp<K>, es: seq<Entry<K, V>>, m: K, i: nat)
    requires Order(cmp) && Position(cmp, es, m) <= i < After(cmp, es, Some(m)) && i < |es|
    ensures cmp(m, es[i].key) == 0
  {
  }

  lemma AddedCovers<K(!new), V>(cmp: Cmp<K>, calls: seq<Call<K, V>>, call: Call<K, V>, k: K, earlier: bool)
    requires if earlier then Covered(cmp, calls, k) else cmp(call.key, k) == 0
    ensures Covered(cmp, calls + [call], k)
  {
    var more := calls + [call];
    if earlier {
      var c :| 0 <= c < |calls| && cmp(calls[c].key, k) == 0;
      assert more[c] == calls[c];
    } else {
      assert more[|calls|] == call;
    }
  }

  /** The sum of what is left of the arrays. */
  ghost function Left<K, V>(arrays: Arrays<K, V>, pos: seq<nat>, n: nat): int
    requires n <= |arrays| == |pos|
  {
    if n == 0 then 0 else Left(arrays, pos, n - 1) + |arrays[n - 1]| - pos[n - 1]
  }

  lemma {:induction false} LeftDecreases<K, V>(arrays: Arrays<K, V>, before: seq<nat>, after: seq<nat>, n: nat)
    requires n <= |arrays| == |before| == |after|
    requires forall t :: 0 <= t < n ==> before[t] <= after[t] <= |arrays[t]|
    ensures 0 <= Left(arrays, after, n) <= Left(arrays, before, n)
    ensures (exists t :: 0 <= t < n && before[t] < after[t]) ==> Left(arrays, after, n) < Left(arrays, before, n)
  {
    if n > 0 { LeftDecreases(arrays, before, after, n - 1); }
  }

  lemma {:induction false} MatchingSomewhere<K, V>(cmp: Cmp<K>, arrays: Arrays<K, V>, k: K, n: nat) returns (t: nat)
    requires n <= |arrays| && Matching(cmp, arrays, k, n) != []
    ensures t < n && Has(cmp, arrays[t], k)
  {
    if Has(cmp, arrays[n - 1], k) { t := n - 1; } else { t := MatchingSomewhere(cmp, arrays, k, n - 1); }
  }

  /** Gathering the entries for min shortens the rest. */
  lemma RoundShortens<K(!new), V>(cmp: Cmp<K>, arrays: Arrays<K, V>, before: seq<nat>, after: seq<nat>, m: K)
    requires Order(cmp) && ValidArrays(cmp, arrays) && |before| == |after| == |arrays|
    requires Matching(cmp, arrays, m, |arrays|) != []
    requires AtMin(cmp, arrays, before, Some(m)) && PastMin(cmp, arrays, after, Some(m))
    ensures 0 <= Left(arrays, after, |arrays|) < Left(arrays, before, |arrays|)
  {
    forall t: nat | t < |arrays| ensures before[t] <= after[t] <= |arrays[t]| { AfterSplits(cmp, arrays[t], m); }
    var t := MatchingSomewhere(cmp, arrays, m, |arrays|);
    assert before[t] < after[t];
    LeftDecreases(arrays, before, after, |arrays|);
  }

  /** The state at the head of the loop when min is the next key to reduce. */
  ghost predicate Ready<K, V>(cmp: Cmp<K>, arrays: Arrays<K, V>, calls: seq<Call<K, V>>, pos: seq<nat>, min: Option<K>)
    requires |pos| == |arrays|
  {
    && CallsOk(cmp, arrays, calls) && CoveredTo(cmp, arrays, calls, pos) && AtMin(cmp, arrays, pos, min)
    && match min
       case None => calls == []
       case Some(m) => Matching(cmp, arrays, m, |arrays|) != [] && forall c :: 0 <= c < |calls| ==> cmp(calls[c].key, m) < 0
  }

  /** One turn of the loop: gather the entries for min, reduce them, and turn to the next key. */
  method Round<K(!new), V>(cmp: Cmp<K>, arrays: Arrays<K, V>, pos: array<nat>, min: Option<K>, itr: ValueIterator<K, V>,
                           before: seq<Call<K, V>>) returns (calls: seq<Call<K, V>>, next: Option<K>)
    requires Order(cmp) && ValidArrays(cmp, arrays) && pos.Length == |arrays| == itr.maxList && itr.Valid() && itr.lists == []
    requires Ready(cmp, arrays, before, pos[..], min)
    modifies pos, itr
    ensures itr.Valid() && itr.lists == []
    ensures CallsOk(cmp, arrays, calls) && CoveredTo(cmp, arrays, calls, pos[..])
    ensures next.Some? ==> Ready(cmp, arrays, calls, pos[..], next)
    ensures next.None? <==> forall t :: 0 <= t < |arrays| ==> pos[t] >= |arrays[t]|
    ensures min.Some? ==> 0 <= Left(arrays, pos[..], |arrays|) < Left(arrays, old(pos[..]), |arrays|)
  {
    ghost var start := pos[..];
    next := Gather(cmp, arrays, pos, min, itr);
    calls := if min.Some? then before + [Call(min.value, itr.lists)] else before;
    TurnDone(cmp, arrays, before, calls, start, pos[..], min, next);
    itr.Reset();
  }

  /** The calls after the turn for min. */
  ghost function CallsAfter<K, V>(cmp: Cmp<K>, arrays: Arrays<K, V>, calls: seq<Call<K, V>>, min: Option<K>): seq<Call<K, V>> {
    match min case None => calls case Some(m) => calls + [Call(m, Matching(cmp, arrays, m, |arrays|))]
  }

  lemma TurnDone<K(!new), V>(cmp: Cmp<K>, arrays: Arrays<K, V>, before: seq<Call<K, V>>, calls: seq<Call<K, V>>,
                             start: seq<nat>, pos: seq<nat>, min: Option<K>, next: Option<K>)
    requires Order(cmp) && ValidArrays(cmp, arrays) && |start| == |pos| == |arrays|
    requires Ready(cmp, arrays, before, start, min) && PastMin(cmp, arrays, pos, min) && calls == CallsAfter(cmp, arrays, before, min)
    requires IsLeast(cmp, arrays, pos, next, |arrays|)
    ensures CallsOk(cmp, arrays, calls) && CoveredTo(cmp, arrays, calls, pos)
    ensures next.Some? ==> Ready(cmp, arrays, calls, pos, next)
    ensures min.Some? ==> 0 <= Left(arrays, pos, |arrays|) < Left(arrays, start, |arrays|)
  {
    if min.Some? {
      CallAdded(cmp, arrays, before, min.value, start, pos);
      RoundShortens(cmp, arrays, start, pos, min.value);
    }
    if next.Some? {
      NextMin(cmp, arrays, pos, min, next.value);
      if min.Some? { KeysBelow(cmp, calls, min.value, next.value); }
    }
  }

  /** reduce_worker_do_next_task: the calls of the reduce function for one task. */
  method ReduceTask<K(!new), V>(cmp: Cmp<K>, arrays: Arrays<K, V>) returns (calls: seq<Call<K, V>>)
    requires Order(cmp) && ValidArrays(cmp, arrays) && |arrays| > 0
    ensures CallsOk(cmp, arrays, calls)
    ensures forall t, i :: 0 <= t < |arrays| && 0 <= i < |arrays[t]| ==> Covered(cmp, calls, arrays[t][i].key)
  {
    var itr := new ValueIterator<K, V>(|arrays|);
    var pos := new nat[|arrays|](_ => 0);
    calls := [];
    var min: Option<K> := None;
    var more := true;
    while more
      invariant fresh(itr) && fresh(pos) && pos.Length == |arrays| == itr.maxList && itr.Valid() && itr.lists == []
      invariant more ==> Ready(cmp, arrays, calls, pos[..], min)
      invariant !more ==> CallsOk(cmp, arrays, calls) && CoveredTo(cmp, arrays, calls, pos[..])
      invariant !more ==> forall t :: 0 <= t < |arrays| ==> pos[t] >= |arrays[t]|
      decreases more, min.None?, if more then Left(arrays, pos[..], |arrays|) else 0
    {
      calls, min := Round(cmp, arrays, pos, min, itr, calls);
      more := AnyLeft(arrays, pos);
    }
  }

  lemma KeysBelow<K(!new), V>(cmp: Cmp<K>, calls: seq<Call<K, V>>, m: K, next: K)
    requires Order(cmp) && cmp(m, next) < 0 && |calls| > 0 && calls[|calls| - 1].key == m
    requires forall c :: 0 <= c < |calls| - 1 ==> cmp(calls[c].key, m) < 0
    ensures forall c :: 0 <= c < |calls| ==> cmp(calls[c].key, next) < 0
  {
    forall c | 0 <= c < |calls| - 1 ensures cmp(calls[c].key, next) < 0 { Transitive(cmp, calls[c].key, m, next); }
  }

  method AnyLeft<K, V>(arrays: Arrays<K, V>, pos: array<nat>) returns (left: bool)
    requires pos.Length == |arrays|
    ensures left <==> exists t :: 0 <= t < |arrays| && pos[t] < |arrays[t]|
  {
    var t := 0;
    while t < |arrays| && pos[t] >= |arrays[t]|
      invariant t <= |arrays| && forall u :: 0 <= u < t ==> pos[u] >= |arrays[u]|
    {
      t := t + 1;
    }
    left := t != |arrays|;
  }
}
