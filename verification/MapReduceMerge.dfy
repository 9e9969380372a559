/** The final arrays of the MapReduce runtime: sorted insertion, k-way merge, merge rounds. */
module MapReduceMerge {
  import opened Arithmetic
  import opened MapReduceInsert
  import opened MapReduceResult

  ghost predicate InOrder<K, V>(cmp: Cmp<K>, ps: seq<Pair<K, V>>) {
    forall i, j :: 0 <= i < j < |ps| ==> cmp(ps[i].key, ps[j].key) <= 0
  }

  lemma InsertInOrder<K(!new), V>(cmp: Cmp<K>, ps: seq<Pair<K, V>>, x: Pair<K, V>, p: nat)
    requires Order(cmp) && InOrder(cmp, ps) && p <= |ps|
    requires p > 0 ==> cmp(ps[p - 1].key, x.key) <= 0
    requires p < |ps| ==> cmp(x.key, ps[p].key) <= 0
    ensures InOrder(cmp, ps[..p] + [x] + ps[p..])
  {
    var r := ps[..p] + [x] + ps[p..];
    forall i, j | 0 <= i < j < |r| ensures cmp(r[i].key, r[j].key) <= 0 {
      if i < p - 1 && j == p { Transitive(cmp, ps[i].key, ps[p - 1].key, x.key); }
      if i == p && j > p + 1 { Transitive(cmp, x.key, ps[p].key, ps[j - 1].key); }
    }
  }

  lemma InsertedMultiset<T>(ps: seq<T>, p: nat, x: T)
    requires p <= |ps|
    ensures multiset(ps[..p] + [x] + ps[p..]) == multiset(ps) + multiset{x}
    ensures p == |ps| ==> ps[..p] + [x] + ps[p..] == ps + [x]
  {
    assert ps == ps[..p] + ps[p..];
    assert multiset(ps[..p] + ps[p..]) == multiset(ps[..p]) + multiset(ps[p..]);
  }

  // -------------------------------------------------------------------------------------
  // The growable array of key-value pairs

  /** The other pairs stay in their order. */
  ghost predicate IsInserted<K, V>(before: seq<Pair<K, V>>, after: seq<Pair<K, V>>, x: Pair<K, V>) {
    exists p :: 0 <= p <= |before| && after == before[..p] + [x] + before[p..]
  }

  class KeyvalArr<K(!new), V(!new)> {
    var arr: array<Pair<K, V>>
    var len: nat

    constructor ()
      ensures Valid() && fresh(arr) && Contents() == []
    {
      arr := new Pair<K, V>[0];
      len := 0;
    }

    ghost predicate Valid()
      reads this
    {
      len <= arr.Length
    }

    ghost function Contents(): seq<Pair<K, V>>
      reads this, arr
      requires Valid()
    {
      arr[..len]
    }

    method Grow(fill: Pair<K, V>)
      requires Valid() && len == arr.Length
      modifies this`arr
      ensures Valid() && fresh(arr) && Contents() == old(Contents())
      ensures arr.Length == if len == 0 then DEFAULT_KEYVAL_ARR_LEN else 2 * len
    {
      var n := if len == 0 then DEFAULT_KEYVAL_ARR_LEN else 2 * len;
      var bigger := new Pair<K, V>[n](_ => fill);
      forall i | 0 <= i < len { bigger[i] := arr[i]; }
      arr := bigger;
    }

    /** A place for a key: after a last key that is not larger, else by binary search. */
    method Find(cmp: Cmp<K>, key: K) returns (low: nat)
      requires Valid() && Order(cmp) && InOrder(cmp, Contents())
      ensures low <= len
      ensures low > 0 ==> cmp(arr[low - 1].key, key) <= 0
      ensures low < len ==> cmp(key, arr[low].key) <= 0
    {
      ghost var ps := Contents();
      var c := 1;
      if len > 0 { c := cmp(arr[len - 1].key, key); }
      if c <= 0 { return len; }
      var l: int, high: int := -1, len;
      while high - l > 1
        invariant -1 <= l < high <= len
        invariant l >= 0 ==> cmp(ps[l].key, key) <= 0
        invariant high < len ==> cmp(ps[high].key, key) > 0
      {
        var next := (high + l) / 2;
        if cmp(arr[next].key, key) > 0 { high := next; } else { l := next; }
      }
      if l < 0 { l := 0; }
      if len > 0 && cmp(arr[l].key, key) < 0 { l := l + 1; }
      low := l;
      if low > 0 && cmp(ps[low - 1].key, key) > 0 { Transitive(cmp, ps[low - 1].key, ps[low].key, key); }
    }

    method Shift(low: nat, x: Pair<K, V>)
      requires Valid() && low <= len < arr.Length
      modifies this`len, arr
      ensures Valid() && len == old(len) + 1
      ensures Contents() == old(Contents()[..low]) + [x] + old(Contents()[low..])
    {
      ghost var ps := Contents();
      forall i | low <= i < len { arr[i + 1] := arr[i]; }
      arr[low] := x;
      len := len + 1;
      ghost var r := Contents();
      assert forall i :: 0 <= i < low ==> r[i] == ps[i];
      assert forall i :: low < i < |r| ==> r[i] == ps[i - 1];
      assert r == ps[..low] + [x] + ps[low..];
    }

    /** insert_keyval: insert in order, or append when every reduce task has its own queue. */
    method Insert(cmp: Cmp<K>, perTask: bool, key: K, val: V)
      requires Valid() && Order(cmp) && (!perTask ==> InOrder(cmp, Contents()))
      modifies this, arr
      ensures Valid() && (arr == old(arr) || fresh(arr))
      ensures multiset(Contents()) == multiset(old(Contents())) + multiset{Pair(key, val)}
      ensures perTask ==> Contents() == old(Contents()) + [Pair(key, val)]
      ensures !perTask ==> InOrder(cmp, Contents())
      ensures IsInserted(old(Contents()), Contents(), Pair(key, val))
      ensures arr.Length == if old(len) < old(arr.Length) then old(arr.Length)
                            else if old(len) == 0 then DEFAULT_KEYVAL_ARR_LEN else 2 * old(len)
    {
      ghost var ps := Contents();
      if len == arr.Length { Grow(Pair(key, val)); }
      var low := len;
      if !perTask {
        low := Find(cmp, key);
        InsertInOrder(cmp, ps, Pair(key, val), low);
      }
      Shift(low, Pair(key, val));
      InsertedMultiset(ps, low, Pair(key, val));
    }
  }

  // -------------------------------------------------------------------------------------
  // merge_results

  ghost function Total<K, V>(arrays: seq<seq<Pair<K, V>>>, pos: seq<nat>, n: nat): multiset<Pair<K, V>>
    requires n <= |arrays| == |pos| && forall i :: 0 <= i < |arrays| ==> pos[i] <= |arrays[i]|
  {
    if n == 0 then multiset{} else Total(arrays, pos, n - 1) + multiset(arrays[n - 1][pos[n - 1]..])
  }

  /** The sum of the lengths. */
  function Length<K, V>(arrays: seq<seq<Pair<K, V>>>): nat {
    if arrays == [] then 0 else Length(arrays[..|arrays| - 1]) + |arrays[|arrays| - 1]|
  }

  ghost function AllOf<K, V>(arrays: seq<seq<Pair<K, V>>>): multiset<Pair<K, V>> {
    if arrays == [] then multiset{} else AllOf(arrays[..|arrays| - 1]) + multiset(arrays[|arrays| - 1])
  }

  lemma {:induction false} TotalTake<K, V>(arrays: seq<seq<Pair<K, V>>>, pos: seq<nat>, m: nat, n: nat)
    requires n <= |arrays| == |pos| && m < |arrays| && forall i :: 0 <= i < |arrays| ==> pos[i] <= |arrays[i]|
    requires pos[m] < |arrays[m]|
    ensures Total(arrays, pos, n) ==
            Total(arrays, pos[m := pos[m] + 1], n) + if m < n then multiset{arrays[m][pos[m]]} else multiset{}
  {
    if n > 0 {
      TotalTake(arrays, pos, m, n - 1);
      if m == n - 1 { assert arrays[m][pos[m]..] == [arrays[m][pos[m]]] + arrays[m][pos[m] + 1..]; }
    }
  }

  lemma {:induction false} TotalStart<K, V>(arrays: seq<seq<Pair<K, V>>>, pos: seq<nat>, n: nat)
    requires n <= |arrays| == |pos| && forall i :: 0 <= i < |arrays| ==> pos[i] == 0
    ensures Total(arrays, pos, n) == AllOf(arrays[..n]) && |Total(arrays, pos, n)| == Length(arrays[..n])
  {
    if n > 0 {
      TotalStart(arrays, pos, n - 1);
      assert arrays[..n][..n - 1] == arrays[..n - 1];
    }
  }

  lemma {:induction false} TotalEmpty<K, V>(arrays: seq<seq<Pair<K, V>>>, pos: seq<nat>, n: nat)
    requires n <= |arrays| == |pos| && forall i :: 0 <= i < |arrays| ==> pos[i] <= |arrays[i]|
    ensures Total(arrays, pos, n) == multiset{} <==> forall i :: 0 <= i < n ==> pos[i] == |arrays[i]|
  {
    if n > 0 {
      TotalEmpty(arrays, pos, n - 1);
      var rest := arrays[n - 1][pos[n - 1]..];
      assert |multiset(rest)| == |rest|;
    }
  }

  /** Nothing that is left is smaller than x. */
  ghost predicate LeftAbove<K, V>(cmp: Cmp<K>, arrays: seq<seq<Pair<K, V>>>, pos: seq<nat>, k: K)
    requires |pos| == |arrays|
  {
    forall i, j :: 0 <= i < |arrays| && pos[i] <= j < |arrays[i]| ==> cmp(k, arrays[i][j].key) <= 0
  }

  /** Of the arrays from the first to the n-th, min is the first with the least current key. */
  ghost predicate IsMin<K, V>(cmp: Cmp<K>, arrays: seq<seq<Pair<K, V>>>, pos: seq<nat>, min: nat, n: nat)
    requires n <= |arrays| == |pos|
  {
    && min < n && pos[min] < |arrays[min]|
    && forall i :: 0 <= i < n && pos[i] < |arrays[i]| ==> cmp(arrays[min][pos[min]].key, arrays[i][pos[i]].key) <= 0
  }

  /** The array with the least current key, if any is left. */
  method FindMin<K(!new), V>(cmp: Cmp<K>, arrays: seq<seq<Pair<K, V>>>, pos: array<nat>) returns (min: nat)
    requires Order(cmp) && pos.Length == |arrays|
    requires exists i :: 0 <= i < |arrays| && pos[i] < |arrays[i]|
    ensures IsMin(cmp, arrays, pos[..], min, |arrays|)
  {
    var i := 0;
    while pos[i] >= |arrays[i]|
      invariant i < |arrays| && forall u :: 0 <= u < i ==> pos[u] >= |arrays[u]|
      invariant exists u :: i <= u < |arrays| && pos[u] < |arrays[u]|
      decreases |arrays| - i
    {
      i := i + 1;
    }
    min := i;
    for n := i + 1 to |arrays|
      invariant IsMin(cmp, arrays, pos[..], min, n)
    {
      if pos[n] < |arrays[n]| && cmp(arrays[min][pos[min]].key, arrays[n][pos[n]].key) > 0 {
        BetterMin(cmp, arrays, pos[..], min, n);
        min := n;
      }
    }
  }

  lemma BetterMin<K(!new), V>(cmp: Cmp<K>, arrays: seq<seq<Pair<K, V>>>, pos: seq<nat>, min: nat, n: nat)
    requires Order(cmp) && n < |arrays| == |pos| && IsMin(cmp, arrays, pos, min, n) && pos[n] < |arrays[n]|
    requires cmp(arrays[min][pos[min]].key, arrays[n][pos[n]].key) > 0
    ensures IsMin(cmp, arrays, pos, n, n + 1)
  {
    forall i | 0 <= i < n && pos[i] < |arrays[i]| ensures cmp(arrays[n][pos[n]].key, arrays[i][pos[i]].key) <= 0 {
      Transitive(cmp, arrays[n][pos[n]].key, arrays[min][pos[min]].key, arrays[i][pos[i]].key);
    }
  }

  lemma MinBelowAll<K(!new), V>(cmp: Cmp<K>, arrays: seq<seq<Pair<K, V>>>, pos: seq<nat>, min: nat)
    requires Order(cmp) && |arrays| == |pos| && IsMin(cmp, arrays, pos, min, |arrays|)
    requires forall i :: 0 <= i < |arrays| ==> InOrder(cmp, arrays[i])
    ensures LeftAbove(cmp, arrays, pos, arrays[min][pos[min]].key)
  {
    var k := arrays[min][pos[min]].key;
    forall i, j | 0 <= i < |arrays| && pos[i] <= j < |arrays[i]| ensures cmp(k, arrays[i][j].key) <= 0 {
      assert InOrder(cmp, arrays[i]);
      if pos[i] < j { Transitive(cmp, k, arrays[i][pos[i]].key, arrays[i][j].key); }
    }
  }

  ghost predicate AllInOrder<K, V>(cmp: Cmp<K>, arrays: seq<seq<Pair<K, V>>>) {
    forall i :: 0 <= i < |arrays| ==> InOrder(cmp, arrays[i])
  }

  ghost predicate InBounds<K, V>(arrays: seq<seq<Pair<K, V>>>, pos: seq<nat>) {
    |arrays| == |pos| && forall i :: 0 <= i < |arrays| ==> pos[i] <= |arrays[i]|
  }

  /** The merged part is in order, not above what is left, and together they are all pairs. */
  ghost predicate Merging<K, V>(cmp: Cmp<K>, arrays: seq<seq<Pair<K, V>>>, pos: seq<nat>, out: seq<Pair<K, V>>) {
    && InBounds(arrays, pos)
    && multiset(out) + Total(arrays, pos, |arrays|) == AllOf(arrays)
    && (AllInOrder(cmp, arrays) ==> InOrder(cmp, out))
    && (AllInOrder(cmp, arrays) && out != [] ==> LeftAbove(cmp, arrays, pos, out[|out| - 1].key))
  }

  lemma MergeStep<K(!new), V>(cmp: Cmp<K>, arrays: seq<seq<Pair<K, V>>>, pos: seq<nat>, out: seq<Pair<K, V>>, min: nat)
    requires Order(cmp) && Merging(cmp, arrays, pos, out) && IsMin(cmp, arrays, pos, min, |arrays|)
    ensures Merging(cmp, arrays, pos[min := pos[min] + 1], out + [arrays[min][pos[min]]])
  {
    var x, after, more := arrays[min][pos[min]], pos[min := pos[min] + 1], out + [arrays[min][pos[min]]];
    TotalTake(arrays, pos, min, |arrays|);
    assert multiset(more) == multiset(out) + multiset{x};
    if AllInOrder(cmp, arrays) {
      MinBelowAll(cmp, arrays, pos, min);
      if out != [] { AppendInOrder(cmp, out, x); }
    }
  }

  lemma AppendInOrder<K(!new), V>(cmp: Cmp<K>, out: seq<Pair<K, V>>, x: Pair<K, V>)
    requires Order(cmp) && InOrder(cmp, out) && out != [] && cmp(out[|out| - 1].key, x.key) <= 0
    ensures InOrder(cmp, out + [x])
  {
    InsertInOrder(cmp, out, x, |out|);
    assert out[..|out|] + [x] + out[|out|..] == out + [x];
  }

  /** merge_results: merge the arrays into one. */
  method MergeResults<K(!new), V>(cmp: Cmp<K>, arrays: seq<seq<Pair<K, V>>>) returns (out: seq<Pair<K, V>>)
    requires Order(cmp)
    ensures multiset(out) == AllOf(arrays)
    ensures AllInOrder(cmp, arrays) ==> InOrder(cmp, out)
  {
    var pos := new nat[|arrays|](_ => 0);
    out := [];
    StartMerging(cmp, arrays, pos[..]);
    var total := Length(arrays);
    for n := 0 to total
      invariant Merging(cmp, arrays, pos[..], out) && |out| == n
    {
      out := TakeMin(cmp, arrays, pos, out);
    }
    AllMerged(arrays, pos[..], out);
  }

  /** Move the least of the current pairs to the end of the merged part. */
  method TakeMin<K(!new), V>(cmp: Cmp<K>, arrays: seq<seq<Pair<K, V>>>, pos: array<nat>, out: seq<Pair<K, V>>)
    returns (more: seq<Pair<K, V>>)
    requires Order(cmp) && Merging(cmp, arrays, pos[..], out) && |out| < |AllOf(arrays)|
    modifies pos
    ensures Merging(cmp, arrays, pos[..], more) && |more| == |out| + 1
  {
    SomeLeft(arrays, pos[..], out, |AllOf(arrays)|);
    var min := FindMin(cmp, arrays, pos);
    MergeStep(cmp, arrays, pos[..], out, min);
    ghost var after := pos[..][min := pos[min] + 1];
    more := out + [arrays[min][pos[min]]];
    pos[min] := pos[min] + 1;
    assert pos[..] == after;
  }

  lemma StartMerging<K, V>(cmp: Cmp<K>, arrays: seq<seq<Pair<K, V>>>, pos: seq<nat>)
    requires |pos| == |arrays| && forall i :: 0 <= i < |arrays| ==> pos[i] == 0
    ensures Merging(cmp, arrays, pos, []) && Length(arrays) == |AllOf(arrays)|
  {
    TotalStart(arrays, pos, |arrays|);
    assert arrays[..|arrays|] == arrays;
  }

  lemma SomeLeft<K, V>(arrays: seq<seq<Pair<K, V>>>, pos: seq<nat>, out: seq<Pair<K, V>>, total: nat)
    requires InBounds(arrays, pos) && multiset(out) + Total(arrays, pos, |arrays|) == AllOf(arrays)
    requires |out| < total == |AllOf(arrays)|
    ensures exists i :: 0 <= i < |arrays| && pos[i] < |arrays[i]|
  {
    TotalEmpty(arrays, pos, |arrays|);
    assert |multiset(out)| == |out|;
  }

  lemma AllMerged<K, V>(arrays: seq<seq<Pair<K, V>>>, pos: seq<nat>, out: seq<Pair<K, V>>)
    requires InBounds(arrays, pos) && multiset(out) + Total(arrays, pos, |arrays|) == AllOf(arrays)
    requires |out| == |AllOf(arrays)|
    ensures multiset(out) == AllOf(arrays)
  {
    assert |multiset(out)| == |out|;
    assert |Total(arrays, pos, |arrays|)| == 0;
  }

  // -------------------------------------------------------------------------------------
  // Merge rounds

  /** merge_worker: where the block of a thread starts, and its length. */
  function BlockStart(i: nat, len: nat, threads: nat): nat
    requires threads > 0
  {
    var (length, extra) := BlockShape(len, threads);
    i * length + if i < extra then i else extra
  }

  function BlockLength(i: nat, len: nat, threads: nat): nat
    requires threads > 0
  {
    var (length, extra) := BlockShape(len, threads);
    length + if i < extra then 1 else 0
  }

  /** The nominal length of a block, and how many blocks have one more. */
  function BlockShape(len: nat, threads: nat): (nat, nat)
    requires threads > 0
  {
    if len / threads <= 1 then (2, len % 2) else (len / threads, len % threads)
  }

  /** When there are two arrays for every thread, the blocks tile the arrays, two or more each. */
  lemma BlocksTile(i: nat, len: nat, threads: nat)
    requires threads > 0 && 2 * threads <= len && i < threads
    ensures BlockLength(i, len, threads) >= 2
    ensures BlockLength(i, len, threads) == len / threads + if i < len % threads then 1 else 0
    ensures BlockStart(0, len, threads) == 0 && BlockStart(threads, len, threads) == len
    ensures BlockStart(i + 1, len, threads) == BlockStart(i, len, threads) + BlockLength(i, len, threads) <= len
  {
    var length := len / threads;
    TwoEach(len, threads);
    assert len == threads * length + len % threads;
    assert (i + 1) * length == i * length + length;
    if i + 1 < threads { MulLe(i + 1, threads, length); }
  }

  lemma TwoEach(len: nat, threads: nat)
    requires threads > 0 && 2 * threads <= len
    ensures len / threads >= 2
  {
    assert len == threads * (len / threads) + len % threads;
  }

  lemma {:induction false} AllOfAppend<K, V>(a: seq<seq<Pair<K, V>>>, b: seq<seq<Pair<K, V>>>)
    ensures AllOf(a + b) == AllOf(a) + AllOf(b)
  {
    if b == [] {
      assert a + b == a;
    } else {
      AllOfAppend(a, b[..|b| - 1]);
      assert (a + b)[..|a + b| - 1] == a + b[..|b| - 1];
    }
  }

  /** One round: every thread merges its block. */
  method MergeRound<K(!new), V>(cmp: Cmp<K>, arrays: seq<seq<Pair<K, V>>>, threads: nat) returns (merged: seq<seq<Pair<K, V>>>)
    requires Order(cmp) && 0 < threads && 2 * threads <= |arrays|
    ensures |merged| == threads && AllOf(merged) == AllOf(arrays)
    ensures AllInOrder(cmp, arrays) ==> AllInOrder(cmp, merged)
  {
    merged := [];
    BlocksTile(0, |arrays|, threads);
    for i := 0 to threads
      invariant MergedTo(cmp, arrays, merged, i, threads)
    {
      merged := MergeBlock(cmp, arrays, merged, i, threads);
    }
    assert arrays[..|arrays|] == arrays;
  }

  /** The first i blocks are merged. */
  ghost predicate MergedTo<K, V>(cmp: Cmp<K>, arrays: seq<seq<Pair<K, V>>>, merged: seq<seq<Pair<K, V>>>, i: nat, threads: nat)
    requires threads > 0
  {
    && |merged| == i && BlockStart(i, |arrays|, threads) <= |arrays|
    && AllOf(merged) == AllOf(arrays[..BlockStart(i, |arrays|, threads)])
    && (AllInOrder(cmp, arrays) ==> AllInOrder(cmp, merged))
  }

  /** merge_worker: one thread merges its block. */
  method MergeBlock<K(!new), V>(cmp: Cmp<K>, arrays: seq<seq<Pair<K, V>>>, merged: seq<seq<Pair<K, V>>>, i: nat, threads: nat)
    returns (more: seq<seq<Pair<K, V>>>)
    requires Order(cmp) && 2 * threads <= |arrays| && i < threads && MergedTo(cmp, arrays, merged, i, threads)
    ensures MergedTo(cmp, arrays, more, i + 1, threads)
  {
    var pos, n := BlockStart(i, |arrays|, threads), BlockLength(i, |arrays|, threads);
    BlocksTile(i, |arrays|, threads);
    var out := MergeResults(cmp, arrays[pos..pos + n]);
    BlockAdded(arrays, merged, pos, n, out);
    more := merged + [out];
  }

  lemma BlockAdded<K, V>(arrays: seq<seq<Pair<K, V>>>, merged: seq<seq<Pair<K, V>>>, pos: nat, n: nat, out: seq<Pair<K, V>>)
    requires pos + n <= |arrays| && AllOf(merged) == AllOf(arrays[..pos]) && multiset(out) == AllOf(arrays[pos..pos + n])
    ensures AllOf(merged + [out]) == AllOf(arrays[..pos + n])
  {
    AllOfAppend(arrays[..pos], arrays[pos..pos + n]);
    assert arrays[..pos] + arrays[pos..pos + n] == arrays[..pos + n];
    assert (merged + [out])[..|merged|] == merged;
  }

  // -------------------------------------------------------------------------------------
  // The workers of a round at the same time

  type Block<K, V> = seq<seq<Pair<K, V>>>

  /** A worker has merged out from its block; pos are its positions there. */
  datatype Worker<K, V> = Worker(pos: seq<nat>, out: seq<Pair<K, V>>)

  ghost predicate CanTake<K, V>(cmp: Cmp<K>, block: Block<K, V>, w: Worker<K, V>, min: nat) {
    |w.pos| == |block| && IsMin(cmp, block, w.pos, min, |block|)
  }

  /** The worker moves the least of its current pairs. */
  ghost function Taken<K, V>(block: Block<K, V>, w: Worker<K, V>, min: nat): Worker<K, V>
    requires min < |block| == |w.pos| && w.pos[min] < |block[min]|
  {
    Worker(w.pos[min := w.pos[min] + 1], w.out + [block[min][w.pos[min]]])
  }

  ghost predicate WorkerStep<K, V>(cmp: Cmp<K>, blocks: seq<Block<K, V>>, s: seq<Worker<K, V>>, r: seq<Worker<K, V>>, i: nat, min: nat) {
    i < |s| == |blocks| && CanTake(cmp, blocks[i], s[i], min) && r == s[i := Taken(blocks[i], s[i], min)]
  }

  ghost predicate RoundStep<K, V>(cmp: Cmp<K>, blocks: seq<Block<K, V>>, s: seq<Worker<K, V>>, r: seq<Worker<K, V>>) {
    exists i: nat, min: nat :: WorkerStep(cmp, blocks, s, r, i, min)
  }

  ghost predicate WorkerOk<K, V>(cmp: Cmp<K>, block: Block<K, V>, w: Worker<K, V>) { Merging(cmp, block, w.pos, w.out) }

  ghost predicate RoundInv<K, V>(cmp: Cmp<K>, blocks: seq<Block<K, V>>, s: seq<Worker<K, V>>) {
    |s| == |blocks| && forall i :: 0 <= i < |s| ==> WorkerOk(cmp, blocks[i], s[i])
  }

  ghost predicate AtStart<K, V>(block: Block<K, V>, w: Worker<K, V>) {
    w.out == [] && |w.pos| == |block| && forall u :: 0 <= u < |w.pos| ==> w.pos[u] == 0
  }

  /** Any interleaving of the workers, from the start of all. */
  ghost predicate IsRound<K, V>(cmp: Cmp<K>, blocks: seq<Block<K, V>>, run: seq<seq<Worker<K, V>>>) {
    && |run| > 0 && |run[0]| == |blocks|
    && (forall i :: 0 <= i < |blocks| ==> AtStart(blocks[i], run[0][i]))
    && (forall k :: 0 <= k < |run| - 1 ==> RoundStep(cmp, blocks, run[k], run[k + 1]))
  }

  lemma TakenOk<K(!new), V>(cmp: Cmp<K>, block: Block<K, V>, w: Worker<K, V>, min: nat)
    requires Order(cmp) && WorkerOk(cmp, block, w) && CanTake(cmp, block, w, min)
    ensures WorkerOk(cmp, block, Taken(block, w, min)) && |Taken(block, w, min).out| == |w.out| + 1
  {
    MergeStep(cmp, block, w.pos, w.out, min);
  }

  lemma RoundStepKept<K(!new), V>(cmp: Cmp<K>, blocks: seq<Block<K, V>>, s: seq<Worker<K, V>>, r: seq<Worker<K, V>>)
    requires Order(cmp) && RoundInv(cmp, blocks, s) && RoundStep(cmp, blocks, s, r)
    ensures RoundInv(cmp, blocks, r)
  {
    var i: nat, min: nat :| WorkerStep(cmp, blocks, s, r, i, min);
    TakenOk(cmp, blocks[i], s[i], min);
  }

  lemma {:induction false} RoundRunInv<K(!new), V>(cmp: Cmp<K>, blocks: seq<Block<K, V>>, run: seq<seq<Worker<K, V>>>, k: nat)
    requires Order(cmp) && IsRound(cmp, blocks, run) && k < |run|
    ensures RoundInv(cmp, blocks, run[k])
  {
    if k == 0 {
      forall i | 0 <= i < |blocks| ensures WorkerOk(cmp, blocks[i], run[0][i]) {
        assert AtStart(blocks[i], run[0][i]);
        StartMerging(cmp, blocks[i], run[0][i].pos);
      }
    } else {
      RoundRunInv(cmp, blocks, run, k - 1);
      assert RoundStep(cmp, blocks, run[k - 1], run[k - 1 + 1]);
      RoundStepKept(cmp, blocks, run[k - 1], run[k]);
    }
  }

  /** Every worker has moved all pairs of its block. */
  ghost predicate WorkersDone<K, V>(blocks: seq<Block<K, V>>, s: seq<Worker<K, V>>) {
    |s| == |blocks| && forall i :: 0 <= i < |s| ==> |s[i].out| == |AllOf(blocks[i])|
  }

  ghost function Outs<K, V>(s: seq<Worker<K, V>>): (outs: seq<seq<Pair<K, V>>>)
    ensures |outs| == |s| && forall i :: 0 <= i < |s| ==> outs[i] == s[i].out
  {
    seq(|s|, i requires 0 <= i < |s| => s[i].out)
  }

  lemma WorkerOut<K(!new), V>(cmp: Cmp<K>, block: Block<K, V>, w: Worker<K, V>)
    requires WorkerOk(cmp, block, w) && |w.out| == |AllOf(block)|
    ensures multiset(w.out) == AllOf(block) && (AllInOrder(cmp, block) ==> InOrder(cmp, w.out))
  {
    AllMerged(block, w.pos, w.out);
  }

  /** The blocks of all workers of a round. */
  ghost function BlocksOf<K, V>(arrays: seq<seq<Pair<K, V>>>, threads: nat, n: nat): (blocks: seq<Block<K, V>>)
    requires n <= threads && 2 * threads <= |arrays|
    ensures |blocks| == n
  {
    if n == 0 then [] else
      BlocksTile(n - 1, |arrays|, threads);
      BlocksOf(arrays, threads, n - 1) + [arrays[BlockStart(n - 1, |arrays|, threads)..BlockStart(n, |arrays|, threads)]]
  }

  /** The arrays of all blocks, one block after another. */
  ghost function Joined<K, V>(blocks: seq<Block<K, V>>): Block<K, V> {
    if blocks == [] then [] else Joined(blocks[..|blocks| - 1]) + blocks[|blocks| - 1]
  }

  lemma {:induction false} OutsOfBlocks<K, V>(blocks: seq<Block<K, V>>, outs: seq<seq<Pair<K, V>>>)
    requires |outs| == |blocks| && forall i :: 0 <= i < |outs| ==> multiset(outs[i]) == AllOf(blocks[i])
    ensures AllOf(outs) == AllOf(Joined(blocks))
  {
    if outs != [] {
      var last := |outs| - 1;
      OutsOfBlocks(blocks[..last], outs[..last]);
      AllOfAppend(Joined(blocks[..last]), blocks[last]);
    }
  }

  /** The blocks join to the arrays. */
  lemma {:induction false} BlocksJoin<K, V>(arrays: seq<seq<Pair<K, V>>>, threads: nat, n: nat)
    requires 0 < threads && n <= threads && 2 * threads <= |arrays|
    ensures BlockStart(n, |arrays|, threads) <= |arrays| && Joined(BlocksOf(arrays, threads, n)) == arrays[..BlockStart(n, |arrays|, threads)]
  {
    BlocksTile(0, |arrays|, threads);
    if n > 0 {
      BlocksJoin(arrays, threads, n - 1);
      BlocksTile(n - 1, |arrays|, threads);
      Between(arrays, BlocksOf(arrays, threads, n), BlockStart(n - 1, |arrays|, threads), BlockStart(n, |arrays|, threads));
    }
  }

  lemma Between<K, V>(arrays: seq<seq<Pair<K, V>>>, blocks: seq<Block<K, V>>, start: nat, end: nat)
    requires start <= end <= |arrays| && |blocks| > 0 && blocks[|blocks| - 1] == arrays[start..end]
    requires Joined(blocks[..|blocks| - 1]) == arrays[..start]
    ensures Joined(blocks) == arrays[..end]
  {
    assert arrays[..start] + arrays[start..end] == arrays[..end];
  }

  lemma {:induction false} BlocksInOrder<K, V>(cmp: Cmp<K>, arrays: seq<seq<Pair<K, V>>>, threads: nat, n: nat)
    requires n <= threads && 2 * threads <= |arrays| && AllInOrder(cmp, arrays)
    ensures forall i :: 0 <= i < n ==> AllInOrder(cmp, BlocksOf(arrays, threads, n)[i])
  {
    if n > 0 {
      BlocksInOrder(cmp, arrays, threads, n - 1);
      BlocksTile(n - 1, |arrays|, threads);
      var start := BlockStart(n - 1, |arrays|, threads);
      var block := arrays[start..BlockStart(n, |arrays|, threads)];
      forall k | 0 <= k < |block| ensures InOrder(cmp, block[k]) { assert block[k] == arrays[start + k]; }
    }
  }

  /** In every interleaving of a round: when all workers are done, their outputs together hold all
      pairs, each in key order if every input is. */
  lemma ParallelRoundIsRound<K(!new), V>(cmp: Cmp<K>, arrays: seq<seq<Pair<K, V>>>, threads: nat, run: seq<seq<Worker<K, V>>>)
    requires Order(cmp) && 0 < threads && 2 * threads <= |arrays| && IsRound(cmp, BlocksOf(arrays, threads, threads), run)
    requires WorkersDone(BlocksOf(arrays, threads, threads), run[|run| - 1])
    ensures AllOf(Outs(run[|run| - 1])) == AllOf(arrays)
    ensures AllInOrder(cmp, arrays) ==> AllInOrder(cmp, Outs(run[|run| - 1]))
  {
    var s, blocks := run[|run| - 1], BlocksOf(arrays, threads, threads);
    RoundRunInv(cmp, blocks, run, |run| - 1);
    if AllInOrder(cmp, arrays) { BlocksInOrder(cmp, arrays, threads, threads); }
    forall i | 0 <= i < threads
      ensures multiset(Outs(s)[i]) == AllOf(blocks[i]) && (AllInOrder(cmp, arrays) ==> InOrder(cmp, Outs(s)[i]))
    {
      WorkerOut(cmp, blocks[i], s[i]);
    }
    OutsOfBlocks(blocks, Outs(s));
    BlocksJoin(arrays, threads, threads);
    BlocksTile(0, |arrays|, threads);
    assert arrays[..|arrays|] == arrays;
  }

  /** How many pairs the workers have moved. */
  ghost function MovedBy<K, V>(s: seq<Worker<K, V>>, n: nat): nat
    requires n <= |s|
  {
    if n == 0 then 0 else MovedBy(s, n - 1) + |s[n - 1].out|
  }

  lemma {:induction false} MovedUpdate<K, V>(s: seq<Worker<K, V>>, n: nat, i: nat, w: Worker<K, V>)
    requires n <= |s| && i < |s| && |w.out| == |s[i].out| + 1
    ensures MovedBy(s[i := w], n) == MovedBy(s, n) + if i < n then 1 else 0
  {
    if n > 0 { MovedUpdate(s, n - 1, i, w); }
  }

  lemma {:induction false} NoneMoved<K, V>(blocks: seq<Block<K, V>>, s: seq<Worker<K, V>>, n: nat)
    requires n <= |s| == |blocks| && forall i :: 0 <= i < |s| ==> AtStart(blocks[i], s[i])
    ensures MovedBy(s, n) == 0
  {
    if n > 0 {
      NoneMoved(blocks, s, n - 1);
      assert AtStart(blocks[n - 1], s[n - 1]);
    }
  }

  lemma {:induction false} RoundMoves<K(!new), V>(cmp: Cmp<K>, blocks: seq<Block<K, V>>, run: seq<seq<Worker<K, V>>>, k: nat)
    requires Order(cmp) && IsRound(cmp, blocks, run) && k < |run|
    ensures |run[k]| == |blocks| && MovedBy(run[k], |blocks|) == k
  {
    if k == 0 { NoneMoved(blocks, run[0], |blocks|); }
    else {
      RoundMoves(cmp, blocks, run, k - 1);
      assert RoundStep(cmp, blocks, run[k - 1], run[k - 1 + 1]);
      var i: nat, min: nat :| WorkerStep(cmp, blocks, run[k - 1], run[k], i, min);
      MovedUpdate(run[k - 1], |blocks|, i, run[k][i]);
    }
  }

  lemma OutBound<K, V>(cmp: Cmp<K>, block: Block<K, V>, w: Worker<K, V>)
    requires WorkerOk(cmp, block, w)
    ensures |w.out| <= |AllOf(block)|
  {
    assert |multiset(w.out)| == |w.out|;
  }

  /** How many pairs there are in the first n blocks. */
  ghost function PairsIn<K, V>(blocks: seq<Block<K, V>>, n: nat): nat
    requires n <= |blocks|
  {
    if n == 0 then 0 else PairsIn(blocks, n - 1) + |AllOf(blocks[n - 1])|
  }

  lemma {:induction false} PairsAre<K, V>(blocks: seq<Block<K, V>>, n: nat)
    requires n <= |blocks|
    ensures PairsIn(blocks, n) == |AllOf(Joined(blocks[..n]))|
  {
    if n > 0 {
      PairsAre(blocks, n - 1);
      assert blocks[..n][..n - 1] == blocks[..n - 1];
      AllOfAppend(Joined(blocks[..n - 1]), blocks[n - 1]);
    }
  }

  lemma {:induction false} MovedBound<K, V>(blocks: seq<Block<K, V>>, s: seq<Worker<K, V>>, n: nat)
    requires n <= |s| == |blocks| && forall i :: 0 <= i < |s| ==> |s[i].out| <= |AllOf(blocks[i])|
    ensures MovedBy(s, n) <= PairsIn(blocks, n)
    ensures MovedBy(s, n) == PairsIn(blocks, n) <==> forall i :: 0 <= i < n ==> |s[i].out| == |AllOf(blocks[i])|
  {
    if n > 0 { MovedBound(blocks, s, n - 1); }
  }

  /** Every step of a round moves one pair: no round has more steps than there are pairs, and one has
      that many exactly when all workers are done. */
  lemma RoundsAreFinite<K(!new), V>(cmp: Cmp<K>, arrays: seq<seq<Pair<K, V>>>, threads: nat, run: seq<seq<Worker<K, V>>>)
    requires Order(cmp) && 0 < threads && 2 * threads <= |arrays| && IsRound(cmp, BlocksOf(arrays, threads, threads), run)
    ensures |run| - 1 <= |AllOf(arrays)|
    ensures |run| - 1 == |AllOf(arrays)| <==> WorkersDone(BlocksOf(arrays, threads, threads), run[|run| - 1])
  {
    var s, blocks := run[|run| - 1], BlocksOf(arrays, threads, threads);
    RoundRunInv(cmp, blocks, run, |run| - 1);
    RoundMoves(cmp, blocks, run, |run| - 1);
    forall i | 0 <= i < |s| ensures |s[i].out| <= |AllOf(blocks[i])| { OutBound(cmp, blocks[i], s[i]); }
    MovedBound(blocks, s, threads);
    PairsAre(blocks, threads);
    assert blocks[..threads] == blocks;
    BlocksJoin(arrays, threads, threads);
    BlocksTile(0, |arrays|, threads);
    assert arrays[..|arrays|] == arrays;
  }

  /** Until then, every worker that is not done can go on. */
  lemma WorkerCanStep<K(!new), V>(cmp: Cmp<K>, blocks: seq<Block<K, V>>, s: seq<Worker<K, V>>, i: nat) returns (r: seq<Worker<K, V>>)
    requires Order(cmp) && RoundInv(cmp, blocks, s) && i < |s| && |s[i].out| < |AllOf(blocks[i])|
    ensures RoundStep(cmp, blocks, s, r) && |r| == |s| && |r[i].out| == |s[i].out| + 1
  {
    assert WorkerOk(cmp, blocks[i], s[i]);
    SomeLeft(blocks[i], s[i].pos, s[i].out, |AllOf(blocks[i])|);
    var min := LeastCurrent(cmp, blocks[i], s[i].pos, |blocks[i]|);
    r := s[i := Taken(blocks[i], s[i], min)];
    assert WorkerStep(cmp, blocks, s, r, i, min);
  }

  lemma {:induction false} LeastCurrent<K(!new), V>(cmp: Cmp<K>, arrays: seq<seq<Pair<K, V>>>, pos: seq<nat>, n: nat) returns (min: nat)
    requires Order(cmp) && n <= |arrays| == |pos| && exists i :: 0 <= i < n && pos[i] < |arrays[i]|
    ensures IsMin(cmp, arrays, pos, min, n)
  {
    var last := n - 1;
    if exists i :: 0 <= i < last && pos[i] < |arrays[i]| {
      min := LeastCurrent(cmp, arrays, pos, last);
      if pos[last] < |arrays[last]| && cmp(arrays[min][pos[min]].key, arrays[last][pos[last]].key) > 0 {
        BetterMin(cmp, arrays, pos, min, last);
        min := last;
      }
    } else {
      min := last;
    }
  }

  // -------------------------------------------------------------------------------------
  // All rounds

  /** merge: rounds until one array is left; it is a permutation of all pairs, in the order of the
      keys if every array was. */
  method Merge<K(!new), V>(cmp: Cmp<K>, finals: seq<seq<Pair<K, V>>>, mergeThreads: nat) returns (result: seq<Pair<K, V>>)
    requires Order(cmp) && |finals| > 0 && mergeThreads > 0
    requires |finals| > 1 ==> 2 * mergeThreads <= |finals|
    ensures multiset(result) == AllOf(finals)
    ensures AllInOrder(cmp, finals) ==> InOrder(cmp, result)
  {
    var arrays, threads := finals, mergeThreads;
    while |arrays| > 1
      invariant |arrays| > 0 && threads > 0 && AllOf(arrays) == AllOf(finals)
      invariant |arrays| > 1 ==> 2 * threads <= |arrays|
      invariant AllInOrder(cmp, finals) ==> AllInOrder(cmp, arrays)
      decreases |arrays|
    {
      arrays := MergeRound(cmp, arrays, threads);
      threads := threads / 2;
      if threads == 0 { threads := 1; }
    }
    result := arrays[0];
    assert arrays[..0] == [];
  }

  function Max(a: int, b: int): int { if a > b then a else b }

  function Min(a: int, b: int): int { if a < b then a else b }

  /** env_init: the numbers of reduce tasks and of merge threads. */
  function MergeThreads(perTask: bool, reduceThreads: nat, asked: int): int {
    var tasks := ReduceTasks(perTask);
    var wanted := if !perTask then reduceThreads / 2 else if asked > 0 then asked else reduceThreads;
    Min(Max(wanted, 1), tasks / 2)
  }

  function ReduceTasks(perTask: bool): nat { if perTask then 256 else 256 * 128 }

  /** What merge requires of its threads holds for every setting. */
  lemma MergeThreadsFit(perTask: bool, reduceThreads: nat, asked: int)
    requires reduceThreads > 0
    ensures var arrays := if perTask then ReduceTasks(perTask) else reduceThreads;
      var threads := MergeThreads(perTask, reduceThreads, asked);
      arrays > 0 && threads > 0 && (arrays > 1 ==> 2 * threads <= arrays)
    ensures var threads := MergeThreads(perTask, reduceThreads, asked);
      && (perTask && 0 < asked <= 128 ==> threads == asked)
      && (perTask && asked <= 0 && reduceThreads <= 128 ==> threads == reduceThreads)
      && (!perTask && reduceThreads == 1 ==> threads == 1)
      && (!perTask && 2 <= reduceThreads <= 32768 ==> threads == reduceThreads / 2)
      && threads <= if perTask then 128 else 16384
  {
  }
}
