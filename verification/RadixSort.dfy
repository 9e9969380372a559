/** The radix sort: local histograms, the permutation phase, and the sort as a whole. */
module RadixSort {
  import opened Arithmetic
  import opened RadixDigits
  import opened RadixPrefixTree

  // -------------------------------------------------------------------------------------
  // Stable ranks.  ds[i] is the digit of the i-th key in this pass.

  /** How many of the first n keys have digit d. */
  ghost function Equal(ds: seq<nat>, d: nat, n: nat): nat
    requires n <= |ds|
  {
    if n == 0 then 0 else Equal(ds, d, n - 1) + if ds[n - 1] == d then 1 else 0
  }

  /** How many of the first n keys have a digit below d. */
  ghost function Less(ds: seq<nat>, d: nat, n: nat): nat
    requires n <= |ds|
  {
    if n == 0 then 0 else Less(ds, d, n - 1) + if ds[n - 1] < d then 1 else 0
  }

  /** Where a stable sort on the digit puts the i-th key. */
  ghost function Slot(ds: seq<nat>, i: nat): nat
    requires i < |ds|
  {
    Less(ds, ds[i], |ds|) + Equal(ds, ds[i], i)
  }

  lemma {:induction false} LessNext(ds: seq<nat>, d: nat, n: nat)
    requires n <= |ds|
    ensures Less(ds, d + 1, n) == Less(ds, d, n) + Equal(ds, d, n) <= n
  {
    if n > 0 { LessNext(ds, d, n - 1); }
  }

  lemma {:induction false} LessMonotone(ds: seq<nat>, d: nat, e: nat, n: nat)
    requires n <= |ds| && d <= e
    ensures Less(ds, d, n) <= Less(ds, e, n)
  {
    if n > 0 { LessMonotone(ds, d, e, n - 1); }
  }

  lemma {:induction false} EqualMonotone(ds: seq<nat>, d: nat, i: nat, j: nat)
    requires i <= j <= |ds|
    ensures Equal(ds, d, i) <= Equal(ds, d, j)
  {
    if i < j { EqualMonotone(ds, d, i, j - 1); }
  }

  /** Slots are in the order of digits, and of positions for equal digits. */
  lemma SlotOrder(ds: seq<nat>, i: nat, j: nat)
    requires i < |ds| && j < |ds| && (ds[i] < ds[j] || (ds[i] == ds[j] && i < j))
    ensures Slot(ds, i) < Slot(ds, j)
  {
    EqualMonotone(ds, ds[i], i + 1, if ds[i] < ds[j] then |ds| else j);
    if ds[i] < ds[j] {
      LessNext(ds, ds[i], |ds|);
      LessMonotone(ds, ds[i] + 1, ds[j], |ds|);
    }
  }

  lemma SlotInjective(ds: seq<nat>, i: nat, j: nat)
    requires i < |ds| && j < |ds| && i != j
    ensures Slot(ds, i) != Slot(ds, j)
  {
    if ds[i] < ds[j] || (ds[i] == ds[j] && i < j) { SlotOrder(ds, i, j); } else { SlotOrder(ds, j, i); }
  }

  lemma SlotInRange(ds: seq<nat>, i: nat)
    requires i < |ds|
    ensures Slot(ds, i) < |ds|
  {
    EqualMonotone(ds, ds[i], i + 1, |ds|);
    LessNext(ds, ds[i], |ds|);
  }

  /** The key with digit d that has c keys with digit d before it. */
  lemma {:induction false} Select(ds: seq<nat>, d: nat, n: nat, c: nat) returns (i: nat)
    requires n <= |ds| && c < Equal(ds, d, n)
    ensures i < n && ds[i] == d && Equal(ds, d, i) == c
  {
    if Equal(ds, d, n - 1) <= c { i := n - 1; } else { i := Select(ds, d, n - 1, c); }
  }

  lemma {:induction false} SelectDigit(ds: seq<nat>, top: nat, t: nat) returns (d: nat)
    requires t < Less(ds, top, |ds|)
    ensures d < top && Less(ds, d, |ds|) <= t < Less(ds, d + 1, |ds|)
  {
    d := 0;
    NoneBelowZero(ds, |ds|);
    if Less(ds, top - 1, |ds|) <= t { d := top - 1; } else { d := SelectDigit(ds, top - 1, t); }
  }

  lemma {:induction false} NoneBelowZero(ds: seq<nat>, n: nat)
    requires n <= |ds|
    ensures Less(ds, 0, n) == 0
  {
    if n > 0 { NoneBelowZero(ds, n - 1); }
  }

  lemma {:induction false} AllBelow(ds: seq<nat>, top: nat, n: nat)
    requires n <= |ds| && forall i :: 0 <= i < |ds| ==> ds[i] < top
    ensures Less(ds, top, n) == n
  {
    if n > 0 { AllBelow(ds, top, n - 1); }
  }

  /** Every slot is the slot of some key. */
  lemma SlotOnto(ds: seq<nat>, top: nat, t: nat) returns (i: nat)
    requires t < |ds| && forall i :: 0 <= i < |ds| ==> ds[i] < top
    ensures i < |ds| && Slot(ds, i) == t
  {
    AllBelow(ds, top, |ds|);
    var d := SelectDigit(ds, top, t);
    LessNext(ds, d, |ds|);
    i := Select(ds, d, |ds|, t - Less(ds, d, |ds|));
  }

  // -------------------------------------------------------------------------------------
  // One pass as a whole

  /** Every key of from is in its slot of to. */
  ghost predicate IsPass(from: seq<nat>, to: seq<nat>, ds: seq<nat>) {
    |from| == |to| == |ds| && forall i :: 0 <= i < |ds| ==> InSlot(from, to, ds, i)
  }

  ghost predicate InSlot(from: seq<nat>, to: seq<nat>, ds: seq<nat>, i: nat)
    requires i < |ds| == |from|
  {
    Slot(ds, i) < |to| && to[Slot(ds, i)] == from[i]
  }

  /** A one-to-one placing of all elements is a permutation. */
  lemma {:induction false} PlacingIsPermutation(from: seq<nat>, to: seq<nat>, f: seq<nat>)
    requires |from| == |to| == |f|
    requires forall i :: 0 <= i < |f| ==> f[i] < |to| && to[f[i]] == from[i]
    requires forall i, j :: 0 <= i < j < |f| ==> f[i] != f[j]
    ensures multiset(from) == multiset(to)
  {
    if |from| == 0 {
      assert from == to;
    } else {
      var n := |from| - 1;
      var k := f[n];
      var rest := to[..k] + to[k + 1..];
      var g := seq(n, i requires 0 <= i < n => if f[i] < k then f[i] else f[i] - 1);
      PlacingIsPermutation(from[..n], rest, g);
      assert from == from[..n] + [from[n]];
      assert to == to[..k] + [to[k]] + to[k + 1..];
    }
  }

  lemma PassIsPermutation(from: seq<nat>, to: seq<nat>, ds: seq<nat>)
    requires IsPass(from, to, ds)
    ensures multiset(from) == multiset(to)
  {
    var f := seq(|ds|, i requires 0 <= i < |ds| => Slot(ds, i));
    forall i | 0 <= i < |f| ensures f[i] < |to| && to[f[i]] == from[i] { assert InSlot(from, to, ds, i); }
    forall i, j | 0 <= i < j < |f| ensures f[i] != f[j] { SlotInjective(ds, i, j); }
    PlacingIsPermutation(from, to, f);
  }

  ghost function Digits(keys: seq<nat>, m: nat, radix: nat): (ds: seq<nat>)
    requires m > 0 && radix > 0
    ensures |ds| == |keys| && forall i :: 0 <= i < |ds| ==> ds[i] == (keys[i] / m) % radix
  {
    seq(|keys|, i requires 0 <= i < |keys| => (keys[i] / m) % radix)
  }

  ghost predicate SortedMod(keys: seq<nat>, m: nat)
    requires m > 0
  {
    forall a, b :: 0 <= a < b < |keys| ==> keys[a] % m <= keys[b] % m
  }

  /** A pass on the next digit keeps the order of the lower digits. */
  lemma PassSorts(from: seq<nat>, to: seq<nat>, m: nat, radix: nat)
    requires m > 0 && radix > 0 && SortedMod(from, m) && IsPass(from, to, Digits(from, m, radix))
    ensures m * radix > 0 && SortedMod(to, m * radix)
  {
    ModNext(0, m, radix);
    var ds := Digits(from, m, radix);
    forall a, b | 0 <= a < b < |to| ensures to[a] % (m * radix) <= to[b] % (m * radix) {
      var i := SlotOnto(ds, radix, a);
      var j := SlotOnto(ds, radix, b);
      assert InSlot(from, to, ds, i) && InSlot(from, to, ds, j);
      if ds[j] < ds[i] || (ds[i] == ds[j] && j < i) { SlotOrder(ds, j, i); }
      KeysInOrder(from, m, radix, i, j);
    }
  }

  lemma KeysInOrder(from: seq<nat>, m: nat, radix: nat, i: nat, j: nat)
    requires m > 0 && radix > 0 && SortedMod(from, m) && i < |from| && j < |from| && i != j
    requires var ds := Digits(from, m, radix); ds[i] < ds[j] || (ds[i] == ds[j] && i < j)
    ensures m * radix > 0 && from[i] % (m * radix) <= from[j] % (m * radix)
  {
    var ds := Digits(from, m, radix);
    ModNext(from[i], m, radix);
    ModNext(from[j], m, radix);
    if ds[i] < ds[j] { MulNext(ds[i], ds[j], m); }
  }

  // -------------------------------------------------------------------------------------
  // The permutation phase

  /** Processor p moves keys part[p]..part[p+1]-1. */
  datatype Keys = Keys(from: seq<nat>, ds: seq<nat>, part: seq<nat>)

  ghost predicate IsPartition(part: seq<nat>, n: nat) {
    && |part| > 1 && part[0] == 0 && part[|part| - 1] == n
    && forall p, q :: 0 <= p <= q < |part| ==> part[p] <= part[q]
  }

  ghost predicate ValidKeys(k: Keys) { |k.from| == |k.ds| && IsPartition(k.part, |k.from|) }

  /** at[p] is the next key of processor p, rank(p, d) the slot of its next key with digit d. */
  datatype MoveState = MoveState(to: seq<nat>, rank: (nat, nat) -> nat, at: seq<nat>)

  ghost predicate MoveInit(k: Keys, s: MoveState)
    requires ValidKeys(k)
  {
    && |s.to| == |k.from| && |s.at| == |k.part| - 1
    && (forall p :: 0 <= p < |s.at| ==> s.at[p] == k.part[p])
    && (forall p, i :: 0 <= p < |s.at| && 0 <= i < |k.ds| ==>
          s.rank(p, k.ds[i]) == Less(k.ds, k.ds[i], |k.ds|) + Equal(k.ds, k.ds[i], k.part[p]))
  }

  ghost predicate Moving(k: Keys, s: MoveState, p: nat)
    requires ValidKeys(k)
  {
    |s.at| == |k.part| - 1 && p < |s.at| && s.at[p] < k.part[p + 1] <= |k.from|
  }

  /** The slot that processor p writes next. */
  ghost function Target(k: Keys, s: MoveState, p: nat): nat
    requires ValidKeys(k) && Moving(k, s, p)
  {
    s.rank(p, k.ds[s.at[p]])
  }

  ghost predicate Move(k: Keys, s: MoveState, r: MoveState, p: nat)
    requires ValidKeys(k)
  {
    && Moving(k, s, p)
    && var i := s.at[p];
    && Target(k, s, p) < |s.to| && r.to == s.to[Target(k, s, p) := k.from[i]]
    && (forall x, d :: r.rank(x, d) == s.rank(x, d) + if x == p && d == k.ds[i] then 1 else 0)
    && r.at == s.at[p := i + 1]
  }

  /** The keys that processor p has moved are in their slots, and its ranks are those of its next keys. */
  ghost predicate MoverOk(k: Keys, s: MoveState, p: nat)
    requires ValidKeys(k) && |s.at| == |k.part| - 1 && p < |s.at|
  {
    && k.part[p] <= s.at[p] <= k.part[p + 1] <= |k.ds|
    && (forall i :: 0 <= i < |k.ds| ==> s.rank(p, k.ds[i]) == Less(k.ds, k.ds[i], |k.ds|) + Equal(k.ds, k.ds[i], s.at[p]))
    && (forall i :: k.part[p] <= i < s.at[p] ==> InSlot(k.from, s.to, k.ds, i))
  }

  ghost predicate MoveInv(k: Keys, s: MoveState)
    requires ValidKeys(k)
  {
    && |s.to| == |k.from| && |s.at| == |k.part| - 1
    && (forall p :: 0 <= p < |s.at| ==> MoverOk(k, s, p))
  }

  lemma TargetIsSlot(k: Keys, s: MoveState, p: nat)
    requires ValidKeys(k) && MoveInv(k, s) && Moving(k, s, p)
    ensures Target(k, s, p) == Slot(k.ds, s.at[p]) < |s.to|
  {
    assert MoverOk(k, s, p);
    SlotInRange(k.ds, s.at[p]);
  }

  lemma MoveKept(k: Keys, s: MoveState, r: MoveState, p: nat)
    requires ValidKeys(k) && MoveInv(k, s) && Move(k, s, r, p)
    ensures MoveInv(k, r)
  {
    TargetIsSlot(k, s, p);
    forall x | 0 <= x < |r.at| ensures MoverOk(k, r, x) { MoverKept(k, s, r, p, x); }
  }

  lemma MoverKept(k: Keys, s: MoveState, r: MoveState, p: nat, x: nat)
    requires ValidKeys(k) && MoveInv(k, s) && Move(k, s, r, p) && x < |s.at|
    ensures |r.at| == |s.at| && MoverOk(k, r, x)
  {
    TargetIsSlot(k, s, p);
    assert MoverOk(k, s, x) && MoverOk(k, s, p);
    forall i | k.part[x] <= i < r.at[x] ensures InSlot(k.from, r.to, k.ds, i) {
      if x != p || i != s.at[p] {
        assert InSlot(k.from, s.to, k.ds, i);
        if x < p { assert k.part[x + 1] <= k.part[p]; }
        if p < x { assert k.part[p + 1] <= k.part[x]; }
        SlotInjective(k.ds, i, s.at[p]);
      }
    }
  }

  ghost predicate IsMoveRun(k: Keys, run: seq<MoveState>)
    requires ValidKeys(k)
  {
    |run| > 0 && MoveInit(k, run[0]) && MoveSteps(k, run)
  }

  ghost predicate MoveSteps(k: Keys, run: seq<MoveState>)
    requires ValidKeys(k)
  {
    forall j :: 0 <= j < |run| - 1 ==> MoveStep(k, run[j], run[j + 1])
  }

  ghost predicate MoveStep(k: Keys, s: MoveState, r: MoveState)
    requires ValidKeys(k)
  {
    exists p :: 0 <= p < |s.at| && Move(k, s, r, p)
  }

  lemma {:induction false} MoveRunInv(k: Keys, run: seq<MoveState>, j: nat)
    requires ValidKeys(k) && IsMoveRun(k, run) && j < |run|
    ensures MoveInv(k, run[j])
  {
    if j == 0 {
      forall p | 0 <= p < |run[0].at| ensures MoverOk(k, run[0], p) { assert k.part[p] <= k.part[p + 1] <= k.part[|k.part| - 1]; }
    }
    else {
      MoveRunInv(k, run, j - 1);
      assert MoveStep(k, run[j - 1], run[j - 1 + 1]);
      var p :| 0 <= p < |run[j - 1].at| && Move(k, run[j - 1], run[j], p);
      MoveKept(k, run[j - 1], run[j], p);
    }
  }

  /** Writes stay in the array, and two processors never write the same slot. */
  lemma WritesAreDisjoint(k: Keys, run: seq<MoveState>, a: nat, b: nat, p: nat, q: nat)
    requires ValidKeys(k) && IsMoveRun(k, run) && a < |run| && b < |run| && p != q
    requires Moving(k, run[a], p) && Moving(k, run[b], q)
    ensures Target(k, run[a], p) < |k.from| && Target(k, run[b], q) < |k.from|
    ensures Target(k, run[a], p) != Target(k, run[b], q)
  {
    MoveRunInv(k, run, a);
    MoveRunInv(k, run, b);
    TargetIsSlot(k, run[a], p);
    TargetIsSlot(k, run[b], q);
    assert MoverOk(k, run[a], p) && MoverOk(k, run[b], q);
    if p < q { assert k.part[p + 1] <= k.part[q]; } else { assert k.part[q + 1] <= k.part[p]; }
    SlotInjective(k.ds, run[a].at[p], run[b].at[q]);
  }

  ghost predicate AllMoved(k: Keys, s: MoveState)
    requires ValidKeys(k)
  {
    |s.at| == |k.part| - 1 && forall p :: 0 <= p < |s.at| ==> s.at[p] == k.part[p + 1]
  }

  lemma {:induction false} SegmentOf(part: seq<nat>, n: nat, i: nat, q: nat) returns (p: nat)
    requires IsPartition(part, n) && q < |part| && i < part[q]
    ensures p < q && part[p] <= i < part[p + 1]
  {
    if part[q - 1] <= i { p := q - 1; } else { p := SegmentOf(part, n, i, q - 1); }
  }

  lemma MovesArePass(k: Keys, run: seq<MoveState>)
    requires ValidKeys(k) && IsMoveRun(k, run) && AllMoved(k, run[|run| - 1])
    ensures IsPass(k.from, run[|run| - 1].to, k.ds)
  {
    var s := run[|run| - 1];
    MoveRunInv(k, run, |run| - 1);
    forall i: nat | i < |k.ds| ensures InSlot(k.from, s.to, k.ds, i) {
      var p := SegmentOf(k.part, |k.ds|, i, |k.part| - 1);
      assert MoverOk(k, s, p) && s.at[p] == k.part[p + 1];
    }
  }

  // -------------------------------------------------------------------------------------
  // Every permutation phase ends

  /** A processor that has keys left can move the next one, whatever the others do. */
  lemma CanMove(k: Keys, s: MoveState, p: nat) returns (r: MoveState)
    requires ValidKeys(k) && MoveInv(k, s) && Moving(k, s, p)
    ensures Move(k, s, r, p)
  {
    TargetIsSlot(k, s, p);
    var i := s.at[p];
    r := MoveState(s.to[Target(k, s, p) := k.from[i]],
                   (x: nat, d: nat) => s.rank(x, d) + if x == p && d == k.ds[i] then 1 else 0, s.at[p := i + 1]);
  }

  /** How many keys the first n processors have moved. */
  ghost function Moved(part: seq<nat>, at: seq<nat>, n: nat): int
    requires n <= |at| <= |part|
  {
    if n == 0 then 0 else Moved(part, at, n - 1) + at[n - 1] - part[n - 1]
  }

  lemma {:induction false} MovedUpdate(part: seq<nat>, at: seq<nat>, n: nat, p: nat)
    requires n <= |at| <= |part| && p < |at|
    ensures Moved(part, at[p := at[p] + 1], n) == Moved(part, at, n) + if p < n then 1 else 0
  {
    if n > 0 { MovedUpdate(part, at, n - 1, p); }
  }

  lemma {:induction false} NoneMoved(part: seq<nat>, at: seq<nat>, n: nat)
    requires n <= |at| <= |part| && forall p :: 0 <= p < |at| ==> at[p] == part[p]
    ensures Moved(part, at, n) == 0
  {
    if n > 0 { NoneMoved(part, at, n - 1); }
  }

  lemma {:induction false} MovedBound(part: seq<nat>, at: seq<nat>, n: nat)
    requires n <= |at| == |part| - 1 && forall p :: 0 <= p < |at| ==> part[p] <= at[p] <= part[p + 1]
    ensures Moved(part, at, n) + part[0] <= part[n]
    ensures Moved(part, at, n) + part[0] == part[n] <==> forall p :: 0 <= p < n ==> at[p] == part[p + 1]
  {
    if n > 0 { MovedBound(part, at, n - 1); }
  }

  lemma {:induction false} RunMoves(k: Keys, run: seq<MoveState>, j: nat)
    requires ValidKeys(k) && IsMoveRun(k, run) && j < |run|
    ensures |run[j].at| == |k.part| - 1 && Moved(k.part, run[j].at, |run[j].at|) == j
  {
    if j == 0 { NoneMoved(k.part, run[0].at, |run[0].at|); }
    else {
      RunMoves(k, run, j - 1);
      assert MoveStep(k, run[j - 1], run[j - 1 + 1]);
      var p :| 0 <= p < |run[j - 1].at| && Move(k, run[j - 1], run[j], p);
      MovedUpdate(k.part, run[j - 1].at, |run[j].at|, p);
    }
  }

  /** In every interleaving each step moves one key: no run has more steps than there are keys, and
      one has that many exactly when all keys are moved. */
  lemma MoveRunsAreFinite(k: Keys, run: seq<MoveState>)
    requires ValidKeys(k) && IsMoveRun(k, run)
    ensures |run| - 1 <= |k.from|
    ensures |run| - 1 == |k.from| <==> AllMoved(k, run[|run| - 1])
  {
    var s := run[|run| - 1];
    MoveRunInv(k, run, |run| - 1);
    RunMoves(k, run, |run| - 1);
    forall p | 0 <= p < |s.at| ensures k.part[p] <= s.at[p] <= k.part[p + 1] { assert MoverOk(k, s, p); }
    MovedBound(k.part, s.at, |s.at|);
  }

  lemma MoveRunGrows(k: Keys, run: seq<MoveState>, r: MoveState)
    requires ValidKeys(k) && IsMoveRun(k, run) && MoveStep(k, run[|run| - 1], r)
    ensures IsMoveRun(k, run + [r])
  {
    forall j | 0 <= j < |run + [r]| - 1 ensures MoveStep(k, (run + [r])[j], (run + [r])[j + 1]) {
      if j < |run| - 1 { assert MoveStep(k, run[j], run[j + 1]); }
    }
  }

  /** Every run can be continued until all keys are moved. */
  lemma {:induction false} EveryMoveRunCanFinish(k: Keys, run: seq<MoveState>) returns (longer: seq<MoveState>)
    requires ValidKeys(k) && IsMoveRun(k, run)
    ensures IsMoveRun(k, longer) && run <= longer && AllMoved(k, longer[|longer| - 1])
    decreases |k.from| + 1 - |run|
  {
    var s := run[|run| - 1];
    MoveRunsAreFinite(k, run);
    if AllMoved(k, s) { longer := run; }
    else {
      MoveRunInv(k, run, |run| - 1);
      var p: nat :| p < |s.at| && s.at[p] != k.part[p + 1];
      assert MoverOk(k, s, p) && Moving(k, s, p);
      var r := CanMove(k, s, p);
      assert MoveStep(k, s, r);
      MoveRunGrows(k, run, r);
      longer := EveryMoveRunCanFinish(k, run + [r]);
    }
  }

  // -------------------------------------------------------------------------------------
  // From the prefix tree to the permutation

  ghost function Sub(a: nat, b: nat): nat { if a < b then 0 else a - b }

  /** What the processors count: their keys with a digit. */
  ghost function LocalCounts(ds: seq<nat>, part: seq<nat>): Histogram {
    (p: nat, d: nat) => if p + 1 < |part| && part[p] <= |ds| && part[p + 1] <= |ds|
                        then Sub(Equal(ds, d, part[p + 1]), Equal(ds, d, part[p])) else 0
  }

  lemma {:induction false} FlatEqual(ds: seq<nat>, part: seq<nat>, p: nat, d: nat)
    requires IsPartition(part, |ds|) && p < |part|
    ensures part[p] <= |ds| && Flat(LocalCounts(ds, part), false, 0, p, d) == Equal(ds, d, part[p])
  {
    assert part[p] <= part[|part| - 1];
    if p > 0 {
      FlatEqual(ds, part, p - 1, d);
      EqualMonotone(ds, d, part[p - 1], part[p]);
    }
  }

  lemma {:induction false} ValueLess(ds: seq<nat>, part: seq<nat>, p: nat, d: nat)
    requires IsPartition(part, |ds|) && p + 1 < |part|
    ensures part[p] <= part[p + 1] <= |ds|
    ensures Value(LocalCounts(ds, part), true, p, d) == Less(ds, d + 1, part[p + 1]) - Less(ds, d + 1, part[p])
  {
    assert part[p] <= part[p + 1] <= part[|part| - 1];
    LessNext(ds, d, part[p]);
    LessNext(ds, d, part[p + 1]);
    EqualMonotone(ds, d, part[p], part[p + 1]);
    if d > 0 { ValueLess(ds, part, p, d - 1); }
    else {
      NoneBelowZero(ds, part[p]);
      NoneBelowZero(ds, part[p + 1]);
    }
  }

  lemma {:induction false} FlatLess(ds: seq<nat>, part: seq<nat>, p: nat, d: nat)
    requires IsPartition(part, |ds|) && p < |part|
    ensures part[p] <= |ds| && Flat(LocalCounts(ds, part), true, 0, p, d) == Less(ds, d + 1, part[p])
  {
    assert part[p] <= part[|part| - 1];
    if p > 0 {
      FlatLess(ds, part, p - 1, d);
      ValueLess(ds, part, p - 1, d);
    }
  }

  /** The ranks of the prefix tree are the slots of the first key of each digit of a processor. */
  lemma StartRankIsFirstSlot(c: Config, ds: seq<nat>, part: seq<nat>, p: nat, d: nat)
    requires IsPartition(part, |ds|) && p + 1 < |part| == Procs(c.k) + 1 && c.hist == LocalCounts(ds, part)
    ensures part[p] <= |ds| && StartRank(c, p, d) == Less(ds, d, |ds|) + Equal(ds, d, part[p])
  {
    FlatEqual(ds, part, p, d);
    if d > 0 { FlatLess(ds, part, Procs(c.k), d - 1); } else { NoneBelowZero(ds, |ds|); }
  }

  /** The permutation phase starts with the ranks of the prefix tree. */
  ghost predicate MoveStart(k: Keys, s: MoveState, tree: State)
    requires ValidKeys(k)
  {
    && |s.to| == |k.from| && |s.at| == |k.part| - 1
    && (forall p :: 0 <= p < |s.at| ==> s.at[p] == k.part[p])
    && (forall p, d :: s.rank(p, d) == tree.rank(p, d))
  }

  ghost predicate PassWith(c: Config, k: Keys, to: seq<nat>, tree: seq<State>, moves: seq<MoveState>)
    requires ValidKeys(k)
  {
    && IsRun(c, tree) && AllDone(tree[|tree| - 1])
    && |moves| > 0 && MoveStart(k, moves[0], tree[|tree| - 1]) && MoveSteps(k, moves)
    && AllMoved(k, moves[|moves| - 1]) && moves[|moves| - 1].to == to
  }

  /** With the ranks of a finished tree the permutation phase starts as it has to. */
  lemma StartIsInit(c: Config, k: Keys, tree: seq<State>, s: MoveState)
    requires ValidKeys(k) && |k.part| == Procs(c.k) + 1 && c.hist == LocalCounts(k.ds, k.part)
    requires forall i :: 0 <= i < |k.ds| ==> k.ds[i] < c.radix
    requires IsRun(c, tree) && AllDone(tree[|tree| - 1]) && MoveStart(k, s, tree[|tree| - 1])
    ensures MoveInit(k, s)
  {
    var last := |tree| - 1;
    RunInv(c, tree, last);
    forall p, i | 0 <= p < |s.at| && 0 <= i < |k.ds|
      ensures s.rank(p, k.ds[i]) == Less(k.ds, k.ds[i], |k.ds|) + Equal(k.ds, k.ds[i], k.part[p]) {
      RanksAreRight(c, tree, last, p, k.ds[i]);
      StartRankIsFirstSlot(c, k.ds, k.part, p, k.ds[i]);
    }
  }

  lemma PassWithIsPass(c: Config, k: Keys, to: seq<nat>, tree: seq<State>, moves: seq<MoveState>)
    requires ValidKeys(k) && |k.part| == Procs(c.k) + 1 && c.hist == LocalCounts(k.ds, k.part)
    requires (forall i :: 0 <= i < |k.ds| ==> k.ds[i] < c.radix) && PassWith(c, k, to, tree, moves)
    ensures IsPass(k.from, to, k.ds)
  {
    StartIsInit(c, k, tree, moves[0]);
    MovesArePass(k, moves);
  }

  // -------------------------------------------------------------------------------------
  // The sort as a whole

  ghost function Pow(b: nat, e: nat): nat { if e == 0 then 1 else Pow(b, e - 1) * b }

  lemma {:induction false} PowPositive(b: nat, e: nat)
    requires b > 0
    ensures Pow(b, e) > 0
  {
    if e > 0 {
      PowPositive(b, e - 1);
      MulPositive(Pow(b, e - 1), b);
    }
  }

  /** 2^k processors with the given partition sort by the digit of weight m. */
  ghost predicate ParallelPass(k: nat, radix: nat, part: seq<nat>, m: nat, from: seq<nat>, to: seq<nat>)
    requires m > 0 && radix > 0 && IsPartition(part, |from|)
  {
    var ds := Digits(from, m, radix);
    exists tree, moves :: PassWith(Config(k, radix, LocalCounts(ds, part)), Keys(from, ds, part), to, tree, moves)
  }

  lemma ParallelPassIsPass(k: nat, radix: nat, part: seq<nat>, m: nat, from: seq<nat>, to: seq<nat>)
    requires m > 0 && radix > 0 && IsPartition(part, |from|) && |part| == Procs(k) + 1
    requires ParallelPass(k, radix, part, m, from, to)
    ensures IsPass(from, to, Digits(from, m, radix))
  {
    var ds := Digits(from, m, radix);
    var c, keys := Config(k, radix, LocalCounts(ds, part)), Keys(from, ds, part);
    var tree, moves :| PassWith(c, keys, to, tree, moves);
    PassWithIsPass(c, keys, to, tree, moves);
  }

  lemma SomePassWith(c: Config, k: Keys) returns (tree: seq<State>, moves: seq<MoveState>)
    requires ValidKeys(k) && |k.part| == Procs(c.k) + 1 && c.hist == LocalCounts(k.ds, k.part)
    requires forall i :: 0 <= i < |k.ds| ==> k.ds[i] < c.radix
    ensures |moves| > 0 && PassWith(c, k, moves[|moves| - 1].to, tree, moves)
  {
    var first := FirstState(c);
    tree := EveryRunCanFinish(c, [first]);
    var start := MoveState(k.from, tree[|tree| - 1].rank, k.part[..|k.part| - 1]);
    StartIsInit(c, k, tree, start);
    moves := EveryMoveRunCanFinish(k, [start]);
    assert moves[0] == start;
  }

  /** Every pass can be made. */
  lemma EveryPassCanBeMade(k: nat, radix: nat, part: seq<nat>, m: nat, from: seq<nat>) returns (to: seq<nat>)
    requires m > 0 && radix > 0 && IsPartition(part, |from|) && |part| == Procs(k) + 1
    ensures ParallelPass(k, radix, part, m, from, to) && |to| == |from|
  {
    var ds := Digits(from, m, radix);
    var tree, moves := SomePassWith(Config(k, radix, LocalCounts(ds, part)), Keys(from, ds, part));
    to := moves[|moves| - 1].to;
    ParallelPassIsPass(k, radix, part, m, from, to);
  }

  /** states[l] is the key array before pass l, under some interleaving of every pass. */
  ghost predicate IsSort(k: nat, radix: nat, part: seq<nat>, states: seq<seq<nat>>)
    requires radix > 0
  {
    && |states| > 0 && |part| == Procs(k) + 1 && IsPartition(part, |states[0]|)
    && forall l :: 0 <= l < |states| - 1 ==> SortStep(k, radix, part, states, l)
  }

  ghost predicate SortStep(k: nat, radix: nat, part: seq<nat>, states: seq<seq<nat>>, l: nat)
    requires radix > 0 && l + 1 < |states|
  {
    PowPositive(radix, l);
    IsPartition(part, |states[l]|) && ParallelPass(k, radix, part, Pow(radix, l), states[l], states[l + 1])
  }

  lemma {:induction false} AfterPasses(k: nat, radix: nat, part: seq<nat>, states: seq<seq<nat>>, l: nat)
    requires radix > 0 && IsSort(k, radix, part, states) && l < |states|
    ensures Pow(radix, l) > 0 && SortedMod(states[l], Pow(radix, l)) && multiset(states[l]) == multiset(states[0])
  {
    PowPositive(radix, l);
    if l > 0 {
      AfterPasses(k, radix, part, states, l - 1);
      assert SortStep(k, radix, part, states, l - 1);
      var m := Pow(radix, l - 1);
      ParallelPassIsPass(k, radix, part, m, states[l - 1], states[l]);
      PassSorts(states[l - 1], states[l], m, radix);
      PassIsPermutation(states[l - 1], states[l], Digits(states[l - 1], m, radix));
    }
  }

  /** Every array can be sorted: any number of passes can be made, one after the other. */
  lemma {:induction false} EverySortCanBeMade(k: nat, radix: nat, part: seq<nat>, keys: seq<nat>, passes: nat) returns (states: seq<seq<nat>>)
    requires radix > 0 && IsPartition(part, |keys|) && |part| == Procs(k) + 1
    ensures IsSort(k, radix, part, states) && |states| == passes + 1 && states[0] == keys && |states[passes]| == |keys|
  {
    if passes == 0 { states := [keys]; }
    else {
      var before := EverySortCanBeMade(k, radix, part, keys, passes - 1);
      PowPositive(radix, passes - 1);
      var to := EveryPassCanBeMade(k, radix, part, Pow(radix, passes - 1), before[passes - 1]);
      states := before + [to];
      forall l | 0 <= l < |states| - 1 ensures SortStep(k, radix, part, states, l) {
        if l < passes - 1 { assert SortStep(k, radix, part, before, l); }
      }
    }
  }

  ghost predicate Sorted(keys: seq<nat>) { forall a, b :: 0 <= a < b < |keys| ==> keys[a] <= keys[b] }

  lemma SameBound(a: seq<nat>, b: seq<nat>, most: nat)
    requires multiset(a) == multiset(b) && forall i :: 0 <= i < |b| ==> b[i] <= most
    ensures forall i :: 0 <= i < |a| ==> a[i] <= most
  {
    forall i | 0 <= i < |a| ensures a[i] <= most {
      assert a[i] in multiset(a);
      assert a[i] in b;
    }
  }

  lemma SmallKeysSorted(keys: seq<nat>, m: nat)
    requires m > 0 && SortedMod(keys, m) && forall i :: 0 <= i < |keys| ==> keys[i] < m
    ensures Sorted(keys)
  {
    forall a, b | 0 <= a < b < |keys| ensures keys[a] <= keys[b] {
      assert keys[a] % m <= keys[b] % m;
      QuotientUnique(keys[a], 0, m, keys[a]);
      QuotientUnique(keys[b], 0, m, keys[b]);
    }
  }

  /** After enough passes for the largest key, the keys are a sorted permutation of the first ones. */
  lemma SortIsCorrect(k: nat, radix: nat, part: seq<nat>, states: seq<seq<nat>>, maxKey: nat)
    requires radix > 0 && IsSort(k, radix, part, states) && maxKey < Pow(radix, |states| - 1)
    requires forall i :: 0 <= i < |states[0]| ==> states[0][i] <= maxKey
    ensures Sorted(states[|states| - 1]) && multiset(states[|states| - 1]) == multiset(states[0])
  {
    AfterPasses(k, radix, part, states, |states| - 1);
    SameBound(states[|states| - 1], states[0], maxKey);
    SmallKeysSorted(states[|states| - 1], Pow(radix, |states| - 1));
  }

  // -------------------------------------------------------------------------------------
  // The loops of one processor

  /** The local histogram and the local key density, for the digit of the given bits. */
  method LocalHistogram(keys: array<nat>, shift: nat, bits: nat, start: nat, stop: nat, rank: array<nat>, density: array<nat>)
    requires rank.Length == density.Length == Two(bits) && start <= stop <= keys.Length
    requires rank != density && rank != keys && density != keys
    modifies rank, density
    ensures var ds := Digits(keys[..], Two(shift), Two(bits)); forall d :: 0 <= d < Two(bits) ==>
      && rank[d] == Equal(ds, d, stop) - Equal(ds, d, start)
      && density[d] == Less(ds, d + 1, stop) - Less(ds, d + 1, start)
  {
    var radix := Two(bits);
    var mask := Shl(radix - 1, shift);
    ghost var ds := Digits(keys[..], Two(shift), radix);
    for i := 0 to radix
      invariant forall d :: 0 <= d < i ==> rank[d] == 0
    {
      rank[i] := 0;
    }
    for i := start to stop
      invariant keys[..] == old(keys[..])
      invariant forall d :: 0 <= d < radix ==> rank[d] == Equal(ds, d, i) - Equal(ds, d, start)
    {
      MaskAndShift(keys[i], shift, bits);
      var digit := And(keys[i], mask) / Two(shift);
      rank[digit] := rank[digit] + 1;
    }
    density[0] := rank[0];
    FirstDensity(ds, start, stop);
    for i := 1 to radix
      invariant forall d :: 0 <= d < radix ==> rank[d] == Equal(ds, d, stop) - Equal(ds, d, start)
      invariant forall d :: 0 <= d < i ==> density[d] == Less(ds, d + 1, stop) - Less(ds, d + 1, start)
    {
      LessNext(ds, i, start);
      LessNext(ds, i, stop);
      density[i] := density[i - 1] + rank[i];
    }
  }

  lemma FirstDensity(ds: seq<nat>, start: nat, stop: nat)
    requires start <= stop <= |ds|
    ensures Equal(ds, 0, stop) - Equal(ds, 0, start) == Less(ds, 1, stop) - Less(ds, 1, start)
  {
    LessNext(ds, 0, start);
    LessNext(ds, 0, stop);
    NoneBelowZero(ds, start);
    NoneBelowZero(ds, stop);
  }

  /** The next free slot for each digit, when the keys before number i have been moved. */
  ghost predicate RanksAt(rank: seq<nat>, ds: seq<nat>, i: nat)
    requires i <= |ds|
  {
    forall d :: 0 <= d < |rank| ==> rank[d] == Less(ds, d, |ds|) + Equal(ds, d, i)
  }

  ghost predicate IsSlotOf(ds: seq<nat>, start: nat, i: nat, t: nat)
    requires i <= |ds|
  {
    exists j :: start <= j < i && Slot(ds, j) == t
  }

  /** Keys start..i are in their slots, and the other slots are as they were. */
  ghost predicate MovedTo(from: seq<nat>, was: seq<nat>, to: seq<nat>, ds: seq<nat>, start: nat, i: nat)
    requires i <= |ds| == |from| && |was| == |to|
  {
    && (forall j :: start <= j < i ==> InSlot(from, to, ds, j))
    && (forall t :: 0 <= t < |to| && !IsSlotOf(ds, start, i, t) ==> to[t] == was[t])
  }

  lemma RankNext(rank: seq<nat>, ds: seq<nat>, i: nat)
    requires i < |ds| && ds[i] < |rank| && RanksAt(rank, ds, i)
    ensures rank[ds[i]] == Slot(ds, i) && RanksAt(rank[ds[i] := rank[ds[i]] + 1], ds, i + 1)
  {
  }

  lemma MovedNext(from: seq<nat>, was: seq<nat>, to: seq<nat>, ds: seq<nat>, start: nat, i: nat)
    requires start <= i < |ds| == |from| && |was| == |to| == |from| && MovedTo(from, was, to, ds, start, i)
    ensures Slot(ds, i) < |to| && MovedTo(from, was, to[Slot(ds, i) := from[i]], ds, start, i + 1)
  {
    SlotInRange(ds, i);
    var now, next := to[Slot(ds, i) := from[i]], i + 1;
    forall j | start <= j < next ensures InSlot(from, now, ds, j) {
      if j < i { assert InSlot(from, to, ds, j); SlotInjective(ds, i, j); }
    }
    forall t | 0 <= t < |to| && !IsSlotOf(ds, start, next, t) ensures now[t] == was[t] {
      assert Slot(ds, i) != t;
    }
  }

  /** The permutation loop of one processor. */
  method MoveKeys(from: array<nat>, to: array<nat>, shift: nat, bits: nat, start: nat, stop: nat, rank: array<nat>)
    requires rank.Length == Two(bits) && start <= stop <= from.Length == to.Length
    requires from != to && from != rank && to != rank
    requires RanksAt(rank[..], Digits(from[..], Two(shift), Two(bits)), start)
    modifies to, rank
    ensures MovedTo(from[..], old(to[..]), to[..], Digits(from[..], Two(shift), Two(bits)), start, stop)
  {
    var mask := Shl(Two(bits) - 1, shift);
    ghost var keys, was, ds := from[..], to[..], Digits(from[..], Two(shift), Two(bits));
    for i := start to stop
      invariant RanksAt(rank[..], ds, i)
      invariant MovedTo(keys, was, to[..], ds, start, i)
    {
      RankNext(rank[..], ds, i);
      MovedNext(keys, was, to[..], ds, start, i);
      ghost var ranks, moved := rank[..][ds[i] := rank[ds[i]] + 1], to[..][Slot(ds, i) := from[i]];
      MaskAndShift(from[i], shift, bits);
      var digit := And(from[i], mask) / Two(shift);
      var tmp := rank[digit];
      to[tmp] := from[i];
      rank[digit] := rank[digit] + 1;
      assert rank[..] == ranks && to[..] == moved;
    }
  }
}
