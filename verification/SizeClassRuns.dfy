/** Whole runs of the allocator: a program requests blocks, writes to them and releases them. */
module SizeClassRuns {
  import opened SizeClasses
  import opened Wrappers

  /** Blocks are named by the number of the request that returned them. */
  datatype Action = Request(size: int) | Release(k: nat) | Write(k: nat, offset: nat, value: int)

  function Requests(actions: seq<Action>): nat {
    if actions == [] then 0 else
      Requests(actions[..|actions| - 1]) + if actions[|actions| - 1].Request? then 1 else 0
  }

  /** The requests whose blocks have not been released. */
  ghost function Held(actions: seq<Action>): set<nat> {
    if actions == [] then {} else
      var before := actions[..|actions| - 1];
      match actions[|actions| - 1]
      case Request(_) => Held(before) + {Requests(before)}
      case Release(k) => Held(before) - {k}
      case Write(_, _, _) => Held(before)
  }

  /** How many bytes request k asked for. */
  function Asked(actions: seq<Action>, k: nat): int {
    if actions == [] then 0 else
      var before, last := actions[..|actions| - 1], actions[|actions| - 1];
      if last.Request? && Requests(before) == k then Wanted(last.size) else Asked(before, k)
  }

  /** What was last written to a word of block k. */
  function Stored(actions: seq<Action>, k: nat, offset: nat): Option<int> {
    if actions == [] then None else
      var before, last := actions[..|actions| - 1], actions[|actions| - 1];
      if last.Request? && Requests(before) == k then None
      else if last.Write? && last.k == k && last.offset == offset then Some(last.value)
      else Stored(before, k, offset)
  }

  /** The program releases and writes only what it holds. */
  ghost predicate Legal(actions: seq<Action>) {
    actions == [] ||
    var before, last := actions[..|actions| - 1], actions[|actions| - 1];
    && Legal(before)
    && (!last.Request? ==> last.k in Held(before))
    && (last.Write? ==> 8 * last.offset + 8 <= Asked(before, last.k))
  }

  /** The words that the system may have to hand out. */
  function TotalDemand(actions: seq<Action>): nat {
    if actions == [] then 0 else
      var last := actions[|actions| - 1];
      TotalDemand(actions[..|actions| - 1]) + if last.Request? then Demand(last.size) else 0
  }

  lemma {:induction false} DemandGrows(actions: seq<Action>, n: nat)
    requires n < |actions|
    ensures TotalDemand(actions[..n + 1]) <= TotalDemand(actions)
    ensures TotalDemand(actions[..n + 1]) == TotalDemand(actions[..n]) + if actions[n].Request? then Demand(actions[n].size) else 0
  {
    assert actions[..n + 1][..n] == actions[..n];
    if n + 1 == |actions| {
      assert actions[..n + 1] == actions;
    } else {
      var last := |actions| - 1;
      DemandGrows(actions[..last], n);
      assert actions[..last][..n + 1] == actions[..n + 1];
    }
  }

  lemma {:induction false} LegalBefore(actions: seq<Action>, n: nat)
    requires Legal(actions) && n <= |actions|
    ensures Legal(actions[..n])
  {
    if n == |actions| {
      assert actions[..n] == actions;
    } else {
      LegalBefore(actions[..|actions| - 1], n);
      assert actions[..|actions| - 1][..n] == actions[..n];
    }
  }

  // -------------------------------------------------------------------------------------
  // What the program finds in its blocks

  ghost predicate Live(h: Heap, a: nat) { a in h.status && h.status[a] == -1 && 0 < a <= |h.m| }

  /** Block k is live, large enough, and holds in every word what was last written there. */
  ghost predicate HeldOk(h: Heap, actions: seq<Action>, results: seq<nat>, k: nat) {
    && k < |results| && Live(h, results[k]) && Size(h.m, results[k]) >= Asked(actions, k)
    && forall o: nat :: 8 * o + 8 <= Asked(actions, k) && Stored(actions, k, o).Some? ==>
         results[k] + o < |h.m| && h.m[results[k] + o] == Stored(actions, k, o).value
  }

  ghost predicate AllHeldOk(h: Heap, actions: seq<Action>, results: seq<nat>) {
    && (forall k :: k in Held(actions) ==> HeldOk(h, actions, results, k))
    && (forall j, k :: j in Held(actions) && k in Held(actions) && j != k ==> results[j] != results[k])
  }

  /** The held blocks were not live when the run began, at h0, and what was live then is untouched. */
  ghost predicate OthersKept(h0: Heap, h: Heap, actions: seq<Action>, results: seq<nat>) {
    && LiveKept(h0, h)
    && forall k :: k in Held(actions) && k < |results| ==> !Live(h0, results[k])
  }

  ghost predicate Serving(h0: Heap, h: Heap, home: int, actions: seq<Action>, results: seq<nat>) {
    && HeapSafe(h, home) && |results| == Requests(actions)
    && AllHeldOk(h, actions, results) && OthersKept(h0, h, actions, results)
  }

  /** The live blocks are those from the start of the run and the held ones. */
  ghost predicate NothingElse(h0: Heap, h: Heap, actions: seq<Action>, results: seq<nat>) {
    forall a :: Live(h, a) <==> Live(h0, a) || HeldAt(actions, results, a)
  }

  /** The block at a is held. */
  ghost predicate HeldAt(actions: seq<Action>, results: seq<nat>, a: nat) {
    exists k :: k in Held(actions) && k < |results| && results[k] == a
  }

  /** The words that belong to blocks are those from the start of the run and those handed out since, but
      for the lost ones, two for each request at most. */
  ghost predicate Accounted(h0: Heap, h: Heap, actions: seq<Action>, lost: set<int>) {
    Accounts(h0, h, lost) && |lost| <= 2 * Requests(actions) && forall w :: w in lost ==> 0 <= w < h.brk
  }

  lemma AccountMore(h0: Heap, h: Heap, f: Heap, actions: seq<Action>, x: Action, lost: set<int>, more: set<int>)
    requires Accounted(h0, h, actions, lost) && Accounts(h, f, more) && |more| <= (if x.Request? then 2 else 0)
    requires forall w :: w in more ==> 0 <= w < f.brk
    ensures Accounted(h0, f, actions + [x], lost + more)
  {
    Unfold(actions, x);
    AccountsTwice(h0, h, f, lost, more);
    UnionSize(lost, more);
  }

  lemma UnionSize(a: set<int>, b: set<int>)
    ensures |a + b| <= |a| + |b|
  {
    assert a + b == a + (b - a);
    assert b == (b - a) + (a * b);
  }

  lemma Unfold(actions: seq<Action>, x: Action)
    ensures (actions + [x])[..|actions + [x]| - 1] == actions && (actions + [x])[|actions + [x]| - 1] == x
  {
  }

  /** A held block whose words stay is as the program expects. */
  lemma HeldStays(h: Heap, f: Heap, home: int, actions: seq<Action>, results: seq<nat>, x: Action, more: seq<nat>, k: nat)
    requires HeapSafe(h, home) && HeldOk(h, actions, results, k) && results <= more && Requests(actions) == |results| && |f.m| == |h.m|
    requires Live(f, results[k]) && WordsKept(h.m, f.m, results[k]) && !(x.Write? && x.k == k)
    ensures HeldOk(f, actions + [x], more, k)
  {
    Unfold(actions, x);
    var a := results[k];
    assert more[k] == a && BlockOk(h, home, a);
    forall o: nat | 8 * o + 8 <= Asked(actions + [x], k) && Stored(actions + [x], k, o).Some?
      ensures a + o < |f.m| && f.m[a + o] == Stored(actions + [x], k, o).value
    {
      assert Stored(actions + [x], k, o) == Stored(actions, k, o);
      assert a + o < End(h.m, a);
    }
  }

  /** A new block joins those that are held. */
  lemma ServingRequest(h0: Heap, h: Heap, f: Heap, home: int, actions: seq<Action>, results: seq<nat>, size: int, result: nat)
    requires Serving(h0, h, home, actions, results) && HeapSafe(f, home) && LiveKept(h, f) && |h0.m| == |h.m| == |f.m|
    requires !Live(h, result) && Live(f, result) && Size(f.m, result) >= Wanted(size)
    ensures Serving(h0, f, home, actions + [Request(size)], results + [result])
  {
    var x, all, more := Request(size), actions + [Request(size)], results + [result];
    Unfold(actions, x);
    forall k | k in Held(all) ensures HeldOk(f, all, more, k) {
      if k in Held(actions) { HeldStays(h, f, home, actions, results, x, more, k); }
    }
    forall j, k | j in Held(all) && k in Held(all) && j != k ensures more[j] != more[k] {
      if j in Held(actions) { assert HeldOk(h, actions, results, j) && more[j] == results[j]; }
      if k in Held(actions) { assert HeldOk(h, actions, results, k) && more[k] == results[k]; }
    }
    KeptTwice(h0, h, f);
    forall k | k in Held(all) && k < |more| ensures !Live(h0, more[k]) {
      if k in Held(actions) { assert HeldOk(h, actions, results, k) && more[k] == results[k]; }
    }
  }

  lemma KeptTwice(h: Heap, g: Heap, f: Heap)
    requires LiveKept(h, g) && LiveKept(g, f)
    ensures LiveKept(h, f)
  {
    forall x | x in h.status && h.status[x] == -1 && 0 < x <= |h.m| ensures x in f.status && f.status[x] == -1 && WordsKept(h.m, f.m, x) {
      assert WordsKept(h.m, g.m, x) && WordsKept(g.m, f.m, x);
      forall w | 0 <= w < |h.m| && x - 2 <= w < End(h.m, x) ensures f.m[w] == h.m[w] { assert g.m[w] == h.m[w]; }
    }
  }

  lemma Untouched(h: Heap, home: int, a: nat, w: nat, v: int, x: nat)
    requires HeapSafe(h, home) && a in h.status && x in h.status && x != a
    requires 0 < a <= |h.m| && a <= w < End(h.m, a) && w < |h.m| && 0 < x <= |h.m|
    ensures WordsKept(h.m, h.m[w := v], x)
  {
    assert BlockOk(h, home, a) && BlockOk(h, home, x) && Apart(h.m, a, x);
  }

  /** A word of held block k changes, or the block is given up: everything else stays. */
  ghost predicate OnlyBlock(h: Heap, f: Heap, a: nat, w: nat, v: int) {
    && Live(h, a) && a <= w < |h.m| && w < End(h.m, a) && f.m == h.m[w := v]
    && forall x :: x != a && Live(h, x) ==> x in f.status && f.status[x] == -1
  }

  lemma OthersStay(h0: Heap, h: Heap, f: Heap, home: int, actions: seq<Action>, results: seq<nat>, x: Action, k: nat, w: nat, v: int)
    requires Serving(h0, h, home, actions, results) && |h0.m| == |h.m| && k in Held(actions) && !x.Request? && x.k == k
    requires OnlyBlock(h, f, results[k], w, v)
    ensures forall j :: j in Held(actions) && j != k ==> HeldOk(f, actions + [x], results, j)
    ensures OthersKept(h0, f, actions + [x], results)
  {
    Unfold(actions, x);
    var a := results[k];
    forall j | j in Held(actions) && j != k ensures HeldOk(f, actions + [x], results, j) {
      assert HeldOk(h, actions, results, j);
      Untouched(h, home, a, w, v, results[j]);
      HeldStays(h, f, home, actions, results, x, results, j);
    }
    forall y | y in h0.status && h0.status[y] == -1 && 0 < y <= |h0.m| ensures y in f.status && f.status[y] == -1 && WordsKept(h0.m, f.m, y) {
      assert Live(h0, y) && !Live(h0, a) && WordsKept(h0.m, h.m, y);
      Untouched(h, home, a, w, v, y);
      forall u | 0 <= u < |h0.m| && y - 2 <= u < End(h0.m, y) ensures f.m[u] == h0.m[u] { assert h.m[u] == h0.m[u]; }
    }
  }

  lemma ServingRelease(h0: Heap, h: Heap, home: int, actions: seq<Action>, results: seq<nat>, k: nat, b: nat)
    requires Serving(h0, h, home, actions, results) && |h0.m| == |h.m| && k in Held(actions) && k < |results| && results[k] < |h.m|
    requires 0 < b <= MAXFAST && HeapOk(Freed(h, results[k], b), home)
    ensures Serving(h0, Freed(h, results[k], b), home, actions + [Release(k)], results)
  {
    Unfold(actions, Release(k));
    assert HeldOk(h, actions, results, k) && BlockOk(h, home, results[k]);
    OthersStay(h0, h, Freed(h, results[k], b), home, actions, results, Release(k), k, results[k], h.heads[b]);
  }

  lemma ServingWrite(h0: Heap, h: Heap, home: int, actions: seq<Action>, results: seq<nat>, k: nat, o: nat, v: int)
    requires Serving(h0, h, home, actions, results) && |h0.m| == |h.m| && k in Held(actions) && 8 * o + 8 <= Asked(actions, k)
    ensures k < |results| && Live(h, results[k]) && results[k] + o < |h.m| && results[k] + o < End(h.m, results[k])
    ensures var f := h.(m := h.m[results[k] + o := v]);
      HeapSafe(f, home) ==> Serving(h0, f, home, actions + [Write(k, o, v)], results)
  {
    var x := Write(k, o, v);
    Unfold(actions, x);
    assert HeldOk(h, actions, results, k) && BlockOk(h, home, results[k]);
    var a := results[k];
    var f := h.(m := h.m[a + o := v]);
    OthersStay(h0, h, f, home, actions, results, x, k, a + o, v);
    forall p: nat | 8 * p + 8 <= Asked(actions + [x], k) && Stored(actions + [x], k, p).Some?
      ensures a + p < |f.m| && f.m[a + p] == Stored(actions + [x], k, p).value
    {
      if p != o { assert Stored(actions + [x], k, p) == Stored(actions, k, p); }
    }
    assert HeldOk(f, actions + [x], results, k);
  }

  lemma HeldMore(actions: seq<Action>, results: seq<nat>, size: int, result: nat, a: nat)
    requires |results| == Requests(actions)
    requires forall k :: k in Held(actions) ==> k < |results|
    ensures HeldAt(actions + [Request(size)], results + [result], a) <==> HeldAt(actions, results, a) || a == result
  {
    var all, more := actions + [Request(size)], results + [result];
    Unfold(actions, Request(size));
    if HeldAt(actions, results, a) {
      var k :| k in Held(actions) && k < |results| && results[k] == a;
      assert k in Held(all) && more[k] == a;
    }
    if a == result { assert |results| in Held(all) && more[|results|] == a; }
    if HeldAt(all, more, a) {
      var k :| k in Held(all) && k < |more| && more[k] == a;
      if k < |results| { assert k in Held(actions); }
    }
  }

  lemma LiveAfterRequest(h0: Heap, h: Heap, f: Heap, home: int, actions: seq<Action>, results: seq<nat>, size: int, result: nat)
    requires Serving(h0, h, home, actions, results) && NothingElse(h0, h, actions, results)
    requires forall a :: Live(f, a) <==> Live(h, a) || a == result
    ensures NothingElse(h0, f, actions + [Request(size)], results + [result])
  {
    forall k | k in Held(actions) ensures k < |results| { assert HeldOk(h, actions, results, k); }
    forall a ensures Live(f, a) <==> Live(h0, a) || HeldAt(actions + [Request(size)], results + [result], a) {
      HeldMore(actions, results, size, result, a);
      assert Live(h, a) <==> Live(h0, a) || HeldAt(actions, results, a);
    }
  }

  lemma HeldLess(actions: seq<Action>, results: seq<nat>, k: nat, a: nat)
    requires k in Held(actions) && k < |results|
    requires forall i, j :: i in Held(actions) && j in Held(actions) && i < |results| && j < |results| && i != j ==> results[i] != results[j]
    ensures HeldAt(actions + [Release(k)], results, a) <==> HeldAt(actions, results, a) && a != results[k]
  {
    Unfold(actions, Release(k));
    var all := actions + [Release(k)];
    if HeldAt(actions, results, a) && a != results[k] {
      var j :| j in Held(actions) && j < |results| && results[j] == a;
      assert j in Held(all);
    }
    if HeldAt(all, results, a) {
      var j :| j in Held(all) && j < |results| && results[j] == a;
      assert j in Held(actions) && j != k;
    }
  }

  lemma LiveAfterRelease(h0: Heap, h: Heap, home: int, actions: seq<Action>, results: seq<nat>, k: nat, b: nat)
    requires Serving(h0, h, home, actions, results) && NothingElse(h0, h, actions, results)
    requires k in Held(actions) && k < |results| && results[k] < |h.m| && 0 < b <= MAXFAST && |h.heads| == |h.free| == MAXFAST + 1
    ensures NothingElse(h0, Freed(h, results[k], b), actions + [Release(k)], results)
  {
    var f := Freed(h, results[k], b);
    assert !Live(h0, results[k]);
    forall j | j in Held(actions) ensures j < |results| { assert HeldOk(h, actions, results, j); }
    forall a ensures Live(f, a) <==> Live(h0, a) || HeldAt(actions + [Release(k)], results, a) {
      HeldLess(actions, results, k, a);
      assert Live(h, a) <==> Live(h0, a) || HeldAt(actions, results, a);
    }
  }

  lemma LiveAfterWrite(h0: Heap, h: Heap, actions: seq<Action>, results: seq<nat>, x: Action, w: nat, v: int)
    requires NothingElse(h0, h, actions, results) && x.Write? && w < |h.m|
    ensures NothingElse(h0, h.(m := h.m[w := v]), actions + [x], results)
  {
    Unfold(actions, x);
    forall a ensures Live(h.(m := h.m[w := v]), a) <==> Live(h0, a) || HeldAt(actions + [x], results, a) {
      assert Live(h, a) <==> Live(h0, a) || HeldAt(actions, results, a);
      assert HeldAt(actions + [x], results, a) <==> HeldAt(actions, results, a);
    }
  }

  // -------------------------------------------------------------------------------------
  // The run

  /** The program writes a word of a block. */
  method WriteWord(p: Pool, a: nat, o: nat, v: int)
    requires p.Valid() && Live(p.Abs(), a) && a + o < p.mem.Length && a + o < End(p.mem[..], a)
    modifies p.mem
    ensures p.Valid() && p.Abs() == old(p.Abs().(m := p.mem[..][a + o := v]))
  {
    BodyOk(p.Abs(), p.home, a, a + o, v);
    p.mem[a + o] := v;
    assert p.Abs() == old(p.Abs().(m := p.mem[..][a + o := v]));
  }

  /** The heap after these actions. */
  ghost predicate After(h0: Heap, h: Heap, home: int, actions: seq<Action>, results: seq<nat>, lost: set<int>) {
    Serving(h0, h, home, actions, results) && NothingElse(h0, h, actions, results) && Accounted(h0, h, actions, lost)
  }

  /** A request. */
  method Ask(p: Pool, size: int, results: seq<nat>, ghost h0: Heap, ghost actions: seq<Action>, ghost lost: set<int>)
    returns (more: seq<nat>, ok: bool, ghost lost': set<int>)
    requires p.Valid() && After(h0, p.Abs(), p.home, actions, results, lost) && |h0.m| == p.mem.Length
    requires p.brk + Demand(size) <= p.mem.Length
    modifies p, p.mem, p.head
    ensures After(h0, p.Abs(), p.home, actions + [Request(size)], more, lost') && ok == p.Valid()
    ensures (ok <==> old(Works(p.Abs(), p.home, size))) && p.brk <= old(p.brk) + Demand(size)
  {
    ghost var h := p.Abs();
    ghost var o;
    var result;
    ok := p.CanServe(size);
    result, o := p.Malloc(size);
    more := results + [result];
    lost' := lost + o.lost;
    ServingRequest(h0, h, p.Abs(), p.home, actions, results, size, result);
    LiveInside(h, p.home);
    LiveIsSet(h, p.Abs(), result);
    LiveAfterRequest(h0, h, p.Abs(), p.home, actions, results, size, result);
    LostWere(h, p.home, size, o);
    AccountMore(h0, h, p.Abs(), actions, Request(size), lost, o.lost);
  }

  lemma LiveIsSet(h: Heap, f: Heap, result: nat)
    requires LiveSet(f) == LiveSet(h) + {result} && |f.m| == |h.m| && 0 < result <= |f.m|
    requires forall x :: x in h.status && h.status[x] == -1 ==> 0 < x <= |h.m|
    ensures forall a :: Live(f, a) <==> Live(h, a) || a == result
  {
    forall a ensures Live(f, a) <==> Live(h, a) || a == result { assert a in LiveSet(f) <==> a in LiveSet(h) || a == result; }
  }

  /** A release. */
  method GiveBack(p: Pool, k: nat, results: seq<nat>, ghost h0: Heap, ghost actions: seq<Action>, ghost lost: set<int>)
    requires p.Valid() && After(h0, p.Abs(), p.home, actions, results, lost) && |h0.m| == p.mem.Length && k in Held(actions)
    requires k < |results|
    modifies p, p.mem, p.head
    ensures p.Valid() && After(h0, p.Abs(), p.home, actions + [Release(k)], results, lost) && p.brk == old(p.brk)
  {
    ghost var h := p.Abs();
    assert HeldOk(h, actions, results, k);
    ghost var b := p.FreeNow(results[k]);
    ServingRelease(h0, h, p.home, actions, results, k, b);
    LiveAfterRelease(h0, h, p.home, actions, results, k, b);
    FreedAccounts(h, p.home, results[k], b);
    AccountMore(h0, h, p.Abs(), actions, Release(k), lost, {});
    assert lost + {} == lost;
  }

  /** A write. */
  method Put(p: Pool, k: nat, o: nat, v: int, results: seq<nat>, ghost h0: Heap, ghost actions: seq<Action>, ghost lost: set<int>)
    requires p.Valid() && After(h0, p.Abs(), p.home, actions, results, lost) && |h0.m| == p.mem.Length
    requires k in Held(actions) && 8 * o + 8 <= Asked(actions, k) && k < |results|
    modifies p.mem
    ensures p.Valid() && After(h0, p.Abs(), p.home, actions + [Write(k, o, v)], results, lost)
  {
    ghost var h := p.Abs();
    ServingWrite(h0, h, p.home, actions, results, k, o, v);
    WriteWord(p, results[k], o, v);
    LiveAfterWrite(h0, h, actions, results, Write(k, o, v), results[k] + o, v);
    BodyAccounts(h, p.home, results[k], results[k] + o, v);
    AccountMore(h0, h, p.Abs(), actions, Write(k, o, v), lost, {});
    assert lost + {} == lost;
  }

  /** One action. */
  method Step(p: Pool, x: Action, results: seq<nat>, ghost h0: Heap, ghost actions: seq<Action>, ghost lost: set<int>)
    returns (more: seq<nat>, ok: bool, ghost lost': set<int>)
    requires p.Valid() && After(h0, p.Abs(), p.home, actions, results, lost) && |h0.m| == p.mem.Length
    requires Legal(actions + [x]) && (x.Request? ==> p.brk + Demand(x.size) <= p.mem.Length)
    modifies p, p.mem, p.head
    ensures After(h0, p.Abs(), p.home, actions + [x], more, lost') && ok == p.Valid()
    ensures ok <==> (x.Request? ==> old(Works(p.Abs(), p.home, x.size)))
    ensures p.brk <= old(p.brk) + if x.Request? then Demand(x.size) else 0
  {
    Unfold(actions, x);
    if !x.Request? { HeldHasResult(p.Abs(), actions, results, x.k); }
    match x {
      case Request(size) => more, ok, lost' := Ask(p, size, results, h0, actions, lost);
      case Release(k) =>
        GiveBack(p, k, results, h0, actions, lost);
        more, ok, lost' := results, true, lost;
      case Write(k, o, v) =>
        Put(p, k, o, v, results, h0, actions, lost);
        more, ok, lost' := results, true, lost;
    }
  }

  lemma HeldHasResult(h: Heap, actions: seq<Action>, results: seq<nat>, k: nat)
    requires AllHeldOk(h, actions, results) && k in Held(actions)
    ensures k < |results|
  {
    assert HeldOk(h, actions, results, k);
  }

  /** The actions of a program, up to the first request that does not work: every held block is live,
      as large as was asked for, and holds what was last written to each of its words, and different
      blocks do not overlap, even after that request.  Only the held blocks and those from before the run
      are live, so what has been released can be used again; at most two words are lost for a request. */
  method Serve(p: Pool, actions: seq<Action>) returns (results: seq<nat>, n: nat, ghost lost: set<int>)
    requires p.Valid() && Legal(actions) && p.brk + TotalDemand(actions) <= p.mem.Length
    modifies p, p.mem, p.head
    ensures n <= |actions| && After(old(p.Abs()), p.Abs(), p.home, actions[..n], results, lost)
    ensures p.Valid() ==> n == |actions|
    ensures !p.Valid() ==> n > 0 && actions[n - 1].Request?
  {
    ghost var h0 := p.Abs();
    results, n, lost := [], 0, {};
    var ok := true;
    while ok && n < |actions|
      invariant n <= |actions| && After(h0, p.Abs(), p.home, actions[..n], results, lost) && ok == p.Valid()
      invariant !ok ==> n > 0 && actions[n - 1].Request?
      invariant p.brk <= old(p.brk) + TotalDemand(actions[..n])
    {
      LegalBefore(actions, n + 1);
      DemandGrows(actions, n);
      assert actions[..n + 1] == actions[..n] + [actions[n]];
      results, ok, lost := Step(p, actions[n], results, h0, actions[..n], lost);
      n := n + 1;
    }
  }
}
