/** The MCS queue lock, one step per atomic memory operation, any number of threads.

    Thread t owns queue node t, so a node pointer is a thread number.  A schedule is the
    sequence of threads that take the next step; a thread that spins takes a step that
    changes nothing.  Memory is sequentially consistent. */
module Mcs {

  datatype Ptr = Null | Node(thread: nat)

  /** Where a thread stands in mcs_acquire and mcs_release. */
  datatype Pc =
    | Idle                      // outside the lock
    | ClearNext                 // about to test the entry assertion and reset next
    | Swap                      // about to exchange the head
    | SetLocked(prev: nat)      // found a predecessor: about to set locked
    | Link(prev: nat)           // about to store itself in prev.next
    | Spin                      // reading locked until it is 0
    | Critical                  // holds the lock
    | TestNext                  // release: about to read next
    | CasHead                   // saw no successor: about to compare-and-swap the head
    | AwaitNext                 // reading next until it is not null
    | ReadNext                  // about to read next for the hand-over
    | Unlock(succ: nat)         // about to clear the successor's locked

  /** arrivals, grants, passed and place are history: the order of the head exchanges, the
      order in which threads became holders, the number of finished releases, and the
      position of a queued thread in arrivals. */
  datatype State = State(
    head: Ptr, next: seq<Ptr>, locked: seq<bool>, pc: seq<Pc>,
    arrivals: seq<nat>, grants: seq<nat>, passed: nat, place: seq<nat>)

  ghost predicate Shaped(s: State, n: nat) {
    && |s.next| == |s.locked| == |s.pc| == |s.place| == n
    && (forall t :: 0 <= t < n ==> ThreadsIn(s, n, t))
  }

  /** Thread numbers stored by thread t are in range. */
  ghost predicate ThreadsIn(s: State, n: nat, t: nat)
    requires t < |s.pc| == |s.next|
  {
    && (s.next[t].Node? ==> s.next[t].thread < n)
    && match s.pc[t]
       case SetLocked(p) => p < n
       case Link(p) => p < n
       case Unlock(u) => u < n
       case _ => true
  }

  ghost function Init(n: nat): State {
    State(Null, seq(n, _ => Null), seq(n, _ => false), seq(n, _ => Idle), [], [], 0, seq(n, _ => 0))
  }

  /** The next step of thread t. */
  ghost function Step(s: State, n: nat, t: nat): (r: State)
    requires Shaped(s, n) && t < n
  {
    assert ThreadsIn(s, n, t);
    match s.pc[t]
    case Idle => s.(pc := s.pc[t := ClearNext])
    case ClearNext => s.(next := s.next[t := Null], pc := s.pc[t := Swap])
    case Swap =>
      if s.head.Null? then
        s.(head := Node(t), pc := s.pc[t := Critical], grants := s.grants + [t],
           arrivals := s.arrivals + [t], place := s.place[t := |s.arrivals|])
      else
        s.(head := Node(t), pc := s.pc[t := SetLocked(s.head.thread)],
           arrivals := s.arrivals + [t], place := s.place[t := |s.arrivals|])
    case SetLocked(p) => s.(locked := s.locked[t := true], pc := s.pc[t := Link(p)])
    case Link(p) => s.(next := s.next[p := Node(t)], pc := s.pc[t := Spin])
    case Spin =>
      if s.locked[t] then s
      else s.(pc := s.pc[t := Critical], grants := s.grants + [t])
    case Critical => s.(pc := s.pc[t := TestNext])
    case TestNext => s.(pc := s.pc[t := if s.next[t].Null? then CasHead else ReadNext])
    case CasHead =>
      if s.head == Node(t) then s.(head := Null, pc := s.pc[t := Idle], passed := s.passed + 1)
      else s.(pc := s.pc[t := AwaitNext])
    case AwaitNext => if s.next[t].Null? then s else s.(pc := s.pc[t := ReadNext])
    case ReadNext =>
      if s.next[t].Null? then s else s.(pc := s.pc[t := Unlock(s.next[t].thread)])
    case Unlock(u) =>
      s.(locked := s.locked[u := false], pc := s.pc[t := Idle], passed := s.passed + 1)
  }

  // -------------------------------------------------------------------------------------
  // The invariant.  The threads queued on the lock are arrivals[passed..], first in line first.

  ghost predicate Outside(c: Pc) { c.Idle? || c.ClearNext? || c.Swap? }

  ghost predicate Waiting(c: Pc) { c.SetLocked? || c.Link? || c.Spin? }

  /** The number of arrivals that have been granted the lock. */
  ghost function Granted(s: State, n: nat): nat
    requires Shaped(s, n)
  {
    if s.passed < |s.arrivals| && s.arrivals[s.passed] < n && !Waiting(s.pc[s.arrivals[s.passed]])
    then s.passed + 1 else s.passed
  }

  /** The thread behind position k has stored itself in the next field of the one at k. */
  ghost predicate Linked(s: State, n: nat, k: nat)
    requires Shaped(s, n)
  {
    k + 1 < |s.arrivals| && s.arrivals[k + 1] < n && s.pc[s.arrivals[k + 1]].Spin?
  }

  ghost predicate QueuedOk(s: State, n: nat, t: nat)
    requires Shaped(s, n) && t < n
  {
    var k, c := s.place[t], s.pc[t];
    && s.passed <= k < |s.arrivals| && s.arrivals[k] == t
    && s.next[t] == (if Linked(s, n, k) then Node(s.arrivals[k + 1]) else Null)
    && if k == s.passed then
         && !s.locked[t] && !c.SetLocked? && !c.Link?
         && (c.AwaitNext? ==> k + 1 < |s.arrivals|)
         && (c.ReadNext? || c.Unlock? ==> s.next[t].Node?)
         && (c.Unlock? ==> s.next[t] == Node(c.succ))
       else
         && Waiting(c)
         && s.locked[t] == !c.SetLocked?
         && (c.SetLocked? ==> c.prev == s.arrivals[k - 1])
         && (c.Link? ==> c.prev == s.arrivals[k - 1])
  }

  ghost predicate ThreadOk(s: State, n: nat, t: nat)
    requires Shaped(s, n) && t < n
  {
    if Outside(s.pc[t]) then !s.locked[t] && (s.pc[t].Swap? ==> s.next[t].Null?)
    else QueuedOk(s, n, t)
  }

  /** The thread at position k of the arrivals is queued there. */
  ghost predicate SlotOk(s: State, n: nat, k: nat)
    requires Shaped(s, n) && k < |s.arrivals|
  {
    s.arrivals[k] < n && !Outside(s.pc[s.arrivals[k]]) && s.place[s.arrivals[k]] == k
  }

  ghost predicate Inv(s: State, n: nat) {
    && Shaped(s, n)
    && s.passed <= |s.arrivals|
    && s.head == (if s.passed == |s.arrivals| then Null else Node(s.arrivals[|s.arrivals| - 1]))
    && s.grants == s.arrivals[..Granted(s, n)]
    && (forall k :: s.passed <= k < |s.arrivals| ==> SlotOk(s, n, k))
    && (forall t :: 0 <= t < n ==> ThreadOk(s, n, t))
  }

  lemma InitInv(n: nat)
    ensures Inv(Init(n), n)
  {
  }

  lemma StepShaped(s: State, n: nat, t: nat)
    requires Inv(s, n) && t < n
    ensures Shaped(Step(s, n, t), n)
  {
    var r := Step(s, n, t);
    assert ThreadsIn(s, n, t) && ThreadOk(s, n, t);
    if s.passed < |s.arrivals| { assert SlotOk(s, n, |s.arrivals| - 1); }
    forall u | 0 <= u < n ensures ThreadsIn(r, n, u) { assert ThreadsIn(s, n, u); }
  }

  /** The neighbours in the arrival order of a queued thread are queued there. */
  lemma Neighbours(s: State, n: nat, t: nat)
    requires Inv(s, n) && t < n && !Outside(s.pc[t])
    ensures QueuedOk(s, n, t)
    ensures s.place[t] > s.passed ==> SlotOk(s, n, s.place[t] - 1) && QueuedOk(s, n, s.arrivals[s.place[t] - 1])
    ensures s.place[t] + 1 < |s.arrivals| ==> SlotOk(s, n, s.place[t] + 1) && QueuedOk(s, n, s.arrivals[s.place[t] + 1])
  {
    assert ThreadOk(s, n, t);
    var k := s.place[t];
    if k > s.passed {
      assert SlotOk(s, n, k - 1);
      assert ThreadOk(s, n, s.arrivals[k - 1]);
    }
    if k + 1 < |s.arrivals| {
      assert SlotOk(s, n, k + 1);
      assert ThreadOk(s, n, s.arrivals[k + 1]);
    }
  }

  /** A step of t keeps what holds of t itself. */
  lemma StepSelfOutside(s: State, n: nat, t: nat)
    requires Inv(s, n) && t < n && Shaped(Step(s, n, t), n) && Outside(s.pc[t])
    ensures ThreadOk(Step(s, n, t), n, t)
  {
    assert ThreadOk(s, n, t);
  }

  lemma StepSelfInside(s: State, n: nat, t: nat)
    requires Inv(s, n) && t < n && Shaped(Step(s, n, t), n) && !Outside(s.pc[t])
    ensures ThreadOk(Step(s, n, t), n, t)
  {
    assert ThreadOk(s, n, t);
    Neighbours(s, n, t);
  }

  lemma StepSelf(s: State, n: nat, t: nat)
    requires Inv(s, n) && t < n && Shaped(Step(s, n, t), n)
    ensures ThreadOk(Step(s, n, t), n, t)
  {
    if Outside(s.pc[t]) { StepSelfOutside(s, n, t); } else { StepSelfInside(s, n, t); }
  }

  ghost predicate Leaving(s: State, n: nat, t: nat)
    requires Shaped(s, n) && t < n
  {
    s.pc[t].Unlock? || (s.pc[t].CasHead? && s.head == Node(t))
  }

  /** A step of t that stays outside the queue keeps what holds of another thread. */
  lemma StepOtherOutside(s: State, n: nat, t: nat, u: nat)
    requires Inv(s, n) && t < n && u < n && u != t && Shaped(Step(s, n, t), n)
    requires s.pc[t].Idle? || s.pc[t].ClearNext?
    ensures ThreadOk(Step(s, n, t), n, u)
  {
    assert ThreadOk(s, n, u);
    if !Outside(s.pc[u]) { Neighbours(s, n, u); }
  }

  /** A step of t that stays inside the queue keeps what holds of another thread. */
  lemma StepOtherInside(s: State, n: nat, t: nat, u: nat)
    requires Inv(s, n) && t < n && u < n && u != t && Shaped(Step(s, n, t), n)
    requires !Outside(s.pc[t]) && !Leaving(s, n, t) && !s.pc[t].Link?
    ensures ThreadOk(Step(s, n, t), n, u)
  {
    assert ThreadOk(s, n, t) && ThreadOk(s, n, u);
    if !Outside(s.pc[u]) { Neighbours(s, n, u); }
  }

  lemma StepOtherSwap(s: State, n: nat, t: nat, u: nat)
    requires Inv(s, n) && t < n && u < n && u != t && Shaped(Step(s, n, t), n)
    requires s.pc[t].Swap?
    ensures ThreadOk(Step(s, n, t), n, u)
  {
    assert ThreadOk(s, n, u);
    if !Outside(s.pc[u]) { Neighbours(s, n, u); }
  }

  lemma StepOtherLink(s: State, n: nat, t: nat, u: nat)
    requires Inv(s, n) && t < n && u < n && u != t && Shaped(Step(s, n, t), n)
    requires s.pc[t].Link?
    ensures ThreadOk(Step(s, n, t), n, u)
  {
    assert ThreadOk(s, n, u);
    Neighbours(s, n, t);
    if !Outside(s.pc[u]) { Neighbours(s, n, u); }
  }

  /** When the front leaves, its successor becomes the front with locked clear. */
  lemma StepOtherLeave(s: State, n: nat, t: nat, u: nat)
    requires Inv(s, n) && t < n && u < n && u != t && Shaped(Step(s, n, t), n)
    requires Leaving(s, n, t)
    ensures ThreadOk(Step(s, n, t), n, u)
  {
    assert ThreadOk(s, n, u);
    Neighbours(s, n, t);
    assert s.place[t] == s.passed;
    assert SlotOk(s, n, |s.arrivals| - 1);
    if !Outside(s.pc[u]) { Neighbours(s, n, u); }
  }

  lemma StepThreads(s: State, n: nat, t: nat, u: nat)
    requires Inv(s, n) && t < n && u < n && Shaped(Step(s, n, t), n)
    ensures ThreadOk(Step(s, n, t), n, u)
  {
    if u == t { StepSelf(s, n, t); }
    else if Leaving(s, n, t) { StepOtherLeave(s, n, t, u); }
    else if s.pc[t].Swap? { StepOtherSwap(s, n, t, u); }
    else if s.pc[t].Link? { StepOtherLink(s, n, t, u); }
    else if Outside(s.pc[t]) { StepOtherOutside(s, n, t, u); }
    else { StepOtherInside(s, n, t, u); }
  }

  lemma StepSlots(s: State, n: nat, t: nat)
    requires Inv(s, n) && t < n && Shaped(Step(s, n, t), n)
    ensures Step(s, n, t).passed <= |Step(s, n, t).arrivals|
    ensures forall k :: Step(s, n, t).passed <= k < |Step(s, n, t).arrivals| ==> SlotOk(Step(s, n, t), n, k)
  {
    var r := Step(s, n, t);
    assert ThreadOk(s, n, t);
    forall k | r.passed <= k < |r.arrivals| ensures SlotOk(r, n, k) {
      if k < |s.arrivals| { assert SlotOk(s, n, k); }
    }
  }

  /** The head names the last arrival. */
  lemma StepHead(s: State, n: nat, t: nat)
    requires Inv(s, n) && t < n && Shaped(Step(s, n, t), n)
    ensures var r := Step(s, n, t);
      r.passed <= |r.arrivals| && r.head == (if r.passed == |r.arrivals| then Null else Node(r.arrivals[|r.arrivals| - 1]))
  {
    assert ThreadOk(s, n, t);
    if s.passed < |s.arrivals| { assert SlotOk(s, n, |s.arrivals| - 1); }
  }

  /** The grants are the first arrivals in their order. */
  lemma StepGrants(s: State, n: nat, t: nat)
    requires Inv(s, n) && t < n && Shaped(Step(s, n, t), n) && Step(s, n, t).passed <= |Step(s, n, t).arrivals|
    ensures Step(s, n, t).grants == Step(s, n, t).arrivals[..Granted(Step(s, n, t), n)]
  {
    assert ThreadOk(s, n, t);
    if !Outside(s.pc[t]) { Neighbours(s, n, t); }
    if s.passed < |s.arrivals| {
      assert SlotOk(s, n, s.passed);
      assert ThreadOk(s, n, s.arrivals[s.passed]);
    }
  }

  lemma StepInv(s: State, n: nat, t: nat)
    requires Inv(s, n) && t < n
    ensures Inv(Step(s, n, t), n)
  {
    StepShaped(s, n, t);
    StepSlots(s, n, t);
    StepHead(s, n, t);
    StepGrants(s, n, t);
    forall u | 0 <= u < n ensures ThreadOk(Step(s, n, t), n, u) { StepThreads(s, n, t, u); }
  }

  // -------------------------------------------------------------------------------------
  // Runs

  ghost predicate Schedule(n: nat, sched: seq<nat>) {
    forall i :: 0 <= i < |sched| ==> sched[i] < n
  }

  /** The state after the threads of sched have taken one step each, in that order. */
  ghost function Run(n: nat, sched: seq<nat>): (s: State)
    requires Schedule(n, sched)
    ensures Inv(s, n)
  {
    if sched == [] then InitInv(n); Init(n)
    else
      var i := |sched| - 1;
      var s := Run(n, sched[..i]);
      StepInv(s, n, sched[i]);
      Step(s, n, sched[i])
  }

  /** The thread has been granted the lock and has not finished its release. */
  ghost predicate Holds(s: State, n: nat, t: nat)
    requires Shaped(s, n) && t < n
  {
    !Outside(s.pc[t]) && !Waiting(s.pc[t])
  }

  /** At most one thread holds the lock, under every schedule. */
  lemma MutualExclusion(n: nat, sched: seq<nat>, a: nat, b: nat)
    requires Schedule(n, sched) && a < n && b < n
    requires Holds(Run(n, sched), n, a) && Holds(Run(n, sched), n, b)
    ensures a == b
  {
    var s := Run(n, sched);
    assert ThreadOk(s, n, a) && ThreadOk(s, n, b);
  }

  /** The lock is granted in the order of the head exchanges, and nobody is skipped: the
      releases, the grants and the arrivals are prefixes of one another, one grant apart. */
  lemma FirstComeFirstServed(n: nat, sched: seq<nat>)
    requires Schedule(n, sched)
    ensures var s := Run(n, sched);
      s.grants <= s.arrivals && s.passed <= |s.grants| <= s.passed + 1
  {
  }

  /** The assertion at the entry of mcs_acquire holds, and the hand-over never follows a null next. */
  lemma NoFault(n: nat, sched: seq<nat>, t: nat)
    requires Schedule(n, sched) && t < n
    ensures Outside(Run(n, sched).pc[t]) ==> !Run(n, sched).locked[t]
    ensures Run(n, sched).pc[t].ReadNext? ==> Run(n, sched).next[t].Node?
  {
    var s := Run(n, sched);
    assert ThreadOk(s, n, t);
  }

  /** No hand-over is lost: while any thread is queued, the first or the second in line has a
      step that changes the state, so waiting is never waiting for nobody. */
  lemma NoLostHandOver(n: nat, sched: seq<nat>, w: nat) returns (u: nat)
    requires Schedule(n, sched) && w < n && !Outside(Run(n, sched).pc[w])
    ensures var s := Run(n, sched);
      && u < n && !Outside(s.pc[u]) && s.place[u] <= s.passed + 1
      && Step(s, n, u).pc[u] != s.pc[u]
  {
    var s := Run(n, sched);
    assert ThreadOk(s, n, w);
    assert SlotOk(s, n, s.passed);
    u := s.arrivals[s.passed];
    Neighbours(s, n, u);
    if s.pc[u].AwaitNext? && s.next[u].Null? {
      u := s.arrivals[s.passed + 1];
    }
  }

  // -------------------------------------------------------------------------------------
  // Every step goes on

  /** A thread stays where it is only while its locked flag is set, or while it waits for a successor
      that has not linked itself yet. */
  ghost predicate MustWait(s: State, n: nat, t: nat)
    requires Shaped(s, n) && t < n
  {
    (s.pc[t].Spin? && s.locked[t]) || (s.pc[t].AwaitNext? && s.next[t].Null?)
  }

  lemma WaitsOnlyIf(n: nat, sched: seq<nat>, t: nat)
    requires Schedule(n, sched) && t < n
    ensures var s := Run(n, sched); Step(s, n, t).pc[t] == s.pc[t] <==> MustWait(s, n, t)
    ensures var s := Run(n, sched); MustWait(s, n, t) ==> Step(s, n, t) == s
  {
    var s := Run(n, sched);
    assert ThreadOk(s, n, t);
  }

  /** The place of a program point in mcs_acquire and mcs_release. */
  ghost function Rank(c: Pc): nat {
    match c
    case Idle => 0 case ClearNext => 1 case Swap => 2 case SetLocked(_) => 3 case Link(_) => 4 case Spin => 5
    case Critical => 6 case TestNext => 7 case CasHead => 8 case AwaitNext => 9 case ReadNext => 10 case Unlock(_) => 11
  }

  /** A step that does not wait goes further, or ends the release and counts it; the first two steps
      after the release of a thread and its exchange of the head do not depend on the others. */
  lemma StepGoesOn(n: nat, sched: seq<nat>, t: nat)
    requires Schedule(n, sched) && t < n && !MustWait(Run(n, sched), n, t)
    ensures var s, r := Run(n, sched), Step(Run(n, sched), n, t);
      Rank(r.pc[t]) > Rank(s.pc[t]) || (Holds(s, n, t) && r.pc[t].Idle? && r.passed == s.passed + 1)
    ensures var s, r := Run(n, sched), Step(Run(n, sched), n, t); Outside(s.pc[t]) ==> Rank(r.pc[t]) == Rank(s.pc[t]) + 1 || s.pc[t].Swap?
  {
    var s := Run(n, sched);
    assert ThreadOk(s, n, t);
  }

  /** The exchange puts the thread last in line; when nobody is queued it holds the lock at once, and
      only then. */
  lemma ExchangeQueues(n: nat, sched: seq<nat>, t: nat)
    requires Schedule(n, sched) && t < n && Run(n, sched).pc[t].Swap?
    ensures var s, r := Run(n, sched), Step(Run(n, sched), n, t);
      && r.arrivals == s.arrivals + [t] && !Outside(r.pc[t]) && r.place[t] == |s.arrivals|
      && (Shaped(r, n) && Holds(r, n, t) <==> s.passed == |s.arrivals|)
  {
    var s := Run(n, sched);
    StepInv(s, n, t);
  }

  /** How often thread t takes a step. */
  ghost function Steps(sched: seq<nat>, t: nat): nat {
    if sched == [] then 0 else Steps(sched[..|sched| - 1], t) + if sched[|sched| - 1] == t then 1 else 0
  }

  /** When every own step leads one point further up to point 2, point 2 is left with the third own
      step at the latest. */
  lemma {:induction false} ThirdStep(ranks: seq<nat>, more: seq<nat>, t: nat) returns (k: nat)
    requires |ranks| == |more| + 1 && ranks[0] <= 2 && Steps(more, t) >= 3 - ranks[0]
    requires forall i :: 0 <= i < |more| && ranks[i] <= 2 && (more[i] == t ==> ranks[i] < 2) ==>
               ranks[i + 1] == ranks[i] + if more[i] == t then 1 else 0
    ensures k < |more| && more[k] == t && ranks[k] == 2 && Steps(more[..k], t) == 2 - ranks[0]
  {
    var last := |more| - 1;
    if Steps(more[..last], t) >= 3 - ranks[0] {
      k := ThirdStep(ranks[..|more|], more[..last], t);
      assert more[..last][..k] == more[..k];
    } else {
      RanksRise(ranks[..|more|], more[..last], t);
      k := last;
    }
  }

  lemma {:induction false} RanksRise(ranks: seq<nat>, more: seq<nat>, t: nat)
    requires |ranks| == |more| + 1 && ranks[0] <= 2 && Steps(more, t) <= 2 - ranks[0]
    requires forall i :: 0 <= i < |more| && ranks[i] <= 2 && (more[i] == t ==> ranks[i] < 2) ==>
               ranks[i + 1] == ranks[i] + if more[i] == t then 1 else 0
    ensures ranks[|more|] == ranks[0] + Steps(more, t)
  {
    if more != [] {
      var last := |more| - 1;
      RanksRise(ranks[..|more|], more[..last], t);
      assert ranks[last] == ranks[0] + Steps(more[..last], t);
    }
  }

  /** Where thread t stands after i steps of the continuation. */
  ghost function RankAt(n: nat, sched: seq<nat>, more: seq<nat>, t: nat, i: nat): nat
    requires Schedule(n, sched) && Schedule(n, more) && t < n && i <= |more|
  {
    Rank(Run(n, sched + more[..i]).pc[t])
  }

  lemma NextRun(n: nat, sched: seq<nat>, more: seq<nat>, i: nat)
    requires Schedule(n, sched) && Schedule(n, more) && i < |more|
    ensures Run(n, sched + more[..i + 1]) == Step(Run(n, sched + more[..i]), n, more[i])
  {
    assert sched + more[..i + 1] == (sched + more[..i]) + [more[i]];
    assert (sched + more[..i + 1])[..|sched| + i] == sched + more[..i];
  }

  lemma OutsideStep(s: State, n: nat, t: nat, u: nat)
    requires Inv(s, n) && t < n && u < n && Rank(s.pc[t]) <= 2 && (u == t ==> Rank(s.pc[t]) < 2)
    ensures Rank(Step(s, n, u).pc[t]) == Rank(s.pc[t]) + if u == t then 1 else 0
  {
  }

  lemma RankNext(n: nat, sched: seq<nat>, more: seq<nat>, t: nat, i: nat)
    requires Schedule(n, sched) && Schedule(n, more) && t < n && i < |more|
    requires RankAt(n, sched, more, t, i) <= 2 && (more[i] == t ==> RankAt(n, sched, more, t, i) < 2)
    ensures RankAt(n, sched, more, t, i + 1) == RankAt(n, sched, more, t, i) + if more[i] == t then 1 else 0
  {
    NextRun(n, sched, more, i);
    OutsideStep(Run(n, sched + more[..i]), n, t, more[i]);
  }

  ghost function Ranks(n: nat, sched: seq<nat>, more: seq<nat>, t: nat): (ranks: seq<nat>)
    requires Schedule(n, sched) && Schedule(n, more) && t < n
    ensures |ranks| == |more| + 1 && forall i :: 0 <= i <= |more| ==> ranks[i] == RankAt(n, sched, more, t, i)
  {
    seq(|more| + 1, i requires 0 <= i <= |more| => RankAt(n, sched, more, t, i))
  }

  lemma RanksOk(n: nat, sched: seq<nat>, more: seq<nat>, t: nat)
    requires Schedule(n, sched) && Schedule(n, more) && t < n
    ensures var ranks := Ranks(n, sched, more, t);
      forall i :: 0 <= i < |more| && ranks[i] <= 2 && (more[i] == t ==> ranks[i] < 2) ==>
        ranks[i + 1] == ranks[i] + if more[i] == t then 1 else 0
  {
    var ranks := Ranks(n, sched, more, t);
    forall i | 0 <= i < |more| && ranks[i] <= 2 && (more[i] == t ==> ranks[i] < 2)
      ensures ranks[i + 1] == ranks[i] + if more[i] == t then 1 else 0
    {
      RankNext(n, sched, more, t, i);
    }
  }

  /** After the exchange with the k-th step of the continuation. */
  ghost predicate ArrivesAt(n: nat, sched: seq<nat>, more: seq<nat>, t: nat, k: nat)
    requires Schedule(n, sched) && Schedule(n, more) && t < n && k < |more|
  {
    var s, r := Run(n, sched + more[..k]), Run(n, sched + more[..k + 1]);
    r.arrivals == s.arrivals + [t] && !Outside(r.pc[t]) && (Holds(r, n, t) <==> s.passed == |s.arrivals|)
  }

  lemma ArrivalAt(n: nat, sched: seq<nat>, more: seq<nat>, t: nat, k: nat)
    requires Schedule(n, sched) && Schedule(n, more) && t < n && k < |more| && more[k] == t && RankAt(n, sched, more, t, k) == 2
    ensures ArrivesAt(n, sched, more, t, k)
  {
    NextRun(n, sched, more, k);
    ExchangeQueues(n, sched + more[..k], t);
  }

  /** A thread outside the queue exchanges the head with its third step at the latest, whatever the
      others do meanwhile.  Then it is last in line, and if nobody was queued it holds the lock. */
  lemma ArrivesSoon(n: nat, sched: seq<nat>, more: seq<nat>, t: nat) returns (k: nat)
    requires Schedule(n, sched) && Schedule(n, more) && t < n && Outside(Run(n, sched).pc[t]) && Steps(more, t) >= 3
    ensures k < |more| && more[k] == t && Steps(more[..k], t) <= 2 && ArrivesAt(n, sched, more, t, k)
  {
    assert sched + more[..0] == sched;
    var ranks := Ranks(n, sched, more, t);
    RanksOk(n, sched, more, t);
    assert ranks[0] == RankAt(n, sched, more, t, 0);
    k := ThirdStep(ranks, more, t);
    ArrivalAt(n, sched, more, t, k);
  }

  // -------------------------------------------------------------------------------------
  // The lock refines a queue of waiting threads whose first member may be served.

  datatype Abstract = Abstract(queue: seq<nat>, served: bool)

  ghost function Abs(s: State, n: nat): Abstract
    requires Inv(s, n)
  {
    Abstract(s.arrivals[s.passed..], Granted(s, n) > s.passed)
  }

  /** One step of a first-in first-out lock taken by thread t: it gets in line and is served at once if
      nobody is there, it is served, it leaves, or nothing happens. */
  datatype Action = Enqueue | Serve | Leave | Nothing

  ghost predicate AbstractStep(a: Abstract, b: Abstract, t: nat, act: Action) {
    match act
    case Enqueue => t !in a.queue && b == Abstract(a.queue + [t], a.queue == [] || a.served)
    case Serve => a.queue != [] && a.queue[0] == t && !a.served && b == a.(served := true)
    case Leave => a.queue != [] && a.queue[0] == t && a.served && b == Abstract(a.queue[1..], false)
    case Nothing => b == a
  }

  /** Which of them a step of the lock is: the exchange of the head gets in line, seeing the flag clear
      is being served, and clearing the head or the flag of the successor leaves. */
  ghost function ActionOf(s: State, n: nat, t: nat): Action
    requires Shaped(s, n) && t < n
  {
    if s.pc[t].Swap? then Enqueue
    else if s.pc[t].Spin? && !s.locked[t] then Serve
    else if Leaving(s, n, t) then Leave
    else Nothing
  }

  lemma RefinesSwap(n: nat, s: State, t: nat)
    requires Inv(s, n) && t < n && s.pc[t].Swap? && Inv(Step(s, n, t), n)
    ensures AbstractStep(Abs(s, n), Abs(Step(s, n, t), n), t, ActionOf(s, n, t))
  {
    var r := Step(s, n, t);
    var q := s.arrivals[s.passed..];
    forall k | s.passed <= k < |s.arrivals| ensures s.arrivals[k] != t { assert SlotOk(s, n, k); }
    assert r.arrivals == s.arrivals + [t] && r.passed == s.passed;
    assert r.arrivals[r.passed..] == q + [t];
    assert q == [] <==> s.head.Null?;
    if q != [] { assert r.arrivals[r.passed] == s.arrivals[s.passed] == q[0] != t; }
  }

  lemma RefinesLeave(n: nat, s: State, t: nat)
    requires Inv(s, n) && t < n && !Outside(s.pc[t]) && Leaving(s, n, t) && Inv(Step(s, n, t), n)
    ensures AbstractStep(Abs(s, n), Abs(Step(s, n, t), n), t, ActionOf(s, n, t))
  {
    var r := Step(s, n, t);
    Neighbours(s, n, t);
    assert SlotOk(s, n, s.passed);
    assert s.arrivals[s.passed..][0] == s.arrivals[s.passed] == t;
    assert r.arrivals[r.passed..] == s.arrivals[s.passed..][1..];
    if r.passed < |r.arrivals| {
      assert SlotOk(s, n, r.passed);
      assert ThreadOk(s, n, s.arrivals[r.passed]);
    }
  }

  lemma RefinesQueued(n: nat, s: State, t: nat)
    requires Inv(s, n) && t < n && !Outside(s.pc[t]) && !Leaving(s, n, t) && Inv(Step(s, n, t), n)
    ensures AbstractStep(Abs(s, n), Abs(Step(s, n, t), n), t, ActionOf(s, n, t))
  {
    Neighbours(s, n, t);
    assert SlotOk(s, n, s.passed);
    assert ThreadOk(s, n, s.arrivals[s.passed]);
    assert s.arrivals[s.passed..][0] == s.arrivals[s.passed];
  }

  /** Every step of the lock is the step of the queue that its program point stands for. */
  lemma Refines(n: nat, s: State, t: nat)
    requires Inv(s, n) && t < n
    ensures Inv(Step(s, n, t), n) && AbstractStep(Abs(s, n), Abs(Step(s, n, t), n), t, ActionOf(s, n, t))
  {
    StepInv(s, n, t);
    if s.pc[t].Swap? { RefinesSwap(n, s, t); }
    else if Outside(s.pc[t]) {
      if s.passed < |s.arrivals| { assert SlotOk(s, n, s.passed); }
    }
    else if Leaving(s, n, t) { RefinesLeave(n, s, t); }
    else { RefinesQueued(n, s, t); }
  }
}
