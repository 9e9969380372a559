/** The task queues of the MapReduce runtime: dequeuing with stealing, in a phase without enqueues. */
module TaskQueue {
  import opened Arithmetic
  import opened LinkedList

  // -------------------------------------------------------------------------------------
  // One queue

  /** tq_elem_into_free_seq: move the head of the queue to the tail of the free queue. */
  method ElemIntoFree(queue: List, free: List) returns (e: Node?)
    requires queue != free && queue.Valid() && free.Valid()
    requires queue.dummy != free.dummy && queue.dummy !in free.elems && free.dummy !in queue.elems
    requires forall i, j :: 0 <= i < |queue.elems| && 0 <= j < |free.elems| ==> queue.elems[i] != free.elems[j]
    modifies queue, queue.dummy, queue.elems, free, free.dummy, free.elems
    ensures queue.Valid() && free.Valid()
    ensures old(queue.elems) == [] ==> e == null && queue.elems == [] && free.elems == old(free.elems)
    ensures old(queue.elems) != [] ==>
      e == old(queue.elems)[0] && queue.elems == old(queue.elems)[1..] && free.elems == old(free.elems) + [e]
  {
    assert forall j :: 0 <= j < |free.elems| ==> free.elems[j] !in queue.elems;
    e := queue.RemoveHead();
    assert free.Valid();
    if e != null {
      label taken:
      assert queue.dummy != e && e !in queue.elems;
      free.AddTail(e);
      assert forall i :: 0 <= i < |queue.elems| ==> queue.elems[i] !in old@taken(free.elems);
    }
  }

  // -------------------------------------------------------------------------------------
  // The state machine: a step is one access to a queue under its lock

  /** Scanning(index, i, seen): the search began at queue index, is at queue i, and has found seen
      queues empty.  Holding: a task has been taken but not yet returned. */
  datatype Worker<T> = Idle | Scanning(index: nat, i: nat, seen: nat) | Holding(task: T)

  /** returned is the sequence of tasks that calls have returned. */
  datatype State<T> = State(queues: seq<seq<T>>, free: seq<seq<T>>, worker: seq<Worker<T>>, returned: seq<T>)

  ghost predicate Shape<T>(s: State<T>) { |s.queues| > 0 && |s.free| == |s.queues| }

  ghost predicate Call<T>(s: State<T>, r: State<T>, p: nat, index: nat)
    requires Shape(s) && p < |s.worker|
  {
    s.worker[p].Idle? && index < |s.queues| && r == s.(worker := s.worker[p := Scanning(index, index, 0)])
  }

  ghost predicate Take<T>(s: State<T>, r: State<T>, p: nat)
    requires Shape(s) && p < |s.worker|
  {
    && s.worker[p].Scanning? && s.worker[p].i < |s.queues|
    && var i := s.worker[p].i;
    && s.queues[i] != []
    && r == s.(queues := s.queues[i := s.queues[i][1..]], free := s.free[i := s.free[i] + [s.queues[i][0]]],
               worker := s.worker[p := Holding(s.queues[i][0])])
  }

  /** The queue is empty: go on to the next one, or give up when that is where the search began. */
  ghost predicate Skip<T>(s: State<T>, r: State<T>, p: nat)
    requires Shape(s) && p < |s.worker|
  {
    && s.worker[p].Scanning? && s.worker[p].i < |s.queues| && s.queues[s.worker[p].i] == []
    && var w, next := s.worker[p], (s.worker[p].i + 1) % |s.queues|;
    && r == s.(worker := s.worker[p := if next == w.index then Idle else Scanning(w.index, next, w.seen + 1)])
  }

  ghost predicate Return<T>(s: State<T>, r: State<T>, p: nat)
    requires p < |s.worker|
  {
    s.worker[p].Holding? && r == s.(worker := s.worker[p := Idle], returned := s.returned + [s.worker[p].task])
  }

  ghost predicate StepOf<T>(s: State<T>, r: State<T>, p: nat)
    requires Shape(s) && p < |s.worker|
  {
    (exists index :: Call(s, r, p, index)) || Take(s, r, p) || Skip(s, r, p) || Return(s, r, p)
  }

  /** The call of worker p is about to return without a task. */
  ghost predicate GivesUp<T>(s: State<T>, r: State<T>, p: nat)
    requires Shape(s) && p < |s.worker| == |r.worker|
  {
    Skip(s, r, p) && r.worker[p].Idle?
  }

  // -------------------------------------------------------------------------------------
  // A search that gives up has found every queue empty

  /** The k-th queue of the search. */
  ghost function Visited(index: nat, k: nat, n: nat): nat
    requires n > 0
  {
    (index + k) % n
  }

  ghost predicate SearchOk<T>(s: State<T>, p: nat)
    requires Shape(s) && p < |s.worker|
  {
    match s.worker[p]
    case Scanning(index, i, seen) =>
      && index < |s.queues| && seen < |s.queues| && i == Visited(index, seen, |s.queues|)
      && forall k :: 0 <= k < seen ==> s.queues[Visited(index, k, |s.queues|)] == []
    case _ => true
  }

  lemma NextVisited(index: nat, seen: nat, n: nat)
    requires index < n && seen < n
    ensures Visited(index, seen + 1, n) == (Visited(index, seen, n) + 1) % n
    ensures Visited(index, seen + 1, n) == index <==> seen + 1 == n
  {
    if index + seen + 1 < n {
      QuotientUnique(index + seen, 0, n, index + seen);
      QuotientUnique(index + seen + 1, 0, n, index + seen + 1);
    } else if index + seen < n {
      QuotientUnique(index + seen, 0, n, index + seen);
      QuotientUnique(index + seen + 1, 1, n, 0);
    } else {
      QuotientUnique(index + seen, 1, n, index + seen - n);
      QuotientUnique(index + seen + 1, 1, n, index + seen + 1 - n);
      QuotientUnique(index + seen - n + 1, 0, n, index + seen - n + 1);
    }
  }

  lemma AllVisited(index: nat, j: nat, n: nat) returns (k: nat)
    requires index < n && j < n
    ensures k < n && Visited(index, k, n) == j
  {
    if index <= j { k := j - index; QuotientUnique(j, 0, n, j); }
    else { k := j + n - index; QuotientUnique(j + n, 1, n, j); }
  }

  /** When a dequeue returns without a task, every queue is empty at that moment. */
  lemma GiveUpMeansEmpty<T>(s: State<T>, r: State<T>, p: nat, j: nat)
    requires Shape(s) && p < |s.worker| == |r.worker| && SearchOk(s, p) && GivesUp(s, r, p) && j < |s.queues|
    ensures s.queues[j] == [] && r.queues == s.queues
  {
    var w, n := s.worker[p], |s.queues|;
    NextVisited(w.index, w.seen, n);
    var k := AllVisited(w.index, j, n);
    if k < w.seen { assert s.queues[Visited(w.index, k, n)] == []; }
  }

  // -------------------------------------------------------------------------------------
  // No task is lost or returned twice

  ghost function Queued<T>(queues: seq<seq<T>>): multiset<T> {
    if queues == [] then multiset{} else Queued(queues[..|queues| - 1]) + multiset(queues[|queues| - 1])
  }

  ghost function Held<T>(worker: seq<Worker<T>>): multiset<T> {
    if worker == [] then multiset{}
    else Held(worker[..|worker| - 1]) + Holds(worker[|worker| - 1])
  }

  ghost function Holds<T>(w: Worker<T>): multiset<T> { if w.Holding? then multiset{w.task} else multiset{} }

  lemma Exchange<T>(a: multiset<T>, x: multiset<T>, b: multiset<T>, y: multiset<T>, c: multiset<T>)
    requires a + x == b + y
    ensures a + c + x == b + c + y
  {
    assert a + c + x == a + x + c;
    assert b + c + y == b + y + c;
  }

  lemma {:induction false} QueuedUpdate<T>(queues: seq<seq<T>>, i: nat, q: seq<T>)
    requires i < |queues|
    ensures Queued(queues[i := q]) + multiset(queues[i]) == Queued(queues) + multiset(q)
  {
    var last := |queues| - 1;
    if i < last {
      QueuedUpdate(queues[..last], i, q);
      assert queues[i := q][..last] == queues[..last][i := q];
      Exchange(Queued(queues[..last][i := q]), multiset(queues[i]), Queued(queues[..last]), multiset(q), multiset(queues[last]));
    } else {
      assert queues[i := q][..last] == queues[..last];
    }
  }

  lemma {:induction false} HeldUpdate<T>(worker: seq<Worker<T>>, p: nat, w: Worker<T>)
    requires p < |worker|
    ensures Held(worker[p := w]) + Holds(worker[p]) == Held(worker) + Holds(w)
  {
    var last := |worker| - 1;
    if p < last {
      HeldUpdate(worker[..last], p, w);
      assert worker[p := w][..last] == worker[..last][p := w];
      Exchange(Held(worker[..last][p := w]), Holds(worker[p]), Held(worker[..last]), Holds(w), Holds(worker[last]));
    } else {
      assert worker[p := w][..last] == worker[..last];
    }
  }

  /** All tasks: those in queues, those taken but not returned, those returned. */
  ghost function Tasks<T>(s: State<T>): multiset<T> { Queued(s.queues) + Held(s.worker) + multiset(s.returned) }

  lemma TakeHead<T>(q: seq<T>)
    requires q != []
    ensures multiset(q) == multiset(q[1..]) + multiset{q[0]}
  {
    assert q == [q[0]] + q[1..];
  }

  /** What one side loses the other gains. */
  lemma Handed<T>(a: multiset<T>, a': multiset<T>, b: multiset<T>, b': multiset<T>, rest: multiset<T>, x: multiset<T>)
    requires a' + (rest + x) == a + rest && b' == b + x
    ensures a' + b' == a + b
  {
    assert a' + (rest + x) == a' + x + rest;
    assert a' + x == a' + x + rest - rest == a + rest - rest == a;
    assert a' + b' == a' + x + b;
  }

  lemma TakeKeepsTasks<T>(s: State<T>, r: State<T>, p: nat)
    requires Shape(s) && p < |s.worker| && Take(s, r, p)
    ensures Queued(r.queues) + Held(r.worker) == Queued(s.queues) + Held(s.worker)
  {
    var i := s.worker[p].i;
    TakeHead(s.queues[i]);
    QueuedUpdate(s.queues, i, s.queues[i][1..]);
    HeldUpdate(s.worker, p, Holding(s.queues[i][0]));
    Handed(Queued(s.queues), Queued(r.queues), Held(s.worker), Held(r.worker), multiset(s.queues[i][1..]), multiset{s.queues[i][0]});
  }

  lemma ReturnKeepsTasks<T>(s: State<T>, r: State<T>, p: nat)
    requires p < |s.worker| && Return(s, r, p)
    ensures Held(r.worker) + multiset(r.returned) == Held(s.worker) + multiset(s.returned)
  {
    HeldUpdate(s.worker, p, Idle);
    Handed(Held(s.worker), Held(r.worker), multiset(s.returned), multiset(r.returned), multiset{}, multiset{s.worker[p].task});
  }

  lemma Regroup<T>(q: multiset<T>, a: multiset<T>, b: multiset<T>, c: multiset<T>, d: multiset<T>)
    requires a + b == c + d
    ensures q + a + b == q + c + d
  {
    assert q + a + b == q + (a + b);
    assert q + c + d == q + (c + d);
  }

  lemma SearchKeepsHeld<T>(worker: seq<Worker<T>>, p: nat, w: Worker<T>)
    requires p < |worker| && !worker[p].Holding? && !w.Holding?
    ensures Held(worker[p := w]) == Held(worker)
  {
    HeldUpdate(worker, p, w);
    assert Held(worker[p := w]) == Held(worker[p := w]) + Holds(worker[p]);
    assert Held(worker) == Held(worker) + Holds(w);
  }

  lemma StepKeepsTasks<T>(s: State<T>, r: State<T>, p: nat)
    requires Shape(s) && p < |s.worker| && StepOf(s, r, p)
    ensures Tasks(r) == Tasks(s)
  {
    if Take(s, r, p) {
      TakeKeepsTasks(s, r, p);
    } else if Return(s, r, p) {
      ReturnKeepsTasks(s, r, p);
      Regroup(Queued(s.queues), Held(r.worker), multiset(r.returned), Held(s.worker), multiset(s.returned));
    } else {
      SearchKeepsHeld(s.worker, p, r.worker[p]);
    }
  }

  lemma StepKeepsSearch<T>(s: State<T>, r: State<T>, p: nat, x: nat)
    requires Shape(s) && p < |s.worker| && x < |s.worker| && StepOf(s, r, p) && SearchOk(s, x)
    ensures Shape(r) && |r.worker| == |s.worker| && SearchOk(r, x)
  {
    if x == p && s.worker[p].Idle? && r.worker[p].Scanning? {
      QuotientUnique(r.worker[p].index, 0, |s.queues|, r.worker[p].index);
    }
    if x == p && s.worker[p].Scanning? { NextVisited(s.worker[p].index, s.worker[p].seen, |s.queues|); }
  }

  // -------------------------------------------------------------------------------------
  // Runs

  ghost predicate Init<T>(s: State<T>) {
    Shape(s) && s.returned == [] && forall p :: 0 <= p < |s.worker| ==> s.worker[p].Idle?
  }

  ghost predicate Step<T>(s: State<T>, r: State<T>) {
    Shape(s) && exists p :: 0 <= p < |s.worker| && StepOf(s, r, p)
  }

  ghost predicate IsRun<T>(run: seq<State<T>>) {
    |run| > 0 && Init(run[0]) && forall k :: 0 <= k < |run| - 1 ==> Step(run[k], run[k + 1])
  }

  ghost predicate NobodyHolds<T>(worker: seq<Worker<T>>) { forall p :: 0 <= p < |worker| ==> !worker[p].Holding? }

  lemma {:induction false} NothingHeld<T>(worker: seq<Worker<T>>)
    requires NobodyHolds(worker)
    ensures Held(worker) == multiset{}
  {
    if worker != [] { NothingHeld(worker[..|worker| - 1]); }
  }

  lemma {:induction false} RunInv<T>(run: seq<State<T>>, k: nat)
    requires IsRun(run) && k < |run|
    ensures Shape(run[k]) && |run[k].worker| == |run[0].worker| && Tasks(run[k]) == Queued(run[0].queues)
    ensures forall p :: 0 <= p < |run[k].worker| ==> SearchOk(run[k], p)
  {
    if k == 0 { NothingHeld(run[0].worker); }
    else {
      RunInv(run, k - 1);
      assert Step(run[k - 1], run[k - 1 + 1]);
      var p :| 0 <= p < |run[k - 1].worker| && StepOf(run[k - 1], run[k], p);
      StepKeepsTasks(run[k - 1], run[k], p);
      StepKeepsSearch(run[k - 1], run[k], p, p);
      forall x | 0 <= x < |run[k].worker| ensures SearchOk(run[k], x) { StepKeepsSearch(run[k - 1], run[k], p, x); }
    }
  }

  lemma {:induction false} NothingQueued<T>(queues: seq<seq<T>>)
    requires forall j :: 0 <= j < |queues| ==> queues[j] == []
    ensures Queued(queues) == multiset{}
  {
    if queues != [] { NothingQueued(queues[..|queues| - 1]); }
  }

  /** Every call returns a queued task, no task twice, in every interleaving. */
  lemma ReturnedTasksWereQueued<T>(run: seq<State<T>>, k: nat)
    requires IsRun(run) && k < |run|
    ensures multiset(run[k].returned) <= Queued(run[0].queues)
  {
    RunInv(run, k);
  }

  /** Once a call has found nothing and nobody holds a task, every task has been returned exactly once. */
  lemma AllTasksReturned<T>(run: seq<State<T>>, k: nat, p: nat)
    requires IsRun(run) && k + 1 < |run| && p < |run[k].worker| == |run[k + 1].worker| && Shape(run[k]) && GivesUp(run[k], run[k + 1], p)
    requires NobodyHolds(run[k + 1].worker)
    ensures multiset(run[k + 1].returned) == Queued(run[0].queues)
  {
    RunInv(run, k);
    RunInv(run, k + 1);
    forall j: nat | j < |run[k].queues| ensures run[k].queues[j] == [] { GiveUpMeansEmpty(run[k], run[k + 1], p, j); }
    NothingQueued(run[k].queues);
    NothingHeld(run[k + 1].worker);
  }

  // -------------------------------------------------------------------------------------
  // Order

  /** What has been added to free queue j since the start, followed by queue j, is queue j at the
      start: tasks leave a queue in its order, and each of them goes to the end of its free queue. */
  lemma {:induction false} TasksLeaveInOrder<T>(run: seq<State<T>>, k: nat, j: nat)
    requires IsRun(run) && k < |run| && j < |run[0].queues|
    ensures |run[k].queues| == |run[k].free| == |run[0].queues| == |run[0].free|
    ensures run[0].free[j] <= run[k].free[j]
    ensures run[k].free[j][|run[0].free[j]|..] + run[k].queues[j] == run[0].queues[j]
  {
    if k > 0 {
      TasksLeaveInOrder(run, k - 1, j);
      assert Step(run[k - 1], run[k - 1 + 1]);
      var p :| 0 <= p < |run[k - 1].worker| && StepOf(run[k - 1], run[k], p);
      OrderKept(run[k - 1], run[k], p, j, |run[0].free[j]|);
    }
  }

  lemma OrderKept<T>(s: State<T>, r: State<T>, p: nat, j: nat, n: nat)
    requires Shape(s) && p < |s.worker| && StepOf(s, r, p) && j < |s.queues| && n <= |s.free[j]|
    ensures |r.queues| == |r.free| == |s.queues| && s.free[j] <= r.free[j]
    ensures r.free[j][n..] + r.queues[j] == s.free[j][n..] + s.queues[j]
  {
    if Take(s, r, p) && s.worker[p].i == j {
      assert s.queues[j] == [s.queues[j][0]] + s.queues[j][1..];
      assert r.free[j][n..] == s.free[j][n..] + [s.queues[j][0]];
    }
  }

  // -------------------------------------------------------------------------------------
  // Every call ends

  /** How many more steps a call makes at most, among n queues. */
  ghost function StepsLeft<T>(w: Worker<T>, n: nat): int {
    match w
    case Idle => 0
    case Holding(_) => 1
    case Scanning(_, _, seen) => n - seen + 1
  }

  /** Every step of a call brings it nearer to its end, at most one look at each queue and the
      return, and the steps of the others do not delay it. */
  lemma CallAdvances<T>(s: State<T>, r: State<T>, p: nat, q: nat)
    requires Shape(s) && p < |s.worker| && q < |s.worker| && StepOf(s, r, p) && SearchOk(s, p)
    ensures |r.worker| == |s.worker| && |r.queues| == |s.queues|
    ensures q != p ==> r.worker[q] == s.worker[q]
    ensures s.worker[p].Idle? ==> StepsLeft(r.worker[p], |r.queues|) == |s.queues| + 1
    ensures !s.worker[p].Idle? ==> 0 <= StepsLeft(r.worker[p], |r.queues|) < StepsLeft(s.worker[p], |s.queues|)
  {
    if s.worker[p].Scanning? { NextVisited(s.worker[p].index, s.worker[p].seen, |s.queues|); }
  }

  /** Nobody has to wait for another worker. */
  lemma WorkerCanStep<T>(s: State<T>, p: nat) returns (r: State<T>)
    requires Shape(s) && p < |s.worker| && SearchOk(s, p)
    ensures StepOf(s, r, p)
  {
    match s.worker[p]
    case Idle =>
      r := s.(worker := s.worker[p := Scanning(0, 0, 0)]);
      assert Call(s, r, p, 0);
    case Scanning(index, i, seen) =>
      NextVisited(index, seen, |s.queues|);
      DivMod(index + seen, |s.queues|);
      if s.queues[i] == [] {
        var next := (i + 1) % |s.queues|;
        r := s.(worker := s.worker[p := if next == index then Idle else Scanning(index, next, seen + 1)]);
        assert Skip(s, r, p);
      } else {
        r := s.(queues := s.queues[i := s.queues[i][1..]], free := s.free[i := s.free[i] + [s.queues[i][0]]],
                worker := s.worker[p := Holding(s.queues[i][0])]);
        assert Take(s, r, p);
      }
    case Holding(task) =>
      r := s.(worker := s.worker[p := Idle], returned := s.returned + [task]);
      assert Return(s, r, p);
  }
}
