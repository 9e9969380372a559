/** The thread pool of the MapReduce runtime: rounds of work that end at a semaphore.

    A step is one semaphore operation or one access to shared memory.  All rounds use the same
    number of workers. */
module ThreadPool {
  import opened Arithmetic

  /** work(round, i) is the argument of worker i, fn what the workers compute. */
  datatype Config<!A, !R> = Config(n: nat, work: (nat, nat) -> A, fn: A -> R)

  /** Idle: waiting for the run semaphore.  Counted: the counter had this value after the increment. */
  datatype Worker<A, R> = Idle | Started | Running(arg: A) | Computed(result: R) | Stored | Counted(value: nat)

  /** Setting(i): arguments below i are set.  Posting(i): the first i workers are released. */
  datatype Master = Setting(i: nat) | Posting(i: nat) | Waiting

  /** counted[i] is the number of rounds that worker i has counted itself done in; posts is the
      number of times that the final semaphore has been posted. */
  datatype State<A, R> = State(master: Master, round: nat, args: seq<A>, rets: seq<R>, run: seq<nat>, done: nat, all: nat,
                               worker: seq<Worker<A, R>>, counted: seq<nat>, posts: nat)

  ghost predicate Shape<A, R>(c: Config<A, R>, s: State<A, R>) {
    c.n > 0 && |s.args| == |s.rets| == |s.run| == |s.worker| == |s.counted| == c.n
  }

  ghost predicate Init<A, R>(c: Config<A, R>, s: State<A, R>) {
    && Shape(c, s) && s.master == Setting(0) && s.round == 0 && s.all == 0 && s.posts == 0
    && forall i :: 0 <= i < c.n ==> s.run[i] == 0 && s.worker[i].Idle? && s.counted[i] == 0
  }

  // -------------------------------------------------------------------------------------
  // Steps

  /** tpool_set, tpool_begin and tpool_wait. */
  ghost predicate MasterStep<A, R>(c: Config<A, R>, s: State<A, R>, r: State<A, R>)
    requires Shape(c, s)
  {
    match s.master
    case Setting(i) =>
      if i < c.n then r == s.(args := s.args[i := c.work(s.round, i)], master := Setting(i + 1))
      else r == s.(done := 0, master := Posting(0))
    case Posting(i) =>
      if i < c.n then r == s.(run := s.run[i := s.run[i] + 1], master := Posting(i + 1)) else r == s.(master := Waiting)
    case Waiting => s.all > 0 && r == s.(all := s.all - 1, round := s.round + 1, master := Setting(0))
  }

  /** thread_loop. */
  ghost predicate WorkerStep<A, R>(c: Config<A, R>, s: State<A, R>, r: State<A, R>, i: nat)
    requires Shape(c, s) && i < c.n
  {
    match s.worker[i]
    case Idle => s.run[i] > 0 && r == s.(run := s.run[i := s.run[i] - 1], worker := s.worker[i := Started])
    case Started => r == s.(worker := s.worker[i := Running(s.args[i])])
    case Running(arg) => r == s.(worker := s.worker[i := Computed(c.fn(arg))])
    case Computed(result) => r == s.(rets := s.rets[i := result], worker := s.worker[i := Stored])
    case Stored => r == s.(done := s.done + 1, counted := s.counted[i := s.counted[i] + 1], worker := s.worker[i := Counted(s.done + 1)])
    case Counted(value) =>
      if value == c.n then r == s.(all := s.all + 1, posts := s.posts + 1, worker := s.worker[i := Idle])
      else r == s.(worker := s.worker[i := Idle])
  }

  ghost predicate Step<A(!new), R(!new)>(c: Config<A, R>, s: State<A, R>, r: State<A, R>) {
    Shape(c, s) && (MasterStep(c, s, r) || exists i :: 0 <= i < c.n && WorkerStep(c, s, r, i))
  }

  // -------------------------------------------------------------------------------------
  // The invariant

  /** How many of the first m workers have counted themselves in the given round. */
  ghost function Ahead(counted: seq<nat>, round: nat, m: nat): nat
    requires m <= |counted|
  {
    if m == 0 then 0 else Ahead(counted, round, m - 1) + if counted[m - 1] > round then 1 else 0
  }

  /** How many of the first m workers are about to post the final semaphore. */
  ghost function Posters<A, R>(worker: seq<Worker<A, R>>, n: nat, m: nat): nat
    requires m <= |worker|
  {
    if m == 0 then 0 else Posters(worker, n, m - 1) + if worker[m - 1] == Counted(n) then 1 else 0
  }

  /** The master has released worker i in this round. */
  ghost predicate Released(m: Master, i: nat) { m.Waiting? || (m.Posting? && i < m.i) }

  ghost predicate WorkerOk<A, R>(c: Config<A, R>, s: State<A, R>, i: nat)
    requires Shape(c, s) && i < c.n
  {
    var w, behind := s.worker[i], s.counted[i] == s.round;
    && (behind || s.counted[i] == s.round + 1)
    && (s.counted[i] > s.round ==> Released(s.master, i) && s.rets[i] == c.fn(c.work(s.round, i)))
    && s.run[i] + (if w.Idle? || w.Counted? then 0 else 1) == (if Released(s.master, i) && behind then 1 else 0)
    && (Released(s.master, i) || s.master.Posting? ==> s.args[i] == c.work(s.round, i))
    && (s.master.Setting? && i < s.master.i ==> s.args[i] == c.work(s.round, i))
    && (w.Running? ==> w.arg == c.work(s.round, i))
    && (w.Computed? ==> w.result == c.fn(c.work(s.round, i)))
    && (w.Stored? ==> s.rets[i] == c.fn(c.work(s.round, i)))
    && (w.Counted? && behind ==> w.value != c.n)
    && (s.counted[i] == s.round && s.round > 0 && !Released(s.master, i) ==> s.rets[i] == c.fn(c.work(s.round - 1, i)))
  }

  ghost predicate CountsOk<A, R>(c: Config<A, R>, s: State<A, R>)
    requires Shape(c, s)
  {
    var ahead := Ahead(s.counted, s.round, c.n);
    && (!s.master.Setting? ==> s.done == ahead)
    && (s.master.Setting? ==> ahead == 0)
    && s.all + Posters(s.worker, c.n, c.n) == (if ahead == c.n then 1 else 0)
    && s.posts == s.round + s.all
  }

  ghost predicate Inv<A, R>(c: Config<A, R>, s: State<A, R>) {
    Shape(c, s) && CountsOk(c, s) && forall i :: 0 <= i < c.n ==> WorkerOk(c, s, i)
  }

  // -------------------------------------------------------------------------------------
  // Counting

  lemma {:induction false} AheadUpdate(counted: seq<nat>, round: nat, m: nat, i: nat)
    requires m <= |counted| && i < |counted| && counted[i] == round
    ensures Ahead(counted[i := round + 1], round, m) == Ahead(counted, round, m) + if i < m then 1 else 0
  {
    if m > 0 { AheadUpdate(counted, round, m - 1, i); }
  }

  lemma {:induction false} AheadBound(counted: seq<nat>, round: nat, m: nat)
    requires m <= |counted|
    ensures Ahead(counted, round, m) <= m
    ensures Ahead(counted, round, m) == m ==> forall i :: 0 <= i < m ==> counted[i] > round
    ensures Ahead(counted, round, m) == 0 <==> forall i :: 0 <= i < m ==> counted[i] <= round
  {
    if m > 0 { AheadBound(counted, round, m - 1); }
  }

  lemma {:induction false} PostersUpdate<A, R>(worker: seq<Worker<A, R>>, n: nat, m: nat, i: nat, w: Worker<A, R>)
    requires m <= |worker| && i < |worker|
    ensures Posters(worker[i := w], n, m) + (if i < m && worker[i] == Counted(n) then 1 else 0) ==
            Posters(worker, n, m) + if i < m && w == Counted(n) then 1 else 0
  {
    if m > 0 { PostersUpdate(worker, n, m - 1, i, w); }
  }

  // -------------------------------------------------------------------------------------
  // Every step keeps the invariant

  lemma InitInv<A, R>(c: Config<A, R>, s: State<A, R>)
    requires Init(c, s)
    ensures Inv(c, s)
  {
    AheadBound(s.counted, 0, c.n);
    NoPosters(s.worker, c.n, c.n);
  }

  lemma {:induction false} NoPosters<A, R>(worker: seq<Worker<A, R>>, n: nat, m: nat)
    requires m <= |worker| && forall i :: 0 <= i < m ==> worker[i] != Counted(n)
    ensures Posters(worker, n, m) == 0
  {
    if m > 0 { NoPosters(worker, n, m - 1); }
  }

  /** A round ends only when every worker has counted itself. */
  lemma WaitingEnds<A, R>(c: Config<A, R>, s: State<A, R>, i: nat)
    requires Inv(c, s) && s.all > 0 && i < c.n
    ensures s.counted[i] == s.round + 1 && s.all == 1 && s.worker[i] != Counted(c.n)
  {
    AheadBound(s.counted, s.round, c.n);
    assert WorkerOk(c, s, i);
    if s.worker[i] == Counted(c.n) { PostersUpdate(s.worker, c.n, c.n, i, Idle); }
  }

  lemma MasterKept<A, R>(c: Config<A, R>, s: State<A, R>, r: State<A, R>)
    requires Inv(c, s) && MasterStep(c, s, r)
    ensures Inv(c, r)
  {
    forall i | 0 <= i < c.n ensures WorkerOk(c, r, i) {
      assert WorkerOk(c, s, i);
      if s.master.Waiting? { WaitingEnds(c, s, i); }
    }
    if s.master.Waiting? {
      forall i | 0 <= i < c.n ensures r.counted[i] <= r.round && s.worker[i] != Counted(c.n) { WaitingEnds(c, s, i); }
      NoPosters(s.worker, c.n, c.n);
    }
    AheadBound(r.counted, r.round, c.n);
  }

  lemma CountsKept<A, R>(c: Config<A, R>, s: State<A, R>, r: State<A, R>, i: nat)
    requires Inv(c, s) && i < c.n && WorkerStep(c, s, r, i)
    ensures CountsOk(c, r)
  {
    assert WorkerOk(c, s, i);
    AheadBound(s.counted, s.round, c.n);
    PostersUpdate(s.worker, c.n, c.n, i, r.worker[i]);
    if s.worker[i].Stored? { AheadUpdate(s.counted, s.round, c.n, i); }
    AheadBound(r.counted, r.round, c.n);
  }

  lemma OwnKept<A, R>(c: Config<A, R>, s: State<A, R>, r: State<A, R>, i: nat)
    requires Inv(c, s) && i < c.n && WorkerStep(c, s, r, i)
    ensures WorkerOk(c, r, i)
  {
    assert WorkerOk(c, s, i);
    AheadBound(s.counted, s.round, c.n);
  }

  lemma OtherKept<A, R>(c: Config<A, R>, s: State<A, R>, r: State<A, R>, i: nat, j: nat)
    requires Shape(c, s) && i < c.n && j < c.n && i != j && WorkerStep(c, s, r, i) && WorkerOk(c, s, j)
    ensures Shape(c, r) && WorkerOk(c, r, j)
  {
  }

  lemma WorkerKept<A, R>(c: Config<A, R>, s: State<A, R>, r: State<A, R>, i: nat)
    requires Inv(c, s) && i < c.n && WorkerStep(c, s, r, i)
    ensures Inv(c, r)
  {
    CountsKept(c, s, r, i);
    forall j | 0 <= j < c.n ensures WorkerOk(c, r, j) {
      if j == i { OwnKept(c, s, r, i); } else { assert WorkerOk(c, s, j); OtherKept(c, s, r, i, j); }
    }
  }

  // -------------------------------------------------------------------------------------
  // Runs

  ghost predicate IsRun<A(!new), R(!new)>(c: Config<A, R>, run: seq<State<A, R>>) {
    |run| > 0 && Init(c, run[0]) && forall k :: 0 <= k < |run| - 1 ==> Step(c, run[k], run[k + 1])
  }

  lemma {:induction false} RunInv<A(!new), R(!new)>(c: Config<A, R>, run: seq<State<A, R>>, k: nat)
    requires IsRun(c, run) && k < |run|
    ensures Inv(c, run[k])
  {
    if k == 0 { InitInv(c, run[0]); }
    else {
      RunInv(c, run, k - 1);
      assert Step(c, run[k - 1], run[k - 1 + 1]);
      if MasterStep(c, run[k - 1], run[k]) { MasterKept(c, run[k - 1], run[k]); }
      else {
        var i :| 0 <= i < c.n && WorkerStep(c, run[k - 1], run[k], i);
        WorkerKept(c, run[k - 1], run[k], i);
      }
    }
  }

  /** When tpool_wait returns, every worker has stored the result for its argument of this round,
      and the final semaphore has been posted once for every round so far. */
  lemma WaitReturnsResults<A(!new), R(!new)>(c: Config<A, R>, run: seq<State<A, R>>, k: nat, i: nat)
    requires IsRun(c, run) && k + 1 < |run| && run[k].master.Waiting? && run[k + 1].master.Setting? && i < c.n
    ensures |run[k + 1].rets| == c.n && run[k + 1].rets[i] == c.fn(c.work(run[k].round, i))
    ensures run[k + 1].round == run[k].round + 1 == run[k + 1].posts && run[k + 1].all == 0
  {
    RunInv(c, run, k);
    assert Step(c, run[k], run[k + 1]);
    WaitingEnds(c, run[k], i);
    assert WorkerOk(c, run[k], i);
  }

  /** The final semaphore never holds more than one post. */
  lemma PostedOnce<A(!new), R(!new)>(c: Config<A, R>, run: seq<State<A, R>>, k: nat)
    requires IsRun(c, run) && k < |run|
    ensures run[k].all <= 1 && run[k].posts == run[k].round + run[k].all
  {
    RunInv(c, run, k);
  }

  lemma {:induction false} SomePoster<A, R>(worker: seq<Worker<A, R>>, n: nat, m: nat) returns (i: nat)
    requires m <= |worker| && Posters(worker, n, m) > 0
    ensures i < m && worker[i] == Counted(n)
  {
    if worker[m - 1] == Counted(n) { i := m - 1; } else { i := SomePoster(worker, n, m - 1); }
  }

  lemma {:induction false} SomeBehind(counted: seq<nat>, round: nat, m: nat) returns (i: nat)
    requires m <= |counted| && Ahead(counted, round, m) < m
    ensures i < m && counted[i] <= round
  {
    if counted[m - 1] <= round { i := m - 1; } else { i := SomeBehind(counted, round, m - 1); }
  }

  lemma WorkerCanStep<A(!new), R(!new)>(c: Config<A, R>, s: State<A, R>, i: nat) returns (r: State<A, R>)
    requires Shape(c, s) && i < c.n && (s.worker[i].Idle? ==> s.run[i] > 0)
    ensures WorkerStep(c, s, r, i)
  {
    match s.worker[i]
    case Idle => r := s.(run := s.run[i := s.run[i] - 1], worker := s.worker[i := Started]);
    case Started => r := s.(worker := s.worker[i := Running(s.args[i])]);
    case Running(arg) => r := s.(worker := s.worker[i := Computed(c.fn(arg))]);
    case Computed(result) => r := s.(rets := s.rets[i := result], worker := s.worker[i := Stored]);
    case Stored => r := s.(done := s.done + 1, counted := s.counted[i := s.counted[i] + 1], worker := s.worker[i := Counted(s.done + 1)]);
    case Counted(value) =>
      r := if value == c.n then s.(all := s.all + 1, posts := s.posts + 1, worker := s.worker[i := Idle])
           else s.(worker := s.worker[i := Idle]);
  }

  /** No round gets stuck: in every state of every run there is a next step. */
  lemma NeverStuck<A(!new), R(!new)>(c: Config<A, R>, run: seq<State<A, R>>, k: nat) returns (r: State<A, R>)
    requires IsRun(c, run) && k < |run|
    ensures Step(c, run[k], r)
  {
    var s := run[k];
    RunInv(c, run, k);
    match s.master
    case Setting(i) =>
      r := if i < c.n then s.(args := s.args[i := c.work(s.round, i)], master := Setting(i + 1)) else s.(done := 0, master := Posting(0));
    case Posting(i) =>
      r := if i < c.n then s.(run := s.run[i := s.run[i] + 1], master := Posting(i + 1)) else s.(master := Waiting);
    case Waiting =>
      if s.all > 0 { r := s.(all := s.all - 1, round := s.round + 1, master := Setting(0)); }
      else {
        var i := StuckWorker(c, s);
        r := WorkerCanStep(c, s, i);
      }
  }

  lemma StuckWorker<A, R>(c: Config<A, R>, s: State<A, R>) returns (i: nat)
    requires Inv(c, s) && s.master.Waiting? && s.all == 0
    ensures i < c.n && (s.worker[i].Idle? ==> s.run[i] > 0)
  {
    AheadBound(s.counted, s.round, c.n);
    if Ahead(s.counted, s.round, c.n) == c.n { i := SomePoster(s.worker, c.n, c.n); }
    else {
      i := SomeBehind(s.counted, s.round, c.n);
      assert WorkerOk(c, s, i);
    }
  }

  // -------------------------------------------------------------------------------------
  // Every round ends

  /** The number of the place of the master in its round. */
  ghost function MasterAt(n: nat, m: Master): nat {
    match m
    case Setting(i) => i
    case Posting(i) => n + 1 + i
    case Waiting => 2 * n + 2
  }

  /** The number of steps that worker i has made: six for a round, the last of them after it has
      counted itself. */
  ghost function StepsOf<A, R>(w: Worker<A, R>, counted: nat): int {
    6 * counted + match w
                  case Idle => 0
                  case Started => 1
                  case Running(_) => 2
                  case Computed(_) => 3
                  case Stored => 4
                  case Counted(_) => -1
  }

  ghost function StepsOfAll<A, R>(worker: seq<Worker<A, R>>, counted: seq<nat>, m: nat): int
    requires m <= |worker| == |counted|
  {
    if m == 0 then 0 else StepsOfAll(worker, counted, m - 1) + StepsOf(worker[m - 1], counted[m - 1])
  }

  lemma {:induction false} StepsUpdate<A, R>(worker: seq<Worker<A, R>>, counted: seq<nat>, m: nat, i: nat, w: Worker<A, R>, k: nat)
    requires m <= |worker| == |counted| && i < |worker|
    ensures StepsOfAll(worker[i := w], counted[i := k], m) ==
            StepsOfAll(worker, counted, m) + if i < m then StepsOf(w, k) - StepsOf(worker[i], counted[i]) else 0
  {
    if m > 0 { StepsUpdate(worker, counted, m - 1, i, w, k); }
  }

  ghost function StepsMade<A, R>(c: Config<A, R>, s: State<A, R>): int
    requires Shape(c, s)
  {
    s.round * (2 * c.n + 3) + MasterAt(c.n, s.master) + StepsOfAll(s.worker, s.counted, c.n)
  }

  ghost predicate MasterOk(n: nat, m: Master) { (m.Setting? || m.Posting?) ==> m.i <= n }

  lemma MasterCounts<A, R>(c: Config<A, R>, s: State<A, R>, r: State<A, R>)
    requires Shape(c, s) && MasterOk(c.n, s.master) && MasterStep(c, s, r)
    ensures Shape(c, r) && MasterOk(c.n, r.master) && StepsMade(c, r) == StepsMade(c, s) + 1
  {
    if s.master.Waiting? { assert r.round * (2 * c.n + 3) == s.round * (2 * c.n + 3) + (2 * c.n + 3); }
  }

  lemma WorkerCounts<A, R>(c: Config<A, R>, s: State<A, R>, r: State<A, R>, i: nat)
    requires Shape(c, s) && i < c.n && WorkerStep(c, s, r, i)
    ensures Shape(c, r) && r.master == s.master && r.round == s.round
    ensures r.worker == s.worker[i := r.worker[i]] && r.counted == s.counted[i := r.counted[i]]
    ensures StepsOf(r.worker[i], r.counted[i]) == StepsOf(s.worker[i], s.counted[i]) + 1
  {
    assert s.counted[i := s.counted[i]] == s.counted;
  }

  lemma StepCounts<A(!new), R(!new)>(c: Config<A, R>, s: State<A, R>, r: State<A, R>)
    requires Shape(c, s) && MasterOk(c.n, s.master) && Step(c, s, r)
    ensures Shape(c, r) && MasterOk(c.n, r.master) && StepsMade(c, r) == StepsMade(c, s) + 1
  {
    if MasterStep(c, s, r) { MasterCounts(c, s, r); }
    else {
      var i :| 0 <= i < c.n && WorkerStep(c, s, r, i);
      WorkerCounts(c, s, r, i);
      StepsUpdate(s.worker, s.counted, c.n, i, r.worker[i], r.counted[i]);
    }
  }

  lemma {:induction false} InitSteps<A, R>(c: Config<A, R>, s: State<A, R>, m: nat)
    requires Init(c, s) && m <= c.n
    ensures StepsOfAll(s.worker, s.counted, m) == 0
  {
    if m > 0 { InitSteps(c, s, m - 1); }
  }

  lemma {:induction false} RunCounts<A(!new), R(!new)>(c: Config<A, R>, run: seq<State<A, R>>, k: nat)
    requires IsRun(c, run) && k < |run|
    ensures Shape(c, run[k]) && MasterOk(c.n, run[k].master) && StepsMade(c, run[k]) == k
  {
    if k == 0 { InitSteps(c, run[0], c.n); }
    else {
      RunCounts(c, run, k - 1);
      assert Step(c, run[k - 1], run[k - 1 + 1]);
      StepCounts(c, run[k - 1], run[k]);
    }
  }

  lemma {:induction false} StepsInRound<A, R>(c: Config<A, R>, s: State<A, R>, m: nat)
    requires Inv(c, s) && m <= c.n
    ensures 6 * (m * s.round) - m <= StepsOfAll(s.worker, s.counted, m) <= 6 * (m * s.round) + 6 * m
  {
    if m > 0 {
      StepsInRound(c, s, m - 1);
      assert WorkerOk(c, s, m - 1);
      assert m * s.round == (m - 1) * s.round + s.round;
    }
  }

  /** In every interleaving a round takes 8n + 3 steps, up to the last steps of workers that have
      already counted themselves: so every round ends. */
  lemma RoundsTake<A(!new), R(!new)>(c: Config<A, R>, run: seq<State<A, R>>, k: nat)
    requires IsRun(c, run) && k < |run|
    ensures run[k].round * (8 * c.n + 3) - c.n <= k < (run[k].round + 1) * (8 * c.n + 3)
  {
    var s := run[k];
    RunInv(c, run, k);
    RunCounts(c, run, k);
    StepsInRound(c, s, c.n);
    assert s.round * (8 * c.n + 3) == s.round * (2 * c.n + 3) + 6 * (c.n * s.round);
    assert (s.round + 1) * (8 * c.n + 3) == s.round * (8 * c.n + 3) + (8 * c.n + 3);
  }

  lemma RunGrows<A(!new), R(!new)>(c: Config<A, R>, run: seq<State<A, R>>, r: State<A, R>)
    requires IsRun(c, run) && Step(c, run[|run| - 1], r)
    ensures IsRun(c, run + [r])
  {
    forall k | 0 <= k < |run + [r]| - 1 ensures Step(c, (run + [r])[k], (run + [r])[k + 1]) {
      if k < |run| - 1 { assert Step(c, run[k], run[k + 1]); }
    }
  }

  /** Every run can be continued through any number of rounds. */
  lemma {:induction false} RoundsGoOn<A(!new), R(!new)>(c: Config<A, R>, run: seq<State<A, R>>, rounds: nat) returns (longer: seq<State<A, R>>)
    requires IsRun(c, run)
    ensures IsRun(c, longer) && run <= longer && longer[|longer| - 1].round >= rounds
    decreases rounds * (8 * c.n + 3) - |run|
  {
    var k := |run| - 1;
    RoundsTake(c, run, k);
    if run[k].round >= rounds { longer := run; }
    else {
      MulLe(run[k].round + 1, rounds, 8 * c.n + 3);
      var r := NeverStuck(c, run, k);
      RunGrows(c, run, r);
      longer := RoundsGoOn(c, run + [r], rounds);
    }
  }
}
