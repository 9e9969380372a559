/** Blocked LU factorization on P processors with two barriers per step.

    A task is one call of a kernel.  A processor executes the tasks it owns, phase by phase;
    the tasks of one phase may be taken in any order, and processors interleave freely between
    barriers. */
module LuParallel {
  import opened Arithmetic
  import opened LuFactor

  /** Both programs give block (I, J) to (I + J) % P.  The contiguous one uses other owners for
      the blocks below and right of the diagonal block of the current step. */
  datatype Config = Config(n: nat, bs: nat, procs: nat, contiguous: bool)

  predicate Valid(g: Config) { g.bs > 0 && g.procs > 0 }

  /** The number of block rows. */
  function Blocks(g: Config): nat
    requires Valid(g)
  {
    (g.n + g.bs - 1) / g.bs
  }

  /** The first row of block row I, or n. */
  function Lo(g: Config, I: nat): (r: nat)
    ensures r <= g.n
  {
    Min(I * g.bs, g.n)
  }

  /** Step K on block (I, J). */
  datatype Task = Task(I: nat, J: nat, K: nat)

  ghost predicate IsTask(g: Config, t: Task)
    requires Valid(g)
  {
    t.I < Blocks(g) && t.J < Blocks(g) && t.K <= Min(t.I, t.J)
  }

  /** Three phases a step: the diagonal block, its column and row, the rest. */
  ghost function Phase(t: Task): nat
    requires t.K <= Min(t.I, t.J)
  {
    3 * t.K + if t.I == t.K && t.J == t.K then 0 else if t.I == t.K || t.J == t.K then 1 else 2
  }

  ghost function Owner(g: Config, t: Task): (p: nat)
    requires Valid(g) && t.K <= Min(t.I, t.J)
    ensures p < g.procs
  {
    if !g.contiguous || Phase(t) % 3 != 1 then (t.I + t.J) % g.procs
    else if t.J == t.K then t.I % g.procs
    else (t.J % g.procs + g.procs / 2) % g.procs
  }

  /** Processor p has share x of the turns. */
  ghost predicate HasTurn(g: Config, x: nat, p: nat) { p < g.procs && exists c: nat :: x == c * g.procs + p }

  lemma TurnOf(g: Config, x: nat)
    requires Valid(g)
    ensures HasTurn(g, x, x % g.procs)
  {
    DivMod(x, g.procs);
  }

  lemma OneTurn(g: Config, x: nat, p: nat, q: nat)
    requires Valid(g) && HasTurn(g, x, p) && HasTurn(g, x, q)
    ensures p == q
  {
    var a: nat :| x == a * g.procs + p;
    var b: nat :| x == b * g.procs + q;
    QuotientUnique(x, a, g.procs, p);
    QuotientUnique(x, b, g.procs, q);
  }

  lemma RowTurn(g: Config, j: nat, half: nat)
    requires Valid(g)
    ensures HasTurn(g, j + half, (j % g.procs + half) % g.procs)
  {
    var rest := j % g.procs + half;
    DivMod(j, g.procs);
    TurnOf(g, rest);
    var c: nat :| rest == c * g.procs + rest % g.procs;
    SumTimes(j / g.procs, c, g.procs);
    assert j + half == (j / g.procs + c) * g.procs + rest % g.procs;
  }

  /** Who executes a task: the turn is the sum of the block's numbers. */
  lemma OwnerByBlock(g: Config, t: Task)
    requires Valid(g) && IsTask(g, t) && (!g.contiguous || t.I == t.J || t.K < Min(t.I, t.J))
    ensures HasTurn(g, t.I + t.J, Owner(g, t))
  {
    assert Owner(g, t) == (t.I + t.J) % g.procs;
    TurnOf(g, t.I + t.J);
  }

  /** In the contiguous program the turn of a block below the diagonal block is its row, and the turn
      of a block right of it is its column plus half the processors. */
  lemma OwnerByLine(g: Config, t: Task)
    requires Valid(g) && IsTask(g, t) && g.contiguous && t.K == Min(t.I, t.J) && t.I != t.J
    ensures HasTurn(g, if t.J == t.K then t.I else t.J + g.procs / 2, Owner(g, t))
  {
    if t.J == t.K {
      assert Owner(g, t) == t.I % g.procs;
      TurnOf(g, t.I);
    } else {
      assert Owner(g, t) == (t.J % g.procs + g.procs / 2) % g.procs;
      RowTurn(g, t.J, g.procs / 2);
    }
  }

  // -------------------------------------------------------------------------------------
  // Race freedom

  ghost predicate Writes(t: Task, I: nat, J: nat) { I == t.I && J == t.J }

  ghost predicate Reads(t: Task, I: nat, J: nat) {
    || Writes(t, I, J)
    || (Min(t.I, t.J) == t.K && I == t.K && J == t.K)
    || (t.K < Min(t.I, t.J) && ((I == t.I && J == t.K) || (I == t.K && J == t.J)))
  }

  /** The number of barriers passed before a phase: there is none after the third phase. */
  ghost function Epoch(phase: nat): nat { 2 * (phase / 3) + phase % 3 }

  /** No block is written by one processor and accessed by another between two barriers. */
  lemma NoConflict(g: Config, t: Task, u: Task, I: nat, J: nat)
    requires Valid(g) && IsTask(g, t) && IsTask(g, u) && Owner(g, t) != Owner(g, u)
    requires Epoch(Phase(t)) == Epoch(Phase(u))
    ensures !(Writes(t, I, J) && Reads(u, I, J))
  {
    var a, b := Phase(t), Phase(u);
    assert t.K == u.K || t.K == u.K + 1 || u.K == t.K + 1;
  }

  // -------------------------------------------------------------------------------------
  // The state machine

  datatype Proc = Working(phase: nat) | AtBarrier(phase: nat)

  /** done is what the processors have executed; level counts the steps a block has had. */
  datatype State = State(m: Matrix, proc: seq<Proc>, done: set<Task>, level: (nat, nat) -> nat)

  ghost function LastPhase(g: Config): nat
    requires Valid(g)
  {
    3 * Blocks(g)
  }

  ghost predicate InBlock(g: Config, I: nat, J: nat, i: nat, j: nat) {
    Lo(g, I) <= i < Lo(g, I + 1) && Lo(g, J) <= j < Lo(g, J + 1)
  }

  /** Every element of the block has had the first K block steps. */
  ghost predicate HasStage(g: Config, A: Matrix, m: Matrix, I: nat, J: nat, K: nat) {
    forall i, j :: InBlock(g, I, J, i, j) ==> m(i, j) == Stage(A, i, j, Lo(g, K))
  }

  /** What the kernel of the task needs: its block is at step K, the blocks it reads are final. */
  ghost predicate InputsReady(g: Config, A: Matrix, m: Matrix, t: Task) {
    && HasStage(g, A, m, t.I, t.J, t.K)
    && (t.K == Min(t.I, t.J) && t.I != t.J ==> HasStage(g, A, m, t.K, t.K, t.K + 1))
    && (t.K < Min(t.I, t.J) ==> HasStage(g, A, m, t.I, t.K, t.K + 1) && HasStage(g, A, m, t.K, t.J, t.K + 1))
  }

  /** The contract of the kernels: only the block of the task changes, and from ready inputs it
      moves on by one step. */
  ghost predicate Effect(g: Config, A: Matrix, m: Matrix, m': Matrix, t: Task) {
    && (forall i, j :: !InBlock(g, t.I, t.J, i, j) ==> m'(i, j) == m(i, j))
    && (InputsReady(g, A, m, t) ==> HasStage(g, A, m', t.I, t.J, t.K + 1))
  }

  ghost predicate Init(g: Config, A: Matrix, s: State)
    requires Valid(g)
  {
    && |s.proc| == g.procs && (forall p :: 0 <= p < |s.proc| ==> s.proc[p] == Working(0))
    && s.done == {} && (forall I, J :: s.level(I, J) == 0)
    && (forall i, j :: s.m(i, j) == A(i, j))
  }

  /** Processor p is to execute task t in its current phase. */
  ghost predicate Assigned(g: Config, s: State, p: nat, t: Task)
    requires Valid(g) && p < |s.proc|
  {
    s.proc[p].Working? && IsTask(g, t) && Phase(t) == s.proc[p].phase && Owner(g, t) == p && t !in s.done
  }

  ghost predicate PhaseDone(g: Config, s: State, p: nat, phase: nat)
    requires Valid(g)
  {
    forall t :: IsTask(g, t) && Phase(t) == phase && Owner(g, t) == p ==> t in s.done
  }

  ghost predicate Arrived(s: State, q: nat, phase: nat)
    requires q < |s.proc|
  {
    s.proc[q].phase > phase || s.proc[q] == AtBarrier(phase)
  }

  ghost predicate Execute(g: Config, A: Matrix, s: State, r: State, p: nat, t: Task)
    requires Valid(g) && p < |s.proc|
  {
    && Assigned(g, s, p, t)
    && Effect(g, A, s.m, r.m, t)
    && r.proc == s.proc && r.done == s.done + {t}
    && (forall I, J :: r.level(I, J) == if I == t.I && J == t.J then t.K + 1 else s.level(I, J))
  }

  /** Move on: to the barrier after the first two phases of a step, else to the next phase. */
  ghost predicate Advance(g: Config, s: State, r: State, p: nat)
    requires Valid(g) && p < |s.proc|
  {
    && s.proc[p].Working? && s.proc[p].phase < LastPhase(g)
    && PhaseDone(g, s, p, s.proc[p].phase)
    && r == s.(proc := s.proc[p := if s.proc[p].phase % 3 == 2 then Working(s.proc[p].phase + 1)
                                   else AtBarrier(s.proc[p].phase)])
  }

  /** Leave a barrier at which everybody has arrived. */
  ghost predicate Leave(s: State, r: State, p: nat)
    requires p < |s.proc|
  {
    && s.proc[p].AtBarrier?
    && (forall q :: 0 <= q < |s.proc| ==> Arrived(s, q, s.proc[p].phase))
    && r == s.(proc := s.proc[p := Working(s.proc[p].phase + 1)])
  }

  ghost predicate Step(g: Config, A: Matrix, s: State, r: State)
    requires Valid(g)
  {
    exists p :: 0 <= p < |s.proc| && StepOf(g, A, s, r, p)
  }

  ghost predicate StepOf(g: Config, A: Matrix, s: State, r: State, p: nat)
    requires Valid(g) && p < |s.proc|
  {
    (exists t :: Execute(g, A, s, r, p, t)) || Advance(g, s, r, p) || Leave(s, r, p)
  }

  // -------------------------------------------------------------------------------------
  // The invariant

  ghost predicate BarrierOk(s: State, p: nat, q: nat)
    requires p < |s.proc| && q < |s.proc|
  {
    forall b :: 0 <= b < s.proc[p].phase && b % 3 != 2 ==> Arrived(s, q, b)
  }

  ghost predicate FinishedOk(g: Config, s: State, p: nat)
    requires Valid(g) && p < |s.proc|
  {
    && s.proc[p].phase <= LastPhase(g)
    && (s.proc[p].AtBarrier? ==> s.proc[p].phase % 3 != 2 && s.proc[p].phase < LastPhase(g))
    && forall b :: 0 <= b && (b < s.proc[p].phase || s.proc[p] == AtBarrier(b)) ==> PhaseDone(g, s, p, b)
  }

  ghost predicate LevelOk(g: Config, s: State, I: nat, J: nat)
    requires Valid(g)
  {
    && s.level(I, J) <= Min(I, J) + 1
    && forall K :: 0 <= K <= Min(I, J) ==> (Task(I, J, K) in s.done <==> K < s.level(I, J))
  }

  ghost predicate Inv(g: Config, A: Matrix, s: State)
  {
    && Valid(g) && |s.proc| == g.procs
    && (forall p, q :: 0 <= p < |s.proc| && 0 <= q < |s.proc| ==> BarrierOk(s, p, q))
    && (forall p :: 0 <= p < |s.proc| ==> FinishedOk(g, s, p))
    && (forall I, J :: 0 <= I < Blocks(g) && 0 <= J < Blocks(g) ==> LevelOk(g, s, I, J))
    && (forall I, J :: 0 <= I < Blocks(g) && 0 <= J < Blocks(g) ==> HasStage(g, A, s.m, I, J, s.level(I, J)))
  }

  lemma InitInv(g: Config, A: Matrix, s: State)
    requires Valid(g) && Init(g, A, s)
    ensures Inv(g, A, s)
  {
    forall I, J | 0 <= I < Blocks(g) && 0 <= J < Blocks(g) ensures HasStage(g, A, s.m, I, J, s.level(I, J)) {
      forall i, j | InBlock(g, I, J, i, j) ensures s.m(i, j) == Stage(A, i, j, 0) { StageStart(A, i, j); }
    }
  }

  /** A task of an earlier phase is done once its owner must have passed that phase. */
  lemma EarlierDone(g: Config, A: Matrix, s: State, p: nat, u: Task, barrier: nat)
    requires Inv(g, A, s) && p < |s.proc| && IsTask(g, u)
    requires Phase(u) <= barrier < s.proc[p].phase && barrier % 3 != 2
    ensures u in s.done
  {
    var q := Owner(g, u);
    assert BarrierOk(s, p, q) && FinishedOk(g, s, q);
    assert Arrived(s, q, barrier);
    assert PhaseDone(g, s, q, Phase(u));
  }

  lemma PreviousStepDone(g: Config, A: Matrix, s: State, p: nat, t: Task)
    requires Inv(g, A, s) && p < |s.proc| && Assigned(g, s, p, t) && t.K > 0
    ensures Task(t.I, t.J, t.K - 1) in s.done
  {
    var u := Task(t.I, t.J, t.K - 1);
    if Phase(t) > 3 * t.K { EarlierDone(g, A, s, p, u, 3 * t.K); }
    else {
      assert Owner(g, u) == p && FinishedOk(g, s, p);
      assert PhaseDone(g, s, p, Phase(u));
    }
  }

  /** In every interleaving, a kernel is only called when its inputs are ready. */
  lemma ReadyWhenAssigned(g: Config, A: Matrix, s: State, p: nat, t: Task)
    requires Inv(g, A, s) && p < |s.proc| && Assigned(g, s, p, t)
    ensures InputsReady(g, A, s.m, t) && s.level(t.I, t.J) == t.K
  {
    assert LevelOk(g, s, t.I, t.J);
    if t.K > 0 { PreviousStepDone(g, A, s, p, t); }
    if t.K == Min(t.I, t.J) && t.I != t.J {
      EarlierDone(g, A, s, p, Task(t.K, t.K, t.K), 3 * t.K);
      assert LevelOk(g, s, t.K, t.K);
    }
    if t.K < Min(t.I, t.J) {
      EarlierDone(g, A, s, p, Task(t.I, t.K, t.K), 3 * t.K + 1);
      EarlierDone(g, A, s, p, Task(t.K, t.J, t.K), 3 * t.K + 1);
      assert LevelOk(g, s, t.I, t.K) && LevelOk(g, s, t.K, t.J);
    }
  }

  // -------------------------------------------------------------------------------------
  // Blocks tile the matrix

  lemma LoMonotone(g: Config, I: nat, J: nat)
    requires I <= J
    ensures Lo(g, I) <= Lo(g, J)
  {
    assert J * g.bs == I * g.bs + (J - I) * g.bs;
  }

  lemma BlocksDisjoint(g: Config, I: nat, I': nat, i: nat)
    requires Lo(g, I) <= i < Lo(g, I + 1) && Lo(g, I') <= i < Lo(g, I' + 1)
    ensures I == I'
  {
    if I < I' { LoMonotone(g, I + 1, I'); }
    if I' < I { LoMonotone(g, I' + 1, I); }
  }

  /** Every row is in one block row. */
  lemma BlockOf(g: Config, i: nat) returns (I: nat)
    requires Valid(g) && i < g.n
    ensures I < Blocks(g) && Lo(g, I) <= i < Lo(g, I + 1) && I == i / g.bs
  {
    I := i / g.bs;
    assert i == I * g.bs + i % g.bs;
    assert (I + 1) * g.bs == I * g.bs + g.bs;
    var q := g.n + g.bs - 1;
    assert q == Blocks(g) * g.bs + q % g.bs;
    if Blocks(g) <= I { MulLe(Blocks(g), I, g.bs); }
  }

  // -------------------------------------------------------------------------------------
  // Every step keeps the invariant

  lemma OtherBlockKept(g: Config, A: Matrix, m: Matrix, m': Matrix, t: Task, I: nat, J: nat, K: nat)
    requires Effect(g, A, m, m', t) && HasStage(g, A, m, I, J, K) && (I != t.I || J != t.J)
    ensures HasStage(g, A, m', I, J, K)
  {
    forall i, j | InBlock(g, I, J, i, j) ensures m'(i, j) == m(i, j) {
      if InBlock(g, t.I, t.J, i, j) {
        BlocksDisjoint(g, I, t.I, i);
        BlocksDisjoint(g, J, t.J, j);
      }
    }
  }

  lemma ExecuteBlocks(g: Config, A: Matrix, s: State, r: State, p: nat, t: Task, I: nat, J: nat)
    requires Inv(g, A, s) && p < |s.proc| && Execute(g, A, s, r, p, t) && I < Blocks(g) && J < Blocks(g)
    ensures LevelOk(g, r, I, J) && HasStage(g, A, r.m, I, J, r.level(I, J))
  {
    ReadyWhenAssigned(g, A, s, p, t);
    assert LevelOk(g, s, I, J) && HasStage(g, A, s.m, I, J, s.level(I, J));
    if I != t.I || J != t.J { OtherBlockKept(g, A, s.m, r.m, t, I, J, s.level(I, J)); }
  }

  lemma SameProcs(g: Config, s: State, r: State, x: nat, y: nat)
    requires Valid(g) && r.proc == s.proc && s.done <= r.done && x < |s.proc| && y < |s.proc|
    requires BarrierOk(s, x, y) && FinishedOk(g, s, x)
    ensures BarrierOk(r, x, y) && FinishedOk(g, r, x)
  {
    forall b | 0 <= b < r.proc[x].phase && b % 3 != 2 ensures Arrived(r, y, b) { assert Arrived(s, y, b); }
    forall b | 0 <= b && (b < r.proc[x].phase || r.proc[x] == AtBarrier(b)) ensures PhaseDone(g, r, x, b) {
      assert PhaseDone(g, s, x, b);
    }
  }

  lemma ExecuteKept(g: Config, A: Matrix, s: State, r: State, p: nat, t: Task)
    requires Inv(g, A, s) && p < |s.proc| && Execute(g, A, s, r, p, t)
    ensures Inv(g, A, r)
  {
    forall x, y | 0 <= x < |s.proc| && 0 <= y < |s.proc| ensures BarrierOk(r, x, y) && FinishedOk(g, r, x) {
      SameProcs(g, s, r, x, y);
    }
    forall x | 0 <= x < |r.proc| ensures FinishedOk(g, r, x) { assert BarrierOk(r, x, x); }
    forall I, J | 0 <= I < Blocks(g) && 0 <= J < Blocks(g)
      ensures LevelOk(g, r, I, J) && HasStage(g, A, r.m, I, J, r.level(I, J)) {
      ExecuteBlocks(g, A, s, r, p, t, I, J);
    }
  }

  lemma MoveKept(g: Config, A: Matrix, s: State, r: State, p: nat)
    requires Inv(g, A, s) && p < |s.proc| && (Advance(g, s, r, p) || Leave(s, r, p))
    ensures Inv(g, A, r)
  {
    forall x, y | 0 <= x < |r.proc| && 0 <= y < |r.proc| ensures BarrierOk(r, x, y) {
      assert BarrierOk(s, x, y);
      forall b | 0 <= b < r.proc[x].phase && b % 3 != 2 ensures Arrived(r, y, b) {
        if b < s.proc[x].phase { assert Arrived(s, y, b); }
        else { assert Arrived(s, y, s.proc[p].phase); }
      }
    }
    forall x | 0 <= x < |r.proc| ensures FinishedOk(g, r, x) {
      assert FinishedOk(g, s, x);
      forall b | 0 <= b && (b < r.proc[x].phase || r.proc[x] == AtBarrier(b)) ensures PhaseDone(g, r, x, b) {
        assert PhaseDone(g, s, x, b);
      }
    }
    forall I, J | 0 <= I < Blocks(g) && 0 <= J < Blocks(g) ensures LevelOk(g, r, I, J) { assert LevelOk(g, s, I, J); }
  }

  lemma StepKept(g: Config, A: Matrix, s: State, r: State)
    requires Inv(g, A, s) && Step(g, A, s, r)
    ensures Inv(g, A, r)
  {
    var p :| 0 <= p < |s.proc| && StepOf(g, A, s, r, p);
    if t :| Execute(g, A, s, r, p, t) { ExecuteKept(g, A, s, r, p, t); } else { MoveKept(g, A, s, r, p); }
  }

  // -------------------------------------------------------------------------------------
  // Runs

  ghost predicate IsRun(g: Config, A: Matrix, run: seq<State>)
    requires Valid(g)
  {
    && |run| > 0 && Init(g, A, run[0])
    && forall k :: 0 <= k < |run| - 1 ==> Step(g, A, run[k], run[k + 1])
  }

  lemma {:induction false} RunInv(g: Config, A: Matrix, run: seq<State>, k: nat)
    requires Valid(g) && IsRun(g, A, run) && k < |run|
    ensures Inv(g, A, run[k])
  {
    if k == 0 { InitInv(g, A, run[0]); }
    else {
      RunInv(g, A, run, k - 1);
      assert Step(g, A, run[k - 1], run[k - 1 + 1]);
      StepKept(g, A, run[k - 1], run[k]);
    }
  }

  ghost predicate AllFinished(g: Config, s: State)
    requires Valid(g)
  {
    forall p :: 0 <= p < |s.proc| ==> s.proc[p] == Working(LastPhase(g))
  }

  /** A block that has had all its steps holds its part of L and U. */
  lemma FinalBlock(g: Config, A: Matrix, m: Matrix, I: nat, J: nat, i: nat, j: nat)
    requires InBlock(g, I, J, i, j) && HasStage(g, A, m, I, J, Min(I, J) + 1)
    ensures m(i, j) == Factor(A, i, j)
  {
    LoMonotone(g, Min(I, J) + 1, I + 1);
    LoMonotone(g, Min(I, J) + 1, J + 1);
    StageFinal(A, i, j, Lo(g, Min(I, J) + 1));
  }

  lemma FinishedBlock(g: Config, A: Matrix, s: State, I: nat, J: nat)
    requires Inv(g, A, s) && AllFinished(g, s) && I < Blocks(g) && J < Blocks(g)
    ensures s.level(I, J) == Min(I, J) + 1
  {
    var t := Task(I, J, Min(I, J));
    var p := Owner(g, t);
    assert FinishedOk(g, s, p) && s.proc[p] == Working(LastPhase(g));
    assert PhaseDone(g, s, p, Phase(t));
    assert LevelOk(g, s, I, J);
  }

  /** Whatever the number of processors, the block size and the interleaving, the matrix ends as
      L and U, and L times U is the matrix it started as. */
  lemma ParallelLuIsCorrect(g: Config, A: Matrix, run: seq<State>, i: nat, j: nat)
    requires Valid(g) && IsRun(g, A, run) && AllFinished(g, run[|run| - 1]) && i < g.n && j < g.n && PivotsOk(A, g.n)
    ensures run[|run| - 1].m(i, j) == Factor(A, i, j)
    ensures Product(A, i, j, g.n) == run[0].m(i, j)
  {
    var s := run[|run| - 1];
    RunInv(g, A, run, |run| - 1);
    var I := BlockOf(g, i);
    var J := BlockOf(g, j);
    FinishedBlock(g, A, s, I, J);
    assert HasStage(g, A, s.m, I, J, s.level(I, J));
    FinalBlock(g, A, s.m, I, J, i, j);
    FactorsMultiplyToMatrix(A, g.n, i, j);
  }

  /** In every run, every kernel call finds its inputs ready. */
  lemma KernelsFindTheirInputs(g: Config, A: Matrix, run: seq<State>, k: nat, p: nat, t: Task)
    requires Valid(g) && IsRun(g, A, run) && k < |run| && p < |run[k].proc| && Assigned(g, run[k], p, t)
    ensures InputsReady(g, A, run[k].m, t)
  {
    RunInv(g, A, run, k);
    ReadyWhenAssigned(g, A, run[k], p, t);
  }

  /** Two matrices have the same block (I, J). */
  ghost predicate SameBlock(g: Config, m: Matrix, m': Matrix, I: nat, J: nat) {
    forall i, j :: InBlock(g, I, J, i, j) ==> m(i, j) == m'(i, j)
  }

  /** What a task does depends on the blocks that it reads only. */
  lemma ReadsAreInputs(g: Config, A: Matrix, m: Matrix, m': Matrix, t: Task)
    requires Valid(g) && IsTask(g, t) && forall I, J :: Reads(t, I, J) ==> SameBlock(g, m, m', I, J)
    ensures InputsReady(g, A, m, t) <==> InputsReady(g, A, m', t)
  {
    forall I, J, K | Reads(t, I, J) ensures HasStage(g, A, m, I, J, K) <==> HasStage(g, A, m', I, J, K) {
      assert SameBlock(g, m, m', I, J);
    }
  }

  /** A task changes no block but the one that it writes. */
  lemma WritesAreChanges(g: Config, A: Matrix, m: Matrix, m': Matrix, t: Task, I: nat, J: nat)
    requires Valid(g) && IsTask(g, t) && Effect(g, A, m, m', t) && !Writes(t, I, J)
    ensures SameBlock(g, m, m', I, J)
  {
    forall i, j | InBlock(g, I, J, i, j) ensures m(i, j) == m'(i, j) {
      if InBlock(g, t.I, t.J, i, j) {
        BlocksDisjoint(g, I, t.I, i);
        BlocksDisjoint(g, J, t.J, j);
      }
    }
  }

  /** Processors that work at the same time have passed the same number of barriers. */
  lemma SameEpoch(g: Config, A: Matrix, s: State, p: nat, q: nat)
    requires Inv(g, A, s) && p < |s.proc| && q < |s.proc| && s.proc[p].Working? && s.proc[q].Working?
    requires s.proc[p].phase <= s.proc[q].phase
    ensures Epoch(s.proc[p].phase) == Epoch(s.proc[q].phase)
  {
    var a, b := s.proc[p].phase, s.proc[q].phase;
    var x := if a % 3 == 2 then a + 1 else a;
    assert BarrierOk(s, q, p);
    assert x < b ==> Arrived(s, p, x);
  }

  /** Race freedom in every state of every run: a block that one processor may be writing is not
      accessed by a task that another one may be executing at the same time. */
  lemma NoRace(g: Config, A: Matrix, run: seq<State>, k: nat, p: nat, q: nat, t: Task, u: Task, I: nat, J: nat)
    requires Valid(g) && IsRun(g, A, run) && k < |run| && p < |run[k].proc| && q < |run[k].proc| && p != q
    requires Assigned(g, run[k], p, t) && Assigned(g, run[k], q, u)
    ensures !(Writes(t, I, J) && Reads(u, I, J))
  {
    RunInv(g, A, run, k);
    var s := run[k];
    if s.proc[p].phase <= s.proc[q].phase { SameEpoch(g, A, s, p, q); } else { SameEpoch(g, A, s, q, p); }
    NoConflict(g, t, u, I, J);
  }

  ghost function Key(q: Proc): nat { 2 * q.phase + if q.Working? then 0 else 1 }

  /** The processor that is furthest behind. */
  lemma {:induction false} Hindmost(s: State, m: nat) returns (p: nat)
    requires 0 < m <= |s.proc|
    ensures p < m && forall q :: 0 <= q < m ==> Key(s.proc[p]) <= Key(s.proc[q])
  {
    if m == 1 { p := 0; }
    else {
      p := Hindmost(s, m - 1);
      if Key(s.proc[m - 1]) < Key(s.proc[p]) { p := m - 1; }
    }
  }

  lemma LastIsFinished(g: Config, s: State, p: nat, x: nat)
    requires Valid(g) && p < |s.proc| && x < |s.proc| && FinishedOk(g, s, x)
    requires s.proc[p].phase >= LastPhase(g) && Key(s.proc[p]) <= Key(s.proc[x])
    ensures s.proc[x] == Working(LastPhase(g))
  {
  }

  /** The barriers do not deadlock: until all are finished, the processor furthest behind can
      execute a task, move on or leave its barrier. */
  lemma NeverStuck(g: Config, A: Matrix, s: State) returns (p: nat)
    requires Inv(g, A, s) && !AllFinished(g, s)
    ensures p < |s.proc|
    ensures || (exists t :: Assigned(g, s, p, t))
            || (exists r :: Advance(g, s, r, p)) || (exists r :: Leave(s, r, p))
  {
    p := Hindmost(s, |s.proc|);
    assert FinishedOk(g, s, p);
    var q := s.proc[p];
    if q.AtBarrier? {
      forall x | 0 <= x < |s.proc| ensures Arrived(s, x, q.phase) { assert Key(q) <= Key(s.proc[x]); }
      assert Leave(s, s.(proc := s.proc[p := Working(q.phase + 1)]), p);
    } else if q.phase < LastPhase(g) {
      if PhaseDone(g, s, p, q.phase) {
        assert Advance(g, s, s.(proc := s.proc[p := if q.phase % 3 == 2 then Working(q.phase + 1)
                                                     else AtBarrier(q.phase)]), p);
      } else {
        var t :| IsTask(g, t) && Phase(t) == q.phase && Owner(g, t) == p && t !in s.done;
        assert Assigned(g, s, p, t);
      }
    } else {
      forall x | 0 <= x < |s.proc| ensures s.proc[x] == Working(LastPhase(g)) { LastIsFinished(g, s, p, x); }
      assert false;
    }
  }

  // -------------------------------------------------------------------------------------
  // Every run ends, with all processors finished

  ghost function AllTasks(g: Config): set<Task>
    requires Valid(g)
  {
    set I: nat, J: nat, K: nat | I < Blocks(g) && J < Blocks(g) && K < Blocks(g) && IsTask(g, Task(I, J, K)) :: Task(I, J, K)
  }

  /** How far the processors have come together. */
  ghost function Distance(procs: seq<Proc>): nat {
    if procs == [] then 0 else Distance(procs[..|procs| - 1]) + Key(procs[|procs| - 1])
  }

  lemma {:induction false} DistanceUpdate(procs: seq<Proc>, p: nat, q: Proc)
    requires p < |procs|
    ensures Distance(procs[p := q]) == Distance(procs) - Key(procs[p]) + Key(q)
  {
    var last := |procs| - 1;
    if p == last {
      assert procs[p := q][..last] == procs[..last];
    } else {
      DistanceUpdate(procs[..last], p, q);
      assert procs[p := q][..last] == procs[..last][p := q];
    }
  }

  lemma {:induction false} DistanceBound(procs: seq<Proc>, most: nat)
    requires forall p :: 0 <= p < |procs| ==> Key(procs[p]) <= most
    ensures Distance(procs) <= |procs| * most
  {
    if procs != [] {
      DistanceBound(procs[..|procs| - 1], most);
      assert |procs| * most == (|procs| - 1) * most + most;
    }
  }

  lemma StepAdvances(g: Config, A: Matrix, s: State, r: State)
    requires Inv(g, A, s) && Step(g, A, s, r) && s.done <= AllTasks(g)
    ensures r.done <= AllTasks(g) && |r.done| + Distance(r.proc) > |s.done| + Distance(s.proc)
  {
    var p :| 0 <= p < |s.proc| && StepOf(g, A, s, r, p);
    if Advance(g, s, r, p) || Leave(s, r, p) {
      DistanceUpdate(s.proc, p, r.proc[p]);
    } else {
      var t :| Execute(g, A, s, r, p, t);
      assert t == Task(t.I, t.J, t.K) && t in AllTasks(g);
    }
  }

  lemma {:induction false} RunAdvances(g: Config, A: Matrix, run: seq<State>, j: nat)
    requires Valid(g) && IsRun(g, A, run) && j < |run|
    ensures run[j].done <= AllTasks(g) && j <= |run[j].done| + Distance(run[j].proc)
  {
    if j > 0 {
      RunAdvances(g, A, run, j - 1);
      RunInv(g, A, run, j - 1);
      assert Step(g, A, run[j - 1], run[j - 1 + 1]);
      StepAdvances(g, A, run[j - 1], run[j]);
    }
  }

  /** No run is longer than the tasks and the phases of all processors. */
  lemma RunsAreFinite(g: Config, A: Matrix, run: seq<State>)
    requires Valid(g) && IsRun(g, A, run)
    ensures |run| <= |AllTasks(g)| + g.procs * (2 * LastPhase(g)) + 1
  {
    var j := |run| - 1;
    var s := run[j];
    RunAdvances(g, A, run, j);
    RunInv(g, A, run, j);
    SubsetSize(s.done, AllTasks(g));
    forall p | 0 <= p < |s.proc| ensures Key(s.proc[p]) <= 2 * LastPhase(g) { assert FinishedOk(g, s, p); }
    DistanceBound(s.proc, 2 * LastPhase(g));
  }

  /** A task that is assigned can be executed. */
  lemma CanExecute(g: Config, A: Matrix, s: State, p: nat, t: Task) returns (r: State)
    requires Valid(g) && p < |s.proc| && Assigned(g, s, p, t)
    ensures Execute(g, A, s, r, p, t)
  {
    var m := (i: nat, j: nat) => if InBlock(g, t.I, t.J, i, j) then Stage(A, i, j, Lo(g, t.K + 1)) else s.m(i, j);
    var level := (I: nat, J: nat) => if I == t.I && J == t.J then t.K + 1 else s.level(I, J);
    r := State(m, s.proc, s.done + {t}, level);
  }

  ghost predicate NoStep(g: Config, A: Matrix, s: State)
    requires Valid(g)
  {
    forall r :: !Step(g, A, s, r)
  }

  /** A run that cannot go on has all processors finished; so by ParallelLuIsCorrect its matrix is L
      and U. */
  lemma EndedMeansFinished(g: Config, A: Matrix, run: seq<State>)
    requires Valid(g) && IsRun(g, A, run) && NoStep(g, A, run[|run| - 1])
    ensures AllFinished(g, run[|run| - 1])
  {
    var s := run[|run| - 1];
    RunInv(g, A, run, |run| - 1);
    if !AllFinished(g, s) {
      var p := NeverStuck(g, A, s);
      if t :| Assigned(g, s, p, t) {
        var r := CanExecute(g, A, s, p, t);
        CanStep(g, A, s, r, p);
      } else {
        var r :| Advance(g, s, r, p) || Leave(s, r, p);
        CanStep(g, A, s, r, p);
      }
    }
  }

  lemma CanStep(g: Config, A: Matrix, s: State, r: State, p: nat)
    requires Valid(g) && p < |s.proc| && StepOf(g, A, s, r, p)
    ensures Step(g, A, s, r)
  {
  }

  // -------------------------------------------------------------------------------------
  // The kernels have the effect the state machine gives to a task

  ghost predicate Holds(a: array2<real>, m: Matrix)
    reads a
  {
    forall i, j :: 0 <= i < a.Length0 && 0 <= j < a.Length1 ==> a[i, j] == m(i, j)
  }

  /** The rows of the blocks of a task: those it needs are above or beside it. */
  lemma Bounds(g: Config, t: Task)
    requires Valid(g) && IsTask(g, t)
    ensures Lo(g, t.I) <= Lo(g, t.I + 1) && Lo(g, t.J) <= Lo(g, t.J + 1) && Lo(g, t.K) <= Lo(g, t.K + 1)
    ensures t.K < t.I ==> Lo(g, t.K + 1) <= Lo(g, t.I)
    ensures t.K < t.J ==> Lo(g, t.K + 1) <= Lo(g, t.J)
  {
    LoMonotone(g, t.I, t.I + 1);
    LoMonotone(g, t.J, t.J + 1);
    LoMonotone(g, t.K, t.K + 1);
    if t.K < t.I { LoMonotone(g, t.K + 1, t.I); }
    if t.K < t.J { LoMonotone(g, t.K + 1, t.J); }
  }

  /** The blocks that the task uses are at the steps that its kernel asks for. */
  ghost predicate InputsAt(g: Config, A: Matrix, a: array2<real>, t: Task)
    requires a.Length0 == a.Length1 == g.n
    reads a
  {
    && IsAt(g, A, a, t.I, t.J, t.K)
    && (t.K == Min(t.I, t.J) && t.I != t.J ==> IsAt(g, A, a, t.K, t.K, t.K + 1))
    && (t.K < Min(t.I, t.J) ==> IsAt(g, A, a, t.I, t.K, t.K + 1) && IsAt(g, A, a, t.K, t.J, t.K + 1))
  }

  ghost predicate IsAt(g: Config, A: Matrix, a: array2<real>, I: nat, J: nat, K: nat)
    requires a.Length0 == a.Length1 == g.n
    reads a
  {
    BlockAt(A, a, Lo(g, I), Lo(g, I + 1), Lo(g, J), Lo(g, J + 1), Lo(g, K))
  }

  lemma BlockHolds(g: Config, A: Matrix, a: array2<real>, m: Matrix, I: nat, J: nat, K: nat)
    requires a.Length0 == a.Length1 == g.n && Holds(a, m) && HasStage(g, A, m, I, J, K)
    ensures IsAt(g, A, a, I, J, K)
  {
    forall i, j | Lo(g, I) <= i < Lo(g, I + 1) && Lo(g, J) <= j < Lo(g, J + 1) ensures At(A, a, i, j, Lo(g, K)) {
      assert InBlock(g, I, J, i, j);
    }
  }

  lemma InputsHold(g: Config, A: Matrix, a: array2<real>, m: Matrix, t: Task)
    requires a.Length0 == a.Length1 == g.n && Holds(a, m) && InputsReady(g, A, m, t)
    ensures InputsAt(g, A, a, t)
  {
    BlockHolds(g, A, a, m, t.I, t.J, t.K);
    if t.K == Min(t.I, t.J) {
      if t.I != t.J { BlockHolds(g, A, a, m, t.K, t.K, t.K + 1); }
    } else if t.K < Min(t.I, t.J) {
      BlockHolds(g, A, a, m, t.I, t.K, t.K + 1);
      BlockHolds(g, A, a, m, t.K, t.J, t.K + 1);
    }
  }

  /** Run the kernel of a task. */
  method RunKernel(g: Config, ghost A: Matrix, a: array2<real>, t: Task)
    requires Valid(g) && IsTask(g, t) && a.Length0 == a.Length1 == g.n && PivotsOk(A, g.n)
    requires InputsAt(g, A, a, t)
    modifies a
    ensures IsAt(g, A, a, t.I, t.J, t.K + 1)
    ensures OnlyBlock(a, Lo(g, t.I), Lo(g, t.I + 1), Lo(g, t.J), Lo(g, t.J + 1))
  {
    var i0, i1 := Lo(g, t.I), Lo(g, t.I + 1);
    var j0, j1 := Lo(g, t.J), Lo(g, t.J + 1);
    var k0, k1 := Lo(g, t.K), Lo(g, t.K + 1);
    Bounds(g, t);
    if t.I == t.K && t.J == t.K {
      Lu0(A, a, k0, k1);
    } else if t.J == t.K {
      Bdiv(A, a, i0, i1, k0, k1);
    } else if t.I == t.K {
      Bmodd(A, a, j0, j1, k0, k1);
    } else {
      Bmod(A, a, i0, i1, j0, j1, k0, k1);
    }
  }

  /** The matrix in which the block of the task has moved on by one step. */
  ghost function After(g: Config, A: Matrix, m: Matrix, t: Task): Matrix {
    (i: nat, j: nat) => if InBlock(g, t.I, t.J, i, j) then Stage(A, i, j, Lo(g, t.K + 1)) else m(i, j)
  }

  lemma AfterHasStage(g: Config, A: Matrix, m: Matrix, t: Task)
    ensures Effect(g, A, m, After(g, A, m, t), t)
  {
  }

  /** The kernel of a task has the effect that the state machine gives to the task. */
  method RunTask(g: Config, ghost A: Matrix, a: array2<real>, ghost m: Matrix, t: Task) returns (ghost m': Matrix)
    requires Valid(g) && IsTask(g, t) && a.Length0 == a.Length1 == g.n && PivotsOk(A, g.n)
    requires Holds(a, m) && InputsReady(g, A, m, t)
    modifies a
    ensures Holds(a, m') && Effect(g, A, m, m', t)
  {
    InputsHold(g, A, a, m, t);
    RunKernel(g, A, a, t);
    m' := After(g, A, m, t);
    AfterHasStage(g, A, m, t);
    forall i, j | 0 <= i < g.n && 0 <= j < g.n ensures a[i, j] == m'(i, j) {
      if InBlock(g, t.I, t.J, i, j) { assert At(A, a, i, j, Lo(g, t.K + 1)); }
    }
  }

  // -------------------------------------------------------------------------------------
  // The loops of lu, on one processor

  /** What one processor has done of step K: nothing, the block column down to block I0 (with the
      diagonal block), also the block row up to block J0, also the inner blocks before (I0, J0). */
  datatype Progress = Start(K: nat) | Column(K: nat, I0: nat) | Row(K: nat, J0: nat) | Inner(K: nat, I0: nat, J0: nat)

  ghost predicate Did(q: Progress, I: nat, J: nat) {
    match q
    case Start(K) => false
    case Column(K, I0) => J == K && K <= I < I0
    case Row(K, J0) => (J == K && K <= I) || (I == K && K <= J < J0)
    case Inner(K, I0, J0) => K <= Min(I, J) && (Min(I, J) == K || I < I0 || (I == I0 && J < J0))
  }

  /** The number of steps that block (I, J) has had. */
  ghost function Had(q: Progress, I: nat, J: nat): nat {
    if Did(q, I, J) then q.K + 1 else Min(q.K, Min(I, J) + 1)
  }

  ghost predicate AllStages(g: Config, A: Matrix, m: Matrix, q: Progress)
    requires Valid(g)
  {
    forall I, J :: 0 <= I < Blocks(g) && 0 <= J < Blocks(g) ==> HasStage(g, A, m, I, J, Had(q, I, J))
  }

  /** Task t leads from q to r: its inputs are done in q, and r differs only at its block. */
  ghost predicate Leads(g: Config, q: Progress, t: Task, r: Progress)
    requires Valid(g)
  {
    && Had(q, t.I, t.J) == t.K && Had(r, t.I, t.J) == t.K + 1
    && (t.K == Min(t.I, t.J) && t.I != t.J ==> Had(q, t.K, t.K) == t.K + 1)
    && (t.K < Min(t.I, t.J) ==> Had(q, t.I, t.K) == t.K + 1 && Had(q, t.K, t.J) == t.K + 1)
    && forall I, J :: 0 <= I < Blocks(g) && 0 <= J < Blocks(g) && (I != t.I || J != t.J) ==> Had(r, I, J) == Had(q, I, J)
  }

  lemma LeadsToStages(g: Config, A: Matrix, m: Matrix, m': Matrix, q: Progress, t: Task, r: Progress)
    requires Valid(g) && IsTask(g, t) && Leads(g, q, t, r) && AllStages(g, A, m, q) && InputsReady(g, A, m, t)
    requires Effect(g, A, m, m', t)
    ensures AllStages(g, A, m', r)
  {
    forall I, J | 0 <= I < Blocks(g) && 0 <= J < Blocks(g) ensures HasStage(g, A, m', I, J, Had(r, I, J)) {
      assert HasStage(g, A, m, I, J, Had(q, I, J));
      if I != t.I || J != t.J { OtherBlockKept(g, A, m, m', t, I, J, Had(q, I, J)); }
    }
  }

  lemma LeadsReady(g: Config, A: Matrix, m: Matrix, q: Progress, t: Task, r: Progress)
    requires Valid(g) && IsTask(g, t) && Leads(g, q, t, r) && AllStages(g, A, m, q)
    ensures InputsReady(g, A, m, t)
  {
    assert HasStage(g, A, m, t.I, t.J, Had(q, t.I, t.J));
    assert HasStage(g, A, m, t.K, t.K, Had(q, t.K, t.K));
    assert HasStage(g, A, m, t.I, t.K, Had(q, t.I, t.K)) && HasStage(g, A, m, t.K, t.J, Had(q, t.K, t.J));
  }

  method RunNext(g: Config, ghost A: Matrix, a: array2<real>, ghost m: Matrix, ghost q: Progress, t: Task, ghost r: Progress)
    returns (ghost m': Matrix)
    requires Valid(g) && IsTask(g, t) && a.Length0 == a.Length1 == g.n && PivotsOk(A, g.n)
    requires Holds(a, m) && AllStages(g, A, m, q) && Leads(g, q, t, r)
    modifies a
    ensures Holds(a, m') && AllStages(g, A, m', r)
  {
    LeadsReady(g, A, m, q, t, r);
    m' := RunTask(g, A, a, m, t);
    LeadsToStages(g, A, m, m', q, t, r);
  }

  /** Two ways to say how far the processor is. */
  lemma SameStages(g: Config, A: Matrix, m: Matrix, q: Progress, r: Progress)
    requires Valid(g) && AllStages(g, A, m, q)
    requires forall I, J :: 0 <= I < Blocks(g) && 0 <= J < Blocks(g) ==> Had(r, I, J) == Had(q, I, J)
    ensures AllStages(g, A, m, r)
  {
  }

  /** Divide the block column by the diagonal block. */
  method DivideColumn(g: Config, ghost A: Matrix, a: array2<real>, ghost before: Matrix, K: nat) returns (ghost m: Matrix)
    requires Valid(g) && a.Length0 == a.Length1 == g.n && PivotsOk(A, g.n) && K < Blocks(g)
    requires Holds(a, before) && AllStages(g, A, before, Column(K, K + 1))
    modifies a
    ensures Holds(a, m) && AllStages(g, A, m, Row(K, K + 1))
  {
    m := before;
    for I := K + 1 to Blocks(g)
      invariant Holds(a, m) && AllStages(g, A, m, Column(K, I))
    {
      m := RunNext(g, A, a, m, Column(K, I), Task(I, K, K), Column(K, I + 1));
    }
    SameStages(g, A, m, Column(K, Blocks(g)), Row(K, K + 1));
  }

  /** Modify the block row by the diagonal block. */
  method ModifyRow(g: Config, ghost A: Matrix, a: array2<real>, ghost before: Matrix, K: nat) returns (ghost m: Matrix)
    requires Valid(g) && a.Length0 == a.Length1 == g.n && PivotsOk(A, g.n) && K < Blocks(g)
    requires Holds(a, before) && AllStages(g, A, before, Row(K, K + 1))
    modifies a
    ensures Holds(a, m) && AllStages(g, A, m, Inner(K, K + 1, 0))
  {
    m := before;
    for J := K + 1 to Blocks(g)
      invariant Holds(a, m) && AllStages(g, A, m, Row(K, J))
    {
      m := RunNext(g, A, a, m, Row(K, J), Task(K, J, K), Row(K, J + 1));
    }
    SameStages(g, A, m, Row(K, Blocks(g)), Inner(K, K + 1, 0));
  }

  /** Modify the blocks below and right of the diagonal block. */
  method ModifyRest(g: Config, ghost A: Matrix, a: array2<real>, ghost before: Matrix, K: nat) returns (ghost m: Matrix)
    requires Valid(g) && a.Length0 == a.Length1 == g.n && PivotsOk(A, g.n) && K < Blocks(g)
    requires Holds(a, before) && AllStages(g, A, before, Inner(K, K + 1, 0))
    modifies a
    ensures Holds(a, m) && AllStages(g, A, m, Start(K + 1))
  {
    m := before;
    for I := K + 1 to Blocks(g)
      invariant Holds(a, m) && AllStages(g, A, m, Inner(K, I, 0))
    {
      m := ModifyBlockRow(g, A, a, m, K, I);
    }
    SameStages(g, A, m, Inner(K, Blocks(g), 0), Start(K + 1));
  }

  method ModifyBlockRow(g: Config, ghost A: Matrix, a: array2<real>, ghost before: Matrix, K: nat, I: nat) returns (ghost m: Matrix)
    requires Valid(g) && a.Length0 == a.Length1 == g.n && PivotsOk(A, g.n) && K < I < Blocks(g)
    requires Holds(a, before) && AllStages(g, A, before, Inner(K, I, 0))
    modifies a
    ensures Holds(a, m) && AllStages(g, A, m, Inner(K, I + 1, 0))
  {
    m := before;
    SameStages(g, A, m, Inner(K, I, 0), Inner(K, I, K + 1));
    for J := K + 1 to Blocks(g)
      invariant Holds(a, m) && AllStages(g, A, m, Inner(K, I, J))
    {
      m := RunNext(g, A, a, m, Inner(K, I, J), Task(I, J, K), Inner(K, I, J + 1));
    }
    SameStages(g, A, m, Inner(K, I, Blocks(g)), Inner(K, I + 1, 0));
  }

  /** Step K of the factorization. */
  method LuStep(g: Config, ghost A: Matrix, a: array2<real>, ghost before: Matrix, K: nat) returns (ghost m: Matrix)
    requires Valid(g) && a.Length0 == a.Length1 == g.n && PivotsOk(A, g.n) && K < Blocks(g)
    requires Holds(a, before) && AllStages(g, A, before, Start(K))
    modifies a
    ensures Holds(a, m) && AllStages(g, A, m, Start(K + 1))
  {
    m := RunNext(g, A, a, before, Start(K), Task(K, K, K), Column(K, K + 1));
    m := DivideColumn(g, A, a, m, K);
    m := ModifyRow(g, A, a, m, K);
    m := ModifyRest(g, A, a, m, K);
  }

  /** lu: afterwards the array holds L and U, and their product is the matrix it held. */
  method Lu(g: Config, ghost A: Matrix, a: array2<real>)
    requires Valid(g) && a.Length0 == a.Length1 == g.n && PivotsOk(A, g.n) && Holds(a, A)
    modifies a
    ensures forall i, j :: 0 <= i < g.n && 0 <= j < g.n ==> a[i, j] == Factor(A, i, j)
    ensures forall i, j :: 0 <= i < g.n && 0 <= j < g.n ==> Product(A, i, j, g.n) == A(i, j)
  {
    ghost var m := A;
    StartStages(g, A);
    for K := 0 to Blocks(g)
      invariant Holds(a, m) && AllStages(g, A, m, Start(K))
    {
      m := LuStep(g, A, a, m, K);
    }
    forall i, j | 0 <= i < g.n && 0 <= j < g.n ensures m(i, j) == Factor(A, i, j) && Product(A, i, j, g.n) == A(i, j) {
      EndStages(g, A, m, i, j);
      FactorsMultiplyToMatrix(A, g.n, i, j);
    }
  }

  lemma StartStages(g: Config, A: Matrix)
    requires Valid(g)
    ensures AllStages(g, A, A, Start(0))
  {
    forall I, J | 0 <= I < Blocks(g) && 0 <= J < Blocks(g) ensures HasStage(g, A, A, I, J, 0) {
      forall i, j | InBlock(g, I, J, i, j) ensures A(i, j) == Stage(A, i, j, 0) { StageStart(A, i, j); }
    }
  }

  lemma EndStages(g: Config, A: Matrix, m: Matrix, i: nat, j: nat)
    requires Valid(g) && AllStages(g, A, m, Start(Blocks(g))) && i < g.n && j < g.n
    ensures m(i, j) == Factor(A, i, j)
  {
    var I := BlockOf(g, i);
    var J := BlockOf(g, j);
    assert HasStage(g, A, m, I, J, Had(Start(Blocks(g)), I, J));
    FinalBlock(g, A, m, I, J, i, j);
  }
}
