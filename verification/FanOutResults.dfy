/** What holds in every run of the fan-out method. */
module FanOutResults {
  import opened Arithmetic
  import opened ProcessorGrid
  import opened FanOut
  import opened FanOutSteps
  import opened FanOutRuns

  /** Every update is performed at most once, by the owner of its block and nobody else. */
  lemma UpdatedAtMostOnce(cfg: Config, sched: seq<nat>, p: nat, u: Update)
    requires ValidConfig(cfg) && Schedule(cfg, sched)
    ensures var s := Run(cfg, sched);
      && s.performed[(p, u)] <= 1
      && (s.performed[(p, u)] == 1 ==> ValidUpdate(cfg, u) && p == OwnerOf(cfg, u.dest))
  {
    var s := Run(cfg, sched);
    if (p, u) in s.performed { assert UpdateFlow(cfg, s, u); }
  }

  /** Every update of the block has been performed, once. */
  ghost predicate Updated(cfg: Config, s: State, b: Block)
    requires ValidConfig(cfg) && InMatrix(cfg, b)
  {
    forall x :: x in Sources(cfg, b) ==> s.performed[(OwnerOf(cfg, b), Update(b, x))] == 1
  }

  lemma LeftIsEmpty(cfg: Config, s: State, b: Block)
    requires Inv(cfg, s) && InMatrix(cfg, b) && Left(cfg, s, b) == {}
    ensures Updated(cfg, s, b)
  {
    assert b.col <= b.row by { assert ColumnOk(cfg, b.col); }
    forall x | x in Sources(cfg, b) ensures s.performed[(OwnerOf(cfg, b), Update(b, x))] == 1 {
      assert x !in Left(cfg, s, b);
      assert UpdateFlow(cfg, s, Update(b, x));
    }
  }

  /** remaining counts the updates not yet performed, so it never falls below zero; a block is
      completed at most once, and only when it has had all its updates. */
  lemma CompletedAfterAllUpdates(cfg: Config, sched: seq<nat>, b: Block)
    requires ValidConfig(cfg) && Schedule(cfg, sched) && InMatrix(cfg, b)
    ensures var s := Run(cfg, sched);
      && 0 <= s.remaining[b] <= |Sources(cfg, b)|
      && (s.remaining[b] == 0 <==> Updated(cfg, s, b))
      && s.done[b] <= 1
      && (b in s.done || s.proc[OwnerOf(cfg, b)].next == Ready(b) || s.proc[OwnerOf(cfg, b)].next == Complete(b)
          ==> Updated(cfg, s, b))
  {
    var s := Run(cfg, sched);
    var left := Left(cfg, s, b);
    assert DoneOk(cfg, s, b) && NextOk(cfg, s, OwnerOf(cfg, b));
    assert left <= Sources(cfg, b);
    SubsetSize(left, Sources(cfg, b));
    if left == {} { LeftIsEmpty(cfg, s, b); }
    if Updated(cfg, s, b) { assert left == {}; }
  }

  /** While an owned block of a column is not done, the column is not freed: the diagonal block
      is kept if it has been received, and so is every other block received so far. */
  lemma ColumnKeptWhileNeeded(cfg: Config, sched: seq<nat>, b: Block, x: Block)
    requires ValidConfig(cfg) && Schedule(cfg, sched) && InMatrix(cfg, b) && b.row != b.col
    requires b !in Run(cfg, sched).done && SameColumn(cfg, b.col, x)
    ensures var s, p := Run(cfg, sched), OwnerOf(cfg, b);
      && ((p, DiagOf(b)) in s.got <==> s.proc[p].diag[b.col])
      && ((p, x) in s.got <==> x in s.proc[p].lists[b.col])
  {
    var s, p := Run(cfg, sched), OwnerOf(cfg, b);
    assert BlockFlow(cfg, s, b, p) && ListsOk(cfg, s, p, b.col) && GotOk(cfg, s, (p, b));
    DiagonalKept(cfg, s, p, b);
    OwnerIsDest(cfg.grid, cfg.n, b.row, b.col);
    ColumnOpen(cfg, s, p, b);
  }

  /** Once a processor has counted every block of a column that is sent to it, it keeps none of them. */
  lemma ColumnFreed(cfg: Config, sched: seq<nat>, p: nat, c: nat)
    requires ValidConfig(cfg) && Schedule(cfg, sched) && p < cfg.grid.procs && c < cfg.n
    requires forall b :: InMatrix(cfg, b) && b.col == c && IsDest(cfg.grid, cfg.n, b.row, p) ==> (p, b) in Run(cfg, sched).counted
    ensures var q := Run(cfg, sched).proc[p]; q.lists[c] == [] && !q.diag[c]
  {
    assert ListsOk(cfg, Run(cfg, sched), p, c);
    NoneToCome(cfg, Run(cfg, sched), p, c);
  }

  lemma NoneToCome(cfg: Config, s: State, p: nat, c: nat)
    requires Shaped(cfg, s) && p < |s.proc| && c < cfg.n
    requires forall b :: InMatrix(cfg, b) && b.col == c && IsDest(cfg.grid, cfg.n, b.row, p) ==> (p, b) in s.counted
    ensures |ToCome(cfg, s, p, c)| == 0
  {
    forall b | b in ColumnBlocks(cfg, c) ensures b !in ToCome(cfg, s, p, c) { assert b.col == c; }
    assert ToCome(cfg, s, p, c) == {};
  }

  // -------------------------------------------------------------------------------------
  // The end of a run

  ghost predicate Finished(cfg: Config, s: State, b: Block)
    requires Shaped(cfg, s) && InMatrix(cfg, b)
  {
    s.done[b] == 1 && s.remaining[b] == 0 && Updated(cfg, s, b)
  }

  lemma DoneIsFinished(cfg: Config, s: State, b: Block)
    requires Inv(cfg, s) && InMatrix(cfg, b) && b in s.done
    ensures Finished(cfg, s, b)
  {
    assert DoneOk(cfg, s, b);
    LeftIsEmpty(cfg, s, b);
  }

  /** A block is done only after every pair of blocks that updates it. */
  lemma SourceIsDone(cfg: Config, s: State, b: Block, k: nat)
    requires Inv(cfg, s) && InMatrix(cfg, b) && b in s.done && Column(k) in Sources(cfg, b)
    ensures InMatrix(cfg, Block(b.row, k)) && InMatrix(cfg, Block(b.col, k))
    ensures Block(b.row, k) in s.done && Block(b.col, k) in s.done
  {
    DoneIsFinished(cfg, s, b);
    assert ColumnOk(cfg, b.col) && ColumnOk(cfg, k) && Meets(cfg.below[k], b);
    var p := OwnerOf(cfg, b);
    assert UpdateFlow(cfg, s, Update(b, Column(k)));
    assert BlockFlow(cfg, s, Block(b.row, k), p) && BlockFlow(cfg, s, Block(b.col, k), p);
  }

  /** The root of the tree of column c: the parent of a column is the first row below its diagonal. */
  ghost function RootOf(cfg: Config, c: nat): (r: nat)
    requires ValidConfig(cfg) && c < cfg.n
    ensures c <= r < cfg.n && cfg.below[r] == []
    decreases cfg.n - c
  {
    if cfg.below[c] == [] then c
    else
      assert ColumnOk(cfg, c) && cfg.below[c][0] in cfg.below[c];
      RootOf(cfg, cfg.below[c][0])
  }

  /** The structure is one tree exactly when the last column is the root of every column. */
  lemma {:induction false} OneTreeRoot(cfg: Config, c: nat)
    requires ValidConfig(cfg) && c < cfg.n && OneTree(cfg)
    ensures RootOf(cfg, c) == cfg.n - 1
    decreases cfg.n - c
  {
    if cfg.below[c] != [] {
      assert ColumnOk(cfg, c) && cfg.below[c][0] in cfg.below[c];
      OneTreeRoot(cfg, cfg.below[c][0]);
    }
  }

  /** All columns in which a column has blocks are in its tree. */
  lemma {:induction false} SameRoot(cfg: Config, c: nat, i: nat)
    requires ValidConfig(cfg) && c < cfg.n && i in cfg.below[c]
    ensures i < cfg.n && RootOf(cfg, i) == RootOf(cfg, c)
    decreases cfg.n - c
  {
    assert ColumnOk(cfg, c);
    var j := cfg.below[c][0];
    assert j in cfg.below[c] && j <= i;
    if i != j { SameRoot(cfg, j, i); }
  }

  /** When the diagonal block of a root is done, every block of its tree is done. */
  lemma {:induction false} DoneFrom(cfg: Config, s: State, c: nat, b: Block)
    requires Inv(cfg, s) && c < cfg.n && InMatrix(cfg, b) && b.col == c
    requires Block(RootOf(cfg, c), RootOf(cfg, c)) in s.done
    ensures b in s.done
    decreases cfg.n - c
  {
    assert ColumnOk(cfg, c);
    if cfg.below[c] != [] {
      var j := cfg.below[c][0];
      assert j in cfg.below[c];
      if b.row != b.col {
        OffDiagonalDone(cfg, s, c, b.row);
      } else {
        OffDiagonalDone(cfg, s, c, j);
        assert DoneOk(cfg, s, Block(j, c));
        assert BlockFlow(cfg, s, b, OwnerOf(cfg, Block(j, c)));
      }
    }
  }

  lemma {:induction false} OffDiagonalDone(cfg: Config, s: State, c: nat, i: nat)
    requires Inv(cfg, s) && c < cfg.n && i in cfg.below[c] && Block(RootOf(cfg, c), RootOf(cfg, c)) in s.done
    ensures i < cfg.n && Block(i, c) in s.done
    decreases cfg.n - c, 0
  {
    assert ColumnOk(cfg, c);
    var j := cfg.below[c][0];
    assert j in cfg.below[c];
    assert j <= i;
    var d := Block(i, j);
    assert InMatrix(cfg, d);
    DoneFrom(cfg, s, j, d);
    assert Meets(cfg.below[c], d);
    SourceIsDone(cfg, s, d, c);
  }

  lemma TerminatedLast(cfg: Config, s: State)
    requires Inv(cfg, s) && s.terminated && 0 < cfg.n
    ensures Block(cfg.n - 1, cfg.n - 1) in s.done
  {
    var last := Block(cfg.n - 1, cfg.n - 1);
    assert BlockFlow(cfg, s, last, OwnerOf(cfg, last));
  }

  lemma TerminatedState(cfg: Config, s: State, b: Block)
    requires Inv(cfg, s) && InMatrix(cfg, b) && RootOf(cfg, b.col) == cfg.n - 1 && s.terminated
    ensures Finished(cfg, s, b)
  {
    TerminatedLast(cfg, s);
    DoneFrom(cfg, s, b.col, b);
    DoneIsFinished(cfg, s, b);
  }

  /** When the termination message is issued, every block of the tree of the last column has been
      completed, has remaining 0 and has had each of its updates performed exactly once. */
  lemma TerminatedMeansTreeFinished(cfg: Config, sched: seq<nat>, b: Block)
    requires ValidConfig(cfg) && Schedule(cfg, sched) && InMatrix(cfg, b) && RootOf(cfg, b.col) == cfg.n - 1
    requires Run(cfg, sched).terminated
    ensures Finished(cfg, Run(cfg, sched), b)
  {
    TerminatedState(cfg, Run(cfg, sched), b);
  }

  /** In one tree these are all blocks. */
  lemma TerminatedMeansFinished(cfg: Config, sched: seq<nat>, b: Block)
    requires ValidConfig(cfg) && OneTree(cfg) && Schedule(cfg, sched) && InMatrix(cfg, b)
    requires Run(cfg, sched).terminated
    ensures Finished(cfg, Run(cfg, sched), b)
  {
    OneTreeRoot(cfg, b.col);
    TerminatedState(cfg, Run(cfg, sched), b);
  }

  ghost predicate AllFinished(cfg: Config, s: State)
    requires Shaped(cfg, s)
  {
    forall b :: InMatrix(cfg, b) ==> Finished(cfg, s, b)
  }

  ghost predicate RootDone(cfg: Config, s: State, r: nat)
    requires ValidConfig(cfg)
  {
    r < cfg.n && cfg.below[r] == [] ==> Block(r, r) in s.done
  }

  lemma FinishedIffRoots(cfg: Config, s: State)
    requires Inv(cfg, s)
    ensures AllFinished(cfg, s) <==> forall r :: RootDone(cfg, s, r)
  {
    if forall r :: RootDone(cfg, s, r) {
      forall b | InMatrix(cfg, b) ensures Finished(cfg, s, b) {
        assert RootDone(cfg, s, RootOf(cfg, b.col));
        DoneFrom(cfg, s, b.col, b);
        DoneIsFinished(cfg, s, b);
      }
    }
    if AllFinished(cfg, s) {
      forall r: nat ensures RootDone(cfg, s, r) {
        if r < cfg.n && cfg.below[r] == [] { assert InMatrix(cfg, Block(r, r)) && Finished(cfg, s, Block(r, r)); }
      }
    }
  }

  /** For every structure, and at every moment of every run: all blocks are finished exactly when
      the diagonal block of every root is done. */
  lemma AllFinishedIffRootsDone(cfg: Config, sched: seq<nat>)
    requires ValidConfig(cfg) && Schedule(cfg, sched)
    ensures AllFinished(cfg, Run(cfg, sched)) <==> forall r :: RootDone(cfg, Run(cfg, sched), r)
  {
    FinishedIffRoots(cfg, Run(cfg, sched));
  }

  // -------------------------------------------------------------------------------------
  // No run gets stuck before the end

  /** Processor p can take no step that does anything. */
  ghost predicate Stuck(cfg: Config, s: State, p: nat)
    requires p < |s.proc|
  {
    var q := s.proc[p];
    q.sends == [] && q.next == Nothing && (q.pc == Stopped || (q.pc == Receive && q.mail == []))
  }

  lemma StuckMeansNoStep(cfg: Config, s: State, p: nat)
    requires Inv(cfg, s) && p < |s.proc|
    ensures Stuck(cfg, s, p) <==> Step(cfg, s, p) == s
  {
    if !Stuck(cfg, s, p) { MovesOn(cfg, s, p); }
  }

  lemma MovesOn(cfg: Config, s: State, p: nat)
    requires Inv(cfg, s) && p < |s.proc| && !Stuck(cfg, s, p)
    ensures p < |Step(cfg, s, p).proc| && Step(cfg, s, p).proc[p] != s.proc[p]
  {
    var q := s.proc[p];
    assert MessagesOk(cfg, s, p) && ProcShaped(cfg, q);
    if q.sends != [] { DeliverMoves(cfg, s, p); }
    else if q.next == Nothing { LoopMoves(cfg, s, p); }
  }

  lemma LoopMoves(cfg: Config, s: State, p: nat)
    requires Inv(cfg, s) && p < |s.proc| && !Stuck(cfg, s, p) && s.proc[p].sends == [] && s.proc[p].next == Nothing
    ensures p < |Step(cfg, s, p).proc| && Step(cfg, s, p).proc[p] != s.proc[p]
  {
    assert MessagesOk(cfg, s, p) && ProcShaped(cfg, s.proc[p]);
    match s.proc[p].pc
    case Receive => ReceiveMoves(cfg, s, p);
    case Updating(b, todo) => UpdatingMoves(cfg, s, p, b, todo);
    case DiagLoop(c, rows) => DiagMoves(cfg, s, p, c, rows);
    case Counting(b) => CountMoves(cfg, s, p, b);
    case Starting(c) => StartMoves(cfg, s, p, c);
  }

  lemma CountMoves(cfg: Config, s: State, p: nat, b: Block)
    requires Shaped(cfg, s) && p < |s.proc| && s.proc[p].pc == Counting(b) && InMatrix(cfg, b)
    ensures |CountStep(cfg, s, p, b).proc| == |s.proc| && CountStep(cfg, s, p, b).proc[p] != s.proc[p]
  {
  }

  lemma StartMoves(cfg: Config, s: State, p: nat, c: nat)
    requires Shaped(cfg, s) && p < |s.proc| && s.proc[p].pc == Starting(c)
    ensures |StartStep(cfg, s, p, c).proc| == |s.proc| && StartStep(cfg, s, p, c).proc[p] != s.proc[p]
  {
    assert StartStep(cfg, s, p, c).proc[p].pc != s.proc[p].pc;
  }

  lemma DiagMoves(cfg: Config, s: State, p: nat, c: nat, rows: seq<nat>)
    requires Shaped(cfg, s) && p < |s.proc| && s.proc[p].pc == DiagLoop(c, rows)
    ensures |DiagStep(cfg, s, p, c, rows).proc| == |s.proc| && DiagStep(cfg, s, p, c, rows).proc[p] != s.proc[p]
  {
    var q := DiagStep(cfg, s, p, c, rows).proc[p];
    assert q.pc.Counting? || (q.pc.DiagLoop? && |q.pc.rows| == |rows| - 1);
  }

  lemma DeliverMoves(cfg: Config, s: State, p: nat)
    requires Inv(cfg, s) && p < |s.proc| && s.proc[p].sends != []
    ensures p < |Step(cfg, s, p).proc| && Step(cfg, s, p).proc[p] != s.proc[p]
  {
    assert MessagesOk(cfg, s, p);
    assert InMessage(cfg, p, s.proc[p].sends[0].0, s.proc[p].sends[0].1);
    assert |Deliver(s, p).proc[p].sends| == |s.proc[p].sends| - 1;
  }

  lemma ReceiveMoves(cfg: Config, s: State, p: nat)
    requires Shaped(cfg, s) && p < |s.proc| && s.proc[p].mail != [] && Arriving(cfg, p, s.proc[p].mail[0])
    ensures |ReceiveStep(cfg, s, p).proc| == |s.proc| && ReceiveStep(cfg, s, p).proc[p] != s.proc[p]
  {
    assert |ReceiveStep(cfg, s, p).proc[p].mail| == |s.proc[p].mail| - 1;
  }

  lemma UpdatingMoves(cfg: Config, s: State, p: nat, b: Block, todo: seq<Block>)
    requires Shaped(cfg, s) && p < |s.proc| && s.proc[p].pc == Updating(b, todo)
    ensures |UpdateStep(cfg, s, p, b, todo).proc| == |s.proc| && UpdateStep(cfg, s, p, b, todo).proc[p] != s.proc[p]
  {
    var r := UpdateStep(cfg, s, p, b, todo);
    assert r.proc[p].pc.Counting? || (r.proc[p].pc.Updating? && |r.proc[p].pc.todo| == |todo| - 1);
  }

  ghost predicate AllStuck(cfg: Config, s: State) {
    forall p :: 0 <= p < |s.proc| ==> Stuck(cfg, s, p)
  }

  /** The processor waits at an empty mailbox. */
  ghost predicate Quiet(q: Proc) {
    q.sends == [] && q.mail == [] && q.pc == Receive && q.next == Nothing
  }

  /** With every mailbox empty, a done block has reached all its destinations. */
  lemma QuietGot(cfg: Config, s: State, b: Block, p: nat)
    requires Inv(cfg, s) && InMatrix(cfg, b) && p < |s.proc| && b in s.done && IsDest(cfg.grid, cfg.n, b.row, p)
    requires s.proc[OwnerOf(cfg, b)].sends == [] && s.proc[p].mail == []
    ensures (p, b) in s.got
  {
    assert BlockFlow(cfg, s, b, p);
  }

  lemma QuietUpdate(cfg: Config, s: State, b: Block, x: Source)
    requires Inv(cfg, s) && InMatrix(cfg, b) && x in Sources(cfg, b)
    requires forall p :: 0 <= p < |s.proc| ==> Quiet(s.proc[p])
    requires forall y :: InMatrix(cfg, y) && y.col < b.col ==> y in s.done
    ensures (OwnerOf(cfg, b), Update(b, x)) in s.performed
  {
    var p := OwnerOf(cfg, b);
    assert ColumnOk(cfg, b.col);
    assert UpdateFlow(cfg, s, Update(b, x));
    assert Quiet(s.proc[p]);
    match x
    case Domain(d) =>
      assert DomainOk(cfg, d);
      assert Quiet(s.proc[cfg.domains[d].owner]);
    case Column(k) =>
      assert ColumnOk(cfg, k) && Meets(cfg.below[k], b);
      OwnerIsDest(cfg.grid, cfg.n, b.row, b.col);
      assert Quiet(s.proc[OwnerOf(cfg, Block(b.row, k))]) && Quiet(s.proc[OwnerOf(cfg, Block(b.col, k))]);
      QuietGot(cfg, s, Block(b.row, k), p);
      QuietGot(cfg, s, Block(b.col, k), p);
  }

  lemma QuietBlock(cfg: Config, s: State, b: Block)
    requires Inv(cfg, s) && InMatrix(cfg, b)
    requires forall p :: 0 <= p < |s.proc| ==> Quiet(s.proc[p])
    requires forall y :: InMatrix(cfg, y) && y.col < b.col ==> y in s.done
    requires b.row != b.col ==> DiagOf(b) in s.done
    ensures b in s.done
  {
    forall x | x in Sources(cfg, b) ensures (OwnerOf(cfg, b), Update(b, x)) in s.performed {
      QuietUpdate(cfg, s, b, x);
    }
    assert Left(cfg, s, b) == {};
    assert ReadyOk(cfg, s, b) && Quiet(s.proc[OwnerOf(cfg, b)]);
    if b.row != b.col {
      OwnerIsDest(cfg.grid, cfg.n, b.row, b.col);
      assert Quiet(s.proc[OwnerOf(cfg, DiagOf(b))]);
      QuietGot(cfg, s, DiagOf(b), OwnerOf(cfg, b));
    }
  }

  /** If all processors wait at empty mailboxes, all columns below c are done. */
  lemma {:induction false} QuietColumns(cfg: Config, s: State, c: nat)
    requires Inv(cfg, s) && c <= cfg.n
    requires forall p :: 0 <= p < |s.proc| ==> Quiet(s.proc[p])
    ensures forall y :: InMatrix(cfg, y) && y.col < c ==> y in s.done
  {
    if c > 0 {
      QuietColumns(cfg, s, c - 1);
      QuietBlock(cfg, s, Block(c - 1, c - 1));
      forall y | InMatrix(cfg, y) && y.col < c ensures y in s.done {
        if y.col == c - 1 { QuietBlock(cfg, s, y); }
      }
    }
  }

  lemma QuietMeansTerminated(cfg: Config, s: State)
    requires Inv(cfg, s) && 0 < cfg.n && forall p :: 0 <= p < |s.proc| ==> Quiet(s.proc[p])
    ensures s.terminated
  {
    QuietColumns(cfg, s, cfg.n);
    var last := Block(cfg.n - 1, cfg.n - 1);
    var p := OwnerOf(cfg, last);
    OwnerIsDest(cfg.grid, cfg.n, last.row, last.col);
    assert Quiet(s.proc[p]);
    QuietGot(cfg, s, last, p);
    assert GotOk(cfg, s, (p, last));
  }

  lemma StuckMeansTerminated(cfg: Config, s: State)
    requires Inv(cfg, s) && 0 < cfg.n && AllStuck(cfg, s)
    ensures s.terminated
  {
    if p :| 0 <= p < |s.proc| && s.proc[p].pc == Stopped {
      assert MessagesOk(cfg, s, p);
    } else {
      forall p | 0 <= p < |s.proc| ensures Quiet(s.proc[p]) { assert Stuck(cfg, s, p); }
      QuietMeansTerminated(cfg, s);
    }
  }

  // -------------------------------------------------------------------------------------
  // The termination message reaches every processor

  ghost predicate TermFlow(cfg: Config, s: State, p: nat)
    requires Shaped(cfg, s) && p < |s.proc|
  {
    s.terminated && 0 < cfg.n ==>
      Sending(s, OwnerOf(cfg, Block(cfg.n - 1, cfg.n - 1)), p, Terminate) + Waiting(s, p, Terminate)
      + (if s.proc[p].pc == Stopped then 1 else 0) >= 1
  }

  /** A step that takes no message, makes no send and issues no termination message. */
  lemma TermFrame(cfg: Config, s: State, r: State, p: nat, q: nat)
    requires Shaped(cfg, s) && Shaped(cfg, r) && p < |s.proc| && q < |s.proc| && TermFlow(cfg, s, q)
    requires r.terminated == s.terminated && s.proc[p].sends == [] && s.proc[p].pc != Stopped
    requires r.proc[p].mail == s.proc[p].mail
    requires forall x :: 0 <= x < |s.proc| && x != p ==> r.proc[x] == s.proc[x]
    ensures TermFlow(cfg, r, q)
  {
  }

  lemma TermKept(cfg: Config, s: State, p: nat, q: nat)
    requires Inv(cfg, s) && p < |s.proc| && q < |s.proc| && TermFlow(cfg, s, q) && Inv(cfg, Step(cfg, s, p))
    ensures TermFlow(cfg, Step(cfg, s, p), q)
  {
    var r := Step(cfg, s, p);
    assert MessagesOk(cfg, s, p);
    if s.proc[p].sends != [] { DeliverTerm(cfg, s, p, q); }
    else if s.proc[p].next == Nothing { LoopTerm(cfg, s, p, q); }
    else if s.proc[p].pc != Stopped { TermFrame(cfg, s, r, p, q); }
  }

  lemma LoopTerm(cfg: Config, s: State, p: nat, q: nat)
    requires Inv(cfg, s) && p < |s.proc| && q < |s.proc| && TermFlow(cfg, s, q) && Inv(cfg, Step(cfg, s, p))
    requires s.proc[p].sends == [] && s.proc[p].next == Nothing
    ensures TermFlow(cfg, Step(cfg, s, p), q)
  {
    assert MessagesOk(cfg, s, p) && ProcShaped(cfg, s.proc[p]);
    match s.proc[p].pc
    case Receive => if s.proc[p].mail != [] { ReceiveTerm(cfg, s, p, q); }
    case DiagLoop(c, rows) => DiagTerm(cfg, s, p, c, rows, q);
    case Updating(b, todo) => UpdatingTerm(cfg, s, p, b, todo, q);
    case Stopped =>
    case Starting(c) => StartTerm(cfg, s, p, c, q);
    case Counting(b) => CountTerm(cfg, s, p, b, q);
  }

  lemma StartTerm(cfg: Config, s: State, p: nat, c: nat, q: nat)
    requires Shaped(cfg, s) && p < |s.proc| && s.proc[p].pc == Starting(c) && s.proc[p].sends == []
    requires q < |s.proc| && TermFlow(cfg, s, q) && Shaped(cfg, StartStep(cfg, s, p, c))
    ensures TermFlow(cfg, StartStep(cfg, s, p, c), q)
  {
    TermFrame(cfg, s, StartStep(cfg, s, p, c), p, q);
  }

  lemma CountTerm(cfg: Config, s: State, p: nat, b: Block, q: nat)
    requires Shaped(cfg, s) && p < |s.proc| && s.proc[p].pc == Counting(b) && s.proc[p].sends == [] && InMatrix(cfg, b)
    requires q < |s.proc| && TermFlow(cfg, s, q) && Shaped(cfg, CountStep(cfg, s, p, b))
    ensures TermFlow(cfg, CountStep(cfg, s, p, b), q)
  {
    TermFrame(cfg, s, CountStep(cfg, s, p, b), p, q);
  }

  lemma DeliverTerm(cfg: Config, s: State, p: nat, q: nat)
    requires Inv(cfg, s) && p < |s.proc| && q < |s.proc| && TermFlow(cfg, s, q)
    requires s.proc[p].sends != [] && Inv(cfg, Step(cfg, s, p))
    ensures TermFlow(cfg, Step(cfg, s, p), q)
  {
    assert MessagesOk(cfg, s, p);
    assert InMessage(cfg, p, s.proc[p].sends[0].0, s.proc[p].sends[0].1);
    if 0 < cfg.n { DeliverCounts(s, p, OwnerOf(cfg, Block(cfg.n - 1, cfg.n - 1)), q, Terminate); }
  }

  lemma ReceiveTerm(cfg: Config, s: State, p: nat, q: nat)
    requires Shaped(cfg, s) && p < |s.proc| && s.proc[p].mail != [] && Arriving(cfg, p, s.proc[p].mail[0])
    requires q < |s.proc| && TermFlow(cfg, s, q) && Shaped(cfg, ReceiveStep(cfg, s, p)) && s.proc[p].pc == Receive
    ensures TermFlow(cfg, ReceiveStep(cfg, s, p), q)
  {
    TakenCounts(s, ReceiveStep(cfg, s, p), p, q, Terminate);
  }

  lemma DiagTerm(cfg: Config, s: State, p: nat, c: nat, rows: seq<nat>, q: nat)
    requires Shaped(cfg, s) && p < |s.proc| && s.proc[p].pc == DiagLoop(c, rows) && s.proc[p].sends == []
    requires q < |s.proc| && TermFlow(cfg, s, q) && Shaped(cfg, DiagStep(cfg, s, p, c, rows))
    ensures TermFlow(cfg, DiagStep(cfg, s, p, c, rows), q)
  {
    AddressedCount(AllSends(cfg.grid.procs), Terminate, q, Terminate);
    AllCount(cfg.grid.procs, q);
  }

  lemma UpdatingTerm(cfg: Config, s: State, p: nat, b: Block, todo: seq<Block>, q: nat)
    requires Shaped(cfg, s) && p < |s.proc| && s.proc[p].pc == Updating(b, todo)
    requires q < |s.proc| && TermFlow(cfg, s, q) && Shaped(cfg, UpdateStep(cfg, s, p, b, todo))
    ensures TermFlow(cfg, UpdateStep(cfg, s, p, b, todo), q)
  {
  }

  lemma RunInit(cfg: Config)
    requires ValidConfig(cfg)
    ensures Run(cfg, []) == Init(cfg)
  {
  }

  lemma RunStep(cfg: Config, sched: seq<nat>, p: nat)
    requires ValidConfig(cfg) && Schedule(cfg, sched) && p < cfg.grid.procs
    ensures Schedule(cfg, sched + [p]) && Run(cfg, sched + [p]) == Step(cfg, Run(cfg, sched), p)
  {
    assert (sched + [p])[..|sched|] == sched;
  }

  lemma {:induction false} TermAlways(cfg: Config, sched: seq<nat>, q: nat)
    requires ValidConfig(cfg) && Schedule(cfg, sched) && q < cfg.grid.procs
    ensures TermFlow(cfg, Run(cfg, sched), q)
    decreases |sched|
  {
    if sched == [] {
      RunInit(cfg);
    } else {
      var before, p := sched[..|sched| - 1], sched[|sched| - 1];
      assert sched == before + [p];
      TermAlways(cfg, before, q);
      RunStep(cfg, before, p);
      TermKept(cfg, Run(cfg, before), p, q);
    }
  }

  lemma StuckStop(cfg: Config, s: State, p: nat)
    requires Inv(cfg, s) && 0 < cfg.n && p < cfg.grid.procs && AllStuck(cfg, s) && TermFlow(cfg, s, p) && s.terminated
    ensures s.proc[p].pc == Stopped
  {
    var last := OwnerOf(cfg, Block(cfg.n - 1, cfg.n - 1));
    assert Stuck(cfg, s, p) && Stuck(cfg, s, last);
    assert Count(s.proc[last].sends, (p, Terminate)) == 0;
  }

  lemma StuckState(cfg: Config, s: State, p: nat, b: Block)
    requires Inv(cfg, s) && InMatrix(cfg, b) && p < cfg.grid.procs && TermFlow(cfg, s, p) && AllStuck(cfg, s)
    ensures s.terminated && s.proc[p].pc == Stopped && (RootOf(cfg, b.col) == cfg.n - 1 ==> Finished(cfg, s, b))
  {
    StuckMeansTerminated(cfg, s);
    StuckStop(cfg, s, p);
    if RootOf(cfg, b.col) == cfg.n - 1 { TerminatedState(cfg, s, b); }
  }

  lemma AllAreStuck(cfg: Config, s: State)
    requires Inv(cfg, s) && forall q :: 0 <= q < cfg.grid.procs ==> Step(cfg, s, q) == s
    ensures AllStuck(cfg, s)
  {
    forall q | 0 <= q < |s.proc| ensures Stuck(cfg, s, q) { StuckMeansNoStep(cfg, s, q); }
  }

  /** No deadlock: a run in which no processor can move has ended.  The termination message has
      been issued and has reached every processor, and every block of the tree of the last column
      is finished. */
  lemma StuckOnlyAtTheEnd(cfg: Config, sched: seq<nat>, p: nat, b: Block)
    requires ValidConfig(cfg) && Schedule(cfg, sched) && p < cfg.grid.procs && InMatrix(cfg, b)
    requires forall q :: 0 <= q < cfg.grid.procs ==> Step(cfg, Run(cfg, sched), q) == Run(cfg, sched)
    ensures Run(cfg, sched).terminated && Run(cfg, sched).proc[p].pc == Stopped
    ensures RootOf(cfg, b.col) == cfg.n - 1 ==> Finished(cfg, Run(cfg, sched), b)
  {
    AllAreStuck(cfg, Run(cfg, sched));
    TermAlways(cfg, sched, p);
    StuckState(cfg, Run(cfg, sched), p, b);
  }
}
