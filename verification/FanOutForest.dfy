/** The termination message of the fan-out method and forests.  The last column ends the run for all;
    exactly the structures that are one tree are finished then whatever the distribution and the
    schedule. */
module FanOutForest {
  import opened ProcessorGrid
  import opened FanOut
  import opened FanOutSteps
  import opened FanOutRuns
  import opened FanOutResults
  import opened FanOutProgress

  // -------------------------------------------------------------------------------------
  // Another distribution of the same structure

  /** The same blocks and domains, on any processors. */
  ghost predicate SameStructure(cfg: Config, d: Config) {
    && d.n == cfg.n && d.below == cfg.below && d.head == cfg.head && |d.domains| == |cfg.domains|
    && forall k :: 0 <= k < |d.domains| ==> d.domains[k].rows == cfg.domains[k].rows
  }

  /** The tree of the last column goes to processor 1, all other columns to processor 0. */
  ghost function Side(cfg: Config, c: nat): nat
    requires ValidConfig(cfg) && c < cfg.n
  {
    if RootOf(cfg, c) == cfg.n - 1 then 1 else 0
  }

  /** One processor has the tree of the last column and all domains. */
  ghost predicate Parted(cfg: Config) {
    && ValidConfig(cfg) && 0 < cfg.n && cfg.grid.procs == 2
    && (forall b :: InMatrix(cfg, b) ==> OwnedBySide(cfg, b))
    && (forall d :: 0 <= d < |cfg.domains| ==> cfg.domains[d].owner == 1)
  }

  ghost predicate OwnedBySide(cfg: Config, b: Block)
    requires ValidConfig(cfg) && InMatrix(cfg, b)
  {
    OwnerOf(cfg, b) == Side(cfg, b.col)
  }

  ghost function SideGrid(cfg: Config): (g: Grid)
    requires ValidConfig(cfg)
    ensures ValidGrid(g, cfg.n)
  {
    Grid(2, true, 2, 1, seq(cfg.n, i requires 0 <= i < cfg.n => Side(cfg, i)), seq(cfg.n, _ => 0))
  }

  ghost function PartedOf(cfg: Config): Config
    requires ValidConfig(cfg)
  {
    Config(cfg.n, cfg.below, cfg.head, SideGrid(cfg),
           seq(|cfg.domains|, d requires 0 <= d < |cfg.domains| => DomainInfo(1, cfg.domains[d].rows)))
  }

  lemma PartedIsValid(cfg: Config, d: Config)
    requires ValidConfig(cfg) && d == PartedOf(cfg)
    ensures SameStructure(cfg, d) && ValidConfig(d)
  {
    forall k | 0 <= k < d.n ensures ColumnOk(d, k) { assert ColumnOk(cfg, k); }
    forall k | 0 <= k < |d.domains| ensures DomainOk(d, k) { assert DomainOk(cfg, k); }
  }

  lemma {:induction false} SameRoots(cfg: Config, d: Config, c: nat)
    requires ValidConfig(cfg) && ValidConfig(d) && SameStructure(cfg, d) && c < cfg.n
    ensures RootOf(d, c) == RootOf(cfg, c)
    decreases cfg.n - c
  {
    if cfg.below[c] != [] {
      assert ColumnOk(cfg, c) && cfg.below[c][0] in cfg.below[c];
      SameRoots(cfg, d, cfg.below[c][0]);
    }
  }

  lemma SideOwner(cfg: Config, b: Block)
    requires ValidConfig(cfg) && InMatrix(cfg, b)
    ensures Owner(SideGrid(cfg), cfg.n, b.row, b.col) == Side(cfg, b.row) == Side(cfg, b.col)
  {
    if b.row != b.col { SameRoot(cfg, b.col, b.row); }
    assert ProcRow(SideGrid(cfg), b.row) == Side(cfg, b.row) && ProcCol(SideGrid(cfg), b.col) == 0;
  }

  lemma PartedIsParted(cfg: Config, d: Config)
    requires ValidConfig(cfg) && 0 < cfg.n && d == PartedOf(cfg)
    ensures SameStructure(cfg, d) && Parted(d)
  {
    PartedIsValid(cfg, d);
    forall b | InMatrix(d, b) ensures OwnedBySide(d, b) {
      assert InMatrix(cfg, b);
      SideOwner(cfg, b);
      SameRoots(cfg, d, b.col);
    }
  }

  // -------------------------------------------------------------------------------------
  // Processor 1 alone

  ghost function Ones(k: nat): seq<nat> { seq(k, _ => 1) }

  lemma OnesNext(cfg: Config, k: nat)
    requires Parted(cfg)
    ensures Schedule(cfg, Ones(k)) && Schedule(cfg, Ones(k + 1)) && Ones(k + 1) == Ones(k) + [1]
    ensures Run(cfg, Ones(k + 1)) == Step(cfg, Run(cfg, Ones(k)), 1)
  {
    assert Ones(k + 1) == Ones(k) + [1];
    RunStep(cfg, Ones(k), 1);
  }

  lemma LoopDone(cfg: Config, s: State, p: nat)
    requires Inv(cfg, s) && p < |s.proc| && s.proc[p].sends == [] && s.proc[p].next == Nothing
    ensures Step(cfg, s, p).done == s.done
  {
    assert MessagesOk(cfg, s, p) && ProcShaped(cfg, s.proc[p]);
  }

  /** A step of a processor completes no block of another. */
  lemma DoneByOwner(cfg: Config, s: State, p: nat, b: Block)
    requires Inv(cfg, s) && p < |s.proc| && InMatrix(cfg, b) && OwnerOf(cfg, b) != p && b !in s.done
    ensures b !in Step(cfg, s, p).done
  {
    var q := s.proc[p];
    assert MessagesOk(cfg, s, p) && ProcShaped(cfg, q);
    if q.sends != [] {
      assert InMessage(cfg, p, q.sends[0].0, q.sends[0].1);
      assert Deliver(s, p).done == s.done;
    } else if q.next == Nothing {
      LoopDone(cfg, s, p);
    } else {
      assert NextOk(cfg, s, p) && q.next.b != b;
    }
  }

  lemma {:induction false} OthersNotDone(cfg: Config, k: nat, b: Block)
    requires Parted(cfg) && InMatrix(cfg, b) && OwnerOf(cfg, b) == 0
    ensures Schedule(cfg, Ones(k)) && b !in Run(cfg, Ones(k)).done
  {
    if k == 0 {
      assert Ones(0) == [];
      RunInit(cfg);
    } else {
      OthersNotDone(cfg, k - 1, b);
      OnesNext(cfg, k - 1);
      DoneByOwner(cfg, Run(cfg, Ones(k - 1)), 1, b);
    }
  }

  /** What falls until it stops, stops. */
  lemma {:induction false} Stops(level: nat -> nat, stopped: nat -> bool, k: nat) returns (m: nat)
    requires forall i: nat, j: nat :: j == i + 1 ==> stopped(i) || level(j) < level(i)
    ensures stopped(m)
    decreases level(k)
  {
    if stopped(k) { m := k; } else { m := Stops(level, stopped, k + 1); }
  }

  lemma OnesLower(cfg: Config, k: nat)
    requires Parted(cfg)
    ensures Schedule(cfg, Ones(k)) && (!CanMove(cfg, Ones(k), 1) || Level(cfg, Ones(k + 1)) < Level(cfg, Ones(k)))
  {
    OnesNext(cfg, k);
    if CanMove(cfg, Ones(k), 1) { MoveLowers(cfg, Ones(k), 1); }
  }

  lemma AloneStops(cfg: Config) returns (k: nat)
    requires Parted(cfg)
    ensures Schedule(cfg, Ones(k)) && !CanMove(cfg, Ones(k), 1)
  {
    var level: nat -> nat := (i: nat) => Level(cfg, Ones(i));
    var stopped: nat -> bool := (i: nat) => Schedule(cfg, Ones(i)) && !CanMove(cfg, Ones(i), 1);
    forall i: nat, j: nat | j == i + 1 ensures stopped(i) || level(j) < level(i) { OnesLower(cfg, i); }
    k := Stops(level, stopped, 0);
  }

  lemma SourceColumn(cfg: Config, b: Block, k: nat)
    requires Parted(cfg) && InMatrix(cfg, b) && Side(cfg, b.col) == 1 && Column(k) in Sources(cfg, b)
    ensures k < b.col && InMatrix(cfg, Block(b.row, k)) && InMatrix(cfg, Block(b.col, k)) && Side(cfg, k) == 1
    ensures OwnerOf(cfg, Block(b.row, k)) == OwnerOf(cfg, Block(b.col, k)) == 1
  {
    assert ColumnOk(cfg, k) && Meets(cfg.below[k], b);
    SameRoot(cfg, k, b.col);
    assert OwnedBySide(cfg, Block(b.row, k)) && OwnedBySide(cfg, Block(b.col, k));
  }

  /** When processor 1 waits at an empty mailbox, the updates from its done columns are in. */
  lemma AloneUpdate(cfg: Config, s: State, b: Block, x: Source)
    requires Inv(cfg, s) && Parted(cfg) && Quiet(s.proc[1])
    requires InMatrix(cfg, b) && Side(cfg, b.col) == 1 && x in Sources(cfg, b)
    requires forall y :: InMatrix(cfg, y) && y.col < b.col && Side(cfg, y.col) == 1 ==> y in s.done
    ensures (OwnerOf(cfg, b), Update(b, x)) in s.performed
  {
    assert ColumnOk(cfg, b.col) && OwnedBySide(cfg, b);
    assert UpdateFlow(cfg, s, Update(b, x));
    match x
    case Domain(d) =>
      assert DomainOk(cfg, d);
    case Column(k) =>
      SourceColumn(cfg, b, k);
      OwnerIsDest(cfg.grid, cfg.n, b.row, b.col);
      QuietGot(cfg, s, Block(b.row, k), 1);
      QuietGot(cfg, s, Block(b.col, k), 1);
  }

  lemma AloneBlock(cfg: Config, s: State, b: Block)
    requires Inv(cfg, s) && Parted(cfg) && Quiet(s.proc[1]) && InMatrix(cfg, b) && Side(cfg, b.col) == 1
    requires forall y :: InMatrix(cfg, y) && y.col < b.col && Side(cfg, y.col) == 1 ==> y in s.done
    requires b.row != b.col ==> DiagOf(b) in s.done
    ensures b in s.done
  {
    forall x | x in Sources(cfg, b) ensures (OwnerOf(cfg, b), Update(b, x)) in s.performed { AloneUpdate(cfg, s, b, x); }
    assert Left(cfg, s, b) == {};
    assert ReadyOk(cfg, s, b) && OwnedBySide(cfg, b);
    if b.row != b.col {
      OwnerIsDest(cfg.grid, cfg.n, b.row, b.col);
      assert OwnedBySide(cfg, DiagOf(b));
      QuietGot(cfg, s, DiagOf(b), 1);
    }
  }

  lemma {:induction false} AloneColumns(cfg: Config, s: State, c: nat)
    requires Inv(cfg, s) && Parted(cfg) && Quiet(s.proc[1]) && c <= cfg.n
    ensures forall y :: InMatrix(cfg, y) && y.col < c && Side(cfg, y.col) == 1 ==> y in s.done
  {
    if c > 0 {
      AloneColumns(cfg, s, c - 1);
      if Side(cfg, c - 1) == 1 { AloneBlock(cfg, s, Block(c - 1, c - 1)); }
      forall y | InMatrix(cfg, y) && y.col < c && Side(cfg, y.col) == 1 ensures y in s.done {
        if y.col == c - 1 { AloneBlock(cfg, s, y); }
      }
    }
  }

  lemma LastSide(cfg: Config)
    requires Parted(cfg)
    ensures Side(cfg, cfg.n - 1) == 1 && OwnerOf(cfg, Block(cfg.n - 1, cfg.n - 1)) == 1
  {
    assert OwnedBySide(cfg, Block(cfg.n - 1, cfg.n - 1));
  }

  lemma AloneTerminates(cfg: Config, s: State)
    requires Inv(cfg, s) && Parted(cfg) && Stuck(cfg, s, 1)
    ensures s.terminated
  {
    if s.proc[1].pc == Stopped {
      assert MessagesOk(cfg, s, 1);
    } else {
      AloneColumns(cfg, s, cfg.n);
      LastSide(cfg);
      var last := Block(cfg.n - 1, cfg.n - 1);
      assert InMatrix(cfg, last);
      OwnerIsDest(cfg.grid, cfg.n, last.row, last.col);
      QuietGot(cfg, s, last, 1);
      assert GotOk(cfg, s, (1, last));
    }
  }

  // -------------------------------------------------------------------------------------
  // One tree, and only one tree

  /** If the run has issued the termination message, all blocks are finished. */
  ghost predicate EndsFinished(cfg: Config, sched: seq<nat>) {
    ValidConfig(cfg) && Schedule(cfg, sched) && Run(cfg, sched).terminated ==> AllFinished(cfg, Run(cfg, sched))
  }

  /** For every forest there are a distribution and a run that issue the termination message while
      the diagonal block of the root of another tree has not been touched. */
  lemma ForestTerminatesEarly(cfg: Config) returns (d: Config, sched: seq<nat>, r: nat)
    requires ValidConfig(cfg) && !OneTree(cfg)
    ensures SameStructure(cfg, d) && ValidConfig(d) && Schedule(d, sched) && Run(d, sched).terminated
    ensures r < cfg.n && Block(r, r) !in Run(d, sched).done && !EndsFinished(d, sched)
  {
    r :| 0 <= r < cfg.n - 1 && cfg.below[r] == [];
    d := PartedOf(cfg);
    PartedIsParted(cfg, d);
    var k := AloneStops(d);
    sched := Ones(k);
    StuckMeansNoStep(d, Run(d, sched), 1);
    AloneTerminates(d, Run(d, sched));
    assert OwnedBySide(d, Block(r, r));
    OthersNotDone(d, k, Block(r, r));
    NotFinished(d, Run(d, sched), Block(r, r));
  }

  lemma NotFinished(cfg: Config, s: State, b: Block)
    requires Inv(cfg, s) && InMatrix(cfg, b) && b !in s.done
    ensures !AllFinished(cfg, s)
  {
    assert !Finished(cfg, s, b);
  }

  lemma OneTreeEndsFinished(cfg: Config, d: Config, sched: seq<nat>)
    requires ValidConfig(cfg) && OneTree(cfg) && SameStructure(cfg, d)
    ensures EndsFinished(d, sched)
  {
    if ValidConfig(d) && Schedule(d, sched) && Run(d, sched).terminated {
      forall b | InMatrix(d, b) ensures Finished(d, Run(d, sched), b) { TerminatedMeansFinished(d, sched, b); }
    }
  }

  /** The structures for which the termination message always means that all is finished are exactly
      those that are one tree. */
  lemma TerminationIffOneTree(cfg: Config)
    requires ValidConfig(cfg)
    ensures OneTree(cfg) <==> forall d, sched :: SameStructure(cfg, d) ==> EndsFinished(d, sched)
  {
    if OneTree(cfg) {
      forall d, sched | SameStructure(cfg, d) ensures EndsFinished(d, sched) { OneTreeEndsFinished(cfg, d, sched); }
    } else {
      var d, sched, r := ForestTerminatesEarly(cfg);
    }
  }

  /** Two block columns that have nothing to do with each other. */
  ghost predicate IsSmallForest(cfg: Config) {
    && cfg.n == 2 && |cfg.below| == |cfg.head| == 2 && cfg.below[0] == [] && cfg.below[1] == []
    && cfg.head[0] && cfg.head[1] && cfg.domains == [] && cfg.grid.procs == 1 && !cfg.grid.scatter
  }

  lemma SmallForest() returns (cfg: Config)
    ensures IsSmallForest(cfg)
  {
    cfg := Config(2, [[], []], [true, true], Grid(1, false, 0, 0, [], []), []);
  }

  lemma SmallForestIsForest(cfg: Config)
    requires IsSmallForest(cfg)
    ensures ValidConfig(cfg) && !OneTree(cfg)
  {
    assert ColumnOk(cfg, 0);
    assert ColumnOk(cfg, 1);
  }

  /** For that input a run issues the termination message although not all is finished. */
  lemma SmallForestFails() returns (cfg: Config, d: Config, sched: seq<nat>)
    ensures IsSmallForest(cfg) && ValidConfig(cfg) && SameStructure(cfg, d) && !EndsFinished(d, sched)
  {
    cfg := SmallForest();
    SmallForestIsForest(cfg);
    var r;
    d, sched, r := ForestTerminatesEarly(cfg);
  }
}
