/** Progress of the fan-out method: every step that does something lowers a measure, so every run
    that goes on comes to its end. */
module FanOutProgress {
  import opened Arithmetic
  import opened ProcessorGrid
  import opened FanOut
  import opened FanOutSteps
  import opened FanOutRuns
  import opened FanOutResults

  // -------------------------------------------------------------------------------------
  // Sizes

  /** No block is sent to more processors than this. */
  ghost function Spread(g: Grid): nat {
    if g.scatter then g.dimi + g.dimj else g.procs
  }

  lemma {:induction false} RowSendsLength(d: nat, r: nat, m: nat)
    ensures |RowSends(d, r, m)| == m
  {
    if m > 0 { RowSendsLength(d, r, m - 1); }
  }

  lemma {:induction false} ColumnSendsLength(d: nat, r: nat, c: nat, m: nat)
    ensures |ColumnSends(d, r, c, m)| <= m
  {
    if m > 0 { ColumnSendsLength(d, r, c, m - 1); }
  }

  lemma {:induction false} AllSendsLength(m: nat)
    ensures |AllSends(m)| == m
  {
    if m > 0 { AllSendsLength(m - 1); }
  }

  lemma DestsLength(g: Grid, n: nat, i: nat)
    requires ValidGrid(g, n) && i < n
    ensures |Dests(g, n, i)| <= Spread(g)
  {
    if g.scatter {
      RowSendsLength(g.dimi, ProcRow(g, i), g.dimj);
      ColumnSendsLength(g.dimi, ProcRow(g, i), ProcCol(g, i), g.dimi);
    } else {
      AllSendsLength(g.procs);
    }
  }

  lemma {:induction false} DistinctLength(s: seq<nat>, n: nat)
    requires Distinct(s) && forall i :: 0 <= i < |s| ==> s[i] < n
    ensures |s| <= n
  {
    if s != [] {
      assert s[0] < n;
      if i :| 0 <= i < |s| && s[i] == n - 1 {
        var t := s[..i] + s[i + 1..];
        forall j | 0 <= j < |t| ensures t[j] < n - 1 { assert t[j] == s[if j < i then j else j + 1]; }
        DistinctLength(t, n - 1);
      } else {
        DistinctLength(s, n - 1);
      }
    }
  }

  lemma ColumnLength(cfg: Config, c: nat)
    requires ValidConfig(cfg) && c < cfg.n
    ensures |cfg.below[c]| <= cfg.n
  {
    assert ColumnOk(cfg, c);
    forall i | 0 <= i < |cfg.below[c]| ensures cfg.below[c][i] < cfg.n { assert cfg.below[c][i] in cfg.below[c]; }
    DistinctLength(cfg.below[c], cfg.n);
  }

  lemma ListLength(cfg: Config, list: seq<Block>, c: nat)
    requires |cfg.below| == cfg.n && Distinct(list) && forall x :: x in list ==> SameColumn(cfg, c, x)
    ensures |list| <= cfg.n
  {
    var rows := seq(|list|, i requires 0 <= i < |list| => list[i].row);
    forall i | 0 <= i < |list| ensures SameColumn(cfg, c, list[i]) { assert list[i] in list; }
    DistinctLength(rows, cfg.n);
  }

  // -------------------------------------------------------------------------------------
  // The measure

  /** What a block completion may still cost: the sends and their deliveries. */
  ghost function Completion(cfg: Config): nat { 2 * Spread(cfg.grid) + 1 }

  /** What a message costs its receiver: an update may lead to a completion.  The receipt of a block
      is paid for apart. */
  ghost function MessageCost(cfg: Config, m: Msg): nat {
    if m.DomainMsg? then Completion(cfg) + 1 else 1
  }

  ghost function SendsCost(cfg: Config, sends: seq<(nat, Msg)>): nat {
    if sends == [] then 0 else MessageCost(cfg, sends[0].1) + 1 + SendsCost(cfg, sends[1..])
  }

  ghost function MailCost(cfg: Config, mail: seq<Msg>): nat {
    if mail == [] then 0 else MessageCost(cfg, mail[0]) + MailCost(cfg, mail[1..])
  }

  /** What m turns of a loop cost when each may complete a block. */
  ghost function TurnsCost(cfg: Config, m: nat): nat {
    if m == 0 then 0 else TurnsCost(cfg, m - 1) + Completion(cfg) + 2
  }

  ghost function PcCost(cfg: Config, pc: Pc): nat {
    match pc
    case Starting(c) => TurnsCost(cfg, if c < cfg.n then cfg.n - c else 0) + 2
    case DiagLoop(c, rows) => TurnsCost(cfg, |rows|) + 2 * cfg.grid.procs + 2
    case Updating(b, todo) => TurnsCost(cfg, |todo|) + 2
    case Counting(b) => 1
    case _ => 0
  }

  ghost function ProcCost(cfg: Config, q: Proc): nat {
    SendsCost(cfg, q.sends) + (if q.next.Nothing? then 0 else Completion(cfg)) + MailCost(cfg, q.mail) + PcCost(cfg, q.pc)
  }

  ghost function TotalCost(cfg: Config, procs: seq<Proc>): nat {
    if procs == [] then 0 else TotalCost(cfg, procs[..|procs| - 1]) + ProcCost(cfg, procs[|procs| - 1])
  }

  /** The most that the work on one received block costs. */
  ghost function ReceiptCost(cfg: Config): nat { TurnsCost(cfg, cfg.n + 1) + 2 * cfg.grid.procs + 2 }

  ghost function AllReceipts(cfg: Config): set<(nat, Block)>
    requires ValidConfig(cfg)
  {
    set p, b | 0 <= p < cfg.grid.procs && b in AllBlocks(cfg) :: (p, b)
  }

  /** The block receipts to come, and the work in hand. */
  ghost function Measure(cfg: Config, s: State): nat
    requires ValidConfig(cfg)
  {
    |AllReceipts(cfg) - s.got| * ReceiptCost(cfg) + TotalCost(cfg, s.proc)
  }

  // -------------------------------------------------------------------------------------
  // One processor

  lemma {:induction false} TurnsMost(cfg: Config, m: nat, most: nat)
    requires m <= most
    ensures TurnsCost(cfg, m) <= TurnsCost(cfg, most)
  {
    if m < most { TurnsMost(cfg, m, most - 1); }
  }

  lemma {:induction false} MailAppend(cfg: Config, mail: seq<Msg>, m: Msg)
    ensures MailCost(cfg, mail + [m]) == MailCost(cfg, mail) + MessageCost(cfg, m)
  {
    if mail == [] {
      assert (mail + [m])[1..] == [];
    } else {
      assert (mail + [m])[1..] == mail[1..] + [m];
      MailAppend(cfg, mail[1..], m);
    }
  }

  /** The sends of a block or of the termination message cost two each. */
  lemma {:induction false} AddressedCost(cfg: Config, ds: seq<nat>, m: Msg)
    requires !m.DomainMsg?
    ensures SendsCost(cfg, Addressed(ds, m)) == 2 * |ds|
  {
    if ds != [] {
      assert Addressed(ds, m)[1..] == Addressed(ds[1..], m);
      AddressedCost(cfg, ds[1..], m);
    }
  }

  lemma {:induction false} TotalUpdate(cfg: Config, procs: seq<Proc>, p: nat, q: Proc)
    requires p < |procs|
    ensures TotalCost(cfg, procs[p := q]) == TotalCost(cfg, procs) - ProcCost(cfg, procs[p]) + ProcCost(cfg, q)
  {
    var last := |procs| - 1;
    if p < last {
      TotalUpdate(cfg, procs[..last], p, q);
      assert procs[p := q][..last] == procs[..last][p := q];
    } else {
      assert procs[p := q][..last] == procs[..last];
    }
  }

  lemma Lowered(cfg: Config, s: State, r: State, p: nat)
    requires ValidConfig(cfg) && r.got == s.got
    requires p < |s.proc| == |r.proc| && r.proc == s.proc[p := r.proc[p]] && ProcCost(cfg, r.proc[p]) < ProcCost(cfg, s.proc[p])
    ensures Measure(cfg, r) < Measure(cfg, s)
  {
    TotalUpdate(cfg, s.proc, p, r.proc[p]);
  }

  // -------------------------------------------------------------------------------------
  // The steps

  lemma DeliverCost(cfg: Config, s: State, p: nat)
    requires ValidConfig(cfg) && p < |s.proc| && s.proc[p].sends != [] && s.proc[p].sends[0].0 < |s.proc|
    ensures Measure(cfg, Deliver(s, p)) < Measure(cfg, s)
  {
    var (to, m) := s.proc[p].sends[0];
    var q := s.proc[p].(sends := s.proc[p].sends[1..]);
    var s1 := With(s, p, q);
    TotalUpdate(cfg, s.proc, p, q);
    TotalUpdate(cfg, s1.proc, to, s1.proc[to].(mail := s1.proc[to].mail + [m]));
    MailAppend(cfg, s1.proc[to].mail, m);
  }

  lemma DoneCost(cfg: Config, s: State, p: nat, b: Block)
    requires Shaped(cfg, s) && p < |s.proc| && InMatrix(cfg, b) && s.proc[p].sends == [] && s.proc[p].next != Nothing
    ensures Measure(cfg, BlockDone(cfg, s, p, b)) < Measure(cfg, s)
  {
    DestsLength(cfg.grid, cfg.n, b.row);
    AddressedCost(cfg, Dests(cfg.grid, cfg.n, b.row), BlockMsg(b));
    Lowered(cfg, s, BlockDone(cfg, s, p, b), p);
  }

  lemma ReadyCost(cfg: Config, s: State, p: nat, b: Block)
    requires Shaped(cfg, s) && p < |s.proc| && InMatrix(cfg, b) && s.proc[p].sends == [] && s.proc[p].next != Nothing
    ensures Measure(cfg, BlockReady(cfg, s, p, b)) < Measure(cfg, s)
  {
    if b.row == b.col || s.proc[p].diag[b.col] { DoneCost(cfg, s, p, b); }
    else { Lowered(cfg, s, BlockReady(cfg, s, p, b), p); }
  }

  lemma StartCost(cfg: Config, s: State, p: nat, c: nat)
    requires Shaped(cfg, s) && p < |s.proc| && s.proc[p].pc == Starting(c) && s.proc[p].next == Nothing
    ensures Measure(cfg, StartStep(cfg, s, p, c)) < Measure(cfg, s)
  {
    if c < cfg.n { assert cfg.n - c - 1 == cfg.n - (c + 1); }
    Lowered(cfg, s, StartStep(cfg, s, p, c), p);
  }

  lemma DiagCost(cfg: Config, s: State, p: nat, c: nat, rows: seq<nat>)
    requires Shaped(cfg, s) && p < |s.proc| && s.proc[p].pc == DiagLoop(c, rows) && s.proc[p].next == Nothing && s.proc[p].sends == []
    ensures Measure(cfg, DiagStep(cfg, s, p, c, rows)) < Measure(cfg, s)
  {
    if rows == [] {
      AllSendsLength(cfg.grid.procs);
      AddressedCost(cfg, AllSends(cfg.grid.procs), Terminate);
    }
    Lowered(cfg, s, DiagStep(cfg, s, p, c, rows), p);
  }

  lemma UpdateCost(cfg: Config, s: State, p: nat, b: Block, todo: seq<Block>)
    requires Shaped(cfg, s) && p < |s.proc| && s.proc[p].pc == Updating(b, todo) && s.proc[p].next == Nothing
    ensures Measure(cfg, UpdateStep(cfg, s, p, b, todo)) < Measure(cfg, s)
  {
    Lowered(cfg, s, UpdateStep(cfg, s, p, b, todo), p);
  }

  lemma CountCost(cfg: Config, s: State, p: nat, b: Block)
    requires Shaped(cfg, s) && p < |s.proc| && InMatrix(cfg, b) && s.proc[p].pc == Counting(b)
    ensures Measure(cfg, CountStep(cfg, s, p, b)) < Measure(cfg, s)
  {
    Lowered(cfg, s, CountStep(cfg, s, p, b), p);
  }

  /** A domain update or the termination message. */
  lemma MessageReceiptCost(cfg: Config, s: State, p: nat)
    requires Shaped(cfg, s) && p < |s.proc| && s.proc[p].mail != [] && Arriving(cfg, p, s.proc[p].mail[0])
    requires s.proc[p].pc == Receive && s.proc[p].next == Nothing && !s.proc[p].mail[0].BlockMsg?
    ensures Measure(cfg, ReceiveStep(cfg, s, p)) < Measure(cfg, s)
  {
    Lowered(cfg, s, ReceiveStep(cfg, s, p), p);
  }

  lemma DiagReceiptCost(cfg: Config, s: State, p: nat, b: Block)
    requires Shaped(cfg, s) && p < |s.proc| && s.proc[p].mail != [] && s.proc[p].mail[0] == BlockMsg(b) && InMatrix(cfg, b)
    requires s.proc[p].pc == Receive && s.proc[p].next == Nothing && b.row == b.col
    ensures ProcCost(cfg, ReceiveStep(cfg, s, p).proc[p]) < ProcCost(cfg, s.proc[p]) + ReceiptCost(cfg)
  {
    ColumnLength(cfg, b.col);
    TurnsMost(cfg, |cfg.below[b.col]|, cfg.n + 1);
  }

  lemma OffDiagReceiptCost(cfg: Config, s: State, p: nat, b: Block)
    requires Shaped(cfg, s) && p < |s.proc| && s.proc[p].mail != [] && s.proc[p].mail[0] == BlockMsg(b) && InMatrix(cfg, b)
    requires s.proc[p].pc == Receive && s.proc[p].next == Nothing && b.row != b.col && |s.proc[p].lists[b.col]| <= cfg.n
    ensures ProcCost(cfg, ReceiveStep(cfg, s, p).proc[p]) < ProcCost(cfg, s.proc[p]) + ReceiptCost(cfg)
  {
    TurnsMost(cfg, |s.proc[p].lists[b.col]| + 1, cfg.n + 1);
  }

  /** The receipt of a block costs less than was set aside for it. */
  lemma BlockReceiptCost(cfg: Config, s: State, p: nat, b: Block)
    requires Shaped(cfg, s) && p < |s.proc| && s.proc[p].mail != [] && s.proc[p].mail[0] == BlockMsg(b) && InMatrix(cfg, b)
    requires s.proc[p].pc == Receive && s.proc[p].next == Nothing && Distinct(s.proc[p].lists[b.col])
    ensures TotalCost(cfg, ReceiveStep(cfg, s, p).proc) < TotalCost(cfg, s.proc) + ReceiptCost(cfg)
  {
    if b.row == b.col { DiagReceiptCost(cfg, s, p, b); }
    else {
      ListLength(cfg, s.proc[p].lists[b.col], b.col);
      OffDiagReceiptCost(cfg, s, p, b);
    }
    TotalUpdate(cfg, s.proc, p, ReceiveStep(cfg, s, p).proc[p]);
  }

  lemma OneReceiptLess(cfg: Config, got: set<(nat, Block)>, p: nat, b: Block)
    requires ValidConfig(cfg) && p < cfg.grid.procs && InMatrix(cfg, b) && (p, b) !in got
    ensures |AllReceipts(cfg) - got| == |AllReceipts(cfg) - (got + {(p, b)})| + 1
  {
    assert ColumnOk(cfg, b.col);
    assert b in AllBlocks(cfg) && (p, b) in AllReceipts(cfg);
    assert AllReceipts(cfg) - got == AllReceipts(cfg) - (got + {(p, b)}) + {(p, b)};
  }

  lemma Arrives(cfg: Config, s: State, p: nat, b: Block)
    requires Inv(cfg, s) && p < |s.proc| && s.proc[p].mail != [] && s.proc[p].mail[0] == BlockMsg(b) && InMatrix(cfg, b)
    ensures (p, b) !in s.got && Distinct(s.proc[p].lists[b.col])
  {
    assert BlockFlow(cfg, s, b, p) && ListsOk(cfg, s, p, b.col);
    ArrivalIsNew(cfg, s, p, b);
  }

  lemma BlockReceiptProgress(cfg: Config, s: State, p: nat, b: Block)
    requires Shaped(cfg, s) && p < |s.proc| && s.proc[p].mail != [] && s.proc[p].mail[0] == BlockMsg(b) && InMatrix(cfg, b)
    requires s.proc[p].pc == Receive && s.proc[p].next == Nothing && (p, b) !in s.got && Distinct(s.proc[p].lists[b.col])
    ensures Measure(cfg, ReceiveStep(cfg, s, p)) < Measure(cfg, s)
  {
    BlockReceiptCost(cfg, s, p, b);
    OneReceiptLess(cfg, s.got, p, b);
    var r := ReceiveStep(cfg, s, p);
    assert r.got == s.got + {(p, b)};
    SumTimes(|AllReceipts(cfg) - r.got|, 1, ReceiptCost(cfg));
  }

  lemma ReceiveProgress(cfg: Config, s: State, p: nat)
    requires Inv(cfg, s) && p < |s.proc| && s.proc[p].mail != [] && Arriving(cfg, p, s.proc[p].mail[0])
    requires s.proc[p].pc == Receive && s.proc[p].next == Nothing
    ensures Measure(cfg, ReceiveStep(cfg, s, p)) < Measure(cfg, s)
  {
    match s.proc[p].mail[0]
    case BlockMsg(b) =>
      Arrives(cfg, s, p, b);
      BlockReceiptProgress(cfg, s, p, b);
    case _ => MessageReceiptCost(cfg, s, p);
  }

  /** A turn of one of the loops. */
  lemma LoopProgress(cfg: Config, s: State, p: nat)
    requires Inv(cfg, s) && p < |s.proc| && s.proc[p].sends == [] && s.proc[p].next == Nothing && Step(cfg, s, p) != s
    ensures Measure(cfg, Step(cfg, s, p)) < Measure(cfg, s)
  {
    assert MessagesOk(cfg, s, p) && ProcShaped(cfg, s.proc[p]);
    match s.proc[p].pc
    case Starting(c) => StartCost(cfg, s, p, c);
    case DiagLoop(c, rows) => DiagCost(cfg, s, p, c, rows);
    case Updating(b, todo) => UpdateCost(cfg, s, p, b, todo);
    case Counting(b) => CountCost(cfg, s, p, b);
    case Receive => ReceiveProgress(cfg, s, p);
  }

  /** Every step that does something lowers the measure. */
  lemma StepProgress(cfg: Config, s: State, p: nat)
    requires Inv(cfg, s) && p < |s.proc| && Step(cfg, s, p) != s
    ensures Measure(cfg, Step(cfg, s, p)) < Measure(cfg, s)
  {
    var q := s.proc[p];
    assert MessagesOk(cfg, s, p) && ProcShaped(cfg, q);
    if q.sends != [] {
      assert InMessage(cfg, p, q.sends[0].0, q.sends[0].1);
      DeliverCost(cfg, s, p);
    } else {
      match q.next
      case Ready(b) => ReadyCost(cfg, s, p, b);
      case Complete(b) => DoneCost(cfg, s, p, b);
      case Nothing => LoopProgress(cfg, s, p);
    }
  }

  // -------------------------------------------------------------------------------------
  // Runs

  /** Processor p can do something after the run. */
  ghost predicate CanMove(cfg: Config, sched: seq<nat>, p: nat)
    requires ValidConfig(cfg) && Schedule(cfg, sched)
  {
    p < cfg.grid.procs && Step(cfg, Run(cfg, sched), p) != Run(cfg, sched)
  }

  /** What is left after the run. */
  ghost function Level(cfg: Config, sched: seq<nat>): nat {
    if ValidConfig(cfg) && Schedule(cfg, sched) then Measure(cfg, Run(cfg, sched)) else 0
  }

  lemma MoveLowers(cfg: Config, sched: seq<nat>, p: nat)
    requires ValidConfig(cfg) && Schedule(cfg, sched) && CanMove(cfg, sched, p)
    ensures Schedule(cfg, sched + [p]) && Level(cfg, sched + [p]) < Level(cfg, sched)
  {
    StepProgress(cfg, Run(cfg, sched), p);
    RunStep(cfg, sched, p);
  }

  /** Every step of the schedule does something. */
  ghost predicate Going(cfg: Config, sched: seq<nat>)
    requires ValidConfig(cfg) && Schedule(cfg, sched)
  {
    forall i :: 0 <= i < |sched| ==> CanMove(cfg, sched[..i], sched[i])
  }

  /** A quantity that every step lowers bounds the number of steps. */
  lemma {:induction false} Descends(moves: (seq<nat>, nat) -> bool, level: seq<nat> -> nat, sched: seq<nat>)
    requires forall x, p: nat :: moves(x, p) ==> level(x + [p]) < level(x)
    requires forall i :: 0 <= i < |sched| ==> moves(sched[..i], sched[i])
    ensures |sched| + level(sched) <= level([])
  {
    if sched != [] {
      var before := sched[..|sched| - 1];
      assert sched == before + [sched[|sched| - 1]];
      assert forall i :: 0 <= i < |before| ==> before[..i] == sched[..i];
      Descends(moves, level, before);
    }
  }

  lemma LevelAtStart(cfg: Config)
    requires ValidConfig(cfg)
    ensures Level(cfg, []) == Measure(cfg, Init(cfg))
  {
    RunInit(cfg);
  }

  /** No run goes on for ever: with StuckOnlyAtTheEnd, every run in which the processors move while
      they can ends with all blocks finished. */
  lemma RunsAreFinite(cfg: Config, sched: seq<nat>)
    requires ValidConfig(cfg) && Schedule(cfg, sched) && Going(cfg, sched)
    ensures |sched| <= Measure(cfg, Init(cfg))
  {
    var moves: (seq<nat>, nat) -> bool := (x: seq<nat>, p: nat) => Schedule(cfg, x) && CanMove(cfg, x, p);
    var level: seq<nat> -> nat := (x: seq<nat>) => Level(cfg, x);
    forall x, p: nat | moves(x, p) ensures level(x + [p]) < level(x) { MoveLowers(cfg, x, p); }
    Descends(moves, level, sched);
    LevelAtStart(cfg);
  }

  /** All processors have stopped, and the tree of the last column is finished. */
  ghost predicate AllStopped(cfg: Config, s: State)
    requires Shaped(cfg, s)
  {
    && (forall p :: 0 < cfg.n && 0 <= p < |s.proc| ==> s.proc[p].pc == Stopped)
    && (forall b :: InMatrix(cfg, b) && RootOf(cfg, b.col) == cfg.n - 1 ==> Finished(cfg, s, b))
  }

  ghost predicate Ended(cfg: Config, sched: seq<nat>) {
    ValidConfig(cfg) && Schedule(cfg, sched) && AllStopped(cfg, Run(cfg, sched))
  }

  lemma NoMoveMeansNoStep(cfg: Config, sched: seq<nat>, p: nat)
    requires ValidConfig(cfg) && Schedule(cfg, sched) && p < cfg.grid.procs && !CanMove(cfg, sched, p)
    ensures Step(cfg, Run(cfg, sched), p) == Run(cfg, sched)
  {
  }

  lemma AllStop(cfg: Config, s: State)
    requires Inv(cfg, s) && 0 < cfg.n && AllStuck(cfg, s) && forall p: nat :: p < cfg.grid.procs ==> TermFlow(cfg, s, p)
    ensures s.terminated && forall p :: 0 <= p < |s.proc| ==> s.proc[p].pc == Stopped
  {
    StuckMeansTerminated(cfg, s);
    forall p | 0 <= p < |s.proc| ensures s.proc[p].pc == Stopped { StuckStop(cfg, s, p); }
  }

  lemma AllFinish(cfg: Config, s: State)
    requires Inv(cfg, s) && AllStuck(cfg, s) && forall p: nat :: p < cfg.grid.procs ==> TermFlow(cfg, s, p)
    ensures AllStopped(cfg, s)
  {
    if 0 < cfg.n {
      AllStop(cfg, s);
      forall b | InMatrix(cfg, b) && RootOf(cfg, b.col) == cfg.n - 1 ensures Finished(cfg, s, b) { TerminatedState(cfg, s, b); }
    }
  }

  lemma NoMoveMeansEnded(cfg: Config, sched: seq<nat>)
    requires ValidConfig(cfg) && Schedule(cfg, sched) && forall p: nat :: !CanMove(cfg, sched, p)
    ensures Ended(cfg, sched)
  {
    forall q | 0 <= q < cfg.grid.procs ensures Step(cfg, Run(cfg, sched), q) == Run(cfg, sched) {
      NoMoveMeansNoStep(cfg, sched, q);
    }
    AllAreStuck(cfg, Run(cfg, sched));
    forall p: nat | p < cfg.grid.procs ensures TermFlow(cfg, Run(cfg, sched), p) { TermAlways(cfg, sched, p); }
    AllFinish(cfg, Run(cfg, sched));
  }

  /** What always goes down until the end comes, comes to the end. */
  lemma {:induction false} Reaches(good: seq<nat> -> bool, level: seq<nat> -> nat, ended: seq<nat> -> bool, sched: seq<nat>)
    returns (rest: seq<nat>)
    requires good(sched)
    requires forall x :: good(x) ==> ended(x) || exists p: nat :: good(x + [p]) && level(x + [p]) < level(x)
    ensures good(sched + rest) && ended(sched + rest)
    decreases level(sched)
  {
    if ended(sched) {
      rest := [];
      assert sched + rest == sched;
    } else {
      var p: nat :| good(sched + [p]) && level(sched + [p]) < level(sched);
      var more := Reaches(good, level, ended, sched + [p]);
      rest := [p] + more;
      assert sched + rest == sched + [p] + more;
    }
  }

  /** From every reachable state the run can come, and with RunsAreFinite must come, to its end. */
  lemma EveryRunCanFinish(cfg: Config, sched: seq<nat>) returns (rest: seq<nat>)
    requires ValidConfig(cfg) && Schedule(cfg, sched)
    ensures Ended(cfg, sched + rest)
  {
    var good: seq<nat> -> bool := (x: seq<nat>) => Schedule(cfg, x);
    var level: seq<nat> -> nat := (x: seq<nat>) => Level(cfg, x);
    var ended: seq<nat> -> bool := (x: seq<nat>) => Ended(cfg, x);
    forall x | good(x) ensures ended(x) || exists p: nat :: good(x + [p]) && level(x + [p]) < level(x) {
      if p: nat :| CanMove(cfg, x, p) {
        MoveLowers(cfg, x, p);
        assert good(x + [p]) && level(x + [p]) < level(x);
      } else {
        NoMoveMeansEnded(cfg, x);
      }
    }
    rest := Reaches(good, level, ended, sched);
  }

  /** In one tree, all blocks are finished then. */
  lemma EndedMeansFinished(cfg: Config, sched: seq<nat>)
    requires Ended(cfg, sched) && OneTree(cfg)
    ensures AllFinished(cfg, Run(cfg, sched))
  {
    forall b | InMatrix(cfg, b) ensures Finished(cfg, Run(cfg, sched), b) { OneTreeRoot(cfg, b.col); }
  }
}
