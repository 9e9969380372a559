/** Runs of the fan-out method: from the initial state, under every schedule. */
module FanOutRuns {
  import opened ProcessorGrid
  import opened FanOut
  import opened FanOutSteps

  // -------------------------------------------------------------------------------------
  // The initial state: the counters are set and each processor has factored its domains,
  // whose updates are the first messages it sends (DistributeUpdateFO).

  ghost function DomainPair(cfg: Config, d: nat, i: nat, j: nat): (nat, Msg)
    requires ValidConfig(cfg) && InMatrix(cfg, Block(i, j))
  {
    (OwnerOf(cfg, Block(i, j)), DomainMsg(d, i, j))
  }

  lemma RowsMeet(cfg: Config, d: nat, x: nat, y: nat)
    requires ValidConfig(cfg) && d < |cfg.domains| && y <= x < |cfg.domains[d].rows|
    ensures var rows := cfg.domains[d].rows; ValidUpdate(cfg, Update(Block(rows[x], rows[y]), Domain(d)))
  {
    var rows := cfg.domains[d].rows;
    assert DomainOk(cfg, d);
    assert rows[x] in rows && rows[y] in rows;
    assert Meets(rows, Block(rows[x], rows[y]));
  }

  /** The messages for row x of domain d and its first m rows. */
  ghost function RowPairs(cfg: Config, d: nat, x: nat, m: nat): seq<(nat, Msg)>
    requires ValidConfig(cfg) && d < |cfg.domains| && x < |cfg.domains[d].rows| && m <= x + 1
  {
    if m == 0 then []
    else
      RowsMeet(cfg, d, x, m - 1);
      RowPairs(cfg, d, x, m - 1) + [DomainPair(cfg, d, cfg.domains[d].rows[x], cfg.domains[d].rows[m - 1])]
  }

  ghost function DomainPairs(cfg: Config, d: nat, m: nat): seq<(nat, Msg)>
    requires ValidConfig(cfg) && d < |cfg.domains| && m <= |cfg.domains[d].rows|
  {
    if m == 0 then [] else DomainPairs(cfg, d, m - 1) + RowPairs(cfg, d, m - 1, m)
  }

  /** The messages of the domains 0..m-1 that belong to processor p. */
  ghost function DomainSends(cfg: Config, p: nat, m: nat): seq<(nat, Msg)>
    requires ValidConfig(cfg) && m <= |cfg.domains|
  {
    if m == 0 then []
    else if cfg.domains[m - 1].owner == p
    then DomainSends(cfg, p, m - 1) + DomainPairs(cfg, m - 1, |cfg.domains[m - 1].rows|)
    else DomainSends(cfg, p, m - 1)
  }

  ghost function Expected(cfg: Config, p: nat, c: nat): set<Block>
    requires ValidConfig(cfg) && c < cfg.n
  {
    set b | b in ColumnBlocks(cfg, c) && InMatrix(cfg, b) && IsDest(cfg.grid, cfg.n, b.row, p)
  }

  ghost function InitProc(cfg: Config, p: nat): Proc
    requires ValidConfig(cfg)
  {
    Proc(Starting(0), Nothing, DomainSends(cfg, p, |cfg.domains|), [],
         seq(cfg.n, _ => []), seq(cfg.n, _ => false),
         seq(cfg.n, c requires 0 <= c < cfg.n => |Expected(cfg, p, c)|))
  }

  ghost function AllBlocks(cfg: Config): set<Block>
    requires ValidConfig(cfg)
  {
    set i, j | 0 <= i < cfg.n && 0 <= j < cfg.n && InMatrix(cfg, Block(i, j)) :: Block(i, j)
  }

  ghost function Init(cfg: Config): State
    requires ValidConfig(cfg)
  {
    State(seq(cfg.grid.procs, p requires 0 <= p < cfg.grid.procs => InitProc(cfg, p)),
          map b | b in AllBlocks(cfg) && InMatrix(cfg, b) :: |Sources(cfg, b)|,
          multiset{}, multiset{}, {}, {}, false)
  }

  /** e is the message of domain d for its rows number x and y. */
  ghost predicate IsPair(cfg: Config, e: (nat, Msg), d: nat, x: nat, y: nat)
    requires ValidConfig(cfg)
  {
    && d < |cfg.domains| && y <= x < |cfg.domains[d].rows|
    && InMatrix(cfg, Block(cfg.domains[d].rows[x], cfg.domains[d].rows[y]))
    && e == DomainPair(cfg, d, cfg.domains[d].rows[x], cfg.domains[d].rows[y])
  }

  lemma SamePair(cfg: Config, e: (nat, Msg), d: nat, x: nat, y: nat, d': nat, x': nat, y': nat)
    requires ValidConfig(cfg) && IsPair(cfg, e, d, x, y) && d' < |cfg.domains| && y' <= x' < |cfg.domains[d'].rows|
    requires InMatrix(cfg, Block(cfg.domains[d'].rows[x'], cfg.domains[d'].rows[y']))
    ensures DomainPair(cfg, d', cfg.domains[d'].rows[x'], cfg.domains[d'].rows[y']) == e <==> d == d' && x == x' && y == y'
  {
    assert DomainOk(cfg, d);
  }

  lemma {:induction false} RowPairsCount(cfg: Config, d: nat, x: nat, m: nat, e: (nat, Msg), d': nat, x': nat, y': nat)
    requires ValidConfig(cfg) && d < |cfg.domains| && x < |cfg.domains[d].rows| && m <= x + 1
    requires IsPair(cfg, e, d', x', y')
    ensures Count(RowPairs(cfg, d, x, m), e) == (if d == d' && x == x' && y' < m then 1 else 0)
  {
    if m > 0 {
      RowPairsCount(cfg, d, x, m - 1, e, d', x', y');
      RowsMeet(cfg, d, x, m - 1);
      var rows := cfg.domains[d].rows;
      SamePair(cfg, e, d', x', y', d, x, m - 1);
      CountAppend(RowPairs(cfg, d, x, m - 1), DomainPair(cfg, d, rows[x], rows[m - 1]), e);
    }
  }

  lemma {:induction false} DomainPairsCount(cfg: Config, d: nat, m: nat, e: (nat, Msg), d': nat, x': nat, y': nat)
    requires ValidConfig(cfg) && d < |cfg.domains| && m <= |cfg.domains[d].rows|
    requires IsPair(cfg, e, d', x', y')
    ensures Count(DomainPairs(cfg, d, m), e) == (if d == d' && x' < m then 1 else 0)
  {
    if m > 0 {
      var last := m - 1;
      var before, row := DomainPairs(cfg, d, last), RowPairs(cfg, d, last, m);
      CountConcat(before, row, e);
      DomainPairsCount(cfg, d, last, e, d', x', y');
      RowPairsCount(cfg, d, last, m, e, d', x', y');
    }
  }

  /** A processor sends each update of its own domains once, and none of another's. */
  lemma {:induction false} DomainSendsCount(cfg: Config, p: nat, m: nat, e: (nat, Msg), d': nat, x': nat, y': nat)
    requires ValidConfig(cfg) && m <= |cfg.domains| && IsPair(cfg, e, d', x', y')
    ensures Count(DomainSends(cfg, p, m), e) == (if d' < m && cfg.domains[d'].owner == p then 1 else 0)
  {
    if m > 0 {
      DomainSendsCount(cfg, p, m - 1, e, d', x', y');
      if cfg.domains[m - 1].owner == p {
        DomainPairsCount(cfg, m - 1, |cfg.domains[m - 1].rows|, e, d', x', y');
        CountConcat(DomainSends(cfg, p, m - 1), DomainPairs(cfg, m - 1, |cfg.domains[m - 1].rows|), e);
      }
    }
  }

  ghost predicate DomainSend(cfg: Config, p: nat, e: (nat, Msg))
    requires ValidConfig(cfg)
  {
    e.1.DomainMsg? && InMessage(cfg, p, e.0, e.1)
  }

  lemma {:induction false} RowPairsSend(cfg: Config, d: nat, x: nat, m: nat, k: nat)
    requires ValidConfig(cfg) && d < |cfg.domains| && x < |cfg.domains[d].rows| && m <= x + 1
    requires k < |RowPairs(cfg, d, x, m)|
    ensures DomainSend(cfg, cfg.domains[d].owner, RowPairs(cfg, d, x, m)[k])
  {
    RowsMeet(cfg, d, x, m - 1);
    if k < |RowPairs(cfg, d, x, m - 1)| { RowPairsSend(cfg, d, x, m - 1, k); }
  }

  lemma {:induction false} DomainPairsSend(cfg: Config, d: nat, m: nat, k: nat)
    requires ValidConfig(cfg) && d < |cfg.domains| && m <= |cfg.domains[d].rows| && k < |DomainPairs(cfg, d, m)|
    ensures DomainSend(cfg, cfg.domains[d].owner, DomainPairs(cfg, d, m)[k])
  {
    var before := |DomainPairs(cfg, d, m - 1)|;
    if k < before { DomainPairsSend(cfg, d, m - 1, k); } else { RowPairsSend(cfg, d, m - 1, m, k - before); }
  }

  lemma {:induction false} DomainSendsSend(cfg: Config, p: nat, m: nat, k: nat)
    requires ValidConfig(cfg) && m <= |cfg.domains| && k < |DomainSends(cfg, p, m)|
    ensures DomainSend(cfg, p, DomainSends(cfg, p, m)[k])
  {
    var before := |DomainSends(cfg, p, m - 1)|;
    if k < before { DomainSendsSend(cfg, p, m - 1, k); }
    else { DomainPairsSend(cfg, m - 1, |cfg.domains[m - 1].rows|, k - before); }
  }

  lemma InitShaped(cfg: Config)
    requires ValidConfig(cfg)
    ensures Shaped(cfg, Init(cfg))
  {
    var s := Init(cfg);
    forall b | InMatrix(cfg, b) ensures b in s.remaining {
      assert b == Block(b.row, b.col) && b in AllBlocks(cfg);
    }
  }

  lemma InitMessages(cfg: Config, p: nat)
    requires ValidConfig(cfg) && Shaped(cfg, Init(cfg)) && p < cfg.grid.procs
    ensures MessagesOk(cfg, Init(cfg), p)
  {
    var q := Init(cfg).proc[p];
    forall k | 0 <= k < |q.sends| ensures InMessage(cfg, p, q.sends[k].0, q.sends[k].1) && !q.sends[k].1.Terminate? {
      DomainSendsSend(cfg, p, |cfg.domains|, k);
    }
  }

  lemma InitBlockFlow(cfg: Config, b: Block, p: nat)
    requires ValidConfig(cfg) && Shaped(cfg, Init(cfg)) && InMatrix(cfg, b) && p < cfg.grid.procs
    ensures BlockFlow(cfg, Init(cfg), b, p)
  {
    NoBlockSent(cfg, OwnerOf(cfg, b), (p, BlockMsg(b)));
  }

  /** The first messages are all domain updates. */
  lemma NoBlockSent(cfg: Config, o: nat, e: (nat, Msg))
    requires ValidConfig(cfg) && o < cfg.grid.procs && e.1.BlockMsg?
    ensures Count(DomainSends(cfg, o, |cfg.domains|), e) == 0
  {
    var sends := DomainSends(cfg, o, |cfg.domains|);
    CountIn(sends, e);
    if e in sends {
      var k :| 0 <= k < |sends| && sends[k] == e;
      DomainSendsSend(cfg, o, |cfg.domains|, k);
    }
  }

  lemma InitUpdateFlow(cfg: Config, u: Update)
    requires ValidConfig(cfg) && Shaped(cfg, Init(cfg)) && ValidUpdate(cfg, u)
    ensures UpdateFlow(cfg, Init(cfg), u)
  {
    if u.src.Domain? {
      var d := u.src.d;
      var x, y := PairOf(cfg, u);
      DomainSendsCount(cfg, cfg.domains[d].owner, |cfg.domains|,
                       DomainPair(cfg, d, u.dest.row, u.dest.col), d, x, y);
    }
  }

  lemma PairOf(cfg: Config, u: Update) returns (x: nat, y: nat)
    requires ValidConfig(cfg) && ValidUpdate(cfg, u) && u.src.Domain?
    ensures IsPair(cfg, DomainPair(cfg, u.src.d, u.dest.row, u.dest.col), u.src.d, x, y)
    ensures cfg.domains[u.src.d].owner < cfg.grid.procs
  {
    var d := u.src.d;
    assert DomainOk(cfg, d) && Meets(cfg.domains[d].rows, u.dest);
    var rows := cfg.domains[d].rows;
    x :| 0 <= x < |rows| && rows[x] == u.dest.row;
    y :| 0 <= y < |rows| && rows[y] == u.dest.col;
    assert x < y ==> rows[x] < rows[y];
    assert ColumnOk(cfg, u.dest.col);
    assert u.dest == Block(rows[x], rows[y]);
  }

  lemma InitBlocks(cfg: Config, b: Block)
    requires ValidConfig(cfg) && Shaped(cfg, Init(cfg)) && InMatrix(cfg, b)
    ensures DoneOk(cfg, Init(cfg), b) && ReadyOk(cfg, Init(cfg), b)
  {
    var s := Init(cfg);
    assert Left(cfg, s, b) == Sources(cfg, b);
    if b.row == b.col && !cfg.head[b.col] { HasSource(cfg, b.col); }
  }

  lemma InitLists(cfg: Config, p: nat, c: nat)
    requires ValidConfig(cfg) && Shaped(cfg, Init(cfg)) && p < cfg.grid.procs && c < cfg.n
    ensures ListsOk(cfg, Init(cfg), p, c)
  {
    assert ToCome(cfg, Init(cfg), p, c) == Expected(cfg, p, c);
  }

  lemma InitControl(cfg: Config)
    requires ValidConfig(cfg) && Shaped(cfg, Init(cfg))
    ensures var s := Init(cfg);
      AllNext(cfg, s) && AllPc(cfg, s) && AllGot(cfg, s) && LogOk(cfg, s) && LastOk(cfg, s)
  {
  }

  lemma InitInv(cfg: Config)
    requires ValidConfig(cfg)
    ensures Inv(cfg, Init(cfg))
  {
    var s := Init(cfg);
    InitShaped(cfg);
    forall p | 0 <= p < |s.proc| ensures MessagesOk(cfg, s, p) { InitMessages(cfg, p); }
    forall b, p | InMatrix(cfg, b) && 0 <= p < |s.proc| ensures BlockFlow(cfg, s, b, p) { InitBlockFlow(cfg, b, p); }
    forall u | ValidUpdate(cfg, u) ensures UpdateFlow(cfg, s, u) { InitUpdateFlow(cfg, u); }
    forall b | InMatrix(cfg, b) ensures DoneOk(cfg, s, b) && ReadyOk(cfg, s, b) { InitBlocks(cfg, b); }
    forall p, c | 0 <= p < |s.proc| && 0 <= c < cfg.n ensures ListsOk(cfg, s, p, c) { InitLists(cfg, p, c); }
    InitControl(cfg);
  }

  // -------------------------------------------------------------------------------------
  // Runs

  ghost predicate Schedule(cfg: Config, sched: seq<nat>) {
    forall i :: 0 <= i < |sched| ==> sched[i] < cfg.grid.procs
  }

  /** The state after the processors of sched have taken one step each, in that order. */
  ghost function Run(cfg: Config, sched: seq<nat>): (s: State)
    requires ValidConfig(cfg) && Schedule(cfg, sched)
    ensures Inv(cfg, s)
  {
    if sched == [] then InitInv(cfg); Init(cfg)
    else
      var i := |sched| - 1;
      var s := Run(cfg, sched[..i]);
      StepKept(cfg, s, sched[i]);
      Step(cfg, s, sched[i])
  }
}
