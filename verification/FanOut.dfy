/** The block fan-out method of sparse Cholesky factorization, as a state machine.

    Every processor runs the program of DriveParallelFO.  One step of a processor is one send,
    one receive, one update, one block completion or one turn of a loop; a schedule is the
    sequence of processors that take the next step.  Block contents are abstract. */
module FanOut {
  import opened ProcessorGrid

  // -------------------------------------------------------------------------------------
  // The static structure

  datatype Block = Block(row: nat, col: nat)

  /** Where an update comes from: two blocks of a column, or the subtree of a domain. */
  datatype Source = Column(k: nat) | Domain(d: nat)

  datatype Update = Update(dest: Block, src: Source)

  datatype DomainInfo = DomainInfo(owner: nat, rows: seq<nat>)

  /** below[k]: the block rows under the diagonal block of block column k.
      head[k]: k is the first block column of its supernode. */
  datatype Config = Config(n: nat, below: seq<seq<nat>>, head: seq<bool>, grid: Grid, domains: seq<DomainInfo>)

  ghost predicate Ascending(s: seq<nat>) {
    forall i, j :: 0 <= i < j < |s| ==> s[i] < s[j]
  }

  /** Any two rows of a column, or of a domain, meet in a block. */
  ghost predicate Closed(cfg: Config, rows: seq<nat>)
    requires |cfg.below| == cfg.n
  {
    forall i, j :: i in rows && j in rows && j < i < cfg.n ==> i in cfg.below[j]
  }

  ghost predicate ColumnOk(cfg: Config, k: nat)
    requires |cfg.below| == |cfg.head| == cfg.n && k < cfg.n
  {
    && Ascending(cfg.below[k]) && Closed(cfg, cfg.below[k])
    && (forall i :: i in cfg.below[k] ==> k < i < cfg.n)
    && (!cfg.head[k] ==> k > 0 && k in cfg.below[k - 1])
  }

  ghost predicate DomainOk(cfg: Config, d: nat)
    requires |cfg.below| == cfg.n && d < |cfg.domains|
  {
    var dom := cfg.domains[d];
    && dom.owner < cfg.grid.procs && Ascending(dom.rows) && Closed(cfg, dom.rows)
    && (forall i :: i in dom.rows ==> i < cfg.n)
  }

  ghost predicate ValidConfig(cfg: Config) {
    && |cfg.below| == |cfg.head| == cfg.n && ValidGrid(cfg.grid, cfg.n)
    && (forall k :: 0 <= k < cfg.n ==> ColumnOk(cfg, k))
    && (forall d :: 0 <= d < |cfg.domains| ==> DomainOk(cfg, d))
  }

  /** The block elimination tree is one tree: every column but the last has a parent. */
  ghost predicate OneTree(cfg: Config)
    requires |cfg.below| == cfg.n
  {
    forall k :: 0 <= k < cfg.n - 1 ==> cfg.below[k] != []
  }

  ghost predicate InMatrix(cfg: Config, b: Block)
    requires |cfg.below| == cfg.n
  {
    b.col < cfg.n && b.row < cfg.n && (b.row == b.col || b.row in cfg.below[b.col])
  }

  ghost function OwnerOf(cfg: Config, b: Block): (p: nat)
    requires ValidConfig(cfg) && InMatrix(cfg, b)
    ensures p < cfg.grid.procs
  {
    Owner(cfg.grid, cfg.n, b.row, b.col)
  }

  ghost predicate Meets(rows: seq<nat>, b: Block) { b.row in rows && b.col in rows }

  /** The sources of the updates of block b. */
  ghost function Sources(cfg: Config, b: Block): set<Source>
    requires ValidConfig(cfg) && InMatrix(cfg, b)
  {
    (set k | 0 <= k < b.col && Meets(cfg.below[k], b) :: Column(k)) +
    (set d | 0 <= d < |cfg.domains| && Meets(cfg.domains[d].rows, b) :: Domain(d))
  }

  /** The updates of a block (i, j), off the pattern itself: column k makes one when (i, k) and (j, k)
      are blocks below the diagonal, a domain when it has both rows. */
  lemma SourcesAre(cfg: Config, b: Block, k: nat, d: nat)
    requires ValidConfig(cfg) && InMatrix(cfg, b)
    ensures Column(k) in Sources(cfg, b) <==>
            k < b.col && k < b.row && InMatrix(cfg, Block(b.row, k)) && InMatrix(cfg, Block(b.col, k))
    ensures Domain(d) in Sources(cfg, b) <==> d < |cfg.domains| && b.row in cfg.domains[d].rows && b.col in cfg.domains[d].rows
  {
    if k < b.col {
      assert ColumnOk(cfg, b.col) && ColumnOk(cfg, k);
      assert Column(k) in Sources(cfg, b) <==> Meets(cfg.below[k], b);
    }
    if d < |cfg.domains| { assert Domain(d) in Sources(cfg, b) <==> Meets(cfg.domains[d].rows, b); }
  }

  ghost predicate ValidUpdate(cfg: Config, u: Update)
    requires ValidConfig(cfg)
  {
    InMatrix(cfg, u.dest) && u.dest.col <= u.dest.row && u.src in Sources(cfg, u.dest)
  }

  // -------------------------------------------------------------------------------------
  // The state

  datatype Msg = BlockMsg(b: Block) | DomainMsg(d: nat, i: nat, j: nat) | Terminate

  datatype Pc =
    | Starting(c: nat)                            // start-up loop over the supernodes
    | Receive                                     // about to take a message
    | DiagLoop(c: nat, rows: seq<nat>)            // diagonal block received: rows still to visit
    | Updating(b: Block, todo: seq<Block>)        // block received: partners still to visit
    | Counting(b: Block)                          // about to count the received block
    | Stopped

  /** A block completion that is due before the loop goes on. */
  datatype Next = Nothing | Ready(b: Block) | Complete(b: Block)

  /** sends: the sends still to make; lists and diag: the received blocks kept by column. */
  datatype Proc = Proc(
    pc: Pc, next: Next, sends: seq<(nat, Msg)>, mail: seq<Msg>,
    lists: seq<seq<Block>>, diag: seq<bool>, nreceived: seq<int>)

  /** The last five fields are history: updates performed and by whom, block completions, block
      receipts, counted receipts, and whether the termination message has been issued. */
  datatype State = State(
    proc: seq<Proc>, remaining: map<Block, int>,
    performed: multiset<(nat, Update)>, done: multiset<Block>,
    got: set<(nat, Block)>, counted: set<(nat, Block)>, terminated: bool)

  ghost predicate Shaped(cfg: Config, s: State) {
    && ValidConfig(cfg)
    && |s.proc| == cfg.grid.procs
    && (forall p :: 0 <= p < |s.proc| ==> ProcShaped(cfg, s.proc[p]))
    && (forall b :: InMatrix(cfg, b) ==> b in s.remaining)
  }

  ghost predicate InMessage(cfg: Config, q: nat, p: nat, m: Msg)
    requires ValidConfig(cfg)
  {
    && p < cfg.grid.procs
    && match m
       case BlockMsg(b) => InMatrix(cfg, b) && OwnerOf(cfg, b) == q
       case DomainMsg(d, i, j) =>
         && d < |cfg.domains| && cfg.domains[d].owner == q
         && ValidUpdate(cfg, Update(Block(i, j), Domain(d)))
         && OwnerOf(cfg, Block(i, j)) == p
       case Terminate => true
  }

  ghost predicate Arriving(cfg: Config, p: nat, m: Msg)
    requires ValidConfig(cfg)
  {
    match m
    case BlockMsg(b) => InMatrix(cfg, b)
    case DomainMsg(d, i, j) =>
      ValidUpdate(cfg, Update(Block(i, j), Domain(d))) && OwnerOf(cfg, Block(i, j)) == p
    case Terminate => true
  }

  ghost predicate SameColumn(cfg: Config, k: nat, x: Block)
    requires |cfg.below| == cfg.n
  {
    x.col == k && InMatrix(cfg, x) && x.row != x.col
  }

  ghost predicate ProcShaped(cfg: Config, q: Proc)
    requires ValidConfig(cfg)
  {
    && |q.lists| == |q.diag| == |q.nreceived| == cfg.n
    && (q.next.Ready? ==> InMatrix(cfg, q.next.b))
    && (q.next.Complete? ==> InMatrix(cfg, q.next.b))
    && (forall c :: 0 <= c < cfg.n ==> forall x :: x in q.lists[c] ==> SameColumn(cfg, c, x))
    && match q.pc
       case DiagLoop(c, rows) => c < cfg.n && forall i :: i in rows ==> i in cfg.below[c]
       case Updating(b, todo) =>
         SameColumn(cfg, b.col, b) && forall x :: x in todo ==> SameColumn(cfg, b.col, x)
       case Counting(b) => InMatrix(cfg, b)
       case _ => true
  }

  // -------------------------------------------------------------------------------------
  // The steps

  /** The sends of BlockDoneFO. */
  ghost function Addressed(ds: seq<nat>, m: Msg): (r: seq<(nat, Msg)>)
    ensures |r| == |ds| && forall k :: 0 <= k < |ds| ==> r[k] == (ds[k], m)
  {
    seq(|ds|, k requires 0 <= k < |ds| => (ds[k], m))
  }

  ghost function BlockSends(cfg: Config, b: Block): seq<(nat, Msg)>
    requires ValidConfig(cfg) && InMatrix(cfg, b)
  {
    Addressed(Dests(cfg.grid, cfg.n, b.row), BlockMsg(b))
  }

  ghost function With(s: State, p: nat, q: Proc): State
    requires p < |s.proc|
  {
    s.(proc := s.proc[p := q])
  }

  /** Send: append the next pending message to the mailbox of its destination. */
  ghost function Deliver(s: State, p: nat): State
    requires p < |s.proc| && s.proc[p].sends != [] && s.proc[p].sends[0].0 < |s.proc|
  {
    var (to, m) := s.proc[p].sends[0];
    var s1 := With(s, p, s.proc[p].(sends := s.proc[p].sends[1..]));
    With(s1, to, s1.proc[to].(mail := s1.proc[to].mail + [m]))
  }

  /** BlockDoneFO. */
  ghost function BlockDone(cfg: Config, s: State, p: nat, b: Block): State
    requires Shaped(cfg, s) && p < |s.proc| && InMatrix(cfg, b)
  {
    With(s, p, s.proc[p].(next := Nothing, sends := BlockSends(cfg, b))).(done := s.done + multiset{b})
  }

  /** BlockReadyFO: a diagonal block is done; another waits for its diagonal block. */
  ghost function BlockReady(cfg: Config, s: State, p: nat, b: Block): State
    requires Shaped(cfg, s) && p < |s.proc| && InMatrix(cfg, b)
  {
    if b.row == b.col || s.proc[p].diag[b.col] then BlockDone(cfg, s, p, b)
    else With(s, p, s.proc[p].(next := Nothing))
  }

  ghost function StartStep(cfg: Config, s: State, p: nat, c: nat): State
    requires Shaped(cfg, s) && p < |s.proc|
  {
    var q := s.proc[p];
    if c < cfg.n then
      var b := Block(c, c);
      if cfg.head[c] && OwnerOf(cfg, b) == p && s.remaining[b] == 0
      then With(s, p, q.(pc := Starting(c + 1), next := Ready(b)))
      else With(s, p, q.(pc := Starting(c + 1)))
    else With(s, p, q.(pc := if cfg.n == 0 then Stopped else Receive))
  }

  /** DecrementRemaining after an update has been applied. */
  ghost function Perform(cfg: Config, s: State, p: nat, q: Proc, u: Update): State
    requires Shaped(cfg, s) && p < |s.proc| && InMatrix(cfg, u.dest)
  {
    var left := s.remaining[u.dest] - 1;
    With(s, p, q.(next := if left == 0 then Ready(u.dest) else Nothing))
      .(remaining := s.remaining[u.dest := left], performed := s.performed + multiset{(p, u)})
  }

  /** GetBlock and the head of HandleTaskFO. */
  ghost function ReceiveStep(cfg: Config, s: State, p: nat): State
    requires Shaped(cfg, s) && p < |s.proc| && s.proc[p].mail != []
    requires Arriving(cfg, p, s.proc[p].mail[0])
  {
    var q := s.proc[p].(mail := s.proc[p].mail[1..]);
    match s.proc[p].mail[0]
    case Terminate => With(s, p, q.(pc := Stopped))
    case DomainMsg(d, i, j) => Perform(cfg, s, p, q.(pc := Receive), Update(Block(i, j), Domain(d)))
    case BlockMsg(b) =>
      var s1 := s.(got := s.got + {(p, b)});
      if b.row == b.col then
        With(s1, p, q.(pc := DiagLoop(b.col, cfg.below[b.col]), diag := q.diag[b.col := true]))
      else
        With(s1, p, q.(pc := Updating(b, q.lists[b.col] + [b]),
                       lists := q.lists[b.col := [b] + q.lists[b.col]]))
  }

  /** One turn of the loop of DiagReceived, or its end. */
  ghost function DiagStep(cfg: Config, s: State, p: nat, c: nat, rows: seq<nat>): State
    requires Shaped(cfg, s) && p < |s.proc| && s.proc[p].pc == DiagLoop(c, rows)
  {
    var q := s.proc[p];
    if rows != [] then
      var b := Block(rows[0], c);
      assert rows[0] in rows && rows[0] in cfg.below[c] && ColumnOk(cfg, c);
      if OwnerOf(cfg, b) == p && s.remaining[b] == 0
      then With(s, p, q.(pc := DiagLoop(c, rows[1..]), next := Complete(b)))
      else With(s, p, q.(pc := DiagLoop(c, rows[1..])))
    else if c + 1 == cfg.n && OwnerOf(cfg, Block(c, c)) == p then
      With(s, p, q.(pc := Counting(Block(c, c)), sends := Addressed(AllSends(cfg.grid.procs), Terminate)))
        .(terminated := true)
    else With(s, p, q.(pc := Counting(Block(c, c))))
  }

  /** The update that two blocks of a column produce. */
  ghost function Pair(x: Block, y: Block): (u: Update)
  {
    if x.row < y.row then Update(Block(y.row, x.row), Column(x.col))
    else Update(Block(x.row, y.row), Column(x.col))
  }

  lemma PairInMatrix(cfg: Config, k: nat, x: Block, y: Block)
    requires ValidConfig(cfg) && SameColumn(cfg, k, x) && SameColumn(cfg, k, y)
    ensures ValidUpdate(cfg, Pair(x, y))
  {
    assert ColumnOk(cfg, k);
    assert Meets(cfg.below[k], Pair(x, y).dest);
  }

  /** One turn of the loop of BlockReceived: PerformUpdate with one partner. */
  ghost function UpdateStep(cfg: Config, s: State, p: nat, b: Block, todo: seq<Block>): State
    requires Shaped(cfg, s) && p < |s.proc| && s.proc[p].pc == Updating(b, todo)
  {
    if todo == [] then With(s, p, s.proc[p].(pc := Counting(b)))
    else
      assert todo[0] in todo && ProcShaped(cfg, s.proc[p]);
      PairInMatrix(cfg, b.col, b, todo[0]);
      var u := Pair(b, todo[0]);
      if OwnerOf(cfg, u.dest) == p then Perform(cfg, s, p, s.proc[p].(pc := Updating(b, todo[1..])), u)
      else With(s, p, s.proc[p].(pc := Updating(b, todo[1..])))
  }

  /** The tail of HandleTaskFO: count the receipt, free the column after the last one. */
  ghost function CountStep(cfg: Config, s: State, p: nat, b: Block): State
    requires Shaped(cfg, s) && p < |s.proc| && InMatrix(cfg, b)
  {
    var q, c := s.proc[p], b.col;
    var left := q.nreceived[c] - 1;
    var q1 := q.(pc := Receive, nreceived := q.nreceived[c := left]);
    With(s, p, if left == 0 then q1.(lists := q.lists[c := []], diag := q.diag[c := false]) else q1)
      .(counted := s.counted + {(p, b)})
  }

  // -------------------------------------------------------------------------------------
  // The invariant

  ghost function Sending(s: State, q: nat, p: nat, m: Msg): nat
    requires q < |s.proc|
  {
    Count(s.proc[q].sends, (p, m))
  }

  ghost function Waiting(s: State, p: nat, m: Msg): nat
    requires p < |s.proc|
  {
    Count(s.proc[p].mail, m)
  }

  ghost predicate MessagesOk(cfg: Config, s: State, p: nat)
    requires Shaped(cfg, s) && p < |s.proc|
  {
    var q := s.proc[p];
    && (forall k :: 0 <= k < |q.sends| ==> InMessage(cfg, p, q.sends[k].0, q.sends[k].1))
    && (forall k :: 0 <= k < |q.mail| ==> Arriving(cfg, p, q.mail[k]))
    && (forall k :: 0 <= k < |q.sends| ==> q.sends[k].1.Terminate? ==> s.terminated)
    && (forall k :: 0 <= k < |q.mail| ==> q.mail[k].Terminate? ==> s.terminated)
    && (q.pc.Stopped? ==> s.terminated || cfg.n == 0)
  }

  /** A block that is done is on its way to, or has reached, each of its destinations: once. */
  ghost predicate BlockFlow(cfg: Config, s: State, b: Block, p: nat)
    requires Shaped(cfg, s) && InMatrix(cfg, b) && p < |s.proc|
  {
    Sending(s, OwnerOf(cfg, b), p, BlockMsg(b)) + Waiting(s, p, BlockMsg(b)) + (if (p, b) in s.got then 1 else 0)
    == if b in s.done && IsDest(cfg.grid, cfg.n, b.row, p) then 1 else 0
  }

  /** The loop of BlockReceived at processor p has yet to pair x with y. */
  ghost predicate Pending(s: State, p: nat, x: Block, y: Block)
    requires p < |s.proc|
  {
    var pc := s.proc[p].pc;
    pc.Updating? && ((pc.b == x && y in pc.todo) || (pc.b == y && x in pc.todo))
  }

  /** How often an update has been performed by the owner of its block. */
  ghost predicate UpdateFlow(cfg: Config, s: State, u: Update)
    requires Shaped(cfg, s) && ValidUpdate(cfg, u)
  {
    var p := OwnerOf(cfg, u.dest);
    match u.src
    case Column(k) =>
      var x, y := Block(u.dest.row, k), Block(u.dest.col, k);
      s.performed[(p, u)] == if (p, x) in s.got && (p, y) in s.got && !Pending(s, p, x, y) then 1 else 0
    case Domain(d) =>
      assert DomainOk(cfg, d);
      var m := DomainMsg(d, u.dest.row, u.dest.col);
      Sending(s, cfg.domains[d].owner, p, m) + Waiting(s, p, m) + s.performed[(p, u)] == 1
  }

  ghost predicate LogOk(cfg: Config, s: State)
    requires Shaped(cfg, s)
  {
    forall e :: e in s.performed ==> ValidUpdate(cfg, e.1) && e.0 == OwnerOf(cfg, e.1.dest)
  }

  /** The sources whose update of b has not been performed. */
  ghost function Left(cfg: Config, s: State, b: Block): set<Source>
    requires Shaped(cfg, s) && InMatrix(cfg, b)
  {
    set x | x in Sources(cfg, b) && (OwnerOf(cfg, b), Update(b, x)) !in s.performed
  }

  ghost function DiagOf(b: Block): Block { Block(b.col, b.col) }

  ghost predicate GotDiag(cfg: Config, s: State, b: Block)
    requires Shaped(cfg, s) && InMatrix(cfg, b)
  {
    b.row == b.col || (OwnerOf(cfg, b), DiagOf(b)) in s.got
  }

  ghost predicate DoneOk(cfg: Config, s: State, b: Block)
    requires Shaped(cfg, s) && InMatrix(cfg, b)
  {
    && s.remaining[b] == |Left(cfg, s, b)|
    && s.done[b] <= 1
    && (b in s.done ==> Left(cfg, s, b) == {} && GotDiag(cfg, s, b))
  }

  /** The loop that will look at block b is still to come. */
  ghost predicate StillVisited(cfg: Config, s: State, b: Block)
    requires Shaped(cfg, s) && InMatrix(cfg, b)
  {
    var pc := s.proc[OwnerOf(cfg, b)].pc;
    if b.row == b.col then pc.Starting? && pc.c <= b.col && cfg.head[b.col]
    else !GotDiag(cfg, s, b) || (pc.DiagLoop? && pc.c == b.col && b.row in pc.rows)
  }

  /** A block without updates left is done, about to be, or will be visited. */
  ghost predicate ReadyOk(cfg: Config, s: State, b: Block)
    requires Shaped(cfg, s) && InMatrix(cfg, b)
  {
    Left(cfg, s, b) == {} ==>
      || b in s.done
      || s.proc[OwnerOf(cfg, b)].next == Ready(b) || s.proc[OwnerOf(cfg, b)].next == Complete(b)
      || StillVisited(cfg, s, b)
  }

  ghost predicate Distinct<T>(s: seq<T>) {
    forall i, j :: 0 <= i < j < |s| ==> s[i] != s[j]
  }

  ghost predicate NextOk(cfg: Config, s: State, p: nat)
    requires Shaped(cfg, s) && p < |s.proc|
  {
    var q := s.proc[p];
    q.next != Nothing ==>
      && OwnerOf(cfg, q.next.b) == p && Left(cfg, s, q.next.b) == {} && q.next.b !in s.done
      && (q.next.Complete? ==> q.next.b.row != q.next.b.col && GotDiag(cfg, s, q.next.b))
  }

  /** Block b has not been completed, and its completion is not what comes next. */
  ghost predicate Untouched(cfg: Config, s: State, p: nat, b: Block)
    requires Shaped(cfg, s) && p < |s.proc| && InMatrix(cfg, b)
  {
    OwnerOf(cfg, b) == p ==> b !in s.done && s.proc[p].next != Ready(b) && s.proc[p].next != Complete(b)
  }

  ghost predicate PcOk(cfg: Config, s: State, p: nat)
    requires Shaped(cfg, s) && p < |s.proc|
  {
    match s.proc[p].pc
    case Starting(c) =>
      && c <= cfg.n
      && (forall e :: e in s.got ==> e.0 != p)
      && (forall e :: e in s.performed ==> e.0 != p)
      && (forall k :: c <= k < cfg.n ==> Untouched(cfg, s, p, Block(k, k)))
    case DiagLoop(c, rows) =>
      && (p, Block(c, c)) in s.got && Ascending(rows)
      && (forall i :: i in rows ==> InMatrix(cfg, Block(i, c)) && Untouched(cfg, s, p, Block(i, c)))
    case Updating(b, todo) =>
      && (p, b) in s.got && Distinct(todo)
      && (forall x :: x in todo ==> (p, x) in s.got)
    case Counting(b) => (p, b) in s.got
    case _ => true
  }

  ghost function ColumnBlocks(cfg: Config, c: nat): set<Block>
    requires c < |cfg.below|
  {
    {Block(c, c)} + (set i | i in cfg.below[c] :: Block(i, c))
  }

  /** The blocks of column c that processor p has yet to count. */
  ghost function ToCome(cfg: Config, s: State, p: nat, c: nat): set<Block>
    requires Shaped(cfg, s) && c < cfg.n
  {
    set b | b in ColumnBlocks(cfg, c) && InMatrix(cfg, b) && IsDest(cfg.grid, cfg.n, b.row, p) && (p, b) !in s.counted
  }

  /** While blocks of column c are to come, processor p keeps exactly those it has got. */
  ghost predicate ListsOk(cfg: Config, s: State, p: nat, c: nat)
    requires Shaped(cfg, s) && p < |s.proc| && c < cfg.n
  {
    var q := s.proc[p];
    && q.nreceived[c] == |ToCome(cfg, s, p, c)|
    && (q.diag[c] <==> q.nreceived[c] > 0 && (p, Block(c, c)) in s.got)
    && (q.nreceived[c] > 0 ==> forall x :: SameColumn(cfg, c, x) ==> (x in q.lists[c] <==> (p, x) in s.got))
    && (q.nreceived[c] == 0 ==> q.lists[c] == [])
    && Distinct(q.lists[c])
  }

  /** The received block that processor p is working on. */
  ghost predicate InHand(s: State, p: nat, b: Block)
    requires p < |s.proc|
  {
    match s.proc[p].pc
    case Updating(x, todo) => x == b
    case Counting(x) => x == b
    case DiagLoop(c, rows) => Block(c, c) == b
    case _ => false
  }

  ghost predicate GotOk(cfg: Config, s: State, e: (nat, Block))
    requires Shaped(cfg, s)
  {
    && (e in s.got ==> e.0 < |s.proc| && InMatrix(cfg, e.1))
    && (e in s.counted ==> e in s.got)
    && (e.0 < |s.proc| ==> (InHand(s, e.0, e.1) <==> e in s.got && e !in s.counted))
  }

  ghost predicate LastOk(cfg: Config, s: State)
    requires Shaped(cfg, s)
  {
    cfg.n > 0 ==>
      var b := Block(cfg.n - 1, cfg.n - 1);
      && (s.terminated ==> (OwnerOf(cfg, b), b) in s.got)
      && ((OwnerOf(cfg, b), b) in s.counted ==> s.terminated)
      && (s.proc[OwnerOf(cfg, b)].pc == Counting(b) ==> s.terminated)
  }

  ghost predicate AllMessages(cfg: Config, s: State) requires Shaped(cfg, s) {
    forall p :: 0 <= p < |s.proc| ==> MessagesOk(cfg, s, p)
  }

  ghost predicate AllBlockFlow(cfg: Config, s: State) requires Shaped(cfg, s) {
    forall b, p :: InMatrix(cfg, b) && 0 <= p < |s.proc| ==> BlockFlow(cfg, s, b, p)
  }

  ghost predicate AllUpdateFlow(cfg: Config, s: State) requires Shaped(cfg, s) {
    forall u :: ValidUpdate(cfg, u) ==> UpdateFlow(cfg, s, u)
  }

  ghost predicate AllDone(cfg: Config, s: State) requires Shaped(cfg, s) {
    forall b :: InMatrix(cfg, b) ==> DoneOk(cfg, s, b)
  }

  ghost predicate AllReady(cfg: Config, s: State) requires Shaped(cfg, s) {
    forall b :: InMatrix(cfg, b) ==> ReadyOk(cfg, s, b)
  }

  ghost predicate AllNext(cfg: Config, s: State) requires Shaped(cfg, s) {
    forall p :: 0 <= p < |s.proc| ==> NextOk(cfg, s, p)
  }

  ghost predicate AllPc(cfg: Config, s: State) requires Shaped(cfg, s) {
    forall p :: 0 <= p < |s.proc| ==> PcOk(cfg, s, p)
  }

  ghost predicate AllLists(cfg: Config, s: State) requires Shaped(cfg, s) {
    forall p, c :: 0 <= p < |s.proc| && 0 <= c < cfg.n ==> ListsOk(cfg, s, p, c)
  }

  ghost predicate AllGot(cfg: Config, s: State) requires Shaped(cfg, s) {
    forall e :: GotOk(cfg, s, e)
  }

  ghost predicate Inv(cfg: Config, s: State) {
    && Shaped(cfg, s)
    && AllMessages(cfg, s) && AllBlockFlow(cfg, s) && AllUpdateFlow(cfg, s) && LogOk(cfg, s)
    && AllDone(cfg, s) && AllReady(cfg, s) && AllNext(cfg, s) && AllPc(cfg, s)
    && AllLists(cfg, s) && AllGot(cfg, s) && LastOk(cfg, s)
  }

  /** The next step of processor p. */
  ghost function Step(cfg: Config, s: State, p: nat): State
    requires Inv(cfg, s) && p < |s.proc|
  {
    var q := s.proc[p];
    assert MessagesOk(cfg, s, p) && ProcShaped(cfg, q);
    if q.sends != [] then
      assert InMessage(cfg, p, q.sends[0].0, q.sends[0].1);
      Deliver(s, p)
    else match q.next
      case Ready(b) => BlockReady(cfg, s, p, b)
      case Complete(b) => BlockDone(cfg, s, p, b)
      case Nothing =>
        match q.pc
        case Starting(c) => StartStep(cfg, s, p, c)
        case Receive => if q.mail == [] then s else (assert Arriving(cfg, p, q.mail[0]); ReceiveStep(cfg, s, p))
        case DiagLoop(c, rows) => DiagStep(cfg, s, p, c, rows)
        case Updating(b, todo) => UpdateStep(cfg, s, p, b, todo)
        case Counting(b) => CountStep(cfg, s, p, b)
        case Stopped => s
  }
}
