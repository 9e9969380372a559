/** The six-step transform with its processors at the same time: copies, row transforms and barriers
    in any interleaving. */
module FftParallel {
  import opened Arithmetic
  import opened FftRing
  import opened FftMath
  import opened FftSixStep
  import opened Wrappers

  // -------------------------------------------------------------------------------------
  // The state machine

  /** want(k, h, v) is what element (h, v) has to be after k phases; a phase transposes one of two
      matrices into the other and then works on the rows. */
  datatype Config<!R> = Config(procs: nat, rows: nat, phases: nat, want: (nat, nat, nat) -> R)

  ghost function Size<R>(c: Config<R>): nat { c.procs * c.rows }

  /** Row h belongs to processor p. */
  ghost predicate Own<R>(c: Config<R>, p: nat, h: nat) { p < c.procs && p * c.rows <= h < p * c.rows + c.rows }

  datatype Proc = Copying(phase: nat, done: set<(nat, nat)>) | Working(phase: nat, next: nat) | AtBarrier(phase: nat)

  /** buf(b, h, v) is element (h, v) of matrix b. */
  datatype State<!R> = State(buf: (nat, nat, nat) -> R, proc: seq<Proc>)

  function From(phase: nat): nat { phase % 2 }

  function To(phase: nat): nat { (phase + 1) % 2 }

  ghost predicate Init<R>(c: Config<R>, s: State<R>) {
    && |s.proc| == c.procs && (forall p :: 0 <= p < c.procs ==> s.proc[p] == Copying(0, {}))
    && forall h: nat, v: nat :: h < Size(c) && v < Size(c) ==> s.buf(0, h, v) == c.want(0, h, v)
  }

  /** Copy one element of an own row. */
  ghost predicate Copy<R(!new)>(c: Config<R>, s: State<R>, r: State<R>, p: nat, h: nat, v: nat)
    requires p < |s.proc|
  {
    && s.proc[p].Copying? && Own(c, p, h) && v < Size(c) && (h, v) !in s.proc[p].done
    && var k := s.proc[p].phase;
       && r.proc == s.proc[p := Copying(k, s.proc[p].done + {(h, v)})]
       && forall b: nat, x: nat, y: nat :: r.buf(b, x, y) == if b == To(k) && x == h && y == v then s.buf(From(k), v, h) else s.buf(b, x, y)
  }

  ghost predicate AllCopied<R>(c: Config<R>, p: nat, done: set<(nat, nat)>) {
    forall h: nat, v: nat :: Own(c, p, h) && v < Size(c) ==> (h, v) in done
  }

  /** Turn to the rows. */
  ghost predicate Begin<R>(c: Config<R>, s: State<R>, r: State<R>, p: nat)
    requires p < |s.proc|
  {
    && s.proc[p].Copying? && AllCopied(c, p, s.proc[p].done)
    && r == s.(proc := s.proc[p := Working(s.proc[p].phase, 0)])
  }

  /** Row h has been transposed, and is to be worked on. */
  ghost predicate RowReady<R>(c: Config<R>, s: State<R>, k: nat, h: nat) {
    forall v: nat :: v < Size(c) ==> s.buf(To(k), h, v) == c.want(k, v, h)
  }

  /** Row h is as it has to be after phase k. */
  ghost predicate RowDone<R>(c: Config<R>, s: State<R>, k: nat, h: nat) {
    forall v: nat :: v < Size(c) ==> s.buf(To(k), h, v) == c.want(k + 1, h, v)
  }

  /** The contract of the work on a row: nothing else changes, and from a ready row it makes what the
      phase has to make. */
  ghost predicate RowEffect<R(!new)>(c: Config<R>, s: State<R>, r: State<R>, k: nat, h: nat) {
    && (forall b: nat, x: nat, y: nat :: !(b == To(k) && x == h) ==> r.buf(b, x, y) == s.buf(b, x, y))
    && (RowReady(c, s, k, h) ==> RowDone(c, r, k, h))
  }

  ghost predicate Work<R(!new)>(c: Config<R>, s: State<R>, r: State<R>, p: nat)
    requires p < |s.proc|
  {
    && s.proc[p].Working? && s.proc[p].next < c.rows
    && r.proc == s.proc[p := Working(s.proc[p].phase, s.proc[p].next + 1)]
    && RowEffect(c, s, r, s.proc[p].phase, p * c.rows + s.proc[p].next)
  }

  ghost predicate Arrive<R>(c: Config<R>, s: State<R>, r: State<R>, p: nat)
    requires p < |s.proc|
  {
    s.proc[p].Working? && s.proc[p].next == c.rows && r == s.(proc := s.proc[p := AtBarrier(s.proc[p].phase)])
  }

  ghost predicate Arrived<R>(s: State<R>, q: nat, phase: nat)
    requires q < |s.proc|
  {
    s.proc[q].phase > phase || s.proc[q] == AtBarrier(phase)
  }

  /** Leave a barrier at which everybody has arrived, unless it is the last one. */
  ghost predicate Leave<R>(c: Config<R>, s: State<R>, r: State<R>, p: nat)
    requires p < |s.proc|
  {
    && s.proc[p].AtBarrier? && s.proc[p].phase + 1 < c.phases
    && (forall q :: 0 <= q < |s.proc| ==> Arrived(s, q, s.proc[p].phase))
    && r == s.(proc := s.proc[p := Copying(s.proc[p].phase + 1, {})])
  }

  ghost predicate StepOf<R(!new)>(c: Config<R>, s: State<R>, r: State<R>, p: nat)
    requires p < |s.proc|
  {
    || (exists h: nat, v: nat :: Copy(c, s, r, p, h, v))
    || Begin(c, s, r, p) || Work(c, s, r, p) || Arrive(c, s, r, p) || Leave(c, s, r, p)
  }

  ghost predicate Step<R(!new)>(c: Config<R>, s: State<R>, r: State<R>) {
    exists p: nat :: p < |s.proc| && StepOf(c, s, r, p)
  }

  // -------------------------------------------------------------------------------------
  // The invariant

  ghost predicate ProcOk<R>(c: Config<R>, q: Proc) { q.phase < c.phases && (q.Working? ==> q.next <= c.rows) }

  /** Nobody is behind a barrier that another one has left. */
  ghost predicate BarrierOk<R>(s: State<R>, p: nat, q: nat)
    requires p < |s.proc| && q < |s.proc|
  {
    forall b :: 0 <= b < s.proc[p].phase ==> Arrived(s, q, b)
  }

  /** Row h of the matrix that the phase reads, and of the matrix that it writes. */
  ghost predicate RowOk<R>(c: Config<R>, s: State<R>, p: nat, h: nat)
    requires p < |s.proc|
  {
    var k := s.proc[p].phase;
    && (forall v: nat :: v < Size(c) ==> s.buf(From(k), h, v) == c.want(k, h, v))
    && match s.proc[p]
       case Copying(_, done) => forall v: nat :: v < Size(c) && (h, v) in done ==> s.buf(To(k), h, v) == c.want(k, v, h)
       case Working(_, next) => if h < p * c.rows + next then RowDone(c, s, k, h) else RowReady(c, s, k, h)
       case AtBarrier(_) => RowDone(c, s, k, h)
  }

  ghost predicate AllRowsOk<R>(c: Config<R>, s: State<R>, p: nat)
    requires p < |s.proc|
  {
    forall h: nat :: Own(c, p, h) ==> RowOk(c, s, p, h)
  }

  ghost predicate Inv<R>(c: Config<R>, s: State<R>) {
    && |s.proc| == c.procs && c.phases > 0
    && (forall p :: 0 <= p < |s.proc| ==> ProcOk(c, s.proc[p]))
    && (forall p, q :: 0 <= p < |s.proc| && 0 <= q < |s.proc| ==> BarrierOk(s, p, q))
    && (forall p :: 0 <= p < |s.proc| ==> AllRowsOk(c, s, p))
  }

  lemma OneOwner<R>(c: Config<R>, p: nat, q: nat, h: nat)
    requires Own(c, p, h) && Own(c, q, h)
    ensures p == q
  {
    if p < q { MulNext(p, q, c.rows); }
    if q < p { MulNext(q, p, c.rows); }
  }

  lemma SomeRows<R>(c: Config<R>, h: nat)
    requires h < Size(c)
    ensures c.rows > 0
  {
  }

  lemma OwnerOf<R>(c: Config<R>, h: nat) returns (p: nat)
    requires h < Size(c)
    ensures Own(c, p, h) && c.rows > 0 && p == h / c.rows
  {
    SomeRows(c, h);
    DivMod(h, c.rows);
    p := h / c.rows;
    if c.procs <= p { MulLe(c.procs, p, c.rows); }
  }

  lemma Waited<R>(s: State<R>, p: nat, q: nat, b: nat)
    requires p < |s.proc| && q < |s.proc| && BarrierOk(s, p, q) && b < s.proc[p].phase
    ensures Arrived(s, q, b)
  {
  }

  /** While a processor copies, every row of the matrix that it reads is final. */
  lemma SourceReady<R>(c: Config<R>, s: State<R>, p: nat, h: nat, v: nat)
    requires Inv(c, s) && p < |s.proc| && s.proc[p].Copying? && h < Size(c) && v < Size(c)
    ensures s.buf(From(s.proc[p].phase), h, v) == c.want(s.proc[p].phase, h, v)
  {
    var k := s.proc[p].phase;
    var q := OwnerOf(c, h);
    assert BarrierOk(s, p, q) && BarrierOk(s, q, p) && AllRowsOk(c, s, q) && RowOk(c, s, q, h);
    if s.proc[q].phase > k { Waited(s, q, p, k); }
    if s.proc[q].phase < k {
      assert Arrived(s, q, k - 1);
      assert From(k) == To(k - 1) && RowDone(c, s, k - 1, h);
    }
  }

  /** The rows of the other processors stay. */
  lemma OtherRows<R(!new)>(c: Config<R>, s: State<R>, r: State<R>, p: nat, q: nat)
    requires Inv(c, s) && p < |s.proc| == |r.proc| && q < |s.proc| && q != p && r.proc[q] == s.proc[q]
    requires forall b: nat, x: nat, y: nat :: !Own(c, p, x) ==> r.buf(b, x, y) == s.buf(b, x, y)
    ensures AllRowsOk(c, r, q)
  {
    assert AllRowsOk(c, s, q);
    forall h: nat | Own(c, q, h) ensures RowOk(c, r, q, h) {
      if Own(c, p, h) { OneOwner(c, p, q, h); }
      assert RowOk(c, s, q, h);
    }
  }

  lemma CopyRows<R(!new)>(c: Config<R>, s: State<R>, r: State<R>, p: nat, h: nat, v: nat)
    requires Inv(c, s) && p < |s.proc| && Copy(c, s, r, p, h, v)
    ensures AllRowsOk(c, r, p)
  {
    OwnInside(c, p, h);
    SourceReady(c, s, p, v, h);
    assert AllRowsOk(c, s, p);
    forall x: nat | Own(c, p, x) ensures RowOk(c, r, p, x) { assert RowOk(c, s, p, x); }
  }

  lemma OwnInside<R>(c: Config<R>, p: nat, h: nat)
    requires Own(c, p, h)
    ensures h < Size(c)
  {
    MulNext(p, c.procs, c.rows);
  }

  lemma BeginRows<R(!new)>(c: Config<R>, s: State<R>, r: State<R>, p: nat)
    requires Inv(c, s) && p < |s.proc| && Begin(c, s, r, p)
    ensures AllRowsOk(c, r, p)
  {
    assert AllRowsOk(c, s, p);
    forall x: nat | Own(c, p, x) ensures RowOk(c, r, p, x) {
      assert RowOk(c, s, p, x);
      forall v: nat | v < Size(c) ensures r.buf(To(s.proc[p].phase), x, v) == c.want(s.proc[p].phase, v, x) {
        assert (x, v) in s.proc[p].done;
      }
      assert RowReady(c, r, s.proc[p].phase, x);
    }
  }

  lemma WorkRows<R(!new)>(c: Config<R>, s: State<R>, r: State<R>, p: nat)
    requires Inv(c, s) && p < |s.proc| && Work(c, s, r, p)
    ensures AllRowsOk(c, r, p)
  {
    var k, row := s.proc[p].phase, p * c.rows + s.proc[p].next;
    assert AllRowsOk(c, s, p);
    assert Own(c, p, row) && RowOk(c, s, p, row);
    forall x: nat | Own(c, p, x) ensures RowOk(c, r, p, x) {
      assert RowOk(c, s, p, x);
      if x != row { RowSame(c, s, r, k, x); }
    }
  }

  lemma RowSame<R(!new)>(c: Config<R>, s: State<R>, r: State<R>, k: nat, x: nat)
    requires forall y: nat :: r.buf(To(k), x, y) == s.buf(To(k), x, y)
    ensures RowReady(c, r, k, x) <==> RowReady(c, s, k, x)
    ensures RowDone(c, r, k, x) <==> RowDone(c, s, k, x)
  {
  }

  lemma ArriveRows<R(!new)>(c: Config<R>, s: State<R>, r: State<R>, p: nat)
    requires Inv(c, s) && p < |s.proc| && (Arrive(c, s, r, p) || Leave(c, s, r, p))
    ensures AllRowsOk(c, r, p)
  {
    assert AllRowsOk(c, s, p);
    forall x: nat | Own(c, p, x) ensures RowOk(c, r, p, x) {
      assert RowOk(c, s, p, x);
      RowSame(c, s, r, s.proc[p].phase, x);
      assert From(s.proc[p].phase + 1) == To(s.proc[p].phase);
    }
  }

  lemma StepRows<R(!new)>(c: Config<R>, s: State<R>, r: State<R>, p: nat)
    requires Inv(c, s) && p < |s.proc| && StepOf(c, s, r, p)
    ensures AllRowsOk(c, r, p)
    ensures forall b: nat, x: nat, y: nat :: !Own(c, p, x) ==> r.buf(b, x, y) == s.buf(b, x, y)
  {
    if Begin(c, s, r, p) { BeginRows(c, s, r, p); }
    else if Work(c, s, r, p) { WorkRows(c, s, r, p); }
    else if Arrive(c, s, r, p) || Leave(c, s, r, p) { ArriveRows(c, s, r, p); }
    else {
      var h: nat, v: nat :| Copy(c, s, r, p, h, v);
      CopyRows(c, s, r, p, h, v);
    }
  }

  lemma StepBarriers<R(!new)>(c: Config<R>, s: State<R>, r: State<R>, p: nat)
    requires Inv(c, s) && p < |s.proc| && StepOf(c, s, r, p)
    ensures |r.proc| == |s.proc| && (forall q :: 0 <= q < |s.proc| && q != p ==> r.proc[q] == s.proc[q]) && ProcOk(c, r.proc[p])
    ensures forall x, y :: 0 <= x < |r.proc| && 0 <= y < |r.proc| ==> BarrierOk(r, x, y)
  {
    assert ProcOk(c, s.proc[p]);
    forall x, y | 0 <= x < |r.proc| && 0 <= y < |r.proc| ensures BarrierOk(r, x, y) {
      assert BarrierOk(s, x, y);
      forall b | 0 <= b < r.proc[x].phase ensures Arrived(r, y, b) {
        if b < s.proc[x].phase { assert Arrived(s, y, b); } else { assert x == p && Leave(c, s, r, p) && Arrived(s, y, b); }
      }
    }
  }

  lemma StepKept<R(!new)>(c: Config<R>, s: State<R>, r: State<R>)
    requires Inv(c, s) && Step(c, s, r)
    ensures Inv(c, r)
  {
    var p: nat :| p < |s.proc| && StepOf(c, s, r, p);
    StepBarriers(c, s, r, p);
    StepRows(c, s, r, p);
    forall q | 0 <= q < |r.proc| ensures ProcOk(c, r.proc[q]) && AllRowsOk(c, r, q) {
      if q != p {
        assert ProcOk(c, s.proc[q]);
        OtherRows(c, s, r, p, q);
      }
    }
  }

  // -------------------------------------------------------------------------------------
  // Runs

  ghost predicate IsRun<R(!new)>(c: Config<R>, run: seq<State<R>>) {
    && |run| > 0 && Init(c, run[0])
    && forall i :: 0 <= i < |run| - 1 ==> Step(c, run[i], run[i + 1])
  }

  lemma InitInv<R>(c: Config<R>, s: State<R>)
    requires Init(c, s) && c.phases > 0
    ensures Inv(c, s)
  {
    forall p | 0 <= p < |s.proc| ensures AllRowsOk(c, s, p) {
      forall h: nat | Own(c, p, h) ensures RowOk(c, s, p, h) { OwnInside(c, p, h); }
    }
  }

  lemma {:induction false} RunInv<R(!new)>(c: Config<R>, run: seq<State<R>>, i: nat)
    requires IsRun(c, run) && c.phases > 0 && i < |run|
    ensures Inv(c, run[i])
  {
    if i == 0 {
      InitInv(c, run[0]);
    } else {
      RunInv(c, run, i - 1);
      assert Step(c, run[i - 1], run[i - 1 + 1]);
      StepKept(c, run[i - 1], run[i]);
    }
  }

  ghost predicate AllDone<R>(c: Config<R>, s: State<R>) {
    forall p :: 0 <= p < |s.proc| ==> s.proc[p].AtBarrier? && s.proc[p].phase + 1 == c.phases
  }

  /** In every interleaving: when all processors have reached the last barrier, the matrix is what all
      phases have to make of the input. */
  lemma ParallelPhases<R(!new)>(c: Config<R>, run: seq<State<R>>, h: nat, v: nat)
    requires IsRun(c, run) && c.phases > 0 && AllDone(c, run[|run| - 1]) && h < Size(c) && v < Size(c)
    ensures run[|run| - 1].buf(c.phases % 2, h, v) == c.want(c.phases, h, v)
  {
    var s := run[|run| - 1];
    RunInv(c, run, |run| - 1);
    var p := OwnerOf(c, h);
    assert AllRowsOk(c, s, p) && RowOk(c, s, p, h);
    assert RowDone(c, s, c.phases - 1, h) && To(c.phases - 1) == c.phases % 2;
  }

  ghost function Key(q: Proc): nat { 2 * q.phase + if q.AtBarrier? then 1 else 0 }

  /** The processor that is furthest behind. */
  lemma {:induction false} Hindmost<R>(s: State<R>, n: nat) returns (p: nat)
    requires 0 < n <= |s.proc|
    ensures p < n && forall q :: 0 <= q < n ==> Key(s.proc[p]) <= Key(s.proc[q])
  {
    if n == 1 { p := 0; }
    else {
      p := Hindmost(s, n - 1);
      if Key(s.proc[n - 1]) < Key(s.proc[p]) { p := n - 1; }
    }
  }

  /** What a processor can do next. */
  ghost predicate CanGo<R(!new)>(c: Config<R>, s: State<R>, p: nat)
    requires p < |s.proc|
  {
    || (s.proc[p].Copying? && exists h: nat, v: nat :: Own(c, p, h) && v < Size(c) && (h, v) !in s.proc[p].done)
    || (exists r :: Begin(c, s, r, p)) || (s.proc[p].Working? && s.proc[p].next < c.rows)
    || (exists r :: Arrive(c, s, r, p)) || (exists r :: Leave(c, s, r, p))
  }

  lemma LastBarrier<R>(c: Config<R>, s: State<R>, p: nat)
    requires Inv(c, s) && p < |s.proc| && s.proc[p].AtBarrier? && s.proc[p].phase + 1 == c.phases
    requires forall q :: 0 <= q < |s.proc| ==> Arrived(s, q, s.proc[p].phase)
    ensures AllDone(c, s)
  {
    forall x | 0 <= x < |s.proc| ensures s.proc[x].AtBarrier? && s.proc[x].phase + 1 == c.phases {
      assert ProcOk(c, s.proc[x]) && Arrived(s, x, s.proc[p].phase);
    }
  }

  /** The barriers do not deadlock: until all are done, the processor furthest behind can go on. */
  lemma NeverStuck<R(!new)>(c: Config<R>, s: State<R>) returns (p: nat)
    requires Inv(c, s) && !AllDone(c, s)
    ensures p < |s.proc| && CanGo(c, s, p)
  {
    p := Hindmost(s, |s.proc|);
    var q := s.proc[p];
    assert ProcOk(c, q);
    match q {
      case Copying(k, done) =>
        if AllCopied(c, p, done) { assert Begin(c, s, s.(proc := s.proc[p := Working(k, 0)]), p); }
      case Working(k, next) =>
        if next == c.rows { assert Arrive(c, s, s.(proc := s.proc[p := AtBarrier(k)]), p); }
      case AtBarrier(k) =>
        forall x | 0 <= x < |s.proc| ensures Arrived(s, x, k) { assert Key(q) <= Key(s.proc[x]); }
        if k + 1 < c.phases {
          assert Leave(c, s, s.(proc := s.proc[p := Copying(k + 1, {})]), p);
        } else {
          LastBarrier(c, s, p);
        }
    }
  }

  /** The processor furthest behind has a step. */
  lemma SomeStep<R(!new)>(c: Config<R>, s: State<R>) returns (r: State<R>)
    requires Inv(c, s) && !AllDone(c, s)
    ensures Step(c, s, r)
  {
    var p := NeverStuck(c, s);
    r := s;
    if s.proc[p].Copying? && !AllCopied(c, p, s.proc[p].done) {
      var h: nat, v: nat :| Own(c, p, h) && v < Size(c) && (h, v) !in s.proc[p].done;
      r := CanCopy(c, s, p, h, v);
    } else if s.proc[p].Working? && s.proc[p].next < c.rows {
      r := CanWork(c, s, p);
    } else if t :| Begin(c, s, t, p) || Arrive(c, s, t, p) || Leave(c, s, t, p) {
      r := t;
    }
    assert StepOf(c, s, r, p);
  }

  lemma CanCopy<R(!new)>(c: Config<R>, s: State<R>, p: nat, h: nat, v: nat) returns (r: State<R>)
    requires p < |s.proc| && s.proc[p].Copying? && Own(c, p, h) && v < Size(c) && (h, v) !in s.proc[p].done
    ensures Copy(c, s, r, p, h, v)
  {
    var k := s.proc[p].phase;
    r := State((b: nat, x: nat, y: nat) => if b == To(k) && x == h && y == v then s.buf(From(k), v, h) else s.buf(b, x, y),
               s.proc[p := Copying(k, s.proc[p].done + {(h, v)})]);
  }

  lemma CanWork<R(!new)>(c: Config<R>, s: State<R>, p: nat) returns (r: State<R>)
    requires p < |s.proc| && s.proc[p].Working? && s.proc[p].next < c.rows
    ensures Work(c, s, r, p)
  {
    var k, row := s.proc[p].phase, p * c.rows + s.proc[p].next;
    r := State((b: nat, x: nat, y: nat) => if b == To(k) && x == row then c.want(k + 1, x, y) else s.buf(b, x, y),
               s.proc[p := Working(k, s.proc[p].next + 1)]);
  }

  // -------------------------------------------------------------------------------------
  // Every run ends, with all processors done

  /** The places of rows lo to hi - 1, with n columns. */
  ghost function Cells(lo: nat, hi: nat, n: nat): set<(nat, nat)> { set h: nat, v: nat | lo <= h < hi && v < n :: (h, v) }

  lemma {:induction false} RowSize(h: nat, n: nat)
    ensures |Cells(h, h + 1, n)| == n
  {
    if n == 0 { assert Cells(h, h + 1, 0) == {}; }
    else {
      RowSize(h, n - 1);
      assert Cells(h, h + 1, n) == Cells(h, h + 1, n - 1) + {(h, n - 1)};
    }
  }

  lemma {:induction false} CellsSize(lo: nat, rows: nat, n: nat)
    ensures |Cells(lo, lo + rows, n)| == rows * n
  {
    if rows == 0 { assert Cells(lo, lo, n) == {}; }
    else {
      CellsSize(lo, rows - 1, n);
      RowSize(lo + rows - 1, n);
      assert Cells(lo, lo + rows - 1, n) !! Cells(lo + rows - 1, lo + rows, n);
      assert Cells(lo, lo + rows, n) == Cells(lo, lo + rows - 1, n) + Cells(lo + rows - 1, lo + rows, n);
      assert rows * n == (rows - 1) * n + n;
    }
  }

  /** The steps of a processor in one phase: a copy for every element of its rows, the turn to the
      rows, work for every row, and the two sides of the barrier. */
  ghost function PhaseSteps<R>(c: Config<R>): nat { c.rows * Size(c) + c.rows + 3 }

  /** The number of steps that a processor has made. */
  ghost function StepsOfProc<R>(c: Config<R>, q: Proc): nat {
    q.phase * PhaseSteps(c) + match q
                              case Copying(_, done) => |done|
                              case Working(_, next) => c.rows * Size(c) + 1 + next
                              case AtBarrier(_) => c.rows * Size(c) + c.rows + 2
  }

  ghost function StepsOfAll<R>(c: Config<R>, procs: seq<Proc>): nat {
    if procs == [] then 0 else StepsOfAll(c, procs[..|procs| - 1]) + StepsOfProc(c, procs[|procs| - 1])
  }

  lemma {:induction false} StepsUpdate<R>(c: Config<R>, procs: seq<Proc>, p: nat, q: Proc)
    requires p < |procs|
    ensures StepsOfAll(c, procs[p := q]) == StepsOfAll(c, procs) - StepsOfProc(c, procs[p]) + StepsOfProc(c, q)
  {
    var last := |procs| - 1;
    if p < last {
      StepsUpdate(c, procs[..last], p, q);
      assert procs[p := q][..last] == procs[..last][p := q];
    } else {
      assert procs[p := q][..last] == procs[..last];
    }
  }

  /** Only own places are copied. */
  ghost predicate CopiesOwn<R>(c: Config<R>, s: State<R>, p: nat)
    requires p < |s.proc|
  {
    s.proc[p].Copying? ==> s.proc[p].done <= Cells(p * c.rows, p * c.rows + c.rows, Size(c))
  }

  lemma AllCopiedSize<R>(c: Config<R>, p: nat, done: set<(nat, nat)>)
    requires p < c.procs && done <= Cells(p * c.rows, p * c.rows + c.rows, Size(c)) && AllCopied(c, p, done)
    ensures |done| == c.rows * Size(c)
  {
    CellsSize(p * c.rows, c.rows, Size(c));
    forall h: nat, v: nat | p * c.rows <= h < p * c.rows + c.rows && v < Size(c) ensures (h, v) in done { assert Own(c, p, h); }
    assert done == Cells(p * c.rows, p * c.rows + c.rows, Size(c));
  }

  lemma ProcCounts<R(!new)>(c: Config<R>, s: State<R>, r: State<R>, p: nat)
    requires p < |s.proc| == c.procs && StepOf(c, s, r, p) && CopiesOwn(c, s, p)
    ensures r.proc == s.proc[p := r.proc[p]] && CopiesOwn(c, r, p) && StepsOfProc(c, r.proc[p]) == StepsOfProc(c, s.proc[p]) + 1
  {
    if Begin(c, s, r, p) { AllCopiedSize(c, p, s.proc[p].done); }
    else if Leave(c, s, r, p) { NextPhase(s.proc[p].phase, PhaseSteps(c)); }
    else if !Work(c, s, r, p) && !Arrive(c, s, r, p) {
      var h: nat, v: nat :| Copy(c, s, r, p, h, v);
    }
  }

  lemma NextPhase(phase: nat, steps: nat)
    ensures (phase + 1) * steps == phase * steps + steps
  {
  }

  lemma NoneMade<R>(c: Config<R>, procs: seq<Proc>)
    requires forall p :: 0 <= p < |procs| ==> procs[p] == Copying(0, {})
    ensures StepsOfAll(c, procs) == 0
  {
  }

  /** Every step counts once. */
  lemma {:induction false} RunCounts<R(!new)>(c: Config<R>, run: seq<State<R>>, j: nat)
    requires IsRun(c, run) && j < |run|
    ensures |run[j].proc| == c.procs && StepsOfAll(c, run[j].proc) == j && forall p :: 0 <= p < c.procs ==> CopiesOwn(c, run[j], p)
  {
    if j == 0 { NoneMade(c, run[0].proc); }
    else {
      RunCounts(c, run, j - 1);
      assert Step(c, run[j - 1], run[j - 1 + 1]);
      var p: nat :| p < |run[j - 1].proc| && StepOf(c, run[j - 1], run[j], p);
      ProcCounts(c, run[j - 1], run[j], p);
      StepsUpdate(c, run[j - 1].proc, p, run[j].proc[p]);
      forall q | 0 <= q < c.procs ensures CopiesOwn(c, run[j], q) { assert CopiesOwn(c, run[j - 1], q); }
    }
  }

  /** The number of steps from the start to the last barrier. */
  ghost function Whole<R>(c: Config<R>): int { c.phases * PhaseSteps(c) - 1 }

  lemma ProcBound<R>(c: Config<R>, s: State<R>, p: nat)
    requires Inv(c, s) && p < |s.proc| && CopiesOwn(c, s, p)
    ensures StepsOfProc(c, s.proc[p]) <= Whole(c)
    ensures StepsOfProc(c, s.proc[p]) == Whole(c) <==> s.proc[p].AtBarrier? && s.proc[p].phase + 1 == c.phases
  {
    var q := s.proc[p];
    assert ProcOk(c, q);
    NextPhase(q.phase, PhaseSteps(c));
    MulLe(q.phase + 1, c.phases, PhaseSteps(c));
    if q.Copying? {
      CellsSize(p * c.rows, c.rows, Size(c));
      SubsetSize(q.done, Cells(p * c.rows, p * c.rows + c.rows, Size(c)));
    }
    if q.phase + 1 < c.phases { MulNext(q.phase + 1, c.phases, PhaseSteps(c)); }
  }

  ghost predicate AtMost<R>(c: Config<R>, procs: seq<Proc>, most: int) {
    forall p :: 0 <= p < |procs| ==> StepsOfProc(c, procs[p]) <= most
  }

  ghost predicate AtLeast<R>(c: Config<R>, procs: seq<Proc>, most: int) {
    forall p :: 0 <= p < |procs| ==> StepsOfProc(c, procs[p]) >= most
  }

  lemma LastSplit<R>(c: Config<R>, procs: seq<Proc>, most: int, before: seq<Proc>, last: Proc)
    requires procs == before + [last]
    ensures AtMost(c, procs, most) <==> AtMost(c, before, most) && StepsOfProc(c, last) <= most
    ensures AtLeast(c, procs, most) <==> AtLeast(c, before, most) && StepsOfProc(c, last) >= most
    ensures StepsOfAll(c, procs) == StepsOfAll(c, before) + StepsOfProc(c, last)
  {
    assert procs[..|before|] == before && procs[|before|] == last;
    forall p | 0 <= p < |before| ensures procs[p] == before[p] { assert procs[..|before|][p] == before[p]; }
  }

  lemma OneMore(all: int, n: nat, most: int, last: int)
    requires all <= n * most && last <= most
    ensures all + last <= (n + 1) * most
    ensures all + last == (n + 1) * most <==> all == n * most && last == most
  {
    assert (n + 1) * most == n * most + most;
  }

  /** The sum is the largest possible exactly when every processor has made the most steps. */
  lemma {:induction false} StepsFull<R>(c: Config<R>, procs: seq<Proc>, most: int)
    requires AtMost(c, procs, most)
    ensures StepsOfAll(c, procs) <= |procs| * most
    ensures StepsOfAll(c, procs) == |procs| * most <==> AtLeast(c, procs, most)
  {
    if procs != [] {
      var before, last := procs[..|procs| - 1], procs[|procs| - 1];
      LastSplit(c, procs, most, before, last);
      StepsFull(c, before, most);
      OneMore(StepsOfAll(c, before), |before|, most, StepsOfProc(c, last));
    }
  }

  /** In every interleaving: no run is longer than the steps of all processors together, and a run
      has made that many exactly when all processors have reached the last barrier. */
  lemma RunsAreFinite<R(!new)>(c: Config<R>, run: seq<State<R>>)
    requires IsRun(c, run) && c.phases > 0
    ensures |run| - 1 <= c.procs * Whole(c)
    ensures |run| - 1 == c.procs * Whole(c) <==> AllDone(c, run[|run| - 1])
  {
    var j := |run| - 1;
    var s := run[j];
    RunInv(c, run, j);
    RunCounts(c, run, j);
    forall p | 0 <= p < |s.proc|
      ensures StepsOfProc(c, s.proc[p]) <= Whole(c)
      ensures StepsOfProc(c, s.proc[p]) == Whole(c) <==> s.proc[p].AtBarrier? && s.proc[p].phase + 1 == c.phases
    {
      ProcBound(c, s, p);
    }
    StepsFull(c, s.proc, Whole(c));
  }

  ghost predicate NoStep<R(!new)>(c: Config<R>, s: State<R>) { forall r :: !Step(c, s, r) }

  /** A run that cannot go on has all processors at the last barrier. */
  lemma EndedMeansDone<R(!new)>(c: Config<R>, run: seq<State<R>>)
    requires IsRun(c, run) && c.phases > 0 && NoStep(c, run[|run| - 1])
    ensures AllDone(c, run[|run| - 1])
  {
    RunInv(c, run, |run| - 1);
    if !AllDone(c, run[|run| - 1]) { var r := SomeStep(c, run[|run| - 1]); }
  }

  // -------------------------------------------------------------------------------------
  // The six-step transform

  /** What the elements have to be after each of the three phases. */
  ghost function Wanted<R>(t: Job<R>, scale: Option<R>): (nat, nat, nat) -> R {
    (k: nat, h: nat, v: nat) =>
      if k == 0 then t.orig(h * Two(t.m) + v) else if k == 1 then First(t)(h, v)
      else if k == 2 then Second(t, scale)(h, v) else Third(t, scale)(h, v)
  }

  ghost function SixSteps<R>(t: Job<R>, scale: Option<R>, procs: nat, rows: nat): Config<R> {
    Config(procs, rows, 3, Wanted(t, scale))
  }

  /** In every interleaving the transform ends with the transform of the elements in the second
      matrix, scaled when a factor is given, for every number of processors that divides the rows. */
  lemma ParallelFftIsCorrect<R(!new)>(t: Job<R>, scale: Option<R>, procs: nat, rows: nat, run: seq<State<R>>, d: nat, e: nat)
    requires Two(t.m) == procs * rows && IsRun(SixSteps(t, scale, procs, rows), run)
    requires AllDone(SixSteps(t, scale, procs, rows), run[|run| - 1]) && d < Two(t.m) && e < Two(t.m)
    ensures run[|run| - 1].buf(1, d, e) ==
            Scaled(t, scale, Dft(t.g, t.orig, t.w, Two(t.m) * Two(t.m), d * Two(t.m) + e))
  {
    ParallelPhases(SixSteps(t, scale, procs, rows), run, d, e);
    assert Third(t, scale)(d, e) == Result(t, scale, d * Two(t.m) + e);
  }

  lemma RowInputs<R(!new)>(t: Job<R>, scale: Option<R>, h: nat, v: nat)
    ensures Wanted(t, scale)(0, v, h) == Column(t.orig, Two(t.m), h)(v)
    ensures Wanted(t, scale)(1, v, h) == SecondPlan(t, h).orig(v) && Wanted(t, scale)(1, h, v) == First(t)(h, v)
    ensures Wanted(t, scale)(2, v, h) == Wanted(t, scale)(3, h, v) && Wanted(t, scale)(2, h, v) == Second(t, scale)(h, v)
  {
    assert Wanted(t, scale)(1, v, h) == First(t)(v, h) == Twiddled(t.g, t.orig, t.w, Two(t.m), h)(v);
    assert Second(t, scale)(v, h) == Result(t, scale, h * Two(t.m) + v) == Third(t, scale)(h, v);
  }

  /** The row methods have the effect that the state machine gives to the work on a row: from the
      transposed row of phase k they make the row that the phase has to make. */
  method RowWork<R(!new)>(ghost t: Job<R>, g: Ring<R>, turn: R -> R, u: seq<R>, u2: array2<R>, x: array2<R>, h: nat, m: nat,
                          scale: Option<R>, k: nat)
    requires ValidJob(t) && g == t.g && m == t.m && Shape(t, x) && Shape(t, u2) && u2 != x && h < Two(m) && k < 3
    requires IsRowTable(t, turn, u) && IsTwiddles(t, turn, u2)
    requires forall v: nat :: v < Two(m) ==> x[h, v] == Wanted(t, scale)(k, v, h)
    modifies x
    ensures forall v: nat :: v < Two(m) ==> x[h, v] == Wanted(t, scale)(k + 1, h, v)
    ensures forall r, i :: 0 <= r < x.Length0 && 0 <= i < x.Length1 && r != h ==> x[r, i] == old(x[r, i])
  {
    forall v: nat
      ensures Wanted(t, scale)(0, v, h) == Column(t.orig, Two(m), h)(v)
      ensures Wanted(t, scale)(1, v, h) == SecondPlan(t, h).orig(v) && Wanted(t, scale)(1, h, v) == First(t)(h, v)
      ensures Wanted(t, scale)(2, v, h) == Wanted(t, scale)(3, h, v) && Wanted(t, scale)(2, h, v) == Second(t, scale)(h, v)
    {
      RowInputs(t, scale, h, v);
    }
    if k == 0 {
      FirstRow(t, g, turn, u, u2, x, h, m);
    } else if k == 1 {
      SecondRow(t, g, turn, u, x, h, m, scale);
    }
  }
}
