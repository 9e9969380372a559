/** Every step of the fan-out method keeps the invariant. */
module FanOutSteps {
  import opened ProcessorGrid
  import opened FanOut

  // -------------------------------------------------------------------------------------
  // Frames: what a step that leaves the relevant fields alone keeps

  ghost predicate SameMessages(s: State, r: State) {
    && |r.proc| == |s.proc|
    && forall q :: 0 <= q < |s.proc| ==> r.proc[q].sends == s.proc[q].sends && r.proc[q].mail == s.proc[q].mail
  }

  ghost predicate SameMemory(s: State, r: State) {
    && |r.proc| == |s.proc| && r.got == s.got && r.counted == s.counted
    && forall q :: 0 <= q < |s.proc| ==>
      && r.proc[q].lists == s.proc[q].lists && r.proc[q].diag == s.proc[q].diag
      && r.proc[q].nreceived == s.proc[q].nreceived
  }

  ghost predicate SameControl(s: State, r: State) {
    && |r.proc| == |s.proc|
    && forall q :: 0 <= q < |s.proc| ==> r.proc[q].pc == s.proc[q].pc && r.proc[q].next == s.proc[q].next
  }

  ghost predicate SamePending(s: State, r: State) {
    && |r.proc| == |s.proc|
    && forall q, x, y :: 0 <= q < |s.proc| ==> Pending(r, q, x, y) == Pending(s, q, x, y)
  }

  ghost predicate SameHand(s: State, r: State) {
    && |r.proc| == |s.proc|
    && forall q, b :: 0 <= q < |s.proc| ==> InHand(r, q, b) == InHand(s, q, b)
  }

  /** The control point of the other processors is unchanged. */
  ghost predicate SameOtherPcs(s: State, r: State, p: nat) {
    && |r.proc| == |s.proc| && p < |s.proc|
    && forall q :: 0 <= q < |s.proc| && q != p ==> r.proc[q].pc == s.proc[q].pc
  }

  lemma PendingFrame(s: State, r: State, p: nat)
    requires SameOtherPcs(s, r, p)
    requires r.proc[p].pc == s.proc[p].pc || (!s.proc[p].pc.Updating? && !r.proc[p].pc.Updating?)
    ensures SamePending(s, r)
  {
  }

  lemma HandFrame(s: State, r: State, p: nat)
    requires SameOtherPcs(s, r, p)
    requires forall b :: InHand(r, p, b) == InHand(s, p, b)
    ensures SameHand(s, r)
  {
  }

  lemma FrameBlockFlow(cfg: Config, s: State, r: State)
    requires Shaped(cfg, s) && Shaped(cfg, r) && AllBlockFlow(cfg, s)
    requires SameMessages(s, r) && r.got == s.got && r.done == s.done
    ensures AllBlockFlow(cfg, r)
  {
    forall b, p | InMatrix(cfg, b) && 0 <= p < |r.proc| ensures BlockFlow(cfg, r, b, p) {
      assert BlockFlow(cfg, s, b, p);
    }
  }

  /** Moving a loop on changes no update unless a pair of blocks was pending. */
  lemma FrameUpdateFlow(cfg: Config, s: State, r: State)
    requires Shaped(cfg, s) && Shaped(cfg, r) && AllUpdateFlow(cfg, s)
    requires SameMessages(s, r) && r.got == s.got && r.performed == s.performed
    requires SamePending(s, r)
    ensures AllUpdateFlow(cfg, r)
  {
    forall u | ValidUpdate(cfg, u) ensures UpdateFlow(cfg, r, u) {
      assert UpdateFlow(cfg, s, u);
    }
  }

  lemma LeftSame(cfg: Config, s: State, r: State, b: Block)
    requires Shaped(cfg, s) && Shaped(cfg, r) && InMatrix(cfg, b) && r.performed == s.performed
    ensures Left(cfg, r, b) == Left(cfg, s, b)
  {
  }

  lemma FrameDone(cfg: Config, s: State, r: State)
    requires Shaped(cfg, s) && Shaped(cfg, r) && AllDone(cfg, s)
    requires r.performed == s.performed && r.done == s.done && s.got <= r.got && r.remaining == s.remaining
    ensures AllDone(cfg, r)
  {
    forall b | InMatrix(cfg, b) ensures DoneOk(cfg, r, b) {
      LeftSame(cfg, s, r, b);
      assert DoneOk(cfg, s, b);
    }
  }

  lemma FrameLists(cfg: Config, s: State, r: State)
    requires Shaped(cfg, s) && Shaped(cfg, r) && AllLists(cfg, s) && SameMemory(s, r)
    ensures AllLists(cfg, r)
  {
    forall p, c | 0 <= p < |r.proc| && 0 <= c < cfg.n ensures ListsOk(cfg, r, p, c) {
      assert ListsOk(cfg, s, p, c);
      assert ToCome(cfg, r, p, c) == ToCome(cfg, s, p, c);
    }
  }

  lemma FrameGot(cfg: Config, s: State, r: State)
    requires Shaped(cfg, s) && Shaped(cfg, r) && AllGot(cfg, s)
    requires r.got == s.got && r.counted == s.counted
    requires SameHand(s, r)
    ensures AllGot(cfg, r)
  {
    forall e ensures GotOk(cfg, r, e) { assert GotOk(cfg, s, e); }
  }

  lemma FrameControl(cfg: Config, s: State, r: State)
    requires Shaped(cfg, s) && Shaped(cfg, r) && AllReady(cfg, s) && AllNext(cfg, s) && AllPc(cfg, s)
    requires SameControl(s, r) && r.performed == s.performed && r.done == s.done && r.got == s.got
    ensures AllReady(cfg, r) && AllNext(cfg, r) && AllPc(cfg, r)
  {
    forall b | InMatrix(cfg, b) ensures ReadyOk(cfg, r, b) {
      LeftSame(cfg, s, r, b);
      assert ReadyOk(cfg, s, b);
    }
    forall p | 0 <= p < |r.proc| ensures NextOk(cfg, r, p) {
      assert NextOk(cfg, s, p);
      if s.proc[p].next != Nothing { LeftSame(cfg, s, r, s.proc[p].next.b); }
    }
    forall p | 0 <= p < |r.proc| ensures PcOk(cfg, r, p) { assert PcOk(cfg, s, p); }
  }

  // -------------------------------------------------------------------------------------
  // Deliver

  lemma DeliverShaped(cfg: Config, s: State, p: nat)
    requires Shaped(cfg, s) && p < |s.proc| && s.proc[p].sends != [] && s.proc[p].sends[0].0 < |s.proc|
    ensures var r := Deliver(s, p);
      Shaped(cfg, r) && SameControl(s, r) && SameMemory(s, r)
  {
    var r := Deliver(s, p);
    forall q | 0 <= q < |r.proc| ensures ProcShaped(cfg, r.proc[q]) { assert ProcShaped(cfg, s.proc[q]); }
  }

  lemma DeliverMessages(cfg: Config, s: State, p: nat)
    requires Shaped(cfg, s) && p < |s.proc| && s.proc[p].sends != [] && s.proc[p].sends[0].0 < |s.proc|
    requires Shaped(cfg, Deliver(s, p)) && AllMessages(cfg, s)
    ensures AllMessages(cfg, Deliver(s, p))
  {
    var r := Deliver(s, p);
    forall q | 0 <= q < |r.proc| ensures MessagesOk(cfg, r, q) {
      assert MessagesOk(cfg, s, p) && MessagesOk(cfg, s, q);
    }
  }

  /** Delivery moves one message from the sends of p to a mailbox. */
  lemma DeliverCounts(s: State, p: nat, q: nat, to: nat, m: Msg)
    requires p < |s.proc| && s.proc[p].sends != [] && s.proc[p].sends[0].0 < |s.proc|
    requires q < |s.proc| && to < |s.proc|
    ensures var r, first := Deliver(s, p), s.proc[p].sends[0];
      && Sending(r, q, to, m) == Sending(s, q, to, m) - (if q == p && first == (to, m) then 1 else 0)
      && Waiting(r, to, m) == Waiting(s, to, m) + (if first == (to, m) then 1 else 0)
  {
    CountTail(s.proc[p].sends, (to, m));
    CountAppend(s.proc[to].mail, s.proc[p].sends[0].1, m);
  }

  lemma DeliverBlockFlow(cfg: Config, s: State, p: nat)
    requires Shaped(cfg, s) && p < |s.proc| && s.proc[p].sends != [] && s.proc[p].sends[0].0 < |s.proc|
    requires Shaped(cfg, Deliver(s, p)) && MessagesOk(cfg, s, p) && AllBlockFlow(cfg, s)
    ensures AllBlockFlow(cfg, Deliver(s, p))
  {
    var r, first := Deliver(s, p), s.proc[p].sends[0];
    assert InMessage(cfg, p, first.0, first.1);
    forall b, q | InMatrix(cfg, b) && 0 <= q < |r.proc| ensures BlockFlow(cfg, r, b, q) {
      DeliverCounts(s, p, OwnerOf(cfg, b), q, BlockMsg(b));
      assert BlockFlow(cfg, s, b, q);
    }
  }

  lemma DeliverUpdateFlow(cfg: Config, s: State, p: nat, u: Update)
    requires Shaped(cfg, s) && p < |s.proc| && s.proc[p].sends != [] && s.proc[p].sends[0].0 < |s.proc|
    requires Shaped(cfg, Deliver(s, p)) && MessagesOk(cfg, s, p) && ValidUpdate(cfg, u) && UpdateFlow(cfg, s, u)
    ensures UpdateFlow(cfg, Deliver(s, p), u)
  {
    var first := s.proc[p].sends[0];
    assert InMessage(cfg, p, first.0, first.1);
    if u.src.Domain? {
      assert DomainOk(cfg, u.src.d);
      DeliverCounts(s, p, cfg.domains[u.src.d].owner, OwnerOf(cfg, u.dest), DomainMsg(u.src.d, u.dest.row, u.dest.col));
    }
  }

  lemma DeliverFlows(cfg: Config, s: State, p: nat)
    requires Shaped(cfg, s) && p < |s.proc| && s.proc[p].sends != [] && s.proc[p].sends[0].0 < |s.proc|
    requires Shaped(cfg, Deliver(s, p)) && MessagesOk(cfg, s, p)
    requires AllBlockFlow(cfg, s) && AllUpdateFlow(cfg, s)
    ensures AllBlockFlow(cfg, Deliver(s, p)) && AllUpdateFlow(cfg, Deliver(s, p))
  {
    DeliverBlockFlow(cfg, s, p);
    forall u | ValidUpdate(cfg, u) ensures UpdateFlow(cfg, Deliver(s, p), u) {
      DeliverUpdateFlow(cfg, s, p, u);
    }
  }

  lemma DeliverKept(cfg: Config, s: State, p: nat)
    requires Inv(cfg, s) && p < |s.proc| && s.proc[p].sends != [] && s.proc[p].sends[0].0 < |s.proc|
    ensures Inv(cfg, Deliver(s, p))
  {
    var r := Deliver(s, p);
    DeliverShaped(cfg, s, p);
    DeliverMessages(cfg, s, p);
    assert MessagesOk(cfg, s, p);
    DeliverFlows(cfg, s, p);
    HandFrame(s, r, p);
    FrameDone(cfg, s, r);
    FrameControl(cfg, s, r);
    FrameLists(cfg, s, r);
    FrameGot(cfg, s, r);
  }

  // -------------------------------------------------------------------------------------
  // BlockDone and BlockReady

  lemma {:induction false} AddressedCount(ds: seq<nat>, m: Msg, q: nat, x: Msg)
    ensures Count(Addressed(ds, m), (q, x)) == (if x == m then Count(ds, q) else 0)
    decreases |ds|
  {
    if ds != [] {
      var last := |ds| - 1;
      AddressedCount(ds[..last], m, q, x);
      assert ds == ds[..last] + [ds[last]];
      assert Addressed(ds, m) == Addressed(ds[..last], m) + [(ds[last], m)];
      CountAppend(Addressed(ds[..last], m), (ds[last], m), (q, x));
      CountAppend(ds[..last], ds[last], q);
    }
  }

  lemma DoneShaped(cfg: Config, s: State, p: nat, b: Block)
    requires Shaped(cfg, s) && p < |s.proc| && InMatrix(cfg, b)
    ensures Shaped(cfg, BlockDone(cfg, s, p, b)) && SameMemory(s, BlockDone(cfg, s, p, b))
  {
    var r := BlockDone(cfg, s, p, b);
    forall q | 0 <= q < |r.proc| ensures ProcShaped(cfg, r.proc[q]) { assert ProcShaped(cfg, s.proc[q]); }
  }

  lemma DoneMessages(cfg: Config, s: State, p: nat, b: Block)
    requires Shaped(cfg, s) && p < |s.proc| && InMatrix(cfg, b) && OwnerOf(cfg, b) == p
    requires AllMessages(cfg, s) && Shaped(cfg, BlockDone(cfg, s, p, b))
    ensures AllMessages(cfg, BlockDone(cfg, s, p, b))
  {
    var r := BlockDone(cfg, s, p, b);
    forall k | 0 <= k < |BlockSends(cfg, b)|
      ensures InMessage(cfg, p, BlockSends(cfg, b)[k].0, BlockSends(cfg, b)[k].1) {
      DestsInRange(cfg.grid, cfg.n, b.row, k);
    }
    forall q | 0 <= q < |r.proc| ensures MessagesOk(cfg, r, q) { assert MessagesOk(cfg, s, q); }
  }

  lemma DoneBlockFlow(cfg: Config, s: State, p: nat, b: Block, x: Block, q: nat)
    requires Shaped(cfg, s) && p < |s.proc| && InMatrix(cfg, b) && OwnerOf(cfg, b) == p && s.proc[p].sends == []
    requires b !in s.done && Shaped(cfg, BlockDone(cfg, s, p, b))
    requires InMatrix(cfg, x) && q < |s.proc| && BlockFlow(cfg, s, x, q)
    ensures BlockFlow(cfg, BlockDone(cfg, s, p, b), x, q)
  {
    AddressedCount(Dests(cfg.grid, cfg.n, b.row), BlockMsg(b), q, BlockMsg(x));
    SentOnce(cfg.grid, cfg.n, b.row, q);
    assert BlockDone(cfg, s, p, b).done[x] == s.done[x] + (if x == b then 1 else 0);
  }

  lemma DoneUpdateFlow(cfg: Config, s: State, p: nat, b: Block, u: Update)
    requires Shaped(cfg, s) && p < |s.proc| && InMatrix(cfg, b) && s.proc[p].sends == []
    requires Shaped(cfg, BlockDone(cfg, s, p, b)) && ValidUpdate(cfg, u) && UpdateFlow(cfg, s, u)
    ensures UpdateFlow(cfg, BlockDone(cfg, s, p, b), u)
  {
    if u.src.Domain? {
      AddressedCount(Dests(cfg.grid, cfg.n, b.row), BlockMsg(b), OwnerOf(cfg, u.dest),
                     DomainMsg(u.src.d, u.dest.row, u.dest.col));
    }
  }

  lemma DoneDone(cfg: Config, s: State, p: nat, b: Block)
    requires Shaped(cfg, s) && p < |s.proc| && InMatrix(cfg, b) && b !in s.done
    requires Left(cfg, s, b) == {} && GotDiag(cfg, s, b)
    requires AllDone(cfg, s) && AllReady(cfg, s) && Shaped(cfg, BlockDone(cfg, s, p, b))
    requires OwnerOf(cfg, b) == p && (s.proc[p].next == Ready(b) || s.proc[p].next == Complete(b))
    ensures AllDone(cfg, BlockDone(cfg, s, p, b)) && AllReady(cfg, BlockDone(cfg, s, p, b))
  {
    var r := BlockDone(cfg, s, p, b);
    forall x | InMatrix(cfg, x) ensures DoneOk(cfg, r, x) && ReadyOk(cfg, r, x) {
      LeftSame(cfg, s, r, x);
      assert DoneOk(cfg, s, x) && ReadyOk(cfg, s, x);
    }
  }

  lemma DoneControl(cfg: Config, s: State, p: nat, b: Block)
    requires Shaped(cfg, s) && p < |s.proc| && InMatrix(cfg, b)
    requires AllNext(cfg, s) && AllPc(cfg, s) && Shaped(cfg, BlockDone(cfg, s, p, b))
    requires OwnerOf(cfg, b) == p && (s.proc[p].next == Ready(b) || s.proc[p].next == Complete(b))
    ensures AllNext(cfg, BlockDone(cfg, s, p, b)) && AllPc(cfg, BlockDone(cfg, s, p, b))
  {
    var r := BlockDone(cfg, s, p, b);
    forall q | 0 <= q < |r.proc| ensures NextOk(cfg, r, q) && PcOk(cfg, r, q) {
      assert NextOk(cfg, s, q) && PcOk(cfg, s, q);
      if q != p && s.proc[q].next != Nothing { LeftSame(cfg, s, r, s.proc[q].next.b); }
    }
  }

  lemma DoneKept(cfg: Config, s: State, p: nat, b: Block)
    requires Inv(cfg, s) && p < |s.proc| && s.proc[p].sends == [] && InMatrix(cfg, b) && GotDiag(cfg, s, b)
    requires s.proc[p].next == Ready(b) || s.proc[p].next == Complete(b)
    ensures Inv(cfg, BlockDone(cfg, s, p, b))
  {
    var r := BlockDone(cfg, s, p, b);
    assert NextOk(cfg, s, p);
    DoneShaped(cfg, s, p, b);
    DoneMessages(cfg, s, p, b);
    forall x, q | InMatrix(cfg, x) && 0 <= q < |r.proc| ensures BlockFlow(cfg, r, x, q) {
      DoneBlockFlow(cfg, s, p, b, x, q);
    }
    forall u | ValidUpdate(cfg, u) ensures UpdateFlow(cfg, r, u) { DoneUpdateFlow(cfg, s, p, b, u); }
    DoneDone(cfg, s, p, b);
    DoneControl(cfg, s, p, b);
    HandFrame(s, r, p);
    FrameLists(cfg, s, r);
    FrameGot(cfg, s, r);
  }

  /** The diagonal block of a column is kept while an owned block of the column is not done. */
  lemma DiagonalKept(cfg: Config, s: State, p: nat, b: Block)
    requires Shaped(cfg, s) && p < |s.proc| && InMatrix(cfg, b) && b.row != b.col
    requires OwnerOf(cfg, b) == p && b !in s.done
    requires BlockFlow(cfg, s, b, p) && ListsOk(cfg, s, p, b.col) && GotOk(cfg, s, (p, b))
    ensures s.proc[p].diag[b.col] <==> GotDiag(cfg, s, b)
  {
    OwnerIsDest(cfg.grid, cfg.n, b.row, b.col);
    assert b in ColumnBlocks(cfg, b.col);
    assert b in ToCome(cfg, s, p, b.col);
  }

  // -------------------------------------------------------------------------------------
  // Steps that only move the control of processor p

  lemma WithShaped(cfg: Config, s: State, p: nat, q: Proc)
    requires Shaped(cfg, s) && p < |s.proc| && ProcShaped(cfg, q)
    ensures Shaped(cfg, With(s, p, q))
  {
    forall x | 0 <= x < |s.proc| ensures ProcShaped(cfg, With(s, p, q).proc[x]) { assert ProcShaped(cfg, s.proc[x]); }
  }

  ghost predicate ControlOnly(a: Proc, b: Proc) {
    b == a.(pc := b.pc, next := b.next)
  }

  lemma ControlMessages(cfg: Config, s: State, p: nat, q: Proc)
    requires Shaped(cfg, s) && p < |s.proc| && ControlOnly(s.proc[p], q) && Shaped(cfg, With(s, p, q))
    requires AllMessages(cfg, s) && (q.pc.Stopped? ==> s.terminated || cfg.n == 0)
    ensures AllMessages(cfg, With(s, p, q))
  {
    forall x | 0 <= x < |s.proc| ensures MessagesOk(cfg, With(s, p, q), x) { assert MessagesOk(cfg, s, x); }
  }

  /** The control predicates of the other processors, and of their blocks, are kept. */
  lemma ControlOthers(cfg: Config, s: State, p: nat, q: Proc, x: nat, b: Block)
    requires Shaped(cfg, s) && p < |s.proc| && Shaped(cfg, With(s, p, q))
    requires x < |s.proc| && x != p && NextOk(cfg, s, x) && PcOk(cfg, s, x)
    ensures NextOk(cfg, With(s, p, q), x) && PcOk(cfg, With(s, p, q), x)
    ensures InMatrix(cfg, b) && OwnerOf(cfg, b) == x && ReadyOk(cfg, s, b) ==> ReadyOk(cfg, With(s, p, q), b)
  {
    var r := With(s, p, q);
    if s.proc[x].next != Nothing { LeftSame(cfg, s, r, s.proc[x].next.b); }
    if InMatrix(cfg, b) { LeftSame(cfg, s, r, b); }
  }

  /** A control step is kept once its own control predicates and blocks are. */
  lemma ControlKept(cfg: Config, s: State, p: nat, q: Proc)
    requires Shaped(cfg, s) && p < |s.proc| && Shaped(cfg, With(s, p, q))
    requires AllReady(cfg, s) && AllNext(cfg, s) && AllPc(cfg, s)
    requires NextOk(cfg, With(s, p, q), p) && PcOk(cfg, With(s, p, q), p)
    requires forall b :: InMatrix(cfg, b) && OwnerOf(cfg, b) == p ==> ReadyOk(cfg, With(s, p, q), b)
    ensures AllReady(cfg, With(s, p, q)) && AllNext(cfg, With(s, p, q)) && AllPc(cfg, With(s, p, q))
  {
    var r := With(s, p, q);
    forall x | 0 <= x < |s.proc| ensures NextOk(cfg, r, x) && PcOk(cfg, r, x) {
      assert NextOk(cfg, s, x) && PcOk(cfg, s, x);
      if x != p { ControlOthers(cfg, s, p, q, x, Block(0, 0)); }
    }
    forall b | InMatrix(cfg, b) ensures ReadyOk(cfg, r, b) {
      var x := OwnerOf(cfg, b);
      assert NextOk(cfg, s, x) && PcOk(cfg, s, x) && ReadyOk(cfg, s, b);
      if x != p { ControlOthers(cfg, s, p, q, x, b); }
    }
  }

  /** A control step keeps the invariant if it keeps the pending updates and the control. */
  lemma ControlInv(cfg: Config, s: State, p: nat, q: Proc)
    requires Inv(cfg, s) && p < |s.proc| && ControlOnly(s.proc[p], q) && Shaped(cfg, With(s, p, q))
    requires q.pc.Stopped? ==> s.terminated || cfg.n == 0
    requires SameHand(s, With(s, p, q))
    requires AllUpdateFlow(cfg, With(s, p, q)) && LastOk(cfg, With(s, p, q))
    requires AllReady(cfg, With(s, p, q)) && AllNext(cfg, With(s, p, q)) && AllPc(cfg, With(s, p, q))
    ensures Inv(cfg, With(s, p, q))
  {
    var r := With(s, p, q);
    ControlMessages(cfg, s, p, q);
    FrameBlockFlow(cfg, s, r);
    FrameDone(cfg, s, r);
    FrameLists(cfg, s, r);
    FrameGot(cfg, s, r);
  }

  lemma ForgetBlocks(cfg: Config, s: State, p: nat, b: Block)
    requires Shaped(cfg, s) && p < |s.proc| && InMatrix(cfg, b) && b.row != b.col && !GotDiag(cfg, s, b)
    requires s.proc[p].next == Ready(b) && OwnerOf(cfg, b) == p && AllReady(cfg, s)
    requires Shaped(cfg, With(s, p, s.proc[p].(next := Nothing)))
    ensures AllReady(cfg, With(s, p, s.proc[p].(next := Nothing)))
  {
    var r := With(s, p, s.proc[p].(next := Nothing));
    forall x | InMatrix(cfg, x) ensures ReadyOk(cfg, r, x) {
      LeftSame(cfg, s, r, x);
      assert ReadyOk(cfg, s, x);
    }
  }

  lemma ForgetAll(cfg: Config, s: State, p: nat, b: Block)
    requires Shaped(cfg, s) && p < |s.proc| && InMatrix(cfg, b) && b.row != b.col && !GotDiag(cfg, s, b)
    requires s.proc[p].next == Ready(b) && OwnerOf(cfg, b) == p
    requires AllReady(cfg, s) && AllNext(cfg, s) && AllPc(cfg, s) && Shaped(cfg, With(s, p, s.proc[p].(next := Nothing)))
    ensures var r := With(s, p, s.proc[p].(next := Nothing));
      AllReady(cfg, r) && AllNext(cfg, r) && AllPc(cfg, r)
  {
    var q := s.proc[p].(next := Nothing);
    assert PcOk(cfg, s, p);
    ForgetBlocks(cfg, s, p, b);
    ControlKept(cfg, s, p, q);
  }

  lemma ForgetKept(cfg: Config, s: State, p: nat, b: Block)
    requires Inv(cfg, s) && p < |s.proc| && InMatrix(cfg, b) && b.row != b.col && !GotDiag(cfg, s, b)
    requires s.proc[p].next == Ready(b) && OwnerOf(cfg, b) == p
    ensures Inv(cfg, With(s, p, s.proc[p].(next := Nothing)))
  {
    var q := s.proc[p].(next := Nothing);
    var r := With(s, p, q);
    assert ProcShaped(cfg, s.proc[p]) && MessagesOk(cfg, s, p);
    WithShaped(cfg, s, p, q);
    PendingFrame(s, r, p);
    HandFrame(s, r, p);
    FrameUpdateFlow(cfg, s, r);
    ForgetAll(cfg, s, p, b);
    ControlInv(cfg, s, p, q);
  }

  lemma ReadyKept(cfg: Config, s: State, p: nat, b: Block)
    requires Inv(cfg, s) && p < |s.proc| && s.proc[p].sends == [] && InMatrix(cfg, b)
    requires s.proc[p].next == Ready(b)
    ensures Inv(cfg, BlockReady(cfg, s, p, b))
  {
    assert NextOk(cfg, s, p);
    assert BlockFlow(cfg, s, b, p) && ListsOk(cfg, s, p, b.col) && GotOk(cfg, s, (p, b));
    if b.row != b.col { DiagonalKept(cfg, s, p, b); }
    if b.row == b.col || s.proc[p].diag[b.col] { DoneKept(cfg, s, p, b); } else { ForgetKept(cfg, s, p, b); }
  }

  // -------------------------------------------------------------------------------------
  // The start-up loop

  lemma HasSource(cfg: Config, c: nat)
    requires ValidConfig(cfg) && c < cfg.n && !cfg.head[c]
    ensures c > 0 && Column(c - 1) in Sources(cfg, Block(c, c))
  {
    assert ColumnOk(cfg, c);
    assert Meets(cfg.below[c - 1], Block(c, c));
  }

  lemma StartBlocks(cfg: Config, s: State, p: nat, c: nat, x: Block)
    requires Shaped(cfg, s) && p < |s.proc| && s.proc[p].pc == Starting(c) && s.proc[p].next == Nothing && c < cfg.n
    requires PcOk(cfg, s, p) && Shaped(cfg, StartStep(cfg, s, p, c))
    requires InMatrix(cfg, x) && OwnerOf(cfg, x) == p && ReadyOk(cfg, s, x) && DoneOk(cfg, s, x)
    ensures ReadyOk(cfg, StartStep(cfg, s, p, c), x)
  {
    LeftSame(cfg, s, StartStep(cfg, s, p, c), x);
    if x == Block(c, c) && !cfg.head[c] {
      HasSource(cfg, c);
      assert Column(c - 1) in Left(cfg, s, x);
    }
  }

  lemma StartControl(cfg: Config, s: State, p: nat, c: nat)
    requires Shaped(cfg, s) && p < |s.proc| && s.proc[p].pc == Starting(c) && s.proc[p].next == Nothing && c < cfg.n
    requires PcOk(cfg, s, p) && Shaped(cfg, StartStep(cfg, s, p, c)) && DoneOk(cfg, s, Block(c, c))
    ensures NextOk(cfg, StartStep(cfg, s, p, c), p) && PcOk(cfg, StartStep(cfg, s, p, c), p)
  {
    var r := StartStep(cfg, s, p, c);
    var b := Block(c, c);
    LeftSame(cfg, s, r, b);
    assert Untouched(cfg, s, p, b);
    forall k | c + 1 <= k < cfg.n ensures Untouched(cfg, r, p, Block(k, k)) { assert Untouched(cfg, s, p, Block(k, k)); }
  }

  lemma StartAll(cfg: Config, s: State, p: nat, c: nat)
    requires Shaped(cfg, s) && p < |s.proc| && s.proc[p].pc == Starting(c) && s.proc[p].next == Nothing && c < cfg.n
    requires AllReady(cfg, s) && AllNext(cfg, s) && AllPc(cfg, s) && AllDone(cfg, s) && Shaped(cfg, StartStep(cfg, s, p, c))
    ensures var r := StartStep(cfg, s, p, c);
      AllReady(cfg, r) && AllNext(cfg, r) && AllPc(cfg, r)
  {
    var r := StartStep(cfg, s, p, c);
    assert PcOk(cfg, s, p) && DoneOk(cfg, s, Block(c, c));
    assert r == With(s, p, r.proc[p]);
    StartControl(cfg, s, p, c);
    forall x | InMatrix(cfg, x) && OwnerOf(cfg, x) == p ensures ReadyOk(cfg, r, x) {
      assert ReadyOk(cfg, s, x) && DoneOk(cfg, s, x);
      StartBlocks(cfg, s, p, c, x);
    }
    ControlKept(cfg, s, p, r.proc[p]);
  }

  lemma StartKept(cfg: Config, s: State, p: nat, c: nat)
    requires Inv(cfg, s) && p < |s.proc| && s.proc[p].pc == Starting(c) && s.proc[p].next == Nothing && c < cfg.n
    ensures Inv(cfg, StartStep(cfg, s, p, c))
  {
    var r := StartStep(cfg, s, p, c);
    assert ProcShaped(cfg, s.proc[p]);
    WithShaped(cfg, s, p, r.proc[p]);
    assert r == With(s, p, r.proc[p]);
    PendingFrame(s, r, p);
    HandFrame(s, r, p);
    FrameUpdateFlow(cfg, s, r);
    StartAll(cfg, s, p, c);
    ControlInv(cfg, s, p, r.proc[p]);
  }

  lemma StartEndKept(cfg: Config, s: State, p: nat)
    requires Inv(cfg, s) && p < |s.proc| && s.proc[p].pc.Starting? && s.proc[p].next == Nothing && s.proc[p].pc.c >= cfg.n
    ensures Inv(cfg, StartStep(cfg, s, p, s.proc[p].pc.c))
  {
    var r := StartStep(cfg, s, p, s.proc[p].pc.c);
    assert ProcShaped(cfg, s.proc[p]) && PcOk(cfg, s, p);
    WithShaped(cfg, s, p, r.proc[p]);
    assert r == With(s, p, r.proc[p]);
    PendingFrame(s, r, p);
    HandFrame(s, r, p);
    FrameUpdateFlow(cfg, s, r);
    forall x | InMatrix(cfg, x) && OwnerOf(cfg, x) == p ensures ReadyOk(cfg, r, x) {
      LeftSame(cfg, s, r, x);
      assert ReadyOk(cfg, s, x);
    }
    ControlKept(cfg, s, p, r.proc[p]);
    ControlInv(cfg, s, p, r.proc[p]);
  }

  // -------------------------------------------------------------------------------------
  // The loop of DiagReceived

  lemma DiagTurnBlocks(cfg: Config, s: State, p: nat, c: nat, rows: seq<nat>, x: Block)
    requires Shaped(cfg, s) && p < |s.proc| && s.proc[p].pc == DiagLoop(c, rows) && rows != [] && s.proc[p].next == Nothing
    requires Shaped(cfg, DiagStep(cfg, s, p, c, rows))
    requires InMatrix(cfg, x) && OwnerOf(cfg, x) == p && ReadyOk(cfg, s, x) && DoneOk(cfg, s, x)
    ensures ReadyOk(cfg, DiagStep(cfg, s, p, c, rows), x)
  {
    LeftSame(cfg, s, DiagStep(cfg, s, p, c, rows), x);
    assert rows == [rows[0]] + rows[1..];
  }

  lemma DiagTurnControl(cfg: Config, s: State, p: nat, c: nat, rows: seq<nat>)
    requires Shaped(cfg, s) && p < |s.proc| && s.proc[p].pc == DiagLoop(c, rows) && rows != [] && s.proc[p].next == Nothing
    requires Shaped(cfg, DiagStep(cfg, s, p, c, rows)) && PcOk(cfg, s, p)
    requires InMatrix(cfg, Block(rows[0], c)) && DoneOk(cfg, s, Block(rows[0], c))
    ensures NextOk(cfg, DiagStep(cfg, s, p, c, rows), p) && PcOk(cfg, DiagStep(cfg, s, p, c, rows), p)
  {
    var r := DiagStep(cfg, s, p, c, rows);
    var b := Block(rows[0], c);
    LeftSame(cfg, s, r, b);
    assert rows[0] in rows;
    assert Untouched(cfg, s, p, b) && ColumnOk(cfg, c) && rows[0] in cfg.below[c] by { assert ProcShaped(cfg, s.proc[p]); }
    forall i | i in rows[1..] ensures InMatrix(cfg, Block(i, c)) && Untouched(cfg, r, p, Block(i, c)) {
      assert i in rows && Untouched(cfg, s, p, Block(i, c));
    }
  }

  lemma DiagTurnAll(cfg: Config, s: State, p: nat, c: nat, rows: seq<nat>)
    requires Shaped(cfg, s) && p < |s.proc| && s.proc[p].pc == DiagLoop(c, rows) && rows != [] && s.proc[p].next == Nothing
    requires AllReady(cfg, s) && AllNext(cfg, s) && AllPc(cfg, s) && AllDone(cfg, s)
    requires Shaped(cfg, DiagStep(cfg, s, p, c, rows))
    ensures var r := DiagStep(cfg, s, p, c, rows);
      AllReady(cfg, r) && AllNext(cfg, r) && AllPc(cfg, r)
  {
    var r := DiagStep(cfg, s, p, c, rows);
    assert PcOk(cfg, s, p) && rows[0] in rows;
    assert InMatrix(cfg, Block(rows[0], c)) && DoneOk(cfg, s, Block(rows[0], c));
    assert r == With(s, p, r.proc[p]);
    DiagTurnControl(cfg, s, p, c, rows);
    forall x | InMatrix(cfg, x) && OwnerOf(cfg, x) == p ensures ReadyOk(cfg, r, x) {
      assert ReadyOk(cfg, s, x) && DoneOk(cfg, s, x);
      DiagTurnBlocks(cfg, s, p, c, rows, x);
    }
    ControlKept(cfg, s, p, r.proc[p]);
  }

  lemma DiagTurnShaped(cfg: Config, s: State, p: nat, c: nat, rows: seq<nat>)
    requires Inv(cfg, s) && p < |s.proc| && s.proc[p].pc == DiagLoop(c, rows) && rows != [] && s.proc[p].next == Nothing
    ensures var r := DiagStep(cfg, s, p, c, rows);
      Shaped(cfg, r) && p < |r.proc| && ProcShaped(cfg, r.proc[p]) && r == With(s, p, r.proc[p])
  {
    var r := DiagStep(cfg, s, p, c, rows);
    assert ProcShaped(cfg, s.proc[p]) && PcOk(cfg, s, p) && rows[0] in rows;
    assert InMatrix(cfg, Block(rows[0], c));
    assert ProcShaped(cfg, r.proc[p]);
    WithShaped(cfg, s, p, r.proc[p]);
  }

  lemma DiagTurnKept(cfg: Config, s: State, p: nat, c: nat, rows: seq<nat>)
    requires Inv(cfg, s) && p < |s.proc| && s.proc[p].pc == DiagLoop(c, rows) && rows != [] && s.proc[p].next == Nothing
    ensures Inv(cfg, DiagStep(cfg, s, p, c, rows))
  {
    var r := DiagStep(cfg, s, p, c, rows);
    DiagTurnShaped(cfg, s, p, c, rows);
    PendingFrame(s, r, p);
    HandFrame(s, r, p);
    FrameUpdateFlow(cfg, s, r);
    DiagTurnAll(cfg, s, p, c, rows);
    ControlInv(cfg, s, p, r.proc[p]);
  }

  lemma DiagEndMessages(cfg: Config, s: State, p: nat, c: nat)
    requires Shaped(cfg, s) && p < |s.proc| && s.proc[p].pc == DiagLoop(c, [])
    requires AllMessages(cfg, s) && Shaped(cfg, DiagStep(cfg, s, p, c, []))
    ensures AllMessages(cfg, DiagStep(cfg, s, p, c, []))
  {
    var r := DiagStep(cfg, s, p, c, []);
    var all := Addressed(AllSends(cfg.grid.procs), Terminate);
    forall k | 0 <= k < |all| ensures InMessage(cfg, p, all[k].0, all[k].1) { AllSendsInRange(cfg.grid.procs, k); }
    forall q | 0 <= q < |r.proc| ensures MessagesOk(cfg, r, q) { assert MessagesOk(cfg, s, q); }
  }

  lemma DiagEndBlockFlow(cfg: Config, s: State, p: nat, c: nat, b: Block, q: nat)
    requires Shaped(cfg, s) && p < |s.proc| && s.proc[p].pc == DiagLoop(c, []) && s.proc[p].sends == []
    requires Shaped(cfg, DiagStep(cfg, s, p, c, [])) && InMatrix(cfg, b) && q < |s.proc| && BlockFlow(cfg, s, b, q)
    ensures BlockFlow(cfg, DiagStep(cfg, s, p, c, []), b, q)
  {
    AddressedCount(AllSends(cfg.grid.procs), Terminate, q, BlockMsg(b));
  }

  lemma DiagEndUpdateFlow(cfg: Config, s: State, p: nat, c: nat, u: Update)
    requires Shaped(cfg, s) && p < |s.proc| && s.proc[p].pc == DiagLoop(c, []) && s.proc[p].sends == []
    requires Shaped(cfg, DiagStep(cfg, s, p, c, [])) && ValidUpdate(cfg, u) && UpdateFlow(cfg, s, u)
    ensures UpdateFlow(cfg, DiagStep(cfg, s, p, c, []), u)
  {
    if u.src.Domain? {
      AddressedCount(AllSends(cfg.grid.procs), Terminate, OwnerOf(cfg, u.dest),
                     DomainMsg(u.src.d, u.dest.row, u.dest.col));
    }
  }

  lemma DiagEndFlows(cfg: Config, s: State, p: nat, c: nat)
    requires Shaped(cfg, s) && p < |s.proc| && s.proc[p].pc == DiagLoop(c, []) && s.proc[p].sends == []
    requires AllBlockFlow(cfg, s) && AllUpdateFlow(cfg, s) && Shaped(cfg, DiagStep(cfg, s, p, c, []))
    ensures AllBlockFlow(cfg, DiagStep(cfg, s, p, c, [])) && AllUpdateFlow(cfg, DiagStep(cfg, s, p, c, []))
  {
    var r := DiagStep(cfg, s, p, c, []);
    forall b, q | InMatrix(cfg, b) && 0 <= q < |r.proc| ensures BlockFlow(cfg, r, b, q) {
      DiagEndBlockFlow(cfg, s, p, c, b, q);
    }
    forall u | ValidUpdate(cfg, u) ensures UpdateFlow(cfg, r, u) { DiagEndUpdateFlow(cfg, s, p, c, u); }
  }

  lemma DiagEndBlocks(cfg: Config, s: State, p: nat, c: nat)
    requires Shaped(cfg, s) && p < |s.proc| && s.proc[p].pc == DiagLoop(c, []) && s.proc[p].next == Nothing
    requires AllReady(cfg, s) && Shaped(cfg, DiagStep(cfg, s, p, c, []))
    ensures AllReady(cfg, DiagStep(cfg, s, p, c, []))
  {
    var r := DiagStep(cfg, s, p, c, []);
    forall x | InMatrix(cfg, x) ensures ReadyOk(cfg, r, x) {
      LeftSame(cfg, s, r, x);
      assert ReadyOk(cfg, s, x);
    }
  }

  lemma DiagEndControl(cfg: Config, s: State, p: nat, c: nat, q: nat)
    requires Shaped(cfg, s) && p < |s.proc| && s.proc[p].pc == DiagLoop(c, []) && s.proc[p].next == Nothing
    requires q < |s.proc| && NextOk(cfg, s, q) && PcOk(cfg, s, q) && Shaped(cfg, DiagStep(cfg, s, p, c, []))
    ensures NextOk(cfg, DiagStep(cfg, s, p, c, []), q) && PcOk(cfg, DiagStep(cfg, s, p, c, []), q)
  {
    var r := DiagStep(cfg, s, p, c, []);
    if q != p && s.proc[q].next != Nothing { LeftSame(cfg, s, r, s.proc[q].next.b); }
  }

  lemma DiagEndLast(cfg: Config, s: State, p: nat, c: nat)
    requires Shaped(cfg, s) && p < |s.proc| && s.proc[p].pc == DiagLoop(c, []) && PcOk(cfg, s, p)
    requires LastOk(cfg, s) && Shaped(cfg, DiagStep(cfg, s, p, c, []))
    ensures LastOk(cfg, DiagStep(cfg, s, p, c, []))
  {
  }

  lemma DiagEndShaped(cfg: Config, s: State, p: nat, c: nat)
    requires Shaped(cfg, s) && p < |s.proc| && s.proc[p].pc == DiagLoop(c, [])
    ensures Shaped(cfg, DiagStep(cfg, s, p, c, []))
  {
    var r := DiagStep(cfg, s, p, c, []);
    assert ProcShaped(cfg, s.proc[p]);
    WithShaped(cfg, s, p, r.proc[p]);
  }

  lemma DiagEndAll(cfg: Config, s: State, p: nat, c: nat)
    requires Shaped(cfg, s) && p < |s.proc| && s.proc[p].pc == DiagLoop(c, []) && s.proc[p].next == Nothing
    requires AllReady(cfg, s) && AllNext(cfg, s) && AllPc(cfg, s) && LastOk(cfg, s)
    requires Shaped(cfg, DiagStep(cfg, s, p, c, []))
    ensures var r := DiagStep(cfg, s, p, c, []);
      AllReady(cfg, r) && AllNext(cfg, r) && AllPc(cfg, r) && LastOk(cfg, r)
  {
    var r := DiagStep(cfg, s, p, c, []);
    assert PcOk(cfg, s, p);
    DiagEndBlocks(cfg, s, p, c);
    forall q | 0 <= q < |r.proc| ensures NextOk(cfg, r, q) && PcOk(cfg, r, q) {
      assert NextOk(cfg, s, q) && PcOk(cfg, s, q);
      DiagEndControl(cfg, s, p, c, q);
    }
    DiagEndLast(cfg, s, p, c);
  }

  lemma DiagEndRest(cfg: Config, s: State, p: nat, c: nat)
    requires Shaped(cfg, s) && p < |s.proc| && s.proc[p].pc == DiagLoop(c, []) && Shaped(cfg, DiagStep(cfg, s, p, c, []))
    requires LogOk(cfg, s) && AllDone(cfg, s) && AllLists(cfg, s) && AllGot(cfg, s)
    ensures var r := DiagStep(cfg, s, p, c, []);
      LogOk(cfg, r) && AllDone(cfg, r) && AllLists(cfg, r) && AllGot(cfg, r)
  {
    var r := DiagStep(cfg, s, p, c, []);
    HandFrame(s, r, p);
    FrameDone(cfg, s, r);
    FrameLists(cfg, s, r);
    FrameGot(cfg, s, r);
  }

  lemma DiagEndKept(cfg: Config, s: State, p: nat, c: nat)
    requires Inv(cfg, s) && p < |s.proc| && s.proc[p].pc == DiagLoop(c, []) && s.proc[p].next == Nothing
    requires s.proc[p].sends == []
    ensures Inv(cfg, DiagStep(cfg, s, p, c, []))
  {
    DiagEndShaped(cfg, s, p, c);
    DiagEndMessages(cfg, s, p, c);
    DiagEndFlows(cfg, s, p, c);
    DiagEndAll(cfg, s, p, c);
    DiagEndRest(cfg, s, p, c);
  }

  // -------------------------------------------------------------------------------------
  // The loop of BlockReceived: turns that perform nothing

  /** The control point moves on within the loop of BlockReceived, or leaves it. */
  lemma PairQuietAll(cfg: Config, s: State, p: nat, q: Proc)
    requires Shaped(cfg, s) && p < |s.proc| && s.proc[p].pc.Updating? && ControlOnly(s.proc[p], q)
    requires q.next == s.proc[p].next && Shaped(cfg, With(s, p, q))
    requires AllReady(cfg, s) && AllNext(cfg, s) && AllPc(cfg, s)
    requires !q.pc.Starting? && PcOk(cfg, With(s, p, q), p)
    ensures var r := With(s, p, q);
      AllReady(cfg, r) && AllNext(cfg, r) && AllPc(cfg, r)
  {
    var r := With(s, p, q);
    assert NextOk(cfg, s, p);
    if q.next != Nothing { LeftSame(cfg, s, r, q.next.b); }
    forall x | InMatrix(cfg, x) && OwnerOf(cfg, x) == p ensures ReadyOk(cfg, r, x) {
      LeftSame(cfg, s, r, x);
      assert ReadyOk(cfg, s, x);
    }
    ControlKept(cfg, s, p, q);
  }

  /** Passing over a partner whose update belongs to another processor loses no update. */
  lemma PairSkipUpdate(cfg: Config, s: State, p: nat, b: Block, todo: seq<Block>, u: Update)
    requires Shaped(cfg, s) && p < |s.proc| && s.proc[p].pc == Updating(b, todo)
    requires Shaped(cfg, UpdateStep(cfg, s, p, b, todo))
    requires todo != [] ==> ValidUpdate(cfg, Pair(b, todo[0])) && OwnerOf(cfg, Pair(b, todo[0]).dest) != p
    requires ValidUpdate(cfg, u) && UpdateFlow(cfg, s, u)
    ensures UpdateFlow(cfg, UpdateStep(cfg, s, p, b, todo), u)
  {
    var r := UpdateStep(cfg, s, p, b, todo);
    if u.src.Column? && OwnerOf(cfg, u.dest) == p {
      var x, y := Block(u.dest.row, u.src.k), Block(u.dest.col, u.src.k);
      if todo != [] {
        assert todo == [todo[0]] + todo[1..];
        assert (b == x && todo[0] == y) || (b == y && todo[0] == x) ==> Pair(b, todo[0]) == u;
      }
      assert Pending(r, p, x, y) == Pending(s, p, x, y);
    }
  }

  lemma PairTail(cfg: Config, s: State, p: nat, b: Block, todo: seq<Block>)
    requires Shaped(cfg, s) && p < |s.proc| && s.proc[p].pc == Updating(b, todo) && todo != [] && PcOk(cfg, s, p)
    ensures todo[0] !in todo[1..]
    ensures Distinct(todo[1..])
    ensures forall x :: x in todo[1..] ==> x in todo && (p, x) in s.got && SameColumn(cfg, b.col, x)
    ensures (p, todo[0]) in s.got && SameColumn(cfg, b.col, todo[0]) && SameColumn(cfg, b.col, b)
    ensures ValidUpdate(cfg, Pair(b, todo[0]))
  {
    assert ProcShaped(cfg, s.proc[p]);
    assert todo[0] in todo;
    PairInMatrix(cfg, b.col, b, todo[0]);
  }

  lemma PairSkipKept(cfg: Config, s: State, p: nat, b: Block, todo: seq<Block>)
    requires Inv(cfg, s) && p < |s.proc| && s.proc[p].pc == Updating(b, todo) && s.proc[p].next == Nothing
    requires todo != [] ==> ValidUpdate(cfg, Pair(b, todo[0])) && OwnerOf(cfg, Pair(b, todo[0]).dest) != p
    ensures Inv(cfg, UpdateStep(cfg, s, p, b, todo))
  {
    var r := UpdateStep(cfg, s, p, b, todo);
    assert ProcShaped(cfg, s.proc[p]) && PcOk(cfg, s, p);
    if todo != [] { PairTail(cfg, s, p, b, todo); }
    WithShaped(cfg, s, p, r.proc[p]);
    assert r == With(s, p, r.proc[p]);
    HandFrame(s, r, p);
    PairQuietAll(cfg, s, p, r.proc[p]);
    forall u | ValidUpdate(cfg, u) ensures UpdateFlow(cfg, r, u) {
      assert UpdateFlow(cfg, s, u);
      PairSkipUpdate(cfg, s, p, b, todo, u);
    }
    ControlInv(cfg, s, p, r.proc[p]);
  }

  // -------------------------------------------------------------------------------------
  // Performing an update

  lemma PerformShaped(cfg: Config, s: State, p: nat, q: Proc, u: Update)
    requires Shaped(cfg, s) && p < |s.proc| && InMatrix(cfg, u.dest) && ProcShaped(cfg, q)
    ensures Shaped(cfg, Perform(cfg, s, p, q, u))
  {
    var r := Perform(cfg, s, p, q, u);
    WithShaped(cfg, s, p, r.proc[p]);
  }

  /** The update leaves the list of its block, and no other list. */
  lemma PerformLeft(cfg: Config, s: State, p: nat, q: Proc, u: Update, b: Block)
    requires Shaped(cfg, s) && p < |s.proc| && ValidUpdate(cfg, u) && OwnerOf(cfg, u.dest) == p
    requires Shaped(cfg, Perform(cfg, s, p, q, u)) && s.performed[(p, u)] == 0 && InMatrix(cfg, b)
    ensures var r := Perform(cfg, s, p, q, u);
      && (b != u.dest ==> Left(cfg, r, b) == Left(cfg, s, b))
      && (b == u.dest ==> Left(cfg, r, b) == Left(cfg, s, b) - {u.src} && u.src in Left(cfg, s, b))
  {
    var r := Perform(cfg, s, p, q, u);
    forall x ensures (OwnerOf(cfg, b), Update(b, x)) in r.performed <==>
      (OwnerOf(cfg, b), Update(b, x)) in s.performed || (b == u.dest && x == u.src) {
    }
  }

  lemma PerformDone(cfg: Config, s: State, p: nat, q: Proc, u: Update, b: Block)
    requires Shaped(cfg, s) && p < |s.proc| && ValidUpdate(cfg, u) && OwnerOf(cfg, u.dest) == p
    requires Shaped(cfg, Perform(cfg, s, p, q, u)) && s.performed[(p, u)] == 0 && InMatrix(cfg, b)
    requires DoneOk(cfg, s, b)
    ensures DoneOk(cfg, Perform(cfg, s, p, q, u), b)
  {
    PerformLeft(cfg, s, p, q, u, b);
  }

  lemma PerformBlock(cfg: Config, s: State, p: nat, q: Proc, u: Update, b: Block)
    requires Shaped(cfg, s) && p < |s.proc| && ValidUpdate(cfg, u) && OwnerOf(cfg, u.dest) == p
    requires Shaped(cfg, Perform(cfg, s, p, q, u)) && s.performed[(p, u)] == 0 && InMatrix(cfg, b)
    requires s.proc[p].next == Nothing && !s.proc[p].pc.Starting? && !s.proc[p].pc.DiagLoop?
    requires DoneOk(cfg, s, b) && ReadyOk(cfg, s, b)
    ensures ReadyOk(cfg, Perform(cfg, s, p, q, u), b)
  {
    PerformLeft(cfg, s, p, q, u, b);
    PerformDone(cfg, s, p, q, u, b);
  }

  lemma PerformControl(cfg: Config, s: State, p: nat, q: Proc, u: Update, x: nat)
    requires Shaped(cfg, s) && p < |s.proc| && ValidUpdate(cfg, u) && OwnerOf(cfg, u.dest) == p
    requires Shaped(cfg, Perform(cfg, s, p, q, u)) && s.performed[(p, u)] == 0
    requires x < |s.proc| && x != p && NextOk(cfg, s, x) && PcOk(cfg, s, x)
    ensures NextOk(cfg, Perform(cfg, s, p, q, u), x) && PcOk(cfg, Perform(cfg, s, p, q, u), x)
  {
    var r := Perform(cfg, s, p, q, u);
    if s.proc[x].next != Nothing { PerformLeft(cfg, s, p, q, u, s.proc[x].next.b); }
    assert forall e :: e in r.performed ==> e in s.performed || e == (p, u);
  }

  lemma PerformNext(cfg: Config, s: State, p: nat, q: Proc, u: Update)
    requires Shaped(cfg, s) && p < |s.proc| && ValidUpdate(cfg, u) && OwnerOf(cfg, u.dest) == p
    requires Shaped(cfg, Perform(cfg, s, p, q, u)) && s.performed[(p, u)] == 0 && DoneOk(cfg, s, u.dest)
    ensures NextOk(cfg, Perform(cfg, s, p, q, u), p)
  {
    PerformLeft(cfg, s, p, q, u, u.dest);
    PerformDone(cfg, s, p, q, u, u.dest);
    var r := Perform(cfg, s, p, q, u);
    assert r.remaining[u.dest] == 0 ==> Left(cfg, r, u.dest) == {};
  }

  /** Performing an update keeps everything about blocks and control. */
  lemma PerformAll(cfg: Config, s: State, p: nat, q: Proc, u: Update)
    requires Shaped(cfg, s) && p < |s.proc| && ValidUpdate(cfg, u) && OwnerOf(cfg, u.dest) == p
    requires Shaped(cfg, Perform(cfg, s, p, q, u)) && s.performed[(p, u)] == 0
    requires s.proc[p].next == Nothing && !s.proc[p].pc.Starting? && !s.proc[p].pc.DiagLoop?
    requires AllDone(cfg, s) && AllReady(cfg, s) && AllNext(cfg, s) && AllPc(cfg, s)
    requires PcOk(cfg, Perform(cfg, s, p, q, u), p)
    ensures var r := Perform(cfg, s, p, q, u);
      AllDone(cfg, r) && AllReady(cfg, r) && AllNext(cfg, r) && AllPc(cfg, r)
  {
    var r := Perform(cfg, s, p, q, u);
    forall b | InMatrix(cfg, b) ensures DoneOk(cfg, r, b) && ReadyOk(cfg, r, b) {
      assert DoneOk(cfg, s, b) && ReadyOk(cfg, s, b);
      PerformDone(cfg, s, p, q, u, b);
      PerformBlock(cfg, s, p, q, u, b);
    }
    assert DoneOk(cfg, s, u.dest);
    PerformNext(cfg, s, p, q, u);
    forall x | 0 <= x < |s.proc| ensures NextOk(cfg, r, x) && PcOk(cfg, r, x) {
      assert NextOk(cfg, s, x) && PcOk(cfg, s, x);
      if x != p { PerformControl(cfg, s, p, q, u, x); }
    }
  }

  lemma PerformLog(cfg: Config, s: State, p: nat, q: Proc, u: Update)
    requires Shaped(cfg, s) && p < |s.proc| && ValidUpdate(cfg, u) && OwnerOf(cfg, u.dest) == p
    requires Shaped(cfg, Perform(cfg, s, p, q, u)) && LogOk(cfg, s)
    ensures LogOk(cfg, Perform(cfg, s, p, q, u))
  {
    assert forall e :: e in Perform(cfg, s, p, q, u).performed ==> e in s.performed || e == (p, u);
  }

  // -------------------------------------------------------------------------------------
  // The loop of BlockReceived: a turn that performs the update of a pair

  /** Before the turn, the update of the pair has not been performed. */
  lemma PairIsNew(cfg: Config, s: State, p: nat, b: Block, todo: seq<Block>)
    requires Shaped(cfg, s) && p < |s.proc| && s.proc[p].pc == Updating(b, todo) && todo != []
    requires PcOk(cfg, s, p) && ValidUpdate(cfg, Pair(b, todo[0])) && OwnerOf(cfg, Pair(b, todo[0]).dest) == p
    requires UpdateFlow(cfg, s, Pair(b, todo[0])) && SameColumn(cfg, b.col, b) && SameColumn(cfg, b.col, todo[0])
    ensures s.performed[(p, Pair(b, todo[0]))] == 0
  {
    assert todo[0] in todo;
  }

  lemma PairUpdate(cfg: Config, s: State, p: nat, b: Block, todo: seq<Block>, u: Update)
    requires Shaped(cfg, s) && p < |s.proc| && s.proc[p].pc == Updating(b, todo) && todo != []
    requires PcOk(cfg, s, p) && ValidUpdate(cfg, Pair(b, todo[0])) && OwnerOf(cfg, Pair(b, todo[0]).dest) == p
    requires Shaped(cfg, UpdateStep(cfg, s, p, b, todo)) && s.performed[(p, Pair(b, todo[0]))] == 0
    requires ValidUpdate(cfg, u) && UpdateFlow(cfg, s, u)
    ensures UpdateFlow(cfg, UpdateStep(cfg, s, p, b, todo), u)
  {
    var r := UpdateStep(cfg, s, p, b, todo);
    var o := OwnerOf(cfg, u.dest);
    PairTail(cfg, s, p, b, todo);
    assert r.performed[(o, u)] == s.performed[(o, u)] + (if (o, u) == (p, Pair(b, todo[0])) then 1 else 0);
    if u.src.Column? && o == p {
      var x, y := Block(u.dest.row, u.src.k), Block(u.dest.col, u.src.k);
      assert todo == [todo[0]] + todo[1..];
      assert (b == x && todo[0] == y) || (b == y && todo[0] == x) <==> Pair(b, todo[0]) == u;
    }
  }

  lemma PairPerformKept(cfg: Config, s: State, p: nat, b: Block, todo: seq<Block>)
    requires Inv(cfg, s) && p < |s.proc| && s.proc[p].pc == Updating(b, todo) && s.proc[p].next == Nothing
    requires todo != [] && ValidUpdate(cfg, Pair(b, todo[0])) && OwnerOf(cfg, Pair(b, todo[0]).dest) == p
    ensures Inv(cfg, UpdateStep(cfg, s, p, b, todo))
  {
    var r := UpdateStep(cfg, s, p, b, todo);
    var u := Pair(b, todo[0]);
    var q := s.proc[p].(pc := Updating(b, todo[1..]));
    assert ProcShaped(cfg, s.proc[p]) && PcOk(cfg, s, p) && UpdateFlow(cfg, s, u);
    PairTail(cfg, s, p, b, todo);
    PairIsNew(cfg, s, p, b, todo);
    PerformShaped(cfg, s, p, q, u);
    PerformAll(cfg, s, p, q, u);
    PerformLog(cfg, s, p, q, u);
    forall x | ValidUpdate(cfg, x) ensures UpdateFlow(cfg, r, x) {
      assert UpdateFlow(cfg, s, x);
      PairUpdate(cfg, s, p, b, todo, x);
    }
    PairPerformRest(cfg, s, p, b, todo);
  }

  lemma PairPerformRest(cfg: Config, s: State, p: nat, b: Block, todo: seq<Block>)
    requires Inv(cfg, s) && p < |s.proc| && s.proc[p].pc == Updating(b, todo) && s.proc[p].next == Nothing
    requires todo != [] && ValidUpdate(cfg, Pair(b, todo[0])) && OwnerOf(cfg, Pair(b, todo[0]).dest) == p
    requires Shaped(cfg, UpdateStep(cfg, s, p, b, todo))
    ensures var r := UpdateStep(cfg, s, p, b, todo);
      AllMessages(cfg, r) && AllBlockFlow(cfg, r) && AllLists(cfg, r) && AllGot(cfg, r) && LastOk(cfg, r)
  {
    var r := UpdateStep(cfg, s, p, b, todo);
    HandFrame(s, r, p);
    FrameBlockFlow(cfg, s, r);
    FrameLists(cfg, s, r);
    FrameGot(cfg, s, r);
    forall x | 0 <= x < |r.proc| ensures MessagesOk(cfg, r, x) { assert MessagesOk(cfg, s, x); }
  }

  // -------------------------------------------------------------------------------------
  // Receiving

  /** Taking a message removes one copy of it from the mailbox of p. */
  lemma TakenCounts(s: State, r: State, p: nat, to: nat, m: Msg)
    requires p < |s.proc| == |r.proc| && s.proc[p].mail != [] && r.proc[p].mail == s.proc[p].mail[1..] && to < |s.proc|
    requires to != p ==> r.proc[to].mail == s.proc[to].mail
    ensures Waiting(r, to, m) == Waiting(s, to, m) - (if to == p && s.proc[p].mail[0] == m then 1 else 0)
  {
    CountTail(s.proc[p].mail, m);
  }

  /** What the mailboxes look like after processor p has taken a message. */
  ghost predicate Took(s: State, r: State, p: nat) {
    && p < |s.proc| == |r.proc| && s.proc[p].mail != []
    && r.proc[p].mail == s.proc[p].mail[1..] && r.proc[p].sends == s.proc[p].sends
    && (forall q :: 0 <= q < |s.proc| && q != p ==> r.proc[q] == s.proc[q])
  }

  lemma TookMessages(cfg: Config, s: State, r: State, p: nat)
    requires Shaped(cfg, s) && Shaped(cfg, r) && Took(s, r, p) && AllMessages(cfg, s) && r.terminated == s.terminated
    requires r.proc[p].pc.Stopped? ==> s.terminated || cfg.n == 0
    ensures AllMessages(cfg, r)
  {
    forall q | 0 <= q < |r.proc| ensures MessagesOk(cfg, r, q) { assert MessagesOk(cfg, s, q); }
  }

  lemma TookBlockFlow(cfg: Config, s: State, r: State, p: nat, b: Block, q: nat)
    requires Shaped(cfg, s) && Shaped(cfg, r) && Took(s, r, p) && r.done == s.done
    requires r.got == s.got + (if s.proc[p].mail[0].BlockMsg? then {(p, s.proc[p].mail[0].b)} else {})
    requires InMatrix(cfg, b) && q < |s.proc| && BlockFlow(cfg, s, b, q)
    ensures BlockFlow(cfg, r, b, q)
  {
    TakenCounts(s, r, p, q, BlockMsg(b));
  }

  /** An arriving block has not been received before, and comes from a completed block. */
  lemma ArrivalIsNew(cfg: Config, s: State, p: nat, b: Block)
    requires Shaped(cfg, s) && p < |s.proc| && s.proc[p].mail != [] && s.proc[p].mail[0] == BlockMsg(b)
    requires InMatrix(cfg, b) && BlockFlow(cfg, s, b, p)
    ensures (p, b) !in s.got && b in s.done && IsDest(cfg.grid, cfg.n, b.row, p)
  {
    CountIn(s.proc[p].mail, s.proc[p].mail[0]);
  }

  // Terminate

  lemma StopControl(cfg: Config, s: State, p: nat)
    requires Shaped(cfg, s) && p < |s.proc| && s.proc[p].mail != [] && s.proc[p].mail[0] == Terminate
    requires s.proc[p].pc == Receive && s.proc[p].next == Nothing && Shaped(cfg, ReceiveStep(cfg, s, p))
    requires AllReady(cfg, s) && AllNext(cfg, s) && AllPc(cfg, s)
    ensures var r := ReceiveStep(cfg, s, p);
      AllReady(cfg, r) && AllNext(cfg, r) && AllPc(cfg, r)
  {
    var r := ReceiveStep(cfg, s, p);
    forall x | InMatrix(cfg, x) && OwnerOf(cfg, x) == p ensures ReadyOk(cfg, r, x) {
      LeftSame(cfg, s, r, x);
      assert ReadyOk(cfg, s, x);
    }
    assert r == With(s, p, r.proc[p]);
    ControlKept(cfg, s, p, r.proc[p]);
  }

  lemma StopUpdates(cfg: Config, s: State, p: nat)
    requires Shaped(cfg, s) && p < |s.proc| && s.proc[p].mail != [] && s.proc[p].mail[0] == Terminate
    requires s.proc[p].pc == Receive && Shaped(cfg, ReceiveStep(cfg, s, p)) && AllUpdateFlow(cfg, s)
    ensures AllUpdateFlow(cfg, ReceiveStep(cfg, s, p))
  {
    var r := ReceiveStep(cfg, s, p);
    forall u | ValidUpdate(cfg, u) ensures UpdateFlow(cfg, r, u) {
      assert UpdateFlow(cfg, s, u);
      if u.src.Domain? {
        TakenCounts(s, r, p, OwnerOf(cfg, u.dest), DomainMsg(u.src.d, u.dest.row, u.dest.col));
      }
    }
  }

  lemma StopKept(cfg: Config, s: State, p: nat)
    requires Inv(cfg, s) && p < |s.proc| && s.proc[p].mail != [] && s.proc[p].mail[0] == Terminate
    requires s.proc[p].pc == Receive && s.proc[p].next == Nothing
    ensures Inv(cfg, ReceiveStep(cfg, s, p))
  {
    var r := ReceiveStep(cfg, s, p);
    assert MessagesOk(cfg, s, p) && ProcShaped(cfg, s.proc[p]);
    WithShaped(cfg, s, p, r.proc[p]);
    assert Took(s, r, p);
    TookMessages(cfg, s, r, p);
    forall b, q | InMatrix(cfg, b) && 0 <= q < |r.proc| ensures BlockFlow(cfg, r, b, q) {
      assert BlockFlow(cfg, s, b, q);
      TookBlockFlow(cfg, s, r, p, b, q);
    }
    StopUpdates(cfg, s, p);
    StopControl(cfg, s, p);
    HandFrame(s, r, p);
    FrameDone(cfg, s, r);
    FrameLists(cfg, s, r);
    FrameGot(cfg, s, r);
  }

  // A domain update

  lemma DomainUpdate(cfg: Config, s: State, p: nat, d: nat, i: nat, j: nat, u: Update)
    requires Shaped(cfg, s) && p < |s.proc| && s.proc[p].mail != [] && s.proc[p].mail[0] == DomainMsg(d, i, j)
    requires Arriving(cfg, p, s.proc[p].mail[0]) && s.proc[p].pc == Receive && Shaped(cfg, ReceiveStep(cfg, s, p))
    requires ValidUpdate(cfg, u) && UpdateFlow(cfg, s, u)
    ensures UpdateFlow(cfg, ReceiveStep(cfg, s, p), u)
  {
    var r := ReceiveStep(cfg, s, p);
    var o := OwnerOf(cfg, u.dest);
    var v := Update(Block(i, j), Domain(d));
    assert r.performed[(o, u)] == s.performed[(o, u)] + (if (o, u) == (p, v) then 1 else 0);
    if u.src.Domain? {
      TakenCounts(s, r, p, o, DomainMsg(u.src.d, u.dest.row, u.dest.col));
      assert u == v ==> o == p;
      assert u == v <==> DomainMsg(u.src.d, u.dest.row, u.dest.col) == DomainMsg(d, i, j);
    }
  }

  lemma DomainIsNew(cfg: Config, s: State, p: nat, d: nat, i: nat, j: nat)
    requires Shaped(cfg, s) && p < |s.proc| && s.proc[p].mail != [] && s.proc[p].mail[0] == DomainMsg(d, i, j)
    requires Arriving(cfg, p, s.proc[p].mail[0]) && UpdateFlow(cfg, s, Update(Block(i, j), Domain(d)))
    ensures s.performed[(p, Update(Block(i, j), Domain(d)))] == 0
  {
    CountIn(s.proc[p].mail, s.proc[p].mail[0]);
  }

  lemma DomainRest(cfg: Config, s: State, p: nat, d: nat, i: nat, j: nat)
    requires Inv(cfg, s) && p < |s.proc| && s.proc[p].mail != [] && s.proc[p].mail[0] == DomainMsg(d, i, j)
    requires Arriving(cfg, p, s.proc[p].mail[0]) && s.proc[p].pc == Receive && Shaped(cfg, ReceiveStep(cfg, s, p))
    ensures var r := ReceiveStep(cfg, s, p);
      AllMessages(cfg, r) && AllBlockFlow(cfg, r) && AllLists(cfg, r) && AllGot(cfg, r) && LastOk(cfg, r)
  {
    var r := ReceiveStep(cfg, s, p);
    assert Took(s, r, p);
    TookMessages(cfg, s, r, p);
    forall b, q | InMatrix(cfg, b) && 0 <= q < |r.proc| ensures BlockFlow(cfg, r, b, q) {
      assert BlockFlow(cfg, s, b, q);
      TookBlockFlow(cfg, s, r, p, b, q);
    }
    HandFrame(s, r, p);
    FrameLists(cfg, s, r);
    FrameGot(cfg, s, r);
  }

  lemma DomainKept(cfg: Config, s: State, p: nat, d: nat, i: nat, j: nat)
    requires Inv(cfg, s) && p < |s.proc| && s.proc[p].mail != [] && s.proc[p].mail[0] == DomainMsg(d, i, j)
    requires Arriving(cfg, p, s.proc[p].mail[0]) && s.proc[p].pc == Receive && s.proc[p].next == Nothing
    ensures Inv(cfg, ReceiveStep(cfg, s, p))
  {
    var r := ReceiveStep(cfg, s, p);
    var u := Update(Block(i, j), Domain(d));
    var q := s.proc[p].(mail := s.proc[p].mail[1..]).(pc := Receive);
    assert ProcShaped(cfg, s.proc[p]) && UpdateFlow(cfg, s, u);
    DomainIsNew(cfg, s, p, d, i, j);
    PerformShaped(cfg, s, p, q, u);
    PerformAll(cfg, s, p, q, u);
    PerformLog(cfg, s, p, q, u);
    forall x | ValidUpdate(cfg, x) ensures UpdateFlow(cfg, r, x) {
      assert UpdateFlow(cfg, s, x);
      DomainUpdate(cfg, s, p, d, i, j, x);
    }
    DomainRest(cfg, s, p, d, i, j);
  }

  // A block of the factor

  lemma BlockShaped(cfg: Config, s: State, p: nat, b: Block)
    requires Shaped(cfg, s) && p < |s.proc| && s.proc[p].mail != [] && s.proc[p].mail[0] == BlockMsg(b) && InMatrix(cfg, b)
    ensures Shaped(cfg, ReceiveStep(cfg, s, p)) && Took(s, ReceiveStep(cfg, s, p), p)
  {
    var r := ReceiveStep(cfg, s, p);
    assert ProcShaped(cfg, s.proc[p]);
    if b.row != b.col { assert SameColumn(cfg, b.col, b); }
    WithShaped(cfg, s, p, r.proc[p]);
  }

  lemma BlockFlows(cfg: Config, s: State, p: nat, b: Block)
    requires Shaped(cfg, s) && p < |s.proc| && s.proc[p].mail != [] && s.proc[p].mail[0] == BlockMsg(b) && InMatrix(cfg, b)
    requires s.proc[p].pc == Receive && Shaped(cfg, ReceiveStep(cfg, s, p)) && Took(s, ReceiveStep(cfg, s, p), p)
    requires AllMessages(cfg, s) && AllBlockFlow(cfg, s)
    ensures AllMessages(cfg, ReceiveStep(cfg, s, p)) && AllBlockFlow(cfg, ReceiveStep(cfg, s, p))
  {
    var r := ReceiveStep(cfg, s, p);
    TookMessages(cfg, s, r, p);
    forall x, q | InMatrix(cfg, x) && 0 <= q < |r.proc| ensures BlockFlow(cfg, r, x, q) {
      assert BlockFlow(cfg, s, x, q);
      TookBlockFlow(cfg, s, r, p, x, q);
    }
  }

  /** A received block makes no update due that is not put on the list of pending pairs. */
  lemma BlockUpdates(cfg: Config, s: State, p: nat, b: Block, u: Update)
    requires Shaped(cfg, s) && p < |s.proc| && s.proc[p].mail != [] && s.proc[p].mail[0] == BlockMsg(b) && InMatrix(cfg, b)
    requires s.proc[p].pc == Receive && Shaped(cfg, ReceiveStep(cfg, s, p)) && (p, b) !in s.got
    requires b.row != b.col ==> forall x :: SameColumn(cfg, b.col, x) ==> (x in s.proc[p].lists[b.col] <==> (p, x) in s.got)
    requires ValidUpdate(cfg, u) && UpdateFlow(cfg, s, u)
    ensures UpdateFlow(cfg, ReceiveStep(cfg, s, p), u)
  {
    var r := ReceiveStep(cfg, s, p);
    var o := OwnerOf(cfg, u.dest);
    match u.src
    case Domain(d) => TakenCounts(s, r, p, o, DomainMsg(d, u.dest.row, u.dest.col));
    case Column(k) =>
      assert ColumnOk(cfg, k) && Meets(cfg.below[k], u.dest);
      var x, y := Block(u.dest.row, k), Block(u.dest.col, k);
      assert SameColumn(cfg, k, x) && SameColumn(cfg, k, y);
  }

  lemma BlockBlocks(cfg: Config, s: State, p: nat, b: Block, x: Block)
    requires Shaped(cfg, s) && p < |s.proc| && s.proc[p].mail != [] && s.proc[p].mail[0] == BlockMsg(b) && InMatrix(cfg, b)
    requires s.proc[p].pc == Receive && Shaped(cfg, ReceiveStep(cfg, s, p))
    requires InMatrix(cfg, x) && DoneOk(cfg, s, x) && ReadyOk(cfg, s, x)
    ensures DoneOk(cfg, ReceiveStep(cfg, s, p), x) && ReadyOk(cfg, ReceiveStep(cfg, s, p), x)
  {
    LeftSame(cfg, s, ReceiveStep(cfg, s, p), x);
  }

  lemma BlockOthers(cfg: Config, s: State, p: nat, b: Block, q: nat)
    requires Shaped(cfg, s) && p < |s.proc| && s.proc[p].mail != [] && s.proc[p].mail[0] == BlockMsg(b) && InMatrix(cfg, b)
    requires Shaped(cfg, ReceiveStep(cfg, s, p)) && Took(s, ReceiveStep(cfg, s, p), p)
    requires q < |s.proc| && q != p && NextOk(cfg, s, q) && PcOk(cfg, s, q)
    ensures NextOk(cfg, ReceiveStep(cfg, s, p), q) && PcOk(cfg, ReceiveStep(cfg, s, p), q)
  {
    if s.proc[q].next != Nothing { LeftSame(cfg, s, ReceiveStep(cfg, s, p), s.proc[q].next.b); }
  }

  lemma DiagArrives(cfg: Config, s: State, p: nat, b: Block)
    requires Shaped(cfg, s) && p < |s.proc| && s.proc[p].mail != [] && s.proc[p].mail[0] == BlockMsg(b) && InMatrix(cfg, b)
    requires s.proc[p].pc == Receive && s.proc[p].next == Nothing && Shaped(cfg, ReceiveStep(cfg, s, p))
    requires b.row == b.col && (p, b) !in s.got && AllDone(cfg, s)
    ensures PcOk(cfg, ReceiveStep(cfg, s, p), p)
  {
    var r, c := ReceiveStep(cfg, s, p), b.col;
    assert ColumnOk(cfg, c);
    forall i | i in cfg.below[c] ensures InMatrix(cfg, Block(i, c)) && Untouched(cfg, r, p, Block(i, c)) {
      assert DoneOk(cfg, s, Block(i, c));
    }
  }

  lemma OffArrives(cfg: Config, s: State, p: nat, b: Block)
    requires Shaped(cfg, s) && p < |s.proc| && s.proc[p].mail != [] && s.proc[p].mail[0] == BlockMsg(b) && InMatrix(cfg, b)
    requires s.proc[p].pc == Receive && Shaped(cfg, ReceiveStep(cfg, s, p))
    requires b.row != b.col && (p, b) !in s.got && Distinct(s.proc[p].lists[b.col])
    requires forall x :: SameColumn(cfg, b.col, x) ==> (x in s.proc[p].lists[b.col] <==> (p, x) in s.got)
    ensures PcOk(cfg, ReceiveStep(cfg, s, p), p)
    ensures Distinct(ReceiveStep(cfg, s, p).proc[p].lists[b.col])
  {
    assert ProcShaped(cfg, s.proc[p]);
    assert SameColumn(cfg, b.col, b);
  }

  lemma BlockControl(cfg: Config, s: State, p: nat, b: Block)
    requires Shaped(cfg, s) && p < |s.proc| && s.proc[p].mail != [] && s.proc[p].mail[0] == BlockMsg(b) && InMatrix(cfg, b)
    requires s.proc[p].pc == Receive && s.proc[p].next == Nothing
    requires Shaped(cfg, ReceiveStep(cfg, s, p)) && Took(s, ReceiveStep(cfg, s, p), p)
    requires AllDone(cfg, s) && AllReady(cfg, s) && AllNext(cfg, s) && AllPc(cfg, s) && PcOk(cfg, ReceiveStep(cfg, s, p), p)
    ensures var r := ReceiveStep(cfg, s, p);
      AllDone(cfg, r) && AllReady(cfg, r) && AllNext(cfg, r) && AllPc(cfg, r)
  {
    var r := ReceiveStep(cfg, s, p);
    forall x | InMatrix(cfg, x) ensures DoneOk(cfg, r, x) && ReadyOk(cfg, r, x) {
      assert DoneOk(cfg, s, x) && ReadyOk(cfg, s, x);
      BlockBlocks(cfg, s, p, b, x);
    }
    forall q | 0 <= q < |r.proc| ensures NextOk(cfg, r, q) && PcOk(cfg, r, q) {
      assert NextOk(cfg, s, q) && PcOk(cfg, s, q);
      if q != p { BlockOthers(cfg, s, p, b, q); }
    }
  }

  /** An arriving block is still to be counted, so its column has not been freed. */
  lemma ColumnOpen(cfg: Config, s: State, p: nat, b: Block)
    requires Shaped(cfg, s) && p < |s.proc| && InMatrix(cfg, b) && (p, b) !in s.counted
    requires IsDest(cfg.grid, cfg.n, b.row, p) && ListsOk(cfg, s, p, b.col)
    ensures s.proc[p].nreceived[b.col] > 0
  {
    assert b in ColumnBlocks(cfg, b.col);
    assert b in ToCome(cfg, s, p, b.col);
  }

  lemma BlockLists(cfg: Config, s: State, p: nat, b: Block, q: nat, c: nat)
    requires Shaped(cfg, s) && p < |s.proc| && s.proc[p].mail != [] && s.proc[p].mail[0] == BlockMsg(b) && InMatrix(cfg, b)
    requires Shaped(cfg, ReceiveStep(cfg, s, p)) && Took(s, ReceiveStep(cfg, s, p), p)
    requires q < |s.proc| && c < cfg.n && ListsOk(cfg, s, q, c) && s.proc[p].nreceived[b.col] > 0
    requires b.row != b.col ==> Distinct(ReceiveStep(cfg, s, p).proc[p].lists[b.col])
    ensures ListsOk(cfg, ReceiveStep(cfg, s, p), q, c)
  {
    assert ToCome(cfg, ReceiveStep(cfg, s, p), q, c) == ToCome(cfg, s, q, c);
  }

  lemma BlockGot(cfg: Config, s: State, p: nat, b: Block, e: (nat, Block))
    requires Shaped(cfg, s) && p < |s.proc| && s.proc[p].mail != [] && s.proc[p].mail[0] == BlockMsg(b) && InMatrix(cfg, b)
    requires s.proc[p].pc == Receive && Shaped(cfg, ReceiveStep(cfg, s, p)) && Took(s, ReceiveStep(cfg, s, p), p)
    requires GotOk(cfg, s, e) && GotOk(cfg, s, (p, b)) && (p, b) !in s.got
    ensures GotOk(cfg, ReceiveStep(cfg, s, p), e)
  {
  }

  lemma BlockMemory(cfg: Config, s: State, p: nat, b: Block)
    requires Shaped(cfg, s) && p < |s.proc| && s.proc[p].mail != [] && s.proc[p].mail[0] == BlockMsg(b) && InMatrix(cfg, b)
    requires s.proc[p].pc == Receive && Shaped(cfg, ReceiveStep(cfg, s, p)) && Took(s, ReceiveStep(cfg, s, p), p)
    requires AllLists(cfg, s) && AllGot(cfg, s) && s.proc[p].nreceived[b.col] > 0 && (p, b) !in s.got
    requires b.row != b.col ==> Distinct(ReceiveStep(cfg, s, p).proc[p].lists[b.col])
    ensures AllLists(cfg, ReceiveStep(cfg, s, p)) && AllGot(cfg, ReceiveStep(cfg, s, p))
  {
    var r := ReceiveStep(cfg, s, p);
    forall q, c | 0 <= q < |r.proc| && 0 <= c < cfg.n ensures ListsOk(cfg, r, q, c) {
      assert ListsOk(cfg, s, q, c);
      BlockLists(cfg, s, p, b, q, c);
    }
    forall e ensures GotOk(cfg, r, e) {
      assert GotOk(cfg, s, e) && GotOk(cfg, s, (p, b));
      BlockGot(cfg, s, p, b, e);
    }
  }

  lemma BlockKept(cfg: Config, s: State, p: nat, b: Block)
    requires Inv(cfg, s) && p < |s.proc| && s.proc[p].mail != [] && s.proc[p].mail[0] == BlockMsg(b) && InMatrix(cfg, b)
    requires s.proc[p].pc == Receive && s.proc[p].next == Nothing
    ensures Inv(cfg, ReceiveStep(cfg, s, p))
  {
    var r := ReceiveStep(cfg, s, p);
    assert BlockFlow(cfg, s, b, p) && ListsOk(cfg, s, p, b.col) && GotOk(cfg, s, (p, b));
    ArrivalIsNew(cfg, s, p, b);
    ColumnOpen(cfg, s, p, b);
    BlockShaped(cfg, s, p, b);
    BlockFlows(cfg, s, p, b);
    forall u | ValidUpdate(cfg, u) ensures UpdateFlow(cfg, r, u) {
      assert UpdateFlow(cfg, s, u);
      BlockUpdates(cfg, s, p, b, u);
    }
    if b.row == b.col { DiagArrives(cfg, s, p, b); } else { OffArrives(cfg, s, p, b); }
    BlockControl(cfg, s, p, b);
    BlockMemory(cfg, s, p, b);
  }

  // -------------------------------------------------------------------------------------
  // Counting a receipt

  lemma CountShaped(cfg: Config, s: State, p: nat, b: Block)
    requires Shaped(cfg, s) && p < |s.proc| && InMatrix(cfg, b)
    ensures Shaped(cfg, CountStep(cfg, s, p, b))
  {
    assert ProcShaped(cfg, s.proc[p]);
    WithShaped(cfg, s, p, CountStep(cfg, s, p, b).proc[p]);
  }

  lemma CountControl(cfg: Config, s: State, p: nat, b: Block)
    requires Shaped(cfg, s) && p < |s.proc| && InMatrix(cfg, b) && s.proc[p].pc == Counting(b) && s.proc[p].next == Nothing
    requires Shaped(cfg, CountStep(cfg, s, p, b)) && AllReady(cfg, s) && AllNext(cfg, s) && AllPc(cfg, s)
    ensures var r := CountStep(cfg, s, p, b);
      AllReady(cfg, r) && AllNext(cfg, r) && AllPc(cfg, r)
  {
    var r := CountStep(cfg, s, p, b);
    forall x | InMatrix(cfg, x) ensures ReadyOk(cfg, r, x) {
      LeftSame(cfg, s, r, x);
      assert ReadyOk(cfg, s, x);
    }
    forall q | 0 <= q < |r.proc| ensures NextOk(cfg, r, q) {
      assert NextOk(cfg, s, q);
      if q != p && s.proc[q].next != Nothing { LeftSame(cfg, s, r, s.proc[q].next.b); }
    }
    forall q | 0 <= q < |r.proc| ensures PcOk(cfg, r, q) { assert PcOk(cfg, s, q); }
  }

  lemma CountLists(cfg: Config, s: State, p: nat, b: Block, q: nat, c: nat)
    requires Shaped(cfg, s) && p < |s.proc| && InMatrix(cfg, b) && Shaped(cfg, CountStep(cfg, s, p, b))
    requires (p, b) in s.got && (p, b) !in s.counted && IsDest(cfg.grid, cfg.n, b.row, p)
    requires q < |s.proc| && c < cfg.n && ListsOk(cfg, s, q, c)
    ensures ListsOk(cfg, CountStep(cfg, s, p, b), q, c)
  {
    var r := CountStep(cfg, s, p, b);
    if q == p && c == b.col {
      assert b in ColumnBlocks(cfg, c);
      assert b in ToCome(cfg, s, p, c);
      assert ToCome(cfg, r, p, c) == ToCome(cfg, s, p, c) - {b};
    } else {
      assert ToCome(cfg, r, q, c) == ToCome(cfg, s, q, c) by {
        forall x | x in ToCome(cfg, s, q, c) ensures x in ToCome(cfg, r, q, c) { }
      }
    }
  }

  lemma CountMemory(cfg: Config, s: State, p: nat, b: Block)
    requires Shaped(cfg, s) && p < |s.proc| && InMatrix(cfg, b) && s.proc[p].pc == Counting(b)
    requires Shaped(cfg, CountStep(cfg, s, p, b)) && AllLists(cfg, s) && AllGot(cfg, s) && BlockFlow(cfg, s, b, p)
    ensures AllLists(cfg, CountStep(cfg, s, p, b)) && AllGot(cfg, CountStep(cfg, s, p, b))
  {
    var r := CountStep(cfg, s, p, b);
    assert GotOk(cfg, s, (p, b)) && InHand(s, p, b);
    forall q, c | 0 <= q < |r.proc| && 0 <= c < cfg.n ensures ListsOk(cfg, r, q, c) {
      assert ListsOk(cfg, s, q, c);
      CountLists(cfg, s, p, b, q, c);
    }
    forall e ensures GotOk(cfg, r, e) { assert GotOk(cfg, s, e); }
  }

  lemma CountKept(cfg: Config, s: State, p: nat, b: Block)
    requires Inv(cfg, s) && p < |s.proc| && InMatrix(cfg, b) && s.proc[p].pc == Counting(b) && s.proc[p].next == Nothing
    ensures Inv(cfg, CountStep(cfg, s, p, b))
  {
    var r := CountStep(cfg, s, p, b);
    assert BlockFlow(cfg, s, b, p);
    CountShaped(cfg, s, p, b);
    CountControl(cfg, s, p, b);
    CountMemory(cfg, s, p, b);
    CountRest(cfg, s, p, b);
  }

  lemma CountMessages(cfg: Config, s: State, p: nat, b: Block)
    requires Inv(cfg, s) && p < |s.proc| && InMatrix(cfg, b) && s.proc[p].pc == Counting(b)
    requires Shaped(cfg, CountStep(cfg, s, p, b))
    ensures AllMessages(cfg, CountStep(cfg, s, p, b))
  {
    var r := CountStep(cfg, s, p, b);
    forall q | 0 <= q < |r.proc| ensures MessagesOk(cfg, r, q) { assert MessagesOk(cfg, s, q); }
  }

  lemma CountRest(cfg: Config, s: State, p: nat, b: Block)
    requires Inv(cfg, s) && p < |s.proc| && InMatrix(cfg, b) && s.proc[p].pc == Counting(b)
    requires Shaped(cfg, CountStep(cfg, s, p, b))
    ensures var r := CountStep(cfg, s, p, b);
      && AllMessages(cfg, r) && AllBlockFlow(cfg, r) && AllUpdateFlow(cfg, r) && LogOk(cfg, r)
      && AllDone(cfg, r) && LastOk(cfg, r)
  {
    var r := CountStep(cfg, s, p, b);
    CountMessages(cfg, s, p, b);
    FrameBlockFlow(cfg, s, r);
    PendingFrame(s, r, p);
    FrameUpdateFlow(cfg, s, r);
    FrameDone(cfg, s, r);
  }

  // -------------------------------------------------------------------------------------

  /** Every step of every processor keeps the invariant. */
  lemma StepKept(cfg: Config, s: State, p: nat)
    requires Inv(cfg, s) && p < |s.proc|
    ensures Inv(cfg, Step(cfg, s, p))
  {
    var q := s.proc[p];
    assert MessagesOk(cfg, s, p) && ProcShaped(cfg, q) && NextOk(cfg, s, p);
    if q.sends != [] {
      assert InMessage(cfg, p, q.sends[0].0, q.sends[0].1);
      DeliverKept(cfg, s, p);
    } else if q.next.Ready? { ReadyKept(cfg, s, p, q.next.b); }
    else if q.next.Complete? { DoneKept(cfg, s, p, q.next.b); }
    else {
      match q.pc
      case Starting(c) => if c < cfg.n { StartKept(cfg, s, p, c); } else { StartEndKept(cfg, s, p); }
      case Receive => if q.mail != [] { ReceiveKept(cfg, s, p); }
      case DiagLoop(c, rows) => if rows != [] { DiagTurnKept(cfg, s, p, c, rows); } else { DiagEndKept(cfg, s, p, c); }
      case Updating(b, todo) => UpdatingKept(cfg, s, p, b, todo);
      case Counting(b) => CountKept(cfg, s, p, b);
      case Stopped =>
    }
  }

  lemma ReceiveKept(cfg: Config, s: State, p: nat)
    requires Inv(cfg, s) && p < |s.proc| && s.proc[p].mail != [] && s.proc[p].pc == Receive && s.proc[p].next == Nothing
    ensures Arriving(cfg, p, s.proc[p].mail[0]) && Inv(cfg, ReceiveStep(cfg, s, p))
  {
    assert MessagesOk(cfg, s, p) && Arriving(cfg, p, s.proc[p].mail[0]);
    match s.proc[p].mail[0]
    case Terminate => StopKept(cfg, s, p);
    case DomainMsg(d, i, j) => DomainKept(cfg, s, p, d, i, j);
    case BlockMsg(b) => BlockKept(cfg, s, p, b);
  }

  lemma UpdatingKept(cfg: Config, s: State, p: nat, b: Block, todo: seq<Block>)
    requires Inv(cfg, s) && p < |s.proc| && s.proc[p].pc == Updating(b, todo) && s.proc[p].next == Nothing
    ensures Inv(cfg, UpdateStep(cfg, s, p, b, todo))
  {
    if todo != [] {
      assert PcOk(cfg, s, p);
      PairTail(cfg, s, p, b, todo);
    }
    if todo != [] && OwnerOf(cfg, Pair(b, todo[0]).dest) == p { PairPerformKept(cfg, s, p, b, todo); }
    else { PairSkipKept(cfg, s, p, b, todo); }
  }
}
