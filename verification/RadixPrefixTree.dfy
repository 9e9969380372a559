/** The prefix tree of the radix sort: one pass from the local histograms to the starting ranks.

    A step of a processor is one flag operation or one digit of a shared node.  WAITPAUSE and
    CLEARPAUSE hold the same mutex, so taking a flag is one step.  Node (h, o) is the o-th node of
    level h; its children are (h-1, 2o) and (h-1, 2o+1), and the processors are the leaves. */
module RadixPrefixTree {
  import opened Arithmetic

  // -------------------------------------------------------------------------------------
  // Where the nodes are

  /** p >> h. */
  ghost function Off(p: nat, h: nat): nat { if h == 0 then p else Off(p, h - 1) / 2 }

  /** The first leaf under a node. */
  ghost function First(h: nat, o: nat): nat { if h == 0 then o else First(h - 1, 2 * o) }

  /** The last leaf under a node: the processor that fills the node. */
  ghost function Last(h: nat, o: nat): nat { if h == 0 then o else Last(h - 1, 2 * o + 1) }

  /** The number of trailing ones: the highest level at which p fills a node. */
  ghost function Top(p: nat): nat { if p % 2 == 0 then 0 else 1 + Top(p / 2) }

  lemma {:induction false} OffHalves(p: nat, h: nat)
    ensures Off(p / 2, h) == Off(p, h + 1)
  {
    if h > 0 { OffHalves(p, h - 1); }
  }

  lemma {:induction false} LastHalves(h: nat, o: nat)
    ensures Last(h + 1, o) == 2 * Last(h, o) + 1
  {
    if h > 0 { LastHalves(h - 1, 2 * o + 1); }
  }

  lemma {:induction false} LastOff(h: nat, o: nat)
    ensures Off(Last(h, o), h) == o && Top(Last(h, o)) >= h
    ensures o % 2 == 0 ==> Top(Last(h, o)) == h
    ensures o % 2 == 1 ==> Top(Last(h, o)) > h
  {
    if h > 0 {
      LastOff(h - 1, o);
      LastHalves(h - 1, o);
      OffHalves(Last(h, o), h - 1);
    }
  }

  lemma {:induction false} OffLast(p: nat, h: nat)
    requires h <= Top(p)
    ensures Last(h, Off(p, h)) == p
    ensures Off(p, h) % 2 == if h < Top(p) then 1 else 0
  {
    if h > 0 {
      OffLast(p / 2, h - 1);
      OffHalves(p, h - 1);
      LastHalves(h - 1, Off(p, h));
    }
  }

  lemma {:induction false} FirstLast(h: nat, o: nat)
    ensures First(h, o + 1) == Last(h, o) + 1
  {
    if h > 0 { FirstLast(h - 1, 2 * o + 1); }
  }

  lemma {:induction false} FirstZero(h: nat)
    ensures First(h, 0) == 0
  {
    if h > 0 { FirstZero(h - 1); }
  }

  lemma {:induction false} FirstMonotone(h: nat, o: nat, o': nat)
    requires o < o'
    ensures First(h, o) < First(h, o')
  {
    if h > 0 { FirstMonotone(h - 1, 2 * o, 2 * o'); }
  }

  /** 2^k processors. */
  ghost function Procs(k: nat): nat { First(k, 1) }

  lemma {:induction false} ProcsDoubles(k: nat)
    ensures Procs(k + 1) == 2 * Procs(k) && Procs(k) > 0
  {
    FirstLast(k, 0);
    FirstLast(k + 1, 0);
    LastHalves(k, 0);
  }

  lemma {:induction false} TopInTree(k: nat, p: nat)
    requires p < Procs(k)
    ensures Top(p) <= k && Off(p, k) == 0 && (Top(p) == k <==> p == Procs(k) - 1)
  {
    if k > 0 {
      ProcsDoubles(k - 1);
      TopInTree(k - 1, p / 2);
      OffHalves(p, k - 1);
    }
  }

  /** Node (h, o) is in the tree over 2^k leaves. */
  ghost predicate Node(k: nat, h: nat, o: nat) { h <= k && Last(h, o) < Procs(k) }

  lemma NodeParts(k: nat, h: nat, o: nat)
    requires Node(k, h, o) && h > 0
    ensures Node(k, h - 1, 2 * o) && Node(k, h - 1, 2 * o + 1)
    ensures Last(h - 1, 2 * o + 1) == Last(h, o) && Last(h - 1, 2 * o) < Last(h, o)
  {
    FirstLast(h - 1, 2 * o);
    FirstLast(h - 1, 2 * o + 1);
    FirstMonotone(h - 1, 2 * o + 1, 2 * o + 2);
  }

  /** Below the root, an even node has a right sibling. */
  lemma NodeSibling(k: nat, h: nat, o: nat)
    requires Node(k, h, o) && h < k && o % 2 == 0
    ensures Node(k, h, o + 1) && Node(k, h + 1, o / 2) && Last(h, o + 1) == Last(h + 1, o / 2) > Last(h, o)
  {
    var p := Last(h, o);
    LastOff(h, o);
    SiblingInside(k - h, o, h);
    FirstLast(h, o);
    FirstLast(h, o + 1);
    FirstMonotone(h, o + 1, o + 2);
  }

  lemma {:induction false} FirstSplit(a: nat, h: nat, o: nat)
    ensures First(a + h, o) == First(h, First(a, o))
  {
    if a > 0 {
      FirstSplit(a - 1, h, 2 * o);
      assert a + h - 1 == a - 1 + h;
    }
  }

  lemma SiblingInside(a: nat, o: nat, h: nat)
    requires a > 0 && o % 2 == 0 && Last(h, o) < Procs(a + h)
    ensures Last(h, o + 1) < Procs(a + h)
  {
    FirstSplit(a, h, 1);
    ProcsDoubles(a - 1);
    FirstLast(h, o);
    FirstLast(h, o + 1);
    var n := First(a, 1);
    if n < o + 1 { FirstMonotone(h, n, o + 1); }
    if n > o + 2 { FirstMonotone(h, o + 2, n); }
  }

  // -------------------------------------------------------------------------------------
  // The slots of the node array

  /** The number of nodes of a level. */
  ghost function Size(k: nat, h: nat): nat
    requires h <= k
  {
    Procs(k - h)
  }

  /** The slot of the first node of a level. */
  ghost function Base(k: nat, h: nat): nat
    requires h <= k + 1
  {
    if h == 0 then 0 else Base(k, h - 1) + Size(k, h - 1)
  }

  lemma NodeInLevel(k: nat, h: nat, o: nat)
    requires h <= k
    ensures Node(k, h, o) <==> o < Size(k, h)
    ensures Last(h, o) + 1 == Procs(k) <==> o + 1 == Size(k, h)
  {
    var n := Size(k, h);
    FirstSplit(k - h, h, 1);
    FirstLast(h, o);
    if n < o + 1 { FirstMonotone(h, n, o + 1); }
    if n > o + 1 { FirstMonotone(h, o + 1, n); }
  }

  lemma {:induction false} BaseSum(k: nat, h: nat)
    requires h <= k
    ensures Base(k, h) == 2 * Procs(k) - 2 * Size(k, h)
  {
    if h > 0 {
      BaseSum(k, h - 1);
      ProcsDoubles(k - h);
    }
  }

  lemma {:induction false} BaseMonotone(k: nat, h: nat, h': nat)
    requires h < h' <= k + 1
    ensures Base(k, h) + Size(k, h) <= Base(k, h')
  {
    if h + 1 < h' { BaseMonotone(k, h, h' - 1); }
  }

  /** Different nodes are in different slots, all below 2P - 1; the root is in slot 2P - 2. */
  lemma SlotsDistinct(k: nat, h: nat, o: nat, h': nat, o': nat)
    requires Node(k, h, o) && Node(k, h', o')
    ensures Base(k, h) + o < 2 * Procs(k) - 1
    ensures Base(k, h) + o == Base(k, h') + o' ==> h == h' && o == o'
    ensures Base(k, k) == 2 * Procs(k) - 2
  {
    NodeInLevel(k, h, o);
    NodeInLevel(k, h', o');
    BaseSum(k, h);
    BaseSum(k, k);
    ProcsDoubles(k - h);
    if h < h' { BaseMonotone(k, h, h'); }
    if h' < h { BaseMonotone(k, h', h); }
  }

  // -------------------------------------------------------------------------------------
  // Sums over processors

  /** hist(p, d) is the number of keys of processor p with digit d. */
  type Histogram = (nat, nat) -> nat

  /** The keys of processor p with digit at most d (cumulative), or with digit d. */
  ghost function Value(hist: Histogram, cumulative: bool, p: nat, d: nat): nat {
    hist(p, d) + if cumulative && d > 0 then Value(hist, cumulative, p, d - 1) else 0
  }

  /** The sum over processors lo..hi-1. */
  ghost function Flat(hist: Histogram, cumulative: bool, lo: nat, hi: nat, d: nat): nat {
    if lo < hi then Flat(hist, cumulative, lo, hi - 1, d) + Value(hist, cumulative, hi - 1, d) else 0
  }

  /** The sum over the leaves of a node. */
  ghost function Tree(hist: Histogram, cumulative: bool, h: nat, o: nat, d: nat): nat {
    if h == 0 then Value(hist, cumulative, o, d)
    else Tree(hist, cumulative, h - 1, 2 * o + 1, d) + Tree(hist, cumulative, h - 1, 2 * o, d)
  }

  lemma {:induction false} FlatAppend(hist: Histogram, cumulative: bool, lo: nat, mid: nat, hi: nat, d: nat)
    requires lo <= mid <= hi
    ensures Flat(hist, cumulative, lo, hi, d) == Flat(hist, cumulative, lo, mid, d) + Flat(hist, cumulative, mid, hi, d)
  {
    if mid < hi { FlatAppend(hist, cumulative, lo, mid, hi - 1, d); }
  }

  /** The value of a node is the sum over the processors under it. */
  lemma {:induction false} TreeIsFlat(hist: Histogram, cumulative: bool, h: nat, o: nat, d: nat)
    ensures Tree(hist, cumulative, h, o, d) == Flat(hist, cumulative, First(h, o), First(h, o + 1), d)
  {
    if h == 0 {
      assert Flat(hist, cumulative, o, o, d) == 0;
    } else {
      TreeIsFlat(hist, cumulative, h - 1, 2 * o, d);
      TreeIsFlat(hist, cumulative, h - 1, 2 * o + 1, d);
      FirstMonotone(h - 1, 2 * o, 2 * o + 1);
      FirstMonotone(h - 1, 2 * o + 1, 2 * o + 2);
      FlatAppend(hist, cumulative, First(h - 1, 2 * o), First(h - 1, 2 * o + 1), First(h - 1, 2 * o + 2), d);
    }
  }

  lemma RootIsFlat(hist: Histogram, cumulative: bool, k: nat, d: nat)
    ensures Tree(hist, cumulative, k, 0, d) == Flat(hist, cumulative, 0, Procs(k), d)
  {
    TreeIsFlat(hist, cumulative, k, 0, d);
    FirstZero(k);
  }

  // -------------------------------------------------------------------------------------
  // The state machine

  datatype Config = Config(k: nat, radix: nat, hist: Histogram)

  /** Fill(h, i): digits below i of the node at level h are written.  Filled(h): the node is full;
      next take or set the flag of its parent.  Gate: at the barrier.  Take: wait for the own node
      to be released.  Copy(i): digits below i are copied.  Release(h): release the left siblings
      from level h on.  Add(h): the left siblings below level h are added. */
  datatype Pc = Fill(h: nat, i: nat) | Filled(h: nat) | Gate | Take | Copy(i: nat) | Release(h: nat) | Add(h: nat) | Done

  type Table = (nat, nat, nat) -> nat

  datatype State = State(pc: seq<Pc>, dens: Table, ranks: Table, flag: (nat, nat) -> bool, rank: (nat, nat) -> nat)

  ghost predicate Init(c: Config, s: State) {
    && |s.pc| == Procs(c.k) && (forall p :: 0 <= p < |s.pc| ==> s.pc[p] == Fill(0, 0))
    && (forall h, o :: !s.flag(h, o))
  }

  ghost predicate Goto(s: State, r: State, p: nat, pc: Pc)
    requires p < |s.pc|
  {
    r.pc == s.pc[p := pc]
  }

  ghost predicate SameNodes(s: State, r: State) { r.dens == s.dens && r.ranks == s.ranks }

  ghost predicate FlagSet(s: State, r: State, h: nat, o: nat, v: bool) {
    forall x, y :: r.flag(x, y) == if x == h && y == o then v else s.flag(x, y)
  }

  ghost predicate Cell(before: Table, after: Table, h: nat, o: nat, i: nat, v: nat) {
    forall x, y, z :: after(x, y, z) == if x == h && y == o && z == i then v else before(x, y, z)
  }

  /** Digit i of the node that p fills at level h. */
  ghost function Combined(c: Config, t: Table, cumulative: bool, p: nat, h: nat, i: nat): nat {
    if h == 0 then Value(c.hist, cumulative, p, i)
    else t(h - 1, 2 * Off(p, h) + 1, i) + t(h - 1, 2 * Off(p, h), i)
  }

  /** Write one digit; the last node of a level gets no ranks, except at the leaves. */
  ghost predicate FillDigit(c: Config, s: State, r: State, p: nat)
    requires p < |s.pc| && s.pc[p].Fill?
  {
    var h, i, o := s.pc[p].h, s.pc[p].i, Off(p, s.pc[p].h);
    && i < c.radix && h <= c.k && Goto(s, r, p, Fill(h, i + 1)) && r.flag == s.flag && r.rank == s.rank
    && Cell(s.dens, r.dens, h, o, i, Combined(c, s.dens, true, p, h, i))
    && if h > 0 && o + 1 == Size(c.k, h) then r.ranks == s.ranks
       else Cell(s.ranks, r.ranks, h, o, i, Combined(c, s.ranks, false, p, h, i))
  }

  ghost predicate FillEnd(c: Config, s: State, r: State, p: nat)
    requires p < |s.pc| && s.pc[p].Fill?
  {
    s.pc[p].i >= c.radix && Goto(s, r, p, Filled(s.pc[p].h)) && SameNodes(s, r) && r.flag == s.flag && r.rank == s.rank
  }

  /** A right child takes the flag of its parent and fills the parent; a left child sets it. */
  ghost predicate Join(s: State, r: State, p: nat)
    requires p < |s.pc| && s.pc[p].Filled?
  {
    var h := s.pc[p].h;
    var up := h + 1;
    && SameNodes(s, r) && r.rank == s.rank
    && if Off(p, h) % 2 == 1
       then s.flag(up, Off(p, up)) && FlagSet(s, r, up, Off(p, up), false) && Goto(s, r, p, Fill(up, 0))
       else FlagSet(s, r, up, Off(p, up), true) && Goto(s, r, p, Gate)
  }

  /** The barrier between the two phases. */
  ghost predicate Pass(s: State, r: State, p: nat)
    requires p < |s.pc|
  {
    && (forall q :: 0 <= q < |s.pc| ==> Climbed(s.pc[q]))
    && Goto(s, r, p, Take) && SameNodes(s, r) && r.flag == s.flag && r.rank == s.rank
  }

  ghost predicate TakeNode(c: Config, s: State, r: State, p: nat)
    requires p < |s.pc|
  {
    && SameNodes(s, r) && r.rank == s.rank
    && if p + 1 != |s.pc|
       then s.flag(Top(p), Off(p, Top(p))) && FlagSet(s, r, Top(p), Off(p, Top(p)), false) && Goto(s, r, p, Copy(0))
       else r.flag == s.flag && Goto(s, r, p, Release(0))
  }

  /** The level of the node from which p copies: from the parent of its own node upwards, the
      first left child or the root. */
  ghost function TheirLevel(p: nat): nat { Top(p) + 1 + Top(Off(p, Top(p) + 1)) }

  ghost predicate CopyDigit(c: Config, s: State, r: State, p: nat)
    requires p < |s.pc| && s.pc[p].Copy?
  {
    var i := s.pc[p].i;
    && SameNodes(s, r.(dens := s.dens)) && r.flag == s.flag && r.rank == s.rank
    && if i < c.radix
       then Cell(s.dens, r.dens, Top(p), Off(p, Top(p)), i, s.dens(TheirLevel(p), Off(p, TheirLevel(p)), i)) && Goto(s, r, p, Copy(i + 1))
       else r.dens == s.dens && Goto(s, r, p, Release(0))
  }

  ghost predicate ReleaseNode(s: State, r: State, p: nat)
    requires p < |s.pc| && s.pc[p].Release?
  {
    var h := s.pc[p].h;
    && SameNodes(s, r)
    && if Off(p, h) % 2 == 1
       then FlagSet(s, r, h, Off(p, h) - 1, true) && Goto(s, r, p, Release(h + 1)) && r.rank == s.rank
       else r.flag == s.flag && Goto(s, r, p, Add(0)) && (forall x, d :: r.rank(x, d) == if x == p then 0 else s.rank(x, d))
  }

  /** What the node of p says of the digits below d. */
  ghost function Smaller(s: State, p: nat, d: nat): nat {
    if d > 0 then s.dens(Top(p), Off(p, Top(p)), d - 1) else 0
  }

  /** The ranks of the left sibling at level h, if there is one. */
  ghost function Left(s: State, p: nat, h: nat, d: nat): nat {
    if Off(p, h) % 2 == 1 then s.ranks(h, Off(p, h) - 1, d) else 0
  }

  /** Add the left sibling of level h; at the end add the density of the smaller digits. */
  ghost predicate AddRanks(s: State, r: State, p: nat)
    requires p < |s.pc| && s.pc[p].Add?
  {
    var h := s.pc[p].h;
    && SameNodes(s, r) && r.flag == s.flag
    && if Off(p, h) == 0
       then Goto(s, r, p, Done) && (forall x, d :: r.rank(x, d) == s.rank(x, d) + if x == p then Smaller(s, p, d) else 0)
       else Goto(s, r, p, Add(h + 1)) &&
            (forall x, d :: r.rank(x, d) == s.rank(x, d) + if x == p then Left(s, p, h, d) else 0)
  }

  ghost predicate StepOf(c: Config, s: State, r: State, p: nat)
    requires p < |s.pc|
  {
    match s.pc[p]
    case Fill(h, i) => FillDigit(c, s, r, p) || FillEnd(c, s, r, p)
    case Filled(h) => Join(s, r, p)
    case Gate => Pass(s, r, p)
    case Take => TakeNode(c, s, r, p)
    case Copy(i) => CopyDigit(c, s, r, p)
    case Release(h) => ReleaseNode(s, r, p)
    case Add(h) => AddRanks(s, r, p)
    case Done => false
  }

  // -------------------------------------------------------------------------------------
  // The invariant

  /** The processor has finished the first phase. */
  ghost predicate Climbed(pc: Pc) { !pc.Fill? && !pc.Filled? }

  /** The processor has passed the barrier. */
  ghost predicate Passed(pc: Pc) { Climbed(pc) && pc != Gate }

  /** The processor has taken the flag of its node at level h, h at least 1. */
  ghost predicate Took(pc: Pc, h: nat) { (pc.Fill? || pc.Filled?) ==> h <= pc.h }

  ghost predicate Written(pc: Pc, h: nat, i: nat) {
    (pc.Fill? ==> h < pc.h || (h == pc.h && i < pc.i)) && (pc.Filled? ==> h <= pc.h)
  }

  ghost predicate Taken(pc: Pc) { pc.Copy? || pc.Release? || pc.Add? || pc.Done? }

  ghost predicate Copied(pc: Pc, i: nat) { Taken(pc) && (pc.Copy? ==> i < pc.i) }

  /** The processor has released its left sibling of level h. */
  ghost predicate Released(pc: Pc, h: nat) { (pc.Release? && h < pc.h) || pc.Add? || pc.Done? }

  ghost predicate PcOk(c: Config, s: State, p: nat)
    requires p < |s.pc|
  {
    match s.pc[p]
    case Fill(h, i) => h <= Top(p) && i <= c.radix
    case Filled(h) => h <= Top(p)
    case Copy(i) => i <= c.radix && p + 1 != |s.pc|
    case Release(h) => h <= Top(p)
    case Add(h) => h <= c.k
    case _ => true
  }

  ghost predicate GateOk(s: State, p: nat, q: nat)
    requires p < |s.pc| && q < |s.pc|
  {
    Passed(s.pc[p]) ==> Climbed(s.pc[q])
  }

  /** The flag of a node is set between the signal of its left child and the filling of the node, and
      again between its release by its right sibling and its taking. */
  ghost predicate FlagOk(c: Config, s: State, h: nat, o: nat)
    requires Node(c.k, h, o) && |s.pc| == Procs(c.k)
  {
    (s.flag(h, o) <==> UpFlag(c, s, h, o) || DownFlag(c, s, h, o))
  }

  ghost predicate UpFlag(c: Config, s: State, h: nat, o: nat)
    requires Node(c.k, h, o) && |s.pc| == Procs(c.k)
  {
    h > 0 && (NodeParts(c.k, h, o); Climbed(s.pc[Last(h - 1, 2 * o)]) && !Took(s.pc[Last(h, o)], h))
  }

  ghost predicate DownFlag(c: Config, s: State, h: nat, o: nat)
    requires Node(c.k, h, o) && |s.pc| == Procs(c.k)
  {
    h < c.k && o % 2 == 0 && (NodeSibling(c.k, h, o); Released(s.pc[Last(h, o + 1)], h) && !Taken(s.pc[Last(h, o)]))
  }

  /** A node is filled only after its left child, and copied into only after its release. */
  ghost predicate OrderOk(c: Config, s: State, h: nat, o: nat)
    requires Node(c.k, h, o) && |s.pc| == Procs(c.k)
  {
    && (h > 0 && Took(s.pc[Last(h, o)], h) ==> (NodeParts(c.k, h, o); Climbed(s.pc[Last(h - 1, 2 * o)])))
    && (h < c.k && o % 2 == 0 && Taken(s.pc[Last(h, o)]) ==> (NodeSibling(c.k, h, o); Released(s.pc[Last(h, o + 1)], h)))
  }

  /** The last node of a level above the leaves has no ranks. */
  ghost predicate HasRanks(c: Config, h: nat, o: nat) { h == 0 || Last(h, o) + 1 != Procs(c.k) }

  ghost predicate DigitOk(c: Config, s: State, h: nat, o: nat, i: nat)
    requires Node(c.k, h, o) && |s.pc| == Procs(c.k)
  {
    var pc := s.pc[Last(h, o)];
    Written(pc, h, i) ==>
      && (HasRanks(c, h, o) ==> s.ranks(h, o, i) == Tree(c.hist, false, h, o, i))
      && s.dens(h, o, i) == if Copied(pc, i) && o % 2 == 0 && h < c.k then Tree(c.hist, true, c.k, 0, i) else Tree(c.hist, true, h, o, i)
  }

  /** The keys with a smaller digit, and those with digit d at the processors before p. */
  ghost function StartRank(c: Config, p: nat, d: nat): nat {
    Flat(c.hist, false, 0, p, d) + if d > 0 then Flat(c.hist, true, 0, Procs(c.k), d - 1) else 0
  }

  ghost predicate RankOk(c: Config, s: State, p: nat, d: nat)
    requires p < |s.pc|
  {
    && (s.pc[p].Add? ==> s.rank(p, d) == Flat(c.hist, false, First(s.pc[p].h, Off(p, s.pc[p].h)), p, d))
    && (s.pc[p].Done? ==> s.rank(p, d) == StartRank(c, p, d))
  }

  ghost predicate AllPcs(c: Config, s: State) { forall p :: 0 <= p < |s.pc| ==> PcOk(c, s, p) }
  ghost predicate AllGates(s: State) { forall p, q :: 0 <= p < |s.pc| && 0 <= q < |s.pc| ==> GateOk(s, p, q) }
  ghost predicate AllFlags(c: Config, s: State) {
    |s.pc| == Procs(c.k) && forall h, o :: Node(c.k, h, o) ==> FlagOk(c, s, h, o) && OrderOk(c, s, h, o)
  }
  ghost predicate AllDigits(c: Config, s: State) {
    |s.pc| == Procs(c.k) && forall h, o, i :: Node(c.k, h, o) && 0 <= i < c.radix ==> DigitOk(c, s, h, o, i)
  }
  ghost predicate AllRanks(c: Config, s: State) {
    forall p, d :: 0 <= p < |s.pc| && 0 <= d < c.radix ==> RankOk(c, s, p, d)
  }

  ghost predicate Inv(c: Config, s: State) {
    && |s.pc| == Procs(c.k)
    && AllPcs(c, s) && AllGates(s) && AllFlags(c, s) && AllDigits(c, s) && AllRanks(c, s)
  }

  // -------------------------------------------------------------------------------------
  // Every step keeps the invariant

  lemma InitInv(c: Config, s: State)
    requires Init(c, s)
    ensures Inv(c, s)
  {
    forall h: nat, o: nat | Node(c.k, h, o) ensures FlagOk(c, s, h, o) && OrderOk(c, s, h, o) {
      if h > 0 { NodeParts(c.k, h, o); }
      if h < c.k && o % 2 == 0 { NodeSibling(c.k, h, o); }
    }
  }

  lemma PcKept(c: Config, s: State, r: State, p: nat, x: nat)
    requires p < |s.pc| && x < |s.pc| == Procs(c.k) && PcOk(c, s, x) && PcOk(c, s, p) && StepOf(c, s, r, p)
    ensures PcOk(c, r, x)
  {
    if x == p && (s.pc[p].Filled? || s.pc[p].Release?) { OffLast(p, s.pc[p].h); }
    if x == p { TopInTree(c.k, p); }
  }

  lemma GateKept(c: Config, s: State, r: State, p: nat, x: nat, y: nat)
    requires p < |s.pc| && x < |s.pc| && y < |s.pc| && GateOk(s, x, y) && GateOk(s, p, y) && StepOf(c, s, r, p)
    ensures GateOk(r, x, y)
  {
  }

  lemma ChildPlace(k: nat, h: nat, o: nat)
    requires Node(k, h, o) && h > 0
    ensures Node(k, h - 1, 2 * o) && Last(h - 1, 2 * o) < Last(h, o) && Top(Last(h - 1, 2 * o)) == h - 1
    ensures Off(Last(h - 1, 2 * o), h - 1) == 2 * o
  {
    NodeParts(k, h, o);
    LastOff(h - 1, 2 * o);
  }

  lemma SiblingPlace(k: nat, h: nat, o: nat)
    requires Node(k, h, o) && h < k && o % 2 == 0
    ensures Node(k, h, o + 1) && Last(h, o + 1) > Last(h, o) && Off(Last(h, o + 1), h) == o + 1 && Top(Last(h, o + 1)) > h
  {
    NodeSibling(k, h, o);
    LastOff(h, o + 1);
  }

  /** The three processors that a flag depends on are at known places in the tree. */
  lemma NodePlaces(k: nat, h: nat, o: nat)
    requires Node(k, h, o)
    ensures Off(Last(h, o), h) == o && Top(Last(h, o)) >= h && (Top(Last(h, o)) == h <==> o % 2 == 0)
    ensures h > 0 ==> Node(k, h - 1, 2 * o) && Last(h - 1, 2 * o) < Last(h, o) && Top(Last(h - 1, 2 * o)) == h - 1
    ensures h > 0 ==> Off(Last(h - 1, 2 * o), h - 1) == 2 * o
    ensures h < k && o % 2 == 0 ==> Node(k, h, o + 1) && Last(h, o + 1) > Last(h, o) && Off(Last(h, o + 1), h) == o + 1
    ensures h < k && o % 2 == 0 ==> Top(Last(h, o + 1)) > h
  {
    LastOff(h, o);
    if h > 0 { ChildPlace(k, h, o); }
    if h < k && o % 2 == 0 { SiblingPlace(k, h, o); }
  }

  /** The node whose flag is taken or set at the end of level g of the first phase. */
  lemma JoinTarget(k: nat, p: nat, g: nat, h: nat, o: nat)
    requires g <= Top(p) && Node(k, h, o)
    ensures Off(p, g) % 2 == 1 ==> (h == g + 1 && o == Off(p, g + 1) <==> h == g + 1 && Last(h, o) == p)
    ensures Off(p, g) % 2 == 0 ==> (h == g + 1 && o == Off(p, g + 1) <==> h > 0 && Last(h - 1, 2 * o) == p)
    ensures Off(p, g) % 2 == if g < Top(p) then 1 else 0
  {
    NodePlaces(k, h, o);
    OffLast(p, g);
    if g < Top(p) { OffLast(p, g + 1); }
  }

  lemma TakeTarget(k: nat, p: nat, h: nat, o: nat)
    requires p < Procs(k) && Node(k, h, o)
    ensures h == Top(p) && o == Off(p, h) <==> o % 2 == 0 && Last(h, o) == p
    ensures p + 1 == Procs(k) <==> Top(p) == k
  {
    NodePlaces(k, h, o);
    OffLast(p, Top(p));
    TopInTree(k, p);
  }

  lemma ReleaseTarget(k: nat, p: nat, g: nat, h: nat, o: nat)
    requires p < Procs(k) && Node(k, h, o) && g <= Top(p)
    ensures Off(p, g) % 2 == if g < Top(p) then 1 else 0
    ensures h == g && o + 1 == Off(p, g) && Off(p, g) % 2 == 1 <==> h == g && h < k && o % 2 == 0 && Last(h, o + 1) == p
  {
    NodePlaces(k, h, o);
    OffLast(p, g);
    TopInTree(k, p);
  }

  /** Nothing that a flag depends on tells a from b. */
  ghost predicate SameView(p: nat, a: Pc, b: Pc) {
    && (Climbed(a) <==> Climbed(b)) && (Taken(a) <==> Taken(b))
    && (forall h :: Took(a, h) <==> Took(b, h))
    && (forall h :: 0 <= h < Top(p) ==> (Released(a, h) <==> Released(b, h)))
  }

  lemma QuietView(c: Config, s: State, r: State, p: nat)
    requires |s.pc| == Procs(c.k) && p < |s.pc| && StepOf(c, s, r, p) && PcOk(c, s, p)
    requires !s.pc[p].Filled? && !s.pc[p].Take? && !(s.pc[p].Release? && Off(p, s.pc[p].h) % 2 == 1)
    ensures |r.pc| == |s.pc| && r.pc == s.pc[p := r.pc[p]] && r.flag == s.flag && SameView(p, s.pc[p], r.pc[p])
  {
    if s.pc[p].Release? { OffLast(p, s.pc[p].h); }
  }

  lemma QuietFlagKept(c: Config, s: State, r: State, p: nat, h: nat, o: nat)
    requires |s.pc| == Procs(c.k) && p < |s.pc| && StepOf(c, s, r, p) && Node(c.k, h, o) && FlagOk(c, s, h, o)
    requires !s.pc[p].Filled? && !s.pc[p].Take? && !(s.pc[p].Release? && Off(p, s.pc[p].h) % 2 == 1)
    requires PcOk(c, s, p)
    ensures FlagOk(c, r, h, o)
  {
    QuietView(c, s, r, p);
    NodePlaces(c.k, h, o);
  }

  lemma JoinFlagKept(c: Config, s: State, r: State, p: nat, h: nat, o: nat)
    requires |s.pc| == Procs(c.k) && p < |s.pc| && s.pc[p].Filled? && Join(s, r, p)
    requires Node(c.k, h, o) && FlagOk(c, s, h, o) && OrderOk(c, s, h, o) && PcOk(c, s, p) && AllGates(s)
    ensures FlagOk(c, r, h, o)
  {
    if Off(p, s.pc[p].h) % 2 == 1 { RightFlagKept(c, s, r, p, h, o); } else { LeftFlagKept(c, s, r, p, h, o); }
  }

  lemma RightFlagKept(c: Config, s: State, r: State, p: nat, h: nat, o: nat)
    requires |s.pc| == Procs(c.k) && p < |s.pc| && s.pc[p].Filled? && Join(s, r, p)
    requires Node(c.k, h, o) && FlagOk(c, s, h, o) && OrderOk(c, s, h, o) && PcOk(c, s, p) && AllGates(s)
    requires Off(p, s.pc[p].h) % 2 == 1
    ensures FlagOk(c, r, h, o)
  {
    NodePlaces(c.k, h, o);
    JoinTarget(c.k, p, s.pc[p].h, h, o);
    if h < c.k && o % 2 == 0 { assert GateOk(s, Last(h, o + 1), p); }
    assert DownFlag(c, r, h, o) == DownFlag(c, s, h, o);
  }

  lemma LeftFlagKept(c: Config, s: State, r: State, p: nat, h: nat, o: nat)
    requires |s.pc| == Procs(c.k) && p < |s.pc| && s.pc[p].Filled? && Join(s, r, p)
    requires Node(c.k, h, o) && FlagOk(c, s, h, o) && OrderOk(c, s, h, o) && PcOk(c, s, p) && AllGates(s)
    requires Off(p, s.pc[p].h) % 2 == 0
    ensures FlagOk(c, r, h, o)
  {
    NodePlaces(c.k, h, o);
    JoinTarget(c.k, p, s.pc[p].h, h, o);
    if h < c.k && o % 2 == 0 { assert GateOk(s, Last(h, o + 1), p); }
    assert DownFlag(c, r, h, o) == DownFlag(c, s, h, o);
  }

  lemma TakeFlagKept(c: Config, s: State, r: State, p: nat, h: nat, o: nat)
    requires |s.pc| == Procs(c.k) && p < |s.pc| && s.pc[p].Take? && TakeNode(c, s, r, p)
    requires Node(c.k, h, o) && FlagOk(c, s, h, o) && AllGates(s)
    ensures FlagOk(c, r, h, o)
  {
    NodePlaces(c.k, h, o);
    TakeTarget(c.k, p, h, o);
    assert GateOk(s, p, Last(h, o));
  }

  lemma ReleaseFlagKept(c: Config, s: State, r: State, p: nat, h: nat, o: nat)
    requires |s.pc| == Procs(c.k) && p < |s.pc| && s.pc[p].Release? && ReleaseNode(s, r, p) && PcOk(c, s, p)
    requires Node(c.k, h, o) && FlagOk(c, s, h, o) && OrderOk(c, s, h, o)
    ensures FlagOk(c, r, h, o)
  {
    NodePlaces(c.k, h, o);
    ReleaseTarget(c.k, p, s.pc[p].h, h, o);
  }

  lemma OrderKept(c: Config, s: State, r: State, p: nat, h: nat, o: nat)
    requires |s.pc| == Procs(c.k) && p < |s.pc| && StepOf(c, s, r, p) && PcOk(c, s, p)
    requires Node(c.k, h, o) && FlagOk(c, s, h, o) && OrderOk(c, s, h, o) && AllGates(s)
    ensures OrderOk(c, r, h, o)
  {
    if s.pc[p].Filled? { JoinOrderKept(c, s, r, p, h, o); }
    else if s.pc[p].Take? { TakeOrderKept(c, s, r, p, h, o); }
    else { OtherOrderKept(c, s, r, p, h, o); }
  }

  lemma JoinOrderKept(c: Config, s: State, r: State, p: nat, h: nat, o: nat)
    requires |s.pc| == Procs(c.k) && p < |s.pc| && s.pc[p].Filled? && Join(s, r, p) && PcOk(c, s, p)
    requires Node(c.k, h, o) && FlagOk(c, s, h, o) && OrderOk(c, s, h, o) && AllGates(s)
    ensures OrderOk(c, r, h, o)
  {
    if Off(p, s.pc[p].h) % 2 == 1 { RightOrderKept(c, s, r, p, h, o); } else { LeftOrderKept(c, s, r, p, h, o); }
  }

  lemma RightOrderKept(c: Config, s: State, r: State, p: nat, h: nat, o: nat)
    requires |s.pc| == Procs(c.k) && p < |s.pc| && s.pc[p].Filled? && Join(s, r, p) && PcOk(c, s, p)
    requires Node(c.k, h, o) && FlagOk(c, s, h, o) && OrderOk(c, s, h, o) && AllGates(s)
    requires Off(p, s.pc[p].h) % 2 == 1
    ensures OrderOk(c, r, h, o)
  {
    NodePlaces(c.k, h, o);
    JoinTarget(c.k, p, s.pc[p].h, h, o);
    if h < c.k && o % 2 == 0 { assert GateOk(s, Last(h, o), p) && GateOk(s, Last(h, o + 1), p); }
  }

  lemma LeftOrderKept(c: Config, s: State, r: State, p: nat, h: nat, o: nat)
    requires |s.pc| == Procs(c.k) && p < |s.pc| && s.pc[p].Filled? && Join(s, r, p) && PcOk(c, s, p)
    requires Node(c.k, h, o) && FlagOk(c, s, h, o) && OrderOk(c, s, h, o) && AllGates(s)
    requires Off(p, s.pc[p].h) % 2 == 0
    ensures OrderOk(c, r, h, o)
  {
    NodePlaces(c.k, h, o);
    JoinTarget(c.k, p, s.pc[p].h, h, o);
    if h < c.k && o % 2 == 0 { assert GateOk(s, Last(h, o), p) && GateOk(s, Last(h, o + 1), p); }
  }

  lemma TakeOrderKept(c: Config, s: State, r: State, p: nat, h: nat, o: nat)
    requires |s.pc| == Procs(c.k) && p < |s.pc| && s.pc[p].Take? && TakeNode(c, s, r, p)
    requires Node(c.k, h, o) && FlagOk(c, s, h, o) && OrderOk(c, s, h, o) && AllGates(s)
    ensures OrderOk(c, r, h, o)
  {
    NodePlaces(c.k, h, o);
    TakeTarget(c.k, p, h, o);
    assert GateOk(s, p, Last(h, o));
  }

  lemma OtherOrderKept(c: Config, s: State, r: State, p: nat, h: nat, o: nat)
    requires |s.pc| == Procs(c.k) && p < |s.pc| && !s.pc[p].Filled? && !s.pc[p].Take? && StepOf(c, s, r, p)
    requires Node(c.k, h, o) && OrderOk(c, s, h, o)
    ensures OrderOk(c, r, h, o)
  {
    NodePlaces(c.k, h, o);
  }

  /** Steps that write no node change nothing that a digit depends on. */
  lemma QuietDigitKept(c: Config, s: State, r: State, p: nat, h: nat, o: nat, i: nat)
    requires |s.pc| == Procs(c.k) && p < |s.pc| && StepOf(c, s, r, p) && PcOk(c, s, p) && r.dens == s.dens && r.ranks == s.ranks
    requires !(s.pc[p].Fill? && s.pc[p].i < c.radix) && !(s.pc[p].Copy? && s.pc[p].i < c.radix)
    requires Node(c.k, h, o) && i < c.radix && DigitOk(c, s, h, o, i)
    ensures DigitOk(c, r, h, o, i)
  {
    NodePlaces(c.k, h, o);
    TakeTarget(c.k, p, h, o);
    if s.pc[p].Filled? { JoinTarget(c.k, p, s.pc[p].h, h, o); }
  }

  lemma FilledDigitKept(c: Config, s: State, r: State, p: nat, h: nat, o: nat, i: nat)
    requires Inv(c, s) && p < |s.pc| && s.pc[p].Fill? && FillDigit(c, s, r, p) && Node(c.k, h, o) && i < c.radix
    ensures DigitOk(c, r, h, o, i)
  {
    assert DigitOk(c, s, h, o, i) && PcOk(c, s, p);
    NodePlaces(c.k, h, o);
    OffLast(p, s.pc[p].h);
    if h == s.pc[p].h && o == Off(p, h) && i == s.pc[p].i {
      CombinedIsTree(c, s, p, h, o, i);
      NodeInLevel(c.k, h, o);
    }
  }

  lemma CombinedIsTree(c: Config, s: State, p: nat, h: nat, o: nat, i: nat)
    requires Inv(c, s) && p < |s.pc| && s.pc[p] == Fill(h, i) && Node(c.k, h, o) && Last(h, o) == p && o == Off(p, h) && i < c.radix
    ensures Combined(c, s.dens, true, p, h, i) == Tree(c.hist, true, h, o, i)
    ensures HasRanks(c, h, o) ==> Combined(c, s.ranks, false, p, h, i) == Tree(c.hist, false, h, o, i)
  {
    if h > 0 {
      NodeParts(c.k, h, o);
      var q := Last(h - 1, 2 * o);
      assert OrderOk(c, s, h, o) && GateOk(s, q, p);
      assert DigitOk(c, s, h - 1, 2 * o, i) && DigitOk(c, s, h - 1, 2 * o + 1, i);
    }
    else { assert o == p; }
  }

  lemma {:induction false} OffTwice(p: nat, a: nat, b: nat)
    ensures Off(p, a + b) == Off(Off(p, a), b)
  {
    if b > 0 { OffTwice(p, a, b - 1); assert a + b - 1 == a + (b - 1); }
  }

  lemma {:induction false} TopLast(h: nat, o: nat)
    ensures Top(Last(h, o)) == h + Top(o)
  {
    if h > 0 { LastHalves(h - 1, o); TopLast(h - 1, o); }
  }

  /** Above a common ancestor two processors are under the same nodes. */
  lemma SameAbove(p: nat, q: nat, a: nat, up: nat, b: nat)
    requires Off(p, a) == up == Off(q, a)
    ensures Off(q, a + b) == Off(p, a + b)
  {
    OffTwice(p, a, b);
    OffTwice(q, a, b);
  }

  lemma UpNode(k: nat, p: nat, t: nat, o: nat)
    requires p + 1 < Procs(k) && t == Top(p) && o == Off(p, t)
    ensures t < k && Node(k, t, o) && Last(t, o) == p && o % 2 == 0
    ensures Node(k, t, o + 1) && Last(t, o + 1) == Last(t + 1, o / 2)
  {
    TopInTree(k, p);
    OffLast(p, t);
    NodeSibling(k, t, o);
  }

  /** The node that p copies from is the node of the processor that fills the parent of p's node. */
  lemma TheirNode(k: nat, p: nat)
    requires p + 1 < Procs(k)
    ensures Top(p) < k && Node(k, Top(p), Off(p, Top(p))) && Last(Top(p), Off(p, Top(p))) == p && Off(p, Top(p)) % 2 == 0
    ensures Node(k, Top(p), Off(p, Top(p)) + 1)
    ensures var q := Last(Top(p), Off(p, Top(p)) + 1); Top(q) == TheirLevel(p) && Off(q, Top(q)) == Off(p, Top(q))
  {
    var t, o, up := Top(p), Off(p, Top(p)), Off(p, Top(p) + 1);
    assert up == o / 2;
    UpNode(k, p, t, o);
    UpTop(p, t + 1, up);
    assert Last(t, o + 1) == Last(t + 1, up) && TheirLevel(p) == t + 1 + Top(up);
  }

  lemma UpTop(p: nat, a: nat, up: nat)
    requires up == Off(p, a)
    ensures Top(Last(a, up)) == a + Top(up) && Off(Last(a, up), a + Top(up)) == Off(p, a + Top(up))
  {
    var q := Last(a, up);
    TopLast(a, up);
    LastOff(a, up);
    SameAbove(p, q, a, up, Top(up));
  }

  lemma OwnNode(k: nat, q: nat)
    requires q < Procs(k)
    ensures Node(k, Top(q), Off(q, Top(q))) && Last(Top(q), Off(q, Top(q))) == q && Off(q, Top(q)) % 2 == 0
    ensures Top(q) == k ==> Off(q, Top(q)) == 0
  {
    OffLast(q, Top(q));
    TopInTree(k, q);
  }

  /** A processor that has its node copied holds the density of the root. */
  lemma OwnDensity(c: Config, s: State, q: nat, i: nat)
    requires Inv(c, s) && q < |s.pc| && i < c.radix && (s.pc[q].Release? || s.pc[q].Add? || s.pc[q].Done?)
    ensures s.dens(Top(q), Off(q, Top(q)), i) == Tree(c.hist, true, c.k, 0, i)
  {
    OwnNode(c.k, q);
    assert DigitOk(c, s, Top(q), Off(q, Top(q)), i);
  }

  lemma CopiedDigitKept(c: Config, s: State, r: State, p: nat, h: nat, o: nat, i: nat)
    requires Inv(c, s) && p < |s.pc| && s.pc[p].Copy? && CopyDigit(c, s, r, p) && s.pc[p].i < c.radix
    requires Node(c.k, h, o) && i < c.radix
    ensures DigitOk(c, r, h, o, i)
  {
    assert DigitOk(c, s, h, o, i) && PcOk(c, s, p);
    TakeTarget(c.k, p, h, o);
    if h == Top(p) && o == Off(p, h) && i == s.pc[p].i {
      TheirNode(c.k, p);
      var q := Last(h, o + 1);
      assert OrderOk(c, s, h, o);
      OwnDensity(c, s, q, i);
    }
  }

  lemma DigitKept(c: Config, s: State, r: State, p: nat, h: nat, o: nat, i: nat)
    requires Inv(c, s) && p < |s.pc| && StepOf(c, s, r, p) && Node(c.k, h, o) && i < c.radix
    ensures |r.pc| == Procs(c.k) && DigitOk(c, r, h, o, i)
  {
    if s.pc[p].Fill? && s.pc[p].i < c.radix { FilledDigitKept(c, s, r, p, h, o, i); }
    else if s.pc[p].Copy? && s.pc[p].i < c.radix { CopiedDigitKept(c, s, r, p, h, o, i); }
    else { assert DigitOk(c, s, h, o, i) && PcOk(c, s, p); QuietDigitKept(c, s, r, p, h, o, i); }
  }

  lemma {:induction false} FirstOff(p: nat, h: nat)
    ensures First(h, Off(p, h)) <= p
  {
    if h > 0 {
      FirstOff(p, h - 1);
      var o := Off(p, h - 1);
      if o % 2 == 1 { FirstMonotone(h - 1, o - 1, o); }
    }
  }

  lemma LeftSibling(c: Config, s: State, p: nat, h: nat, d: nat)
    requires Inv(c, s) && p < |s.pc| && s.pc[p] == Add(h) && Off(p, h) % 2 == 1 && d < c.radix
    ensures s.ranks(h, Off(p, h) - 1, d) == Tree(c.hist, false, h, Off(p, h) - 1, d)
  {
    var o := Off(p, h) - 1;
    FirstOff(p, h);
    FirstLast(h, o);
    assert PcOk(c, s, p);
    assert GateOk(s, p, Last(h, o)) && DigitOk(c, s, h, o, d);
  }

  lemma AddedRank(c: Config, s: State, p: nat, h: nat, d: nat)
    requires Inv(c, s) && p < |s.pc| && s.pc[p] == Add(h) && d < c.radix && Off(p, h) != 0
    ensures s.rank(p, d) + Left(s, p, h, d) == Flat(c.hist, false, First(h + 1, Off(p, h + 1)), p, d)
  {
    var o := Off(p, h);
    assert RankOk(c, s, p, d);
    if o % 2 == 1 {
      LeftSibling(c, s, p, h, d);
      TreeIsFlat(c.hist, false, h, o - 1, d);
      FirstMonotone(h, o - 1, o);
      FirstOff(p, h);
      FlatAppend(c.hist, false, First(h, o - 1), First(h, o), p, d);
    }
  }

  lemma FinalRank(c: Config, s: State, p: nat, h: nat, d: nat)
    requires Inv(c, s) && p < |s.pc| && s.pc[p] == Add(h) && d < c.radix && Off(p, h) == 0
    ensures s.rank(p, d) + Smaller(s, p, d) == StartRank(c, p, d)
  {
    assert RankOk(c, s, p, d);
    FirstZero(h);
    if d > 0 {
      OwnDensity(c, s, p, d - 1);
      RootIsFlat(c.hist, true, c.k, d - 1);
    }
  }

  lemma RankKept(c: Config, s: State, r: State, p: nat, x: nat, d: nat)
    requires Inv(c, s) && p < |s.pc| && StepOf(c, s, r, p) && x < |s.pc| && d < c.radix
    ensures |r.pc| == |s.pc| && RankOk(c, r, x, d)
  {
    assert RankOk(c, s, x, d);
    if x == p && s.pc[p].Add? {
      if Off(p, s.pc[p].h) == 0 { FinalRank(c, s, p, s.pc[p].h, d); } else { AddedRank(c, s, p, s.pc[p].h, d); }
    }
  }

  lemma StepKept(c: Config, s: State, r: State, p: nat)
    requires Inv(c, s) && p < |s.pc| && StepOf(c, s, r, p)
    ensures Inv(c, r)
  {
    assert |r.pc| == |s.pc|;
    forall x: nat | x < |s.pc| ensures PcOk(c, r, x) { assert PcOk(c, s, x) && PcOk(c, s, p); PcKept(c, s, r, p, x); }
    forall x: nat, y: nat | x < |s.pc| && y < |s.pc| ensures GateOk(r, x, y) {
      assert GateOk(s, x, y) && GateOk(s, p, y);
      GateKept(c, s, r, p, x, y);
    }
    forall h: nat, o: nat | Node(c.k, h, o) ensures FlagOk(c, r, h, o) && OrderOk(c, r, h, o) { FlagKept(c, s, r, p, h, o); }
    forall h: nat, o: nat, i: nat | Node(c.k, h, o) && i < c.radix ensures DigitOk(c, r, h, o, i) { DigitKept(c, s, r, p, h, o, i); }
    forall x: nat, d: nat | x < |s.pc| && d < c.radix ensures RankOk(c, r, x, d) { RankKept(c, s, r, p, x, d); }
  }

  lemma FlagKept(c: Config, s: State, r: State, p: nat, h: nat, o: nat)
    requires Inv(c, s) && p < |s.pc| && StepOf(c, s, r, p) && Node(c.k, h, o)
    ensures |r.pc| == Procs(c.k) && FlagOk(c, r, h, o) && OrderOk(c, r, h, o)
  {
    assert FlagOk(c, s, h, o) && OrderOk(c, s, h, o) && PcOk(c, s, p);
    OrderKept(c, s, r, p, h, o);
    if s.pc[p].Filled? { JoinFlagKept(c, s, r, p, h, o); }
    else if s.pc[p].Take? { TakeFlagKept(c, s, r, p, h, o); }
    else if s.pc[p].Release? { ReleaseFlagKept(c, s, r, p, h, o); }
    else { QuietFlagKept(c, s, r, p, h, o); }
  }

  // -------------------------------------------------------------------------------------
  // Runs

  ghost predicate Step(c: Config, s: State, r: State) {
    exists p :: 0 <= p < |s.pc| && StepOf(c, s, r, p)
  }

  ghost predicate IsRun(c: Config, run: seq<State>) {
    |run| > 0 && Init(c, run[0]) && forall j :: 0 <= j < |run| - 1 ==> Step(c, run[j], run[j + 1])
  }

  lemma {:induction false} RunInv(c: Config, run: seq<State>, j: nat)
    requires IsRun(c, run) && j < |run|
    ensures Inv(c, run[j])
  {
    if j == 0 { InitInv(c, run[0]); }
    else {
      RunInv(c, run, j - 1);
      assert Step(c, run[j - 1], run[j - 1 + 1]);
      var p :| 0 <= p < |run[j - 1].pc| && StepOf(c, run[j - 1], run[j], p);
      StepKept(c, run[j - 1], run[j], p);
    }
  }

  ghost predicate AllDone(s: State) { forall p :: 0 <= p < |s.pc| ==> s.pc[p].Done? }

  /** In every interleaving a processor ends with its starting ranks. */
  lemma RanksAreRight(c: Config, run: seq<State>, j: nat, p: nat, d: nat)
    requires IsRun(c, run) && j < |run| && p < |run[j].pc| && run[j].pc[p].Done? && d < c.radix
    ensures run[j].rank(p, d) == StartRank(c, p, d)
  {
    RunInv(c, run, j);
    assert RankOk(c, run[j], p, d);
  }

  /** At the end of the pass no flag is set that anybody waits for. */
  lemma FlagsAreClear(c: Config, run: seq<State>, j: nat, h: nat, o: nat)
    requires IsRun(c, run) && j < |run| && AllDone(run[j]) && Node(c.k, h, o)
    ensures !run[j].flag(h, o)
  {
    RunInv(c, run, j);
    assert FlagOk(c, run[j], h, o);
    NodePlaces(c.k, h, o);
  }

  // -------------------------------------------------------------------------------------
  // No deadlock

  /** What a processor may have to wait for. */
  ghost predicate Enabled(s: State, p: nat)
    requires p < |s.pc|
  {
    match s.pc[p]
    case Filled(h) => Off(p, h) % 2 == 1 ==> s.flag(h + 1, Off(p, h + 1))
    case Gate => forall q :: 0 <= q < |s.pc| ==> Climbed(s.pc[q])
    case Take => p + 1 != |s.pc| ==> s.flag(Top(p), Off(p, Top(p)))
    case Done => false
    case _ => true
  }

  ghost function SetCell(t: Table, h: nat, o: nat, i: nat, v: nat): Table {
    (x: nat, y: nat, z: nat) => if x == h && y == o && z == i then v else t(x, y, z)
  }

  ghost function SetFlag(s: State, h: nat, o: nat, v: bool): State {
    s.(flag := (x: nat, y: nat) => if x == h && y == o then v else s.flag(x, y))
  }

  /** A step needs nothing more than to be enabled. */
  lemma EnabledSteps(c: Config, s: State, p: nat) returns (r: State)
    requires Inv(c, s) && p < |s.pc| && Enabled(s, p)
    ensures StepOf(c, s, r, p)
  {
    assert PcOk(c, s, p);
    TopInTree(c.k, p);
    match s.pc[p]
    case Fill(h, i) =>
      var o := Off(p, h);
      if i >= c.radix { r := s.(pc := s.pc[p := Filled(h)]); }
      else {
        r := s.(pc := s.pc[p := Fill(h, i + 1)], dens := SetCell(s.dens, h, o, i, Combined(c, s.dens, true, p, h, i)));
        if h == 0 || o + 1 != Size(c.k, h) {
          r := r.(ranks := SetCell(s.ranks, h, o, i, Combined(c, s.ranks, false, p, h, i)));
        }
      }
    case Filled(h) =>
      var right := Off(p, h) % 2 == 1;
      r := SetFlag(s, h + 1, Off(p, h + 1), !right).(pc := s.pc[p := if right then Fill(h + 1, 0) else Gate]);
    case Gate => r := s.(pc := s.pc[p := Take]);
    case Take =>
      r := if p + 1 != |s.pc| then SetFlag(s, Top(p), Off(p, Top(p)), false).(pc := s.pc[p := Copy(0)]) else s.(pc := s.pc[p := Release(0)]);
    case Copy(i) =>
      if i >= c.radix { r := s.(pc := s.pc[p := Release(0)]); }
      else {
        r := s.(pc := s.pc[p := Copy(i + 1)],
                dens := SetCell(s.dens, Top(p), Off(p, Top(p)), i, s.dens(TheirLevel(p), Off(p, TheirLevel(p)), i)));
      }
    case Release(h) =>
      if Off(p, h) % 2 == 1 { r := SetFlag(s, h, Off(p, h) - 1, true).(pc := s.pc[p := Release(h + 1)]); }
      else { r := s.(pc := s.pc[p := Add(0)], rank := (x: nat, d: nat) => if x == p then 0 else s.rank(x, d)); }
    case Add(h) =>
      var v: nat -> nat := if Off(p, h) == 0 then (d: nat) => Smaller(s, p, d) else (d: nat) => Left(s, p, h, d);
      var rank: (nat, nat) -> nat := (x: nat, d: nat) => Plus(s.rank(x, d), if x == p then v(d) else 0);
      r := s.(pc := s.pc[p := if Off(p, h) == 0 then Done else Add(h + 1)], rank := rank);
  }

  ghost function Plus(a: nat, b: nat): nat { a + b }

  /** In the first phase the first processor that has not finished it can move. */
  lemma {:induction false} FirstClimber(c: Config, s: State, n: nat) returns (p: nat)
    requires Inv(c, s) && n <= |s.pc|
    ensures p <= n && (forall q :: 0 <= q < p ==> Climbed(s.pc[q])) && (p < n ==> !Climbed(s.pc[p]))
  {
    if n == 0 { p := 0; }
    else {
      p := FirstClimber(c, s, n - 1);
      if p == n - 1 && Climbed(s.pc[p]) { p := n; }
    }
  }

  lemma ClimberEnabled(c: Config, s: State, p: nat)
    requires Inv(c, s) && p < |s.pc| && !Climbed(s.pc[p]) && forall q :: 0 <= q < p ==> Climbed(s.pc[q])
    ensures Enabled(s, p)
  {
    if s.pc[p].Filled? {
      var h := s.pc[p].h;
      assert PcOk(c, s, p);
      OffLast(p, h);
      if h < Top(p) {
        OffLast(p, h + 1);
        TopInTree(c.k, p);
        NodeParts(c.k, h + 1, Off(p, h + 1));
        assert FlagOk(c, s, h + 1, Off(p, h + 1));
      }
    }
  }

  /** In the second phase the last processor that is not done can move. */
  lemma {:induction false} LastTaker(s: State, n: nat, witness': nat) returns (p: nat)
    requires witness' < n <= |s.pc| && !s.pc[witness'].Done? && forall q :: n <= q < |s.pc| ==> s.pc[q].Done?
    ensures p < |s.pc| && !s.pc[p].Done? && forall q :: p < q < |s.pc| ==> s.pc[q].Done?
  {
    if !s.pc[n - 1].Done? { p := n - 1; } else { p := LastTaker(s, n - 1, witness'); }
  }

  lemma TakerEnabled(c: Config, s: State, p: nat)
    requires Inv(c, s) && p < |s.pc| && !s.pc[p].Done? && (forall q :: 0 <= q < |s.pc| ==> Climbed(s.pc[q]))
    requires forall q :: p < q < |s.pc| ==> s.pc[q].Done?
    ensures Enabled(s, p)
  {
    if s.pc[p].Take? && p + 1 != |s.pc| {
      TheirNode(c.k, p);
      assert FlagOk(c, s, Top(p), Off(p, Top(p)));
      TakerFlag(c, s, p, Top(p), Off(p, Top(p)));
    }
  }

  /** The later processors have climbed and are done: the flag that p waits on is set. */
  lemma TakerFlag(c: Config, s: State, p: nat, h: nat, o: nat)
    requires |s.pc| == Procs(c.k) && p + 1 < |s.pc| && s.pc[p].Take? && h == Top(p) && o == Off(p, h)
    requires (forall q :: 0 <= q < |s.pc| ==> Climbed(s.pc[q])) && (forall q :: p < q < |s.pc| ==> s.pc[q].Done?)
    requires h < c.k && Node(c.k, h, o) && Last(h, o) == p && o % 2 == 0 && Node(c.k, h, o + 1)
    requires Top(Last(h, o + 1)) == TheirLevel(p) && Off(Last(h, o + 1), Top(Last(h, o + 1))) == Off(p, Top(Last(h, o + 1)))
    requires FlagOk(c, s, h, o)
    ensures Enabled(s, p)
  {
    FirstLast(h, o);
    FirstLast(h, o + 1);
    FirstMonotone(h, o + 1, o + 2);
  }

  /** As long as a processor is not done, some processor has a step. */
  lemma NoDeadlock(c: Config, run: seq<State>, j: nat) returns (p: nat, r: State)
    requires IsRun(c, run) && j < |run| && !AllDone(run[j])
    ensures p < |run[j].pc| && StepOf(c, run[j], r, p)
  {
    var s := run[j];
    RunInv(c, run, j);
    p := FirstClimber(c, s, |s.pc|);
    if p < |s.pc| { ClimberEnabled(c, s, p); }
    else {
      var w: nat :| w < |s.pc| && !s.pc[w].Done?;
      p := LastTaker(s, |s.pc|, w);
      TakerEnabled(c, s, p);
    }
    r := EnabledSteps(c, s, p);
  }

  // -------------------------------------------------------------------------------------
  // Every run is finite

  /** The number of the place in the program. */
  ghost function Position(c: Config, pc: Pc): nat {
    var climb := (c.k + 1) * (c.radix + 2);
    match pc
    case Fill(h, i) => h * (c.radix + 2) + i
    case Filled(h) => h * (c.radix + 2) + c.radix + 1
    case Gate => climb
    case Take => climb + 1
    case Copy(i) => climb + 2 + i
    case Release(h) => climb + 3 + c.radix + h
    case Add(h) => climb + 4 + c.radix + c.k + h
    case Done => climb + 5 + c.radix + 2 * c.k
  }

  lemma StepForward(c: Config, s: State, r: State, p: nat)
    requires Inv(c, s) && Inv(c, r) && p < |s.pc| && StepOf(c, s, r, p)
    ensures |r.pc| == |s.pc| && r.pc == s.pc[p := r.pc[p]] && Position(c, s.pc[p]) < Position(c, r.pc[p])
  {
    assert PcOk(c, s, p) && PcOk(c, r, p);
    TopInTree(c.k, p);
    if s.pc[p].Filled? { MulNext(s.pc[p].h, s.pc[p].h + 1, c.radix + 2); MulNext(s.pc[p].h, c.k + 1, c.radix + 2); }
    if s.pc[p].Release? { OffLast(p, s.pc[p].h); }
  }

  ghost function Total(c: Config, pcs: seq<Pc>): nat {
    if pcs == [] then 0 else Total(c, pcs[..|pcs| - 1]) + Position(c, pcs[|pcs| - 1])
  }

  lemma {:induction false} TotalUpdate(c: Config, pcs: seq<Pc>, p: nat, pc: Pc)
    requires p < |pcs|
    ensures Total(c, pcs[p := pc]) == Total(c, pcs) - Position(c, pcs[p]) + Position(c, pc)
  {
    var last := |pcs| - 1;
    if p < last {
      TotalUpdate(c, pcs[..last], p, pc);
      assert pcs[p := pc][..last] == pcs[..last][p := pc];
    } else {
      assert pcs[p := pc][..last] == pcs[..last];
    }
  }

  lemma PositionBound(c: Config, s: State, p: nat)
    requires Inv(c, s) && p < |s.pc|
    ensures Position(c, s.pc[p]) <= Position(c, Done)
  {
    assert PcOk(c, s, p);
    TopInTree(c.k, p);
    if s.pc[p].Fill? || s.pc[p].Filled? { MulNext(s.pc[p].h, c.k + 1, c.radix + 2); }
  }

  lemma {:induction false} TotalBound(c: Config, pcs: seq<Pc>, most: nat)
    requires forall p :: 0 <= p < |pcs| ==> Position(c, pcs[p]) <= most
    ensures Total(c, pcs) <= |pcs| * most
  {
    if pcs != [] {
      var n := |pcs| - 1;
      TotalBound(c, pcs[..n], most);
      OneMore(Total(c, pcs[..n]), n, most, Position(c, pcs[n]));
    }
  }

  lemma OneMore(total: nat, n: nat, most: nat, next: nat)
    requires total <= n * most && next <= most
    ensures total + next <= (n + 1) * most
  {
  }

  lemma {:induction false} RunAdvances(c: Config, run: seq<State>, j: nat)
    requires IsRun(c, run) && j < |run|
    ensures j <= Total(c, run[j].pc)
  {
    if j > 0 {
      RunAdvances(c, run, j - 1);
      RunInv(c, run, j - 1);
      RunInv(c, run, j);
      assert Step(c, run[j - 1], run[j - 1 + 1]);
      var p :| 0 <= p < |run[j - 1].pc| && StepOf(c, run[j - 1], run[j], p);
      StepForward(c, run[j - 1], run[j], p);
      TotalUpdate(c, run[j - 1].pc, p, run[j].pc[p]);
    }
  }

  /** No run is longer than this: with NoDeadlock, every run can only end with all processors done. */
  lemma RunsAreFinite(c: Config, run: seq<State>)
    requires IsRun(c, run)
    ensures |run| <= Procs(c.k) * Position(c, Done) + 1
  {
    var j := |run| - 1;
    RunAdvances(c, run, j);
    RunInv(c, run, j);
    forall p: nat | p < |run[j].pc| ensures Position(c, run[j].pc[p]) <= Position(c, Done) { PositionBound(c, run[j], p); }
    TotalBound(c, run[j].pc, Position(c, Done));
  }

  lemma RunGrows(c: Config, run: seq<State>, r: State)
    requires IsRun(c, run) && Step(c, run[|run| - 1], r)
    ensures IsRun(c, run + [r])
  {
    forall j | 0 <= j < |run + [r]| - 1 ensures Step(c, (run + [r])[j], (run + [r])[j + 1]) {
      if j < |run| - 1 { assert Step(c, run[j], run[j + 1]); }
    }
  }

  /** Every run can be continued until all processors are done. */
  lemma {:induction false} EveryRunCanFinish(c: Config, run: seq<State>) returns (longer: seq<State>)
    requires IsRun(c, run)
    ensures IsRun(c, longer) && run <= longer && AllDone(longer[|longer| - 1])
    decreases Procs(c.k) * Position(c, Done) + 1 - |run|
  {
    RunsAreFinite(c, run);
    if AllDone(run[|run| - 1]) { longer := run; }
    else {
      var p, r := NoDeadlock(c, run, |run| - 1);
      assert Step(c, run[|run| - 1], r);
      RunGrows(c, run, r);
      RunsAreFinite(c, run + [r]);
      longer := EveryRunCanFinish(c, run + [r]);
    }
  }

  /** There is a run to begin with. */
  lemma FirstState(c: Config) returns (s: State)
    ensures Init(c, s) && IsRun(c, [s])
  {
    s := State(seq(Procs(c.k), i => Fill(0, 0)), (h, o, i) => 0, (h, o, i) => 0, (h, o) => false, (p, d) => 0);
  }
}
