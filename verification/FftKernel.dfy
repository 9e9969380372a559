/** The in-place transform of one row: bit reversal and butterflies. */
module FftKernel {
  import opened FftRing
  import opened FftMath
  import opened Arithmetic

  // -------------------------------------------------------------------------------------
  // Bit reversal

  /** The lowest m bits of k in reverse. */
  ghost function Rev(m: nat, k: nat): nat {
    if m == 0 then 0 else Bit(k % 2 == 1, m - 1) + Rev(m - 1, k / 2)
  }

  ghost function Bit(set': bool, m: nat): nat { if set' then Two(m) else 0 }

  lemma {:induction false} RevBound(m: nat, k: nat)
    ensures Rev(m, k) < Two(m)
  {
    if m > 0 { RevBound(m - 1, k / 2); }
  }

  /** The same, taken from the other end. */
  lemma {:induction false} RevOther(m: nat, hi: bool, lo: nat)
    requires lo < Two(m)
    ensures Rev(m + 1, Bit(hi, m) + lo) == 2 * Rev(m, lo) + if hi then 1 else 0
  {
    var k := Bit(hi, m) + lo;
    if m == 0 {
      assert Rev(1, k) == Bit(k % 2 == 1, 0) + Rev(0, k / 2);
    } else {
      assert Bit(hi, m) == 2 * Bit(hi, m - 1);
      assert k % 2 == lo % 2 && k / 2 == Bit(hi, m - 1) + lo / 2;
      RevOther(m - 1, hi, lo / 2);
    }
  }

  /** Reversing twice changes nothing. */
  lemma {:induction false} RevTwice(m: nat, k: nat)
    requires k < Two(m)
    ensures Rev(m, Rev(m, k)) == k
  {
    if m > 0 {
      RevTwice(m - 1, k / 2);
      RevBound(m - 1, k / 2);
      RevOther(m - 1, k % 2 == 1, Rev(m - 1, k / 2));
    }
  }

  method BitReverse(m: nat, k: nat) returns (j: nat)
    ensures j == Rev(m, k)
  {
    j := 0;
    var tmp := k;
    for i := 0 to m
      invariant j * Two(m - i) + Rev(m - i, tmp) == Rev(m, k)
    {
      BitStep(j, tmp, m - i);
      j := 2 * j + tmp % 2;
      tmp := tmp / 2;
    }
  }

  lemma BitStep(j: nat, tmp: nat, m: nat)
    requires m > 0
    ensures (2 * j + tmp % 2) * Two(m - 1) + Rev(m - 1, tmp / 2) == j * Two(m) + Rev(m, tmp)
  {
    var h := Two(m - 1);
    assert (2 * j + tmp % 2) * h == 2 * (j * h) + Bit(tmp % 2 == 1, m - 1);
    assert j * (2 * h) == 2 * (j * h);
  }

  /** Only the given row has changed. */
  twostate predicate OnlyRow<R>(x: array2<R>, row: nat)
    reads x
  {
    forall r, i :: 0 <= r < x.Length0 && 0 <= i < x.Length1 && r != row ==> x[r, i] == old(x[r, i])
  }

  ghost predicate Swapped<R>(x: array2<R>, row: nat, orig: nat -> R, m: nat, k: nat, i: nat)
    requires row < x.Length0 && i < x.Length1
    reads x
  {
    x[row, i] == orig(if i < k || Rev(m, i) < k then Rev(m, i) else i)
  }

  ghost predicate AllSwapped<R>(x: array2<R>, row: nat, orig: nat -> R, m: nat, k: nat)
    requires row < x.Length0 && x.Length1 == Two(m)
    reads x
  {
    forall i: nat :: i < Two(m) ==> Swapped(x, row, orig, m, k, i)
  }

  lemma RevIs(m: nat, j: nat, k: nat)
    requires j < Two(m) && k < Two(m)
    ensures Rev(m, j) == k <==> j == Rev(m, k)
  {
    RevTwice(m, j);
    RevTwice(m, k);
  }

  /** Reverse: put every element of the row at its reversed index. */
  method Reverse<R>(x: array2<R>, row: nat, m: nat, ghost orig: nat -> R)
    requires row < x.Length0 && x.Length1 == Two(m)
    requires forall i: nat :: i < Two(m) ==> x[row, i] == orig(i)
    modifies x
    ensures forall i: nat :: i < Two(m) ==> x[row, i] == orig(Rev(m, i))
    ensures OnlyRow(x, row)
  {
    for k := 0 to Two(m)
      invariant AllSwapped(x, row, orig, m, k)
      invariant OnlyRow(x, row)
    {
      SwapElement(x, row, m, k, orig);
    }
    forall i: nat | i < Two(m) ensures x[row, i] == orig(Rev(m, i)) { assert Swapped(x, row, orig, m, Two(m), i); }
  }

  /** Swap element k with its reversed place, unless that has been visited. */
  method SwapElement<R>(x: array2<R>, row: nat, m: nat, k: nat, ghost orig: nat -> R)
    requires row < x.Length0 && x.Length1 == Two(m) && k < Two(m)
    requires AllSwapped(x, row, orig, m, k)
    modifies x
    ensures AllSwapped(x, row, orig, m, k + 1)
    ensures OnlyRow(x, row)
  {
    var j := BitReverse(m, k);
    RevBound(m, k);
    RevTwice(m, k);
    assert Swapped(x, row, orig, m, k, j) && Swapped(x, row, orig, m, k, k);
    if j > k { x[row, j], x[row, k] := x[row, k], x[row, j]; }
    var next := k + 1;
    forall i: nat | i < Two(m) ensures Swapped(x, row, orig, m, next, i) {
      RevIs(m, i, k);
      assert old(Swapped(x, row, orig, m, k, i));
    }
  }

  // -------------------------------------------------------------------------------------
  // The stages

  /** A transform of 2^m elements with root w of the elements orig. */
  datatype Plan<!R> = Plan(g: Ring<R>, w: R, m: nat, orig: nat -> R)

  ghost predicate ValidPlan<R(!new)>(t: Plan<R>) { Laws(t.g) && IsRoot(t.g, t.w, t.m) }

  /** The root of order 2^q. */
  ghost function StageRoot<R>(t: Plan<R>, q: nat): R
    requires q <= t.m
  {
    Pow(t.g, t.w, Two(t.m - q))
  }

  /** The elements that block k of stage q transforms. */
  ghost function Part<R>(t: Plan<R>, q: nat, k: nat): nat -> R
    requires q <= t.m
  {
    var step, first := Two(t.m - q), Rev(t.m - q, k);
    (i: nat) => t.orig(i * step + first)
  }

  /** Element j of block k after stage q. */
  ghost function Value<R>(t: Plan<R>, q: nat, k: nat, j: nat): R
    requires q <= t.m
  {
    Eval(t.g, Part(t, q, k), Pow(t.g, StageRoot(t, q), j), Two(q))
  }

  lemma ValueAtStart<R(!new)>(t: Plan<R>, k: nat)
    requires ValidPlan(t)
    ensures Value(t, 0, k, 0) == t.orig(Rev(t.m, k))
  {
    var g, x, z := t.g, Part(t, 0, k), Pow(t.g, StageRoot(t, 0), 0);
    assert Eval(g, x, z, 1) == g.add(Eval(g, x, z, 0), g.mul(x(0), Pow(g, z, 0)));
    assert g.add(g.zero, x(0)) == g.add(x(0), g.zero);
  }

  lemma ValueAtEnd<R(!new)>(t: Plan<R>, j: nat)
    requires ValidPlan(t)
    ensures Value(t, t.m, 0, j) == Dft(t.g, t.orig, t.w, Two(t.m), j)
  {
    assert Pow(t.g, t.w, 1) == t.g.mul(t.g.one, t.w) == t.g.mul(t.w, t.g.one);
    EvalSame(t.g, Part(t, t.m, 0), t.orig, Pow(t.g, t.w, j), Two(t.m));
  }

  lemma StageRoots<R(!new)>(t: Plan<R>, q: nat)
    requires ValidPlan(t) && 0 < q <= t.m
    ensures IsRoot(t.g, StageRoot(t, q), q)
    ensures StageRoot(t, q - 1) == t.g.mul(StageRoot(t, q), StageRoot(t, q))
  {
    RootPower(t.g, t.w, t.m, t.m - q);
    PowAdd(t.g, t.w, Two(t.m - q), Two(t.m - q));
  }

  /** Blocks 2k and 2k+1 of a stage have the even and the odd elements of block k of the next. */
  lemma PartHalves<R(!new)>(t: Plan<R>, q: nat, k: nat, i: nat)
    requires 0 < q <= t.m
    ensures Part(t, q - 1, 2 * k)(i) == Part(t, q, k)(2 * i)
    ensures Part(t, q - 1, 2 * k + 1)(i) == Part(t, q, k)(2 * i + 1)
  {
    var up := t.m - q;
    assert Two(up + 1) == 2 * Two(up);
    RevHalves(up, k);
    HalfStride(i, Two(up));
  }

  lemma RevHalves(m: nat, k: nat)
    ensures Rev(m + 1, 2 * k) == Rev(m, k) && Rev(m + 1, 2 * k + 1) == Two(m) + Rev(m, k)
  {
  }

  lemma HalfStride(i: nat, step: nat)
    ensures i * (2 * step) == (2 * i) * step && (2 * i + 1) * step == (2 * i) * step + step
  {
    SumTimes(2 * i, 1, step);
  }

  /** One butterfly makes two elements of block k from one of block 2k and one of block 2k+1. */
  lemma StageButterfly<R(!new)>(t: Plan<R>, q: nat, k: nat, j: nat)
    requires ValidPlan(t) && 0 < q <= t.m
    ensures var e, tau := Value(t, q - 1, 2 * k, j), t.g.mul(Pow(t.g, StageRoot(t, q), j), Value(t, q - 1, 2 * k + 1, j));
      Value(t, q, k, j) == t.g.add(e, tau) && Value(t, q, k, j + Two(q - 1)) == Minus(t.g, e, tau)
  {
    StagePoints(t, q, j);
    PartButterfly(t, q, k, Pow(t.g, StageRoot(t, q), j), Pow(t.g, StageRoot(t, q - 1), j), Pow(t.g, StageRoot(t, q), j + Two(q - 1)));
  }

  lemma StagePoints<R(!new)>(t: Plan<R>, q: nat, j: nat)
    requires ValidPlan(t) && 0 < q <= t.m
    ensures var u := Pow(t.g, StageRoot(t, q), j);
      Pow(t.g, StageRoot(t, q - 1), j) == t.g.mul(u, u) && Pow(t.g, StageRoot(t, q), j + Two(q - 1)) == t.g.neg(u)
  {
    StageRoots(t, q);
    RootPoints(t.g, StageRoot(t, q), q - 1, j);
  }

  lemma PartButterfly<R(!new)>(t: Plan<R>, q: nat, k: nat, z: R, square: R, opposite: R)
    requires ValidPlan(t) && 0 < q <= t.m && square == t.g.mul(z, z) && opposite == t.g.neg(z)
    ensures var e := Eval(t.g, Part(t, q - 1, 2 * k), square, Two(q - 1));
      var tau := t.g.mul(z, Eval(t.g, Part(t, q - 1, 2 * k + 1), square, Two(q - 1)));
      && Eval(t.g, Part(t, q, k), z, Two(q)) == t.g.add(e, tau)
      && Eval(t.g, Part(t, q, k), opposite, Two(q)) == Minus(t.g, e, tau)
  {
    var x, even, odd := Part(t, q, k), Part(t, q - 1, 2 * k), Part(t, q - 1, 2 * k + 1);
    forall i: nat | i < Two(q - 1) ensures even(i) == x(2 * i) && odd(i) == x(2 * i + 1) { PartHalves(t, q, k, i); }
    Butterfly(t.g, x, even, odd, z, Two(q - 1));
  }

  // -------------------------------------------------------------------------------------
  // The loops over a row

  /** A computation in stages: val(q, k, j) is element j of block k after stage q. */
  datatype Scheme<!R> = Scheme(g: Ring<R>, m: nat, root: (nat, nat) -> R, val: (nat, nat, nat) -> R)

  /** Butterfly j of block k in stage q. */
  ghost predicate Combines<R>(c: Scheme<R>, q: nat, k: nat, j: nat)
    requires q > 0
  {
    var a, tau := c.val(q - 1, 2 * k, j), c.g.mul(c.root(q, j), c.val(q - 1, 2 * k + 1, j));
    c.val(q, k, j) == c.g.add(a, tau) && c.val(q, k, j + Two(q - 1)) == c.g.add(a, c.g.neg(tau))
  }

  ghost predicate ValidScheme<R>(c: Scheme<R>) {
    forall q: nat, k: nat, j: nat :: 0 < q <= c.m && j < Two(q - 1) ==> Combines(c, q, k, j)
  }

  /** The stages of the transform. */
  ghost function SchemeOf<R>(t: Plan<R>): Scheme<R> {
    Scheme(t.g, t.m, (q: nat, j: nat) => if q <= t.m then Pow(t.g, StageRoot(t, q), j) else t.g.one,
           (q: nat, k: nat, j: nat) => if q <= t.m then Value(t, q, k, j) else t.g.one)
  }

  lemma SchemeIsValid<R(!new)>(t: Plan<R>)
    requires ValidPlan(t)
    ensures ValidScheme(SchemeOf(t))
  {
    forall q: nat, k: nat, j: nat | 0 < q <= t.m && j < Two(q - 1) ensures Combines(SchemeOf(t), q, k, j) {
      SchemeCombines(t, q, k, j);
    }
  }

  lemma SchemeCombines<R(!new)>(t: Plan<R>, q: nat, k: nat, j: nat)
    requires ValidPlan(t) && 0 < q <= t.m
    ensures Combines(SchemeOf(t), q, k, j)
  {
    StageButterfly(t, q, k, j);
  }

  /** Element j of block k of stage q is here. */
  function Index(q: nat, k: nat, j: nat): nat { k * Two(q) + j }

  /** After stage q, block k holds its transform. */
  ghost predicate Element<R>(c: Scheme<R>, x: array2<R>, row: nat, q: nat, k: nat, j: nat)
    requires row < x.Length0
    reads x
  {
    Index(q, k, j) < x.Length1 && x[row, Index(q, k, j)] == c.val(q, k, j)
  }

  ghost predicate AfterStage<R>(c: Scheme<R>, x: array2<R>, row: nat, q: nat)
    requires q <= c.m && row < x.Length0
    reads x
  {
    forall k: nat, j: nat :: k < Two(c.m - q) && j < Two(q) ==> Element(c, x, row, q, k, j)
  }

  /** The two elements of butterfly j of block k, before or after it. */
  ghost predicate Pair<R>(c: Scheme<R>, x: array2<R>, row: nat, q: nat, k: nat, j: nat, done: bool)
    requires 0 < q && row < x.Length0
    reads x
  {
    var a, b := Index(q, k, j), Index(q, k, j + Two(q - 1));
    && a < x.Length1 && b < x.Length1
    && x[row, a] == (if done then c.val(q, k, j) else c.val(q - 1, 2 * k, j))
    && x[row, b] == (if done then c.val(q, k, j + Two(q - 1)) else c.val(q - 1, 2 * k + 1, j))
  }

  /** In stage q, the butterflies of the blocks before k and those before j in block k are done. */
  ghost predicate PairIn<R>(c: Scheme<R>, x: array2<R>, row: nat, q: nat, k: nat, j: nat, k': nat, j': nat)
    requires 0 < q && row < x.Length0
    reads x
  {
    Pair(c, x, row, q, k', j', k' < k || (k' == k && j' < j))
  }

  ghost predicate InStage<R>(c: Scheme<R>, x: array2<R>, row: nat, q: nat, k: nat, j: nat)
    requires 0 < q <= c.m && row < x.Length0
    reads x
  {
    forall k': nat, j': nat :: k' < Two(c.m - q) && j' < Two(q - 1) ==> PairIn(c, x, row, q, k, j, k', j')
  }

  lemma IndexInjective(q: nat, k: nat, j: nat, k': nat, j': nat)
    requires j < Two(q) && j' < Two(q) && Index(q, k, j) == Index(q, k', j')
    ensures k == k' && j == j'
  {
    if k < k' { MulNext(k, k', Two(q)); }
    if k' < k { MulNext(k', k, Two(q)); }
  }

  lemma PairsApart(q: nat, k: nat, j: nat, k': nat, j': nat)
    requires 0 < q && j < Two(q - 1) && j' < Two(q - 1) && (k != k' || j != j')
    ensures Elsewhere(q, k, j, Index(q, k', j')) && Elsewhere(q, k, j, Index(q, k', j' + Two(q - 1)))
  {
    var h := Two(q - 1);
    if Index(q, k, j) == Index(q, k', j') { IndexInjective(q, k, j, k', j'); }
    if Index(q, k, j) == Index(q, k', j' + h) { IndexInjective(q, k, j, k', j' + h); }
    if Index(q, k, j + h) == Index(q, k', j') { IndexInjective(q, k, j + h, k', j'); }
  }

  /** The blocks of the stage before, two by two. */
  lemma IndexHalves(q: nat, k: nat, j: nat)
    requires q > 0
    ensures Index(q, k, j) == Index(q - 1, 2 * k, j) && Index(q, k, j + Two(q - 1)) == Index(q - 1, 2 * k + 1, j)
  {
    assert k * (2 * Two(q - 1)) == (2 * k) * Two(q - 1);
    SumTimes(2 * k, 1, Two(q - 1));
  }

  lemma StageBegins<R>(c: Scheme<R>, x: array2<R>, row: nat, q: nat)
    requires 0 < q <= c.m && row < x.Length0 && AfterStage(c, x, row, q - 1)
    ensures InStage(c, x, row, q, 0, 0)
  {
    forall k: nat, j: nat | k < Two(c.m - q) && j < Two(q - 1) ensures PairIn(c, x, row, q, 0, 0, k, j) {
      assert Two(c.m - (q - 1)) == 2 * Two(c.m - q);
      assert Element(c, x, row, q - 1, 2 * k, j) && Element(c, x, row, q - 1, 2 * k + 1, j);
      IndexHalves(q, k, j);
    }
  }

  lemma StageEnds<R>(c: Scheme<R>, x: array2<R>, row: nat, q: nat)
    requires 0 < q <= c.m && row < x.Length0 && InStage(c, x, row, q, Two(c.m - q), 0)
    ensures AfterStage(c, x, row, q)
  {
    forall k: nat, j: nat | k < Two(c.m - q) && j < Two(q) ensures Element(c, x, row, q, k, j) {
      assert PairIn(c, x, row, q, Two(c.m - q), 0, k, if j < Two(q - 1) then j else j - Two(q - 1));
    }
  }

  /** The table of roots, as it is read in the direction of the transform: entry Two(q - 1) - 1 + j
      is the j-th power of the root of order 2^q. */
  ghost predicate IsTable<R>(c: Scheme<R>, turn: R -> R, u: seq<R>) {
    forall q: nat, j: nat :: 0 < q <= c.m && j < Two(q - 1) ==> TableEntry(c, turn, u, q, j)
  }

  ghost predicate TableEntry<R>(c: Scheme<R>, turn: R -> R, u: seq<R>, q: nat, j: nat)
    requires 0 < q
  {
    var e := Two(q - 1) - 1 + j;
    e < |u| && turn(u[e]) == c.root(q, j)
  }

  ghost predicate Elsewhere(q: nat, k: nat, j: nat, i: nat)
    requires q > 0
  {
    i != Index(q, k, j) && i != Index(q, k, j + Two(q - 1))
  }

  /** One butterfly.  turn takes an entry of the table into the direction of the transform. */
  method DoButterfly<R>(ghost c: Scheme<R>, g: Ring<R>, turn: R -> R, u: seq<R>, x: array2<R>, row: nat, q: nat, k: nat, j: nat)
    requires ValidScheme(c) && g == c.g && IsTable(c, turn, u) && row < x.Length0
    requires 0 < q <= c.m && j < Two(q - 1) && Pair(c, x, row, q, k, j, false)
    modifies x
    ensures Pair(c, x, row, q, k, j, true)
    ensures forall r, i :: 0 <= r < x.Length0 && 0 <= i < x.Length1 && (r == row ==> Elsewhere(q, k, j, i)) ==> x[r, i] == old(x[r, i])
  {
    assert TableEntry(c, turn, u, q, j) && Combines(c, q, k, j);
    var x1, x2 := Index(q, k, j), Index(q, k, j + Two(q - 1));
    var omega := turn(u[Two(q - 1) - 1 + j]);
    var tau := g.mul(omega, x[row, x2]);
    var a := x[row, x1];
    x[row, x2] := g.add(a, g.neg(tau));
    x[row, x1] := g.add(a, tau);
  }

  /** The butterflies of block k. */
  method DoBlock<R>(ghost c: Scheme<R>, g: Ring<R>, turn: R -> R, u: seq<R>, x: array2<R>, row: nat, q: nat, k: nat)
    requires ValidScheme(c) && g == c.g && IsTable(c, turn, u) && row < x.Length0
    requires 0 < q <= c.m && k < Two(c.m - q) && InStage(c, x, row, q, k, 0)
    modifies x
    ensures InStage(c, x, row, q, k + 1, 0) && OnlyRow(x, row)
  {
    for j := 0 to Two(q - 1)
      invariant InStage(c, x, row, q, k, j) && OnlyRow(x, row)
    {
      NextButterfly(c, g, turn, u, x, row, q, k, j);
    }
    var next := k + 1;
    forall k': nat, j': nat | k' < Two(c.m - q) && j' < Two(q - 1) ensures PairIn(c, x, row, q, next, 0, k', j') {
      assert PairIn(c, x, row, q, k, Two(q - 1), k', j');
    }
  }

  method NextButterfly<R>(ghost c: Scheme<R>, g: Ring<R>, turn: R -> R, u: seq<R>, x: array2<R>, row: nat, q: nat, k: nat, j: nat)
    requires ValidScheme(c) && g == c.g && IsTable(c, turn, u) && row < x.Length0
    requires 0 < q <= c.m && k < Two(c.m - q) && j < Two(q - 1) && InStage(c, x, row, q, k, j)
    modifies x
    ensures InStage(c, x, row, q, k, j + 1) && OnlyRow(x, row)
  {
    var next := j + 1;
    assert PairIn(c, x, row, q, k, j, k, j);
    DoButterfly(c, g, turn, u, x, row, q, k, j);
    forall k': nat, j': nat | k' < Two(c.m - q) && j' < Two(q - 1) ensures PairIn(c, x, row, q, k, next, k', j') {
      if k' != k || j' != j {
        assert old(PairIn(c, x, row, q, k, j, k', j'));
        PairsApart(q, k, j, k', j');
      }
    }
  }

  /** All blocks of stage q. */
  method DoStage<R>(ghost c: Scheme<R>, g: Ring<R>, turn: R -> R, u: seq<R>, x: array2<R>, row: nat, m: nat, q: nat)
    requires ValidScheme(c) && g == c.g && m == c.m && IsTable(c, turn, u) && row < x.Length0
    requires 0 < q <= m && AfterStage(c, x, row, q - 1)
    modifies x
    ensures AfterStage(c, x, row, q) && OnlyRow(x, row)
  {
    StageBegins(c, x, row, q);
    for k := 0 to Two(m - q)
      invariant InStage(c, x, row, q, k, 0) && OnlyRow(x, row)
    {
      DoBlock(c, g, turn, u, x, row, q, k);
    }
    StageEnds(c, x, row, q);
  }

  /** All stages. */
  method DoStages<R>(ghost c: Scheme<R>, g: Ring<R>, turn: R -> R, u: seq<R>, x: array2<R>, row: nat, m: nat)
    requires ValidScheme(c) && g == c.g && m == c.m && IsTable(c, turn, u) && row < x.Length0 && AfterStage(c, x, row, 0)
    modifies x
    ensures AfterStage(c, x, row, m) && OnlyRow(x, row)
  {
    for q := 1 to m + 1
      invariant AfterStage(c, x, row, q - 1) && OnlyRow(x, row)
    {
      DoStage(c, g, turn, u, x, row, m, q);
    }
  }

  /** After bit reversal the row is as before the first stage. */
  lemma Reversed<R(!new)>(t: Plan<R>, x: array2<R>, row: nat)
    requires ValidPlan(t) && row < x.Length0 && x.Length1 == Two(t.m)
    requires forall i: nat :: i < Two(t.m) ==> x[row, i] == t.orig(Rev(t.m, i))
    ensures AfterStage(SchemeOf(t), x, row, 0)
  {
    forall k: nat, j: nat | k < Two(t.m) && j < Two(0) ensures Element(SchemeOf(t), x, row, 0, k, j) {
      assert j == 0 && Index(0, k, 0) == k;
      ValueAtStart(t, k);
    }
  }

  lemma Transformed<R(!new)>(t: Plan<R>, x: array2<R>, row: nat, j: nat)
    requires ValidPlan(t) && row < x.Length0 && x.Length1 == Two(t.m) && j < Two(t.m)
    requires AfterStage(SchemeOf(t), x, row, t.m)
    ensures x[row, j] == Dft(t.g, t.orig, t.w, Two(t.m), j)
  {
    assert Element(SchemeOf(t), x, row, t.m, 0, j) && Index(t.m, 0, j) == j;
    ValueAtEnd(t, j);
  }

  /** FFT1DOnce: the row becomes its discrete Fourier transform. */
  method FFT1DOnce<R(!new)>(ghost t: Plan<R>, g: Ring<R>, turn: R -> R, u: seq<R>, x: array2<R>, row: nat, m: nat)
    requires ValidPlan(t) && g == t.g && m == t.m && IsTable(SchemeOf(t), turn, u) && row < x.Length0 && x.Length1 == Two(m)
    requires forall i: nat :: i < Two(m) ==> x[row, i] == t.orig(i)
    modifies x
    ensures forall j: nat :: j < Two(m) ==> x[row, j] == Dft(t.g, t.orig, t.w, Two(m), j)
    ensures OnlyRow(x, row)
  {
    ghost var c := SchemeOf(t);
    SchemeIsValid(t);
    Reverse(x, row, m, t.orig);
    Reversed(t, x, row);
    DoStages(c, g, turn, u, x, row, m);
    forall j: nat | j < Two(m) ensures x[row, j] == Dft(t.g, t.orig, t.w, Two(m), j) { Transformed(t, x, row, j); }
  }
}
