/** The parallel six-step transform: blocked transposes, row transforms and twiddle factors.

    The n*n elements are a matrix; element b*n + a is in row b and column a.  Each processor owns
    the same number of rows and writes only rows that it owns.  What the processors do between two
    barriers is done here by one processor after another; FftParallel has them at the same time. */
module FftSixStep {
  import opened FftRing
  import opened FftMath
  import opened FftKernel
  import opened Arithmetic
  import opened Wrappers

  // -------------------------------------------------------------------------------------
  // The blocked transpose

  /** The blocks are chosen to fit the cache: this many in each direction. */
  function NumBlocks(rows: nat, cacheLines: nat): nat
    requires cacheLines > 0
  {
    var n := (2 * rows) / cacheLines;
    if n * cacheLines != 2 * rows then n + 1 else n
  }

  lemma SomeBlocks(rows: nat, cacheLines: nat)
    requires rows > 0 && cacheLines > 0
    ensures NumBlocks(rows, cacheLines) > 0
  {
    DivMod(2 * rows, cacheLines);
  }

  /** How many rows and columns of a square of the given size the blocks cover. */
  function Covered(rows: nat, cacheLines: nat): nat
    requires rows > 0 && cacheLines > 0
  {
    SomeBlocks(rows, cacheLines);
    NumBlocks(rows, cacheLines) * (rows / NumBlocks(rows, cacheLines))
  }

  /** The blocks cover everything exactly when their number divides the number of rows. */
  lemma CoversAll(rows: nat, cacheLines: nat)
    requires rows > 0 && cacheLines > 0
    ensures NumBlocks(rows, cacheLines) > 0 && Covered(rows, cacheLines) <= rows
    ensures Covered(rows, cacheLines) == rows <==> rows % NumBlocks(rows, cacheLines) == 0
  {
    SomeBlocks(rows, cacheLines);
    var n := NumBlocks(rows, cacheLines);
    DivMod(rows, n);
    Commute(rows / n, n);
  }

  ghost predicate Between(lo: nat, i: nat, n: nat) { lo <= i < lo + n }

  /** The square at row h0 and column v0 of dest has been copied from src, nothing else has changed. */
  twostate predicate SquareCopied<R>(src: array2<R>, dest: array2<R>, h0: nat, hn: nat, v0: nat, vn: nat)
    requires src.Length0 == src.Length1 == dest.Length0 == dest.Length1
    reads src, dest
  {
    forall h, v :: 0 <= h < dest.Length0 && 0 <= v < dest.Length1 ==>
      dest[h, v] == if Between(h0, h, hn) && Between(v0, v, vn) then src[v, h] else old(dest[h, v])
  }

  method CopyBlock<R>(src: array2<R>, dest: array2<R>, v0: nat, h0: nat, size: nat)
    requires src != dest && src.Length0 == src.Length1 == dest.Length0 == dest.Length1
    requires v0 + size <= src.Length0 && h0 + size <= src.Length0
    modifies dest
    ensures SquareCopied(src, dest, h0, size, v0, size)
  {
    for i := 0 to size
      invariant SquareCopied(src, dest, h0, size, v0, i)
    {
      for j := 0 to size
        invariant forall h, v :: 0 <= h < dest.Length0 && 0 <= v < dest.Length1 ==>
          dest[h, v] == if Between(h0, h, size) && (Between(v0, v, i) || (v == v0 + i && Between(h0, h, j)))
                        then src[v, h] else old(dest[h, v])
      {
        dest[h0 + j, v0 + i] := src[v0 + i, h0 + j];
      }
    }
  }

  /** The blocks of one strip. */
  method CopyStrip<R>(src: array2<R>, dest: array2<R>, v0: nat, first: nat, numBlocks: nat, size: nat)
    requires src != dest && src.Length0 == src.Length1 == dest.Length0 == dest.Length1
    requires v0 + size <= src.Length0 && first + numBlocks * size <= src.Length0
    modifies dest
    ensures SquareCopied(src, dest, first, numBlocks * size, v0, size)
  {
    var h0 := first;
    for m := 0 to numBlocks
      invariant h0 == first + m * size
      invariant SquareCopied(src, dest, first, m * size, v0, size)
    {
      MulNext(m, numBlocks, size);
      SumTimes(m, 1, size);
      CopyBlock(src, dest, v0, h0, size);
      h0 := h0 + size;
    }
  }

  /** The rows of one processor against the columns of another. */
  method CopySquare<R>(src: array2<R>, dest: array2<R>, start: nat, first: nat, numBlocks: nat, size: nat)
    requires src != dest && src.Length0 == src.Length1 == dest.Length0 == dest.Length1
    requires start + numBlocks * size <= src.Length0 && first + numBlocks * size <= src.Length0
    modifies dest
    ensures SquareCopied(src, dest, first, numBlocks * size, start, numBlocks * size)
  {
    var v0 := start;
    for k := 0 to numBlocks
      invariant v0 == start + k * size
      invariant SquareCopied(src, dest, first, numBlocks * size, start, k * size)
    {
      MulNext(k, numBlocks, size);
      SumTimes(k, 1, size);
      CopyStrip(src, dest, v0, first, numBlocks, size);
      v0 := v0 + size;
    }
  }

  /** All processors. */
  ghost function All(procs: nat): (all: set<nat>)
    ensures forall l: nat :: l in all <==> l < procs
  {
    if procs == 0 then {} else All(procs - 1) + {procs - 1}
  }

  /** v is in the covered part of one of the squares. */
  ghost predicate InSquares(done: set<nat>, rows: nat, covered: nat, v: nat) {
    exists l :: l in done && Between(l * rows, v, covered)
  }

  /** The rows of processor p of dest hold the columns of src, as far as the squares are done. */
  twostate predicate SquaresCopied<R>(src: array2<R>, dest: array2<R>, first: nat, done: set<nat>, rows: nat, covered: nat)
    requires src.Length0 == src.Length1 == dest.Length0 == dest.Length1
    reads src, dest
  {
    forall h, v :: 0 <= h < dest.Length0 && 0 <= v < dest.Length1 ==>
      dest[h, v] == if Between(first, h, covered) && InSquares(done, rows, covered, v) then src[v, h] else old(dest[h, v])
  }

  lemma SquareAdded(done: set<nat>, l: nat, rows: nat, covered: nat, v: nat)
    ensures InSquares(done + {l}, rows, covered, v) <==> InSquares(done, rows, covered, v) || Between(l * rows, v, covered)
  {
    if InSquares(done, rows, covered, v) {
      var k :| k in done && Between(k * rows, v, covered);
      assert k in done + {l};
    }
    if Between(l * rows, v, covered) { assert l in done + {l}; }
  }

  /** One more square. */
  method NextSquare<R>(src: array2<R>, dest: array2<R>, l: nat, first: nat, rows: nat, numBlocks: nat, size: nat)
    requires src != dest && src.Length0 == src.Length1 == dest.Length0 == dest.Length1
    requires numBlocks * size <= rows && l * rows + rows <= src.Length0 && first + rows <= src.Length0
    modifies dest
    ensures SquareCopied(src, dest, first, numBlocks * size, l * rows, numBlocks * size)
  {
    CopySquare(src, dest, l * rows, first, numBlocks, size);
  }

  /** Transpose: processor p fills its rows of dest from all squares of src, its own square last. */
  method Transpose<R>(src: array2<R>, dest: array2<R>, p: nat, procs: nat, rows: nat, cacheLines: nat)
    requires src != dest && src.Length0 == src.Length1 == dest.Length0 == dest.Length1 == procs * rows
    requires p < procs && rows > 0 && cacheLines > 0
    modifies dest
    ensures SquaresCopied(src, dest, p * rows, All(procs), rows, Covered(rows, cacheLines))
  {
    var numBlocks := NumBlocks(rows, cacheLines);
    CoversAll(rows, cacheLines);
    var size := rows / numBlocks;
    MulNext(p, procs, rows);
    ghost var done: set<nat> := {};
    for l := p + 1 to procs
      invariant SquaresCopied(src, dest, p * rows, done, rows, Covered(rows, cacheLines))
      invariant forall k :: k in done <==> p < k < l
    {
      MulNext(l, procs, rows);
      forall v: nat { SquareAdded(done, l, rows, Covered(rows, cacheLines), v); }
      NextSquare(src, dest, l, p * rows, rows, numBlocks, size);
      done := done + {l};
    }
    for l := 0 to p
      invariant SquaresCopied(src, dest, p * rows, done, rows, Covered(rows, cacheLines))
      invariant forall k :: k in done <==> p < k < procs || 0 <= k < l
    {
      MulNext(l, procs, rows);
      forall v: nat { SquareAdded(done, l, rows, Covered(rows, cacheLines), v); }
      NextSquare(src, dest, l, p * rows, rows, numBlocks, size);
      done := done + {l};
    }
    forall v: nat { SquareAdded(done, p, rows, Covered(rows, cacheLines), v); }
    NextSquare(src, dest, p, p * rows, rows, numBlocks, size);
    assert done + {p} == All(procs);
  }

  /** Only rows of the processor have changed. */
  twostate predicate OnlyRows<R>(x: array2<R>, first: nat, rows: nat)
    reads x
  {
    forall h, v :: 0 <= h < x.Length0 && 0 <= v < x.Length1 && !Between(first, h, rows) ==> x[h, v] == old(x[h, v])
  }

  ghost predicate RowIsColumn<R>(src: array2<R>, dest: array2<R>, h: nat)
    requires src.Length0 == src.Length1 == dest.Length0 == dest.Length1 && h < dest.Length0
    reads src, dest
  {
    forall v :: 0 <= v < dest.Length1 ==> dest[h, v] == src[v, h]
  }

  /** When the number of blocks divides the number of rows, the transpose is complete. */
  method TransposeFully<R>(src: array2<R>, dest: array2<R>, p: nat, procs: nat, rows: nat, cacheLines: nat)
    requires src != dest && src.Length0 == src.Length1 == dest.Length0 == dest.Length1 == procs * rows
    requires p < procs && rows > 0 && cacheLines > 0 && Covered(rows, cacheLines) == rows
    modifies dest
    ensures forall h: nat :: Between(p * rows, h, rows) && h < dest.Length0 ==> RowIsColumn(src, dest, h)
    ensures OnlyRows(dest, p * rows, rows)
  {
    Transpose(src, dest, p, procs, rows, cacheLines);
    forall v: nat | v < src.Length0 ensures InSquares(All(procs), rows, rows, v) { SquareOf(procs, rows, v); }
  }

  /** With 8 rows and 6 cache lines, three blocks of two leave two rows and two columns out: the
      matrix of a single processor is not transposed. */
  method SomeRowsLeftOut() returns (src: array2<int>, dest: array2<int>)
    ensures fresh(src) && fresh(dest) && src.Length0 == src.Length1 == dest.Length0 == dest.Length1 == 8
    ensures forall h, v :: 0 <= h < 8 && 0 <= v < 8 ==> src[v, h] == 1 && dest[h, v] == if h < 6 && v < 6 then 1 else 0
  {
    src := new int[8, 8]((i, j) => 1);
    dest := new int[8, 8]((i, j) => 0);
    assert NumBlocks(8, 6) == 3 && Covered(8, 6) == 6;
    assert All(0) == {} && All(1) == {0};
    Transpose(src, dest, 0, 1, 8, 6);
    forall v: nat ensures InSquares(All(1), 8, 6, v) <==> v < 6 {
      if v < 6 { assert 0 in All(1) && Between(0 * 8, v, 6); }
    }
  }

  lemma SquareOf(procs: nat, rows: nat, v: nat)
    requires rows > 0 && v < procs * rows
    ensures InSquares(All(procs), rows, rows, v)
  {
    DivMod(v, rows);
    var l := v / rows;
    if procs <= l { MulLe(procs, l, rows); }
    assert l in All(procs) && Between(l * rows, v, rows);
  }

  // -------------------------------------------------------------------------------------
  // The three phases

  /** A transform of n*n elements with root w, n being 2^m, on processors with as many rows each. */
  datatype Job<!R> = Job(g: Ring<R>, w: R, m: nat, orig: nat -> R)

  ghost predicate ValidJob<R(!new)>(t: Job<R>) { Laws(t.g) && IsRoot(t.g, t.w, t.m + t.m) }

  /** The root for the transforms of n elements. */
  ghost function RowRoot<R>(t: Job<R>): R { Pow(t.g, t.w, Two(t.m)) }

  lemma Roots<R(!new)>(t: Job<R>)
    requires ValidJob(t)
    ensures IsRoot(t.g, RowRoot(t), t.m) && Pow(t.g, t.w, Two(t.m) * Two(t.m)) == t.g.one
  {
    RootPower(t.g, t.w, t.m + t.m, t.m);
    FullTurn(t.g, t.w, t.m + t.m);
    TwoAdd(t.m, t.m);
  }

  /** The transform of column j of the elements. */
  ghost function FirstPlan<R>(t: Job<R>, j: nat): Plan<R> { Plan(t.g, RowRoot(t), t.m, Column(t.orig, Two(t.m), j)) }

  /** The transform of row c of the twiddled transforms. */
  ghost function SecondPlan<R>(t: Job<R>, c: nat): Plan<R> { Plan(t.g, RowRoot(t), t.m, Twiddled(t.g, t.orig, t.w, Two(t.m), c)) }

  ghost predicate Shape<R>(t: Job<R>, x: array2<R>) { x.Length0 == x.Length1 == Two(t.m) }

  /** The matrix holds the elements. */
  ghost predicate HoldsInput<R>(t: Job<R>, x: array2<R>)
    requires Shape(t, x)
    reads x
  {
    forall b: nat, a: nat :: b < Two(t.m) && a < Two(t.m) ==> x[b, a] == t.orig(b * Two(t.m) + a)
  }

  /** Row h holds the values of f. */
  ghost predicate RowHolds<R>(x: array2<R>, h: nat, f: Grid<R>)
    requires h < x.Length0
    reads x
  {
    forall i: nat :: i < x.Length1 ==> x[h, i] == f(h, i)
  }

  /** Row j of the first phase: the twiddled transform of column j of the elements. */
  ghost function First<R>(t: Job<R>): Grid<R> {
    (j: nat, c: nat) => Twiddled(t.g, t.orig, t.w, Two(t.m), c)(j)
  }

  /** Going back, the elements are scaled. */
  ghost function Scaled<R>(t: Job<R>, scale: Option<R>, v: R): R {
    match scale case None => v case Some(f) => t.g.mul(v, f)
  }

  /** Element i of the result. */
  ghost function Result<R>(t: Job<R>, scale: Option<R>, i: nat): R {
    Scaled(t, scale, Dft(t.g, t.orig, t.w, Two(t.m) * Two(t.m), i))
  }

  /** Row c of the second phase: every n-th element of the result, from the c-th on. */
  ghost function Second<R>(t: Job<R>, scale: Option<R>): Grid<R> {
    (c: nat, d: nat) => Result(t, scale, d * Two(t.m) + c)
  }

  /** Row d of the third phase: n consecutive elements of the result. */
  ghost function Third<R>(t: Job<R>, scale: Option<R>): Grid<R> {
    (d: nat, c: nat) => Result(t, scale, d * Two(t.m) + c)
  }

  /** Entry (j, i) of the table of twiddle factors, as it is read in the direction of the transform,
      is w^(j i). */
  ghost predicate IsTwiddles<R>(t: Job<R>, turn: R -> R, u: array2<R>)
    requires Shape(t, u)
    reads u
  {
    forall j: nat, i: nat :: j < Two(t.m) && i < Two(t.m) ==> turn(u[j, i]) == Pow(t.g, t.w, j * i)
  }

  /** TwiddleOneCol: multiply row j by its twiddle factors. */
  method TwiddleOneCol<R(!new)>(ghost t: Job<R>, g: Ring<R>, turn: R -> R, u: array2<R>, s: array2<R>, j: nat, n: nat)
    requires ValidJob(t) && g == t.g && n == Two(t.m) && Shape(t, u) && Shape(t, s) && u != s && j < n && IsTwiddles(t, turn, u)
    requires forall c: nat :: c < n ==> s[j, c] == Dft(t.g, Column(t.orig, n, j), RowRoot(t), n, c)
    modifies s
    ensures RowHolds(s, j, First(t)) && OnlyRow(s, j)
  {
    for i := 0 to n
      invariant OnlyRow(s, j)
      invariant forall c: nat :: c < i ==> s[j, c] == Twiddled(t.g, t.orig, t.w, n, c)(j)
      invariant forall c: nat :: i <= c < n ==> s[j, c] == Dft(t.g, Column(t.orig, n, j), RowRoot(t), n, c)
    {
      s[j, i] := g.mul(turn(u[j, i]), s[j, i]);
    }
  }

  /** The table of the roots for the transforms of rows. */
  ghost predicate IsRowTable<R>(t: Job<R>, turn: R -> R, u: seq<R>) { IsTable(SchemeOf(FirstPlan(t, 0)), turn, u) }

  /** The roots do not depend on the elements. */
  lemma SameTable<R(!new)>(t: Job<R>, turn: R -> R, u: seq<R>, plan: Plan<R>)
    requires IsRowTable(t, turn, u) && plan.g == t.g && plan.w == RowRoot(t) && plan.m == t.m
    ensures IsTable(SchemeOf(plan), turn, u)
  {
    forall q: nat, j: nat | 0 < q <= plan.m && j < Two(q - 1) ensures TableEntry(SchemeOf(plan), turn, u, q, j) {
      assert TableEntry(SchemeOf(FirstPlan(t, 0)), turn, u, q, j);
    }
  }

  /** Transform and twiddle one row. */
  method FirstRow<R(!new)>(ghost t: Job<R>, g: Ring<R>, turn: R -> R, u: seq<R>, u2: array2<R>, s: array2<R>, j: nat, m: nat)
    requires ValidJob(t) && g == t.g && m == t.m && Shape(t, s) && Shape(t, u2) && u2 != s && j < Two(m)
    requires IsRowTable(t, turn, u) && IsTwiddles(t, turn, u2)
    requires forall i: nat :: i < Two(m) ==> s[j, i] == Column(t.orig, Two(m), j)(i)
    modifies s
    ensures RowHolds(s, j, First(t)) && OnlyRow(s, j)
  {
    ghost var plan := FirstPlan(t, j);
    Roots(t);
    SameTable(t, turn, u, plan);
    FFT1DOnce(plan, g, turn, u, s, j, m);
    TwiddleOneCol(t, g, turn, u2, s, j, Two(m));
  }

  /** What processor p does before the first barrier. */
  method FirstPhase<R(!new)>(ghost t: Job<R>, g: Ring<R>, turn: R -> R, u: seq<R>, u2: array2<R>, x: array2<R>, s: array2<R>, m: nat,
                             p: nat, procs: nat, rows: nat, cacheLines: nat)
    requires ValidJob(t) && g == t.g && m == t.m && Shape(t, x) && Shape(t, s) && Shape(t, u2) && x != s && u2 != s
    requires IsRowTable(t, turn, u) && IsTwiddles(t, turn, u2) && HoldsInput(t, x)
    requires p < procs && rows > 0 && Two(m) == procs * rows && cacheLines > 0 && Covered(rows, cacheLines) == rows
    modifies s
    ensures forall j: nat :: Between(p * rows, j, rows) && j < Two(m) ==> RowHolds(s, j, First(t))
    ensures OnlyRows(s, p * rows, rows)
  {
    TransposeFully(x, s, p, procs, rows, cacheLines);
    MulNext(p, procs, rows);
    ghost var f := First(t);
    for j := p * rows to p * rows + rows
      invariant forall k: nat :: p * rows <= k < j ==> RowHolds(s, k, f)
      invariant forall k: nat :: j <= k < p * rows + rows ==> RowIsColumn(x, s, k)
      invariant OnlyRows(s, p * rows, rows)
    {
      assert RowIsColumn(x, s, j);
      label before:
      FirstRow(t, g, turn, u, u2, s, j, m);
      forall k: nat | p * rows <= k < j ensures RowHolds(s, k, f) { assert old@before(RowHolds(s, k, f)); }
      forall k: nat | j < k < p * rows + rows ensures RowIsColumn(x, s, k) { assert old@before(RowIsColumn(x, s, k)); }
    }
  }

  /** Scale one row. */
  method Scale<R(!new)>(g: Ring<R>, factor: R, x: array2<R>, row: nat, ghost f: nat -> R)
    requires row < x.Length0 && forall i: nat :: i < x.Length1 ==> x[row, i] == f(i)
    modifies x
    ensures (forall i: nat :: i < x.Length1 ==> x[row, i] == g.mul(f(i), factor)) && OnlyRow(x, row)
  {
    for i := 0 to x.Length1
      invariant OnlyRow(x, row)
      invariant forall j: nat :: j < i ==> x[row, j] == g.mul(f(j), factor)
      invariant forall j: nat :: i <= j < x.Length1 ==> x[row, j] == f(j)
    {
      x[row, i] := g.mul(x[row, i], factor);
    }
  }

  lemma SecondValue<R(!new)>(t: Job<R>, scale: Option<R>, c: nat, d: nat)
    requires ValidJob(t)
    ensures Second(t, scale)(c, d) == Scaled(t, scale, Dft(t.g, SecondPlan(t, c).orig, RowRoot(t), Two(t.m), d))
  {
    var n := Two(t.m);
    Roots(t);
    SixStep(t.g, t.orig, t.w, n, c, d);
    assert Dft(t.g, t.orig, t.w, n * n, d * n + c) == Dft(t.g, SecondPlan(t, c).orig, RowRoot(t), n, d);
    assert Second(t, scale)(c, d) == Result(t, scale, d * n + c);
    assert Result(t, scale, d * n + c) == Scaled(t, scale, Dft(t.g, t.orig, t.w, n * n, d * n + c));
  }

  /** Transform one row again, and scale it when going back. */
  method SecondRow<R(!new)>(ghost t: Job<R>, g: Ring<R>, turn: R -> R, u: seq<R>, x: array2<R>, c: nat, m: nat, scale: Option<R>)
    requires ValidJob(t) && g == t.g && m == t.m && Shape(t, x) && c < Two(m) && IsRowTable(t, turn, u)
    requires forall a: nat :: a < Two(m) ==> x[c, a] == SecondPlan(t, c).orig(a)
    modifies x
    ensures RowHolds(x, c, Second(t, scale)) && OnlyRow(x, c)
  {
    ghost var plan := SecondPlan(t, c);
    Roots(t);
    SameTable(t, turn, u, plan);
    FFT1DOnce(plan, g, turn, u, x, c, m);
    if scale.Some? {
      Scale(g, scale.value, x, c, (d: nat) => Dft(t.g, plan.orig, RowRoot(t), Two(t.m), d));
    }
    forall d: nat | d < x.Length1 ensures x[c, d] == Second(t, scale)(c, d) { SecondValue(t, scale, c, d); }
  }

  /** What processor p does between the first and the second barrier. */
  method SecondPhase<R(!new)>(ghost t: Job<R>, g: Ring<R>, turn: R -> R, u: seq<R>, s: array2<R>, x: array2<R>, m: nat, scale: Option<R>,
                              p: nat, procs: nat, rows: nat, cacheLines: nat)
    requires ValidJob(t) && g == t.g && m == t.m && Shape(t, x) && Shape(t, s) && x != s && IsRowTable(t, turn, u)
    requires forall j: nat :: j < Two(m) ==> RowHolds(s, j, First(t))
    requires p < procs && rows > 0 && Two(m) == procs * rows && cacheLines > 0 && Covered(rows, cacheLines) == rows
    modifies x
    ensures forall c: nat :: Between(p * rows, c, rows) && c < Two(m) ==> RowHolds(x, c, Second(t, scale))
    ensures OnlyRows(x, p * rows, rows)
  {
    TransposeFully(s, x, p, procs, rows, cacheLines);
    MulNext(p, procs, rows);
    ghost var f := Second(t, scale);
    for c := p * rows to p * rows + rows
      invariant forall k: nat :: p * rows <= k < c ==> RowHolds(x, k, f)
      invariant forall k: nat :: c <= k < p * rows + rows ==> RowIsColumn(s, x, k)
      invariant OnlyRows(x, p * rows, rows)
    {
      SecondInput(t, s, x, c);
      label before:
      SecondRow(t, g, turn, u, x, c, m, scale);
      forall k: nat | p * rows <= k < c ensures RowHolds(x, k, f) { assert old@before(RowHolds(x, k, f)); }
      forall k: nat | c < k < p * rows + rows ensures RowIsColumn(s, x, k) { assert old@before(RowIsColumn(s, x, k)); }
    }
  }

  lemma SecondInput<R(!new)>(t: Job<R>, s: array2<R>, x: array2<R>, c: nat)
    requires Shape(t, x) && Shape(t, s) && c < Two(t.m) && RowIsColumn(s, x, c)
    requires forall j: nat :: j < Two(t.m) ==> RowHolds(s, j, First(t))
    ensures forall a: nat :: a < Two(t.m) ==> x[c, a] == SecondPlan(t, c).orig(a)
  {
    forall a: nat | a < Two(t.m) ensures x[c, a] == SecondPlan(t, c).orig(a) { assert RowHolds(s, a, First(t)); }
  }

  /** What processor p does between the second and the third barrier. */
  method ThirdPhase<R(!new)>(ghost t: Job<R>, x: array2<R>, s: array2<R>, ghost scale: Option<R>,
                             p: nat, procs: nat, rows: nat, cacheLines: nat)
    requires Shape(t, x) && Shape(t, s) && x != s
    requires forall c: nat :: c < Two(t.m) ==> RowHolds(x, c, Second(t, scale))
    requires p < procs && rows > 0 && Two(t.m) == procs * rows && cacheLines > 0 && Covered(rows, cacheLines) == rows
    modifies s
    ensures forall d: nat :: Between(p * rows, d, rows) && d < Two(t.m) ==> RowHolds(s, d, Third(t, scale))
    ensures OnlyRows(s, p * rows, rows)
  {
    TransposeFully(x, s, p, procs, rows, cacheLines);
    forall d: nat | Between(p * rows, d, rows) && d < Two(t.m) ensures RowHolds(s, d, Third(t, scale)) {
      assert RowIsColumn(x, s, d);
      forall c: nat | c < Two(t.m) ensures s[d, c] == Third(t, scale)(d, c) { assert RowHolds(x, c, Second(t, scale)); }
    }
  }

  /** CopyColumn for the rows of processor p. */
  method CopyRows<R>(s: array2<R>, x: array2<R>, p: nat, procs: nat, rows: nat, ghost f: Grid<R>)
    requires s != x && s.Length0 == x.Length0 == procs * rows && s.Length1 == x.Length1 && p < procs
    requires forall d: nat :: d < s.Length0 ==> RowHolds(s, d, f)
    modifies x
    ensures forall d: nat :: Between(p * rows, d, rows) && d < x.Length0 ==> RowHolds(x, d, f)
    ensures OnlyRows(x, p * rows, rows)
  {
    MulNext(p, procs, rows);
    for d := p * rows to p * rows + rows
      invariant forall k: nat :: p * rows <= k < d ==> RowHolds(x, k, f)
      invariant OnlyRows(x, p * rows, rows)
    {
      label before:
      assert RowHolds(s, d, f);
      for i := 0 to s.Length1
        invariant OnlyRow@before(x, d)
        invariant forall j: nat :: j < i ==> x[d, j] == s[d, j]
      {
        x[d, i] := s[d, i];
      }
      forall k: nat | p * rows <= k < d ensures RowHolds(x, k, f) { assert old@before(RowHolds(x, k, f)); }
    }
  }

  /** The rows of the first processors are done. */
  ghost predicate RowsHold<R>(x: array2<R>, p: nat, rows: nat, f: Grid<R>)
    reads x
  {
    forall h: nat :: h < p * rows && h < x.Length0 ==> RowHolds(x, h, f)
  }

  lemma NextRows(p: nat, rows: nat, h: nat)
    ensures h < (p + 1) * rows <==> h < p * rows || Between(p * rows, h, rows)
  {
    SumTimes(p, 1, rows);
  }

  /** The first phase of all processors. */
  method AllFirst<R(!new)>(ghost t: Job<R>, g: Ring<R>, turn: R -> R, u: seq<R>, u2: array2<R>, x: array2<R>, s: array2<R>, m: nat,
                           procs: nat, rows: nat, cacheLines: nat)
    requires ValidJob(t) && g == t.g && m == t.m && Shape(t, x) && Shape(t, s) && Shape(t, u2) && x != s && u2 != s
    requires IsRowTable(t, turn, u) && IsTwiddles(t, turn, u2) && HoldsInput(t, x)
    requires rows > 0 && Two(m) == procs * rows && cacheLines > 0 && Covered(rows, cacheLines) == rows
    modifies s
    ensures RowsHold(s, procs, rows, First(t))
  {
    for p := 0 to procs
      invariant HoldsInput(t, x) && RowsHold(s, p, rows, First(t))
    {
      label before:
      FirstPhase(t, g, turn, u, u2, x, s, m, p, procs, rows, cacheLines);
      forall h: nat | h < (p + 1) * rows && h < Two(m) ensures RowHolds(s, h, First(t)) {
        NextRows(p, rows, h);
        if h < p * rows { assert old@before(RowHolds(s, h, First(t))); }
      }
    }
  }

  /** The second phase of all processors. */
  method AllSecond<R(!new)>(ghost t: Job<R>, g: Ring<R>, turn: R -> R, u: seq<R>, s: array2<R>, x: array2<R>, m: nat, scale: Option<R>,
                            procs: nat, rows: nat, cacheLines: nat)
    requires ValidJob(t) && g == t.g && m == t.m && Shape(t, x) && Shape(t, s) && x != s && IsRowTable(t, turn, u)
    requires RowsHold(s, procs, rows, First(t))
    requires rows > 0 && Two(m) == procs * rows && cacheLines > 0 && Covered(rows, cacheLines) == rows
    modifies x
    ensures RowsHold(x, procs, rows, Second(t, scale))
  {
    ghost var f := Second(t, scale);
    for p := 0 to procs
      invariant RowsHold(x, p, rows, f)
    {
      label before:
      SecondPhase(t, g, turn, u, s, x, m, scale, p, procs, rows, cacheLines);
      forall h: nat | h < (p + 1) * rows && h < x.Length0 ensures RowHolds(x, h, f) {
        NextRows(p, rows, h);
        if h < p * rows { assert old@before(RowHolds(x, h, f)); }
      }
    }
  }

  /** The third phase of all processors. */
  method AllThird<R(!new)>(ghost t: Job<R>, x: array2<R>, s: array2<R>, ghost scale: Option<R>, procs: nat, rows: nat, cacheLines: nat)
    requires Shape(t, x) && Shape(t, s) && x != s && RowsHold(x, procs, rows, Second(t, scale))
    requires rows > 0 && Two(t.m) == procs * rows && cacheLines > 0 && Covered(rows, cacheLines) == rows
    modifies s
    ensures RowsHold(s, procs, rows, Third(t, scale))
  {
    ghost var f := Third(t, scale);
    for p := 0 to procs
      invariant RowsHold(s, p, rows, f)
    {
      label before:
      ThirdPhase(t, x, s, scale, p, procs, rows, cacheLines);
      forall h: nat | h < (p + 1) * rows && h < s.Length0 ensures RowHolds(s, h, f) {
        NextRows(p, rows, h);
        if h < p * rows { assert old@before(RowHolds(s, h, f)); }
      }
    }
  }

  method AllCopy<R>(s: array2<R>, x: array2<R>, procs: nat, rows: nat, ghost f: Grid<R>)
    requires s != x && s.Length0 == x.Length0 == procs * rows && s.Length1 == x.Length1 && RowsHold(s, procs, rows, f)
    modifies x
    ensures RowsHold(x, procs, rows, f)
  {
    for p := 0 to procs
      invariant RowsHold(x, p, rows, f)
    {
      label before:
      CopyRows(s, x, p, procs, rows, f);
      forall h: nat | h < (p + 1) * rows && h < x.Length0 ensures RowHolds(x, h, f) {
        NextRows(p, rows, h);
        if h < p * rows { assert old@before(RowHolds(x, h, f)); }
      }
    }
  }

  /** FFT1D: the matrix becomes the transform of its elements, scaled when a factor is given.  The
      result also remains in the scratch matrix. */
  method FFT1D<R(!new)>(ghost t: Job<R>, g: Ring<R>, turn: R -> R, u: seq<R>, u2: array2<R>, x: array2<R>, s: array2<R>, m: nat, scale: Option<R>,
                        procs: nat, rows: nat, cacheLines: nat, copy: bool)
    requires ValidJob(t) && g == t.g && m == t.m && Shape(t, x) && Shape(t, s) && Shape(t, u2) && x != s && u2 != s && u2 != x
    requires IsRowTable(t, turn, u) && IsTwiddles(t, turn, u2) && HoldsInput(t, x)
    requires rows > 0 && Two(m) == procs * rows && cacheLines > 0 && Covered(rows, cacheLines) == rows
    modifies x, s
    ensures forall d: nat :: d < Two(m) ==> RowHolds(s, d, Third(t, scale))
    ensures copy ==> forall d: nat :: d < Two(m) ==> RowHolds(x, d, Third(t, scale))
  {
    AllFirst(t, g, turn, u, u2, x, s, m, procs, rows, cacheLines);
    AllSecond(t, g, turn, u, s, x, m, scale, procs, rows, cacheLines);
    AllThird(t, x, s, scale, procs, rows, cacheLines);
    if copy { AllCopy(s, x, procs, rows, Third(t, scale)); }
  }

  // -------------------------------------------------------------------------------------
  // Forward and back

  lemma BackRoot<R(!new)>(t: Job<R>, v: R)
    requires ValidJob(t) && t.g.mul(t.w, v) == t.g.one
    ensures IsRoot(t.g, v, t.m + t.m)
  {
    InverseRoot(t.g, t.w, v, t.m + t.m);
  }

  lemma BackValue<R(!new)>(t: Job<R>, v: R, factor: R, i: nat)
    requires ValidJob(t) && t.g.mul(t.w, v) == t.g.one && i < Two(t.m) * Two(t.m)
    requires t.g.mul(Times(t.g, Two(t.m) * Two(t.m)), factor) == t.g.one
    ensures t.g.mul(Dft(t.g, Transform(t.g, t.orig, t.w, Two(t.m) * Two(t.m)), v, Two(t.m) * Two(t.m), i), factor) == t.orig(i)
  {
    TwoAdd(t.m, t.m);
    Inversion(t.g, t.orig, t.w, v, t.m + t.m, i);
    MulAssoc(t.g, t.orig(i), Times(t.g, Two(t.m) * Two(t.m)), factor);
  }

  /** The transform back of the result of the transform forward. */
  ghost function BackJob<R>(t: Job<R>, v: R): Job<R> { Job(t.g, v, t.m, Transform(t.g, t.orig, t.w, Two(t.m) * Two(t.m))) }

  lemma ForwardIsInput<R(!new)>(t: Job<R>, v: R, x: array2<R>)
    requires Shape(t, x) && forall d: nat :: d < Two(t.m) ==> RowHolds(x, d, Third(t, None))
    ensures HoldsInput(BackJob(t, v), x)
  {
    forall b: nat, a: nat | b < Two(t.m) && a < Two(t.m) ensures x[b, a] == BackJob(t, v).orig(b * Two(t.m) + a) {
      assert RowHolds(x, b, Third(t, None));
      assert x[b, a] == Third(t, None)(b, a);
      ForwardElement(t, v, b, a);
    }
  }

  lemma ForwardElement<R(!new)>(t: Job<R>, v: R, b: nat, a: nat)
    ensures BackJob(t, v).orig(b * Two(t.m) + a) == Third(t, None)(b, a)
  {
    var i := b * Two(t.m) + a;
    assert Third(t, None)(b, a) == Result(t, None, i);
    assert BackJob(t, v).orig(i) == Dft(t.g, t.orig, t.w, Two(t.m) * Two(t.m), i);
  }

  lemma BackElement<R(!new)>(t: Job<R>, v: R, factor: R, b: nat, a: nat)
    requires ValidJob(t) && t.g.mul(t.w, v) == t.g.one && b < Two(t.m) && a < Two(t.m)
    requires t.g.mul(Times(t.g, Two(t.m) * Two(t.m)), factor) == t.g.one
    ensures Third(BackJob(t, v), Some(factor))(b, a) == t.orig(b * Two(t.m) + a)
  {
    var i, back := b * Two(t.m) + a, BackJob(t, v);
    MulNext(b, Two(t.m), Two(t.m));
    assert Third(back, Some(factor))(b, a) == Result(back, Some(factor), i);
    assert Result(back, Some(factor), i) == t.g.mul(Dft(t.g, back.orig, v, Two(t.m) * Two(t.m), i), factor);
    BackValue(t, v, factor, i);
  }

  lemma BackIsOriginal<R(!new)>(t: Job<R>, v: R, factor: R, x: array2<R>)
    requires ValidJob(t) && t.g.mul(t.w, v) == t.g.one && Shape(t, x)
    requires t.g.mul(Times(t.g, Two(t.m) * Two(t.m)), factor) == t.g.one
    requires forall d: nat :: d < Two(t.m) ==> RowHolds(x, d, Third(BackJob(t, v), Some(factor)))
    ensures HoldsInput(t, x)
  {
    var n := Two(t.m);
    forall b: nat, a: nat | b < n && a < n ensures x[b, a] == t.orig(b * n + a) {
      assert RowHolds(x, b, Third(BackJob(t, v), Some(factor)));
      assert x[b, a] == Third(BackJob(t, v), Some(factor))(b, a);
      BackElement(t, v, factor, b, a);
    }
  }

  /** Turning an entry of the table respects products. */
  ghost predicate IsTurn<R(!new)>(g: Ring<R>, turn: R -> R) {
    turn(g.one) == g.one && forall a, b {:trigger turn(g.mul(a, b))} :: turn(g.mul(a, b)) == g.mul(turn(a), turn(b))
  }

  lemma {:induction false} TurnedPower<R(!new)>(g: Ring<R>, turn: R -> R, w: R, e: nat)
    requires IsTurn(g, turn)
    ensures turn(Pow(g, w, e)) == Pow(g, turn(w), e)
  {
    if e > 0 { TurnedPower(g, turn, w, e - 1); }
  }

  /** The tables for the way forward, turned, are the tables for the way back. */
  lemma BackTwiddles<R(!new)>(t: Job<R>, ahead: R -> R, turn: R -> R, u2: array2<R>)
    requires Shape(t, u2) && IsTwiddles(t, ahead, u2) && IsTurn(t.g, turn) && LeavesAlone(ahead)
    ensures IsTwiddles(BackJob(t, turn(t.w)), turn, u2)
  {
    forall j: nat, i: nat | j < Two(t.m) && i < Two(t.m) ensures turn(u2[j, i]) == Pow(t.g, turn(t.w), j * i) {
      assert ahead(u2[j, i]) == Pow(t.g, t.w, j * i);
      TurnedPower(t.g, turn, t.w, j * i);
    }
  }

  lemma BackRowTable<R(!new)>(t: Job<R>, ahead: R -> R, turn: R -> R, u: seq<R>)
    requires IsRowTable(t, ahead, u) && IsTurn(t.g, turn) && LeavesAlone(ahead)
    ensures IsRowTable(BackJob(t, turn(t.w)), turn, u)
  {
    var plan, back := FirstPlan(t, 0), FirstPlan(BackJob(t, turn(t.w)), 0);
    forall q: nat, j: nat | 0 < q <= t.m && j < Two(q - 1) ensures TableEntry(SchemeOf(back), turn, u, q, j) {
      assert TableEntry(SchemeOf(plan), ahead, u, q, j);
      TurnedRoot(t, turn, q, j);
    }
  }

  lemma TurnedRoot<R(!new)>(t: Job<R>, turn: R -> R, q: nat, j: nat)
    requires IsTurn(t.g, turn) && q <= t.m
    ensures turn(SchemeOf(FirstPlan(t, 0)).root(q, j)) == SchemeOf(FirstPlan(BackJob(t, turn(t.w)), 0)).root(q, j)
  {
    var plan, back := FirstPlan(t, 0), FirstPlan(BackJob(t, turn(t.w)), 0);
    TurnedPower(t.g, turn, t.w, Two(t.m));
    TurnedPower(t.g, turn, plan.w, Two(t.m - q));
    TurnedPower(t.g, turn, StageRoot(plan, q), j);
    assert StageRoot(back, q) == turn(StageRoot(plan, q));
    RootIs(plan, q, j);
    RootIs(back, q, j);
  }

  lemma RootIs<R>(plan: Plan<R>, q: nat, j: nat)
    requires q <= plan.m
    ensures SchemeOf(plan).root(q, j) == Pow(plan.g, StageRoot(plan, q), j)
  {
  }

  /** One way takes the tables as they are, the other turns the root into its inverse, and the factor
      is the inverse of the number of elements. */
  ghost predicate CanGoBack<R(!new)>(g: Ring<R>, w: R, m: nat, ahead: R -> R, turn: R -> R, factor: R) {
    LeavesAlone(ahead) && IsTurn(g, turn) && LeadsBack(g, w, turn) && IsScale(g, m, factor)
  }

  ghost predicate LeavesAlone<R(!new)>(ahead: R -> R) { forall a :: ahead(a) == a }

  ghost predicate LeadsBack<R>(g: Ring<R>, w: R, turn: R -> R) { g.mul(w, turn(w)) == g.one }

  ghost predicate IsScale<R>(g: Ring<R>, m: nat, factor: R) { g.mul(Times(g, Two(m) * Two(m)), factor) == g.one }

  /** SlaveStart: transform forward, then back with the same tables, turned, and the factor 1/N: the
      matrix is as it was. */
  method ForwardAndBack<R(!new)>(ghost t: Job<R>, g: Ring<R>, ahead: R -> R, turn: R -> R, factor: R, u: seq<R>, u2: array2<R>,
                                 x: array2<R>, s: array2<R>, m: nat, procs: nat, rows: nat, cacheLines: nat)
    requires ValidJob(t) && g == t.g && m == t.m && CanGoBack(g, t.w, m, ahead, turn, factor)
    requires Shape(t, x) && Shape(t, s) && Shape(t, u2) && x != s && u2 != s && u2 != x
    requires IsRowTable(t, ahead, u) && IsTwiddles(t, ahead, u2) && HoldsInput(t, x)
    requires rows > 0 && Two(m) == procs * rows && cacheLines > 0 && Covered(rows, cacheLines) == rows
    modifies x, s
    ensures HoldsInput(t, x)
  {
    ghost var v := turn(t.w);
    BackRoot(t, v);
    FFT1D(t, g, ahead, u, u2, x, s, m, None, procs, rows, cacheLines, true);
    ForwardIsInput(t, v, x);
    BackRowTable(t, ahead, turn, u);
    BackTwiddles(t, ahead, turn, u2);
    FFT1D(BackJob(t, v), g, turn, u, u2, x, s, m, Some(factor), procs, rows, cacheLines, true);
    BackIsOriginal(t, v, factor, x);
  }
}
