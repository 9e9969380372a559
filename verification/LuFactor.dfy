/** LU factorization without pivoting: the factors, and the in-place kernels.

    Elements are exact reals.  Element (i, j) of a matrix of order n lives at a[i, j]; a block
    is a range of rows and a range of columns. */
module LuFactor {

  type Matrix = (nat, nat) -> real

  function Min(a: nat, b: nat): nat { if a < b then a else b }

  function Max(a: nat, b: nat): nat { if a < b then b else a }

  // -------------------------------------------------------------------------------------
  // The factors: column by column, L on and below the diagonal, unit-upper U above it

  /** Element (i, j) after the first t elimination steps, t at most min(i, j). */
  ghost function Partial(A: Matrix, i: nat, j: nat, t: nat): real
    requires t <= Min(i, j)
    decreases t, 0
  {
    if t == 0 then A(i, j)
    else Partial(A, i, j, t - 1) - Factor(A, i, t - 1) * Factor(A, t - 1, j)
  }

  /** The element of L or U that ends up at (i, j). */
  ghost function Factor(A: Matrix, i: nat, j: nat): real
    decreases Min(i, j), if i < j then 2 else 1
  {
    if i >= j then Partial(A, i, j, j)
    else if Factor(A, i, i) == 0.0 then 0.0
    else Partial(A, i, j, i) / Factor(A, i, i)
  }

  /** Element (i, j) after t elimination steps. */
  ghost function Stage(A: Matrix, i: nat, j: nat, t: nat): real
  {
    if t <= Min(i, j) then Partial(A, i, j, t) else Factor(A, i, j)
  }

  lemma StageStart(A: Matrix, i: nat, j: nat)
    ensures Stage(A, i, j, 0) == A(i, j)
  {
  }

  /** Step k changes the elements right of and below the pivot. */
  lemma StageInner(A: Matrix, i: nat, j: nat, k: nat)
    requires k < i && k < j
    ensures Stage(A, i, j, k + 1) == Stage(A, i, j, k) - Factor(A, i, k) * Factor(A, k, j)
  {
  }

  /** Step k divides row k by the pivot. */
  lemma StageRow(A: Matrix, k: nat, j: nat)
    requires k < j && Factor(A, k, k) != 0.0
    ensures Stage(A, k, j, k + 1) == Stage(A, k, j, k) / Factor(A, k, k)
  {
  }

  /** An element has its final value once its row or its column has been passed. */
  lemma StageFinal(A: Matrix, i: nat, j: nat, t: nat)
    requires (j <= i && j <= t) || (i < j && i < t)
    ensures Stage(A, i, j, t) == Factor(A, i, j)
  {
  }

  ghost function Lower(A: Matrix, i: nat, m: nat): real { if m <= i then Factor(A, i, m) else 0.0 }

  ghost function Upper(A: Matrix, m: nat, j: nat): real
  {
    if m == j then 1.0 else if m < j then Factor(A, m, j) else 0.0
  }

  /** The first t terms of element (i, j) of the product L*U. */
  ghost function Product(A: Matrix, i: nat, j: nat, t: nat): real
  {
    if t == 0 then 0.0 else Product(A, i, j, t - 1) + Lower(A, i, t - 1) * Upper(A, t - 1, j)
  }

  lemma {:induction false} ProductBelow(A: Matrix, i: nat, j: nat, t: nat)
    requires t <= Min(i, j)
    ensures Product(A, i, j, t) == A(i, j) - Partial(A, i, j, t)
  {
    if t > 0 { ProductBelow(A, i, j, t - 1); }
  }

  lemma {:induction false} ProductAbove(A: Matrix, i: nat, j: nat, t: nat)
    requires Min(i, j) < t && Factor(A, Min(i, j), Min(i, j)) != 0.0
    ensures Product(A, i, j, t) == A(i, j)
    decreases t
  {
    var m := Min(i, j);
    if t == m + 1 {
      ProductBelow(A, i, j, m);
      if i < j { assert Partial(A, i, j, i) == Factor(A, i, i) * Factor(A, i, j); }
    } else {
      ProductAbove(A, i, j, t - 1);
      assert Lower(A, i, t - 1) == 0.0 || Upper(A, t - 1, j) == 0.0;
    }
  }

  /** L times U is the matrix, when no pivot is zero. */
  lemma FactorsMultiplyToMatrix(A: Matrix, n: nat, i: nat, j: nat)
    requires i < n && j < n && forall k :: 0 <= k < n ==> Factor(A, k, k) != 0.0
    ensures Product(A, i, j, n) == A(i, j)
    ensures (i < j ==> Lower(A, i, j) == 0.0) && Upper(A, i, i) == 1.0 && (j < i ==> Upper(A, i, j) == 0.0)
  {
    ProductAbove(A, i, j, n);
  }

  // -------------------------------------------------------------------------------------
  // The kernels

  ghost predicate At(A: Matrix, a: array2<real>, i: nat, j: nat, t: nat)
    requires i < a.Length0 && j < a.Length1
    reads a
  {
    a[i, j] == Stage(A, i, j, t)
  }

  /** Rows i0..i1-1 and columns j0..j1-1 are at stage t. */
  ghost predicate BlockAt(A: Matrix, a: array2<real>, i0: nat, i1: nat, j0: nat, j1: nat, t: nat)
    requires i1 <= a.Length0 && j1 <= a.Length1
    reads a
  {
    forall i, j :: i0 <= i < i1 && j0 <= j < j1 ==> At(A, a, i, j, t)
  }

  ghost predicate PivotsOk(A: Matrix, n: nat) {
    forall k :: 0 <= k < n ==> Factor(A, k, k) != 0.0
  }

  /** Add alpha times rows i0..i1-1 of column k to the same rows of column j. */
  method Daxpy(a: array2<real>, i0: nat, i1: nat, j: nat, k: nat, alpha: real)
    requires i0 <= i1 <= a.Length0 && j < a.Length1 && k < a.Length1 && j != k
    modifies a
    ensures forall r, c :: 0 <= r < a.Length0 && 0 <= c < a.Length1 ==>
      a[r, c] == old(a[r, c]) + if c == j && i0 <= r < i1 then alpha * old(a[r, k]) else 0.0
  {
    for i := i0 to i1
      invariant forall r, c :: 0 <= r < a.Length0 && 0 <= c < a.Length1 ==>
        a[r, c] == old(a[r, c]) + if c == j && i0 <= r < i then alpha * old(a[r, k]) else 0.0
    {
      a[i, j] := a[i, j] + alpha * a[i, k];
    }
  }

  /** Only rows i0..i1-1 of columns j0..j1-1 have changed. */
  twostate predicate OnlyBlock(a: array2<real>, i0: nat, i1: nat, j0: nat, j1: nat)
    reads a
  {
    forall r, c :: 0 <= r < a.Length0 && 0 <= c < a.Length1 && !(i0 <= r < i1 && j0 <= c < j1) ==> a[r, c] == old(a[r, c])
  }

  /** Element (r, c) is at stage k + 1 if its column is below j, at stage k otherwise. */
  ghost predicate Ahead(A: Matrix, a: array2<real>, k: nat, j: nat, r: nat, c: nat)
    requires r < a.Length0 && c < a.Length1
    reads a
  {
    a[r, c] == Stage(A, r, c, if c < j then k + 1 else k)
  }

  /** In the block, the columns below j are one step ahead of the others. */
  ghost predicate MixedAt(A: Matrix, a: array2<real>, i0: nat, i1: nat, j0: nat, j1: nat, k: nat, j: nat)
    requires i1 <= a.Length0 && j1 <= a.Length1
    reads a
  {
    forall r, c :: i0 <= r < i1 && j0 <= c < j1 ==> Ahead(A, a, k, j, r, c)
  }

  /** Columns up to the pivot do not change in step k, so the step may start at column j. */
  lemma StepBegins(A: Matrix, a: array2<real>, i0: nat, i1: nat, j0: nat, j1: nat, k: nat, j: nat)
    requires i1 <= a.Length0 && j1 <= a.Length1 && j <= Max(k + 1, j0)
    requires BlockAt(A, a, i0, i1, j0, j1, k)
    ensures MixedAt(A, a, i0, i1, j0, j1, k, j)
  {
    forall r, c | i0 <= r < i1 && j0 <= c < j1 ensures Ahead(A, a, k, j, r, c) {
      assert At(A, a, r, c, k);
      if c <= k { StageFinal(A, r, c, k); StageFinal(A, r, c, k + 1); }
    }
  }

  lemma StepEnds(A: Matrix, a: array2<real>, i0: nat, i1: nat, j0: nat, j1: nat, k: nat)
    requires i1 <= a.Length0 && j1 <= a.Length1 && MixedAt(A, a, i0, i1, j0, j1, k, j1)
    ensures BlockAt(A, a, i0, i1, j0, j1, k + 1)
  {
    var next := k + 1;
    forall r, c | i0 <= r < i1 && j0 <= c < j1 ensures At(A, a, r, c, next) {
      assert Ahead(A, a, k, j1, r, c);
    }
  }

  /** lu0: factor the diagonal block k0..k1-1 in place. */
  method Lu0(ghost A: Matrix, a: array2<real>, k0: nat, k1: nat)
    requires k0 <= k1 <= Min(a.Length0, a.Length1) && PivotsOk(A, k1)
    requires BlockAt(A, a, k0, k1, k0, k1, k0)
    modifies a
    ensures BlockAt(A, a, k0, k1, k0, k1, k1)
    ensures OnlyBlock(a, k0, k1, k0, k1)
  {
    for k := k0 to k1
      invariant BlockAt(A, a, k0, k1, k0, k1, k)
      invariant OnlyBlock(a, k0, k1, k0, k1)
    {
      StepBegins(A, a, k0, k1, k0, k1, k, k + 1);
      for j := k + 1 to k1
        invariant MixedAt(A, a, k0, k1, k0, k1, k, j)
        invariant OnlyBlock(a, k0, k1, k0, k1)
      {
        forall r | k <= r < k1 ensures a[r, k] == Factor(A, r, k) {
          assert Ahead(A, a, k, j, r, k);
          StageFinal(A, r, k, k + 1);
        }
        EliminateColumn(A, a, k0, k1, k0, k1, k, j);
      }
      StepEnds(A, a, k0, k1, k0, k1, k);
    }
  }

  /** Scale element (k, j) by the pivot and subtract its multiple of column k below row k. */
  method EliminateColumn(ghost A: Matrix, a: array2<real>, i0: nat, i1: nat, j0: nat, j1: nat, k: nat, j: nat)
    requires i0 <= k < i1 <= a.Length0 && j0 <= j < j1 <= a.Length1 && k < j && k < a.Length1
    requires PivotsOk(A, i1) && MixedAt(A, a, i0, i1, j0, j1, k, j)
    requires forall r :: k <= r < i1 ==> a[r, k] == Factor(A, r, k)
    modifies a
    ensures MixedAt(A, a, i0, i1, j0, j1, k, j + 1)
    ensures OnlyBlock(a, k, i1, j, j + 1)
  {
    assert Ahead(A, a, k, j, k, j);
    StageRow(A, k, j);
    StageFinal(A, k, j, k + 1);
    a[k, j] := a[k, j] / a[k, k];
    assert a[k, j] == Factor(A, k, j);
    var alpha := -a[k, j];
    Daxpy(a, k + 1, i1, j, k, alpha);
    var next := j + 1;
    forall r, c | i0 <= r < i1 && j0 <= c < j1 ensures Ahead(A, a, k, next, r, c) {
      assert old(Ahead(A, a, k, j, r, c));
      if c == j { ColumnElement(A, r, j, k); }
    }
  }

  /** The effect of step k on one element of a column right of the pivot. */
  lemma ColumnElement(A: Matrix, r: nat, j: nat, k: nat)
    requires k < j
    ensures r < k ==> Stage(A, r, j, k + 1) == Stage(A, r, j, k)
    ensures r == k ==> Stage(A, r, j, k + 1) == Factor(A, k, j)
    ensures r > k ==> Stage(A, r, j, k + 1) == Stage(A, r, j, k) + -Factor(A, k, j) * Factor(A, r, k)
  {
    if r < k { StageFinal(A, r, j, k); StageFinal(A, r, j, k + 1); }
    else if r > k { StageInner(A, r, j, k); }
    else { StageFinal(A, r, j, k + 1); }
  }

  /** bdiv: divide the block of rows i0..i1-1 in columns k0..k1-1 by the diagonal block. */
  method Bdiv(ghost A: Matrix, a: array2<real>, i0: nat, i1: nat, k0: nat, k1: nat)
    requires k1 <= i0 <= i1 <= a.Length0 && k0 <= k1 <= Min(a.Length0, a.Length1)
    requires BlockAt(A, a, i0, i1, k0, k1, k0) && BlockAt(A, a, k0, k1, k0, k1, k1)
    modifies a
    ensures BlockAt(A, a, i0, i1, k0, k1, k1)
    ensures OnlyBlock(a, i0, i1, k0, k1)
  {
    for k := k0 to k1
      invariant BlockAt(A, a, i0, i1, k0, k1, k)
      invariant OnlyBlock(a, i0, i1, k0, k1)
    {
      StepBegins(A, a, i0, i1, k0, k1, k, k + 1);
      for j := k + 1 to k1
        invariant MixedAt(A, a, i0, i1, k0, k1, k, j)
        invariant OnlyBlock(a, i0, i1, k0, k1)
      {
        assert a[k, j] == Factor(A, k, j) by {
          assert old(At(A, a, k, j, k1));
          StageFinal(A, k, j, k1);
        }
        forall r, c | i0 <= r < i1 && k <= c < k + 1 ensures At(A, a, r, c, k) {
          assert Ahead(A, a, k, j, r, k);
          StageFinal(A, r, k, k);
          StageFinal(A, r, k, k + 1);
        }
        SubtractColumn(A, a, i0, i1, k0, k1, k, j, -a[k, j]);
      }
      StepEnds(A, a, i0, i1, k0, k1, k);
    }
  }

  /** Subtract the multiple of column k from column j in rows below the pivot row. */
  method SubtractColumn(ghost A: Matrix, a: array2<real>, i0: nat, i1: nat, ghost j0: nat, ghost j1: nat, k: nat, j: nat, alpha: real)
    requires k < i0 <= i1 <= a.Length0 && j0 <= j < j1 <= a.Length1 && k < j
    requires MixedAt(A, a, i0, i1, j0, j1, k, j) && alpha == -Factor(A, k, j)
    requires BlockAt(A, a, i0, i1, k, k + 1, k)
    modifies a
    ensures MixedAt(A, a, i0, i1, j0, j1, k, j + 1)
    ensures OnlyBlock(a, i0, i1, j, j + 1)
  {
    Daxpy(a, i0, i1, j, k, alpha);
    var next := j + 1;
    forall r, c | i0 <= r < i1 && j0 <= c < j1 ensures Ahead(A, a, k, next, r, c) {
      assert old(Ahead(A, a, k, j, r, c));
      if c == j {
        ColumnElement(A, r, j, k);
        assert old(At(A, a, r, k, k));
        StageFinal(A, r, k, k);
      }
    }
  }

  /** bmodd: apply the diagonal block to the block of columns j0..j1-1 in rows k0..k1-1. */
  method Bmodd(ghost A: Matrix, a: array2<real>, j0: nat, j1: nat, k0: nat, k1: nat)
    requires k1 <= j0 <= j1 <= a.Length1 && k0 <= k1 <= Min(a.Length0, a.Length1) && PivotsOk(A, k1)
    requires BlockAt(A, a, k0, k1, j0, j1, k0) && BlockAt(A, a, k0, k1, k0, k1, k1)
    modifies a
    ensures BlockAt(A, a, k0, k1, j0, j1, k1)
    ensures OnlyBlock(a, k0, k1, j0, j1)
  {
    for k := k0 to k1
      invariant BlockAt(A, a, k0, k1, j0, j1, k)
      invariant OnlyBlock(a, k0, k1, j0, j1)
    {
      StepBegins(A, a, k0, k1, j0, j1, k, j0);
      for j := j0 to j1
        invariant MixedAt(A, a, k0, k1, j0, j1, k, j)
        invariant OnlyBlock(a, k0, k1, j0, j1)
      {
        forall r | k <= r < k1 ensures a[r, k] == Factor(A, r, k) {
          assert old(At(A, a, r, k, k1));
          StageFinal(A, r, k, k1);
        }
        EliminateColumn(A, a, k0, k1, j0, j1, k, j);
      }
      StepEnds(A, a, k0, k1, j0, j1, k);
    }
  }

  /** bmod: subtract from block (i, j) the product of block (i, k) and block (k, j). */
  method Bmod(ghost A: Matrix, a: array2<real>, i0: nat, i1: nat, j0: nat, j1: nat, k0: nat, k1: nat)
    requires k0 <= k1 <= i0 <= i1 <= a.Length0 && k1 <= j0 <= j1 <= a.Length1
    requires BlockAt(A, a, i0, i1, j0, j1, k0)
    requires BlockAt(A, a, i0, i1, k0, k1, k1) && BlockAt(A, a, k0, k1, j0, j1, k1)
    modifies a
    ensures BlockAt(A, a, i0, i1, j0, j1, k1)
    ensures OnlyBlock(a, i0, i1, j0, j1)
  {
    for k := k0 to k1
      invariant BlockAt(A, a, i0, i1, j0, j1, k)
      invariant OnlyBlock(a, i0, i1, j0, j1)
    {
      StepBegins(A, a, i0, i1, j0, j1, k, j0);
      for j := j0 to j1
        invariant MixedAt(A, a, i0, i1, j0, j1, k, j)
        invariant OnlyBlock(a, i0, i1, j0, j1)
      {
        assert a[k, j] == Factor(A, k, j) by {
          assert old(At(A, a, k, j, k1));
          StageFinal(A, k, j, k1);
        }
        forall r, c | i0 <= r < i1 && k <= c < k + 1 ensures At(A, a, r, c, k) {
          assert old(At(A, a, r, k, k1));
          StageFinal(A, r, k, k1);
          StageFinal(A, r, k, k);
        }
        SubtractColumn(A, a, i0, i1, j0, j1, k, j, -a[k, j]);
      }
      StepEnds(A, a, i0, i1, j0, j1, k);
    }
  }
}
