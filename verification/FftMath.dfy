/** The discrete Fourier transform over a commutative ring: halving, the six-step form, inversion.

    Element k of the transform of x with root w is the value at w^k of the polynomial with
    coefficients x. */
module FftMath {
  import opened FftRing
  import opened Arithmetic

  /** The value at z of the polynomial with coefficients x(0), ..., x(n - 1). */
  ghost function Eval<R>(g: Ring<R>, x: nat -> R, z: R, n: nat): R {
    if n == 0 then g.zero else g.add(Eval(g, x, z, n - 1), g.mul(x(n - 1), Pow(g, z, n - 1)))
  }

  /** Element k of the transform of n elements. */
  ghost function Dft<R>(g: Ring<R>, x: nat -> R, w: R, n: nat, k: nat): R { Eval(g, x, Pow(g, w, k), n) }

  lemma {:induction false} EvalSame<R(!new)>(g: Ring<R>, x: nat -> R, y: nat -> R, z: R, n: nat)
    requires forall i: nat :: i < n ==> x(i) == y(i)
    ensures Eval(g, x, z, n) == Eval(g, y, z, n)
  {
    if n > 0 { EvalSame(g, x, y, z, n - 1); }
  }

  // -------------------------------------------------------------------------------------
  // Halving

  lemma LastTwoTerms<R(!new)>(g: Ring<R>, x: nat -> R, z: R, m: nat)
    ensures Eval(g, x, z, 2 * m + 2) ==
            g.add(g.add(Eval(g, x, z, 2 * m), g.mul(x(2 * m), Pow(g, z, 2 * m))), g.mul(x(2 * m + 1), Pow(g, z, 2 * m + 1)))
  {
    assert Eval(g, x, z, 2 * m + 1) == g.add(Eval(g, x, z, 2 * m), g.mul(x(2 * m), Pow(g, z, 2 * m)));
  }

  ghost predicate Splits<R>(g: Ring<R>, x: nat -> R, even: nat -> R, odd: nat -> R, z: R, n: nat) {
    Eval(g, x, z, 2 * n) == g.add(Eval(g, even, g.mul(z, z), n), g.mul(z, Eval(g, odd, g.mul(z, z), n)))
  }

  lemma NextHalves<R(!new)>(g: Ring<R>, even: nat -> R, odd: nat -> R, z: R, m: nat, v: R)
    requires Laws(g) && v == g.add(Eval(g, even, g.mul(z, z), m), g.mul(z, Eval(g, odd, g.mul(z, z), m)))
    ensures g.add(g.add(v, g.mul(even(m), Pow(g, z, 2 * m))), g.mul(odd(m), Pow(g, z, 2 * m + 1))) ==
            g.add(Eval(g, even, g.mul(z, z), m + 1), g.mul(z, Eval(g, odd, g.mul(z, z), m + 1)))
  {
    var zz := g.mul(z, z);
    EvenAndOddTerm(g, even(m), odd(m), z, m);
    Regroup(g, Eval(g, even, zz, m), Eval(g, odd, zz, m), g.mul(even(m), Pow(g, zz, m)), g.mul(odd(m), Pow(g, zz, m)), z);
  }

  lemma SplitsNext<R(!new)>(g: Ring<R>, x: nat -> R, even: nat -> R, odd: nat -> R, z: R, m: nat)
    requires Laws(g) && Splits(g, x, even, odd, z, m) && even(m) == x(2 * m) && odd(m) == x(2 * m + 1)
    ensures Splits(g, x, even, odd, z, m + 1)
  {
    LastTwoTerms(g, x, z, m);
    NextHalves(g, even, odd, z, m, Eval(g, x, z, 2 * m));
    assert 2 * m + 2 == 2 * (m + 1);
  }

  /** A polynomial of 2n terms from its even and its odd part. */
  lemma {:induction false} EvalHalves<R(!new)>(g: Ring<R>, x: nat -> R, even: nat -> R, odd: nat -> R, z: R, n: nat)
    requires Laws(g) && forall i: nat :: i < n ==> even(i) == x(2 * i) && odd(i) == x(2 * i + 1)
    ensures Splits(g, x, even, odd, z, n)
  {
    if n == 0 {
      MulZero(g, z);
    } else {
      EvalHalves(g, x, even, odd, z, n - 1);
      SplitsNext(g, x, even, odd, z, n - 1);
    }
  }

  lemma EvenAndOddTerm<R(!new)>(g: Ring<R>, a: R, b: R, z: R, m: nat)
    requires Laws(g)
    ensures g.mul(a, Pow(g, z, 2 * m)) == g.mul(a, Pow(g, g.mul(z, z), m))
    ensures g.mul(b, Pow(g, z, 2 * m + 1)) == g.mul(z, g.mul(b, Pow(g, g.mul(z, z), m)))
  {
    PowTimes(g, z, 2, m);
    assert Pow(g, z, 2) == g.mul(Pow(g, z, 1), z) && Pow(g, z, 1) == g.mul(g.one, z) == g.mul(z, g.one);
    var p := Pow(g, z, 2 * m);
    MulAssoc(g, b, z, p);
    MulAssoc(g, z, b, p);
  }

  lemma Regroup<R(!new)>(g: Ring<R>, a: R, b: R, s: R, t: R, u: R)
    requires Laws(g)
    ensures g.add(g.add(g.add(a, g.mul(u, b)), s), g.mul(u, t)) == g.add(g.add(a, s), g.mul(u, g.add(b, t)))
  {
    Distribute(g, u, b, t);
    AddAssoc(g, g.add(a, g.mul(u, b)), s, g.mul(u, t));
    AddSwap(g, a, g.mul(u, b), s, g.mul(u, t));
  }

  lemma NegSquare<R(!new)>(g: Ring<R>, z: R)
    requires Laws(g)
    ensures g.mul(g.neg(z), g.neg(z)) == g.mul(z, z)
  {
    MulNeg(g, g.neg(z), z);
    MulNeg(g, z, z);
    NegNeg(g, g.mul(z, z));
  }

  /** The butterfly: the values at z and at -z from the two halves at the square of z. */
  lemma Butterfly<R(!new)>(g: Ring<R>, x: nat -> R, even: nat -> R, odd: nat -> R, z: R, n: nat)
    requires Laws(g) && forall i: nat :: i < n ==> even(i) == x(2 * i) && odd(i) == x(2 * i + 1)
    ensures var e, t := Eval(g, even, g.mul(z, z), n), g.mul(z, Eval(g, odd, g.mul(z, z), n));
      Eval(g, x, z, 2 * n) == g.add(e, t) && Eval(g, x, g.neg(z), 2 * n) == Minus(g, e, t)
  {
    EvalHalves(g, x, even, odd, z, n);
    EvalHalves(g, x, even, odd, g.neg(z), n);
    NegSquare(g, z);
    MulNeg(g, Eval(g, odd, g.mul(z, z), n), z);
  }

  /** The points of a transform of order 2^(m+1): half-way round they change sign, and their squares
      are the points of order 2^m. */
  lemma RootPoints<R(!new)>(g: Ring<R>, w: R, m: nat, j: nat)
    requires Laws(g) && IsRoot(g, w, m + 1)
    ensures IsRoot(g, g.mul(w, w), m)
    ensures Pow(g, w, j + Two(m)) == g.neg(Pow(g, w, j))
    ensures Pow(g, g.mul(w, w), j) == g.mul(Pow(g, w, j), Pow(g, w, j))
  {
    RootPower(g, w, m + 1, 1);
    assert Two(1) == 2;
    assert Pow(g, w, 2) == g.mul(Pow(g, w, 1), w) && Pow(g, w, 1) == g.mul(g.one, w) == g.mul(w, g.one);
    PowAdd(g, w, j, Two(m));
    MulNeg(g, Pow(g, w, j), g.one);
    PowProduct(g, w, w, j);
  }

  // -------------------------------------------------------------------------------------
  // Double sums

  type Grid<!R> = (nat, nat) -> R

  ghost function RowSum<R>(g: Ring<R>, f: Grid<R>, row: nat, n: nat): R {
    if n == 0 then g.zero else g.add(RowSum(g, f, row, n - 1), f(row, n - 1))
  }

  ghost function ColumnSum<R>(g: Ring<R>, f: Grid<R>, column: nat, n: nat): R {
    if n == 0 then g.zero else g.add(ColumnSum(g, f, column, n - 1), f(n - 1, column))
  }

  ghost function ByRows<R>(g: Ring<R>, f: Grid<R>, rows: nat, columns: nat): R {
    if rows == 0 then g.zero else g.add(ByRows(g, f, rows - 1, columns), RowSum(g, f, rows - 1, columns))
  }

  ghost function ByColumns<R>(g: Ring<R>, f: Grid<R>, rows: nat, columns: nat): R {
    if columns == 0 then g.zero else g.add(ByColumns(g, f, rows, columns - 1), ColumnSum(g, f, columns - 1, rows))
  }

  lemma {:induction false} ByColumnsNext<R(!new)>(g: Ring<R>, f: Grid<R>, rows: nat, columns: nat)
    requires Laws(g)
    ensures ByColumns(g, f, rows + 1, columns) == g.add(ByColumns(g, f, rows, columns), RowSum(g, f, rows, columns))
  {
    if columns > 0 {
      ByColumnsNext(g, f, rows, columns - 1);
      AddSwap(g, ByColumns(g, f, rows, columns - 1), RowSum(g, f, rows, columns - 1),
              ColumnSum(g, f, columns - 1, rows), f(rows, columns - 1));
    }
  }

  lemma {:induction false} ByColumnsOfNoRows<R(!new)>(g: Ring<R>, f: Grid<R>, columns: nat)
    requires Laws(g)
    ensures ByColumns(g, f, 0, columns) == g.zero
  {
    if columns > 0 { ByColumnsOfNoRows(g, f, columns - 1); }
  }

  /** The order of summation does not matter. */
  lemma {:induction false} SumSwap<R(!new)>(g: Ring<R>, f: Grid<R>, rows: nat, columns: nat)
    requires Laws(g)
    ensures ByRows(g, f, rows, columns) == ByColumns(g, f, rows, columns)
  {
    if rows == 0 { ByColumnsOfNoRows(g, f, columns); }
    else {
      SumSwap(g, f, rows - 1, columns);
      ByColumnsNext(g, f, rows - 1, columns);
    }
  }

  /** Rows that are the terms of a polynomial add up to its value. */
  lemma {:induction false} RowsAreEval<R(!new)>(g: Ring<R>, f: Grid<R>, y: nat -> R, u: R, n: nat, rows: nat)
    requires forall k: nat :: k < rows ==> RowSum(g, f, k, n) == g.mul(y(k), Pow(g, u, k))
    ensures ByRows(g, f, rows, n) == Eval(g, y, u, rows)
  {
    if rows > 0 { RowsAreEval(g, f, y, u, n, rows - 1); }
  }

  lemma {:induction false} ColumnsAreEval<R(!new)>(g: Ring<R>, f: Grid<R>, y: nat -> R, u: R, n: nat, columns: nat)
    requires forall k: nat :: k < columns ==> ColumnSum(g, f, k, n) == g.mul(y(k), Pow(g, u, k))
    ensures ByColumns(g, f, n, columns) == Eval(g, y, u, columns)
  {
    if columns > 0 { ColumnsAreEval(g, f, y, u, n, columns - 1); }
  }

  // -------------------------------------------------------------------------------------
  // Six steps

  /** The terms of the transform of x at z, laid out in rows of n terms. */
  ghost function Terms<R>(g: Ring<R>, x: nat -> R, z: R, n: nat): Grid<R> {
    (b: nat, a: nat) => g.mul(x(b * n + a), Pow(g, z, b * n + a))
  }

  lemma {:induction false} EvalRow<R(!new)>(g: Ring<R>, x: nat -> R, z: R, n: nat, b: nat, a: nat)
    requires Laws(g)
    ensures Eval(g, x, z, b * n + a) == g.add(Eval(g, x, z, b * n), RowSum(g, Terms(g, x, z, n), b, a))
  {
    if a > 0 {
      EvalRow(g, x, z, n, b, a - 1);
      assert b * n + a - 1 == b * n + (a - 1);
      AddAssoc(g, Eval(g, x, z, b * n), RowSum(g, Terms(g, x, z, n), b, a - 1), g.mul(x(b * n + (a - 1)), Pow(g, z, b * n + (a - 1))));
    }
  }

  lemma {:induction false} EvalRows<R(!new)>(g: Ring<R>, x: nat -> R, z: R, n: nat, b: nat)
    requires Laws(g)
    ensures Eval(g, x, z, b * n) == ByRows(g, Terms(g, x, z, n), b, n)
  {
    if b == 0 { assert b * n == 0; }
    else {
      EvalRows(g, x, z, n, b - 1);
      EvalRow(g, x, z, n, b - 1, n);
      assert (b - 1) * n + n == b * n;
    }
  }

  /** Column a of x laid out in rows of n. */
  ghost function Column<R>(x: nat -> R, n: nat, a: nat): nat -> R { (b: nat) => x(b * n + a) }

  lemma {:induction false} TermsColumn<R(!new)>(g: Ring<R>, x: nat -> R, z: R, n: nat, a: nat, rows: nat)
    requires Laws(g)
    ensures ColumnSum(g, Terms(g, x, z, n), a, rows) == g.mul(Eval(g, Column(x, n, a), Pow(g, z, n), rows), Pow(g, z, a))
  {
    if rows == 0 {
      MulZero(g, Pow(g, z, a));
    } else {
      var b := rows - 1;
      TermsColumn(g, x, z, n, a, b);
      TermOfColumn(g, x, z, n, a, b);
      DistributeRight(g, Eval(g, Column(x, n, a), Pow(g, z, n), b),
                      g.mul(Column(x, n, a)(b), Pow(g, Pow(g, z, n), b)), Pow(g, z, a));
    }
  }

  lemma TermOfColumn<R(!new)>(g: Ring<R>, x: nat -> R, z: R, n: nat, a: nat, b: nat)
    requires Laws(g)
    ensures Terms(g, x, z, n)(b, a) == g.mul(g.mul(Column(x, n, a)(b), Pow(g, Pow(g, z, n), b)), Pow(g, z, a))
  {
    PowTimes(g, z, n, b);
    assert n * b == b * n;
    PowAdd(g, z, b * n, a);
    MulAssoc(g, x(b * n + a), Pow(g, Pow(g, z, n), b), Pow(g, z, a));
  }

  lemma DistributeRight<R(!new)>(g: Ring<R>, a: R, b: R, c: R)
    requires Laws(g)
    ensures g.mul(g.add(a, b), c) == g.add(g.mul(a, c), g.mul(b, c))
  {
    Distribute(g, c, a, b);
  }

  /** Element c of the transform of column a with root w^n, times the twiddle factor w^(a c). */
  ghost function Twiddled<R>(g: Ring<R>, x: nat -> R, w: R, n: nat, c: nat): nat -> R {
    (a: nat) => g.mul(Dft(g, Column(x, n, a), Pow(g, w, n), n, c), Pow(g, w, a * c))
  }

  lemma PointToN<R(!new)>(g: Ring<R>, w: R, n: nat, c: nat, d: nat)
    requires Laws(g) && Pow(g, w, n * n) == g.one
    ensures Pow(g, Pow(g, w, d * n + c), n) == Pow(g, Pow(g, w, n), c)
  {
    PowTimes(g, w, d * n + c, n);
    assert (d * n + c) * n == (n * n) * d + n * c;
    PowReduce(g, w, n * n, d, n * c);
    PowTimes(g, w, n, c);
  }

  lemma PointToA<R(!new)>(g: Ring<R>, w: R, n: nat, c: nat, d: nat, a: nat)
    requires Laws(g)
    ensures Pow(g, Pow(g, w, d * n + c), a) == g.mul(Pow(g, w, a * c), Pow(g, Pow(g, Pow(g, w, n), d), a))
  {
    PowTimes(g, w, d * n + c, a);
    assert (d * n + c) * a == a * c + n * d * a;
    PowAdd(g, w, a * c, n * d * a);
    PowTimes(g, w, n * d, a);
    PowTimes(g, w, n, d);
  }

  lemma SixStepColumn<R(!new)>(g: Ring<R>, x: nat -> R, w: R, n: nat, c: nat, d: nat, a: nat)
    requires Laws(g) && Pow(g, w, n * n) == g.one
    ensures ColumnSum(g, Terms(g, x, Pow(g, w, d * n + c), n), a, n) ==
            g.mul(Twiddled(g, x, w, n, c)(a), Pow(g, Pow(g, Pow(g, w, n), d), a))
  {
    TermsColumn(g, x, Pow(g, w, d * n + c), n, a, n);
    TwiddledTerm(g, x, w, n, c, d, a);
  }

  lemma TwiddledTerm<R(!new)>(g: Ring<R>, x: nat -> R, w: R, n: nat, c: nat, d: nat, a: nat)
    requires Laws(g) && Pow(g, w, n * n) == g.one
    ensures var z := Pow(g, w, d * n + c);
      g.mul(Eval(g, Column(x, n, a), Pow(g, z, n), n), Pow(g, z, a)) ==
      g.mul(Twiddled(g, x, w, n, c)(a), Pow(g, Pow(g, Pow(g, w, n), d), a))
  {
    PointToN(g, w, n, c, d);
    PointToA(g, w, n, c, d, a);
    MulAssoc(g, Dft(g, Column(x, n, a), Pow(g, w, n), n, c), Pow(g, w, a * c), Pow(g, Pow(g, Pow(g, w, n), d), a));
  }

  /** The transform of n*n elements: transform the columns, twiddle, transform the rows. */
  lemma SixStep<R(!new)>(g: Ring<R>, x: nat -> R, w: R, n: nat, c: nat, d: nat)
    requires Laws(g) && Pow(g, w, n * n) == g.one
    ensures Dft(g, x, w, n * n, d * n + c) == Dft(g, Twiddled(g, x, w, n, c), Pow(g, w, n), n, d)
  {
    var z := Pow(g, w, d * n + c);
    EvalRows(g, x, z, n, n);
    SumSwap(g, Terms(g, x, z, n), n, n);
    var y, u := Twiddled(g, x, w, n, c), Pow(g, Pow(g, w, n), d);
    forall a: nat | a < n ensures ColumnSum(g, Terms(g, x, z, n), a, n) == g.mul(y(a), Pow(g, u, a)) {
      SixStepColumn(g, x, w, n, c, d, a);
    }
    ColumnsAreEval(g, Terms(g, x, z, n), y, u, n, n);
  }

  // -------------------------------------------------------------------------------------
  // Inversion

  /** The transform as a function of the index. */
  ghost function Transform<R>(g: Ring<R>, x: nat -> R, w: R, n: nat): nat -> R { (k: nat) => Dft(g, x, w, n, k) }

  /** Term j of element k of the transform, times the power for the back transform at u. */
  ghost function BackTerms<R>(g: Ring<R>, x: nat -> R, w: R, u: R): Grid<R> {
    (k: nat, j: nat) => g.mul(g.mul(x(j), Pow(g, Pow(g, w, k), j)), Pow(g, u, k))
  }

  lemma {:induction false} BackRow<R(!new)>(g: Ring<R>, x: nat -> R, w: R, u: R, k: nat, n: nat)
    requires Laws(g)
    ensures RowSum(g, BackTerms(g, x, w, u), k, n) == g.mul(Dft(g, x, w, n, k), Pow(g, u, k))
  {
    if n == 0 {
      MulZero(g, Pow(g, u, k));
    } else {
      BackRow(g, x, w, u, k, n - 1);
      DistributeRight(g, Dft(g, x, w, n - 1, k), g.mul(x(n - 1), Pow(g, Pow(g, w, k), n - 1)), Pow(g, u, k));
    }
  }

  lemma BackTerm<R(!new)>(g: Ring<R>, x: nat -> R, w: R, u: R, k: nat, j: nat)
    requires Laws(g)
    ensures BackTerms(g, x, w, u)(k, j) == g.mul(x(j), Pow(g, g.mul(Pow(g, w, j), u), k))
  {
    PowTimes(g, w, k, j);
    PowTimes(g, w, j, k);
    assert k * j == j * k;
    PowProduct(g, Pow(g, w, j), u, k);
    MulAssoc(g, x(j), Pow(g, Pow(g, w, j), k), Pow(g, u, k));
  }

  lemma {:induction false} BackColumn<R(!new)>(g: Ring<R>, x: nat -> R, w: R, u: R, j: nat, rows: nat)
    requires Laws(g)
    ensures ColumnSum(g, BackTerms(g, x, w, u), j, rows) == g.mul(x(j), Geometric(g, g.mul(Pow(g, w, j), u), rows))
  {
    var z := g.mul(Pow(g, w, j), u);
    if rows == 0 {
      MulZero(g, x(j));
    } else {
      var last := rows - 1;
      BackColumn(g, x, w, u, j, last);
      BackTerm(g, x, w, u, last, j);
      Distribute(g, x(j), Geometric(g, z, last), Pow(g, z, last));
      assert Geometric(g, z, rows) == g.add(Geometric(g, z, last), Pow(g, z, last));
      assert ColumnSum(g, BackTerms(g, x, w, u), j, rows) ==
             g.add(ColumnSum(g, BackTerms(g, x, w, u), j, last), g.mul(x(j), Pow(g, z, last)));
    }
  }

  /** Going back l steps is going on n - l steps. */
  lemma InversePower<R(!new)>(g: Ring<R>, w: R, v: R, n: nat, l: nat)
    requires Laws(g) && g.mul(w, v) == g.one && Pow(g, w, n) == g.one && l <= n
    ensures Pow(g, v, l) == Pow(g, w, n - l)
  {
    PowAdd(g, w, n - l, l);
    PowProduct(g, w, v, l);
    PowOne(g, l);
    MulAssoc(g, Pow(g, w, n - l), Pow(g, w, l), Pow(g, v, l));
    assert g.mul(g.one, Pow(g, v, l)) == g.mul(Pow(g, v, l), g.one);
  }

  /** The powers of w^j v^l add up to n when j is l, and to zero otherwise. */
  lemma Orthogonal<R(!new)>(g: Ring<R>, w: R, v: R, m: nat, j: nat, l: nat)
    requires Laws(g) && IsRoot(g, w, m) && g.mul(w, v) == g.one && j < Two(m) && l < Two(m)
    ensures Geometric(g, g.mul(Pow(g, w, j), Pow(g, v, l)), Two(m)) == if j == l then Times(g, Two(m)) else g.zero
  {
    var n := Two(m);
    if j == l {
      PowProduct(g, w, v, l);
      PowOne(g, l);
      GeometricOfOne(g, n);
    } else {
      FullTurn(g, w, m);
      InversePower(g, w, v, n, l);
      PowAdd(g, w, j, n - l);
      NotFullTurn(j, l, n);
      GeometricIsZero(g, w, m, j + (n - l));
    }
  }

  lemma NotFullTurn(j: nat, l: nat, n: nat)
    requires j < n && l < n && j != l
    ensures (j + (n - l)) % n != 0
  {
    if j > l { QuotientUnique(j + (n - l), 1, n, j - l); } else { QuotientUnique(j + (n - l), 0, n, j + (n - l)); }
  }

  lemma {:induction false} BackColumns<R(!new)>(g: Ring<R>, x: nat -> R, w: R, v: R, m: nat, l: nat, columns: nat)
    requires Laws(g) && IsRoot(g, w, m) && g.mul(w, v) == g.one && l < Two(m) && columns <= Two(m)
    ensures ByColumns(g, BackTerms(g, x, w, Pow(g, v, l)), Two(m), columns) ==
            if l < columns then g.mul(x(l), Times(g, Two(m))) else g.zero
  {
    if columns > 0 {
      var j := columns - 1;
      BackColumns(g, x, w, v, m, l, j);
      BackColumn(g, x, w, Pow(g, v, l), j, Two(m));
      Orthogonal(g, w, v, m, j, l);
      MulZero(g, x(j));
      var t := g.mul(x(l), Times(g, Two(m)));
      assert g.add(g.zero, t) == g.add(t, g.zero);
    }
  }

  /** Transforming back gives every element times the number of elements. */
  lemma Inversion<R(!new)>(g: Ring<R>, x: nat -> R, w: R, v: R, m: nat, l: nat)
    requires Laws(g) && IsRoot(g, w, m) && g.mul(w, v) == g.one && l < Two(m)
    ensures Dft(g, Transform(g, x, w, Two(m)), v, Two(m), l) == g.mul(x(l), Times(g, Two(m)))
  {
    var n, u := Two(m), Pow(g, v, l);
    forall k: nat | k < n ensures RowSum(g, BackTerms(g, x, w, u), k, n) == g.mul(Transform(g, x, w, n)(k), Pow(g, u, k)) {
      BackRow(g, x, w, u, k, n);
    }
    RowsAreEval(g, BackTerms(g, x, w, u), Transform(g, x, w, n), u, n, n);
    SumSwap(g, BackTerms(g, x, w, u), n, n);
    BackColumns(g, x, w, v, m, l, n);
  }
}
