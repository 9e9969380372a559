/** Complex numbers with exact components: a ring in which the transforms work, forward and back with
    the same tables. */
module FftComplex {
  import opened Arithmetic
  import opened FftRing
  import opened FftSixStep

  datatype Complex = Complex(re: real, im: real)

  function Add(a: Complex, b: Complex): Complex { Complex(a.re + b.re, a.im + b.im) }

  function Mul(a: Complex, b: Complex): Complex { Complex(a.re * b.re - a.im * b.im, a.re * b.im + a.im * b.re) }

  function Neg(a: Complex): Complex { Complex(-a.re, -a.im) }

  /** An entry of a table, with its imaginary part multiplied by the direction. */
  function Directed(direction: int): Complex -> Complex { (a: Complex) => Complex(a.re, direction as real * a.im) }

  function Conj(a: Complex): Complex { Complex(a.re, -a.im) }

  function Numbers(): Ring<Complex> { Ring(Add, Mul, Neg, Complex(0.0, 0.0), Complex(1.0, 0.0)) }

  lemma MulAssociates(a: Complex, b: Complex, c: Complex)
    ensures Mul(Mul(a, b), c) == Mul(a, Mul(b, c))
  {
  }

  lemma MulDistributes(a: Complex, b: Complex, c: Complex)
    ensures Mul(a, Add(b, c)) == Add(Mul(a, b), Mul(a, c))
  {
  }

  lemma SumLaws()
    ensures var g := Numbers();
      && (forall a, b {:trigger g.add(a, b)} :: g.add(a, b) == g.add(b, a))
      && (forall a :: g.add(a, g.zero) == a)
      && (forall a {:trigger g.neg(a)} :: g.add(a, g.neg(a)) == g.zero)
      && (forall a, b, c {:trigger Tri(a, b, c)} :: Tri(a, b, c) ==> g.add(g.add(a, b), c) == g.add(a, g.add(b, c)))
  {
  }

  lemma ProductLaws()
    ensures var g := Numbers();
      && (forall a, b {:trigger g.mul(a, b)} :: g.mul(a, b) == g.mul(b, a))
      && (forall a :: g.mul(a, g.one) == a)
  {
  }

  lemma AssociativeLaw()
    ensures var g := Numbers();
      forall a, b, c {:trigger Tri(a, b, c)} :: Tri(a, b, c) ==> g.mul(g.mul(a, b), c) == g.mul(a, g.mul(b, c))
  {
    forall a, b, c | Tri<Complex>(a, b, c) ensures Mul(Mul(a, b), c) == Mul(a, Mul(b, c)) { MulAssociates(a, b, c); }
  }

  lemma DistributiveLaw()
    ensures var g := Numbers();
      forall a, b, c {:trigger Tri(a, b, c)} :: Tri(a, b, c) ==> g.mul(a, g.add(b, c)) == g.add(g.mul(a, b), g.mul(a, c))
  {
    forall a, b, c | Tri<Complex>(a, b, c) ensures Mul(a, Add(b, c)) == Add(Mul(a, b), Mul(a, c)) { MulDistributes(a, b, c); }
  }

  /** The laws hold. */
  lemma NumbersAreRing()
    ensures Laws(Numbers())
  {
    SumLaws();
    ProductLaws();
    AssociativeLaw();
    DistributiveLaw();
  }

  lemma ConjMul(a: Complex, b: Complex)
    ensures Conj(Mul(a, b)) == Mul(Conj(a), Conj(b))
  {
  }

  lemma Directions(a: Complex)
    ensures Directed(1)(a) == a && Directed(-1)(a) == Conj(a)
  {
  }

  /** Direction -1 conjugates the table. */
  lemma BackIsTurn()
    ensures IsTurn(Numbers(), Directed(-1))
  {
    forall a, b
      ensures Directed(-1)(Numbers().mul(a, b)) == Numbers().mul(Directed(-1)(a), Directed(-1)(b))
    {
      ConjMul(a, b);
      Directions(a);
      Directions(b);
      Directions(Mul(a, b));
    }
  }

  // -------------------------------------------------------------------------------------
  // Roots lie on the unit circle

  function Norm(a: Complex): real { a.re * a.re + a.im * a.im }

  lemma NormMul(a: Complex, b: Complex)
    ensures Norm(Mul(a, b)) == Norm(a) * Norm(b)
  {
    var p, q, r, s := a.re, a.im, b.re, b.im;
    assert (p * r - q * s) * (p * r - q * s) == p * r * (p * r) - 2.0 * (p * r * (q * s)) + q * s * (q * s);
    assert (p * s + q * r) * (p * s + q * r) == p * s * (p * s) + 2.0 * (p * s * (q * r)) + q * r * (q * r);
  }

  lemma SquareBelow(x: real)
    requires 0.0 <= x < 1.0
    ensures x * x < 1.0
  {
    assert x * x <= x * 1.0;
  }

  lemma SquareAbove(x: real)
    requires x > 1.0
    ensures x * x > 1.0
  {
    assert x * x >= x * 1.0;
  }

  lemma SquareIsOne(x: real)
    requires x >= 0.0 && x * x == 1.0
    ensures x == 1.0
  {
    if x < 1.0 { SquareBelow(x); } else if x > 1.0 { SquareAbove(x); }
  }

  lemma {:induction false} CircleDown(w: Complex, k: nat)
    requires Norm(Pow(Numbers(), w, Two(k))) == 1.0
    ensures Norm(w) == 1.0
  {
    if k == 0 {
      assert Pow(Numbers(), w, 1) == Mul(Pow(Numbers(), w, 0), w) == w;
    } else {
      var p := Pow(Numbers(), w, Two(k - 1));
      NumbersAreRing();
      PowAdd(Numbers(), w, Two(k - 1), Two(k - 1));
      NormMul(p, p);
      SquareIsOne(Norm(p));
      CircleDown(w, k - 1);
    }
  }

  /** The conjugate of a root is its inverse. */
  lemma ConjIsInverse(w: Complex, m: nat)
    requires IsRoot(Numbers(), w, m)
    ensures Norm(w) == 1.0 && Mul(w, Conj(w)) == Complex(1.0, 0.0)
  {
    if m > 0 { CircleDown(w, m - 1); }
  }

  // -------------------------------------------------------------------------------------
  // Scaling

  lemma {:induction false} TimesIsNumber(n: nat)
    ensures Times(Numbers(), n) == Complex(n as real, 0.0)
  {
    if n > 0 { TimesIsNumber(n - 1); }
  }

  lemma Reciprocal(n: real, a: real)
    requires n > 0.0
    ensures a * (1.0 / n) == a / n && n * (1.0 / n) == 1.0
  {
    assert 1.0 / n * n == 1.0;
  }

  /** Dividing both components by n is multiplying by 1/n. */
  lemma ScaleDivides(n: real, v: Complex)
    requires n > 0.0
    ensures Mul(v, Complex(1.0 / n, 0.0)) == Complex(v.re / n, v.im / n)
  {
    Reciprocal(n, v.re);
    Reciprocal(n, v.im);
  }

  /** The factor of the way back, 1/N. */
  function Factor(m: nat): Complex { Complex(1.0 / Two(m + m) as real, 0.0) }

  lemma TimesReciprocal(n: nat)
    requires n > 0
    ensures Numbers().mul(Times(Numbers(), n), Complex(1.0 / n as real, 0.0)) == Numbers().one
  {
    TimesIsNumber(n);
    Reciprocal(n as real, 0.0);
    assert Mul(Complex(n as real, 0.0), Complex(1.0 / n as real, 0.0)) == Complex(1.0, 0.0);
  }

  /** The factor is the inverse of the number of elements. */
  lemma ScaleIsInverse(m: nat)
    ensures IsScale(Numbers(), m, Factor(m))
  {
    TwoAdd(m, m);
    TimesReciprocal(Two(m) * Two(m));
  }

  // -------------------------------------------------------------------------------------
  // Forward and back

  /** Direction -1 turns a root into its inverse. */
  lemma BackIsInverse(w: Complex, m: nat)
    requires IsRoot(Numbers(), w, m)
    ensures LeadsBack(Numbers(), w, Directed(-1))
  {
    ConjIsInverse(w, m);
    Directions(w);
  }

  lemma AheadIsSame()
    ensures LeavesAlone(Directed(1))
  {
    forall a ensures Directed(1)(a) == a { Directions(a); }
  }

  lemma JobIsValid(t: Job<Complex>)
    requires t.g == Numbers() && IsRoot(t.g, t.w, t.m + t.m)
    ensures ValidJob(t)
  {
    NumbersAreRing();
  }

  /** Direction 1 leaves the tables as they are, direction -1 and the factor lead back. */
  lemma CanReturn(w: Complex, m: nat)
    requires IsRoot(Numbers(), w, m + m)
    ensures CanGoBack(Numbers(), w, m, Directed(1), Directed(-1), Factor(m))
  {
    BackIsTurn();
    BackIsInverse(w, m + m);
    AheadIsSame();
    ScaleIsInverse(m);
  }

  /** SlaveStart: the transform with direction 1, then with direction -1, restores the matrix. */
  method TransformAndBack(ghost t: Job<Complex>, u: seq<Complex>, u2: array2<Complex>, x: array2<Complex>, s: array2<Complex>, m: nat,
                          procs: nat, rows: nat, cacheLines: nat)
    requires t.g == Numbers() && IsRoot(t.g, t.w, m + m) && t.m == m
    requires Shape(t, x) && Shape(t, s) && Shape(t, u2) && x != s && u2 != s && u2 != x
    requires IsRowTable(t, Directed(1), u) && IsTwiddles(t, Directed(1), u2) && HoldsInput(t, x)
    requires rows > 0 && Two(m) == procs * rows && cacheLines > 0 && Covered(rows, cacheLines) == rows
    modifies x, s
    ensures HoldsInput(t, x)
  {
    JobIsValid(t);
    CanReturn(t.w, m);
    ForwardAndBack(t, Numbers(), Directed(1), Directed(-1), Factor(m), u, u2, x, s, m, procs, rows, cacheLines);
  }
}
