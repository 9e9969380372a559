/** Commutative rings, powers, and roots of unity of order 2^m. */
module FftRing {
  import opened Arithmetic

  datatype Ring<!R> = Ring(add: (R, R) -> R, mul: (R, R) -> R, neg: R -> R, zero: R, one: R)

  /** Names three elements to which the laws are to be applied. */
  ghost predicate Tri<R>(a: R, b: R, c: R) { true }

  ghost predicate Laws<R(!new)>(g: Ring<R>) {
    && (forall a, b {:trigger g.add(a, b)} :: g.add(a, b) == g.add(b, a))
    && (forall a, b {:trigger g.mul(a, b)} :: g.mul(a, b) == g.mul(b, a))
    && (forall a :: g.add(a, g.zero) == a) && (forall a :: g.mul(a, g.one) == a)
    && (forall a {:trigger g.neg(a)} :: g.add(a, g.neg(a)) == g.zero)
    && (forall a, b, c {:trigger Tri(a, b, c)} :: Tri(a, b, c) ==> g.add(g.add(a, b), c) == g.add(a, g.add(b, c)))
    && (forall a, b, c {:trigger Tri(a, b, c)} :: Tri(a, b, c) ==> g.mul(g.mul(a, b), c) == g.mul(a, g.mul(b, c)))
    && (forall a, b, c {:trigger Tri(a, b, c)} :: Tri(a, b, c) ==> g.mul(a, g.add(b, c)) == g.add(g.mul(a, b), g.mul(a, c)))
  }

  ghost function Minus<R>(g: Ring<R>, a: R, b: R): R { g.add(a, g.neg(b)) }

  lemma AddAssoc<R(!new)>(g: Ring<R>, a: R, b: R, c: R)
    requires Laws(g)
    ensures g.add(g.add(a, b), c) == g.add(a, g.add(b, c))
  {
    assert Tri(a, b, c);
  }

  lemma MulAssoc<R(!new)>(g: Ring<R>, a: R, b: R, c: R)
    requires Laws(g)
    ensures g.mul(g.mul(a, b), c) == g.mul(a, g.mul(b, c))
  {
    assert Tri(a, b, c);
  }

  lemma Distribute<R(!new)>(g: Ring<R>, a: R, b: R, c: R)
    requires Laws(g)
    ensures g.mul(a, g.add(b, c)) == g.add(g.mul(a, b), g.mul(a, c))
  {
    assert Tri(a, b, c);
  }

  /** Swap the inner two of four summands. */
  lemma AddSwap<R(!new)>(g: Ring<R>, a: R, b: R, c: R, d: R)
    requires Laws(g)
    ensures g.add(g.add(a, b), g.add(c, d)) == g.add(g.add(a, c), g.add(b, d))
  {
    AddAssoc(g, a, b, g.add(c, d));
    AddAssoc(g, b, c, d);
    AddAssoc(g, c, b, d);
    AddAssoc(g, a, c, g.add(b, d));
  }

  /** Swap the inner two of four factors. */
  lemma MulSwap<R(!new)>(g: Ring<R>, a: R, b: R, c: R, d: R)
    requires Laws(g)
    ensures g.mul(g.mul(a, b), g.mul(c, d)) == g.mul(g.mul(a, c), g.mul(b, d))
  {
    MulAssoc(g, a, b, g.mul(c, d));
    MulAssoc(g, b, c, d);
    MulAssoc(g, c, b, d);
    MulAssoc(g, a, c, g.mul(b, d));
  }

  lemma Cancel<R(!new)>(g: Ring<R>, a: R, b: R)
    requires Laws(g) && g.add(a, b) == a
    ensures b == g.zero
  {
    AddAssoc(g, g.neg(a), a, b);
    assert g.add(g.neg(a), a) == g.zero;
    assert g.add(g.zero, b) == g.add(b, g.zero);
  }

  lemma MulZero<R(!new)>(g: Ring<R>, a: R)
    requires Laws(g)
    ensures g.mul(a, g.zero) == g.zero
  {
    Distribute(g, a, g.zero, g.zero);
    assert g.add(g.zero, g.zero) == g.zero;
    Cancel(g, g.mul(a, g.zero), g.mul(a, g.zero));
  }

  /** The additive inverse is unique. */
  lemma NegUnique<R(!new)>(g: Ring<R>, a: R, b: R)
    requires Laws(g) && g.add(a, b) == g.zero
    ensures b == g.neg(a)
  {
    AddAssoc(g, g.neg(a), a, b);
    assert g.add(g.neg(a), a) == g.zero;
    assert g.add(g.zero, b) == g.add(b, g.zero) && g.add(g.neg(a), g.zero) == g.neg(a);
  }

  lemma MulNeg<R(!new)>(g: Ring<R>, a: R, b: R)
    requires Laws(g)
    ensures g.mul(a, g.neg(b)) == g.neg(g.mul(a, b))
    ensures g.mul(g.neg(b), a) == g.neg(g.mul(a, b))
  {
    Distribute(g, a, b, g.neg(b));
    MulZero(g, a);
    NegUnique(g, g.mul(a, b), g.mul(a, g.neg(b)));
  }

  lemma NegNeg<R(!new)>(g: Ring<R>, a: R)
    requires Laws(g)
    ensures g.neg(g.neg(a)) == a
  {
    assert g.add(g.neg(a), a) == g.zero;
    NegUnique(g, g.neg(a), a);
  }

  // -------------------------------------------------------------------------------------
  // Powers

  ghost function Pow<R>(g: Ring<R>, w: R, e: nat): R { if e == 0 then g.one else g.mul(Pow(g, w, e - 1), w) }

  lemma {:induction false} PowAdd<R(!new)>(g: Ring<R>, w: R, a: nat, b: nat)
    requires Laws(g)
    ensures Pow(g, w, a + b) == g.mul(Pow(g, w, a), Pow(g, w, b))
  {
    if b > 0 {
      PowAdd(g, w, a, b - 1);
      assert a + b - 1 == a + (b - 1);
      MulAssoc(g, Pow(g, w, a), Pow(g, w, b - 1), w);
    }
  }

  lemma {:induction false} PowTimes<R(!new)>(g: Ring<R>, w: R, a: nat, b: nat)
    requires Laws(g)
    ensures Pow(g, w, a * b) == Pow(g, Pow(g, w, a), b)
  {
    if b == 0 {
      assert a * b == 0;
    } else {
      PowTimes(g, w, a, b - 1);
      assert a * b == a * (b - 1) + a;
      PowAdd(g, w, a * (b - 1), a);
    }
  }

  lemma {:induction false} PowOne<R(!new)>(g: Ring<R>, e: nat)
    requires Laws(g)
    ensures Pow(g, g.one, e) == g.one
  {
    if e > 0 { PowOne(g, e - 1); }
  }

  lemma {:induction false} PowProduct<R(!new)>(g: Ring<R>, u: R, v: R, e: nat)
    requires Laws(g)
    ensures Pow(g, g.mul(u, v), e) == g.mul(Pow(g, u, e), Pow(g, v, e))
  {
    if e > 0 {
      PowProduct(g, u, v, e - 1);
      MulSwap(g, Pow(g, u, e - 1), Pow(g, v, e - 1), u, v);
    }
  }

  // -------------------------------------------------------------------------------------
  // Roots of unity

  /** A principal root of order 2^m: half-way round it is -1. */
  ghost predicate IsRoot<R>(g: Ring<R>, w: R, m: nat) {
    if m == 0 then w == g.one else Pow(g, w, Two(m - 1)) == g.neg(g.one)
  }

  lemma MinusOneSquared<R(!new)>(g: Ring<R>)
    requires Laws(g)
    ensures g.mul(g.neg(g.one), g.neg(g.one)) == g.one
  {
    MulNeg(g, g.neg(g.one), g.one);
    NegNeg(g, g.one);
  }

  lemma FullTurn<R(!new)>(g: Ring<R>, w: R, m: nat)
    requires Laws(g) && IsRoot(g, w, m)
    ensures Pow(g, w, Two(m)) == g.one
  {
    if m == 0 {
      assert Pow(g, w, 1) == g.mul(Pow(g, w, 0), w);
    } else {
      PowAdd(g, w, Two(m - 1), Two(m - 1));
      MinusOneSquared(g);
    }
  }

  /** The power of a root by 2^a is a root of an order smaller by 2^a. */
  lemma RootPower<R(!new)>(g: Ring<R>, w: R, m: nat, a: nat)
    requires Laws(g) && IsRoot(g, w, m) && a <= m
    ensures IsRoot(g, Pow(g, w, Two(a)), m - a)
  {
    if a == m {
      FullTurn(g, w, m);
    } else {
      TwoAdd(a, m - 1 - a);
      PowTimes(g, w, Two(a), Two(m - 1 - a));
    }
  }

  /** Exponents may be reduced by full turns. */
  lemma PowReduce<R(!new)>(g: Ring<R>, w: R, n: nat, q: nat, e: nat)
    requires Laws(g) && Pow(g, w, n) == g.one
    ensures Pow(g, w, n * q + e) == Pow(g, w, e)
  {
    PowAdd(g, w, n * q, e);
    PowTimes(g, w, n, q);
    PowOne(g, q);
    assert g.mul(g.one, Pow(g, w, e)) == g.mul(Pow(g, w, e), g.one);
  }

  /** The inverse of a root is a root of the same order. */
  lemma InverseRoot<R(!new)>(g: Ring<R>, w: R, v: R, m: nat)
    requires Laws(g) && IsRoot(g, w, m) && g.mul(w, v) == g.one
    ensures IsRoot(g, v, m)
  {
    if m == 0 {
      assert g.mul(g.one, v) == g.mul(v, g.one);
    } else {
      var h := Two(m - 1);
      PowProduct(g, w, v, h);
      PowOne(g, h);
      MinusOneSquared(g);
      var minus := g.neg(g.one);
      MulAssoc(g, minus, minus, Pow(g, v, h));
      assert g.mul(minus, g.one) == minus;
      assert g.mul(g.one, Pow(g, v, h)) == g.mul(Pow(g, v, h), g.one);
    }
  }

  /** The geometric sum of the first n powers. */
  ghost function Geometric<R>(g: Ring<R>, z: R, n: nat): R {
    if n == 0 then g.zero else g.add(Geometric(g, z, n - 1), Pow(g, z, n - 1))
  }

  lemma {:induction false} GeometricSplit<R(!new)>(g: Ring<R>, z: R, a: nat, b: nat)
    requires Laws(g)
    ensures Geometric(g, z, a + b) == g.add(Geometric(g, z, a), g.mul(Pow(g, z, a), Geometric(g, z, b)))
  {
    if b == 0 {
      MulZero(g, Pow(g, z, a));
    } else {
      GeometricSplit(g, z, a, b - 1);
      assert a + b - 1 == a + (b - 1);
      PowAdd(g, z, a, b - 1);
      Distribute(g, Pow(g, z, a), Geometric(g, z, b - 1), Pow(g, z, b - 1));
      AddAssoc(g, Geometric(g, z, a), g.mul(Pow(g, z, a), Geometric(g, z, b - 1)), Pow(g, z, a + (b - 1)));
    }
  }

  /** n times one. */
  ghost function Times<R>(g: Ring<R>, n: nat): R { if n == 0 then g.zero else g.add(Times(g, n - 1), g.one) }

  lemma {:induction false} GeometricOfOne<R(!new)>(g: Ring<R>, n: nat)
    requires Laws(g)
    ensures Geometric(g, g.one, n) == Times(g, n)
  {
    if n > 0 {
      GeometricOfOne(g, n - 1);
      PowOne(g, n - 1);
    }
  }

  lemma {:induction false} PowOfMinusOne<R(!new)>(g: Ring<R>, e: nat)
    requires Laws(g)
    ensures Pow(g, g.neg(g.one), e) == if e % 2 == 0 then g.one else g.neg(g.one)
  {
    if e > 0 {
      PowOfMinusOne(g, e - 1);
      MinusOneSquared(g);
      assert g.mul(g.one, g.neg(g.one)) == g.mul(g.neg(g.one), g.one);
    }
  }

  /** The powers of a root other than one add up to zero over a full turn. */
  lemma {:induction false} GeometricIsZero<R(!new)>(g: Ring<R>, w: R, m: nat, e: nat)
    requires Laws(g) && IsRoot(g, w, m) && e % Two(m) != 0
    ensures Geometric(g, Pow(g, w, e), Two(m)) == g.zero
    decreases m
  {
    if m > 0 {
      var h, z := Two(m - 1), Pow(g, w, e);
      GeometricSplit(g, z, h, h);
      if e % 2 == 1 {
        PowTimes(g, w, e, h);
        PowTimes(g, w, h, e);
        assert e * h == h * e;
        PowOfMinusOne(g, e);
        MulNeg(g, Geometric(g, z, h), g.one);
      } else {
        HalfExponent(e, h);
        RootPower(g, w, m, 1);
        assert Pow(g, w, Two(1)) == Pow(g, w, 2);
        PowTimes(g, w, 2, e / 2);
        GeometricIsZero(g, Pow(g, w, 2), m - 1, e / 2);
        MulZero(g, Pow(g, z, h));
      }
    }
  }

  lemma HalfExponent(e: nat, h: nat)
    requires h > 0 && e % 2 == 0 && e % (2 * h) != 0
    ensures (e / 2) % h != 0
  {
    var c := e / 2;
    if c % h == 0 {
      assert c == (c / h) * h;
      MultipleMod(c / h, 2 * h);
    }
  }

  lemma MultipleMod(q: nat, n: nat)
    requires n > 0
    ensures (q * n) % n == 0
  {
    QuotientUnique(q * n, q, n, 0);
  }
}
