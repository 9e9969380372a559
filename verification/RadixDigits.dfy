/** The digits of a key: quotients and remainders, and the masks and shifts that compute them. */
module RadixDigits {
  import opened Arithmetic

  lemma Distribute(u: nat, v: nat, m: nat, r: nat)
    ensures (u * r + v) * m == u * (m * r) + v * m && r * m == m * r
  {
    assert u * r * m == u * (m * r);
  }

  lemma ModParts(u: nat, v: nat, a: nat, m: nat, r: nat)
    requires v < r && a < m
    ensures m * r > 0 && ((u * r + v) * m + a) % (m * r) == v * m + a
  {
    MulNext(v, r, m);
    Distribute(u, v, m, r);
    MulPositive(m, r);
    QuotientUnique((u * r + v) * m + a, u, m * r, v * m + a);
  }

  /** The lower digits of a key, one more than before. */
  lemma ModNext(x: nat, m: nat, r: nat)
    requires m > 0 && r > 0
    ensures m * r > 0 && x % (m * r) == ((x / m) % r) * m + x % m
  {
    var q := x / m;
    DivMod(x, m);
    DivMod(q, r);
    ModParts(q / r, q % r, x % m, m, r);
  }

  lemma DigitStep(x: nat, m: nat, r: nat)
    requires m > 0 && r > 0
    ensures m * r > 0 && (x / m) / r == x / (m * r)
  {
    DivMod(x, m);
    QuotientNat(x, m);
    DivMod(x / m, r);
    QuotientNat(x / m, r);
    var u: nat, v: nat := x / m / r, x / m % r;
    ModParts(u, v, x % m, m, r);
    MulNext(v, r, m);
    Distribute(u, v, m, r);
    MulPositive(m, r);
    QuotientUnique(x, u, m * r, v * m + x % m);
  }

  // -------------------------------------------------------------------------------------
  // Digits by mask and shift

  /** The bits that two numbers have in common. */
  function And(x: nat, y: nat): (r: nat)
    decreases x
  {
    if x == 0 then 0 else 2 * And(x / 2, y / 2) + (x % 2) * (y % 2)
  }

  /** A bit of And is the product of the two bits. */
  lemma {:induction false} AndBits(x: nat, y: nat, k: nat)
    ensures (And(x, y) / Two(k)) % 2 == ((x / Two(k)) % 2) * ((y / Two(k)) % 2)
    decreases k
  {
    AndHalves(x, y);
    if k > 0 {
      AndBits(x / 2, y / 2, k - 1);
      HalfFirst(And(x, y), k);
      HalfFirst(x, k);
      HalfFirst(y, k);
    }
  }

  lemma AndHalves(x: nat, y: nat)
    ensures And(x, y) / 2 == And(x / 2, y / 2) && And(x, y) % 2 == (x % 2) * (y % 2)
  {
    var r := (x % 2) * (y % 2);
    assert 0 <= r < 2;
    if x > 0 { QuotientUnique(And(x, y), And(x / 2, y / 2), 2, r); }
  }

  lemma HalfFirst(x: nat, k: nat)
    requires k > 0
    ensures x / Two(k) == (x / 2) / Two(k - 1)
  {
    DigitStep(x, 2, Two(k - 1));
  }

  lemma AndZero(x: nat)
    ensures And(x, 0) == 0
    decreases x
  {
    if x > 0 { AndZero(x / 2); }
  }

  lemma HalfOf(y: nat)
    ensures (2 * y) / 2 == y && (2 * y) % 2 == 0 && (2 * y + 1) / 2 == y && (2 * y + 1) % 2 == 1
  {
  }

  /** Masking with 2^b - 1 leaves the lowest b bits. */
  lemma {:induction false} LowMask(x: nat, b: nat)
    ensures And(x, Two(b) - 1) == x % Two(b)
    decreases b
  {
    if b == 0 {
      AndZero(x);
      QuotientUnique(x, x, 1, 0);
    } else {
      LowMask(x / 2, b - 1);
      HalfOf(Two(b - 1) - 1);
      assert Two(b) - 1 == 2 * (Two(b - 1) - 1) + 1;
      ModNext(x, 2, Two(b - 1));
      LowDigit(x, b - 1);
    }
  }

  /** The lowest bit and the ones above it. */
  lemma LowDigit(x: nat, b: nat)
    ensures x % (2 * Two(b)) == 2 * ((x / 2) % Two(b)) + x % 2
  {
    ModNext(x, 2, Two(b));
    Commute((x / 2) % Two(b), 2);
  }

  /** v << k. */
  function Shl(v: nat, k: nat): nat { if k == 0 then v else 2 * Shl(v, k - 1) }

  lemma {:induction false} ShlTimes(v: nat, k: nat)
    ensures Shl(v, k) == v * Two(k)
  {
    if k > 0 { ShlTimes(v, k - 1); }
  }

  lemma EvenMask(x: nat, y: nat)
    ensures And(x, 2 * y) == 2 * And(x / 2, y)
  {
    HalfOf(y);
  }

  lemma DoubleQuotient(a: nat, m: nat)
    requires m > 0
    ensures (2 * a) / (2 * m) == a / m
  {
    DivMod(a, m);
    QuotientNat(a, m);
    var q: nat, u: nat := a / m, a % m;
    assert 2 * a == q * (2 * m) + 2 * u;
    QuotientUnique(2 * a, q, 2 * m, 2 * u);
  }

  /** The digit as the code takes it, by mask and shift, is the digit by division and remainder. */
  lemma {:induction false} MaskAndShift(x: nat, shift: nat, b: nat)
    ensures And(x, Shl(Two(b) - 1, shift)) / Two(shift) == (x / Two(shift)) % Two(b)
    decreases shift
  {
    if shift == 0 {
      LowMask(x, b);
      QuotientUnique(x, x, 1, 0);
      QuotientUnique(x % Two(b), x % Two(b), 1, 0);
    } else {
      var m, y := Two(shift - 1), Shl(Two(b) - 1, shift - 1);
      EvenMask(x, y);
      MaskAndShift(x / 2, shift - 1, b);
      DoubleQuotient(And(x / 2, y), m);
      DigitStep(x, 2, m);
    }
  }
}
