/** Products, quotients and remainders of natural numbers. */
module Arithmetic {

  lemma MulLe(a: nat, b: nat, c: nat)
    requires a <= b
    ensures a * c <= b * c
  {
  }

  lemma MulNext(a: nat, b: nat, c: nat)
    requires a < b
    ensures a * c + c <= b * c
  {
    assert (b - a - 1) * c + a * c + c == b * c;
  }

  lemma MulPositive(m: nat, r: nat)
    requires m > 0 && r > 0
    ensures m * r > 0
  {
  }

  lemma Commute(a: nat, b: nat)
    ensures a * b == b * a
  {
  }

  lemma SumTimes(a: nat, b: nat, c: nat)
    ensures (a + b) * c == a * c + b * c
  {
  }

  lemma DivMod(x: nat, m: nat)
    requires m > 0
    ensures x == (x / m) * m + x % m && x % m < m
  {
  }

  lemma QuotientNat(x: nat, m: nat)
    requires m > 0
    ensures x / m >= 0
  {
  }

  /** Quotient and remainder are determined by the division. */
  lemma QuotientUnique(x: nat, q: nat, m: nat, r: nat)
    requires m > 0 && x == q * m + r && r < m
    ensures x / m == q && x % m == r
  {
    DivMod(x, m);
    if x / m < q { MulNext(x / m, q, m); }
    if q < x / m { MulNext(q, x / m, m); }
  }

  /** 2^m. */
  function Two(m: nat): (r: nat)
    ensures r > 0
  {
    if m == 0 then 1 else 2 * Two(m - 1)
  }

  lemma {:induction false} TwoAdd(a: nat, b: nat)
    ensures Two(a + b) == Two(a) * Two(b)
  {
    if b > 0 {
      TwoAdd(a, b - 1);
      assert a + b - 1 == a + (b - 1);
      assert Two(a) * (2 * Two(b - 1)) == 2 * (Two(a) * Two(b - 1));
    }
  }

  lemma SubsetSize<T>(a: set<T>, b: set<T>)
    requires a <= b
    ensures |a| <= |b|
  {
    assert b == a + (b - a);
  }
}
