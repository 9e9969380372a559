/** The arithmetic around the radix sort: random keys, partitions, number of digits. */
module RadixKeys {
  import opened Arithmetic
  import opened RadixDigits
  import opened RadixSort

  /** A double that holds a whole number exactly.  Every intermediate result has this type. */
  newtype Exact = x: int | 0 <= x < 0x20_0000_0000_0000

  /** 2^23 and its square, 2^46. */
  const RADIX_S: nat := 0x80_0000
  const RADIX: nat := 0x4000_0000_0000
  const SEED: nat := 314159265
  const RATIO: nat := 1220703125

  // -------------------------------------------------------------------------------------
  // Products modulo 2^46

  lemma SmallProduct(a: nat, b: nat)
    requires a < RADIX_S && b < RADIX_S
    ensures a * b < RADIX
  {
    MulLe(a, RADIX_S - 1, b);
  }

  lemma AddMultiple(x: nat, q: nat, m: nat)
    requires m > 0
    ensures (q * m + x) % m == x % m
  {
    var k := x / m;
    assert x == k * m + x % m;
    assert (q + k) * m == q * m + k * m;
    QuotientUnique(q * m + x, q + k, m, x % m);
  }

  /** The product of two numbers written in base s. */
  lemma ProductInBase(a1: nat, a2: nat, b1: nat, b2: nat, s: nat)
    ensures (a1 * s + a2) * (b1 * s + b2) == (a1 * b1) * (s * s) + (a1 * b2 + a2 * b1) * s + a2 * b2
  {
    assert (a1 * s + a2) * (b1 * s + b2) == (a1 * s) * (b1 * s) + (a1 * s) * b2 + a2 * (b1 * s) + a2 * b2;
    assert (a1 * s) * (b1 * s) == (a1 * b1) * (s * s);
    assert (a1 * s) * b2 == (a1 * b2) * s && a2 * (b1 * s) == (a2 * b1) * s;
  }

  lemma ProductMod(a1: nat, a2: nat, b1: nat, b2: nat, s: nat)
    requires s > 0
    ensures s * s > 0
    ensures ((a1 * s + a2) * (b1 * s + b2)) % (s * s) == (((a1 * b2 + a2 * b1) % s) * s + a2 * b2) % (s * s)
  {
    var t := a1 * b2 + a2 * b1;
    var u := t / s;
    MulPositive(s, s);
    ProductInBase(a1, a2, b1, b2, s);
    DivMod(t, s);
    Distribute(u, t % s, s, s);
    SumTimes(a1 * b1, u, s * s);
    AddMultiple((t % s) * s + a2 * b2, a1 * b1 + u, s * s);
  }

  /** product_mod_46: the product modulo 2^46, without an inexact intermediate result. */
  method ProductMod46(x: Exact, y: Exact) returns (r: Exact)
    requires x as int < RADIX && y as int < RADIX
    ensures r as int == (x as int * y as int) % RADIX
  {
    var s: Exact := RADIX_S as Exact;
    var a1 := x / s;
    var a2 := x - a1 * s;
    var b1 := y / s;
    var b2 := y - b1 * s;
    SmallProduct(a1 as int, b2 as int);
    SmallProduct(a2 as int, b1 as int);
    SmallProduct(a2 as int, b2 as int);
    var t1 := a1 * b2 + a2 * b1;
    var t2 := t1 / s;
    t2 := t1 - t2 * s;
    ProductMod(a1 as int, a2 as int, b1 as int, b2 as int, RADIX_S);
    t1 := t2 * s + a2 * b2;
    t2 := t1 / RADIX as Exact;
    r := t1 - t2 * RADIX as Exact;
  }

  // -------------------------------------------------------------------------------------
  // The k-th random number

  lemma {:induction false} PowSquare(t: nat, j: nat)
    ensures Pow(t, 2 * j) == Pow(t * t, j)
  {
    if j > 0 {
      PowSquare(t, j - 1);
      assert Pow(t, 2 * j) == Pow(t, 2 * j - 1) * t == Pow(t, 2 * (j - 1)) * t * t;
      Regroup(Pow(t * t, j - 1), t);
    }
  }

  lemma Regroup(a: nat, t: nat)
    ensures a * t * t == a * (t * t)
  {
  }

  /** A factor may be reduced. */
  lemma ModFactor(x: nat, y: nat, m: nat)
    requires m > 0
    ensures ((x % m) * y) % m == (x * y) % m
  {
    DivMod(x, m);
    SumTimes((x / m) * m, x % m, y);
    Swap(x / m, m, y);
    AddMultiple((x % m) * y, (x / m) * y, m);
  }

  lemma Swap(a: nat, b: nat, c: nat)
    ensures a * b * c == a * c * b
  {
  }

  lemma {:induction false} ModPower(t: nat, j: nat, m: nat)
    requires m > 0
    ensures Pow(t % m, j) % m == Pow(t, j) % m
  {
    if j > 0 {
      ModPower(t, j - 1, m);
      var p, q, u := Pow(t % m, j - 1), Pow(t, j - 1), t % m;
      ModFactor(p, u, m);
      ModFactor(q, u, m);
      Commute(q, u);
      Commute(q, t);
      ModFactor(t, q, m);
    }
  }

  /** The random number after k steps of ratio t from b. */
  ghost function Random(b: nat, t: nat, k: nat): nat { (b * Pow(t, k)) % RADIX }

  /** One round of the loop of ran_num_init. */
  lemma HalvePower(b: nat, t: nat, k: nat)
    ensures k % 2 == 0 ==> Random(b, (t * t) % RADIX, k / 2) == Random(b, t, k)
    ensures k % 2 == 1 ==> Random((b * t) % RADIX, (t * t) % RADIX, k / 2) == Random(b, t, k)
  {
    var j := k / 2;
    PowSquare(t, j);
    ModPower(t * t, j, RADIX);
    var p, q := Pow((t * t) % RADIX, j), Pow(t * t, j);
    SameMod(p, q, b);
    if k % 2 == 1 {
      SameMod(p, q, (b * t) % RADIX);
      ModFactor(b * t, q, RADIX);
      assert Pow(t, k) == q * t;
      Rotate(b, t, q);
    }
  }

  lemma SameMod(p: nat, q: nat, b: nat)
    requires p % RADIX == q % RADIX
    ensures (b * p) % RADIX == (b * q) % RADIX
  {
    ModFactor(p, b, RADIX);
    ModFactor(q, b, RADIX);
    Commute(p, b);
    Commute(q, b);
  }

  lemma Rotate(b: nat, t: nat, q: nat)
    ensures b * t * q == b * (q * t)
  {
  }

  /** ran_num_init: the k-th random number in about log2(k) products. */
  method RanNumInit(k0: nat, b0: Exact, t0: Exact) returns (b: Exact)
    requires b0 as int < RADIX && t0 as int < RADIX
    ensures b as int == Random(b0 as int, t0 as int, k0) < RADIX
  {
    var k, t := k0, t0;
    b := b0;
    while k != 0
      invariant b as int < RADIX && t as int < RADIX
      invariant Random(b as int, t as int, k) == Random(b0 as int, t0 as int, k0)
    {
      HalvePower(b as int, t as int, k);
      var j := k / 2;
      if j * 2 != k { b := ProductMod46(b, t); }
      t := ProductMod46(t, t);
      k := j;
    }
  }

  // -------------------------------------------------------------------------------------
  // The keys

  ghost function R(j: nat): nat { Random(SEED, RATIO, j) }

  /** The mean of four random numbers as a fraction of the largest key, in exact arithmetic. */
  ghost function Key(i: nat, maxKey: nat): nat {
    ((R(4 * i + 1) + R(4 * i + 2) + R(4 * i + 3) + R(4 * i + 4)) * maxKey) / (4 * RADIX)
  }

  lemma NextRandom(j: nat)
    ensures (R(j) * RATIO) % RADIX == R(j + 1)
  {
    ModFactor(SEED * Pow(RATIO, j), RATIO, RADIX);
    Regroup3(SEED, Pow(RATIO, j), RATIO);
  }

  lemma Regroup3(a: nat, b: nat, c: nat)
    ensures a * b * c == a * (b * c)
  {
  }

  /** The sequence begins with the seed modulo 2^46, and every number is the one before times the ratio. */
  lemma RandomNext(b: nat, t: nat, k: nat)
    ensures Random(b, t, 0) == b % 0x4000_0000_0000 && Random(b, t, k + 1) == (Random(b, t, k) * t) % 0x4000_0000_0000
  {
    assert Pow(t, 0) == 1 && b * 1 == b;
    ModFactor(b * Pow(t, k), t, RADIX);
    Regroup3(b, Pow(t, k), t);
  }

  lemma FractionIs(x: nat, d: nat)
    requires d > 0
    ensures (x / d) * d <= x < (x / d + 1) * d
  {
    DivMod(x, d);
    SumTimes(x / d, 1, d);
  }

  /** A key is the integral part of the mean of the random numbers 4i+1 to 4i+4 of the seed and ratio of
      the program, each as a fraction of 2^46, times the largest key. */
  lemma KeyIs(i: nat, maxKey: nat)
    ensures var sum := Random(314159265, 1220703125, 4 * i + 1) + Random(314159265, 1220703125, 4 * i + 2)
                       + Random(314159265, 1220703125, 4 * i + 3) + Random(314159265, 1220703125, 4 * i + 4);
      Key(i, maxKey) * (4 * 0x4000_0000_0000) <= sum * maxKey < (Key(i, maxKey) + 1) * (4 * 0x4000_0000_0000)
  {
    var sum := R(4 * i + 1) + R(4 * i + 2) + R(4 * i + 3) + R(4 * i + 4);
    FractionIs(sum * maxKey, 4 * RADIX);
  }

  /** A key is below the largest key. */
  lemma KeyInRange(i: nat, maxKey: nat)
    requires maxKey > 0
    ensures Key(i, maxKey) < maxKey
  {
    var sum := R(4 * i + 1) + R(4 * i + 2) + R(4 * i + 3) + R(4 * i + 4);
    MulNext(sum, 4 * RADIX, maxKey);
    FractionBelow(sum * maxKey, 4 * RADIX, maxKey);
  }

  lemma FractionBelow(x: nat, d: nat, m: nat)
    requires d > 0 && x < d * m
    ensures x / d < m
  {
    DivMod(x, d);
    if m <= x / d { MulLe(m, x / d, d); Commute(d, m); }
  }

  /** init: one processor fills its part of the keys. */
  method Init(start: nat, stop: nat, keys: array<nat>, maxKey: nat)
    requires start <= stop <= keys.Length && maxKey > 0
    modifies keys
    ensures forall i :: start <= i < stop ==> keys[i] == Key(i, maxKey) < maxKey
    ensures forall i :: 0 <= i < keys.Length && !(start <= i < stop) ==> keys[i] == old(keys[i])
  {
    var seed, ratio: Exact := SEED as Exact, RATIO as Exact;
    var ran := RanNumInit(start * 4 + 1, seed, ratio);
    for i := start to stop
      invariant ran as int == R(4 * i + 1)
      invariant forall j :: start <= j < i ==> keys[j] == Key(j, maxKey) < maxKey
      invariant forall j :: 0 <= j < keys.Length && !(start <= j < i) ==> keys[j] == old(keys[j])
    {
      var sum: nat := ran as int;
      NextRandom(4 * i + 1);
      NextRandom(4 * i + 2);
      NextRandom(4 * i + 3);
      NextRandom(4 * i + 4);
      ran := ProductMod46(ran, ratio);
      sum := sum + ran as int;
      ran := ProductMod46(ran, ratio);
      sum := sum + ran as int;
      ran := ProductMod46(ran, ratio);
      sum := sum + ran as int;
      KeyInRange(i, maxKey);
      keys[i] := (sum * maxKey) / (4 * RADIX);
      ran := ProductMod46(ran, ratio);
    }
  }

  /** Whatever the partition, the processors together generate the same keys. */
  method InitAll(part: seq<nat>, keys: array<nat>, maxKey: nat)
    requires IsPartition(part, keys.Length) && maxKey > 0
    modifies keys
    ensures forall i :: 0 <= i < keys.Length ==> keys[i] == Key(i, maxKey) < maxKey
  {
    for p := 0 to |part| - 1
      invariant forall i :: 0 <= i < part[p] && i < keys.Length ==> keys[i] == Key(i, maxKey) < maxKey
    {
      assert part[p] <= part[p + 1] <= part[|part| - 1];
      Init(part[p], part[p + 1], keys, maxKey);
    }
  }

  // -------------------------------------------------------------------------------------
  // Partitions and digits

  lemma FloorStep(p: nat, n: nat, procs: nat, sum: nat, frac: nat)
    requires n > 0 && procs > 0 && p * n == sum * procs + frac && frac < procs
    ensures (p * n) / procs == sum
    ensures sum < n <==> p < procs
  {
    QuotientUnique(p * n, sum, procs, frac);
    Commute(p, n);
    Commute(procs, n);
    if sum < n && procs <= p { MulLe(procs, p, n); MulNext(sum, n, procs); }
    if p < procs && n <= sum { MulNext(p, procs, n); MulLe(n, sum, procs); }
  }

  lemma NextFraction(p: nat, n: nat, procs: nat, sum: nat, frac: nat)
    requires procs > 0 && p * n == sum * procs + frac
    ensures (p + 1) * n == (sum + n / procs + (frac + n % procs) / procs) * procs + (frac + n % procs) % procs
  {
    DivMod(n, procs);
    DivMod(frac + n % procs, procs);
    SumTimes(p, 1, n);
    SumTimes(sum, n / procs, procs);
    SumTimes(sum + n / procs, (frac + n % procs) / procs, procs);
  }

  /** The running sums stand for p * n / procs. */
  ghost predicate FloorAt(p: nat, n: nat, procs: nat, sum: nat, frac: nat)
    requires procs > 0
  {
    p * n == sum * procs + frac && frac < procs && (p * n) / procs == sum && (sum < n <==> p < procs)
  }

  lemma NextFloor(p: nat, n: nat, procs: nat, sum: nat, frac: nat, sum': nat, frac': nat)
    requires n > 0 && procs > 0 && FloorAt(p, n, procs, sum, frac)
    requires sum' == sum + n / procs + (frac + n % procs) / procs && frac' == (frac + n % procs) % procs
    ensures FloorAt(p + 1, n, procs, sum', frac')
  {
    NextFraction(p, n, procs, sum, frac);
    DivMod(frac + n % procs, procs);
    FloorStep(p + 1, n, procs, sum', frac');
  }

  /** The partition loop: exactly procs turns, part p starts at floor(p * n / procs). */
  method FillPartition(n: nat, procs: nat) returns (part: array<nat>)
    requires n > 0 && procs > 0
    ensures fresh(part) && part.Length == procs + 1
    ensures forall p :: 0 <= p <= procs ==> part[p] == (p * n) / procs
    ensures IsPartition(part[..], n)
  {
    part := new nat[procs + 1];
    QuotientNat(n, procs);
    var quotient: nat, remainder: nat := n / procs, n % procs;
    var sumI: nat, sumF: nat, p: nat := 0, 0, 0;
    FloorStep(p, n, procs, sumI, sumF);
    while sumI < n
      invariant p <= procs && FloorAt(p, n, procs, sumI, sumF)
      invariant forall q :: 0 <= q < p ==> part[q] == (q * n) / procs
      decreases procs - p
    {
      part[p] := sumI;
      ghost var sum, frac := sumI, sumF;
      sumI := sumI + quotient;
      sumF := sumF + remainder;
      QuotientNat(sumF, procs);
      sumI := sumI + sumF / procs;
      sumF := sumF % procs;
      NextFloor(p, n, procs, sum, frac, sumI, sumF);
      p := p + 1;
    }
    part[p] := n;
    FloorsArePartition(n, procs, part[..]);
  }

  lemma FloorMonotone(p: nat, q: nat, n: nat, procs: nat)
    requires p <= q && procs > 0
    ensures (p * n) / procs <= (q * n) / procs
  {
    MulLe(p, q, n);
    var a, b := (p * n) / procs, (q * n) / procs;
    DivMod(p * n, procs);
    DivMod(q * n, procs);
    if b < a { MulNext(b, a, procs); }
  }

  lemma FloorsArePartition(n: nat, procs: nat, part: seq<nat>)
    requires procs > 0 && |part| == procs + 1 && forall p :: 0 <= p < procs ==> part[p] == (p * n) / procs
    requires part[procs] == n
    ensures IsPartition(part, n) && (procs * n) / procs == n
  {
    Commute(procs, n);
    QuotientUnique(n * procs, n, procs, 0);
    QuotientUnique(0, 0, procs, 0);
    forall p, q | 0 <= p <= q < |part| ensures part[p] <= part[q] { FloorMonotone(p, q, n, procs); }
  }

  /** The value after k turns of the loop of get_max_digits. */
  function ValueAfter(maxKey: nat, radix: nat, k: nat): (v: nat)
    requires radix > 0
  {
    if k == 0 then maxKey
    else
      QuotientNat(ValueAfter(maxKey, radix, k - 1), radix);
      ValueAfter(maxKey, radix, k - 1) / radix
  }

  /** With radix 1 nothing ever changes. */
  lemma {:induction false} RadixOneStays(maxKey: nat, k: nat)
    ensures ValueAfter(maxKey, 1, k) == maxKey
  {
    if k > 0 {
      RadixOneStays(maxKey, k - 1);
      QuotientUnique(maxKey, maxKey, 1, 0);
    }
  }

  lemma HalfAtMost(v: nat, radix: nat)
    requires radix >= 2
    ensures v > 0 ==> v / radix < v
    ensures v == 0 ==> v / radix == 0
  {
    DivMod(v, radix);
    if v > 0 { MulLe(2, radix, v / radix); Commute(v / radix, radix); }
  }

  lemma {:induction false} ValueFalls(maxKey: nat, radix: nat, k: nat) returns (m: nat)
    requires radix >= 2
    ensures m >= k && ValueAfter(maxKey, radix, m) == 0
    decreases ValueAfter(maxKey, radix, k)
  {
    m := k;
    if ValueAfter(maxKey, radix, k) > 0 {
      HalfAtMost(ValueAfter(maxKey, radix, k), radix);
      m := ValueFalls(maxKey, radix, k + 1);
    }
  }

  /** The loop of get_max_digits ends for exactly these inputs.  The options of the program allow
      radix 1. */
  lemma LoopEndsIff(maxKey: nat, radix: nat)
    requires radix >= 1
    ensures (exists k: nat :: k > 0 && ValueAfter(maxKey, radix, k) == 0) <==> radix >= 2 || maxKey == 0
  {
    if radix >= 2 {
      var k := ValueFalls(maxKey, radix, 1);
    } else {
      forall k: nat ensures ValueAfter(maxKey, radix, k) == maxKey { RadixOneStays(maxKey, k); }
      assert ValueAfter(maxKey, radix, 1) == maxKey;
    }
  }

  /** get_max_digits, for the inputs on which it ends: the first turn after which the value is zero,
      which is the number of digits of the largest key, at least one. */
  method GetMaxDigits(maxKey: nat, radix: nat) returns (digits: nat)
    requires radix >= 2 || (radix == 1 && maxKey == 0)
    ensures digits >= 1 && ValueAfter(maxKey, radix, digits) == 0
    ensures forall k :: 0 < k < digits ==> ValueAfter(maxKey, radix, k) != 0
    ensures maxKey < Pow(radix, digits) && (digits > 1 ==> Pow(radix, digits - 1) <= maxKey)
  {
    var done := false;
    digits := 1;
    var value := maxKey;
    while !done
      invariant digits >= 1
      invariant value == ValueAfter(maxKey, radix, if done then digits else digits - 1)
      invariant forall k :: 0 < k < digits ==> ValueAfter(maxKey, radix, k) != 0
      invariant done ==> value == 0
      decreases !done, value
    {
      if radix >= 2 { HalfAtMost(value, radix); }
      value := value / radix;
      if value == 0 { done := true; } else { digits := digits + 1; }
    }
    DigitsOfKey(maxKey, radix, digits);
    if digits > 1 { DigitsOfKey(maxKey, radix, digits - 1); }
  }

  /** The value after k turns is the quotient by radix^k; it is zero exactly when k digits are enough. */
  lemma {:induction false} ValueIsQuotient(maxKey: nat, radix: nat, k: nat)
    requires radix >= 1
    ensures Pow(radix, k) > 0 && ValueAfter(maxKey, radix, k) == maxKey / Pow(radix, k)
  {
    PowPositive(radix, k);
    if k == 0 {
      QuotientUnique(maxKey, maxKey, 1, 0);
    } else {
      ValueIsQuotient(maxKey, radix, k - 1);
      DigitStep(maxKey, Pow(radix, k - 1), radix);
    }
  }

  lemma DigitsOfKey(maxKey: nat, radix: nat, k: nat)
    requires radix >= 1
    ensures ValueAfter(maxKey, radix, k) == 0 <==> maxKey < Pow(radix, k)
  {
    ValueIsQuotient(maxKey, radix, k);
    var p := Pow(radix, k);
    DivMod(maxKey, p);
    if maxKey < p { QuotientUnique(maxKey, 0, p, maxKey); }
  }
}
