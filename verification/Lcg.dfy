/** The linear congruential generator that advances a rejected draw seed.

    The rejection loop of the draw has no counter: it stops when the generator
    reaches a seed below a bound. This module proves that it always stops, by
    the argument of Hull and Dobell: with multiplier 1 modulo 4 and an odd
    increment, 2^k steps move a state by an odd multiple of 2^k, so the low
    bits of any state can be cleared one by one until the state is 0. */
module Lcg {
  import opened Common

  const MULTIPLIER: int := 6364136223846793005
  const INCREMENT: int := 1442695040888963407

  /** `wrapping_mul` followed by `wrapping_add` on `u64`. */
  function Next(x: u64): u64
  {
    ((x * MULTIPLIER) % U64_LIMIT + INCREMENT) % U64_LIMIT
  }

  /** The states after 0 and after 1, which fix both constants. */
  lemma FirstStates()
    ensures Next(0) == 1442695040888963407 && Next(1) == 7806831264735756412
  {
  }

  function Iterate(x: u64, n: nat): u64
    decreases n
  {
    if n == 0 then x else Iterate(Next(x), n - 1)
  }

  function Pow2(k: nat): (p: int)
    ensures p >= 1
  {
    if k == 0 then 1 else 2 * Pow2(k - 1)
  }

  lemma {:induction false} Pow2Split(j: nat, k: nat)
    ensures Pow2(j + k) == Pow2(j) * Pow2(k)
  {
    if j == 0 {
    } else {
      Pow2Split(j - 1, k);
      assert Pow2(j + k) == 2 * Pow2((j - 1) + k);
    }
  }

  lemma Pow2Is64()
    ensures Pow2(64) == U64_LIMIT
  {
    assert Pow2(8) == 256;
    Pow2Split(8, 8);
    Pow2Split(16, 16);
    Pow2Split(32, 32);
  }

  lemma {:induction false} IterateSplit(x: u64, m: nat, n: nat)
    ensures Iterate(x, m + n) == Iterate(Iterate(x, m), n)
    decreases m
  {
    if m == 0 {
    } else {
      IterateSplit(Next(x), m - 1, n);
    }
  }

  /** 2^k steps are the affine map x -> Slope(k) * x + Shift(k) modulo 2^64. */
  ghost function Slope(k: nat): int
  {
    if k == 0 then MULTIPLIER else Slope(k - 1) * Slope(k - 1)
  }

  ghost function Shift(k: nat): int
  {
    if k == 0 then INCREMENT else Shift(k - 1) * (Slope(k - 1) + 1)
  }

  lemma {:induction false} IterateIsAffine(x: u64, k: nat) returns (wraps: int)
    ensures Iterate(x, Pow2(k)) == Slope(k) * x + Shift(k) + U64_LIMIT * wraps
    decreases k
  {
    if k == 0 {
      var p := x * MULTIPLIER;
      assert Iterate(x, 1) == Next(x);
      wraps := -(p / U64_LIMIT) - ((p % U64_LIMIT + INCREMENT) / U64_LIMIT);
    } else {
      var h := Pow2(k - 1);
      var y := Iterate(x, h);
      var t := IterateIsAffine(x, k - 1);
      var u := IterateIsAffine(y, k - 1);
      IterateSplit(x, h, h);
      var a, c := Slope(k - 1), Shift(k - 1);
      wraps := a * t + u;
      AffineTwice(a, c, x, y, t, u);
    }
  }

  lemma AffineTwice(a: int, c: int, x: int, y: int, t: int, u: int)
    requires y == a * x + c + U64_LIMIT * t
    ensures a * y + c + U64_LIMIT * u == a * a * x + c * (a + 1) + U64_LIMIT * (a * t + u)
  {
    assert a * y == a * (a * x) + a * c + a * (U64_LIMIT * t);
    assert a * (a * x) == a * a * x;
    assert a * (U64_LIMIT * t) == U64_LIMIT * (a * t);
  }

  /** The slope of 2^k steps is 1 modulo 2^(k+2). */
  lemma {:induction false} SlopeIsOne(k: nat) returns (m: int)
    ensures Slope(k) == 1 + 4 * Pow2(k) * m
  {
    if k == 0 {
      m := (MULTIPLIER - 1) / 4;
    } else {
      var n := SlopeIsOne(k - 1);
      m := n + 2 * (Pow2(k - 1) * n * n);
      SlopeArithmetic(Pow2(k - 1), n);
    }
  }

  lemma SlopeArithmetic(p: int, n: int)
    ensures (1 + 4 * p * n) * (1 + 4 * p * n) == 1 + 4 * (2 * p) * (n + 2 * (p * n * n))
  {
    var q := p * n;
    assert 4 * p * n == 4 * q;
    assert (1 + 4 * q) * (1 + 4 * q) == 1 + 8 * q + 16 * (q * q);
    assert p * (p * n * n) == q * q;
  }

  /** The shift of 2^k steps is an odd multiple of 2^k. */
  lemma {:induction false} ShiftIsOdd(k: nat) returns (j: int)
    ensures Shift(k) == Pow2(k) * (2 * j + 1)
  {
    if k == 0 {
      j := (INCREMENT - 1) / 2;
    } else {
      var i := ShiftIsOdd(k - 1);
      var m := SlopeIsOne(k - 1);
      j := i + (2 * i + 1) * (Pow2(k - 1) * m);
      ShiftArithmetic(Pow2(k - 1), i, m);
    }
  }

  lemma ShiftArithmetic(p: int, i: int, m: int)
    ensures (p * (2 * i + 1)) * ((1 + 4 * p * m) + 1)
         == (2 * p) * (2 * (i + (2 * i + 1) * (p * m)) + 1)
  {
    var odd, q := 2 * i + 1, p * m;
    assert 4 * p * m == 4 * q;
    Associate(p, odd, 2 + 4 * q);
    assert odd * (2 + 4 * q) == 2 * odd + 4 * (odd * q);
    Associate(2, p, odd + 2 * (odd * q));
  }

  /** 2^k steps add an odd multiple of 2^k, for every k below 64. */
  lemma JumpAddsOddMultiple(x: u64, k: nat) returns (w: int)
    requires k < 64
    ensures Iterate(x, Pow2(k)) == x + Pow2(k) * (2 * w + 1)
  {
    var p := Pow2(k);
    var m := SlopeIsOne(k);
    var j := ShiftIsOdd(k);
    var t := IterateIsAffine(x, k);
    Pow2Is64();
    Pow2Split(k, 64 - k);
    var q := Pow2(63 - k);
    assert Pow2(64 - k) == 2 * q;
    assert U64_LIMIT == p * (2 * q);
    w := 2 * (m * x) + j + q * t;
    JumpArithmetic(p, q, m, j, t, x);
  }

  lemma JumpArithmetic(p: int, q: int, m: int, j: int, t: int, x: int)
    ensures (1 + 4 * p * m) * x + p * (2 * j + 1) + (p * (2 * q)) * t
         == x + p * (2 * (2 * (m * x) + j + q * t) + 1)
  {
    assert (4 * p * m) * x == p * (4 * (m * x)) by {
      assert 4 * p * m == p * (4 * m);
      Associate(p, 4 * m, x);
      assert (4 * m) * x == 4 * (m * x);
    }
    assert (1 + 4 * p * m) * x == x + (4 * p * m) * x;
    assert (p * (2 * q)) * t == p * (2 * (q * t)) by {
      Associate(p, 2 * q, t);
      assert (2 * q) * t == 2 * (q * t);
    }
    Collect(p, 4 * (m * x), 2 * j + 1, 2 * (q * t));
  }

  lemma Associate(a: int, b: int, c: int)
    ensures (a * b) * c == a * (b * c)
  {
  }

  lemma Collect(p: int, a: int, b: int, c: int)
    ensures p * a + p * b + p * c == p * (a + b + c)
  {
  }

  /** Fewer than 2^k steps clear the low k bits of any state. */
  lemma {:induction false} ClearLowBits(x: u64, k: nat) returns (n: nat, w: int)
    requires k <= 64
    ensures n < Pow2(k)
    ensures Iterate(x, n) == Pow2(k) * w
  {
    if k == 0 {
      n, w := 0, x;
    } else {
      var p := Pow2(k - 1);
      var m, v := ClearLowBits(x, k - 1);
      var y := Iterate(x, m);
      if v % 2 == 0 {
        n, w := m, v / 2;
        Associate(p, 2, w);
      } else {
        var u := JumpAddsOddMultiple(y, k - 1);
        n, w := m + p, v / 2 + u + 1;
        IterateSplit(x, m, p);
        Collect(p, v, 2 * u + 1, 0);
        Associate(p, 2, w);
      }
    }
  }

  /** Every state reaches 0 in fewer than 2^64 steps. */
  lemma ReachesZero(x: u64)
    ensures exists n: nat :: n < U64_LIMIT && Iterate(x, n) == 0
  {
    var n, w := ClearLowBits(x, 64);
    Pow2Is64();
    OnlyZeroIsMultiple(Iterate(x, n), w);
  }

  lemma OnlyZeroIsMultiple(y: u64, w: int)
    requires y == U64_LIMIT * w
    ensures y == 0
  {
  }

  ghost function FirstZero(x: u64, n: nat): (m: nat)
    requires Iterate(x, n) == 0
    ensures m <= n && Iterate(x, m) == 0
    ensures forall i: nat :: Iterate(x, i) == 0 ==> m <= i
    decreases n
  {
    if x == 0 then 0 else 1 + FirstZero(Next(x), n - 1)
  }

  /** The number of generator steps from `x` to 0: the measure of the rejection loop. */
  ghost function StepsToZero(x: u64): (m: nat)
    ensures Iterate(x, m) == 0 && m < U64_LIMIT
    ensures forall i: nat :: Iterate(x, i) == 0 ==> m <= i
  {
    ReachesZero(x);
    var n: nat :| n < U64_LIMIT && Iterate(x, n) == 0;
    FirstZero(x, n)
  }

  lemma StepApproachesZero(x: u64)
    requires x != 0
    ensures StepsToZero(Next(x)) == StepsToZero(x) - 1
  {
    var m := StepsToZero(x);
    assert Iterate(x, m) == Iterate(Next(x), m - 1);
    var n := StepsToZero(Next(x));
    assert Iterate(x, n + 1) == Iterate(Next(x), n);
  }
}
