/**
 The pseudo-random generator of sdk_src/utils/qcloud_iot_http.c: a multiplicative congruential step
 modulo the prime 2^31 - 1, computed by Schrage's method so that every intermediate fits an int32.
 */
module Generator {
  import opened Arithmetic

  const M := 0x7fff_ffff
  const A := 48271
  const Q := 44488
  const R := 3399
  /** The multiplier that undoes A. */
  const AInverse := 1899818559

  /** The conversion of an unsigned int to an int32. */
  function Signed(x: uint32): int32 { if x < 0x8000_0000 then x else x - 0x1_0000_0000 }

  /** The number the generator is to deliver after the seed x. */
  function Step(x: int): (y: int)
    ensures 0 <= y < M
  {
    A * x % M
  }

  /** qcloud_rand_r and the static seed it is used with. */
  class Source {
    var seed: uint32

    constructor ()
      ensures seed == 1
    {
      seed := 1;
    }

    /** qcloud_srand_d */
    method Reseed(i: uint32)
      modifies this
      ensures seed == i
    {
      seed := i;
    }

    /** qcloud_rand_r: the types of the locals are the proof that no intermediate overflows. */
    method Rand() returns (r: int32)
      modifies this
      ensures r == seed == Step(Signed(old(seed)))
    {
      var X: int32 := Signed(seed);
      Schrage(X);
      var left: int32 := A * Remainder(X, Q);
      var right: int32 := R * Quotient(X, Q);
      X := left - right;
      if X < 0 {
        X := X + M;
      }
      seed := X;
      return X;
    }

    /** Draws n numbers. */
    method Draw(n: nat) returns (drawn: seq<int32>)
      requires 0 < seed < M
      modifies this
      ensures |drawn| == n && forall i :: 0 <= i < n ==> drawn[i] == old(seed) * Exp(i + 1) % M && 0 < drawn[i] < M
      ensures seed == old(seed) * Exp(n) % M && 0 < seed < M
    {
      drawn := [];
      Stays(seed, 0);
      for i := 0 to n
        invariant |drawn| == i && seed == old(seed) * Power(i) % M && 0 < seed < M
        invariant forall j :: 0 <= j < i ==> drawn[j] == old(seed) * Exp(j + 1) % M && 0 < drawn[j] < M
      {
        PowerTimes(old(seed), i + 1);
        StepMultiplies(old(seed), i);
        Stays(old(seed), i + 1);
        var x := Rand();
        drawn := drawn + [x];
      }
      PowerTimes(old(seed), n);
    }
  }

  /** A * x is A * (x mod Q) - R * (x div Q) up to a multiple of M, and both parts are small. */
  lemma Schrage(x: int32)
    ensures var (l, r) := (A * Remainder(x, Q), R * Quotient(x, Q));
            && -M < l < M && -M < r < M && -M < l - r < M
            && Step(x) == if l - r < 0 then l - r + M else l - r
  {
    var (q, m) := (Quotient(x, Q), Remainder(x, Q));
    assert -Q < m < Q && -A - 1 <= q <= A + 1;
    assert A * x == M * q + (A * m - R * q);
    var y := A * m - R * q;
    if y < 0 { DivisionUnique(A * x, M, q - 1, y + M); } else { DivisionUnique(A * x, M, q, y); }
  }

  /** A^n mod M */
  function Power(n: nat): (p: nat)
    ensures p < M
  {
    if n == 0 then 1 else A * Power(n - 1) % M
  }

  lemma ModProduct(a: int, b: int)
    ensures (a % M) * b % M == a * b % M
  {
    var q := a / M;
    assert a == M * q + a % M;
    var (p, r) := ((a % M) * b, q * b);
    assert a * b == M * r + p by { assert (M * q + a % M) * b == M * (q * b) + (a % M) * b; }
    DivisionUnique(a * b, M, r + p / M, p % M);
  }

  /** A^n */
  function Exp(n: nat): nat { if n == 0 then 1 else A * Exp(n - 1) }

  lemma {:induction false} PowerIsExp(n: nat)
    ensures Power(n) == Exp(n) % M
  {
    if n > 0 {
      PowerIsExp(n - 1);
      ModProduct(Exp(n - 1), A);
      assert Exp(n - 1) % M * A == A * Power(n - 1);
    }
  }

  /** n steps multiply by A^n. */
  lemma PowerTimes(seed: int, n: nat)
    ensures seed * Power(n) % M == seed * Exp(n) % M
  {
    PowerIsExp(n);
    hide Power, Exp;
    ModProduct(Exp(n), seed);
    var (p, e) := (Power(n), Exp(n));
    assert seed * p == p * seed && seed * e == e * seed;
  }

  lemma StepMultiplies(seed: int, n: nat)
    ensures Step(seed * Power(n) % M) == seed * Power(n + 1) % M
  {
    StepProduct(seed, Power(n));
  }

  lemma StepProduct(x: int, y: int)
    ensures Step(x * y % M) == x * Step(y) % M
  {
    var z := x * y;
    ModProduct(z, A);
    ModProduct(A * y, x);
    assert (A * y) * x == A * z;
    var s := Step(y);
    assert x * s == s * x;
  }

  /** The step in plain numbers, and the numbers that the seed 1 leads to. */
  lemma StepNumbers(x: int)
    ensures Step(x) == 48271 * x % 2147483647
    ensures Step(1) == 48271 && Step(48271) == 182605794 && Step(182605794) == 1291394886
  {
  }

  /** The generator's step has an inverse, so no two seeds lead to the same number. */
  lemma StepInverse(x: int)
    ensures AInverse * Step(x) % M == x % M
  {
    ModProduct(A * x, AInverse);
    assert A * AInverse == M * 42704 + 1;
    assert (A * x) * AInverse == M * (42704 * x) + x;
    DivisionUnique((A * x) * AInverse, M, 42704 * x + x / M, x % M);
  }

  lemma StepInjective(x: nat, y: nat)
    requires x < M && y < M && Step(x) == Step(y)
    ensures x == y
  {
    StepInverse(x);
    StepInverse(y);
  }

  /** Exactly three of the 2^32 seeds lead to the fixed point zero. */
  lemma DeadSeeds(seed: uint32)
    ensures Step(Signed(seed)) == 0 <==> seed in {0, M, 0x1_0000_0000 - M}
  {
    ZeroStep(Signed(seed));
    hide Step;
  }

  lemma ZeroStep(x: int)
    ensures Step(x) == 0 <==> x % M == 0
  {
    StepInverse(x);
    if x % M == 0 {
      assert x == M * (x / M);
      DivisionUnique(A * x, M, A * (x / M), 0);
    }
  }

  lemma {:induction false} Stays(seed: int, n: nat)
    requires 0 < seed < M
    ensures 0 < seed * Power(n) % M < M
  {
    if n == 0 {
      assert Power(0) == 1;
    } else {
      Stays(seed, n - 1);
      StepMultiplies(seed, n - 1);
      StaysOne(seed * Power(n - 1) % M, seed * Power(n) % M);
    }
  }

  lemma StaysOne(x: int, y: int)
    requires 0 < x < M && y == Step(x)
    ensures 0 < y < M
  {
    ZeroStep(x);
  }
}
