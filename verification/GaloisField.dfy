/**
 Arithmetic in GF(2^8) modulo x^8 + x^4 + x^3 + x + 1 (section 4 of FIPS 197), as the AES
 table generator uses it: repeated Xtime, powers of the generator 3, and discrete logarithms.

 Bit-level facts are proved once, on plain bit-vectors; every proof above them hides the
 definitions and argues by the field laws alone.
 */
module GaloisField {
  import opened Words

  function Add(a: bv8, b: bv8): bv8 { a ^ b }

  function Half(a: bv8): bv8 { a >> 1 }

  /** The XTIME macro: multiplication by the polynomial x. */
  function Xtime(x: bv8): bv8 {
    (x << 1) ^ (if x & 0x80 != 0 then 0x1B else 0)
  }

  function Low(a: bv8, b: bv8): bv8 { if a & 1 != 0 then b else 0 }

  /** The product of section 4.2: one Xtime of b for every bit of a. */
  function Mul(a: bv8, b: bv8): bv8
    decreases a
  {
    if a == 0 then 0 else Add(Low(a, b), Mul(Half(a), Xtime(b)))
  }

  // ---------------------------------------------------------------- bit-level facts

  lemma AddLaws(a: bv8, b: bv8)
    ensures Add(a, 0) == a && Add(0, a) == a && Add(a, a) == 0
    ensures Add(a, b) == Add(b, a)
  {}

  lemma AddAssoc(a: bv8, b: bv8, c: bv8)
    ensures Add(Add(a, b), c) == Add(a, Add(b, c))
  {}

  lemma AddSwap(a: bv8, b: bv8, c: bv8, d: bv8)
    ensures Add(Add(a, b), Add(c, d)) == Add(Add(a, c), Add(b, d))
  {
    hide *;
    AddAssoc(a, b, Add(c, d)); AddAssoc(b, c, d); AddLaws(b, c);
    AddAssoc(c, b, d); AddAssoc(a, c, Add(b, d));
  }

  function Sum4(a: bv8, b: bv8, c: bv8, d: bv8): bv8 { Add(Add(a, b), Add(c, d)) }

  lemma Sum4Add(a0: bv8, a1: bv8, a2: bv8, a3: bv8, b0: bv8, b1: bv8, b2: bv8, b3: bv8)
    ensures Add(Sum4(a0, a1, a2, a3), Sum4(b0, b1, b2, b3)) == Sum4(Add(a0, b0), Add(a1, b1), Add(a2, b2), Add(a3, b3))
  {
    hide Add;
    AddSwap(Add(a0, a1), Add(a2, a3), Add(b0, b1), Add(b2, b3));
    AddSwap(a0, a1, b0, b1); AddSwap(a2, a3, b2, b3);
  }

  /** The sum of a four by four table, by rows or by columns. */
  lemma Sum4Transpose(a0: bv8, a1: bv8, a2: bv8, a3: bv8, b0: bv8, b1: bv8, b2: bv8, b3: bv8,
                      c0: bv8, c1: bv8, c2: bv8, c3: bv8, d0: bv8, d1: bv8, d2: bv8, d3: bv8)
    ensures Sum4(Sum4(a0, a1, a2, a3), Sum4(b0, b1, b2, b3), Sum4(c0, c1, c2, c3), Sum4(d0, d1, d2, d3))
         == Sum4(Sum4(a0, b0, c0, d0), Sum4(a1, b1, c1, d1), Sum4(a2, b2, c2, d2), Sum4(a3, b3, c3, d3))
  {
    hide Add;
    Sum4Add(a0, a1, a2, a3, b0, b1, b2, b3);
    Sum4Add(c0, c1, c2, c3, d0, d1, d2, d3);
    Sum4Add(Add(a0, b0), Add(a1, b1), Add(a2, b2), Add(a3, b3), Add(c0, d0), Add(c1, d1), Add(c2, d2), Add(c3, d3));
  }

  /** The order in which a table round adds: the round key first, then one column entry each. */
  lemma Sum4Chain(k: bv8, a: bv8, b: bv8, c: bv8, d: bv8)
    ensures Add(Add(Add(Add(k, a), b), c), d) == Add(Sum4(a, b, c, d), k)
  {
    hide Add;
    AddAssoc(Add(Add(k, a), b), c, d);
    AddAssoc(k, a, b);
    AddAssoc(k, Add(a, b), Add(c, d));
    AddLaws(k, Sum4(a, b, c, d));
  }

  lemma XtimeAdd(a: bv8, b: bv8)
    ensures Xtime(Add(a, b)) == Add(Xtime(a), Xtime(b))
  {
    if a & 0x80 != 0 { if b & 0x80 != 0 {} } else { if b & 0x80 != 0 {} }
  }

  lemma LowAddLeft(a: bv8, c: bv8, b: bv8)
    ensures Low(Add(a, c), b) == Add(Low(a, b), Low(c, b))
  {
    if a & 1 != 0 { if c & 1 != 0 {} } else { if c & 1 != 0 {} }
  }

  lemma LowAddRight(a: bv8, b: bv8, c: bv8)
    ensures Low(a, Add(b, c)) == Add(Low(a, b), Low(a, c))
    ensures Low(a, Xtime(b)) == Xtime(Low(a, b))
  {}

  lemma HalfFacts(a: bv8, c: bv8)
    ensures Half(Add(a, c)) == Add(Half(a), Half(c))
    ensures a | c != 0 ==> Half(a) | Half(c) < a | c
    ensures a | c == 0 ==> a == 0 && c == 0
    ensures a != 0 ==> Half(a) < a
  {}

  lemma MulUnfold(a: bv8, b: bv8)
    ensures Mul(a, b) == Add(Low(a, b), Mul(Half(a), Xtime(b)))
  {
    if a == 0 { assert a >> 1 == 0; }
  }

  /** x^8 reduces to x^4 + x^3 + x + 1. */
  lemma XtimeEight(b: bv8, b1: bv8, b2: bv8, b3: bv8, b4: bv8, b5: bv8, b6: bv8, b7: bv8)
    requires b1 == Xtime(b) && b2 == Xtime(b1) && b3 == Xtime(b2) && b4 == Xtime(b3)
    requires b5 == Xtime(b4) && b6 == Xtime(b5) && b7 == Xtime(b6)
    ensures Xtime(b7) == Add(b, Add(b1, Add(b3, b4)))
  {}

  /** Splits a byte into the part that Xtime shifts and the bit that it reduces. */
  lemma XtimeSplit(b: bv8)
    ensures b & 0x80 == 0 ==> Xtime(b) == b << 1
    ensures b & 0x80 != 0 ==> b == Add(b & 0x7F, 0x80) && Xtime(b) == Add((b & 0x7F) << 1, 0x1B)
    ensures (b & 0x7F) & 0x80 == 0
  {}

  lemma DoubleFacts(b: bv8, c: bv8)
    requires b & 0x80 == 0
    ensures Low(b << 1, c) == 0 && Half(b << 1) == b
  {}

  // ---------------------------------------------------------------- the ring laws

  lemma MulByZeroOne(b: bv8)
    ensures Mul(0, b) == 0 && Mul(1, b) == b
  {
    assert Half(1) == 0;
  }

  lemma {:induction false} MulZero(a: bv8)
    ensures Mul(a, 0) == 0
    decreases a
  {
    if a != 0 {
      MulZero(Half(a));
      assert Low(a, 0) == 0 && Xtime(0) == 0;
    }
  }

  lemma {:induction false} MulAddRight(a: bv8, b: bv8, c: bv8)
    ensures Mul(a, Add(b, c)) == Add(Mul(a, b), Mul(a, c))
    decreases a
  {
    if a != 0 {
      hide *;
      HalfFacts(a, a);
      XtimeAdd(b, c);
      LowAddRight(a, b, c);
      MulAddRight(Half(a), Xtime(b), Xtime(c));
      MulUnfold(a, b); MulUnfold(a, c); MulUnfold(a, Add(b, c));
      AddSwap(Low(a, b), Low(a, c), Mul(Half(a), Xtime(b)), Mul(Half(a), Xtime(c)));
    }
  }

  lemma {:induction false} MulAddLeft(a: bv8, c: bv8, b: bv8)
    ensures Mul(Add(a, c), b) == Add(Mul(a, b), Mul(c, b))
    decreases a | c
  {
    HalfFacts(a, c);
    if a | c != 0 {
      hide *;
      LowAddLeft(a, c, b);
      MulAddLeft(Half(a), Half(c), Xtime(b));
      MulUnfold(Add(a, c), b); MulUnfold(a, b); MulUnfold(c, b);
      AddSwap(Low(a, b), Low(c, b), Mul(Half(a), Xtime(b)), Mul(Half(c), Xtime(b)));
    }
  }

  lemma {:induction false} MulXtimeRight(a: bv8, b: bv8)
    ensures Mul(a, Xtime(b)) == Xtime(Mul(a, b))
    decreases a
  {
    if a != 0 {
      hide *;
      HalfFacts(a, a);
      MulXtimeRight(Half(a), Xtime(b));
      XtimeAdd(Low(a, b), Mul(Half(a), Xtime(b)));
      LowAddRight(a, b, b);
      MulUnfold(a, b); MulUnfold(a, Xtime(b));
    }
  }

  lemma MulDouble(b: bv8, c: bv8)
    requires b & 0x80 == 0
    ensures Mul(b << 1, c) == Mul(b, Xtime(c))
  {
    hide *;
    DoubleFacts(b, c);
    MulUnfold(b << 1, c);
    AddLaws(Mul(b, Xtime(c)), 0);
  }

  /** The products by the powers of x that MulReduce compares. */
  lemma MulPowersOfX(c: bv8)
    ensures Mul(0x02, c) == Xtime(c)
    ensures Mul(0x04, c) == Xtime(Xtime(c))
    ensures Mul(0x08, c) == Xtime(Xtime(Xtime(c)))
    ensures Mul(0x10, c) == Xtime(Mul(0x08, c))
    ensures Mul(0x20, c) == Xtime(Mul(0x10, c))
    ensures Mul(0x40, c) == Xtime(Mul(0x20, c))
    ensures Mul(0x80, c) == Xtime(Mul(0x40, c))
  {
    hide *;
    MulByZeroOne(c); MulByZeroOne(Xtime(c));
    MulDouble(0x01, c); MulXtimeRight(0x01, c);
    MulDouble(0x02, c); MulXtimeRight(0x02, c);
    MulDouble(0x04, c); MulXtimeRight(0x04, c);
    MulDouble(0x08, c); MulXtimeRight(0x08, c);
    MulDouble(0x10, c); MulXtimeRight(0x10, c);
    MulDouble(0x20, c); MulXtimeRight(0x20, c);
    MulDouble(0x40, c); MulXtimeRight(0x40, c);
  }

  lemma MulReduce(c: bv8)
    ensures Mul(0x1B, c) == Mul(0x80, Xtime(c))
  {
    assert 0x1B == Add(0x01, Add(0x02, Add(0x08, 0x10)));
    hide *;
    MulPowersOfX(c);
    MulAddLeft(0x01, Add(0x02, Add(0x08, 0x10)), c);
    MulAddLeft(0x02, Add(0x08, 0x10), c);
    MulAddLeft(0x08, 0x10, c);
    MulByZeroOne(c);
    XtimeEight(c, Mul(0x02, c), Mul(0x04, c), Mul(0x08, c), Mul(0x10, c), Mul(0x20, c), Mul(0x40, c), Mul(0x80, c));
    MulXtimeRight(0x80, c);
  }

  lemma MulXtimeLeft(b: bv8, c: bv8)
    ensures Mul(Xtime(b), c) == Xtime(Mul(b, c))
  {
    hide *;
    XtimeSplit(b);
    MulXtimeRight(b, c);
    if b & 0x80 == 0 {
      MulDouble(b, c);
    } else {
      var low := b & 0x7F;
      MulDouble(low, c);
      MulReduce(c);
      MulAddLeft(low << 1, 0x1B, c);
      MulAddLeft(low, 0x80, Xtime(c));
    }
  }

  lemma MulSum4(k: bv8, a: bv8, b: bv8, c: bv8, d: bv8)
    ensures Mul(k, Sum4(a, b, c, d)) == Sum4(Mul(k, a), Mul(k, b), Mul(k, c), Mul(k, d))
  {
    hide Mul, Add;
    MulAddRight(k, Add(a, b), Add(c, d)); MulAddRight(k, a, b); MulAddRight(k, c, d);
  }

  lemma Sum4Mul(k: bv8, l: bv8, m: bv8, n: bv8, a: bv8)
    ensures Sum4(Mul(k, a), Mul(l, a), Mul(m, a), Mul(n, a)) == Mul(Sum4(k, l, m, n), a)
  {
    hide Mul, Add;
    MulAddLeft(Add(k, l), Add(m, n), a); MulAddLeft(k, l, a); MulAddLeft(m, n, a);
  }

  lemma LowMul(a: bv8, b: bv8, c: bv8)
    ensures Mul(Low(a, b), c) == Low(a, Mul(b, c))
  {
    hide Mul;
    MulByZeroOne(c);
  }

  lemma {:induction false} MulAssoc(a: bv8, b: bv8, c: bv8)
    ensures Mul(Mul(a, b), c) == Mul(a, Mul(b, c))
    decreases a
  {
    MulByZeroOne(c);
    if a != 0 {
      hide *;
      HalfFacts(a, a);
      MulUnfold(a, b);
      MulAddLeft(Low(a, b), Mul(Half(a), Xtime(b)), c);
      LowMul(a, b, c);
      MulAssoc(Half(a), Xtime(b), c);
      MulXtimeLeft(b, c);
      MulUnfold(a, Mul(b, c));
    }
  }

  // ---------------------------------------------------------------- powers of the generator

  function Power(x: bv8, n: nat): bv8 {
    if n == 0 then 1 else Mul(x, Power(x, n - 1))
  }

  lemma {:induction false} PowerAdd(x: bv8, m: nat, n: nat)
    ensures Power(x, m + n) == Mul(Power(x, m), Power(x, n))
  {
    hide Mul;
    MulByZeroOne(Power(x, n));
    if m > 0 {
      PowerAdd(x, m - 1, n);
      MulAssoc(x, Power(x, m - 1), Power(x, n));
    }
  }

  lemma {:induction false} PowerMul(x: bv8, m: nat, n: nat)
    ensures Power(x, m * n) == Power(Power(x, m), n)
    decreases n
  {
    hide Mul;
    if n > 0 {
      PowerMul(x, m, n - 1);
      PowerAdd(x, m, m * (n - 1));
      assert m * n == m + m * (n - 1);
    }
  }

  lemma {:induction false} OnePower(n: nat)
    ensures Power(1, n) == 1
  {
    if n > 0 { OnePower(n - 1); MulByZeroOne(1); }
  }

  /** One step of the loop that fills the pow table multiplies by 3. */
  lemma TimesThree(x: bv8)
    ensures Mul(3, x) == x ^ Xtime(x)
  {
    assert 3 == Add(1, 2);
    hide Mul;
    MulAddLeft(1, 2, x);
    MulByZeroOne(x);
    MulPowersOfX(x);
  }

  lemma PowerStep(m: nat, n: nat, v: bv8, w: bv8, product: bv8)
    requires Power(3, m) == v && Power(3, n) == w && Mul(v, w) == product
    ensures Power(3, m + n) == product
  {
    PowerAdd(3, m, n);
  }

  lemma FirstProducts()
    ensures Mul(0x03, 0x03) == 0x05
    ensures Mul(0x05, 0x05) == 0x11
    ensures Mul(0x11, 0x03) == 0x33
  {}

  lemma SecondProducts()
    ensures Mul(0x33, 0x33) == 0x72
    ensures Mul(0x72, 0x33) == 0x35
  {
    assert Mul(0x0C, 0xCC) == 0x27;
    assert Mul(0x1C, 0xCC) == 0x53;
  }

  lemma ThirdProducts()
    ensures Mul(0x35, 0x05) == 0xE1
    ensures Mul(0xE1, 0xE1) == 0x5C
  {}

  lemma FourthProducts()
    ensures Mul(0x5C, 0xE1) == 0x0C
    ensures Mul(0x0C, 0x5C) == 0xBD
  {}

  lemma LastProducts()
    ensures Mul(0xBD, 0xBD) == 0xBC
    ensures Mul(0xBC, 0xBD) == 0x01
  {}

  lemma PowerBase(x: bv8)
    ensures Power(x, 0) == 1 && Power(x, 1) == Mul(x, 1)
  {}

  /** 255 = 3 * 5 * 17: the power 255 is one, and no maximal proper divisor of 255 gives one. */
  lemma ThreeAtDivisors()
    ensures Power(3, 255) == 1
    ensures Power(3, 15) != 1 && Power(3, 51) != 1 && Power(3, 85) != 1
  {
    assert 1 ^ Xtime(1) == 0x03;
    hide *;
    TimesThree(1); PowerBase(3);
    FirstProducts(); SecondProducts(); ThirdProducts(); FourthProducts(); LastProducts();
    PowerStep(1, 1, 0x03, 0x03, 0x05);
    PowerStep(2, 2, 0x05, 0x05, 0x11);
    PowerStep(4, 1, 0x11, 0x03, 0x33);
    PowerStep(5, 5, 0x33, 0x33, 0x72);
    PowerStep(10, 5, 0x72, 0x33, 0x35);
    PowerStep(15, 2, 0x35, 0x05, 0xE1);
    PowerStep(17, 17, 0xE1, 0xE1, 0x5C);
    PowerStep(34, 17, 0x5C, 0xE1, 0x0C);
    PowerStep(51, 34, 0x0C, 0x5C, 0xBD);
    PowerStep(85, 85, 0xBD, 0xBD, 0xBC);
    PowerStep(170, 85, 0xBC, 0xBD, 0x01);
  }

  lemma PowerOfOne(d: nat, q: nat, e: nat)
    requires Power(3, d) == 1 && e == d * q
    ensures Power(3, e) == 1
  {
    PowerMul(3, d, q);
    OnePower(q);
  }

  /** If 3^d is one for a smaller d, then it is one for the remainder of 255 by d too. */
  lemma {:induction false} ThreeOrder(d: nat)
    requires 0 < d < 255
    ensures Power(3, d) != 1
  {
    hide *;
    if Power(3, d) == 1 {
      ThreeAtDivisors();
      var q, r := 255 / d, 255 % d;
      PowerOfOne(d, q, d * q);
      PowerAdd(3, d * q, r);
      MulByZeroOne(Power(3, r));
      if r > 0 {
        ThreeOrder(r);
      } else {
        ProperDivisor(d);
        var e := if 15 % d == 0 then 15 else if 51 % d == 0 then 51 else 85;
        PowerOfOne(d, e / d, e);
      }
    }
  }

  lemma ProperDivisor(d: nat)
    requires 0 < d < 255 && 255 % d == 0
    ensures 15 % d == 0 || 51 % d == 0 || 85 % d == 0
  {
    var q := 255 / d;
    assert 255 == d * q;
    if d > 16 {
      assert q <= 15;
      assert q == 1 || q == 2 || q == 3 || q == 4 || q == 5 || q == 6 || q == 7 || q == 8
          || q == 9 || q == 10 || q == 11 || q == 12 || q == 13 || q == 14 || q == 15;
    }
  }

  lemma ThreeNonzero(i: nat)
    requires i <= 255
    ensures Power(3, i) != 0
  {
    hide *;
    ThreeAtDivisors();
    PowerAdd(3, i, 255 - i);
    MulByZeroOne(Power(3, 255 - i));
  }

  lemma ThreeDistinct(i: nat, j: nat)
    requires i < j < 255
    ensures Power(3, i) != Power(3, j)
  {
    hide *;
    if Power(3, i) == Power(3, j) {
      ThreeAtDivisors();
      PowerAdd(3, j, 255 - i);
      PowerAdd(3, i, 255 - i);
      PowerAdd(3, 255, j - i);
      MulByZeroOne(Power(3, j - i));
      ThreeOrder(j - i);
    }
  }

  // ---------------------------------------------------------------- every nonzero byte is a power

  /** The table indices of the nonzero bytes, up to n. */
  ghost function Indices(n: nat): (s: set<int>)
    ensures |s| == n
    ensures forall i :: i in s <==> 1 <= i <= n
  {
    if n == 0 then {} else Indices(n - 1) + {n}
  }

  /** The first n powers of 3, as table indices. */
  ghost function Powers(n: nat): set<int> {
    if n == 0 then {} else Powers(n - 1) + {Index(Power(3, n - 1))}
  }

  lemma {:induction false} PowersMember(n: nat, v: int) returns (k: nat)
    requires v in Powers(n)
    ensures k < n && Index(Power(3, k)) == v
  {
    hide Power, Index;
    if v == Index(Power(3, n - 1)) {
      k := n - 1;
    } else {
      k := PowersMember(n - 1, v);
    }
  }

  lemma {:induction false} PowersSize(n: nat)
    requires n <= 255
    ensures |Powers(n)| == n
    ensures forall v :: v in Powers(n) ==> 1 <= v <= 255
  {
    hide Power, Mul, Index;
    if n > 0 {
      PowersSize(n - 1);
      var last := Power(3, n - 1);
      ThreeNonzero(n - 1);
      IndexZero(last);
      if Index(last) in Powers(n - 1) {
        var k := PowersMember(n - 1, Index(last));
        IndexInjective(Power(3, k), last);
        ThreeDistinct(k, n - 1);
      }
    }
  }

  lemma SameSize<T>(a: set<T>, b: set<T>)
    requires a <= b && |a| == |b|
    ensures a == b
  {
    assert |b - a| == |b| - |a|;
    assert b == a + (b - a);
  }

  /** 3 generates the multiplicative group: every nonzero byte has a logarithm. */
  lemma Logarithm(b: bv8) returns (k: nat)
    requires b != 0
    ensures k < 255 && Power(3, k) == b
  {
    hide *;
    PowersSize(255);
    SameSize(Powers(255), Indices(255));
    IndexZero(b);
    k := PowersMember(255, Index(b));
    IndexInjective(Power(3, k), b);
  }

  // ---------------------------------------------------------------- inverses

  /** The multiplicative inverse, with zero mapped to itself (section 5.1.1 of FIPS 197). */
  function Inverse(x: bv8): bv8 { Power(x, 254) }

  lemma InverseLaw(x: bv8)
    ensures x == 0 ==> Inverse(x) == 0
    ensures x != 0 ==> Mul(x, Inverse(x)) == 1 && Mul(Inverse(x), x) == 1 && Inverse(x) != 0
  {
    hide Mul, Power;
    PowerStepUp(x);
    MulByZeroOne(Power(x, 253)); MulByZeroOne(Inverse(x)); MulZero(x);
    if x != 0 {
      var k := Logarithm(x);
      ThreeAtDivisors();
      PowerMul(3, k, 255); PowerMul(3, 255, k);
      OnePower(k);
      PowerAdd(x, 1, 254); PowerAdd(x, 254, 1);
    }
  }

  lemma PowerStepUp(x: bv8)
    ensures Power(x, 254) == Mul(x, Power(x, 253)) && Power(x, 1) == x
  {
    hide Mul;
    PowerBase(x);
    if x != 0 { MulOneRight(x); } else { MulByZeroOne(1); }
  }

  lemma {:induction false} MulOneRight(x: bv8)
    requires x != 0
    ensures Mul(x, 1) == x
  {
    hide *;
    var k := Logarithm(x);
    PowerBase(3);
    PowerAdd(3, k, 0);
  }

  lemma InverseUnique(x: bv8, y: bv8)
    requires Mul(y, x) == 1
    ensures y == Inverse(x) && x != 0
  {
    hide *;
    InverseLaw(x);
    MulZero(y);
    MulAssoc(y, x, Inverse(x));
    MulByZeroOne(Inverse(x));
    if y != 0 { MulOneRight(y); } else { MulByZeroOne(x); }
  }

}
