/**
 The MD5 compression function: section 3.4 of RFC 1321 against the unrolled macro calls.
 */
module Md5 {
  import opened Words

  datatype Registers = Registers(a: bv32, b: bv32, c: bv32, d: bv32)

  function Rotl(x: bv32, s: bv32): bv32
    requires 0 < s < 32
  {
    (x << s) | (x >> (32 - s))
  }

  /** The sixteen rotations that the steps use. */
  lemma Rotations(x: bv32)
    ensures Rotl(x, 7) == x.RotateLeft(7) && Rotl(x, 12) == x.RotateLeft(12)
    ensures Rotl(x, 17) == x.RotateLeft(17) && Rotl(x, 22) == x.RotateLeft(22)
    ensures Rotl(x, 5) == x.RotateLeft(5) && Rotl(x, 9) == x.RotateLeft(9)
    ensures Rotl(x, 14) == x.RotateLeft(14) && Rotl(x, 20) == x.RotateLeft(20)
    ensures Rotl(x, 4) == x.RotateLeft(4) && Rotl(x, 11) == x.RotateLeft(11)
    ensures Rotl(x, 16) == x.RotateLeft(16) && Rotl(x, 23) == x.RotateLeft(23)
    ensures Rotl(x, 6) == x.RotateLeft(6) && Rotl(x, 10) == x.RotateLeft(10)
    ensures Rotl(x, 15) == x.RotateLeft(15) && Rotl(x, 21) == x.RotateLeft(21)
  {
  }

  function LittleEndian(b: seq<bv8>, i: nat): bv32
    requires i + 4 <= |b|
  {
    Pack(b[i], b[i + 1], b[i + 2], b[i + 3])
  }

  // ---------------------------------------------------------------- RFC 1321, section 3.4

  function F(x: bv32, y: bv32, z: bv32): bv32 { (x & y) | (!x & z) }
  function G(x: bv32, y: bv32, z: bv32): bv32 { (x & z) | (y & !z) }
  function H(x: bv32, y: bv32, z: bv32): bv32 { x ^ y ^ z }
  function I(x: bv32, y: bv32, z: bv32): bv32 { y ^ (x | !z) }

  function Mix(i: nat, x: bv32, y: bv32, z: bv32): bv32 {
    if i < 16 then F(x, y, z) else if i < 32 then G(x, y, z) else if i < 48 then H(x, y, z) else I(x, y, z)
  }

  /** The message word that operation i uses. */
  function Word(i: nat): (k: nat)
    ensures k < 16
  {
    if i < 16 then i else if i < 32 then (5 * i + 1) % 16 else if i < 48 then (3 * i + 5) % 16 else (7 * i) % 16
  }

  function Shift(i: nat): (s: bv32)
    ensures 0 < s < 32
  {
    var j := i % 4;
    if i < 16 then (if j == 0 then 7 else if j == 1 then 12 else if j == 2 then 17 else 22)
    else if i < 32 then (if j == 0 then 5 else if j == 1 then 9 else if j == 2 then 14 else 20)
    else if i < 48 then (if j == 0 then 4 else if j == 1 then 11 else if j == 2 then 16 else 23)
    else (if j == 0 then 6 else if j == 1 then 10 else if j == 2 then 15 else 21)
  }

  /** The table T: the integer part of 2^32 times the absolute sine of i + 1. */
  function Sine1(i: nat): bv32 {
    if i == 0 then 0xD76AA478 else if i == 1 then 0xE8C7B756 else if i == 2 then 0x242070DB else
    if i == 3 then 0xC1BDCEEE else if i == 4 then 0xF57C0FAF else if i == 5 then 0x4787C62A else
    if i == 6 then 0xA8304613 else if i == 7 then 0xFD469501 else if i == 8 then 0x698098D8 else
    if i == 9 then 0x8B44F7AF else if i == 10 then 0xFFFF5BB1 else if i == 11 then 0x895CD7BE else
    if i == 12 then 0x6B901122 else if i == 13 then 0xFD987193 else if i == 14 then 0xA679438E else
    0x49B40821
  }

  function Sine2(i: nat): bv32 {
    if i == 16 then 0xF61E2562 else if i == 17 then 0xC040B340 else if i == 18 then 0x265E5A51 else
    if i == 19 then 0xE9B6C7AA else if i == 20 then 0xD62F105D else if i == 21 then 0x02441453 else
    if i == 22 then 0xD8A1E681 else if i == 23 then 0xE7D3FBC8 else if i == 24 then 0x21E1CDE6 else
    if i == 25 then 0xC33707D6 else if i == 26 then 0xF4D50D87 else if i == 27 then 0x455A14ED else
    if i == 28 then 0xA9E3E905 else if i == 29 then 0xFCEFA3F8 else if i == 30 then 0x676F02D9 else
    0x8D2A4C8A
  }

  function Sine3(i: nat): bv32 {
    if i == 32 then 0xFFFA3942 else if i == 33 then 0x8771F681 else if i == 34 then 0x6D9D6122 else
    if i == 35 then 0xFDE5380C else if i == 36 then 0xA4BEEA44 else if i == 37 then 0x4BDECFA9 else
    if i == 38 then 0xF6BB4B60 else if i == 39 then 0xBEBFBC70 else if i == 40 then 0x289B7EC6 else
    if i == 41 then 0xEAA127FA else if i == 42 then 0xD4EF3085 else if i == 43 then 0x04881D05 else
    if i == 44 then 0xD9D4D039 else if i == 45 then 0xE6DB99E5 else if i == 46 then 0x1FA27CF8 else
    0xC4AC5665
  }

  function Sine4(i: nat): bv32 {
    if i == 48 then 0xF4292244 else if i == 49 then 0x432AFF97 else if i == 50 then 0xAB9423A7 else
    if i == 51 then 0xFC93A039 else if i == 52 then 0x655B59C3 else if i == 53 then 0x8F0CCC92 else
    if i == 54 then 0xFFEFF47D else if i == 55 then 0x85845DD1 else if i == 56 then 0x6FA87E4F else
    if i == 57 then 0xFE2CE6E0 else if i == 58 then 0xA3014314 else if i == 59 then 0x4E0811A1 else
    if i == 60 then 0xF7537E82 else if i == 61 then 0xBD3AF235 else if i == 62 then 0x2AD7D2BB else
    0xEB86D391
  }

  function T(i: nat): bv32 {
    if i < 16 then Sine1(i) else if i < 32 then Sine2(i) else if i < 48 then Sine3(i) else Sine4(i)
  }

  // ---------------------------------------------------------------- the table of section 3.4, row by row

  lemma Constants0()
    ensures Word(0) == 0 && Shift(0) == 7 && T(0) == 0xD76AA478
    ensures Word(1) == 1 && Shift(1) == 12 && T(1) == 0xE8C7B756
    ensures Word(2) == 2 && Shift(2) == 17 && T(2) == 0x242070DB
    ensures Word(3) == 3 && Shift(3) == 22 && T(3) == 0xC1BDCEEE
    ensures Word(4) == 4 && Shift(4) == 7 && T(4) == 0xF57C0FAF
    ensures Word(5) == 5 && Shift(5) == 12 && T(5) == 0x4787C62A
    ensures Word(6) == 6 && Shift(6) == 17 && T(6) == 0xA8304613
    ensures Word(7) == 7 && Shift(7) == 22 && T(7) == 0xFD469501
  {
  }

  lemma Constants8()
    ensures Word(8) == 8 && Shift(8) == 7 && T(8) == 0x698098D8
    ensures Word(9) == 9 && Shift(9) == 12 && T(9) == 0x8B44F7AF
    ensures Word(10) == 10 && Shift(10) == 17 && T(10) == 0xFFFF5BB1
    ensures Word(11) == 11 && Shift(11) == 22 && T(11) == 0x895CD7BE
    ensures Word(12) == 12 && Shift(12) == 7 && T(12) == 0x6B901122
    ensures Word(13) == 13 && Shift(13) == 12 && T(13) == 0xFD987193
    ensures Word(14) == 14 && Shift(14) == 17 && T(14) == 0xA679438E
    ensures Word(15) == 15 && Shift(15) == 22 && T(15) == 0x49B40821
  {
  }

  lemma Constants16()
    ensures Word(16) == 1 && Shift(16) == 5 && T(16) == 0xF61E2562
    ensures Word(17) == 6 && Shift(17) == 9 && T(17) == 0xC040B340
    ensures Word(18) == 11 && Shift(18) == 14 && T(18) == 0x265E5A51
    ensures Word(19) == 0 && Shift(19) == 20 && T(19) == 0xE9B6C7AA
    ensures Word(20) == 5 && Shift(20) == 5 && T(20) == 0xD62F105D
    ensures Word(21) == 10 && Shift(21) == 9 && T(21) == 0x02441453
    ensures Word(22) == 15 && Shift(22) == 14 && T(22) == 0xD8A1E681
    ensures Word(23) == 4 && Shift(23) == 20 && T(23) == 0xE7D3FBC8
  {
  }

  lemma Constants24()
    ensures Word(24) == 9 && Shift(24) == 5 && T(24) == 0x21E1CDE6
    ensures Word(25) == 14 && Shift(25) == 9 && T(25) == 0xC33707D6
    ensures Word(26) == 3 && Shift(26) == 14 && T(26) == 0xF4D50D87
    ensures Word(27) == 8 && Shift(27) == 20 && T(27) == 0x455A14ED
    ensures Word(28) == 13 && Shift(28) == 5 && T(28) == 0xA9E3E905
    ensures Word(29) == 2 && Shift(29) == 9 && T(29) == 0xFCEFA3F8
    ensures Word(30) == 7 && Shift(30) == 14 && T(30) == 0x676F02D9
    ensures Word(31) == 12 && Shift(31) == 20 && T(31) == 0x8D2A4C8A
  {
  }

  lemma Constants32()
    ensures Word(32) == 5 && Shift(32) == 4 && T(32) == 0xFFFA3942
    ensures Word(33) == 8 && Shift(33) == 11 && T(33) == 0x8771F681
    ensures Word(34) == 11 && Shift(34) == 16 && T(34) == 0x6D9D6122
    ensures Word(35) == 14 && Shift(35) == 23 && T(35) == 0xFDE5380C
    ensures Word(36) == 1 && Shift(36) == 4 && T(36) == 0xA4BEEA44
    ensures Word(37) == 4 && Shift(37) == 11 && T(37) == 0x4BDECFA9
    ensures Word(38) == 7 && Shift(38) == 16 && T(38) == 0xF6BB4B60
    ensures Word(39) == 10 && Shift(39) == 23 && T(39) == 0xBEBFBC70
  {
  }

  lemma Constants40()
    ensures Word(40) == 13 && Shift(40) == 4 && T(40) == 0x289B7EC6
    ensures Word(41) == 0 && Shift(41) == 11 && T(41) == 0xEAA127FA
    ensures Word(42) == 3 && Shift(42) == 16 && T(42) == 0xD4EF3085
    ensures Word(43) == 6 && Shift(43) == 23 && T(43) == 0x04881D05
    ensures Word(44) == 9 && Shift(44) == 4 && T(44) == 0xD9D4D039
    ensures Word(45) == 12 && Shift(45) == 11 && T(45) == 0xE6DB99E5
    ensures Word(46) == 15 && Shift(46) == 16 && T(46) == 0x1FA27CF8
    ensures Word(47) == 2 && Shift(47) == 23 && T(47) == 0xC4AC5665
  {
  }

  lemma Constants48()
    ensures Word(48) == 0 && Shift(48) == 6 && T(48) == 0xF4292244
    ensures Word(49) == 7 && Shift(49) == 10 && T(49) == 0x432AFF97
    ensures Word(50) == 14 && Shift(50) == 15 && T(50) == 0xAB9423A7
    ensures Word(51) == 5 && Shift(51) == 21 && T(51) == 0xFC93A039
    ensures Word(52) == 12 && Shift(52) == 6 && T(52) == 0x655B59C3
    ensures Word(53) == 3 && Shift(53) == 10 && T(53) == 0x8F0CCC92
    ensures Word(54) == 10 && Shift(54) == 15 && T(54) == 0xFFEFF47D
    ensures Word(55) == 1 && Shift(55) == 21 && T(55) == 0x85845DD1
  {
  }

  lemma Constants56()
    ensures Word(56) == 8 && Shift(56) == 6 && T(56) == 0x6FA87E4F
    ensures Word(57) == 15 && Shift(57) == 10 && T(57) == 0xFE2CE6E0
    ensures Word(58) == 6 && Shift(58) == 15 && T(58) == 0xA3014314
    ensures Word(59) == 13 && Shift(59) == 21 && T(59) == 0x4E0811A1
    ensures Word(60) == 4 && Shift(60) == 6 && T(60) == 0xF7537E82
    ensures Word(61) == 11 && Shift(61) == 10 && T(61) == 0xBD3AF235
    ensures Word(62) == 2 && Shift(62) == 15 && T(62) == 0x2AD7D2BB
    ensures Word(63) == 9 && Shift(63) == 21 && T(63) == 0xEB86D391
  {
  }

  function Plus(x: bv32, y: bv32): bv32 { x + y }

  lemma PlusComm(x: bv32, y: bv32)
    ensures Plus(x, y) == Plus(y, x)
  {}

  function Sum(a: bv32, f: bv32, x: bv32, t: bv32): bv32 { a + f + x + t }

  /** a = b + ((a + Mix(b, c, d) + X[k] + T[i]) <<< s), after which the names move by one place. */
  function Operation(i: nat, x: bv32, r: Registers): Registers {
    Registers(r.d, Plus(r.b, Rotl(Sum(r.a, Mix(i, r.b, r.c, r.d), x, T(i)), Shift(i))), r.b, r.c)
  }

  function Operations(data: Bytes64, h: Registers, i: nat): Registers {
    if i == 0 then h
    else Operation(i - 1, LittleEndian(data, 4 * Word(i - 1)), Operations(data, h, i - 1))
  }

  function AddRegisters(h: Registers, r: Registers): Registers {
    Registers(h.a + r.a, h.b + r.b, h.c + r.c, h.d + r.d)
  }

  function Compress(h: Registers, data: Bytes64): Registers {
    AddRegisters(h, Operations(data, h, 64))
  }

  // ---------------------------------------------------------------- the code

  function FReduced(x: bv32, y: bv32, z: bv32): bv32 { z ^ (x & (y ^ z)) }
  function GReduced(x: bv32, y: bv32, z: bv32): bv32 { y ^ (z & (x ^ y)) }

  /** The four definitions of the macro F. */
  function MixReduced(i: nat, x: bv32, y: bv32, z: bv32): bv32 {
    if i < 16 then FReduced(x, y, z) else if i < 32 then GReduced(x, y, z)
    else if i < 48 then H(x, y, z) else I(x, y, z)
  }

  lemma FBits(x: bv32, y: bv32, z: bv32)
    ensures z ^ (x & (y ^ z)) == (x & y) | (!x & z)
  {}

  lemma GBits(x: bv32, y: bv32, z: bv32)
    ensures y ^ (z & (x ^ y)) == (x & z) | (y & !z)
  {}

  lemma FReducedIs(x: bv32, y: bv32, z: bv32)
    ensures FReduced(x, y, z) == F(x, y, z)
  {
    FBits(x, y, z);
  }

  lemma GReducedIs(x: bv32, y: bv32, z: bv32)
    ensures GReduced(x, y, z) == G(x, y, z)
  {
    GBits(x, y, z);
  }

  lemma MixReducedIs(i: nat, x: bv32, y: bv32, z: bv32)
    ensures MixReduced(i, x, y, z) == Mix(i, x, y, z)
  {
    hide F, G, H, I, FReduced, GReduced;
    FReducedIs(x, y, z);
    GReducedIs(x, y, z);
  }

  function PSum(a: bv32, f: bv32, x: bv32, t: bv32): bv32 { a + (f + x + t) }

  lemma PSumIs(a: bv32, f: bv32, x: bv32, t: bv32)
    ensures PSum(a, f, x, t) == Sum(a, f, x, t)
  {}

  /** The macro P. */
  function P(i: nat, a: bv32, b: bv32, c: bv32, d: bv32, x: bv32, s: bv32, t: bv32): bv32
    requires 0 < s < 32
  {
    Plus(Rotl(PSum(a, MixReduced(i, b, c, d), x, t), s), b)
  }

  lemma PIsOperation(i: nat, r: Registers, x: bv32)
    ensures Operation(i, x, r) == Registers(r.d, P(i, r.a, r.b, r.c, r.d, x, Shift(i), T(i)), r.b, r.c)
  {
    hide Plus, Rotl, Mix, MixReduced, Sum, PSum, Shift, T;
    MixReducedIs(i, r.b, r.c, r.d);
    PSumIs(r.a, Mix(i, r.b, r.c, r.d), x, T(i));
    PlusComm(r.b, Rotl(Sum(r.a, Mix(i, r.b, r.c, r.d), x, T(i)), Shift(i)));
  }

  lemma OperationsNext(data: Bytes64, h: Registers, i: nat)
    ensures Operations(data, h, i + 1) == Operation(i, LittleEndian(data, 4 * Word(i)), Operations(data, h, i))
  {
    hide Operation, LittleEndian, Word;
  }

  ghost predicate Loaded(x: seq<bv32>, data: Bytes64) {
    |x| == 16 && forall k :: 0 <= k < 16 ==> x[k] == LittleEndian(data, 4 * k)
  }

  method Step(x: seq<bv32>, ghost data: Bytes64, ghost h: Registers, i: nat, a: bv32, b: bv32, c: bv32, d: bv32,
              k: nat, s: bv32, t: bv32)
    returns (a': bv32)
    requires Loaded(x, data) && k == Word(i) && s == Shift(i) && t == T(i)
    requires Registers(a, b, c, d) == Operations(data, h, i)
    ensures Registers(d, a', b, c) == Operations(data, h, i + 1)
  {
    hide P, Operations, Operation, LittleEndian, Word, Shift, T;
    OperationsNext(data, h, i);
    PIsOperation(i, Registers(a, b, c, d), x[k]);
    a' := P(i, a, b, c, d, x[k], s, t);
  }

  /** Four macro calls, after which every register name denotes its own register again. */
  method FourSteps(x: seq<bv32>, ghost data: Bytes64, ghost h: Registers, i: nat, r: Registers,
                   k0: nat, k1: nat, k2: nat, k3: nat, s0: bv32, s1: bv32, s2: bv32, s3: bv32,
                   t0: bv32, t1: bv32, t2: bv32, t3: bv32)
    returns (r': Registers)
    requires Loaded(x, data) && r == Operations(data, h, i)
    requires k0 == Word(i) && k1 == Word(i + 1) && k2 == Word(i + 2) && k3 == Word(i + 3)
    requires s0 == Shift(i) && s1 == Shift(i + 1) && s2 == Shift(i + 2) && s3 == Shift(i + 3)
    requires t0 == T(i) && t1 == T(i + 1) && t2 == T(i + 2) && t3 == T(i + 3)
    ensures r' == Operations(data, h, i + 4)
  {
    hide Operations, Word, Shift, T, Loaded;
    var a, b, c, d := r.a, r.b, r.c, r.d;
    a := Step(x, data, h, i, a, b, c, d, k0, s0, t0);
    d := Step(x, data, h, i + 1, d, a, b, c, k1, s1, t1);
    c := Step(x, data, h, i + 2, c, d, a, b, k2, s2, t2);
    b := Step(x, data, h, i + 3, b, c, d, a, k3, s3, t3);
    r' := Registers(a, b, c, d);
  }

  method Round1(x: seq<bv32>, ghost data: Bytes64, ghost h: Registers, r: Registers) returns (r': Registers)
    requires Loaded(x, data) && r == Operations(data, h, 0)
    ensures r' == Operations(data, h, 16)
  {
    hide Operations, Loaded, Word, Shift, T;
    Constants0();
    Constants8();
    r' := r;
    r' := FourSteps(x, data, h, 0, r', 0, 1, 2, 3, 7, 12, 17, 22,
                   0xD76AA478, 0xE8C7B756, 0x242070DB, 0xC1BDCEEE);
    r' := FourSteps(x, data, h, 4, r', 4, 5, 6, 7, 7, 12, 17, 22,
                   0xF57C0FAF, 0x4787C62A, 0xA8304613, 0xFD469501);
    r' := FourSteps(x, data, h, 8, r', 8, 9, 10, 11, 7, 12, 17, 22,
                   0x698098D8, 0x8B44F7AF, 0xFFFF5BB1, 0x895CD7BE);
    r' := FourSteps(x, data, h, 12, r', 12, 13, 14, 15, 7, 12, 17, 22,
                   0x6B901122, 0xFD987193, 0xA679438E, 0x49B40821);
  }

  method Round2(x: seq<bv32>, ghost data: Bytes64, ghost h: Registers, r: Registers) returns (r': Registers)
    requires Loaded(x, data) && r == Operations(data, h, 16)
    ensures r' == Operations(data, h, 32)
  {
    hide Operations, Loaded, Word, Shift, T;
    Constants16();
    Constants24();
    r' := r;
    r' := FourSteps(x, data, h, 16, r', 1, 6, 11, 0, 5, 9, 14, 20,
                   0xF61E2562, 0xC040B340, 0x265E5A51, 0xE9B6C7AA);
    r' := FourSteps(x, data, h, 20, r', 5, 10, 15, 4, 5, 9, 14, 20,
                   0xD62F105D, 0x02441453, 0xD8A1E681, 0xE7D3FBC8);
    r' := FourSteps(x, data, h, 24, r', 9, 14, 3, 8, 5, 9, 14, 20,
                   0x21E1CDE6, 0xC33707D6, 0xF4D50D87, 0x455A14ED);
    r' := FourSteps(x, data, h, 28, r', 13, 2, 7, 12, 5, 9, 14, 20,
                   0xA9E3E905, 0xFCEFA3F8, 0x676F02D9, 0x8D2A4C8A);
  }

  method Round3(x: seq<bv32>, ghost data: Bytes64, ghost h: Registers, r: Registers) returns (r': Registers)
    requires Loaded(x, data) && r == Operations(data, h, 32)
    ensures r' == Operations(data, h, 48)
  {
    hide Operations, Loaded, Word, Shift, T;
    Constants32();
    Constants40();
    r' := r;
    r' := FourSteps(x, data, h, 32, r', 5, 8, 11, 14, 4, 11, 16, 23,
                   0xFFFA3942, 0x8771F681, 0x6D9D6122, 0xFDE5380C);
    r' := FourSteps(x, data, h, 36, r', 1, 4, 7, 10, 4, 11, 16, 23,
                   0xA4BEEA44, 0x4BDECFA9, 0xF6BB4B60, 0xBEBFBC70);
    r' := FourSteps(x, data, h, 40, r', 13, 0, 3, 6, 4, 11, 16, 23,
                   0x289B7EC6, 0xEAA127FA, 0xD4EF3085, 0x04881D05);
    r' := FourSteps(x, data, h, 44, r', 9, 12, 15, 2, 4, 11, 16, 23,
                   0xD9D4D039, 0xE6DB99E5, 0x1FA27CF8, 0xC4AC5665);
  }

  method Round4(x: seq<bv32>, ghost data: Bytes64, ghost h: Registers, r: Registers) returns (r': Registers)
    requires Loaded(x, data) && r == Operations(data, h, 48)
    ensures r' == Operations(data, h, 64)
  {
    hide Operations, Loaded, Word, Shift, T;
    Constants48();
    Constants56();
    r' := r;
    r' := FourSteps(x, data, h, 48, r', 0, 7, 14, 5, 6, 10, 15, 21,
                   0xF4292244, 0x432AFF97, 0xAB9423A7, 0xFC93A039);
    r' := FourSteps(x, data, h, 52, r', 12, 3, 10, 1, 6, 10, 15, 21,
                   0x655B59C3, 0x8F0CCC92, 0xFFEFF47D, 0x85845DD1);
    r' := FourSteps(x, data, h, 56, r', 8, 15, 6, 13, 6, 10, 15, 21,
                   0x6FA87E4F, 0xFE2CE6E0, 0xA3014314, 0x4E0811A1);
    r' := FourSteps(x, data, h, 60, r', 4, 11, 2, 9, 6, 10, 15, 21,
                   0xF7537E82, 0xBD3AF235, 0x2AD7D2BB, 0xEB86D391);
  }

  /** utils_md5_process: the sixty-four macro calls with their literal word, shift and constant. */
  method Process(h: Registers, data: Bytes64) returns (r: Registers)
    ensures r == Compress(h, data)
  {
    hide Operations, AddRegisters, LittleEndian;
    var x := seq(16, k requires 0 <= k < 16 => LittleEndian(data, 4 * k));
    OperationsStart(data, h);
    r := Round1(x, data, h, h);
    r := Round2(x, data, h, r);
    r := Round3(x, data, h, r);
    r := Round4(x, data, h, r);
    r := AddRegisters(h, r);
  }

  lemma OperationsStart(data: Bytes64, h: Registers)
    ensures Operations(data, h, 0) == h
  {}
}
