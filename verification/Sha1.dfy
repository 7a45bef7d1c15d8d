/**
 The SHA-1 compression function. The specification is the 80-word method of section 6.1 of
 RFC 3174; the code keeps a circular window of 16 words, rotates register names instead of
 values and uses reduced Boolean forms, as section 6.2 suggests.
 */
module Sha1 {
  import opened Words

  // ---------------------------------------------------------------- word operations

  function Xor4(a: bv32, b: bv32, c: bv32, d: bv32): bv32 { a ^ b ^ c ^ d }
  function Rotl1(x: bv32): bv32 { (x << 1) | (x >> 31) }
  function Rotl5(x: bv32): bv32 { (x << 5) | (x >> 27) }
  function Rotl30(x: bv32): bv32 { (x << 30) | (x >> 2) }

  function BigEndian(b: seq<bv8>, i: nat): bv32
    requires i + 4 <= |b|
  {
    Pack(b[i + 3], b[i + 2], b[i + 1], b[i])
  }

  // ---------------------------------------------------------------- RFC 3174, section 6.1

  /** The functions of section 5. */
  function Choose(b: bv32, c: bv32, d: bv32): bv32 { (b & c) | (!b & d) }
  function Parity(b: bv32, c: bv32, d: bv32): bv32 { b ^ c ^ d }
  function Majority(b: bv32, c: bv32, d: bv32): bv32 { (b & c) | (b & d) | (c & d) }

  function F(t: nat, b: bv32, c: bv32, d: bv32): bv32 {
    if t < 20 then Choose(b, c, d) else if t < 40 then Parity(b, c, d)
    else if t < 60 then Majority(b, c, d) else Parity(b, c, d)
  }

  function K(t: nat): bv32 {
    if t < 20 then 0x5A827999 else if t < 40 then 0x6ED9EBA1 else if t < 60 then 0x8F1BBCDC else 0xCA62C1D6
  }

  /** The constants are the integer parts of 2^30 times the square roots of 2, 3, 5 and 10. */
  lemma RootConstants(t: nat)
    ensures var (k, n) := (K(t) as int, if t < 20 then 2 else if t < 40 then 3 else if t < 60 then 5 else 10);
            k * k <= n * 0x1000_0000_0000_0000 < (k + 1) * (k + 1)
  {
    assert 0x5A827999 as bv32 as int == 0x5A827999 && 0x6ED9EBA1 as bv32 as int == 0x6ED9EBA1;
    assert 0x8F1BBCDC as bv32 as int == 0x8F1BBCDC && 0xCA62C1D6 as bv32 as int == 0xCA62C1D6;
  }

  lemma Rotations(x: bv32)
    ensures Rotl1(x) == x.RotateLeft(1) && Rotl5(x) == x.RotateLeft(5) && Rotl30(x) == x.RotateLeft(30)
  {
  }

  /** Word t of the 80-word schedule. */
  function W(data: Bytes64, t: nat): bv32 {
    if t < 16 then BigEndian(data, 4 * t)
    else Rotl1(Xor4(W(data, t - 3), W(data, t - 8), W(data, t - 14), W(data, t - 16)))
  }

  datatype Registers = Registers(a: bv32, b: bv32, c: bv32, d: bv32, e: bv32)

  function TempSum(s: bv32, f: bv32, e: bv32, w: bv32, k: bv32): bv32 { s + f + e + w + k }

  function Temp(t: nat, w: bv32, r: Registers): bv32 {
    TempSum(Rotl5(r.a), F(t, r.b, r.c, r.d), r.e, w, K(t))
  }

  function Round(t: nat, w: bv32, r: Registers): Registers {
    Registers(Temp(t, w, r), r.a, Rotl30(r.b), r.c, r.d)
  }

  function Rounds(data: Bytes64, h: Registers, t: nat): Registers {
    if t == 0 then h else Round(t - 1, W(data, t - 1), Rounds(data, h, t - 1))
  }

  function AddRegisters(h: Registers, r: Registers): Registers {
    Registers(h.a + r.a, h.b + r.b, h.c + r.c, h.d + r.d, h.e + r.e)
  }

  function Compress(h: Registers, data: Bytes64): Registers {
    AddRegisters(h, Rounds(data, h, 80))
  }

  // ---------------------------------------------------------------- the code

  /** The four definitions of the macro F. */
  function ChooseReduced(x: bv32, y: bv32, z: bv32): bv32 { z ^ (x & (y ^ z)) }
  function MajorityReduced(x: bv32, y: bv32, z: bv32): bv32 { (x & y) | (z & (x | y)) }

  function FReduced(t: nat, x: bv32, y: bv32, z: bv32): bv32 {
    if t < 20 then ChooseReduced(x, y, z) else if t < 40 then Parity(x, y, z)
    else if t < 60 then MajorityReduced(x, y, z) else Parity(x, y, z)
  }

  lemma ChooseBits(x: bv32, y: bv32, z: bv32)
    ensures z ^ (x & (y ^ z)) == (x & y) | (!x & z)
  {}

  lemma MajorityBits(x: bv32, y: bv32, z: bv32)
    ensures (x & y) | (z & (x | y)) == (x & y) | (x & z) | (y & z)
  {}

  lemma ChooseReducedIs(x: bv32, y: bv32, z: bv32)
    ensures ChooseReduced(x, y, z) == Choose(x, y, z)
  {
    ChooseBits(x, y, z);
  }

  lemma MajorityReducedIs(x: bv32, y: bv32, z: bv32)
    ensures MajorityReduced(x, y, z) == Majority(x, y, z)
  {
    MajorityBits(x, y, z);
  }

  lemma FReducedIs(t: nat, x: bv32, y: bv32, z: bv32)
    ensures FReduced(t, x, y, z) == F(t, x, y, z)
  {
    hide Choose, Majority, Parity, ChooseReduced, MajorityReduced;
    ChooseReducedIs(x, y, z);
    MajorityReducedIs(x, y, z);
  }

  function PSum(e: bv32, s: bv32, f: bv32, k: bv32, x: bv32): bv32 { e + (s + f + k + x) }

  lemma PSumIs(e: bv32, s: bv32, f: bv32, k: bv32, x: bv32)
    ensures PSum(e, s, f, k, x) == TempSum(s, f, e, x, k)
  {}

  /** The macro P: the value added to its last register. */
  function P(t: nat, a: bv32, b: bv32, c: bv32, d: bv32, e: bv32, x: bv32): bv32 {
    PSum(e, Rotl5(a), FReduced(t, b, c, d), K(t), x)
  }

  lemma PIsTemp(t: nat, r: Registers, x: bv32)
    ensures P(t, r.a, r.b, r.c, r.d, r.e, x) == Temp(t, x, r)
  {
    hide Rotl5, F, FReduced, K, PSum, TempSum;
    FReducedIs(t, r.b, r.c, r.d);
    PSumIs(r.e, Rotl5(r.a), F(t, r.b, r.c, r.d), K(t), x);
  }

  /** The circular window: the sixteen latest schedule words, each at its index modulo 16. */
  ghost predicate Window(w: seq<bv32>, data: Bytes64, t: nat) {
    |w| == 16 && forall k :: Oldest(t) <= k < Oldest(t) + 16 ==> w[k % 16] == W(data, k)
  }

  function Oldest(t: nat): nat { if t < 16 then 0 else t - 16 }

  lemma WindowNext(w: seq<bv32>, data: Bytes64, t: nat)
    requires Window(w, data, t)
    ensures t < 16 ==> w[t % 16] == W(data, t)
    ensures t >= 16 ==> Rotl1(Xor4(w[(t - 3) % 16], w[(t - 8) % 16], w[(t - 14) % 16], w[t % 16])) == W(data, t)
    ensures t >= 16 ==> Window(w[t % 16 := W(data, t)], data, t + 1)
    ensures t < 16 ==> Window(w, data, t + 1)
  {
    hide Rotl1, Xor4, BigEndian;
    if t >= 16 {
      assert t % 16 == (t - 16) % 16;
      forall k | Oldest(t + 1) <= k < Oldest(t + 1) + 16
        ensures w[t % 16 := W(data, t)][k % 16] == W(data, k)
      {
        if k < t { Residues(k, t); }
      }
    }
  }

  lemma Residues(k: nat, t: nat)
    requires k < t < k + 16
    ensures k % 16 != t % 16
  {}

  /** W[t] for the first sixteen steps, the macro R(t) after them. */
  method NextWord(w: array<bv32>, ghost data: Bytes64, t: nat) returns (x: bv32)
    requires Window(w[..], data, t)
    modifies w
    ensures x == W(data, t) && Window(w[..], data, t + 1)
  {
    hide Rotl1, Xor4, W;
    WindowNext(w[..], data, t);
    if t < 16 {
      x := w[t];
    } else {
      var temp := Xor4(w[(t - 3) % 16], w[(t - 8) % 16], w[(t - 14) % 16], w[t % 16]);
      w[t % 16] := Rotl1(temp);
      x := w[t % 16];
    }
  }

  lemma RoundsNext(data: Bytes64, h: Registers, t: nat)
    ensures Rounds(data, h, t + 1) == Round(t, W(data, t), Rounds(data, h, t))
  {
    hide Round, W;
  }

  /** One P: two registers change in place while the other three keep their values. */
  method Step(w: array<bv32>, ghost data: Bytes64, ghost h: Registers, t: nat, a: bv32, b: bv32, c: bv32, d: bv32, e: bv32)
    returns (e': bv32, b': bv32)
    requires Window(w[..], data, t) && Registers(a, b, c, d, e) == Rounds(data, h, t)
    modifies w
    ensures Registers(e', a, b', c, d) == Rounds(data, h, t + 1) && Window(w[..], data, t + 1)
  {
    hide Rotl5, Rotl30, F, FReduced, K, W, P, Temp, Rounds;
    RoundsNext(data, h, t);
    var x := NextWord(w, data, t);
    PIsTemp(t, Registers(a, b, c, d, e), x);
    e' := P(t, a, b, c, d, e, x);
    b' := Rotl30(b);
  }

  method Load(data: Bytes64) returns (w: array<bv32>)
    ensures fresh(w) && Window(w[..], data, 0)
  {
    hide BigEndian;
    w := new bv32[16];
    for i := 0 to 16
      invariant forall k :: 0 <= k < i ==> w[k % 16] == W(data, k)
    {
      w[i] := BigEndian(data, 4 * i);
    }
  }

  /** Five steps, after which every register name denotes its own register again. */
  method FiveSteps(w: array<bv32>, ghost data: Bytes64, ghost h: Registers, t: nat, r: Registers) returns (r': Registers)
    requires Window(w[..], data, t) && r == Rounds(data, h, t)
    modifies w
    ensures r' == Rounds(data, h, t + 5) && Window(w[..], data, t + 5)
  {
    hide Window, Rounds;
    var a, b, c, d, e := r.a, r.b, r.c, r.d, r.e;
    e, b := Step(w, data, h, t, a, b, c, d, e);
    d, a := Step(w, data, h, t + 1, e, a, b, c, d);
    c, e := Step(w, data, h, t + 2, d, e, a, b, c);
    b, d := Step(w, data, h, t + 3, c, d, e, a, b);
    a, c := Step(w, data, h, t + 4, b, c, d, e, a);
    r' := Registers(a, b, c, d, e);
  }

  /** utils_sha1_process: the eighty unrolled steps, five at a time. */
  method Process(h: Registers, data: Bytes64) returns (r: Registers)
    ensures r == Compress(h, data)
  {
    hide Window, Rounds, AddRegisters;
    RoundsStart(data, h);
    var w := Load(data);
    r := h;
    var t := 0;
    while t < 80
      invariant t % 5 == 0 && t <= 80
      invariant Window(w[..], data, t) && r == Rounds(data, h, t)
    {
      r := FiveSteps(w, data, h, t, r);
      t := t + 5;
    }
    r := AddRegisters(h, r);
  }

  lemma RoundsStart(data: Bytes64, h: Registers)
    ensures Rounds(data, h, 0) == h
  {}
}
