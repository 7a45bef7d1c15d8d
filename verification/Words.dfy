/**
 Bytes and 32-bit words. Packing is little-endian, as GET_UINT32_LE and PUT_UINT32_LE.
 The word operations are named so that proofs can hide their bit-level definitions.
 */
module Words {

  /** The input of a hash compression. */
  type Bytes64 = s: seq<bv8> | |s| == 64 witness seq(64, _ => 0)

  function Xor(a: bv32, b: bv32): bv32 { a ^ b }

  function Pack(b0: bv8, b1: bv8, b2: bv8, b3: bv8): bv32 {
    (b0 as bv32) | ((b1 as bv32) << 8) | ((b2 as bv32) << 16) | ((b3 as bv32) << 24)
  }

  function B0(w: bv32): bv8 { (w & 0xFF) as bv8 }
  function B1(w: bv32): bv8 { ((w >> 8) & 0xFF) as bv8 }
  function B2(w: bv32): bv8 { ((w >> 16) & 0xFF) as bv8 }
  function B3(w: bv32): bv8 { ((w >> 24) & 0xFF) as bv8 }

  /** The ROTL8 macro. */
  function Rotl8(w: bv32): bv32 { (w << 8) | (w >> 24) }

  lemma PackBytes(b0: bv8, b1: bv8, b2: bv8, b3: bv8)
    ensures var w := Pack(b0, b1, b2, b3); B0(w) == b0 && B1(w) == b1 && B2(w) == b2 && B3(w) == b3
  {}

  lemma XorByte0(a: bv32, b: bv32)
    ensures B0(Xor(a, b)) == B0(a) ^ B0(b)
  {}

  lemma XorByte1(a: bv32, b: bv32)
    ensures B1(Xor(a, b)) == B1(a) ^ B1(b)
  {}

  lemma XorByte2(a: bv32, b: bv32)
    ensures B2(Xor(a, b)) == B2(a) ^ B2(b)
  {}

  lemma XorByte3(a: bv32, b: bv32)
    ensures B3(Xor(a, b)) == B3(a) ^ B3(b)
  {}

  lemma XorBytes(a: bv32, b: bv32)
    ensures B0(Xor(a, b)) == B0(a) ^ B0(b) && B1(Xor(a, b)) == B1(a) ^ B1(b)
    ensures B2(Xor(a, b)) == B2(a) ^ B2(b) && B3(Xor(a, b)) == B3(a) ^ B3(b)
  {
    XorByte0(a, b); XorByte1(a, b); XorByte2(a, b); XorByte3(a, b);
  }

  lemma RotlPack(b0: bv8, b1: bv8, b2: bv8, b3: bv8)
    ensures Rotl8(Pack(b0, b1, b2, b3)) == Pack(b3, b0, b1, b2)
  {}

  /** A byte as a table index, and back. */
  function Index(b: bv8): (i: nat)
    ensures i < 256
  {
    b as int
  }

  function ByteAt(i: nat): bv8
    requires i < 256
  {
    i as bv8
  }

  lemma IndexInjective(a: bv8, b: bv8)
    requires Index(a) == Index(b)
    ensures a == b
  {}

  lemma IndexByteAt(i: nat)
    requires i < 256
    ensures Index(ByteAt(i)) == i
  {
    Truncated(i);
  }

  lemma Truncated(i: nat)
    requires i < 256
    ensures (i as bv8) as int == i
  {
    if i < 16 {} else if i < 32 {} else if i < 48 {} else if i < 64 {}
    else if i < 80 {} else if i < 96 {} else if i < 112 {} else if i < 128 {}
    else if i < 144 {} else if i < 160 {} else if i < 176 {} else if i < 192 {}
    else if i < 208 {} else if i < 224 {} else if i < 240 {} else {}
  }

  lemma ByteAtIndex(b: bv8)
    ensures ByteAt(Index(b)) == b
  {
    hide Index, ByteAt;
    IndexByteAt(Index(b));
    IndexInjective(ByteAt(Index(b)), b);
  }

  lemma IndexZero(b: bv8)
    ensures Index(b) == 0 <==> b == 0
  {}
}
