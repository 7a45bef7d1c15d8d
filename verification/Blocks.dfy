/**
 Sixteen-byte blocks and cipher block chaining over any block function (section 6.2 of
 NIST SP 800-38A).
 */
module Blocks {
  import opened Overwriting

  type Block = s: seq<bv8> | |s| == 16 witness seq(16, _ => 0)

  function XorBlock(a: Block, b: Block): Block { seq(16, i requires 0 <= i < 16 => a[i] ^ b[i]) }

  lemma XorBlockCancel(a: Block, b: Block)
    ensures XorBlock(XorBlock(a, b), b) == a
  {}

  function CbcEncrypt(E: Block -> Block, iv: Block, data: seq<bv8>): (r: seq<bv8>)
    requires |data| % 16 == 0
    ensures |r| == |data|
    decreases |data|
  {
    if data == [] then []
    else
      var c := E(XorBlock(data[..16], iv));
      c + CbcEncrypt(E, c, data[16..])
  }

  function CbcDecrypt(D: Block -> Block, iv: Block, data: seq<bv8>): (r: seq<bv8>)
    requires |data| % 16 == 0
    ensures |r| == |data|
    decreases |data|
  {
    if data == [] then []
    else XorBlock(D(data[..16]), iv) + CbcDecrypt(D, data[..16], data[16..])
  }

  /** Byte i is added to byte i. */
  lemma XorBlockBytes(a: Block, b: Block)
    ensures forall i :: 0 <= i < 16 ==> XorBlock(a, b)[i] == a[i] ^ b[i]
  {
  }

  /** Block j of some blocks. */
  function BlockAt(data: seq<bv8>, j: nat): Block
    requires 16 * j + 16 <= |data|
  {
    data[16 * j..16 * j + 16]
  }

  /** The chaining value after some ciphertext: its last block. */
  function Chain(iv: Block, cipher: seq<bv8>): Block
    requires |cipher| % 16 == 0
  {
    if cipher == [] then iv else cipher[|cipher| - 16..]
  }

  lemma {:induction false} CbcRoundTrip(E: Block -> Block, D: Block -> Block, iv: Block, data: seq<bv8>)
    requires |data| % 16 == 0
    requires forall b: Block :: D(E(b)) == b
    ensures CbcDecrypt(D, iv, CbcEncrypt(E, iv, data)) == data
    decreases |data|
  {
    if data != [] {
      hide XorBlock;
      var c := E(XorBlock(data[..16], iv));
      var r := CbcEncrypt(E, iv, data);
      assert r[..16] == c && r[16..] == CbcEncrypt(E, c, data[16..]);
      CbcRoundTrip(E, D, c, data[16..]);
      XorBlockCancel(data[..16], iv);
    }
  }

  lemma CbcEncryptStep(E: Block -> Block, iv: Block, a: seq<bv8>)
    requires |a| % 16 == 0 && a != []
    ensures var c := E(XorBlock(a[..16], iv)); CbcEncrypt(E, iv, a) == c + CbcEncrypt(E, c, a[16..])
  {
    hide XorBlock;
  }

  lemma CbcDecryptStep(D: Block -> Block, iv: Block, a: seq<bv8>)
    requires |a| % 16 == 0 && a != []
    ensures CbcDecrypt(D, iv, a) == XorBlock(D(a[..16]), iv) + CbcDecrypt(D, a[..16], a[16..])
  {
    hide XorBlock;
  }

  /** The first block of a longer text, and the chaining value after it. */
  lemma FirstBlock(iv: Block, a: seq<bv8>, b: seq<bv8>)
    requires |a| % 16 == 0 && a != []
    ensures (a + b)[..16] == a[..16] && (a + b)[16..] == a[16..] + b
    ensures Chain(a[..16], a[16..]) == Chain(iv, a)
  {
  }

  /** A call may be cut at any block boundary when the chaining value is carried over. */
  lemma {:induction false} CbcEncryptSplit(E: Block -> Block, iv: Block, a: seq<bv8>, b: seq<bv8>)
    requires |a| % 16 == 0 && |b| % 16 == 0
    ensures CbcEncrypt(E, iv, a + b) == CbcEncrypt(E, iv, a) + CbcEncrypt(E, Chain(iv, CbcEncrypt(E, iv, a)), b)
    decreases |a|
  {
    if a == [] {
      hide XorBlock;
      assert a + b == b;
    } else {
      hide *;
      var c := E(XorBlock(a[..16], iv));
      var rest := CbcEncrypt(E, c, a[16..]);
      FirstBlock(iv, a, b);
      CbcEncryptStep(E, iv, a);
      CbcEncryptStep(E, iv, a + b);
      CbcEncryptSplit(E, c, a[16..], b);
      FirstBlock(iv, c + rest, []);
      Associate(c, rest, CbcEncrypt(E, Chain(c, rest), b));
    }
  }

  lemma {:induction false} CbcDecryptSplit(D: Block -> Block, iv: Block, a: seq<bv8>, b: seq<bv8>)
    requires |a| % 16 == 0 && |b| % 16 == 0
    ensures CbcDecrypt(D, iv, a + b) == CbcDecrypt(D, iv, a) + CbcDecrypt(D, Chain(iv, a), b)
    decreases |a|
  {
    if a == [] {
      hide XorBlock;
      assert a + b == b;
    } else {
      hide *;
      FirstBlock(iv, a, b);
      CbcDecryptStep(D, iv, a);
      CbcDecryptStep(D, iv, a + b);
      CbcDecryptSplit(D, a[..16], a[16..], b);
      Associate(XorBlock(D(a[..16]), iv), CbcDecrypt(D, a[..16], a[16..]), CbcDecrypt(D, Chain(iv, a), b));
    }
  }

  /** Block j of parts of which the first is j blocks long. */
  lemma MiddleBlock(a: seq<bv8>, b: Block, c: seq<bv8>, j: nat)
    requires |a| == 16 * j
    ensures BlockAt(a + (b + c), j) == b && (j > 0 ==> BlockAt(a + (b + c), j - 1) == a[16 * j - 16..])
  {
  }

  lemma CutBefore(iv: Block, data: seq<bv8>, j: nat)
    requires 16 * j + 16 <= |data|
    ensures data == data[..16 * j] + data[16 * j..] && data[16 * j..][..16] == BlockAt(data, j)
    ensures Chain(iv, data[..16 * j]) == if j == 0 then iv else BlockAt(data, j - 1)
  {
  }

  lemma ChainIs(iv: Block, cipher: seq<bv8>)
    requires |cipher| % 16 == 0
    ensures Chain(iv, cipher) == if cipher == [] then iv else cipher[|cipher| - 16..]
  {
  }

  lemma SumBytes(x: Block, y: Block, z: Block)
    requires forall i :: 0 <= i < 16 ==> x[i] == y[i] ^ z[i]
    ensures x == XorBlock(y, z)
  {
  }

  /**
   CBC encryption by block number (section 6.2 of NIST SP 800-38A): block j of the ciphertext is E of the
   block whose byte i is byte i of plaintext block j plus byte i of the previous ciphertext block.
   */
  lemma CbcEncryptBlock(E: Block -> Block, iv: Block, data: seq<bv8>, j: nat, x: Block)
    requires |data| % 16 == 0 && 16 * j + 16 <= |data|
    requires var previous := if j == 0 then iv else BlockAt(CbcEncrypt(E, iv, data), j - 1);
             forall i :: 0 <= i < 16 ==> x[i] == BlockAt(data, j)[i] ^ previous[i]
    ensures BlockAt(CbcEncrypt(E, iv, data), j) == E(x)
  {
    hide *;
    var (a, b) := (data[..16 * j], data[16 * j..]);
    CutBefore(iv, data, j);
    ChainIs(iv, CbcEncrypt(E, iv, a));
    CbcEncryptSplit(E, iv, a, b);
    var sent := CbcEncrypt(E, iv, a);
    var previous := Chain(iv, sent);
    var y := E(XorBlock(b[..16], previous));
    CbcEncryptStep(E, previous, b);
    MiddleBlock(sent, y, CbcEncrypt(E, y, b[16..]), j);
    SumBytes(x, b[..16], previous);
  }

  lemma CbcDecryptSum(D: Block -> Block, iv: Block, data: seq<bv8>, j: nat)
    requires |data| % 16 == 0 && 16 * j + 16 <= |data|
    ensures BlockAt(CbcDecrypt(D, iv, data), j)
         == XorBlock(D(BlockAt(data, j)), if j == 0 then iv else BlockAt(data, j - 1))
  {
    hide *;
    var (a, b) := (data[..16 * j], data[16 * j..]);
    CutBefore(iv, data, j);
    CbcDecryptSplit(D, iv, a, b);
    var previous := Chain(iv, a);
    var y := XorBlock(D(b[..16]), previous);
    CbcDecryptStep(D, previous, b);
    MiddleBlock(CbcDecrypt(D, iv, a), y, CbcDecrypt(D, b[..16], b[16..]), j);
  }

  /** CBC decryption by block number: byte i of D of ciphertext block j plus byte i of the block before it. */
  lemma CbcDecryptBlock(D: Block -> Block, iv: Block, data: seq<bv8>, j: nat, i: nat)
    requires |data| % 16 == 0 && 16 * j + 16 <= |data| && i < 16
    ensures BlockAt(CbcDecrypt(D, iv, data), j)[i]
         == D(BlockAt(data, j))[i] ^ (if j == 0 then iv else BlockAt(data, j - 1))[i]
  {
    hide CbcDecrypt, BlockAt;
    CbcDecryptSum(D, iv, data, j);
  }

  /** Decrypting from another chaining value spoils the first block, by the difference of the two, and no other. */
  lemma CbcOtherIv(E: Block -> Block, D: Block -> Block, iv: Block, other: Block, data: seq<bv8>)
    requires |data| % 16 == 0 && data != []
    requires forall b: Block :: D(E(b)) == b
    ensures CbcDecrypt(D, other, CbcEncrypt(E, iv, data)) == XorBlock(XorBlock(data[..16], iv), other) + data[16..]
    ensures CbcDecrypt(D, other, CbcEncrypt(E, iv, data)) == data <==> iv == other
  {
    assert |data| >= 16;
    var x: Block := XorBlock(data[..16], iv);
    var c: Block := E(x);
    var rest := data[16..];
    var sent := CbcEncrypt(E, c, rest);
    CbcEncryptStep(E, iv, data);
    assert (c + sent)[..16] == c && (c + sent)[16..] == sent;
    CbcDecryptStep(D, other, c + sent);
    CbcRoundTrip(E, D, c, rest);
    XorBlockCancel(data[..16], iv);
    assert data == data[..16] + rest;
    hide CbcEncrypt, CbcDecrypt;
    if iv != other { XorBlockDiffers(data[..16], iv, other); }
  }

  lemma XorBlockDiffers(a: Block, b: Block, c: Block)
    requires b != c
    ensures XorBlock(XorBlock(a, b), c) != a
  {
    var i :| 0 <= i < 16 && b[i] != c[i];
    assert XorBlock(XorBlock(a, b), c)[i] == (a[i] ^ b[i]) ^ c[i];
    XorDiffers(a[i], b[i], c[i]);
  }

  lemma XorDiffers(a: bv8, b: bv8, c: bv8)
    requires b != c
    ensures (a ^ b) ^ c != a
  {
  }

  /** Encryption is injective in the data, so two plaintexts never share a ciphertext. */
  lemma CbcEncryptInjective(E: Block -> Block, D: Block -> Block, iv: Block, a: seq<bv8>, b: seq<bv8>)
    requires |a| % 16 == 0 && |b| % 16 == 0
    requires forall x: Block :: D(E(x)) == x
    requires CbcEncrypt(E, iv, a) == CbcEncrypt(E, iv, b)
    ensures a == b
  {
    CbcRoundTrip(E, D, iv, a);
    CbcRoundTrip(E, D, iv, b);
  }

  /** One more block at the end. */
  lemma CbcEncryptSnoc(E: Block -> Block, iv: Block, a: seq<bv8>, block: Block)
    requires |a| % 16 == 0
    ensures var done := CbcEncrypt(E, iv, a);
            CbcEncrypt(E, iv, a + block) == done + E(XorBlock(block, Chain(iv, done)))
  {
    hide XorBlock;
    CbcEncryptSplit(E, iv, a, block);
    var next := Chain(iv, CbcEncrypt(E, iv, a));
    assert block[..16] == block && block[16..] == [];
    assert CbcEncrypt(E, next, block) == E(XorBlock(block, next)) + [];
  }

  lemma CbcDecryptSnoc(D: Block -> Block, iv: Block, a: seq<bv8>, block: Block)
    requires |a| % 16 == 0
    ensures CbcDecrypt(D, iv, a + block) == CbcDecrypt(D, iv, a) + XorBlock(D(block), Chain(iv, a))
  {
    hide XorBlock;
    CbcDecryptSplit(D, iv, a, block);
    assert block[..16] == block && block[16..] == [];
    assert CbcDecrypt(D, Chain(iv, a), block) == XorBlock(D(block), Chain(iv, a)) + [];
  }

  // ---------------------------------------------------------------- both directions at once

  datatype Mode = Encrypt | Decrypt

  function CbcCrypt(mode: Mode, f: Block -> Block, iv: Block, data: seq<bv8>): (r: seq<bv8>)
    requires |data| % 16 == 0
    ensures |r| == |data|
  {
    if mode.Encrypt? then CbcEncrypt(f, iv, data) else CbcDecrypt(f, iv, data)
  }

  /** The chaining value that a call leaves: always the last block of ciphertext. */
  function CbcCarry(mode: Mode, f: Block -> Block, iv: Block, data: seq<bv8>): Block
    requires |data| % 16 == 0
  {
    Chain(iv, if mode.Encrypt? then CbcEncrypt(f, iv, data) else data)
  }

  function CbcTurn(mode: Mode, f: Block -> Block, iv: Block, block: Block): Block {
    if mode.Encrypt? then f(XorBlock(block, iv)) else XorBlock(f(block), iv)
  }

  lemma CbcSnoc(mode: Mode, f: Block -> Block, iv: Block, a: seq<bv8>, block: Block)
    requires |a| % 16 == 0
    ensures var turn := CbcTurn(mode, f, CbcCarry(mode, f, iv, a), block);
            && CbcCrypt(mode, f, iv, a + block) == CbcCrypt(mode, f, iv, a) + turn
            && CbcCarry(mode, f, iv, a + block) == if mode.Encrypt? then turn else block
  {
    hide XorBlock, CbcEncrypt, CbcDecrypt;
    CbcEncryptSnoc(f, iv, a, block);
    CbcDecryptSnoc(f, iv, a, block);
  }

  lemma CbcStart(mode: Mode, f: Block -> Block, iv: Block)
    ensures CbcCrypt(mode, f, iv, []) == [] && CbcCarry(mode, f, iv, []) == iv
  {}
}
