/**
 Keyed hashing (section 2 of RFC 2104) as utils_hmac.c does it: two passes through one
 streaming context and one digest buffer.
 */
module Hmac {
  import opened Words
  import opened Digest

  const PAD_SIZE := 64
  const IPAD: bv8 := 0x36
  const OPAD: bv8 := 0x5C

  function XorByte(a: bv8, b: bv8): bv8 { a ^ b }

  /** The key, padded with zeros to 64 bytes, with every byte added to a constant. */
  function KeyPad(key: seq<bv8>, c: bv8): (p: seq<bv8>)
    requires |key| <= PAD_SIZE
    ensures |p| == PAD_SIZE
  {
    seq(PAD_SIZE, i requires 0 <= i < PAD_SIZE => XorByte(if i < |key| then key[i] else 0, c))
  }

  function Mac(alg: Algorithm, key: seq<bv8>, text: seq<bv8>): seq<bv8>
    requires |key| <= PAD_SIZE
  {
    Hash(alg, KeyPad(key, OPAD) + Hash(alg, KeyPad(key, IPAD) + text))
  }

  /** The key and zeros up to 64 bytes, every byte added to c. */
  ghost predicate IsPad(pad: seq<bv8>, key: seq<bv8>, c: bv8) {
    |pad| == 64 && forall j :: 0 <= j < 64 ==> pad[j] == (if j < |key| then key[j] else 0) ^ c
  }

  /** H((K xor opad) with H((K xor ipad) with text)) of section 2 of RFC 2104, on the bytes of the pads. */
  lemma MacOfPads(alg: Algorithm, key: seq<bv8>, text: seq<bv8>, inner: seq<bv8>, outer: seq<bv8>)
    requires |key| <= 64 && IsPad(inner, key, 0x36) && IsPad(outer, key, 0x5C)
    ensures Mac(alg, key, text) == Hash(alg, outer + Hash(alg, inner + text))
  {
    hide Hash;
    PadIs(inner, key, 0x36);
    PadIs(outer, key, 0x5C);
  }

  lemma PadIs(pad: seq<bv8>, key: seq<bv8>, c: bv8)
    requires |key| <= 64 && IsPad(pad, key, c)
    ensures pad == KeyPad(key, c)
  {
  }

  /** memset, memcpy and the loop that adds the constant. */
  method FillPad(key: seq<bv8>, c: bv8) returns (pad: array<bv8>)
    requires |key| <= PAD_SIZE
    ensures fresh(pad) && pad[..] == KeyPad(key, c)
  {
    hide XorByte;
    pad := new bv8[PAD_SIZE](_ => 0);
    for i := 0 to |key|
      invariant forall j :: 0 <= j < PAD_SIZE ==> pad[j] == if j < i then key[j] else 0
    {
      pad[i] := key[i];
    }
    for i := 0 to PAD_SIZE
      invariant forall j :: 0 <= j < PAD_SIZE ==>
        pad[j] == var k := if j < |key| then key[j] else 0; if j < i then XorByte(k, c) else k
    {
      pad[i] := XorByte(pad[i], c);
    }
  }

  /** One pass: a pad, then more bytes, through a fresh context into the digest buffer. */
  method Pass(alg: Algorithm, pad: seq<bv8>, text: seq<bv8>, out: array<bv8>)
    requires |pad| == PAD_SIZE && |text| < B32 && out.Length == DigestSize(alg)
    modifies out
    ensures out[..] == Hash(alg, pad + text)
  {
    hide Fold, Padded, OutputBytes;
    var ctx := new Context.Starts(alg);
    ctx.Update(pad);
    ctx.Update(text);
    assert [] + pad + text == pad + text;
    Finish(ctx, out);
  }

  /** Both passes; the inner digest is read from the buffer that the outer one overwrites. */
  method MacInto(alg: Algorithm, key: seq<bv8>, msg: seq<bv8>, out: array<bv8>)
    requires |key| <= PAD_SIZE && |msg| < B32 && out.Length == DigestSize(alg)
    modifies out
    ensures out[..] == Mac(alg, key, msg)
    ensures exists i, o :: IsPad(i, key, 0x36) && IsPad(o, key, 0x5C) && out[..] == Hash(alg, o + Hash(alg, i + msg))
  {
    PadsExist(key);
    hide Hash, KeyPad, IsPad;
    var ipad := FillPad(key, IPAD);
    var opad := FillPad(key, OPAD);
    Pass(alg, ipad[..], msg, out);
    Pass(alg, opad[..], out[..], out);
  }

  lemma PadsExist(key: seq<bv8>)
    requires |key| <= PAD_SIZE
    ensures IsPad(KeyPad(key, IPAD), key, 0x36) && IsPad(KeyPad(key, OPAD), key, 0x5C)
  {
  }

  // ---------------------------------------------------------------- digests as text

  function HexDigit(v: nat): char
    requires v < 16
  {
    if v < 10 then '0' + v as char else 'a' + (v - 10) as char
  }

  lemma HexDigits(v: nat)
    requires v < 16
    ensures HexDigit(v) == "0123456789abcdef"[v]
  {
  }

  /** Byte i is printed as its high and then its low four bits. */
  lemma {:induction false} HexBytes(bytes: seq<bv8>, i: nat)
    requires i < |bytes|
    ensures Hex(bytes)[2 * i] == "0123456789abcdef"[Index(bytes[i]) / 16]
    ensures Hex(bytes)[2 * i + 1] == "0123456789abcdef"[Index(bytes[i]) % 16]
  {
    var n := |bytes| - 1;
    if i < n {
      HexBytes(bytes[..n], i);
    } else {
      HexDigits(Index(bytes[n]) / 16);
      HexDigits(Index(bytes[n]) % 16);
    }
  }

  function Hex(bytes: seq<bv8>): (s: string)
    ensures |s| == 2 * |bytes|
  {
    if bytes == [] then []
    else
      var v := Index(bytes[|bytes| - 1]);
      Hex(bytes[..|bytes| - 1]) + [HexDigit(v / 16), HexDigit(v % 16)]
  }

  lemma HexDigitInjective(v: nat, w: nat)
    requires v < 16 && w < 16 && HexDigit(v) == HexDigit(w)
    ensures v == w
  {}

  lemma HexEnds(a: seq<bv8>)
    requires a != []
    ensures var (n, v, h) := (|a| - 1, Index(a[|a| - 1]), Hex(a));
            h[..2 * n] == Hex(a[..n]) && h[2 * n] == HexDigit(v / 16) && h[2 * n + 1] == HexDigit(v % 16)
  {
    hide HexDigit, Index;
  }

  lemma ByteByDigits(x: bv8, y: bv8)
    requires HexDigit(Index(x) / 16) == HexDigit(Index(y) / 16) && HexDigit(Index(x) % 16) == HexDigit(Index(y) % 16)
    ensures x == y
  {
    hide HexDigit, Index;
    HexDigitInjective(Index(x) / 16, Index(y) / 16); HexDigitInjective(Index(x) % 16, Index(y) % 16);
    IndexInjective(x, y);
  }

  /** Different digests print differently. */
  lemma {:induction false} HexInjective(a: seq<bv8>, b: seq<bv8>)
    requires Hex(a) == Hex(b)
    ensures a == b
  {
    hide *;
    assert |a| == |b|;
    if a != [] {
      var n := |a| - 1;
      HexEnds(a); HexEnds(b);
      HexInjective(a[..n], b[..n]);
      ByteByDigits(a[n], b[n]);
      assert a == a[..n] + [a[n]] && b == b[..n] + [b[n]];
    }
  }

  /** utils_hmac_md5 and utils_hmac_sha1: hexadecimal digits, or nothing for a longer key. */
  method MacHex(alg: Algorithm, msg: seq<bv8>, digest: array<char>, key: seq<bv8>)
    requires |msg| < 0x8000_0000 && digest.Length == 2 * DigestSize(alg)
    modifies digest
    ensures |key| <= PAD_SIZE ==> digest[..] == Hex(Mac(alg, key, msg))
    ensures |key| > PAD_SIZE ==> digest[..] == old(digest[..])
  {
    hide Mac, Index, HexDigit, IsPad, Hash;
    if |key| > PAD_SIZE { return; }
    var out := new bv8[DigestSize(alg)];
    MacInto(alg, key, msg, out);
    for i := 0 to out.Length
      invariant out[..] == Mac(alg, key, msg)
      invariant digest[..2 * i] == Hex(out[..i])
    {
      var v := Index(out[i]);
      assert out[..i + 1][..i] == out[..i];
      digest[2 * i] := HexDigit(v / 16);
      digest[2 * i + 1] := HexDigit(v % 16);
      assert digest[..2 * i + 2] == digest[..2 * i] + [HexDigit(v / 16), HexDigit(v % 16)];
    }
    assert out[..out.Length] == out[..] && digest[..digest.Length] == digest[..];
  }

  /** utils_hmac_sha1_hex: the raw bytes and their number, or zero for a longer key. */
  method MacRaw(msg: seq<bv8>, digest: array<bv8>, key: seq<bv8>) returns (n: nat)
    requires |msg| < 0x8000_0000 && digest.Length == DigestSize(SHA1)
    modifies digest
    ensures n == if |key| <= PAD_SIZE then DigestSize(SHA1) else 0
    ensures |key| <= PAD_SIZE ==> digest[..] == Mac(SHA1, key, msg)
    ensures |key| > PAD_SIZE ==> digest[..] == old(digest[..])
  {
    hide Mac, IsPad, Hash;
    if |key| > PAD_SIZE { return 0; }
    var out := new bv8[DigestSize(SHA1)];
    MacInto(SHA1, key, msg, out);
    PutBytes(digest, out[..]);
    n := DigestSize(SHA1);
  }
}
