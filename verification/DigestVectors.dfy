/**
 The digests of "abc" (appendix A.5 of RFC 1321 and section 7.3 of RFC 3174), from the message to the
 bytes of the digest.
 */
module DigestVectors {
  import opened Words
  import opened Digest
  import Sha1
  import Md5
  import Sha1Vectors
  import Md5Vectors

  ghost predicate IsAbc(msg: seq<bv8>) {
    |msg| == 3 && msg[0] == 0x61 && msg[1] == 0x62 && msg[2] == 0x63
  }

  /** The one block: the message, the bit 1, zeros and the bit count 24. */
  lemma PaddedAbc(alg: Algorithm, msg: seq<bv8>)
    requires IsAbc(msg)
    ensures var p := Padded(alg, msg, 3);
            && |p| == 64 && p[0] == 0x61 && p[1] == 0x62 && p[2] == 0x63 && p[3] == 0x80
            && (forall i :: 4 <= i < 56 ==> p[i] == 0)
            && (forall i :: 0 <= i < 8 ==> p[56 + i] == CountBytes(alg, 24)[i])
  {
    hide CountBytes;
  }

  lemma CountOf24(alg: Algorithm)
    ensures var s := CountBytes(alg, 24);
            && s[if alg.MD5? then 0 else 7] == 0x18
            && forall i :: 0 <= i < 8 && i != (if alg.MD5? then 0 else 7) ==> s[i] == 0
  {
    assert ByteAt(24) == 0x18 && ByteAt(0) == 0;
    hide ByteAt;
  }

  lemma Sha1Block(msg: seq<bv8>)
    requires IsAbc(msg)
    ensures |Padded(SHA1, msg, 3)| == 64 && Sha1Vectors.Abc(Padded(SHA1, msg, 3))
  {
    PaddedAbc(SHA1, msg);
    CountOf24(SHA1);
    hide Padded, CountBytes;
    var p := Padded(SHA1, msg, 3);
    forall i | 4 <= i < 63 ensures p[i] == 0 {
      if i >= 56 { assert p[56 + (i - 56)] == CountBytes(SHA1, 24)[i - 56]; }
    }
    assert p[56 + 7] == CountBytes(SHA1, 24)[7];
  }

  lemma Md5Block(msg: seq<bv8>)
    requires IsAbc(msg)
    ensures |Padded(MD5, msg, 3)| == 64 && Md5Vectors.Abc(Padded(MD5, msg, 3))
  {
    PaddedAbc(MD5, msg);
    CountOf24(MD5);
    hide Padded, CountBytes;
    var p := Padded(MD5, msg, 3);
    forall i | 4 <= i < 64 && i != 56 ensures p[i] == 0 {
      if i > 56 { assert p[56 + (i - 56)] == CountBytes(MD5, 24)[i - 56]; }
    }
    assert p[56 + 0] == CountBytes(MD5, 24)[0];
  }

  /** A9993E36 4706816A BA3E2571 7850C26C 9CD0D89D */
  lemma Sha1OfAbc(msg: seq<bv8>)
    requires IsAbc(msg)
    ensures var h := Hash(SHA1, msg);
            && |h| == 20
            && h[0] == 0xA9 && h[1] == 0x99 && h[2] == 0x3E && h[3] == 0x36
            && h[4] == 0x47 && h[5] == 0x06 && h[6] == 0x81 && h[7] == 0x6A
            && h[8] == 0xBA && h[9] == 0x3E && h[10] == 0x25 && h[11] == 0x71
            && h[12] == 0x78 && h[13] == 0x50 && h[14] == 0xC2 && h[15] == 0x6C
            && h[16] == 0x9C && h[17] == 0xD0 && h[18] == 0xD8 && h[19] == 0x9D
  {
    hide Fold, Padded;
    Sha1Registers(msg);
  }

  lemma Sha1Registers(msg: seq<bv8>)
    requires IsAbc(msg)
    ensures Fold(Initial(SHA1), Padded(SHA1, msg, 3))
         == Sha1State(Sha1.Registers(0xA9993E36, 0x4706816A, 0xBA3E2571, 0x7850C26C, 0x9CD0D89D))
  {
    hide Padded, Fold, Sha1Vectors.Abc, Sha1.Compress;
    Sha1Block(msg);
    FoldOne(Initial(SHA1), Padded(SHA1, msg, 3));
    Sha1Vectors.CompressAbc(Padded(SHA1, msg, 3));
  }

  /** 900150983CD24FB0D6963F7D28E17F72 */
  lemma Md5OfAbc(msg: seq<bv8>)
    requires IsAbc(msg)
    ensures var h := Hash(MD5, msg);
            && |h| == 16
            && h[0] == 0x90 && h[1] == 0x01 && h[2] == 0x50 && h[3] == 0x98
            && h[4] == 0x3C && h[5] == 0xD2 && h[6] == 0x4F && h[7] == 0xB0
            && h[8] == 0xD6 && h[9] == 0x96 && h[10] == 0x3F && h[11] == 0x7D
            && h[12] == 0x28 && h[13] == 0xE1 && h[14] == 0x7F && h[15] == 0x72
  {
    hide Fold, Padded;
    Md5Registers(msg);
  }

  lemma Md5Registers(msg: seq<bv8>)
    requires IsAbc(msg)
    ensures Fold(Initial(MD5), Padded(MD5, msg, 3))
         == Md5State(Md5.Registers(0x98500190, 0xB04FD23C, 0x7D3F96D6, 0x727FE128))
  {
    hide Padded, Fold, Md5Vectors.Abc, Md5.Compress;
    Md5Block(msg);
    FoldOne(Initial(MD5), Padded(MD5, msg, 3));
    Md5Vectors.CompressAbc(Padded(MD5, msg, 3));
  }
}
