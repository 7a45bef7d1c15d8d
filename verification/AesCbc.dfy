/**
 utils_aes_crypt_cbc and the padding wrapper utils_aes_cbc.
 */
module AesCbc {
  import opened AesTables
  import opened FipsAes
  import opened AesContext
  import opened Blocks
  import opened Overwriting

  const INVALID_INPUT_LENGTH := -0x0022
  const RET_SUCCESS := 0
  const ERR_FAILURE := -1001
  const BLOCK_LEN := 16

  /** Adds the chaining value to the block of the output buffer at pos, byte by byte. */
  method XorInto(output: array<bv8>, pos: nat, iv: array<bv8>)
    requires pos + 16 <= output.Length && iv.Length == 16 && iv != output
    modifies output
    ensures output[..] == Splice(old(output[..]), pos, XorBlock(old(output[pos..pos + 16]), iv[..]))
  {
    ghost var (o, sum) := (output[..], XorBlock(output[pos..pos + 16], iv[..]));
    OverwriteEnds(o, pos, sum);
    hide Overwritten;
    for i := 0 to 16
      invariant output[..] == Overwritten(o, pos, sum, i)
    {
      OverwriteNext(o, pos, sum, i);
      ghost var was := output[..];
      assert output[pos + i] == was[pos + i] == o[pos + i];
      output[pos + i] := output[pos + i] ^ iv[i];
      assert output[..] == was[pos + i := sum[i]];
    }
  }

  method XorTo(input: array<bv8>, output: array<bv8>, pos: nat, iv: array<bv8>)
    requires pos + 16 <= input.Length && pos + 16 <= output.Length && iv.Length == 16 && iv != output
    modifies output
    ensures output[..] == Splice(old(output[..]), pos, XorBlock(old(input[pos..pos + 16]), iv[..]))
  {
    ghost var (n, o, sum) := (input[..], output[..], XorBlock(input[pos..pos + 16], iv[..]));
    OverwriteEnds(o, pos, sum);
    hide Overwritten;
    for i := 0 to 16
      invariant output[..] == Overwritten(o, pos, sum, i)
      invariant input != output ==> input[..] == n
    {
      OverwriteNext(o, pos, sum, i);
      ghost var was := output[..];
      assert input[pos + i] == n[pos + i] by {
        assert input[pos + i] == input[..][pos + i];
      }
      output[pos + i] := input[pos + i] ^ iv[i];
      assert output[..] == was[pos + i := sum[i]];
    }
  }

  /** The buffers of a CBC call: the input and output may be one buffer, the IV is apart. */
  ghost predicate Buffers(t: Tables, length: nat, iv: array<bv8>, input: array<bv8>, output: array<bv8>) {
    && length <= input.Length && length <= output.Length && iv.Length == 16
    && iv != input && iv != output && iv !in t.byteArrays && output !in t.byteArrays
  }

  /** A finished prefix in front of an untouched rest. */
  ghost predicate Prefixed(done: seq<bv8>, output: seq<bv8>, before: seq<bv8>) {
    |done| <= |before| && output == done + before[|done|..]
  }

  /** Splicing the next block after a finished prefix. */
  lemma SpliceNext(done: seq<bv8>, before: seq<bv8>, b: Block)
    requires |done| + 16 <= |before|
    ensures Splice(done + before[|done|..], |done|, b) == (done + b) + before[|done| + 16..]
  {}

  lemma SpliceTwice(s: seq<bv8>, at: nat, a: Block, b: Block)
    requires at + 16 <= |s|
    ensures Splice(s, at, a)[at..at + 16] == a
    ensures Splice(Splice(s, at, a), at, b) == Splice(s, at, b)
  {}

  lemma SpliceAll(s: Block, b: Block)
    ensures Splice(s, 0, b) == b
  {}

  /** One turn of either loop. */
  method Turn(ctx: Context, t: Tables, mode: Mode, iv: array<bv8>, input: array<bv8>, output: array<bv8>, pos: nat,
              ghost f: Block -> Block)
    requires ctx.Keyed() && t.Ready() && Computes(mode, ctx.buf[..], ctx.nr, f)
    requires pos + 16 <= input.Length && Buffers(t, pos + 16, iv, input, output)
    modifies iv, output
    ensures var block := old(input[pos..pos + 16]);
            var turn := CbcTurn(mode, f, old(iv[..]), block);
            && output[..] == Splice(old(output[..]), pos, turn)
            && iv[..] == if mode.Encrypt? then turn else block
    ensures t.Ready()
  {
    hide SBoxTables, TableUpTo, Computes, XorBlock, Splice;
    ghost var (o, i) := (output[..], iv[..]);
    var temp := input[pos..pos + 16];
    ghost var turn := CbcTurn(mode, f, i, temp);
    if mode.Decrypt? {
      CryptEcb(ctx, t, mode, input, pos, output, pos, f);
      SpliceTwice(o, pos, f(temp), turn);
      assert output[pos..pos + 16] == output[..][pos..pos + 16];
      XorInto(output, pos, iv);
      PutBlock(iv, 0, temp);
      SpliceAll(i, temp);
    } else {
      XorTo(input, output, pos, iv);
      SpliceTwice(o, pos, XorBlock(temp, i), turn);
      assert output[pos..pos + 16] == output[..][pos..pos + 16];
      CryptEcb(ctx, t, mode, output, pos, output, pos, f);
      SpliceTwice(o, pos, turn, turn);
      assert output[pos..pos + 16] == output[..][pos..pos + 16];
      PutBlock(iv, 0, output[pos..pos + 16]);
      SpliceAll(i, turn);
    }
  }

  lemma NextBlock(done: seq<bv8>, output: seq<bv8>, before: seq<bv8>, length: nat)
    requires Prefixed(done, output, before) && |done| + 16 <= length <= |before|
    ensures output[|done|..|done| + 16] == before[..length][|done|..|done| + 16]
  {}

  /** The state of a call after the blocks before pos. */
  ghost predicate Progress(mode: Mode, f: Block -> Block, iv0: Block, data: seq<bv8>, out0: seq<bv8>, pos: nat,
                           iv: Block, output: seq<bv8>)
    requires |data| % 16 == 0 && pos % 16 == 0 && pos <= |data|
  {
    && Prefixed(CbcCrypt(mode, f, iv0, data[..pos]), output, out0)
    && iv == CbcCarry(mode, f, iv0, data[..pos])
  }

  lemma ProgressNext(mode: Mode, f: Block -> Block, iv0: Block, data: seq<bv8>, out0: seq<bv8>, pos: nat,
                     iv: Block, output: seq<bv8>)
    requires |data| % 16 == 0 && pos % 16 == 0 && pos + 16 <= |data| <= |out0|
    requires Progress(mode, f, iv0, data, out0, pos, iv, output)
    ensures |output| == |out0| && (data == out0[..|data|] ==> output[pos..pos + 16] == data[pos..pos + 16])
    ensures var block := data[pos..pos + 16];
            var turn := CbcTurn(mode, f, iv, block);
            Progress(mode, f, iv0, data, out0, pos + 16, if mode.Encrypt? then turn else block, Splice(output, pos, turn))
  {
    hide CbcCrypt, CbcCarry, CbcTurn, XorBlock, Splice;
    var (done, block) := (CbcCrypt(mode, f, iv0, data[..pos]), data[pos..pos + 16]);
    SpliceNext(done, out0, CbcTurn(mode, f, iv, block));
    CbcSnoc(mode, f, iv0, data[..pos], block);
    assert data[..pos + 16] == data[..pos] + block;
    if data == out0[..|data|] { NextBlock(done, output, out0, |data|); }
  }

  lemma ProgressEnds(mode: Mode, f: Block -> Block, iv0: Block, data: seq<bv8>, out0: seq<bv8>)
    requires |data| % 16 == 0 && |data| <= |out0|
    ensures Progress(mode, f, iv0, data, out0, 0, iv0, out0)
    ensures forall iv: Block, output :: Progress(mode, f, iv0, data, out0, |data|, iv, output) ==>
      Prefixed(CbcCrypt(mode, f, iv0, data), output, out0) && iv == CbcCarry(mode, f, iv0, data)
  {
    CbcStart(mode, f, iv0);
    assert data[..0] == [] && data[..|data|] == data;
    hide CbcCrypt, CbcCarry;
  }

  /** utils_aes_crypt_cbc, with the mode test inside one loop; in place or between buffers. */
  method CryptCbc(ctx: Context, t: Tables, mode: Mode, length: nat, iv: array<bv8>, input: array<bv8>, output: array<bv8>,
                  ghost f: Block -> Block)
    returns (ret: int)
    requires ctx.Keyed() && t.Ready() && Computes(mode, ctx.buf[..], ctx.nr, f)
    requires Buffers(t, length, iv, input, output)
    modifies iv, output
    ensures length % 16 != 0 ==> ret == INVALID_INPUT_LENGTH == -0x0022 && iv[..] == old(iv[..]) && output[..] == old(output[..])
    ensures length % 16 == 0 ==>
      var data := old(input[..length]);
      && ret == 0
      && Prefixed(CbcCrypt(mode, f, old(iv[..]), data), output[..], old(output[..]))
      && iv[..] == CbcCarry(mode, f, old(iv[..]), data)
    ensures t.Ready()
  {
    hide SBoxTables, TableUpTo, Computes, XorBlock, Splice, CbcCrypt, CbcCarry, CbcTurn, Prefixed, Progress;
    if length % 16 != 0 { return INVALID_INPUT_LENGTH; }
    ghost var (data, iv0, out0) := (input[..length], iv[..], output[..]);
    var pos := 0;
    ProgressEnds(mode, f, iv0, data, out0);
    while pos < length
      invariant pos % 16 == 0 && pos <= length && t.Ready()
      invariant ctx.buf[..] == old(ctx.buf[..])
      invariant input != output ==> input[..] == old(input[..])
      invariant Progress(mode, f, iv0, data, out0, pos, iv[..], output[..])
    {
      ProgressNext(mode, f, iv0, data, out0, pos, iv[..], output[..]);
      assert input[pos..pos + 16] == data[pos..pos + 16] by {
        assert input[pos..pos + 16] == input[..][pos..pos + 16];
        assert data[pos..pos + 16] == old(input[..])[pos..pos + 16];
      }
      Turn(ctx, t, mode, iv, input, output, pos, f);
      pos := pos + 16;
    }
    ret := 0;
  }

  // ---------------------------------------------------------------- the padding wrapper

  function PadLength(n: nat): (p: nat)
    ensures 1 <= p <= BLOCK_LEN && (n + p) % BLOCK_LEN == 0
  {
    BLOCK_LEN - n % BLOCK_LEN
  }

  function Padded(data: seq<bv8>): seq<bv8> { data + seq(PadLength(|data|), _ => 0) }

  /**
   The bytes that an encrypting call really encrypts. The zero padding goes into the output
   buffer while the cipher reads the input buffer, so only an in-place call sees the zeros.
   */
  function Encrypted(inPlace: bool, input: seq<bv8>, datalen: nat): (r: seq<bv8>)
    requires datalen <= |input| && (!inPlace ==> datalen + PadLength(datalen) <= |input|)
    ensures |r| == datalen + PadLength(datalen)
  {
    if inPlace then Padded(input[..datalen]) else input[..datalen + PadLength(datalen)]
  }

  /** memcpy to the start of a buffer, which may be the source itself. */
  method CopyInto(input: array<bv8>, n: nat, output: array<bv8>)
    requires n <= input.Length && n <= output.Length
    modifies output
    ensures output[..] == old(input[..n]) + old(output[..])[n..]
  {
    ghost var (all, o) := (input[..], output[..]);
    ghost var b := all[..n];
    OverwriteFront(o, b);
    hide Overwritten;
    for i := 0 to n
      invariant output[..] == Overwritten(o, 0, b, i)
      invariant input != output ==> input[..] == all
    {
      OverwriteNext(o, 0, b, i);
      ghost var was := output[..];
      assert input[i] == input[..][i] == b[i];
      output[i] := input[i];
      assert output[..] == was[i := b[i]];
    }
  }

  method ZeroFill(a: array<bv8>, from: nat, n: nat)
    requires from + n <= a.Length
    modifies a
    ensures a[..] == old(a[..])[..from] + seq(n, _ => 0) + old(a[..])[from + n..]
  {
    for i := 0 to n
      invariant forall k :: 0 <= k < from || from + i <= k < a.Length ==> a[k] == old(a[k])
      invariant forall k :: from <= k < from + i ==> a[k] == 0
    {
      a[from + i] := 0;
    }
  }

  /** The two ends of the wrapper: its buffers, and a key as long as the key size asks. */
  ghost predicate WrapperArguments(t: Tables, input: array<bv8>, datalen: nat, output: array<bv8>, outLen: nat,
                                   mode: Mode, key: seq<bv8>, keybits: nat, iv: array<bv8>)
  {
    && Buffers(t, datalen, iv, input, output) && (KeyBits(keybits) ==> 8 * |key| >= keybits)
    && outLen <= output.Length && datalen + (if mode.Encrypt? then BLOCK_LEN else 0) < 0x1_0000_0000
    && (mode.Encrypt? && datalen + BLOCK_LEN <= outLen ==> datalen + PadLength(datalen) <= input.Length)
  }

  /** The block function of a key, in one direction or the other. */
  function KeyFunction(mode: Mode, key: seq<bv8>, nk: nat): Block -> Block
    requires ValidKey(key, nk)
  {
    if mode.Encrypt? then KeyCipher(key, nk) else KeyDecipher(key, nk)
  }

  /** The blocks that go through the cipher. */
  function WrapperInput(mode: Mode, inPlace: bool, input: seq<bv8>, datalen: nat): (r: seq<bv8>)
    requires Wrappable(mode, inPlace, input, datalen)
    ensures |r| % 16 == 0 && |r| == if mode.Encrypt? then datalen + PadLength(datalen) else datalen
  {
    if mode.Encrypt? then Encrypted(inPlace, input, datalen) else input[..datalen]
  }

  predicate Wrappable(mode: Mode, inPlace: bool, input: seq<bv8>, datalen: nat) {
    && datalen <= |input|
    && if mode.Encrypt? then inPlace || datalen + PadLength(datalen) <= |input| else datalen % BLOCK_LEN == 0
  }

  /** CBC with the cipher of the key, over the padded data or back. */
  function WrapperResult(mode: Mode, key: seq<bv8>, nk: nat, iv: Block, inPlace: bool, input: seq<bv8>, datalen: nat): (r: seq<bv8>)
    requires ValidKey(key, nk) && Wrappable(mode, inPlace, input, datalen)
    ensures |r| == if mode.Encrypt? then datalen + PadLength(datalen) else datalen
  {
    CbcCrypt(mode, KeyFunction(mode, key, nk), iv, WrapperInput(mode, inPlace, input, datalen))
  }

  /** What the call leaves in the IV buffer. */
  function WrapperIv(mode: Mode, key: seq<bv8>, nk: nat, iv: Block, inPlace: bool, input: seq<bv8>, datalen: nat): Block
    requires ValidKey(key, nk) && Wrappable(mode, inPlace, input, datalen)
  {
    CbcCarry(mode, KeyFunction(mode, key, nk), iv, WrapperInput(mode, inPlace, input, datalen))
  }

  method Wrapper(t: Tables, input: array<bv8>, datalen: nat, output: array<bv8>, outLen: nat,
                 mode: Mode, key: seq<bv8>, keybits: nat, iv: array<bv8>)
    returns (ret: int)
    requires t.Ready() && WrapperArguments(t, input, datalen, output, outLen, mode, key, keybits, iv)
    modifies iv, output
    ensures ret == RET_SUCCESS <==>
      KeyBits(keybits) && if mode.Encrypt? then datalen + BLOCK_LEN <= outLen else datalen % BLOCK_LEN == 0
    ensures ret != RET_SUCCESS ==> ret == ERR_FAILURE == -1001 && iv[..] == old(iv[..]) && output[..] == old(output[..])
    ensures t.Ready()
    ensures ret == RET_SUCCESS ==>
      var (k, n, i, same, data) := (key[..keybits / 8], keybits / 32, old(iv[..]), input == output, old(input[..]));
      && Prefixed(WrapperResult(mode, k, n, i, same, data, datalen), output[..], old(output[..]))
      && iv[..] == WrapperIv(mode, k, n, i, same, data, datalen)
  {
    hide SBoxTables, TableUpTo, Computes, CbcEncrypt, CbcDecrypt, KeyCipher, KeyDecipher, IsInverseSchedule, Filled, Rcon;
    var ctx := new Context.Init();
    var length := datalen;
    ghost var f;
    if mode.Encrypt? {
      ret := ctx.SetKeyEnc(t, key, keybits);
      if ret != 0 { return ERR_FAILURE; }
      if outLen < datalen + BLOCK_LEN { return ERR_FAILURE; }
      f := KeyCipher(key[..keybits / 8], keybits / 32);
      ContextComputesCipher(ctx.buf[..], key[..keybits / 8], keybits / 32);
      var padlen := PadLength(datalen);
      CopyInto(input, datalen, output);
      ZeroFill(output, datalen, padlen);
      length := datalen + padlen;
    } else {
      ret := ctx.SetKeyDec(t, key, keybits);
      if ret != 0 { return ERR_FAILURE; }
      f := KeyDecipher(key[..keybits / 8], keybits / 32);
      ContextComputesDecipher(ctx.buf[..], key[..keybits / 8], keybits / 32);
    }
    assert length % 16 == 0 ==> input[..length] == WrapperInput(mode, input == output, old(input[..]), datalen);
    ghost var before := output[..];
    ret := CryptCbc(ctx, t, mode, length, iv, input, output, f);
    assert before[length..] == old(output[..])[length..];
    ret := if ret != 0 then ERR_FAILURE else RET_SUCCESS;
  }

  // ---------------------------------------------------------------- what the wrapper promises

  /**
   Encrypting and decrypting in place gives the data back, followed by 1 to 16 zero bytes, if and only
   if both calls start from the same IV.
   */
  lemma InPlaceRoundTrip(key: seq<bv8>, nk: nat, iv: Block, other: Block, data: seq<bv8>, buffer: seq<bv8>, between: seq<bv8>)
    requires ValidKey(key, nk) && data <= buffer
    requires WrapperResult(Encrypt, key, nk, iv, true, buffer, |data|) <= between
    ensures var sent := WrapperResult(Encrypt, key, nk, iv, true, buffer, |data|);
            && |sent| == |Padded(data)| && |sent| % BLOCK_LEN == 0
            && (WrapperResult(Decrypt, key, nk, other, true, between, |sent|) == Padded(data) <==> iv == other)
  {
    hide KeyCipher, KeyDecipher, CbcEncrypt, CbcDecrypt, XorBlock;
    var (E, D) := (KeyCipher(key, nk), KeyDecipher(key, nk));
    forall b: Block ensures D(E(b)) == b { DecipherCipher(key, nk, b); }
    CbcOtherIv(E, D, iv, other, Padded(data));
    var sent := CbcEncrypt(E, iv, Padded(data));
    assert buffer[..|data|] == data && between[..|sent|] == sent;
  }

  /**
   Both calls on one buffer. Without restoring the IV in between, the second call starts from the last
   block of ciphertext, and the data come back only if that is the IV itself.
   */
  method EncryptThenDecrypt(t: Tables, buffer: array<bv8>, datalen: nat, outLen: nat, key: seq<bv8>, keybits: nat,
                            iv: array<bv8>, restore: bool)
    returns (ret: int)
    requires t.Ready() && WrapperArguments(t, buffer, datalen, buffer, outLen, Encrypt, key, keybits, iv)
    modifies iv, buffer
    ensures ret == RET_SUCCESS <==> KeyBits(keybits) && datalen + BLOCK_LEN <= outLen
    ensures t.Ready()
    ensures ret == RET_SUCCESS ==>
      var (k, n, i, all) := (key[..keybits / 8], keybits / 32, old(iv[..]), old(buffer[..]));
      Prefixed(Padded(all[..datalen]), buffer[..], all)
      <==> restore || WrapperIv(Encrypt, k, n, i, true, all, datalen) == i
  {
    hide WrapperResult, WrapperIv, SBoxTables, TableUpTo, XorBlock;
    ghost var (all, i) := (buffer[..], iv[..]);
    var saved := iv[..];
    ret := Wrapper(t, buffer, datalen, buffer, outLen, Encrypt, key, keybits, iv);
    if ret != RET_SUCCESS { return; }
    ghost var (k, n, data, between) := (key[..keybits / 8], keybits / 32, all[..datalen], buffer[..]);
    if restore { PutBlock(iv, 0, saved); SpliceAll(iv[..], saved); }
    InPlaceRoundTrip(k, n, i, iv[..], data, all, between);
    ghost var other := iv[..];
    ret := Wrapper(t, buffer, datalen + PadLength(datalen), buffer, outLen, Decrypt, key, keybits, iv);
    SamePrefix(WrapperResult(Encrypt, k, n, i, true, all, datalen), between, all,
               WrapperResult(Decrypt, k, n, other, true, between, datalen + PadLength(datalen)), buffer[..], Padded(data));
  }

  /** For every key and IV, of two short plaintexts at most one leaves the IV in its buffer. */
  lemma IvBufferSpoiled(key: seq<bv8>, nk: nat, iv: Block, a: seq<bv8>, b: seq<bv8>)
    requires ValidKey(key, nk) && |a| == |b| < BLOCK_LEN && a != b
    ensures WrapperIv(Encrypt, key, nk, iv, true, a, |a|) != iv || WrapperIv(Encrypt, key, nk, iv, true, b, |b|) != iv
  {
    hide KeyCipher, KeyDecipher, CbcEncrypt, XorBlock;
    var (E, D) := (KeyCipher(key, nk), KeyDecipher(key, nk));
    forall x: Block ensures D(E(x)) == x { DecipherCipher(key, nk, x); }
    assert a[..|a|] == a && b[..|b|] == b && Padded(a)[..|a|] == a && Padded(b)[..|b|] == b;
    if CbcEncrypt(E, iv, Padded(a)) == CbcEncrypt(E, iv, Padded(b)) {
      CbcEncryptInjective(E, D, iv, Padded(a), Padded(b));
    }
  }

  /** Two results of one length, written one after the other. */
  lemma SamePrefix(a: seq<bv8>, between: seq<bv8>, before: seq<bv8>, b: seq<bv8>, after: seq<bv8>, wanted: seq<bv8>)
    requires Prefixed(a, between, before) && Prefixed(b, after, between) && |a| == |b| == |wanted|
    ensures Prefixed(wanted, after, before) <==> b == wanted
  {
    assert after[|b|..] == between[|b|..] == before[|b|..];
    assert after[..|b|] == b;
  }

  /** Between separate buffers the padding is right exactly when the input already holds the zeros. */
  lemma SeparateBuffersPad(key: seq<bv8>, nk: nat, iv: Block, input: seq<bv8>, datalen: nat)
    requires ValidKey(key, nk) && datalen + PadLength(datalen) <= |input|
    ensures WrapperResult(Encrypt, key, nk, iv, false, input, datalen) == WrapperResult(Encrypt, key, nk, iv, true, input, datalen)
       <==> forall i :: datalen <= i < datalen + PadLength(datalen) ==> input[i] == 0
  {
    hide KeyCipher, KeyDecipher, CbcEncrypt;
    var (E, D) := (KeyCipher(key, nk), KeyDecipher(key, nk));
    var (raw, padded) := (Encrypted(false, input, datalen), Encrypted(true, input, datalen));
    if CbcEncrypt(E, iv, raw) == CbcEncrypt(E, iv, padded) {
      forall b: Block ensures D(E(b)) == b { DecipherCipher(key, nk, b); }
      CbcEncryptInjective(E, D, iv, raw, padded);
      forall i | datalen <= i < datalen + PadLength(datalen) ensures input[i] == 0 { assert raw[i] == padded[i]; }
    }
    if forall i :: datalen <= i < datalen + PadLength(datalen) ==> input[i] == 0 {
      assert raw == padded;
    }
  }

  /** A separate input buffer that does not end in zeros: its own bytes are encrypted instead. */
  lemma SeparateBuffersExample(key: seq<bv8>, nk: nat, iv: Block)
    requires ValidKey(key, nk)
    ensures var input := seq(16, _ => 1 as bv8);
            WrapperResult(Encrypt, key, nk, iv, false, input, 15) != WrapperResult(Encrypt, key, nk, iv, true, input, 15)
  {
    hide WrapperResult;
    var input := seq(16, _ => 1 as bv8);
    SeparateBuffersPad(key, nk, iv, input, 15);
    assert input[15] == 1;
  }
}
