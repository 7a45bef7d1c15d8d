/**
 The streaming contexts of utils_md5.c and utils_sha1.c. The two files share their buffering,
 counting and padding code and differ in the compression function and the byte order, so one
 context with an algorithm tag stands for both.
 */
module Digest {
  import opened Arithmetic
  import opened Words
  import opened Overwriting
  import Sha1
  import Md5

  const B32 := 0x1_0000_0000
  const B64 := 0x1_0000_0000_0000_0000

  datatype Algorithm = MD5 | SHA1

  datatype State = Md5State(m: Md5.Registers) | Sha1State(s: Sha1.Registers)

  function Initial(alg: Algorithm): State {
    match alg
    case MD5 => Md5State(Md5.Registers(0x67452301, 0xEFCDAB89, 0x98BADCFE, 0x10325476))
    case SHA1 => Sha1State(Sha1.Registers(0x67452301, 0xEFCDAB89, 0x98BADCFE, 0x10325476, 0xC3D2E1F0))
  }

  function Compress(st: State, block: Bytes64): State {
    match st
    case Md5State(m) => Md5State(Md5.Compress(m, block))
    case Sha1State(s) => Sha1State(Sha1.Compress(s, block))
  }

  function Of(st: State): Algorithm { if st.Md5State? then MD5 else SHA1 }

  // ---------------------------------------------------------------- the specification

  /** The compression function folded over whole blocks. */
  function Fold(st: State, data: seq<bv8>): State
    requires |data| % 64 == 0
    decreases |data|
  {
    if data == [] then st else Fold(Compress(st, data[..64]), data[64..])
  }

  lemma {:induction false} FoldSplit(st: State, a: seq<bv8>, b: seq<bv8>)
    requires |a| % 64 == 0 && |b| % 64 == 0
    ensures Fold(st, a + b) == Fold(Fold(st, a), b)
    decreases |a|
  {
    hide Compress;
    if a == [] {
      assert a + b == b;
    } else {
      assert (a + b)[..64] == a[..64] && (a + b)[64..] == a[64..] + b;
      FoldSplit(Compress(st, a[..64]), a[64..], b);
    }
  }

  lemma FoldOne(st: State, block: Bytes64)
    ensures Fold(st, block) == Compress(st, block)
  {
    hide Compress;
    assert block[..64] == block && block[64..] == [];
  }

  function WordBytes(v: nat): (s: seq<bv8>)
    requires v < B32
    ensures |s| == 4
  {
    [ByteAt(v % 256), ByteAt(v / 0x100 % 256), ByteAt(v / 0x1_0000 % 256), ByteAt(v / 0x100_0000)]
  }

  function Reverse4(s: seq<bv8>): seq<bv8>
    requires |s| == 4
  {
    [s[3], s[2], s[1], s[0]]
  }

  /** A 64-bit count: low word first and little-endian for MD5, high word first and big-endian for SHA-1. */
  function CountBytes(alg: Algorithm, bits: nat): (s: seq<bv8>)
    requires bits < B64
    ensures |s| == 8
  {
    if alg.MD5? then WordBytes(bits % B32) + WordBytes(bits / B32)
    else Reverse4(WordBytes(bits / B32)) + Reverse4(WordBytes(bits % B32))
  }

  function PadLength(n: nat): (p: nat)
    ensures 1 <= p <= 64 && (n + p + 8) % 64 == 0
  {
    if n % 64 < 56 then 56 - n % 64 else 120 - n % 64
  }

  function Padding(n: nat): (p: seq<bv8>)
    ensures |p| == PadLength(n)
  {
    [0x80] + seq(PadLength(n) - 1, _ => 0)
  }

  /** The padded message, closed with the number of bits of a message of counted bytes, modulo 2^64. */
  function Padded(alg: Algorithm, msg: seq<bv8>, counted: nat): (p: seq<bv8>)
    ensures |p| % 64 == 0
  {
    msg + Padding(|msg|) + CountBytes(alg, 8 * counted % B64)
  }

  function OutputBytes(st: State): seq<bv8> {
    match st
    case Md5State(r) => Le(r.a) + Le(r.b) + Le(r.c) + Le(r.d)
    case Sha1State(r) => Be(r.a) + Be(r.b) + Be(r.c) + Be(r.d) + Be(r.e)
  }

  function Le(w: bv32): seq<bv8> { [B0(w), B1(w), B2(w), B3(w)] }
  function Be(w: bv32): seq<bv8> { [B3(w), B2(w), B1(w), B0(w)] }

  /** The digest of a message, as RFC 1321 and RFC 3174 define it. */
  function Hash(alg: Algorithm, msg: seq<bv8>): seq<bv8> {
    OutputBytes(Fold(Initial(alg), Padded(alg, msg, |msg|)))
  }

  // ---------------------------------------------------------------- what a context holds

  function Whole(msg: seq<bv8>): (w: seq<bv8>)
    ensures |w| % 64 == 0
  {
    msg[..|msg| - |msg| % 64]
  }

  /** All whole blocks are folded in; the rest of the message waits in the buffer. */
  ghost predicate Buffered(init: State, msg: seq<bv8>, st: State, buffer: seq<bv8>) {
    && |buffer| == 64
    && st == Fold(init, Whole(msg))
    && buffer[..|msg| % 64] == msg[|msg| - |msg| % 64..]
  }

  /** The two 32-bit words hold the count modulo 2^64. */
  predicate Counts(total0: nat, total1: nat, counted: nat) {
    total0 < B32 && total1 < B32 && (total0 + B32 * total1) == counted % B64
  }

  lemma CountAdd(total0: nat, total1: nat, counted: nat, n: nat)
    requires Counts(total0, total1, counted) && n < B32
    ensures var low := (total0 + n) % B32;
            Counts(low, if low < n then (total1 + 1) % B32 else total1, counted + n)
  {
    if total0 + n < B32 {
      assert (total0 + n) % B32 == total0 + n;
    } else {
      assert (total0 + n) % B32 == total0 + n - B32 < n;
    }
  }

  // ---------------------------------------------------------------- taking bytes in

  lemma AppendShort(init: State, msg: seq<bv8>, st: State, buffer: seq<bv8>, input: seq<bv8>)
    requires Buffered(init, msg, st, buffer) && |msg| % 64 + |input| < 64
    ensures var left := |msg| % 64;
            Buffered(init, msg + input, st, buffer[..left] + input + buffer[left + |input|..])
  {
    hide Fold;
    var (left, longer) := (|msg| % 64, msg + input);
    assert |longer| % 64 == left + |input|;
    assert Whole(longer) == Whole(msg);
    assert longer[|longer| - |longer| % 64..] == msg[|msg| - left..] + input;
  }

  /** A buffer filled up to 64 bytes is one more block. */
  lemma AppendBlock(init: State, msg: seq<bv8>, st: State, buffer: seq<bv8>, input: seq<bv8>, buffer': seq<bv8>)
    requires Buffered(init, msg, st, buffer) && |msg| % 64 + |input| == 64 && |buffer'| == 64
    ensures Buffered(init, msg + input, Compress(st, buffer[..|msg| % 64] + input), buffer')
  {
    hide Compress;
    var (left, longer) := (|msg| % 64, msg + input);
    var block: Bytes64 := buffer[..left] + input;
    assert |longer| % 64 == 0;
    assert Whole(longer) == Whole(msg) + block;
    FoldSplit(init, Whole(msg), block);
    FoldOne(st, block);
  }

  /** utils_md5_process or utils_sha1_process. */
  method Process(st: State, block: Bytes64) returns (r: State)
    ensures r == Compress(st, block) && Of(r) == Of(st)
  {
    hide Md5.Compress, Sha1.Compress;
    match st {
      case Md5State(m) => var x := Md5.Process(m, block); r := Md5State(x);
      case Sha1State(s) => var x := Sha1.Process(s, block); r := Sha1State(x);
    }
  }

  class Context {
    var total0: nat
    var total1: nat
    var state: State
    const buffer: array<bv8>

    ghost const alg: Algorithm
    ghost var msg: seq<bv8>
    ghost var counted: nat

    ghost predicate Valid()
      reads this, buffer
    {
      && Counts(total0, total1, counted) && counted % 64 == |msg| % 64
      && Holding()
    }

    ghost predicate Holding()
      reads this, buffer
    {
      Of(state) == alg && Buffered(Initial(alg), msg, state, buffer[..])
    }

    /** Init and starts. */
    constructor Starts(a: Algorithm)
      ensures Valid() && alg == a && msg == [] && counted == 0 && fresh(buffer)
    {
      total0, total1 := 0, 0;
      state := Initial(a);
      buffer := new bv8[64](_ => 0);
      alg, msg, counted := a, [], 0;
    }

    /** memcpy into the buffer from position at. */
    method Fill(at: nat, input: seq<bv8>)
      requires at + |input| <= 64 == buffer.Length
      modifies buffer
      ensures buffer[..] == old(buffer[..])[..at] + input + old(buffer[..])[at + |input|..]
    {
      for i := 0 to |input|
        invariant buffer[..] == old(buffer[..])[..at] + input[..i] + old(buffer[..])[at + i..]
      {
        buffer[at + i] := input[i];
      }
    }

    /** The 64-bit byte count, kept in two words with a carry. */
    method Count(n: nat)
      requires Counts(total0, total1, counted)
      modifies this`total0, this`total1, this`counted
      ensures Counts(total0, total1, counted) && counted == old(counted) + n % B32
    {
      var n32 := n % B32;
      CountAdd(total0, total1, counted, n32);
      hide Counts;
      total0 := (total0 + n32) % B32;
      if total0 < n32 { total1 := (total1 + 1) % B32; }
      counted := counted + n32;
    }

    /** Completes a partly filled buffer when the input is long enough. */
    method TopUp(left: nat, input: seq<bv8>) returns (pos: nat)
      requires Holding() && left == |msg| % 64 && 0 < left && |input| >= 64 - left
      modifies this`state, this`msg, buffer
      ensures Holding() && pos == 64 - left && msg == old(msg) + input[..pos]
    {
      hide Compress, Fold;
      pos := 64 - left;
      ghost var b := buffer[..];
      Fill(left, input[..pos]);
      assert buffer[..] == b[..left] + input[..pos];
      AppendBlock(Initial(alg), msg, state, b, input[..pos], buffer[..]);
      hide Buffered;
      state := Process(state, buffer[..]);
      msg := msg + input[..pos];
    }

    method OneBlock(block: Bytes64)
      requires Holding() && |msg| % 64 == 0
      modifies this`state, this`msg
      ensures Holding() && msg == old(msg) + block
    {
      hide Compress, Fold;
      AppendBlock(Initial(alg), msg, state, buffer[..], block, buffer[..]);
      assert buffer[..][..0] + block == block;
      hide Buffered;
      state := Process(state, block);
      msg := msg + block;
    }

    /** Processes whole blocks straight from the input. */
    method Blocks(start: nat, input: seq<bv8>) returns (pos: nat)
      requires Holding() && start <= |input| && (|input| - start >= 64 ==> |msg| % 64 == 0)
      modifies this`state, this`msg
      ensures Holding() && start <= pos <= |input| && |input| - pos < 64
      ensures |msg| % 64 == old(|msg|) % 64 && msg == old(msg) + input[start..pos]
    {
      hide Holding;
      pos := start;
      while |input| - pos >= 64
        invariant start <= pos <= |input| && msg == old(msg) + input[start..pos] && |msg| % 64 == old(|msg|) % 64
        invariant Holding() && (|input| - pos >= 64 ==> |msg| % 64 == 0)
      {
        OneBlock(input[pos..pos + 64]);
        assert input[start..pos + 64] == input[start..pos] + input[pos..pos + 64];
        pos := pos + 64;
      }
    }

    /** Keeps a rest that does not fill the buffer. */
    method Keep(left: nat, input: seq<bv8>)
      requires Holding() && left == |msg| % 64 && left + |input| < 64
      modifies this`msg, buffer
      ensures Holding() && msg == old(msg) + input
    {
      AppendShort(Initial(alg), msg, state, buffer[..], input);
      hide Buffered;
      Fill(left, input);
      msg := msg + input;
    }

    method Absorb(left: nat, input: seq<bv8>)
      requires Holding() && left == |msg| % 64
      modifies this`state, this`msg, buffer
      ensures Holding() && msg == old(msg) + input
    {
      hide Holding;
      var pos, left := 0, left;
      if left != 0 && |input| >= 64 - left {
        pos := TopUp(left, input);
        left := 0;
      }
      ghost var so := pos;
      assert msg == old(msg) + input[..so];
      pos := Blocks(pos, input);
      Rejoin(old(msg), input, so, pos);
      if |input| - pos > 0 {
        Keep(left, input[pos..]);
      }
    }

    method Update(input: seq<bv8>)
      requires Valid()
      modifies this, buffer
      ensures Valid() && msg == old(msg) + input && counted == old(counted) + |input| % B32
    {
      hide Counts, Buffered;
      if |input| == 0 { assert msg + input == msg; return; }
      var left := total0 % 64;
      LeftIs(total0, total1, counted);
      SamePosition(counted, |msg|, |input|);
      Count(|input|);
      Absorb(left, input);
    }

    /** Pads, appends the bit count and folds in the last blocks. */
    method Close()
      requires Valid()
      modifies this, buffer
      ensures Of(state) == alg && state == Fold(Initial(alg), Padded(alg, old(msg), old(counted)))
    {
      hide Counts, Buffered, Fold, CountBytes, WordBytes, Padding;
      LeftIs(total0, total1, counted);
      BitCount(total0, total1, counted);
      var high, low := HighBits(total0, total1), LowBits(total0);
      var msglen := if state.Md5State? then WordBytes(low) + WordBytes(high)
                    else Reverse4(WordBytes(high)) + Reverse4(WordBytes(low));
      CountBytesAre(alg, 8 * counted % B64, high, low);
      var last := total0 % 64;
      var padn := if last < 56 then 56 - last else 120 - last;
      PaddingIs(|msg|, padn);
      Update(([0x80] + seq(63, _ => 0))[..padn]);
      Update(msglen);
      PaddedWhole(alg, old(msg), old(counted));
      HoldingState(Initial(alg), msg, state, buffer[..]);
    }
  }

  /** The count and the message stand at the same place of a block. */
  lemma SamePosition(counted: nat, length: nat, n: nat)
    requires counted % 64 == length % 64
    ensures (counted + n % B32) % 64 == (length + n) % 64
  {
    assert n == B32 * (n / B32) + n % B32;
  }

  lemma CountBytesAre(alg: Algorithm, bits: nat, high: nat, low: nat)
    requires bits < B64 && high == bits / B32 && low == bits % B32
    ensures CountBytes(alg, bits) == if alg.MD5? then WordBytes(low) + WordBytes(high)
                                     else Reverse4(WordBytes(high)) + Reverse4(WordBytes(low))
  {
    hide WordBytes, Reverse4;
  }

  /** The padding table cut to length. */
  lemma PaddingIs(n: nat, padn: nat)
    requires padn == PadLength(n)
    ensures ([0x80] + seq(63, _ => 0 as bv8))[..padn] == Padding(n)
  {}

  lemma HoldingState(init: State, msg: seq<bv8>, st: State, buffer: seq<bv8>)
    requires Buffered(init, msg, st, buffer)
    ensures st == Fold(init, Whole(msg))
  {}

  /** The two message-length words that the final step builds from the two count words. */
  function LowBits(total0: nat): nat { 8 * total0 % B32 }
  function HighBits(total0: nat, total1: nat): nat { total0 / 0x2000_0000 + 8 * total1 % B32 }

  lemma BitCount(total0: nat, total1: nat, counted: nat)
    requires Counts(total0, total1, counted)
    ensures HighBits(total0, total1) < B32
    ensures var bits := 8 * counted % B64; LowBits(total0) == bits % B32 && HighBits(total0, total1) == bits / B32
  {
    var (q, r) := (total0 / 0x2000_0000, total0 % 0x2000_0000);
    var (hi, rest) := (8 * total1 / B32, 8 * total1 % B32);
    var bits := B32 * (q + rest) + 8 * r;
    var wraps := counted / B64;
    assert 8 * counted == B64 * (hi + 8 * wraps) + bits by {
      assert counted == B64 * wraps + total0 + B32 * total1;
      assert 8 * total1 == B32 * hi + rest;
    }
    DivisionUnique(8 * counted, B64, hi + 8 * wraps, bits);
    DivisionUnique(bits, B32, q + rest, 8 * r);
    DivisionUnique(8 * total0, B32, q, 8 * r);
  }

  lemma PaddedWhole(alg: Algorithm, msg: seq<bv8>, counted: nat)
    ensures Whole(Padded(alg, msg, counted)) == Padded(alg, msg, counted)
  {
    hide CountBytes, Padding;
    var p := Padded(alg, msg, counted);
    assert p[..|p|] == p;
  }

  lemma Rejoin(msg: seq<bv8>, input: seq<bv8>, a: nat, b: nat)
    requires a <= b <= |input|
    ensures msg + input[..a] + input[a..b] == msg + input[..b]
    ensures msg + input[..b] + input[b..] == msg + input
    ensures b == |input| ==> msg + input[..b] == msg + input
  {}

  lemma LeftIs(total0: nat, total1: nat, counted: nat)
    requires Counts(total0, total1, counted)
    ensures total0 % 64 == counted % 64
  {}

  // ---------------------------------------------------------------- whole digests

  function DigestSize(alg: Algorithm): nat { if alg.MD5? then 16 else 20 }

  lemma OutputSize(st: State)
    ensures |OutputBytes(st)| == DigestSize(Of(st))
  {}

  method PutBytes(out: array<bv8>, bytes: seq<bv8>)
    requires |bytes| <= out.Length
    modifies out
    ensures out[..] == bytes + old(out[..])[|bytes|..]
  {
    ghost var o := out[..];
    OverwriteFront(o, bytes);
    hide Overwritten;
    for i := 0 to |bytes|
      invariant out[..] == Overwritten(o, 0, bytes, i)
    {
      OverwriteNext(o, 0, bytes, i);
      ghost var was := out[..];
      out[i] := bytes[i];
      assert out[..] == was[i := bytes[i]];
    }
  }

  /** utils_md5_finish or utils_sha1_finish. */
  method Finish(ctx: Context, out: array<bv8>)
    requires ctx.Valid() && out != ctx.buffer && out.Length == DigestSize(ctx.alg)
    modifies ctx, ctx.buffer, out
    ensures out[..] == OutputBytes(Fold(Initial(ctx.alg), Padded(ctx.alg, old(ctx.msg), old(ctx.counted))))
  {
    hide Fold, Padded, OutputBytes;
    ctx.Close();
    OutputSize(ctx.state);
    PutBytes(out, OutputBytes(ctx.state));
  }

  function Concat(chunks: seq<seq<bv8>>): seq<bv8> {
    if chunks == [] then [] else Concat(chunks[..|chunks| - 1]) + chunks[|chunks| - 1]
  }

  // ---------------------------------------------------------------- what the count does to the padding

  const B29 := 0x2000_0000
  const B61 := 0x2000_0000_0000_0000

  lemma WordBytesInjective(v: nat, w: nat)
    requires v < B32 && w < B32 && WordBytes(v) == WordBytes(w)
    ensures v == w
  {
    WordValue(v);
    WordValue(w);
  }

  lemma WordValue(v: nat)
    requires v < B32
    ensures var s := WordBytes(v);
            v == Index(s[0]) + 0x100 * Index(s[1]) + 0x1_0000 * Index(s[2]) + 0x100_0000 * Index(s[3])
  {
    hide Index, ByteAt;
    IndexByteAt(v % 256);
    IndexByteAt(v / 0x100 % 256);
    IndexByteAt(v / 0x1_0000 % 256);
    IndexByteAt(v / 0x100_0000);
    Octets(v);
  }

  lemma Octets(v: nat)
    requires v < B32
    ensures v == v % 256 + 0x100 * (v / 0x100 % 256) + 0x1_0000 * (v / 0x1_0000 % 256) + 0x100_0000 * (v / 0x100_0000)
  {
    var (a, b, c) := (v / 0x100, v / 0x1_0000, v / 0x100_0000);
    assert v == 0x100 * a + v % 256;
    assert a == 0x100 * b + a % 256;
    assert b == 0x100 * c + b % 256;
  }

  /** The octets of the count: from the least significant on in MD5, from the most significant on in SHA-1. */
  lemma CountOctets(alg: Algorithm, bits: nat, low: nat, high: nat)
    requires bits == low + B32 * high && low < B32 && high < B32
    ensures var (s, f) := (CountBytes(alg, bits), (k: nat) => if alg.MD5? then k else 7 - k);
            && low == Index(s[f(0)]) + 0x100 * Index(s[f(1)]) + 0x1_0000 * Index(s[f(2)]) + 0x100_0000 * Index(s[f(3)])
            && high == Index(s[f(4)]) + 0x100 * Index(s[f(5)]) + 0x1_0000 * Index(s[f(6)]) + 0x100_0000 * Index(s[f(7)])
  {
    assert bits % B32 == low && bits / B32 == high;
    WordValue(low);
    WordValue(high);
    hide WordBytes, Index;
  }

  lemma CountBytesInjective(alg: Algorithm, x: nat, y: nat)
    requires x < B64 && y < B64 && CountBytes(alg, x) == CountBytes(alg, y)
    ensures x == y
  {
    var (s, t) := (CountBytes(alg, x), CountBytes(alg, y));
    hide WordBytes;
    if alg.MD5? {
      assert s[..4] == WordBytes(x % B32) && s[4..] == WordBytes(x / B32);
      assert t[..4] == WordBytes(y % B32) && t[4..] == WordBytes(y / B32);
    } else {
      Reverse4Cancels(WordBytes(x / B32));
      Reverse4Cancels(WordBytes(x % B32));
      Reverse4Cancels(WordBytes(y / B32));
      Reverse4Cancels(WordBytes(y % B32));
      hide Reverse4;
      assert s[..4] == Reverse4(WordBytes(x / B32)) && s[4..] == Reverse4(WordBytes(x % B32));
      assert t[..4] == Reverse4(WordBytes(y / B32)) && t[4..] == Reverse4(WordBytes(y % B32));
    }
    WordBytesInjective(x / B32, y / B32);
    WordBytesInjective(x % B32, y % B32);
  }

  lemma Reverse4Cancels(s: seq<bv8>)
    requires |s| == 4
    ensures |Reverse4(s)| == 4 && Reverse4(Reverse4(s)) == s
  {
  }

  /** A message is padded rightly if and only if it was counted rightly modulo 2^61. */
  lemma PaddedRightly(alg: Algorithm, msg: seq<bv8>, counted: nat)
    ensures Padded(alg, msg, counted) == Padded(alg, msg, |msg|) <==> counted % B61 == |msg| % B61
  {
    var (x, y) := (8 * counted % B64, 8 * |msg| % B64);
    EightTimes(counted);
    EightTimes(|msg|);
    PaddedTail(alg, msg, counted);
    PaddedTail(alg, msg, |msg|);
    hide *;
    if CountBytes(alg, x) == CountBytes(alg, y) { CountBytesInjective(alg, x, y); }
  }

  lemma EightTimes(n: nat)
    ensures 8 * n % B64 == 8 * (n % B61)
  {
    DivisionUnique(8 * n, B64, n / B61, 8 * (n % B61));
  }

  lemma PaddedTail(alg: Algorithm, msg: seq<bv8>, counted: nat)
    ensures var (p, front) := (Padded(alg, msg, counted), msg + Padding(|msg|));
            |p| == |front| + 8 && p == front + p[|front|..] && p[|front|..] == CountBytes(alg, 8 * counted % B64)
  {
    hide CountBytes, Padding;
  }

  /** What the two words count of some updates: each length modulo 2^32. */
  function Counted(chunks: seq<seq<bv8>>): nat {
    if chunks == [] then 0 else Counted(chunks[..|chunks| - 1]) + |chunks[|chunks| - 1]| % B32
  }

  /** The multiples of 2^32 that they lose. */
  function Lost(chunks: seq<seq<bv8>>): nat {
    if chunks == [] then 0 else Lost(chunks[..|chunks| - 1]) + |chunks[|chunks| - 1]| / B32
  }

  lemma {:induction false} LengthSplit(chunks: seq<seq<bv8>>)
    ensures |Concat(chunks)| == Counted(chunks) + B32 * Lost(chunks)
  {
    if chunks != [] { LengthSplit(chunks[..|chunks| - 1]); }
  }

  lemma {:induction false} NothingLost(chunks: seq<seq<bv8>>)
    requires forall c :: c in chunks ==> |c| < B32
    ensures Lost(chunks) == 0
  {
    if chunks != [] {
      assert chunks[|chunks| - 1] in chunks;
      NothingLost(chunks[..|chunks| - 1]);
    }
  }

  /**
   The finished message is padded as the standard asks if and only if the updates together lose a
   multiple of 2^29 times 2^32 bytes.
   */
  lemma ChunksPadded(alg: Algorithm, chunks: seq<seq<bv8>>)
    ensures Padded(alg, Concat(chunks), Counted(chunks)) == Padded(alg, Concat(chunks), |Concat(chunks)|)
       <==> Lost(chunks) % B29 == 0
  {
    hide Padded, Concat, Counted, Lost;
    PaddedRightly(alg, Concat(chunks), Counted(chunks));
    LengthSplit(chunks);
    LostModulo(Counted(chunks), Lost(chunks));
  }

  lemma LostModulo(counted: nat, lost: nat)
    ensures counted % B61 == (counted + B32 * lost) % B61 <==> lost % B29 == 0
  {
    var (q, r) := (lost / B29, lost % B29);
    assert B32 * lost == B61 * q + B32 * r && B32 * r < B61;
  }

  /** One update of 2^32 bytes is counted as none, and the message is padded as if it were empty. */
  lemma LongUpdate(alg: Algorithm)
    ensures var msg := seq(B32, _ => 0 as bv8);
            && Counted([msg]) == 0
            && Padded(alg, Concat([msg]), Counted([msg])) != Padded(alg, Concat([msg]), |Concat([msg])|)
  {
    var msg := seq(B32, _ => 0 as bv8);
    OneChunk(msg);
    hide *;
    ChunksPadded(alg, [msg]);
  }

  lemma OneChunk(c: seq<bv8>)
    ensures Counted([c]) == |c| % B32 && Lost([c]) == |c| / B32
  {
    assert [c][..0] == [];
  }

  /**
   Any run of updates: the digest is that of the concatenation, padded with the count of the two words;
   so it is the digest of the concatenation, whatever the cuts, when the updates lose nothing.
   */
  method DigestChunks(alg: Algorithm, chunks: seq<seq<bv8>>) returns (out: array<bv8>)
    ensures out[..] == OutputBytes(Fold(Initial(alg), Padded(alg, Concat(chunks), Counted(chunks))))
    ensures Lost(chunks) % B29 == 0 ==> out[..] == Hash(alg, Concat(chunks))
  {
    hide Fold, Padded, OutputBytes, Counts, Buffered;
    var ctx := new Context.Starts(alg);
    out := new bv8[DigestSize(alg)];
    for i := 0 to |chunks|
      invariant ctx.Valid() && ctx.msg == Concat(chunks[..i]) && ctx.counted == Counted(chunks[..i])
    {
      assert chunks[..i + 1][..i] == chunks[..i];
      ctx.Update(chunks[i]);
    }
    assert chunks[..|chunks|] == chunks;
    ChunksPadded(alg, chunks);
    Finish(ctx, out);
  }
}
