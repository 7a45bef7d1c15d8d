/**
 The byte-wise modes of the bundled mbed TLS: CFB128 and CFB8 (section 6.3 of NIST SP 800-38A)
 and CTR (section 6.5), over any block function.

 Each mode is a machine that turns one input byte and a carried state into one output byte
 and the next state; the general facts about such machines are proved once.
 */
module StreamModes {
  import opened GaloisField
  import opened Words
  import opened Arithmetic
  import opened Blocks
  import opened Overwriting

  // ---------------------------------------------------------------- byte machines

  datatype Turned<S> = Turned(byte: bv8, next: S)
  datatype Ran<S> = Ran(bytes: seq<bv8>, last: S)

  function Run<S>(step: (S, bv8) -> Turned<S>, s: S, data: seq<bv8>): (r: Ran<S>)
    ensures |r.bytes| == |data|
  {
    if data == [] then Ran([], s)
    else
      var t := step(s, data[0]);
      var rest := Run(step, t.next, data[1..]);
      Ran([t.byte] + rest.bytes, rest.last)
  }

  /** Cutting the data anywhere and carrying the state gives the same bytes and final state. */
  lemma {:induction false} RunSplit<S>(step: (S, bv8) -> Turned<S>, s: S, a: seq<bv8>, b: seq<bv8>)
    ensures var first := Run(step, s, a);
            var second := Run(step, first.last, b);
            Run(step, s, a + b) == Ran(first.bytes + second.bytes, second.last)
  {
    if a == [] {
      assert a + b == b;
    } else {
      assert (a + b)[0] == a[0] && (a + b)[1..] == a[1..] + b;
      RunSplit(step, step(s, a[0]).next, a[1..], b);
    }
  }

  /** If one machine undoes another on every byte and follows the same states, it undoes whole runs. */
  lemma {:induction false} RunInverse<S(!new)>(enc: (S, bv8) -> Turned<S>, dec: (S, bv8) -> Turned<S>, s: S, data: seq<bv8>)
    requires forall s, c :: dec(s, enc(s, c).byte) == Turned(c, enc(s, c).next)
    ensures Run(dec, s, Run(enc, s, data).bytes) == Ran(data, Run(enc, s, data).last)
  {
    if data != [] {
      var t := enc(s, data[0]);
      var out := Run(enc, s, data).bytes;
      assert out[0] == t.byte && out[1..] == Run(enc, t.next, data[1..]).bytes;
      RunInverse(enc, dec, t.next, data[1..]);
    }
  }

  lemma RunSnoc<S>(step: (S, bv8) -> Turned<S>, s: S, a: seq<bv8>, c: bv8)
    ensures var first := Run(step, s, a);
            var t := step(first.last, c);
            Run(step, s, a + [c]) == Ran(first.bytes + [t.byte], t.next)
  {
    RunSplit(step, s, a, [c]);
    var first := Run(step, s, a);
    assert Run(step, first.last, [c]) == Ran([step(first.last, c).byte] + [], step(first.last, c).next);
  }

  lemma XorUndo(a: bv8, b: bv8)
    ensures Add(a, Add(a, b)) == b
  {}

  type Offset = n: nat | n < 16

  // ---------------------------------------------------------------- CFB128

  datatype CfbState = CfbState(iv: Block, n: Offset)

  /** The register that the byte at offset n uses: encrypted when a new block starts. */
  function Register(E: Block -> Block, s: CfbState): Block { if s.n == 0 then E(s.iv) else s.iv }

  function Cfb128(mode: Mode, E: Block -> Block): (CfbState, bv8) -> Turned<CfbState> {
    (s: CfbState, c: bv8) =>
      var reg := Register(E, s);
      var out := Add(reg[s.n], c);
      Turned(out, CfbState(reg[s.n := if mode.Encrypt? then out else c], (s.n + 1) % 16))
  }

  /** For every byte length and any block function, invertible or not, decryption undoes encryption. */
  lemma Cfb128RoundTrip(E: Block -> Block, s: CfbState, data: seq<bv8>)
    ensures var sent := Run(Cfb128(Encrypt, E), s, data);
            Run(Cfb128(Decrypt, E), s, sent.bytes) == Ran(data, sent.last)
  {
    var (enc, dec) := (Cfb128(Encrypt, E), Cfb128(Decrypt, E));
    forall s: CfbState, c ensures dec(s, enc(s, c).byte) == Turned(c, enc(s, c).next) {
      XorUndo(Register(E, s)[s.n], c);
    }
    RunInverse(enc, dec, s, data);
  }

  /** Ciphertext block j - 1, or the initialization vector. */
  function Previous(iv: Block, cipher: seq<bv8>, j: nat): Block
    requires 16 * j <= |cipher|
  {
    if j == 0 then iv else cipher[16 * j - 16..16 * j]
  }

  /** The register after some ciphertext: what is left of the current block follows the bytes fed back. */
  function Cfb128Register(E: Block -> Block, iv: Block, cipher: seq<bv8>): Block {
    var (j, m) := (|cipher| / 16, |cipher| % 16);
    if m == 0 then Previous(iv, cipher, j)
    else cipher[16 * j..] + E(Previous(iv, cipher, j))[m..]
  }

  lemma PreviousExtends(iv: Block, cipher: seq<bv8>, c: bv8, j: nat)
    requires 16 * j <= |cipher|
    ensures Previous(iv, cipher + [c], j) == Previous(iv, cipher, j)
  {
    if j > 0 { assert (cipher + [c])[16 * j - 16..16 * j] == cipher[16 * j - 16..16 * j]; }
  }

  /** Feeding one byte back, at a boundary or inside a block. */
  lemma Cfb128Fed(E: Block -> Block, iv: Block, cipher: seq<bv8>, c: bv8, j: nat, m: nat, key: Block, reg: Block)
    requires |cipher| == 16 * j + m && m < 16 && key == E(Previous(iv, cipher, j))
    requires reg == cipher[16 * j..] + key[m..]
    ensures reg[m] == key[m] && reg[m := c] == Cfb128Register(E, iv, cipher + [c])
  {
    var longer := cipher + [c];
    PreviousExtends(iv, cipher, c, j);
    assert longer[16 * j..] == cipher[16 * j..] + [c];
    if m == 15 {
      assert |longer| / 16 == j + 1 && |longer| % 16 == 0;
      assert Previous(iv, longer, j + 1) == longer[16 * j..];
    } else {
      assert |longer| / 16 == j && |longer| % 16 == m + 1;
    }
  }

  lemma Cfb128RegisterNext(E: Block -> Block, iv: Block, cipher: seq<bv8>, c: bv8)
    ensures var s := CfbState(Cfb128Register(E, iv, cipher), |cipher| % 16);
            && Register(E, s)[s.n := c] == Cfb128Register(E, iv, cipher + [c])
            && Register(E, s)[s.n] == E(Previous(iv, cipher, |cipher| / 16))[|cipher| % 16]
  {
    hide Previous;
    var (j, m) := (|cipher| / 16, |cipher| % 16);
    var key := E(Previous(iv, cipher, j));
    assert m == 0 ==> cipher[16 * j..] + key[m..] == key;
    Cfb128Fed(E, iv, cipher, c, j, m, key, cipher[16 * j..] + key[m..]);
  }

  /** Byte i is added to byte i mod 16 of the encrypted previous ciphertext block. */
  ghost predicate Cfb128Byte(E: Block -> Block, iv: Block, cipher: seq<bv8>, data: seq<bv8>, i: nat)
    requires i < |cipher| == |data|
  {
    cipher[i] == E(Previous(iv, cipher, i / 16))[i % 16] ^ data[i]
  }

  lemma Cfb128ByteExtends(E: Block -> Block, iv: Block, cipher: seq<bv8>, data: seq<bv8>, c: bv8, d: bv8, i: nat)
    requires i < |cipher| == |data| && Cfb128Byte(E, iv, cipher, data, i)
    ensures Cfb128Byte(E, iv, cipher + [c], data + [d], i)
  {
    PreviousExtends(iv, cipher, c, i / 16);
  }

  lemma Cfb128ByteLast(E: Block -> Block, iv: Block, cipher: seq<bv8>, data: seq<bv8>, c: bv8, d: bv8)
    requires |cipher| == |data| && c == Add(E(Previous(iv, cipher, |data| / 16))[|data| % 16], d)
    ensures Cfb128Byte(E, iv, cipher + [c], data + [d], |data|)
  {
    PreviousExtends(iv, cipher, c, |data| / 16);
  }

  lemma Cfb128Turn(E: Block -> Block, iv: Block, cipher: seq<bv8>, d: bv8)
    ensures var c := Add(E(Previous(iv, cipher, |cipher| / 16))[|cipher| % 16], d);
            Cfb128(Encrypt, E)(CfbState(Cfb128Register(E, iv, cipher), |cipher| % 16), d)
              == Turned(c, CfbState(Cfb128Register(E, iv, cipher + [c]), (|cipher| + 1) % 16))
  {
    hide Add, Previous, Cfb128Register, Register;
    var c := Add(E(Previous(iv, cipher, |cipher| / 16))[|cipher| % 16], d);
    Cfb128RegisterNext(E, iv, cipher, c);
  }

  /** What the standard asks of the ciphertext and the register after some data. */
  ghost predicate Cfb128Conforms(E: Block -> Block, iv: Block, data: seq<bv8>, r: Ran<CfbState>) {
    && |r.bytes| == |data| && r.last == CfbState(Cfb128Register(E, iv, r.bytes), |data| % 16)
    && forall i :: 0 <= i < |data| ==> Cfb128Byte(E, iv, r.bytes, data, i)
  }

  lemma Cfb128ConformsNext(E: Block -> Block, iv: Block, front: seq<bv8>, d: bv8, before: Ran<CfbState>)
    requires Cfb128Conforms(E, iv, front, before)
    ensures var t := Cfb128(Encrypt, E)(before.last, d);
            Cfb128Conforms(E, iv, front + [d], Ran(before.bytes + [t.byte], t.next))
  {
    hide Add, Previous, Cfb128Register, Cfb128Byte, Cfb128;
    var c := Cfb128(Encrypt, E)(before.last, d).byte;
    Cfb128Turn(E, iv, before.bytes, d);
    Cfb128ByteLast(E, iv, before.bytes, front, c, d);
    forall i | 0 <= i < |front| ensures Cfb128Byte(E, iv, before.bytes + [c], front + [d], i) {
      Cfb128ByteExtends(E, iv, before.bytes, front, c, d, i);
    }
  }

  /** From a block boundary, encryption is cipher feedback as the standard defines it. */
  lemma {:induction false} Cfb128Standard(E: Block -> Block, iv: Block, data: seq<bv8>)
    ensures Cfb128Conforms(E, iv, data, Run(Cfb128(Encrypt, E), CfbState(iv, 0), data))
  {
    if data != [] {
      hide *;
      var (front, d) := (data[..|data| - 1], data[|data| - 1]);
      assert data == front + [d];
      Cfb128Standard(E, iv, front);
      RunSnoc(Cfb128(Encrypt, E), CfbState(iv, 0), front, d);
      Cfb128ConformsNext(E, iv, front, d, Run(Cfb128(Encrypt, E), CfbState(iv, 0), front));
    }
  }

  /** The same on bytes: the first sixteen are added to the encrypted IV, the others to the encrypted block before. */
  lemma Cfb128Bytes(E: Block -> Block, iv: Block, data: seq<bv8>, i: nat)
    requires i < |data|
    ensures var c := Run(Cfb128(Encrypt, E), CfbState(iv, 0), data).bytes;
            c[i] == if i < 16 then E(iv)[i] ^ data[i] else E(c[i - i % 16 - 16..i - i % 16])[i % 16] ^ data[i]
  {
    hide Run, Cfb128, Cfb128Register, Previous;
    Cfb128Standard(E, iv, data);
    var c := Run(Cfb128(Encrypt, E), CfbState(iv, 0), data).bytes;
    assert Cfb128Byte(E, iv, c, data, i);
    PreviousIs(iv, c, i);
  }

  lemma PreviousIs(iv: Block, cipher: seq<bv8>, i: nat)
    requires i < |cipher|
    ensures Previous(iv, cipher, i / 16) == if i < 16 then iv else cipher[i - i % 16 - 16..i - i % 16]
  {
    var j := i / 16;
    assert i - i % 16 == 16 * j;
  }

  // ---------------------------------------------------------------- CFB8

  function Cfb8(mode: Mode, E: Block -> Block): (Block, bv8) -> Turned<Block> {
    (iv: Block, c: bv8) =>
      var out := Add(E(iv)[0], c);
      Turned(out, iv[1..] + [if mode.Encrypt? then out else c])
  }

  lemma Cfb8RoundTrip(E: Block -> Block, iv: Block, data: seq<bv8>)
    ensures var sent := Run(Cfb8(Encrypt, E), iv, data);
            Run(Cfb8(Decrypt, E), iv, sent.bytes) == Ran(data, sent.last)
  {
    var (enc, dec) := (Cfb8(Encrypt, E), Cfb8(Decrypt, E));
    forall s: Block, c ensures dec(s, enc(s, c).byte) == Turned(c, enc(s, c).next) {
      XorUndo(E(s)[0], c);
    }
    RunInverse(enc, dec, iv, data);
  }

  /** Byte i is added to the first byte of the encrypted window that ends before it. */
  ghost predicate Cfb8Byte(E: Block -> Block, iv: Block, cipher: seq<bv8>, data: seq<bv8>, i: nat)
    requires i < |cipher| == |data|
  {
    cipher[i] == E((iv + cipher)[i..i + 16])[0] ^ data[i]
  }

  lemma Cfb8ByteExtends(E: Block -> Block, iv: Block, cipher: seq<bv8>, data: seq<bv8>, c: bv8, d: bv8, i: nat)
    requires i < |cipher| == |data| && Cfb8Byte(E, iv, cipher, data, i)
    ensures Cfb8Byte(E, iv, cipher + [c], data + [d], i)
  {
    assert (iv + (cipher + [c]))[i..i + 16] == (iv + cipher)[i..i + 16];
  }

  lemma Cfb8ByteLast(E: Block -> Block, iv: Block, cipher: seq<bv8>, data: seq<bv8>, c: bv8, d: bv8)
    requires |cipher| == |data| && c == Add(E((iv + cipher)[|data|..])[0], d)
    ensures Cfb8Byte(E, iv, cipher + [c], data + [d], |data|)
    ensures (iv + cipher)[|data|..][1..] + [c] == (iv + (cipher + [c]))[|data| + 1..]
  {
    assert (iv + (cipher + [c]))[|data|..|data| + 16] == (iv + cipher)[|data|..];
  }

  /** The shift register is always the last sixteen bytes of the vector and the ciphertext. */
  lemma {:induction false} Cfb8Standard(E: Block -> Block, iv: Block, data: seq<bv8>)
    ensures var r := Run(Cfb8(Encrypt, E), iv, data);
            && r.last == (iv + r.bytes)[|data|..]
            && forall i :: 0 <= i < |data| ==> Cfb8Byte(E, iv, r.bytes, data, i)
  {
    if data != [] {
      hide Add, Run, Cfb8Byte;
      var (k, step) := (|data| - 1, Cfb8(Encrypt, E));
      var (front, d) := (data[..k], data[k]);
      assert data == front + [d];
      Cfb8Standard(E, iv, front);
      RunSnoc(step, iv, front, d);
      var before := Run(step, iv, front);
      var c := step(before.last, d).byte;
      Cfb8ByteLast(E, iv, before.bytes, front, c, d);
      forall i | 0 <= i < k ensures Cfb8Byte(E, iv, before.bytes + [c], front + [d], i) {
        Cfb8ByteExtends(E, iv, before.bytes, front, c, d, i);
      }
    } else {
      assert (iv + [])[0..] == iv;
    }
  }

  // ---------------------------------------------------------------- counters

  /** The big-endian value of a counter, and the n low bytes of a value. */
  function Value(s: seq<bv8>): nat {
    if s == [] then 0 else 256 * Value(s[..|s| - 1]) + Index(s[|s| - 1])
  }

  function Bytes(v: nat, n: nat): (s: seq<bv8>)
    ensures |s| == n
  {
    if n == 0 then [] else Bytes(v / 256, n - 1) + [ByteAt(v % 256)]
  }

  lemma BytesSnoc(v: nat, n: nat, high: nat, low: nat)
    requires v == 256 * high + low && low < 256 && n > 0
    ensures Bytes(v, n) == Bytes(high, n - 1) + [ByteAt(low)]
  {
    hide ByteAt;
  }

  lemma {:induction false} BytesValue(s: seq<bv8>)
    ensures Bytes(Value(s), |s|) == s
  {
    if s != [] {
      hide ByteAt, Index;
      var (front, last) := (s[..|s| - 1], s[|s| - 1]);
      BytesValue(front);
      ByteAtIndex(last);
      BytesSnoc(Value(s), |s|, Value(front), Index(last));
      assert s == front + [last];
    }
  }

  /** Only the value modulo 256^n is kept. */
  lemma {:induction false} ValueBytes(v: nat, n: nat)
    ensures Power256(n) > 0 && Value(Bytes(v, n)) == v % Power256(n)
  {
    if n > 0 {
      hide ByteAt, Index;
      ValueBytes(v / 256, n - 1);
      IndexByteAt(v % 256);
      var s := Bytes(v, n);
      assert s[..n - 1] == Bytes(v / 256, n - 1) && s[n - 1] == ByteAt(v % 256);
      ModuloStep(v, Power256(n - 1));
    }
  }

  lemma ModuloStep(v: nat, p: nat)
    requires p > 0
    ensures v % (256 * p) == 256 * ((v / 256) % p) + v % 256
  {
    var (q, r) := (v / 256 / p, v / 256 % p);
    assert v == 256 * (p * q + r) + v % 256;
    assert 256 * (p * q + r) == (256 * p) * q + 256 * r;
    DivisionUnique(v, 256 * p, q, 256 * r + v % 256);
  }

  function Successor(b: bv8): bv8 { b + 1 }

  lemma IndexSuccessor(b: bv8)
    ensures Successor(b) != 0 ==> Index(Successor(b)) == Index(b) + 1
    ensures Successor(b) == 0 ==> Index(b) == 255
  {}

  /** Adding one from the last byte on, stopping at the first byte that does not wrap. */
  function Increment(s: seq<bv8>): (r: seq<bv8>)
    ensures |r| == |s|
  {
    if s == [] then []
    else
      var (front, last) := (s[..|s| - 1], s[|s| - 1]);
      if Successor(last) != 0 then front + [Successor(last)] else Increment(front) + [0]
  }

  lemma ValueSnoc(front: seq<bv8>, last: bv8)
    ensures Value(front + [last]) == 256 * Value(front) + Index(last)
  {
    var s := front + [last];
    assert s[..|s| - 1] == front && s[|s| - 1] == last;
  }

  lemma IncrementSnoc(front: seq<bv8>, last: bv8)
    ensures Increment(front + [last])
         == if Successor(last) != 0 then front + [Successor(last)] else Increment(front) + [0]
  {
    hide Successor;
    var s := front + [last];
    assert s[..|s| - 1] == front && s[|s| - 1] == last;
  }

  lemma {:induction false} IncrementIs(s: seq<bv8>)
    ensures Increment(s) == Bytes(Value(s) + 1, |s|)
  {
    if s != [] {
      hide *;
      var (front, last) := (s[..|s| - 1], s[|s| - 1]);
      assert s == front + [last];
      ValueSnoc(front, last);
      IncrementSnoc(front, last);
      if Successor(last) != 0 {
        IncrementLast(front, last);
      } else {
        IncrementIs(front);
        IndexSuccessor(last);
        IncrementCarry(front, Value(s) + 1);
      }
    }
  }

  lemma IncrementLast(front: seq<bv8>, last: bv8)
    requires Successor(last) != 0
    ensures front + [Successor(last)] == Bytes(256 * Value(front) + Index(last) + 1, |front| + 1)
  {
    hide *;
    IndexSuccessor(last);
    BytesValue(front);
    ByteAtIndex(Successor(last));
    BytesSnoc(256 * Value(front) + Index(last) + 1, |front| + 1, Value(front), Index(Successor(last)));
  }

  lemma IncrementCarry(front: seq<bv8>, v: nat)
    requires v == 256 * (Value(front) + 1) && Increment(front) == Bytes(Value(front) + 1, |front|)
    ensures Increment(front) + [0] == Bytes(v, |front| + 1)
  {
    hide *;
    ZeroByte();
    BytesSnoc(v, |front| + 1, Value(front) + 1, 0);
  }

  lemma ZeroByte()
    ensures ByteAt(0) == 0
  {}

  lemma IncrementBytes(v: nat, n: nat)
    ensures Increment(Bytes(v, n)) == Bytes(v + 1, n)
  {
    IncrementIs(Bytes(v, n));
    ValueBytes(v, n);
    BytesModulo(v, v % Power256(n), n);
  }

  /** Values that agree modulo 256^n have the same successor bytes. */
  lemma {:induction false} BytesModulo(v: nat, w: nat, n: nat)
    requires Power256(n) > 0 && w == v % Power256(n)
    ensures Bytes(w + 1, n) == Bytes(v + 1, n)
  {
    ValueBytes(v + 1, n); ValueBytes(w + 1, n);
    SuccessorModulo(v, w, Power256(n));
    BytesValue(Bytes(v + 1, n)); BytesValue(Bytes(w + 1, n));
  }

  lemma SuccessorModulo(v: nat, w: nat, d: nat)
    requires d > 0 && w == v % d
    ensures (w + 1) % d == (v + 1) % d
  {
    var q := v / d;
    assert v == d * q + w;
    if w + 1 < d {
      DivisionUnique(v + 1, d, q, w + 1);
      DivisionUnique(w + 1, d, 0, w + 1);
    } else {
      assert v + 1 == d * (q + 1);
      DivisionUnique(v + 1, d, q + 1, 0);
      DivisionUnique(w + 1, d, 1, 0);
    }
  }

  // ---------------------------------------------------------------- CTR

  datatype CtrState = CtrState(n: Offset, counter: Block, stream: Block)

  function Ctr(E: Block -> Block): (CtrState, bv8) -> Turned<CtrState> {
    (s: CtrState, c: bv8) =>
      var open := if s.n == 0 then CtrState(0, Increment(s.counter), E(s.counter)) else s;
      Turned(Add(open.stream[s.n], c), CtrState((s.n + 1) % 16, open.counter, open.stream))
  }

  /** Applying CTR twice from the same state is the identity, with the same final state. */
  lemma CtrTwice(E: Block -> Block, s: CtrState, data: seq<bv8>)
    ensures var sent := Run(Ctr(E), s, data);
            Run(Ctr(E), s, sent.bytes) == Ran(data, sent.last)
  {
    var step := Ctr(E);
    forall s: CtrState, c ensures step(s, step(s, c).byte) == Turned(c, step(s, c).next) {
      XorUndo((if s.n == 0 then E(s.counter) else s.stream)[s.n], c);
    }
    RunInverse(step, step, s, data);
  }

  /** How many fresh blocks the first k bytes need, counting from offset n of a block already open. */
  function Fresh(n: nat, k: nat): nat { (n + k + 15) / 16 - (n + 15) / 16 }

  function CounterBlock(counter: Block, k: nat): Block { Bytes(Value(counter) + k, 16) }

  function AfterCtr(E: Block -> Block, s: CtrState, k: nat): CtrState {
    var g := Fresh(s.n, k);
    CtrState((s.n + k) % 16, CounterBlock(s.counter, g), if g == 0 then s.stream else E(CounterBlock(s.counter, g - 1)))
  }

  /** Byte k of the keystream: the block function at the start counter plus the block number, modulo 2^128. */
  function Keystream(E: Block -> Block, s: CtrState, k: nat): bv8 {
    var g := Fresh(s.n, k + 1);
    (if g == 0 then s.stream else E(CounterBlock(s.counter, g - 1)))[(s.n + k) % 16]
  }

  lemma FreshNext(n: nat, k: nat)
    ensures Fresh(n, k + 1) == if (n + k) % 16 == 0 then Fresh(n, k) + 1 else Fresh(n, k)
    ensures ((n + k) % 16 + 1) % 16 == (n + (k + 1)) % 16
  {}

  lemma CounterNext(counter: Block, k: nat)
    ensures Increment(CounterBlock(counter, k)) == CounterBlock(counter, k + 1)
  {
    IncrementBytes(Value(counter) + k, 16);
  }

  lemma CtrTurn(E: Block -> Block, s: CtrState, k: nat, c: bv8)
    ensures Ctr(E)(AfterCtr(E, s, k), c) == Turned(Add(Keystream(E, s, k), c), AfterCtr(E, s, k + 1))
  {
    hide Add, Increment, CounterBlock, Fresh;
    FreshNext(s.n, k);
    CounterNext(s.counter, Fresh(s.n, k));
  }

  lemma CtrEmpty(E: Block -> Block, s: CtrState)
    ensures Run(Ctr(E), s, []) == Ran([], AfterCtr(E, s, 0))
  {
    hide Value, Bytes;
    BytesValue(s.counter);
  }

  lemma {:induction false} CtrRun(E: Block -> Block, s: CtrState, data: seq<bv8>)
    ensures var r := Run(Ctr(E), s, data);
            && r.last == AfterCtr(E, s, |data|)
            && forall i :: 0 <= i < |data| ==> r.bytes[i] == Add(Keystream(E, s, i), data[i])
  {
    hide *;
    CtrEmpty(E, s);
    if data != [] {
      var k := |data| - 1;
      var (front, d) := (data[..k], data[k]);
      assert data == front + [d];
      CtrRun(E, s, front);
      RunSnoc(Ctr(E), s, front, d);
      CtrTurn(E, s, k, d);
    }
  }

  /** From any state, every byte is added to the keystream byte of its place. */
  lemma CtrStandard(E: Block -> Block, s: CtrState, data: seq<bv8>)
    ensures var r := Run(Ctr(E), s, data);
            && r.last == AfterCtr(E, s, |data|)
            && forall i :: 0 <= i < |data| ==> r.bytes[i] == Keystream(E, s, i) ^ data[i]
  {
    hide Run, Ctr, AfterCtr, Keystream;
    CtrRun(E, s, data);
  }

  /** From a fresh start, byte i is added to byte i mod 16 of the encrypted counter block i / 16. */
  lemma CtrFromStart(E: Block -> Block, s: CtrState, data: seq<bv8>, i: nat)
    requires s.n == 0 && i < |data|
    ensures Run(Ctr(E), s, data).bytes[i] == E(CounterBlock(s.counter, i / 16))[i % 16] ^ data[i]
  {
    hide Run, Ctr, AfterCtr, CounterBlock;
    CtrStandard(E, s, data);
    assert Fresh(0, i + 1) == i / 16 + 1;
  }

  /** In the middle of a block, the rest of the kept stream block comes first. */
  lemma CtrFromOffset(E: Block -> Block, s: CtrState, data: seq<bv8>, i: nat)
    requires s.n > 0 && i < |data| && s.n + i < 16
    ensures Run(Ctr(E), s, data).bytes[i] == s.stream[s.n + i] ^ data[i]
  {
    hide Run, Ctr, AfterCtr, CounterBlock;
    CtrStandard(E, s, data);
    assert Fresh(s.n, i + 1) == 0;
  }

  /** Adding one, byte by byte: the last byte that is not 0xFF grows and all behind it become zero. */
  lemma {:induction false} IncrementBytewise(s: seq<bv8>, p: nat)
    requires p <= |s| && (p < |s| ==> s[p] != 0xFF) && forall i :: p < i < |s| ==> s[i] == 0xFF
    requires p == |s| ==> forall i :: 0 <= i < |s| ==> s[i] == 0xFF
    ensures p < |s| ==> Increment(s)[..p] == s[..p] && Increment(s)[p] == s[p] + 1
    ensures forall i :: (if p < |s| then p < i else 0 <= i) && i < |s| ==> Increment(s)[i] == 0
  {
    if s != [] {
      var n := |s| - 1;
      IncrementSnoc(s[..n], s[n]);
      assert s == s[..n] + [s[n]] && Successor(s[n]) == s[n] + 1;
      hide Increment, Successor;
      if p != n { IncrementBytewise(s[..n], if p == |s| then n else p); }
    }
  }

  /** The first counter block is the counter, and each next one is one more. */
  lemma CounterSteps(counter: Block, k: nat)
    ensures CounterBlock(counter, 0) == counter && CounterBlock(counter, k + 1) == Increment(CounterBlock(counter, k))
  {
    hide Value, Bytes, Increment;
    BytesValue(counter);
    CounterNext(counter, k);
  }

  /** The counter of keystream block k has the value of the start counter plus k, modulo 2^128. */
  lemma CounterWraps(counter: Block, k: nat)
    ensures Power256(16) > 0 && Value(CounterBlock(counter, k)) == (Value(counter) + k) % Power256(16)
  {
    ValueBytes(Value(counter) + k, 16);
  }

  // ---------------------------------------------------------------- the buffer loops

  /** Input and output may be the same buffer; the register arrays are apart from both. */
  ghost predicate Apart(length: nat, reg: array<bv8>, input: array<bv8>, output: array<bv8>) {
    length <= input.Length && length <= output.Length && reg.Length == 16 && reg != input && reg != output
  }

  /** The first i output bytes and the state after them are those of the machine. */
  ghost predicate Progress<S>(step: (S, bv8) -> Turned<S>, s: S, data: seq<bv8>, i: nat, output: seq<bv8>, before: seq<bv8>, now: S) {
    && i <= |data| <= |before| == |output|
    && Ran(output[..i], now) == Run(step, s, data[..i])
    && output[i..] == before[i..]
  }

  lemma ProgressNext<S>(step: (S, bv8) -> Turned<S>, s: S, data: seq<bv8>, i: nat, output: seq<bv8>, before: seq<bv8>, now: S)
    requires Progress(step, s, data, i, output, before, now) && i < |data|
    ensures var t := step(now, data[i]);
            Progress(step, s, data, i + 1, output[i := t.byte], before, t.next)
  {
    hide Run;
    RunSnoc(step, s, data[..i], data[i]);
    assert data[..i + 1] == data[..i] + [data[i]];
    var t := step(now, data[i]);
    assert output[i := t.byte][..i + 1] == output[..i] + [t.byte];
    assert output[i := t.byte][i + 1..] == output[i..][1..];
    assert before[i + 1..] == before[i..][1..];
  }

  lemma ProgressStart<S>(step: (S, bv8) -> Turned<S>, s: S, data: seq<bv8>, before: seq<bv8>)
    requires |data| <= |before|
    ensures Progress(step, s, data, 0, before, before, s)
  {
    assert data[..0] == [] && before[..0] == [];
  }

  /** The byte about to be read is still the original one, in place or not. */
  lemma ProgressInput<S>(step: (S, bv8) -> Turned<S>, s: S, data: seq<bv8>, i: nat, output: seq<bv8>, before: seq<bv8>, now: S)
    requires Progress(step, s, data, i, output, before, now) && i < |data| && data <= before
    ensures output[i] == data[i]
  {
    assert output[i..][0] == before[i..][0];
  }

  method SetBlock(a: array<bv8>, b: Block)
    requires a.Length == 16
    modifies a
    ensures a[..] == b
  {
    for i := 0 to 16
      invariant a[..i] == b[..i]
    {
      a[i] := b[i];
    }
  }

  /** One byte through the CFB128 register. */
  method Cfb128Feed(E: Block -> Block, mode: Mode, iv: array<bv8>, off: Offset, c: bv8) returns (out: bv8, next: Offset)
    requires iv.Length == 16
    modifies iv
    ensures Turned(out, CfbState(iv[..], next)) == Cfb128(mode, E)(CfbState(old(iv[..]), off), c)
  {
    hide Add;
    if off == 0 { SetBlock(iv, E(iv[..])); }
    ghost var reg := Register(E, CfbState(old(iv[..]), off));
    assert iv[..] == reg;
    out := Add(iv[off], c);
    iv[off] := if mode.Encrypt? then out else c;
    assert iv[..] == reg[off := if mode.Encrypt? then out else c];
    next := (off + 1) % 16;
  }

  /** One byte through the CFB8 shift register. */
  method Cfb8Feed(E: Block -> Block, mode: Mode, iv: array<bv8>, c: bv8) returns (out: bv8)
    requires iv.Length == 16
    modifies iv
    ensures var t := Cfb8(mode, E)(old(iv[..]), c); out == t.byte && iv[..] == t.next
  {
    hide Add;
    var ov: Block := iv[..];
    SetBlock(iv, E(ov));
    out := Add(iv[0], c);
    SetBlock(iv, ov[1..] + [if mode.Encrypt? then out else c]);
  }

  /** The carry loop over the counter bytes, from the last one back. */
  method BumpCounter(counter: array<bv8>)
    requires counter.Length == 16
    modifies counter
    ensures counter[..] == Increment(old(counter[..]))
  {
    hide Successor, Increment;
    var i := 16;
    ghost var was := counter[..];
    ghost var tail: seq<bv8> := [];
    assert was[..16] == was;
    while i > 0
      invariant 0 <= i <= 16
      invariant counter[..] == was[..i] + tail
      invariant Increment(was) == Increment(was[..i]) + tail
    {
      var next := Successor(counter[i - 1]);
      assert next == Successor(was[i - 1]);
      assert was[..i] == was[..i - 1] + [was[i - 1]];
      ReplaceAt(was[..i - 1], was[i - 1], tail, next);
      CarryOne(was[..i - 1], was[i - 1], tail);
      counter[i - 1] := next;
      if next != 0 { return; }
      i, tail := i - 1, [next] + tail;
    }
    assert was[..0] == [] && Increment([]) == [];
  }

  lemma ReplaceAt(front: seq<bv8>, x: bv8, tail: seq<bv8>, next: bv8)
    ensures (front + [x] + tail)[|front| := next] == front + ([next] + tail)
  {}

  lemma CarryOne(front: seq<bv8>, x: bv8, tail: seq<bv8>)
    ensures var next := [Successor(x)] + tail;
            Increment(front + [x]) + tail == (if Successor(x) != 0 then front else Increment(front)) + next
  {
    hide Successor, Increment;
    IncrementSnoc(front, x);
    Associate(front, [Successor(x)], tail);
    Associate(Increment(front), [Successor(x)], tail);
  }

  /** One byte of CTR. */
  method CtrFeed(E: Block -> Block, n: Offset, counter: array<bv8>, stream: array<bv8>, c: bv8) returns (out: bv8, next: Offset)
    requires counter.Length == 16 && stream.Length == 16 && counter != stream
    modifies counter, stream
    ensures Turned(out, CtrState(next, counter[..], stream[..])) == Ctr(E)(CtrState(n, old(counter[..]), old(stream[..])), c)
  {
    hide Add, Increment;
    if n == 0 {
      SetBlock(stream, E(counter[..]));
      BumpCounter(counter);
    }
    out := Add(stream[n], c);
    next := (n + 1) % 16;
  }

  /** mbedtls_aes_crypt_cfb128: the bytes and the carried register and offset are those of the machine. */
  method CryptCfb128(E: Block -> Block, mode: Mode, length: nat, ivOff: Offset, iv: array<bv8>,
                input: array<bv8>, output: array<bv8>)
    returns (off: Offset)
    requires Apart(length, iv, input, output)
    modifies iv, output
    ensures Progress(Cfb128(mode, E), CfbState(old(iv[..]), ivOff), old(input[..length]), length,
                     output[..], old(output[..]), CfbState(iv[..], off))
  {
    ghost var (step, s, data, before) := (Cfb128(mode, E), CfbState(iv[..], ivOff), input[..length], output[..]);
    off := ivOff;
    ProgressStart(step, s, data, before);
    for i := 0 to length
      invariant input != output ==> input[..] == old(input[..])
      invariant Progress(step, s, data, i, output[..], before, CfbState(iv[..], off))
    {
      ghost var now := CfbState(iv[..], off);
      if input == output { ProgressInput(step, s, data, i, output[..], before, now); }
      ProgressNext(step, s, data, i, output[..], before, now);
      hide Progress, Cfb128;
      assert input[i] == data[i];
      var out, next := Cfb128Feed(E, mode, iv, off, input[i]);
      output[i] := out;
      off := next;
    }
  }

  /** mbedtls_aes_crypt_cfb8. */
  method CryptCfb8(E: Block -> Block, mode: Mode, length: nat, iv: array<bv8>,
                input: array<bv8>, output: array<bv8>)
    requires Apart(length, iv, input, output)
    modifies iv, output
    ensures Progress<Block>(Cfb8(mode, E), old(iv[..]), old(input[..length]), length, output[..], old(output[..]), iv[..])
  {
    ghost var s: Block := iv[..];
    ghost var (step, data, before) := (Cfb8(mode, E), input[..length], output[..]);
    ProgressStart<Block>(step, s, data, before);
    for i := 0 to length
      invariant input != output ==> input[..] == old(input[..])
      invariant Progress<Block>(step, s, data, i, output[..], before, iv[..])
    {
      ghost var now: Block := iv[..];
      if input == output { ProgressInput<Block>(step, s, data, i, output[..], before, now); }
      ProgressNext<Block>(step, s, data, i, output[..], before, now);
      hide Progress, Cfb8;
      assert input[i] == data[i];
      var out := Cfb8Feed(E, mode, iv, input[i]);
      output[i] := out;
    }
  }

  /** mbedtls_aes_crypt_ctr. */
  method CryptCtr(E: Block -> Block, length: nat, ncOff: Offset, counter: array<bv8>, stream: array<bv8>,
                input: array<bv8>, output: array<bv8>)
    returns (off: Offset)
    requires Apart(length, counter, input, output) && Apart(length, stream, input, output) && counter != stream
    modifies counter, stream, output
    ensures Progress(Ctr(E), CtrState(ncOff, old(counter[..]), old(stream[..])), old(input[..length]), length,
                     output[..], old(output[..]), CtrState(off, counter[..], stream[..]))
  {
    ghost var (step, s, data, before) := (Ctr(E), CtrState(ncOff, counter[..], stream[..]), input[..length], output[..]);
    off := ncOff;
    ProgressStart(step, s, data, before);
    for i := 0 to length
      invariant input != output ==> input[..] == old(input[..])
      invariant Progress(step, s, data, i, output[..], before, CtrState(off, counter[..], stream[..]))
    {
      ghost var now := CtrState(off, counter[..], stream[..]);
      if input == output { ProgressInput(step, s, data, i, output[..], before, now); }
      ProgressNext(step, s, data, i, output[..], before, now);
      hide Progress, Ctr;
      assert input[i] == data[i];
      var out, next := CtrFeed(E, off, counter, stream, input[i]);
      output[i] := out;
      off := next;
    }
  }
}
