/**
 The run-time table generator of the SDK's AES: logarithms to base 3, the two S-boxes, the
 round constants and the eight round tables, proved to hold what FIPS 197 defines.
 */
module AesTables {
  import opened GaloisField
  import opened Words
  import opened FipsAes

  // ---------------------------------------------------------------- table entries

  /** A forward column: [2a, a, a, 3a] for an S-box output a. */
  function ForwardColumn(a: bv8): bv32 { Pack(Mul(0x02, a), a, a, Mul(0x03, a)) }

  /** An inverse column: [14a, 9a, 13a, 11a]. */
  function InverseColumn(a: bv8): bv32 { Pack(Mul(0x0E, a), Mul(0x09, a), Mul(0x0D, a), Mul(0x0B, a)) }

  // ---------------------------------------------------------------- logarithms

  /** The first n powers are stored, and the logarithm of each leads back to it. */
  ghost predicate LogsUpTo(pow: seq<bv8>, log: seq<int>, n: nat) {
    && |pow| == 256 && |log| == 256 && n <= 256
    && (forall k :: 0 <= k < n ==> pow[k] == Power(3, k))
    && (forall k :: 0 <= k < n ==> LogOf(log, n, Power(3, k)))
  }

  ghost predicate LogOf(log: seq<int>, n: nat, b: bv8)
    requires |log| == 256
  {
    0 <= log[Index(b)] < n && Power(3, log[Index(b)]) == b
  }

  ghost predicate LogTables(pow: seq<bv8>, log: seq<int>) {
    && |pow| == 256 && |log| == 256
    && (forall k :: 0 <= k < 256 ==> pow[k] == Power(3, k))
    && (forall b: bv8 :: b != 0 ==> LogOf(log, 256, b))
  }

  lemma LogStep(pow: seq<bv8>, log: seq<int>, n: nat)
    requires LogsUpTo(pow, log, n) && n < 256
    ensures LogsUpTo(pow[n := Power(3, n)], log[Index(Power(3, n)) := n], n + 1)
    ensures Power(3, n + 1) == Power(3, n) ^ Xtime(Power(3, n))
  {
    hide Index, Mul, Xtime;
    var x := Power(3, n);
    TimesThree(x);
    var log' := log[Index(x) := n];
    forall k | 0 <= k <= n ensures LogOf(log', n + 1, Power(3, k)) {
      if Index(Power(3, k)) == Index(x) {
        IndexInjective(Power(3, k), x);
      } else {
        assert LogOf(log, n, Power(3, k));
      }
    }
  }

  lemma LogsComplete(pow: seq<bv8>, log: seq<int>)
    requires LogsUpTo(pow, log, 256)
    ensures LogTables(pow, log)
  {
    hide Index, Power;
    forall b: bv8 | b != 0 ensures LogOf(log, 256, b) {
      var k := Logarithm(b);
    }
  }

  method GenLogTables() returns (pow: array<bv8>, log: array<int>)
    ensures fresh(pow) && fresh(log) && LogTables(pow[..], log[..])
  {
    pow := new bv8[256];
    log := new int[256];
    hide Index, Power;
    PowerBase(3);
    var x: bv8 := 1;
    for i := 0 to 256
      invariant x == Power(3, i)
      invariant LogsUpTo(pow[..], log[..], i)
    {
      LogStep(pow[..], log[..], i);
      pow[i] := x;
      log[Index(x)] := i;
      x := x ^ Xtime(x);
    }
    LogsComplete(pow[..], log[..]);
  }

  /** The MUL macro. */
  function MulByLog(pow: seq<bv8>, log: seq<int>, x: bv8, y: bv8): bv8
    requires LogTables(pow, log)
  {
    if x != 0 && y != 0 then
      assert LogOf(log, 256, x) && LogOf(log, 256, y);
      pow[(log[Index(x)] + log[Index(y)]) % 255]
    else 0
  }

  lemma MulByLogIsMul(pow: seq<bv8>, log: seq<int>, x: bv8, y: bv8)
    requires LogTables(pow, log)
    ensures MulByLog(pow, log, x, y) == Mul(x, y)
  {
    hide Mul, Power, Index;
    MulByZeroOne(y); MulZero(x);
    if x != 0 && y != 0 {
      assert LogOf(log, 256, x) && LogOf(log, 256, y);
      var n := log[Index(x)] + log[Index(y)];
      PowerAdd(3, log[Index(x)], log[Index(y)]);
      PowerMod255(n);
    }
  }

  lemma {:induction false} PowerMod255(n: nat)
    ensures Power(3, n % 255) == Power(3, n)
  {
    hide Mul, Power;
    if n >= 255 {
      PowerMod255(n - 255);
      ThreeAtDivisors();
      PowerAdd(3, 255, n - 255);
      MulByZeroOne(Power(3, n - 255));
      assert n % 255 == (n - 255) % 255;
    }
  }

  // ---------------------------------------------------------------- the S-boxes

  function Rotl1(y: bv8): bv8 { (y << 1) | (y >> 7) }

  /** The chain of rotations that computes an S-box entry from an inverse. */
  function RotationChain(x: bv8): bv8 {
    var y1 := Rotl1(x);
    var y2 := Rotl1(y1);
    var y3 := Rotl1(y2);
    var y4 := Rotl1(y3);
    x ^ y1 ^ y2 ^ y3 ^ (y4 ^ 0x63)
  }

  lemma RotationChainIsAffine(x: bv8)
    ensures RotationChain(x) == Affine(x)
  {}

  ghost predicate SBoxesUpTo(fsb: seq<bv8>, rsb: seq<bv8>, n: nat) {
    && |fsb| == 256 && |rsb| == 256 && n <= 256
    && forall b: bv8 :: Index(b) < n ==> fsb[Index(b)] == SBox(b) && rsb[Index(SBox(b))] == b
  }

  ghost predicate SBoxEntry(fsb: seq<bv8>, rsb: seq<bv8>, i: nat)
    requires i < |fsb| == |rsb| == 256
  {
    fsb[i] == SBox(ByteAt(i)) && rsb[i] == InvSBox(ByteAt(i))
  }

  ghost predicate SBoxTables(fsb: seq<bv8>, rsb: seq<bv8>) {
    |fsb| == |rsb| == 256 && forall i :: 0 <= i < 256 ==> SBoxEntry(fsb, rsb, i)
  }

  lemma SBoxLookup(fsb: seq<bv8>, rsb: seq<bv8>, b: bv8)
    requires SBoxTables(fsb, rsb)
    ensures fsb[Index(b)] == SBox(b) && rsb[Index(b)] == InvSBox(b)
  {
    hide SBox, InvSBox, ByteAt, Index;
    ByteAtIndex(b);
    assert SBoxEntry(fsb, rsb, Index(b));
  }

  lemma SBoxStep(fsb: seq<bv8>, rsb: seq<bv8>, n: nat)
    requires SBoxesUpTo(fsb, rsb, n) && n < 256
    ensures SBoxesUpTo(fsb[n := SBox(ByteAt(n))], rsb[Index(SBox(ByteAt(n))) := ByteAt(n)], n + 1)
  {
    hide Index, ByteAt, SBox, InvSBox;
    var x := ByteAt(n);
    IndexByteAt(n);
    var (f, r) := (fsb[n := SBox(x)], rsb[Index(SBox(x)) := x]);
    forall b: bv8 | Index(b) < n + 1 ensures f[Index(b)] == SBox(b) && r[Index(SBox(b))] == b {
      if Index(b) == n {
        IndexInjective(b, x);
      } else if Index(SBox(b)) == Index(SBox(x)) {
        IndexInjective(SBox(b), SBox(x));
        InvSBoxSBox(b); InvSBoxSBox(x);
      }
    }
  }

  lemma SBoxesComplete(fsb: seq<bv8>, rsb: seq<bv8>)
    requires SBoxesUpTo(fsb, rsb, 256)
    ensures SBoxTables(fsb, rsb)
  {
    hide Index, ByteAt, SBox, InvSBox;
    forall i | 0 <= i < 256 ensures SBoxEntry(fsb, rsb, i) {
      var b := ByteAt(i);
      IndexByteAt(i);
      InvSBoxSBox(b);
      assert fsb[Index(b)] == SBox(b) && rsb[Index(SBox(InvSBox(b)))] == InvSBox(b);
    }
  }

  /** The table entry pow[255 - log[i]] is the multiplicative inverse of a nonzero i. */
  lemma InverseByLog(pow: seq<bv8>, log: seq<int>, x: bv8)
    requires LogTables(pow, log) && x != 0
    ensures 0 <= log[Index(x)] < 256 && pow[255 - log[Index(x)]] == Inverse(x)
  {
    hide Index, Power, Mul, Inverse;
    assert LogOf(log, 256, x);
    var k := log[Index(x)];
    PowerAdd(3, 255 - k, k);
    ThreeAtDivisors();
    InverseUnique(x, Power(3, 255 - k));
  }

  lemma SBoxZero()
    ensures SBox(0) == 0x63
  {
    hide Inverse;
    InverseLaw(0);
    assert Affine(0) == 0x63;
  }

  method GenSBoxes(pow: seq<bv8>, log: seq<int>) returns (fsb: array<bv8>, rsb: array<bv8>)
    requires LogTables(pow, log)
    ensures fresh(fsb) && fresh(rsb) && SBoxTables(fsb[..], rsb[..])
  {
    hide Index, ByteAt, SBox, InvSBox, Inverse, Affine, RotationChain;
    fsb, rsb := new bv8[256], new bv8[256];
    fsb[0x00] := 0x63;
    rsb[0x63] := 0x00;
    SBoxBase(fsb[..], rsb[..]);
    for i := 1 to 256
      invariant SBoxesUpTo(fsb[..], rsb[..], i)
    {
      var b := ByteAt(i);
      IndexByteAt(i);
      ByteAtNonzero(i);
      InverseByLog(pow, log, b);
      var x := RotationChain(pow[255 - log[i]]);
      RotationChainIsAffine(pow[255 - log[i]]);
      SBoxIs(b, x);
      SBoxStep(fsb[..], rsb[..], i);
      fsb[i] := x;
      rsb[Index(x)] := b;
    }
    SBoxesComplete(fsb[..], rsb[..]);
  }

  lemma SBoxIs(b: bv8, x: bv8)
    requires x == Affine(Inverse(b))
    ensures x == SBox(b)
  {}

  lemma ByteAtNonzero(i: nat)
    requires 0 < i < 256
    ensures ByteAt(i) != 0
  {
    IndexByteAt(i);
  }

  lemma SBoxBase(fsb: seq<bv8>, rsb: seq<bv8>)
    requires |fsb| == 256 && |rsb| == 256 && fsb[0x00] == 0x63 && rsb[0x63] == 0x00
    ensures SBoxesUpTo(fsb, rsb, 1)
  {
    hide SBox;
    SBoxZero();
    assert Index(0x63) == 0x63 && Index(0) == 0;
    forall b: bv8 | Index(b) < 1 ensures b == 0 { IndexZero(b); }
  }

  // ---------------------------------------------------------------- the round tables

  /** An entry of one table and of its three rotations. */
  ghost predicate TableEntry(t0: seq<bv32>, t1: seq<bv32>, t2: seq<bv32>, t3: seq<bv32>, entry: bv8 -> bv32, i: nat)
    requires i < |t0| == |t1| == |t2| == |t3| == 256
  {
    var w := entry(ByteAt(i));
    t0[i] == w && t1[i] == Rotl8(w) && t2[i] == Rotl8(Rotl8(w)) && t3[i] == Rotl8(Rotl8(Rotl8(w)))
  }

  ghost predicate TableUpTo(t0: seq<bv32>, t1: seq<bv32>, t2: seq<bv32>, t3: seq<bv32>, entry: bv8 -> bv32, n: nat) {
    && |t0| == |t1| == |t2| == |t3| == 256 && n <= 256
    && forall i :: 0 <= i < n ==> TableEntry(t0, t1, t2, t3, entry, i)
  }

  lemma TableStep(t0: seq<bv32>, t1: seq<bv32>, t2: seq<bv32>, t3: seq<bv32>, entry: bv8 -> bv32, n: nat, w: bv32)
    requires TableUpTo(t0, t1, t2, t3, entry, n) && n < 256 && w == entry(ByteAt(n))
    ensures TableUpTo(t0[n := w], t1[n := Rotl8(w)], t2[n := Rotl8(Rotl8(w))], t3[n := Rotl8(Rotl8(Rotl8(w)))], entry, n + 1)
  {
    hide ByteAt, Rotl8;
    var (a, b, c, d) := (t0[n := w], t1[n := Rotl8(w)], t2[n := Rotl8(Rotl8(w))], t3[n := Rotl8(Rotl8(Rotl8(w)))]);
    forall i | 0 <= i <= n ensures TableEntry(a, b, c, d, entry, i) {
      if i < n { assert TableEntry(t0, t1, t2, t3, entry, i); }
    }
  }

  lemma TableLookup(t0: seq<bv32>, t1: seq<bv32>, t2: seq<bv32>, t3: seq<bv32>, entry: bv8 -> bv32, b: bv8)
    requires TableUpTo(t0, t1, t2, t3, entry, 256)
    ensures var (i, w) := (Index(b), entry(b));
            t0[i] == w && t1[i] == Rotl8(w) && t2[i] == Rotl8(Rotl8(w)) && t3[i] == Rotl8(Rotl8(Rotl8(w)))
  {
    hide ByteAt, Rotl8, Index;
    ByteAtIndex(b);
    assert TableEntry(t0, t1, t2, t3, entry, Index(b));
  }

  ghost const Forward: bv8 -> bv32 := b => ForwardColumn(SBox(b))
  ghost const Backward: bv8 -> bv32 := b => InverseColumn(InvSBox(b))

  /** The exclusive-or of shifted bytes that the generator writes. */
  function XorPack(b0: bv8, b1: bv8, b2: bv8, b3: bv8): bv32 {
    Shift0(b0) ^ Shift1(b1) ^ Shift2(b2) ^ Shift3(b3)
  }

  function Shift0(b: bv8): bv32 { b as bv32 }
  function Shift1(b: bv8): bv32 { (b as bv32) << 8 }
  function Shift2(b: bv8): bv32 { (b as bv32) << 16 }
  function Shift3(b: bv8): bv32 { (b as bv32) << 24 }

  lemma XorPackIsPack(b0: bv8, b1: bv8, b2: bv8, b3: bv8)
    ensures XorPack(b0, b1, b2, b3) == Pack(b0, b1, b2, b3)
  {}

  lemma ForwardEntry(x: bv8)
    ensures XorPack(Xtime(x), x, x, Add(Xtime(x), x)) == ForwardColumn(x)
  {
    hide Mul, Pack, XorPack, Xtime;
    XorPackIsPack(Xtime(x), x, x, Add(Xtime(x), x));
    MulPowersOfX(x); TimesThree(x);
  }

  lemma BackwardEntry(pow: seq<bv8>, log: seq<int>, x: bv8)
    requires LogTables(pow, log)
    ensures XorPack(MulByLog(pow, log, 0x0E, x), MulByLog(pow, log, 0x09, x),
                    MulByLog(pow, log, 0x0D, x), MulByLog(pow, log, 0x0B, x)) == InverseColumn(x)
  {
    hide Mul, Pack, XorPack, MulByLog;
    MulByLogIsMul(pow, log, 0x0E, x); MulByLogIsMul(pow, log, 0x09, x);
    MulByLogIsMul(pow, log, 0x0D, x); MulByLogIsMul(pow, log, 0x0B, x);
    XorPackIsPack(Mul(0x0E, x), Mul(0x09, x), Mul(0x0D, x), Mul(0x0B, x));
  }

  /** Stores an entry and its three byte rotations. */
  method PutEntry(t0: array<bv32>, t1: array<bv32>, t2: array<bv32>, t3: array<bv32>, i: nat, w: bv32)
    requires i < t0.Length == t1.Length == t2.Length == t3.Length
    requires t0 != t1 && t0 != t2 && t0 != t3 && t1 != t2 && t1 != t3 && t2 != t3
    modifies t0, t1, t2, t3
    ensures t0[..] == old(t0[..])[i := w]
    ensures t1[..] == old(t1[..])[i := Rotl8(w)]
    ensures t2[..] == old(t2[..])[i := Rotl8(Rotl8(w))]
    ensures t3[..] == old(t3[..])[i := Rotl8(Rotl8(Rotl8(w)))]
  {
    hide Rotl8;
    t0[i] := w;
    t1[i] := Rotl8(t0[i]);
    t2[i] := Rotl8(t1[i]);
    t3[i] := Rotl8(t2[i]);
  }

  /**
   Each phase takes what earlier phases computed as values. The last loop of the generator
   fills two independent groups of tables; it is two loops here.
   */
  method GenForwardTables(fsb: seq<bv8>, ghost rsb: seq<bv8>)
    returns (t0: array<bv32>, t1: array<bv32>, t2: array<bv32>, t3: array<bv32>)
    requires SBoxTables(fsb, rsb)
    ensures fresh({t0, t1, t2, t3})
    ensures TableUpTo(t0[..], t1[..], t2[..], t3[..], Forward, 256)
  {
    t0, t1, t2, t3 := new bv32[256], new bv32[256], new bv32[256], new bv32[256];
    hide *;
    TableEmpty(t0[..], t1[..], t2[..], t3[..], Forward);
    for i := 0 to 256
      invariant TableUpTo(t0[..], t1[..], t2[..], t3[..], Forward, i)
    {
      SBoxAt(fsb, rsb, i);
      var x := fsb[i];
      var y := Xtime(x);
      var w := XorPack(y, x, x, Add(y, x));
      ForwardEntry(x);
      TableStep(t0[..], t1[..], t2[..], t3[..], Forward, i, w);
      PutEntry(t0, t1, t2, t3, i, w);
    }
  }

  method GenReverseTables(pow: seq<bv8>, log: seq<int>, ghost fsb: seq<bv8>, rsb: seq<bv8>)
    returns (t0: array<bv32>, t1: array<bv32>, t2: array<bv32>, t3: array<bv32>)
    requires LogTables(pow, log) && SBoxTables(fsb, rsb)
    ensures fresh({t0, t1, t2, t3})
    ensures TableUpTo(t0[..], t1[..], t2[..], t3[..], Backward, 256)
  {
    t0, t1, t2, t3 := new bv32[256], new bv32[256], new bv32[256], new bv32[256];
    hide *;
    TableEmpty(t0[..], t1[..], t2[..], t3[..], Backward);
    for i := 0 to 256
      invariant TableUpTo(t0[..], t1[..], t2[..], t3[..], Backward, i)
    {
      SBoxAt(fsb, rsb, i);
      var x := rsb[i];
      var w := XorPack(MulByLog(pow, log, 0x0E, x), MulByLog(pow, log, 0x09, x),
                       MulByLog(pow, log, 0x0D, x), MulByLog(pow, log, 0x0B, x));
      BackwardEntry(pow, log, x);
      TableStep(t0[..], t1[..], t2[..], t3[..], Backward, i, w);
      PutEntry(t0, t1, t2, t3, i, w);
    }
  }

  lemma TableEmpty(t0: seq<bv32>, t1: seq<bv32>, t2: seq<bv32>, t3: seq<bv32>, entry: bv8 -> bv32)
    requires |t0| == 256 && |t1| == 256 && |t2| == 256 && |t3| == 256
    ensures TableUpTo(t0, t1, t2, t3, entry, 0)
  {}

  lemma SBoxAt(fsb: seq<bv8>, rsb: seq<bv8>, i: nat)
    requires SBoxTables(fsb, rsb) && i < 256
    ensures |fsb| == 256 && |rsb| == 256
    ensures ForwardColumn(fsb[i]) == Forward(ByteAt(i)) && InverseColumn(rsb[i]) == Backward(ByteAt(i))
  {
    hide SBox, InvSBox, Index, ByteAt, ForwardColumn, InverseColumn;
    assert SBoxEntry(fsb, rsb, i);
  }

  method GenRcon() returns (rcon: array<bv32>)
    ensures fresh(rcon) && RconTable(rcon[..])
  {
    rcon := new bv32[10];
    hide *;
    PowerBase(2);
    RconNone(rcon[..]);
    var x: bv8 := 1;
    for i := 0 to 10
      invariant x == Power(2, i) && RconUpTo(rcon[..], i)
    {
      RconNext(rcon[..], i);
      ghost var was := rcon[..];
      rcon[i] := Shift0(x);
      assert rcon[..] == was[i := Shift0(x)];
      PowerTwoNext(i);
      x := Xtime(x);
    }
    RconAll(rcon[..]);
  }

  ghost predicate RconUpTo(rcon: seq<bv32>, n: nat) {
    |rcon| == 10 && n <= 10 && forall i :: 0 <= i < n ==> rcon[i] == Rcon(i + 1)
  }

  lemma RconNone(rcon: seq<bv32>)
    requires |rcon| == 10
    ensures RconUpTo(rcon, 0)
  {}

  lemma RconNext(rcon: seq<bv32>, n: nat)
    requires RconUpTo(rcon, n) && n < 10
    ensures RconUpTo(rcon[n := Shift0(Power(2, n))], n + 1)
  {
    RconIs(n);
    hide Power, Rcon, Shift0;
  }

  lemma RconAll(rcon: seq<bv32>)
    requires RconUpTo(rcon, 10)
    ensures RconTable(rcon)
  {
    hide Rcon;
  }

  lemma RconIs(i: nat)
    ensures Rcon(i + 1) == Shift0(Power(2, i))
  {
    hide Power;
  }

  lemma PowerTwoNext(i: nat)
    ensures Power(2, i + 1) == Xtime(Power(2, i))
  {
    hide Mul, Xtime;
    MulPowersOfX(Power(2, i));
  }

  ghost predicate RconTable(rcon: seq<bv32>) {
    |rcon| == 10 && forall i :: 0 <= i < 10 ==> rcon[i] == Rcon(i + 1)
  }

  /** The static tables, filled on first use. */
  class Tables {
    const fsb: array<bv8>
    const rsb: array<bv8>
    const ft0: array<bv32>
    const ft1: array<bv32>
    const ft2: array<bv32>
    const ft3: array<bv32>
    const rt0: array<bv32>
    const rt1: array<bv32>
    const rt2: array<bv32>
    const rt3: array<bv32>
    const rcon: array<bv32>

    ghost const byteArrays: set<array<bv8>>
    ghost const wordArrays: set<array<bv32>>

    ghost predicate Ready()
      reads byteArrays, wordArrays
    {
      && byteArrays == {fsb, rsb}
      && wordArrays == {ft0, ft1, ft2, ft3, rt0, rt1, rt2, rt3, rcon}
      && SBoxTables(fsb[..], rsb[..])
      && TableUpTo(ft0[..], ft1[..], ft2[..], ft3[..], Forward, 256)
      && TableUpTo(rt0[..], rt1[..], rt2[..], rt3[..], Backward, 256)
      && RconTable(rcon[..])
    }

    constructor GenTables()
      ensures Ready() && fresh(byteArrays) && fresh(wordArrays)
    {
      hide SBoxTables, TableUpTo, Rcon, LogTables;
      var pow, log := GenLogTables();
      var consts := GenRcon();
      var f, r := GenSBoxes(pow[..], log[..]);
      var a0, a1, a2, a3 := GenForwardTables(f[..], r[..]);
      var b0, b1, b2, b3 := GenReverseTables(pow[..], log[..], f[..], r[..]);
      fsb, rsb, rcon := f, r, consts;
      ft0, ft1, ft2, ft3 := a0, a1, a2, a3;
      rt0, rt1, rt2, rt3 := b0, b1, b2, b3;
      byteArrays := {f, r};
      wordArrays := {a0, a1, a2, a3, b0, b1, b2, b3, consts};
    }
  }
}
