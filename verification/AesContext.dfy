/**
 utils_aes_context and the operations on it: the two key schedules and the block functions.
 */
module AesContext {
  import opened GaloisField
  import opened Words
  import opened FipsAes
  import opened AesTables
  import opened AesBlock
  import opened Blocks

  const INVALID_KEY_LENGTH := -0x0020

  // ---------------------------------------------------------------- blocks of bytes

  function ColumnBytes(c: Column): seq<bv8> { [c.r0, c.r1, c.r2, c.r3] }

  function FromState(s: State): Block {
    ColumnBytes(s.c0) + ColumnBytes(s.c1) + ColumnBytes(s.c2) + ColumnBytes(s.c3)
  }

  function ToState(b: Block): State {
    State(Column(b[0], b[1], b[2], b[3]), Column(b[4], b[5], b[6], b[7]),
          Column(b[8], b[9], b[10], b[11]), Column(b[12], b[13], b[14], b[15]))
  }

  lemma FromToState(b: Block)
    ensures FromState(ToState(b)) == b
  {
    assert ColumnBytes(ToState(b).c0) == b[0..4] && ColumnBytes(ToState(b).c1) == b[4..8];
    assert ColumnBytes(ToState(b).c2) == b[8..12] && ColumnBytes(ToState(b).c3) == b[12..16];
  }

  lemma ToFromState(s: State)
    ensures ToState(FromState(s)) == s
  {}

  /** The first round key holds the first sixteen bytes of the key. */
  lemma FirstRoundKey(key: seq<bv8>, nk: nat, n: nat)
    requires ValidKey(key, nk) && n >= 4
    ensures RoundKey(Expanded(key, nk, n), 0) == ToState(key[..16])
  {
    hide Expanded, ColumnOf;
    KeyColumn(key, nk, n, 0); KeyColumn(key, nk, n, 1); KeyColumn(key, nk, n, 2); KeyColumn(key, nk, n, 3);
  }

  // ---------------------------------------------------------------- the expanded key

  ghost predicate Filled(rk: seq<bv32>, key: seq<bv8>, nk: nat, n: nat) {
    && |rk| == 68 && n <= 68 && ValidKey(key, nk)
    && forall i :: 0 <= i < n ==> rk[i] == ExpandedWord(key, nk, i)
  }

  function SubWordExpr(fsb: seq<bv8>, a: bv32, b0: bv8, b1: bv8, b2: bv8, b3: bv8): bv32
    requires |fsb| == 256
  {
    LastWord(a, fsb[Index(b0)], fsb[Index(b1)], fsb[Index(b2)], fsb[Index(b3)])
  }

  /** The first word of a group: the previous word rotated, substituted and tagged with a constant. */
  lemma CoreWord(fsb: seq<bv8>, rsb: seq<bv8>, a: bv32, rcon: bv32, w: bv32)
    requires SBoxTables(fsb, rsb)
    ensures SubWordExpr(fsb, Xor(a, rcon), B1(w), B2(w), B3(w), B0(w)) == Xor(a, Xor(SubWord(RotWord(w)), rcon))
  {
    hide Xor, Pack, LastWord, XorPack, SBox, B0, B1, B2, B3, Index;
    SBoxLookup(fsb, rsb, B0(w)); SBoxLookup(fsb, rsb, B1(w)); SBoxLookup(fsb, rsb, B2(w)); SBoxLookup(fsb, rsb, B3(w));
    PackBytes(B1(w), B2(w), B3(w), B0(w));
    var (p, q, r, s) := (SBox(B1(w)), SBox(B2(w)), SBox(B3(w)), SBox(B0(w)));
    LastWordXor(Xor(a, rcon), p, q, r, s);
    XorCore(a, rcon, Pack(p, q, r, s));
  }

  lemma SubstitutedWord(fsb: seq<bv8>, rsb: seq<bv8>, a: bv32, w: bv32)
    requires SBoxTables(fsb, rsb)
    ensures SubWordExpr(fsb, a, B0(w), B1(w), B2(w), B3(w)) == Xor(a, SubWord(w))
  {
    hide Xor, Pack, LastWord, XorPack, SBox, B0, B1, B2, B3, Index;
    SBoxLookup(fsb, rsb, B0(w)); SBoxLookup(fsb, rsb, B1(w)); SBoxLookup(fsb, rsb, B2(w)); SBoxLookup(fsb, rsb, B3(w));
    var (p, q, r, s) := (SBox(B0(w)), SBox(B1(w)), SBox(B2(w)), SBox(B3(w)));
    LastWordXor(a, p, q, r, s);
    XorComm(a, Pack(p, q, r, s));
  }

  lemma XorCore(a: bv32, b: bv32, c: bv32)
    ensures Xor(c, Xor(a, b)) == Xor(a, Xor(c, b))
  {}

  lemma XorComm(a: bv32, b: bv32)
    ensures Xor(a, b) == Xor(b, a)
  {}

  lemma GroupIndex(nk: nat, i: nat, j: nat)
    requires (nk == 4 || nk == 6 || nk == 8) && j < nk
    ensures (nk * (i + 1) + j) % nk == j && (nk * (i + 1) + j) / nk == i + 1
  {}

  lemma FillOne(rk: seq<bv32>, key: seq<bv8>, nk: nat, n: nat, w: bv32)
    requires Filled(rk, key, nk, n) && nk <= n < 68
    requires w == Xor(rk[n - nk],
                      if n % nk == 0 then Xor(SubWord(RotWord(rk[n - 1])), Rcon(n / nk))
                      else if nk > 6 && n % nk == 4 then SubWord(rk[n - 1])
                      else rk[n - 1])
    ensures Filled(rk[n := w], key, nk, n + 1)
  {
    hide Xor, SubWord, RotWord, Rcon;
  }

  /**
   The three unrolled cases of the encryption schedule, as one loop over groups of nk words:
   every word within a group is the word nk earlier with the word just written added.
   */
  method ExpandKey(fsb: seq<bv8>, ghost rsb: seq<bv8>, rcon: seq<bv32>,
                   rk: array<bv32>, ghost key: seq<bv8>, nk: nat, groups: nat)
    requires SBoxTables(fsb, rsb) && RconTable(rcon)
    requires (nk == 4 && groups == 10) || (nk == 6 && groups == 8) || (nk == 8 && groups == 7)
    requires Filled(rk[..], key, nk, nk)
    modifies rk
    ensures Filled(rk[..], key, nk, nk * (groups + 1))
  {
    hide Xor, B0, B1, B2, B3, SubWord, RotWord, Rcon, SubWordExpr;
    assert |fsb| == 256;
    hide SBoxTables;
    for i := 0 to groups
      invariant Filled(rk[..], key, nk, nk * (i + 1))
    {
      ExpandGroup(fsb, rsb, rcon[i], rk, key, nk, i);
    }
  }

  /** GET_UINT32_LE on the words of the key. */
  method LoadKey(key: seq<bv8>, rk: array<bv32>, ghost k: seq<bv8>, nk: nat)
    requires ValidKey(k, nk) && k <= key && rk.Length == 68
    modifies rk
    ensures Filled(rk[..], k, nk, nk)
  {
    hide Pack;
    for i := 0 to nk
      invariant Filled(rk[..], k, nk, i)
    {
      rk[i] := Pack(key[4 * i], key[4 * i + 1], key[4 * i + 2], key[4 * i + 3]);
    }
  }

  method ExpandGroup(fsb: seq<bv8>, ghost rsb: seq<bv8>, rcon: bv32, rk: array<bv32>, ghost key: seq<bv8>, nk: nat, i: nat)
    requires SBoxTables(fsb, rsb) && rcon == Rcon(i + 1)
    requires (nk == 4 || nk == 6 || nk == 8) && nk * (i + 2) <= 68
    requires Filled(rk[..], key, nk, nk * (i + 1))
    modifies rk
    ensures Filled(rk[..], key, nk, nk * (i + 2))
  {
    hide Xor, B0, B1, B2, B3, SubWord, RotWord, Rcon, SubWordExpr, ExpandedWord;
    assert |fsb| == 256;
    hide SBoxTables;
    var p := nk * i;
    GroupIndex(nk, i, 0);
    var w := rk[p + nk - 1];
    CoreWord(fsb, rsb, rk[p], rcon, w);
    var first := SubWordExpr(fsb, Xor(rk[p], rcon), B1(w), B2(w), B3(w), B0(w));
    FillOne(rk[..], key, nk, p + nk, first);
    rk[p + nk] := first;
    ExpandRest(fsb, rsb, rk, key, nk, i);
  }

  /** The words of a group behind its first one. */
  method ExpandRest(fsb: seq<bv8>, ghost rsb: seq<bv8>, rk: array<bv32>, ghost key: seq<bv8>, nk: nat, i: nat)
    requires SBoxTables(fsb, rsb) && (nk == 4 || nk == 6 || nk == 8) && nk * (i + 2) <= 68
    requires Filled(rk[..], key, nk, nk * (i + 1) + 1)
    modifies rk
    ensures Filled(rk[..], key, nk, nk * (i + 2))
  {
    hide Xor, B0, B1, B2, B3, SubWord, RotWord, Rcon, SubWordExpr, ExpandedWord;
    assert |fsb| == 256;
    hide SBoxTables;
    var p := nk * i;
    for j := 1 to nk
      invariant Filled(rk[..], key, nk, p + nk + j)
    {
      GroupIndex(nk, i, j);
      var v := rk[p + nk + j - 1];
      var next := Xor(rk[p + j], v);
      if nk == 8 && j == 4 {
        SubstitutedWord(fsb, rsb, rk[p + j], v);
        next := SubWordExpr(fsb, rk[p + j], B0(v), B1(v), B2(v), B3(v));
      }
      FillOne(rk[..], key, nk, p + nk + j, next);
      rk[p + nk + j] := next;
    }
  }

  // ---------------------------------------------------------------- a round through the tables

  function KeyQuad(rk: seq<bv32>, p: nat): Quad
    requires p + 4 <= |rk|
  {
    Quad(rk[p], rk[p + 1], rk[p + 2], rk[p + 3])
  }

  /** A word of AES_FROUND: one entry of each table. */
  function ForwardLookup(t: Tables, k: bv32, a: bv8, b: bv8, c: bv8, d: bv8): bv32
    requires t.Ready()
    reads t.byteArrays, t.wordArrays
  {
    TableSum(k, t.ft0[Index(a)], t.ft1[Index(b)], t.ft2[Index(c)], t.ft3[Index(d)])
  }

  lemma ForwardLookupIs(t: Tables, k: bv32, a: bv8, b: bv8, c: bv8, d: bv8)
    requires t.Ready()
    ensures ForwardLookup(t, k, a, b, c, d) == ForwardWord(k, SBox(a), SBox(b), SBox(c), SBox(d))
  {
    hide TableSum, Index, SBox, InvSBox, Rotl8, ForwardColumn, SBoxTables, Rcon;
    TableLookup(t.ft0[..], t.ft1[..], t.ft2[..], t.ft3[..], Forward, a);
    TableLookup(t.ft0[..], t.ft1[..], t.ft2[..], t.ft3[..], Forward, b);
    TableLookup(t.ft0[..], t.ft1[..], t.ft2[..], t.ft3[..], Forward, c);
    TableLookup(t.ft0[..], t.ft1[..], t.ft2[..], t.ft3[..], Forward, d);
  }

  function ForwardStep(t: Tables, k: Quad, y: Quad): Quad
    requires t.Ready()
    reads t.byteArrays, t.wordArrays
  {
    Quad(ForwardLookup(t, k.x0, B0(y.x0), B1(y.x1), B2(y.x2), B3(y.x3)),
         ForwardLookup(t, k.x1, B0(y.x1), B1(y.x2), B2(y.x3), B3(y.x0)),
         ForwardLookup(t, k.x2, B0(y.x2), B1(y.x3), B2(y.x0), B3(y.x1)),
         ForwardLookup(t, k.x3, B0(y.x3), B1(y.x0), B2(y.x1), B3(y.x2)))
  }

  lemma ForwardStepState(t: Tables, k: Quad, y: Quad)
    requires t.Ready()
    ensures StateOf(ForwardStep(t, k, y))
         == AddRoundKey(MixColumns(ShiftRows(SubBytes(StateOf(y)))), StateOf(k))
  {
    hide ForwardLookup, ForwardWord, SBox, B0, B1, B2, B3, TableUpTo, SBoxTables, Rcon, StateOf,
      AddRoundKey, MixColumns, ShiftRows, SubBytes;
    ForwardLookupIs(t, k.x0, B0(y.x0), B1(y.x1), B2(y.x2), B3(y.x3));
    ForwardLookupIs(t, k.x1, B0(y.x1), B1(y.x2), B2(y.x3), B3(y.x0));
    ForwardLookupIs(t, k.x2, B0(y.x2), B1(y.x3), B2(y.x0), B3(y.x1));
    ForwardLookupIs(t, k.x3, B0(y.x3), B1(y.x0), B2(y.x1), B3(y.x2));
    ForwardRoundState(k, y);
  }

  /** A word of AES_RROUND. */
  function ReverseLookup(t: Tables, k: bv32, a: bv8, b: bv8, c: bv8, d: bv8): bv32
    requires t.Ready()
    reads t.byteArrays, t.wordArrays
  {
    TableSum(k, t.rt0[Index(a)], t.rt1[Index(b)], t.rt2[Index(c)], t.rt3[Index(d)])
  }

  lemma ReverseLookupIs(t: Tables, k: bv32, a: bv8, b: bv8, c: bv8, d: bv8)
    requires t.Ready()
    ensures ReverseLookup(t, k, a, b, c, d) == ReverseWord(k, InvSBox(a), InvSBox(b), InvSBox(c), InvSBox(d))
  {
    hide TableSum, Index, SBox, InvSBox, Rotl8, InverseColumn, SBoxTables, Rcon;
    TableLookup(t.rt0[..], t.rt1[..], t.rt2[..], t.rt3[..], Backward, a);
    TableLookup(t.rt0[..], t.rt1[..], t.rt2[..], t.rt3[..], Backward, b);
    TableLookup(t.rt0[..], t.rt1[..], t.rt2[..], t.rt3[..], Backward, c);
    TableLookup(t.rt0[..], t.rt1[..], t.rt2[..], t.rt3[..], Backward, d);
  }

  function ReverseStep(t: Tables, k: Quad, y: Quad): Quad
    requires t.Ready()
    reads t.byteArrays, t.wordArrays
  {
    Quad(ReverseLookup(t, k.x0, B0(y.x0), B1(y.x3), B2(y.x2), B3(y.x1)),
         ReverseLookup(t, k.x1, B0(y.x1), B1(y.x0), B2(y.x3), B3(y.x2)),
         ReverseLookup(t, k.x2, B0(y.x2), B1(y.x1), B2(y.x0), B3(y.x3)),
         ReverseLookup(t, k.x3, B0(y.x3), B1(y.x2), B2(y.x1), B3(y.x0)))
  }

  lemma ReverseStepState(t: Tables, k: Quad, y: Quad)
    requires t.Ready()
    ensures StateOf(ReverseStep(t, k, y))
         == AddRoundKey(InvMixColumns(InvShiftRows(InvSubBytes(StateOf(y)))), StateOf(k))
  {
    hide ReverseLookup, ReverseWord, InvSBox, B0, B1, B2, B3, TableUpTo, SBoxTables, Rcon, StateOf,
      AddRoundKey, InvMixColumns, InvShiftRows, InvSubBytes;
    ReverseLookupIs(t, k.x0, B0(y.x0), B1(y.x3), B2(y.x2), B3(y.x1));
    ReverseLookupIs(t, k.x1, B0(y.x1), B1(y.x0), B2(y.x3), B3(y.x2));
    ReverseLookupIs(t, k.x2, B0(y.x2), B1(y.x1), B2(y.x0), B3(y.x3));
    ReverseLookupIs(t, k.x3, B0(y.x3), B1(y.x2), B2(y.x1), B3(y.x0));
    ReverseRoundState(k, y);
  }

  function ForwardFinal(t: Tables, k: Quad, y: Quad): Quad
    requires t.Ready()
    reads t.byteArrays, t.wordArrays
  {
    Quad(SubWordExpr(t.fsb[..], k.x0, B0(y.x0), B1(y.x1), B2(y.x2), B3(y.x3)),
         SubWordExpr(t.fsb[..], k.x1, B0(y.x1), B1(y.x2), B2(y.x3), B3(y.x0)),
         SubWordExpr(t.fsb[..], k.x2, B0(y.x2), B1(y.x3), B2(y.x0), B3(y.x1)),
         SubWordExpr(t.fsb[..], k.x3, B0(y.x3), B1(y.x0), B2(y.x1), B3(y.x2)))
  }

  function ReverseFinal(t: Tables, k: Quad, y: Quad): Quad
    requires t.Ready()
    reads t.byteArrays, t.wordArrays
  {
    Quad(SubWordExpr(t.rsb[..], k.x0, B0(y.x0), B1(y.x3), B2(y.x2), B3(y.x1)),
         SubWordExpr(t.rsb[..], k.x1, B0(y.x1), B1(y.x0), B2(y.x3), B3(y.x2)),
         SubWordExpr(t.rsb[..], k.x2, B0(y.x2), B1(y.x1), B2(y.x0), B3(y.x3)),
         SubWordExpr(t.rsb[..], k.x3, B0(y.x3), B1(y.x2), B2(y.x1), B3(y.x0)))
  }

  lemma ForwardFinalState(t: Tables, k: Quad, y: Quad)
    requires t.Ready()
    ensures StateOf(ForwardFinal(t, k, y)) == AddRoundKey(ShiftRows(SubBytes(StateOf(y))), StateOf(k))
  {
    hide LastWord, Index, SBox, B0, B1, B2, B3, StateOf, AddRoundKey, ShiftRows, SubBytes, TableUpTo;
    LookupWord(t, y.x0); LookupWord(t, y.x1); LookupWord(t, y.x2); LookupWord(t, y.x3);
    ForwardLastState(k, y);
  }

  lemma LookupWord(t: Tables, w: bv32)
    requires t.Ready()
    ensures t.fsb[Index(B0(w))] == SBox(B0(w)) && t.rsb[Index(B0(w))] == InvSBox(B0(w))
    ensures t.fsb[Index(B1(w))] == SBox(B1(w)) && t.rsb[Index(B1(w))] == InvSBox(B1(w))
    ensures t.fsb[Index(B2(w))] == SBox(B2(w)) && t.rsb[Index(B2(w))] == InvSBox(B2(w))
    ensures t.fsb[Index(B3(w))] == SBox(B3(w)) && t.rsb[Index(B3(w))] == InvSBox(B3(w))
  {
    hide SBox, InvSBox, B0, B1, B2, B3, Index, Rcon, TableUpTo;
    var (f, r) := (t.fsb[..], t.rsb[..]);
    SBoxLookup(f, r, B0(w)); SBoxLookup(f, r, B1(w)); SBoxLookup(f, r, B2(w)); SBoxLookup(f, r, B3(w));
  }

  lemma ReverseFinalState(t: Tables, k: Quad, y: Quad)
    requires t.Ready()
    ensures StateOf(ReverseFinal(t, k, y)) == AddRoundKey(InvShiftRows(InvSubBytes(StateOf(y))), StateOf(k))
  {
    hide LastWord, Index, InvSBox, B0, B1, B2, B3, StateOf, AddRoundKey, InvShiftRows, InvSubBytes, TableUpTo;
    LookupWord(t, y.x0); LookupWord(t, y.x1); LookupWord(t, y.x2); LookupWord(t, y.x3);
    ReverseLastState(k, y);
  }

  // ---------------------------------------------------------------- the context

  lemma QuadKey(rk: seq<bv32>, r: nat)
    requires 4 * r + 4 <= |rk|
    ensures StateOf(KeyQuad(rk, 4 * r)) == RoundKey(rk, r)
  {}

  function QuadXor(x: Quad, y: Quad): Quad {
    Quad(Xor(x.x0, y.x0), Xor(x.x1, y.x1), Xor(x.x2, y.x2), Xor(x.x3, y.x3))
  }

  lemma QuadXorState(x: Quad, y: Quad)
    ensures StateOf(QuadXor(x, y)) == AddRoundKey(StateOf(x), StateOf(y))
  {
    hide Xor, B0, B1, B2, B3, Add;
    XorBytesAdd(x.x0, y.x0); XorBytesAdd(x.x1, y.x1); XorBytesAdd(x.x2, y.x2); XorBytesAdd(x.x3, y.x3);
  }

  lemma CipherStateStart(rk: seq<bv32>, input: Quad)
    requires |rk| >= 4
    ensures StateOf(QuadXor(input, KeyQuad(rk, 0))) == CipherState(rk, StateOf(input), 0)
  {
    hide StateOf, AddRoundKey, QuadXor, RoundKey;
    QuadXorState(input, KeyQuad(rk, 0));
    QuadKey(rk, 0);
  }

  lemma CipherStateNext(t: Tables, rk: seq<bv32>, input: Quad, y: Quad, r: nat)
    requires t.Ready() && 0 < r && 4 * r + 4 <= |rk|
    requires StateOf(y) == CipherState(rk, StateOf(input), r - 1)
    ensures StateOf(ForwardStep(t, KeyQuad(rk, 4 * r), y)) == CipherState(rk, StateOf(input), r)
  {
    hide StateOf, AddRoundKey, MixColumns, ShiftRows, SubBytes, RoundKey, ForwardStep, SBoxTables, TableUpTo, Rcon;
    QuadKey(rk, r);
    ForwardStepState(t, KeyQuad(rk, 4 * r), y);
  }

  lemma CipherLast(t: Tables, rk: seq<bv32>, input: Quad, y: Quad, nr: nat)
    requires t.Ready() && 0 < nr && 4 * nr + 4 <= |rk|
    requires StateOf(y) == CipherState(rk, StateOf(input), nr - 1)
    ensures StateOf(ForwardFinal(t, KeyQuad(rk, 4 * nr), y)) == Cipher(rk, nr, StateOf(input))
  {
    hide StateOf, AddRoundKey, MixColumns, ShiftRows, SubBytes, RoundKey, ForwardFinal, SBoxTables, TableUpTo, Rcon;
    QuadKey(rk, nr);
    ForwardFinalState(t, KeyQuad(rk, 4 * nr), y);
  }

  lemma InvCipherStateStart(rk: seq<bv32>, input: Quad)
    requires |rk| >= 4
    ensures StateOf(QuadXor(input, KeyQuad(rk, 0))) == InvCipherState(rk, StateOf(input), 0)
  {
    hide StateOf, AddRoundKey, QuadXor, RoundKey;
    QuadXorState(input, KeyQuad(rk, 0));
    QuadKey(rk, 0);
  }

  lemma InvCipherStateNext(t: Tables, rk: seq<bv32>, input: Quad, y: Quad, r: nat)
    requires t.Ready() && 0 < r && 4 * r + 4 <= |rk|
    requires StateOf(y) == InvCipherState(rk, StateOf(input), r - 1)
    ensures StateOf(ReverseStep(t, KeyQuad(rk, 4 * r), y)) == InvCipherState(rk, StateOf(input), r)
  {
    hide StateOf, AddRoundKey, InvMixColumns, InvShiftRows, InvSubBytes, RoundKey, ReverseStep, SBoxTables, TableUpTo, Rcon;
    QuadKey(rk, r);
    ReverseStepState(t, KeyQuad(rk, 4 * r), y);
  }

  lemma InvCipherLast(t: Tables, rk: seq<bv32>, input: Quad, y: Quad, nr: nat)
    requires t.Ready() && 0 < nr && 4 * nr + 4 <= |rk|
    requires StateOf(y) == InvCipherState(rk, StateOf(input), nr - 1)
    ensures StateOf(ReverseFinal(t, KeyQuad(rk, 4 * nr), y)) == InvCipher(rk, nr, StateOf(input))
  {
    hide StateOf, AddRoundKey, InvMixColumns, InvShiftRows, InvSubBytes, RoundKey, ReverseFinal, SBoxTables, TableUpTo, Rcon;
    QuadKey(rk, nr);
    ReverseFinalState(t, KeyQuad(rk, 4 * nr), y);
  }

  // ---------------------------------------------------------------- the decryption schedule

  /** A schedule word through the inverse tables; the S-box lookup cancels the one inside them. */
  function InvMixWord(t: Tables, w: bv32): bv32
    requires t.Ready()
    reads t.byteArrays, t.wordArrays
  {
    Xor(Xor(Xor(t.rt0[Index(t.fsb[Index(B0(w))])], t.rt1[Index(t.fsb[Index(B1(w))])]),
            t.rt2[Index(t.fsb[Index(B2(w))])]), t.rt3[Index(t.fsb[Index(B3(w))])])
  }

  lemma XorZero(w: bv32)
    ensures Xor(0, w) == w
  {}

  lemma ZeroColumn(c: Column)
    ensures AddColumn(c, ColumnOf(0)) == c
  {
    assert ColumnOf(0) == Column(0, 0, 0, 0);
  }

  lemma InvMixWordColumn(t: Tables, w: bv32)
    requires t.Ready()
    ensures ColumnOf(InvMixWord(t, w)) == InvMixColumn(ColumnOf(w))
  {
    hide Xor, B0, B1, B2, B3, Index, SBox, InvSBox, TableUpTo, Rcon, ReverseWord, InvMixColumn, AddColumn;
    var (a, b, c, d) := (t.fsb[Index(B0(w))], t.fsb[Index(B1(w))], t.fsb[Index(B2(w))], t.fsb[Index(B3(w))]);
    LookupWord(t, w);
    InvSBoxSBox(B0(w)); InvSBoxSBox(B1(w)); InvSBoxSBox(B2(w)); InvSBoxSBox(B3(w));
    ReverseLookupIs(t, 0, a, b, c, d);
    XorZero(InverseFirst(t, a));
    ReverseWordColumn(0, B0(w), B1(w), B2(w), B3(w));
    ZeroColumn(InvMixColumn(ColumnOf(w)));
  }

  function InverseFirst(t: Tables, a: bv8): bv32
    requires t.Ready()
    reads t.byteArrays, t.wordArrays
  {
    t.rt0[Index(a)]
  }

  /** Column j of the decryption schedule. */
  function InverseKeyColumn(sk: seq<bv32>, nr: nat, j: nat): Column
    requires 4 * nr + 4 <= |sk| && j < 4 * nr + 4
  {
    var c := ColumnOf(sk[4 * (nr - j / 4) + j % 4]);
    if j < 4 || j >= 4 * nr then c else InvMixColumn(c)
  }

  ghost predicate InverseFilled(dk: seq<bv32>, sk: seq<bv32>, nr: nat, n: nat) {
    && 4 * nr + 4 <= |sk| && |dk| == 68 && n <= 4 * nr + 4 <= 68
    && forall j :: 0 <= j < n ==> ColumnOf(dk[j]) == InverseKeyColumn(sk, nr, j)
  }

  lemma InverseFillOne(dk: seq<bv32>, sk: seq<bv32>, nr: nat, r: nat, c: nat, w: bv32)
    requires c < 4 && r <= nr && InverseFilled(dk, sk, nr, 4 * r + c)
    requires ColumnOf(w) == if 0 < r < nr then InvMixColumn(ColumnOf(sk[4 * (nr - r) + c])) else ColumnOf(sk[4 * (nr - r) + c])
    ensures InverseFilled(dk[4 * r + c := w], sk, nr, 4 * r + c + 1)
  {
    hide ColumnOf, InvMixColumn;
    assert (4 * r + c) / 4 == r && (4 * r + c) % 4 == c;
  }

  lemma InverseFilledSchedule(dk: seq<bv32>, sk: seq<bv32>, nr: nat)
    requires InverseFilled(dk, sk, nr, 4 * nr + 4) && nr > 0
    ensures IsInverseSchedule(dk, sk, nr)
  {
    hide ColumnOf, InvMixColumn;
    forall r | 0 <= r <= nr
      ensures RoundKey(dk, r) == if 0 < r < nr then InvMixColumns(RoundKey(sk, nr - r)) else RoundKey(sk, nr - r)
    {
      assert (4 * r) / 4 == r && (4 * r + 1) / 4 == r && (4 * r + 2) / 4 == r && (4 * r + 3) / 4 == r;
      assert ColumnOf(dk[4 * r]) == InverseKeyColumn(sk, nr, 4 * r);
      assert ColumnOf(dk[4 * r + 1]) == InverseKeyColumn(sk, nr, 4 * r + 1);
      assert ColumnOf(dk[4 * r + 2]) == InverseKeyColumn(sk, nr, 4 * r + 2);
      assert ColumnOf(dk[4 * r + 3]) == InverseKeyColumn(sk, nr, 4 * r + 3);
    }
  }

  lemma ScheduleIsExpanded(dk: seq<bv32>, sk: seq<bv32>, key: seq<bv8>, nk: nat, nr: nat)
    requires Filled(sk, key, nk, 4 * (nr + 1)) && IsInverseSchedule(dk, sk, nr)
    ensures IsInverseSchedule(dk, Expanded(key, nk, 4 * (nr + 1)), nr)
  {
    hide ColumnOf, InvMixColumns, ExpandedWord;
    var w := Expanded(key, nk, 4 * (nr + 1));
    forall r | 0 <= r <= nr ensures RoundKey(w, r) == RoundKey(sk, r) {}
  }

  class Context {
    const buf: array<bv32>
    var nr: nat

    ghost predicate Keyed()
      reads this
    {
      buf.Length == 68 && (nr == 10 || nr == 12 || nr == 14)
    }

    constructor Init()
      ensures fresh(buf) && buf.Length == 68 && nr == 0
    {
      buf := new bv32[68](_ => 0);
      nr := 0;
    }

    /** The rounds of utils_internal_aes_encrypt; the key cursor ends after 4 * (nr + 1) words. */
    method EncryptQuad(t: Tables, input: Quad) returns (x: Quad, rk: nat)
      requires Keyed() && t.Ready()
      ensures StateOf(x) == Cipher(buf[..], nr, StateOf(input))
      ensures rk == 4 * (nr + 1) <= buf.Length
    {
      hide StateOf, AddRoundKey, MixColumns, ShiftRows, SubBytes, RoundKey, QuadXor, ForwardStep, ForwardFinal;
      hide SBoxTables, TableUpTo, Rcon;
      CipherStateStart(buf[..], input);
      x := QuadXor(input, KeyQuad(buf[..], 0));
      rk := 4;
      ghost var r := 1;
      var i := nr / 2 - 1;
      while i > 0
        invariant 0 <= i && r == nr - 2 * i - 1 && rk == 4 * r
        invariant StateOf(x) == CipherState(buf[..], StateOf(input), r - 1)
      {
        CipherStateNext(t, buf[..], input, x, r);
        var y := ForwardStep(t, KeyQuad(buf[..], rk), x);
        CipherStateNext(t, buf[..], input, y, r + 1);
        x := ForwardStep(t, KeyQuad(buf[..], rk + 4), y);
        rk, r, i := rk + 8, r + 2, i - 1;
      }
      CipherStateNext(t, buf[..], input, x, r);
      var y := ForwardStep(t, KeyQuad(buf[..], rk), x);
      CipherLast(t, buf[..], input, y, nr);
      x := ForwardFinal(t, KeyQuad(buf[..], rk + 4), y);
      rk := rk + 8;
    }

    /** The rounds of utils_internal_aes_decrypt. */
    method DecryptQuad(t: Tables, input: Quad) returns (x: Quad, rk: nat)
      requires Keyed() && t.Ready()
      ensures StateOf(x) == InvCipher(buf[..], nr, StateOf(input))
      ensures rk == 4 * (nr + 1) <= buf.Length
    {
      hide StateOf, AddRoundKey, InvMixColumns, InvShiftRows, InvSubBytes, RoundKey, QuadXor, ReverseStep, ReverseFinal;
      hide SBoxTables, TableUpTo, Rcon;
      InvCipherStateStart(buf[..], input);
      x := QuadXor(input, KeyQuad(buf[..], 0));
      rk := 4;
      ghost var r := 1;
      var i := nr / 2 - 1;
      while i > 0
        invariant 0 <= i && r == nr - 2 * i - 1 && rk == 4 * r
        invariant StateOf(x) == InvCipherState(buf[..], StateOf(input), r - 1)
      {
        InvCipherStateNext(t, buf[..], input, x, r);
        var y := ReverseStep(t, KeyQuad(buf[..], rk), x);
        InvCipherStateNext(t, buf[..], input, y, r + 1);
        x := ReverseStep(t, KeyQuad(buf[..], rk + 4), y);
        rk, r, i := rk + 8, r + 2, i - 1;
      }
      InvCipherStateNext(t, buf[..], input, x, r);
      var y := ReverseStep(t, KeyQuad(buf[..], rk), x);
      InvCipherLast(t, buf[..], input, y, nr);
      x := ReverseFinal(t, KeyQuad(buf[..], rk + 4), y);
      rk := rk + 8;
    }

    // ---------------------------------------------------------------- key schedules

    /** Holds the encryption schedule of a key of nk words. */
    ghost predicate HoldsCipherKey(key: seq<bv8>, nk: nat)
      reads this, buf
    {
      ValidKey(key, nk) && nr == nk + 6 && Filled(buf[..], key, nk, 4 * (nr + 1))
    }

    /** Holds the schedule of the Equivalent Inverse Cipher for that key. */
    ghost predicate HoldsInverseKey(key: seq<bv8>, nk: nat)
      reads this, buf
    {
      && ValidKey(key, nk) && nr == nk + 6 && buf.Length == 68
      && IsInverseSchedule(buf[..], Expanded(key, nk, 4 * (nr + 1)), nr)
    }

    method SetKeyEnc(t: Tables, key: seq<bv8>, keybits: nat) returns (ret: int)
      requires t.Ready() && buf.Length == 68 && buf !in t.wordArrays
      requires KeyBits(keybits) ==> 8 * |key| >= keybits
      modifies this, buf
      ensures t.Ready()
      ensures !KeyBits(keybits) ==> ret == INVALID_KEY_LENGTH == -0x0020 && nr == old(nr) && buf[..] == old(buf[..])
      ensures KeyBits(keybits) ==> ret == 0 && HoldsCipherKey(key[..keybits / 8], keybits / 32)
    {
      hide SBoxTables, TableUpTo, Rcon, Pack;
      if keybits == 128 { nr := 10; } else if keybits == 192 { nr := 12; } else if keybits == 256 { nr := 14; }
      else { return INVALID_KEY_LENGTH; }
      var nk := keybits / 32;
      ghost var k := key[..keybits / 8];
      LoadKey(key, buf, k, nk);
      hide Filled;
      ExpandKey(t.fsb[..], t.rsb[..], t.rcon[..], buf, k, nk, if nk == 4 then 10 else if nk == 6 then 8 else 7);
      ret := 0;
    }

    method SetKeyDec(t: Tables, key: seq<bv8>, keybits: nat) returns (ret: int)
      requires t.Ready() && buf.Length == 68 && buf !in t.wordArrays
      requires KeyBits(keybits) ==> 8 * |key| >= keybits
      modifies this, buf
      ensures t.Ready()
      ensures !KeyBits(keybits) ==> ret == INVALID_KEY_LENGTH == -0x0020 && nr == old(nr) && buf[..] == old(buf[..])
      ensures KeyBits(keybits) ==> ret == 0 && HoldsInverseKey(key[..keybits / 8], keybits / 32)
    {
      hide SBoxTables, TableUpTo, Rcon, ColumnOf, InvMixWord, InvMixColumn;
      var cty := new Context.Init();
      ret := cty.SetKeyEnc(t, key, keybits);
      if ret != 0 { return; }
      nr := cty.nr;
      var w := cty.buf[..];
      InverseKeyLoop(t, w);
      ScheduleIsExpanded(buf[..], w, key[..keybits / 8], keybits / 32, nr);
    }

    /** Copies the last round key, then the middle ones through InvMixColumns, then the first. */
    method InverseKeyLoop(t: Tables, w: seq<bv32>)
      requires t.Ready() && buf.Length == 68 && buf !in t.wordArrays && |w| == 68 && 0 < nr <= 16
      modifies buf
      ensures t.Ready() && IsInverseSchedule(buf[..], w, nr)
    {
      hide SBoxTables, TableUpTo, Rcon, ColumnOf, InvMixWord, InvMixColumn, InverseKeyColumn;
      var rk, sk := 0, 4 * nr;
      for c := 0 to 4
        invariant t.Ready() && rk == c && sk == 4 * nr + c && InverseFilled(buf[..], w, nr, c)
      {
        InverseFillOne(buf[..], w, nr, 0, c, w[sk]);
        buf[rk] := w[sk];
        rk, sk := rk + 1, sk + 1;
      }
      var i := nr - 1;
      sk := sk - 8;
      while i > 0
        invariant t.Ready() && 0 <= i < nr && rk == 4 * (nr - i) && sk == 4 * i && InverseFilled(buf[..], w, nr, rk)
      {
        for c := 0 to 4
          invariant t.Ready() && rk == 4 * (nr - i) + c && sk == 4 * i + c && InverseFilled(buf[..], w, nr, rk)
        {
          InvMixWordColumn(t, w[sk]);
          InverseFillOne(buf[..], w, nr, nr - i, c, InvMixWord(t, w[sk]));
          buf[rk] := InvMixWord(t, w[sk]);
          rk, sk := rk + 1, sk + 1;
        }
        i, sk := i - 1, sk - 8;
      }
      for c := 0 to 4
        invariant t.Ready() && rk == 4 * nr + c && sk == c && InverseFilled(buf[..], w, nr, rk)
      {
        InverseFillOne(buf[..], w, nr, nr, c, w[sk]);
        buf[rk] := w[sk];
        rk, sk := rk + 1, sk + 1;
      }
      InverseFilledSchedule(buf[..], w, nr);
    }
  }

  predicate KeyBits(n: nat) { n == 128 || n == 192 || n == 256 }

  // ---------------------------------------------------------------- blocks in buffers

  /** The block functions that a context computes with its schedule. */
  function EncryptWith(rk: seq<bv32>, nr: nat): Block -> Block
    requires nr > 0 && 4 * nr + 4 <= |rk|
  {
    (b: Block) => FromState(Cipher(rk, nr, ToState(b)))
  }

  function DecryptWith(dk: seq<bv32>, nr: nat): Block -> Block
    requires nr > 0 && 4 * nr + 4 <= |dk|
  {
    (b: Block) => FromState(InvCipher(dk, nr, ToState(b)))
  }

  lemma PackColumn(a: bv8, b: bv8, c: bv8, d: bv8)
    ensures ColumnOf(Pack(a, b, c, d)) == Column(a, b, c, d)
  {
    hide Pack, B0, B1, B2, B3;
    PackBytes(a, b, c, d);
  }

  /** GET_UINT32_LE on the four words of a block. */
  function Load(b: Block): Quad {
    Quad(Pack(b[0], b[1], b[2], b[3]), Pack(b[4], b[5], b[6], b[7]),
         Pack(b[8], b[9], b[10], b[11]), Pack(b[12], b[13], b[14], b[15]))
  }

  lemma LoadState(b: Block)
    ensures StateOf(Load(b)) == ToState(b)
  {
    hide Pack, ColumnOf;
    PackColumn(b[0], b[1], b[2], b[3]); PackColumn(b[4], b[5], b[6], b[7]);
    PackColumn(b[8], b[9], b[10], b[11]); PackColumn(b[12], b[13], b[14], b[15]);
  }

  /** PUT_UINT32_LE on the four words of a block. */
  function Store(x: Quad): Block {
    [B0(x.x0), B1(x.x0), B2(x.x0), B3(x.x0)] + [B0(x.x1), B1(x.x1), B2(x.x1), B3(x.x1)] +
    [B0(x.x2), B1(x.x2), B2(x.x2), B3(x.x2)] + [B0(x.x3), B1(x.x3), B2(x.x3), B3(x.x3)]
  }

  lemma StoreState(x: Quad)
    ensures Store(x) == FromState(StateOf(x))
  {
    hide B0, B1, B2, B3;
  }

  function Splice(s: seq<bv8>, at: nat, b: Block): seq<bv8>
    requires at + 16 <= |s|
  {
    s[..at] + b + s[at + 16..]
  }

  method PutBlock(a: array<bv8>, at: nat, b: Block)
    requires at + 16 <= a.Length
    modifies a
    ensures a[..] == Splice(old(a[..]), at, b)
  {
    for i := 0 to 16
      invariant a[..] == old(a[..])[..at] + b[..i] + old(a[..])[at + i..]
    {
      a[at + i] := b[i];
    }
  }

  /** utils_aes_crypt_ecb: the block function of each mode. */
  function BlockFunction(mode: Mode, rk: seq<bv32>, nr: nat): Block -> Block
    requires nr > 0 && 4 * nr + 4 <= |rk|
  {
    if mode.Encrypt? then EncryptWith(rk, nr) else DecryptWith(rk, nr)
  }

  ghost predicate ComputesOn(mode: Mode, rk: seq<bv32>, nr: nat, f: Block -> Block, b: Block)
    requires nr > 0 && 4 * nr + 4 <= |rk|
  {
    f(b) == BlockFunction(mode, rk, nr)(b)
  }

  /** A context computes f when its schedule gives f on every block. */
  ghost predicate Computes(mode: Mode, rk: seq<bv32>, nr: nat, f: Block -> Block) {
    nr > 0 && 4 * nr + 4 <= |rk| && forall b: Block :: ComputesOn(mode, rk, nr, f, b)
  }

  /** One block from each buffer; the two may be the same. */
  method CryptEcb(ctx: Context, t: Tables, mode: Mode, input: array<bv8>, at: nat, output: array<bv8>, to: nat,
                  ghost f: Block -> Block)
    requires ctx.Keyed() && t.Ready() && Computes(mode, ctx.buf[..], ctx.nr, f)
    requires at + 16 <= input.Length && to + 16 <= output.Length
    modifies output
    ensures output[..] == Splice(old(output[..]), to, f(old(input[at..at + 16])))
  {
    hide Cipher, InvCipher, StateOf, ToState, FromState, Store, Load, SBoxTables, TableUpTo, Rcon;
    var block: Block := input[at..at + 16];
    assert ComputesOn(mode, ctx.buf[..], ctx.nr, f, block);
    LoadState(block);
    var x, rk;
    if mode.Encrypt? {
      x, rk := ctx.EncryptQuad(t, Load(block));
    } else {
      x, rk := ctx.DecryptQuad(t, Load(block));
    }
    StoreState(x);
    assert Store(x) == f(block);
    PutBlock(output, to, Store(x));
  }

  // ---------------------------------------------------------------- the block theorem

  lemma {:induction false} CipherStateAgrees(rk: seq<bv32>, w: seq<bv32>, input: State, r: nat)
    requires 4 * r + 4 <= |rk| && 4 * r + 4 <= |w|
    requires forall i :: 0 <= i < 4 * r + 4 ==> rk[i] == w[i]
    ensures CipherState(rk, input, r) == CipherState(w, input, r)
  {
    hide AddRoundKey, MixColumns, ShiftRows, SubBytes;
    if r > 0 { CipherStateAgrees(rk, w, input, r - 1); }
  }

  /** The cipher computed from the 68-word buffer is FIPS 197 on the expanded key. */
  lemma CipherOfKey(rk: seq<bv32>, key: seq<bv8>, nk: nat, input: State)
    requires Filled(rk, key, nk, 4 * (nk + 7))
    ensures Cipher(rk, nk + 6, input) == Cipher(Expanded(key, nk, 4 * (nk + 7)), nk + 6, input)
  {
    hide AddRoundKey, ShiftRows, SubBytes, ColumnOf, ExpandedWord;
    CipherStateAgrees(rk, Expanded(key, nk, 4 * (nk + 7)), input, nk + 5);
  }

  // ---------------------------------------------------------------- by key

  /** The cipher of a key: FIPS 197 on its expansion. */
  function KeyCipher(key: seq<bv8>, nk: nat): Block -> Block
    requires ValidKey(key, nk)
  {
    EncryptWith(Expanded(key, nk, 4 * (nk + 7)), nk + 6)
  }

  /** The schedule of the Equivalent Inverse Cipher, column by column. */
  function InverseSchedule(rk: seq<bv32>, nr: nat): (dk: seq<bv32>)
    requires 4 * nr + 4 <= |rk|
    ensures |dk| == 4 * nr + 4
  {
    seq(4 * nr + 4, j requires 0 <= j < 4 * nr + 4 =>
      var c := InverseKeyColumn(rk, nr, j); Pack(c.r0, c.r1, c.r2, c.r3))
  }

  function KeyDecipher(key: seq<bv8>, nk: nat): Block -> Block
    requires ValidKey(key, nk)
  {
    DecryptWith(InverseSchedule(Expanded(key, nk, 4 * (nk + 7)), nk + 6), nk + 6)
  }

  lemma InverseScheduleColumn(rk: seq<bv32>, nr: nat, j: nat)
    requires 4 * nr + 4 <= |rk| && j < 4 * nr + 4
    ensures ColumnOf(InverseSchedule(rk, nr)[j]) == InverseKeyColumn(rk, nr, j)
  {
    hide ColumnOf, Pack, InverseKeyColumn;
    var c := InverseKeyColumn(rk, nr, j);
    PackColumn(c.r0, c.r1, c.r2, c.r3);
  }

  lemma InverseScheduleIs(rk: seq<bv32>, nr: nat)
    requires 0 < nr <= 16 && 4 * nr + 4 <= |rk|
    ensures IsInverseSchedule(InverseSchedule(rk, nr), rk, nr)
  {
    hide ColumnOf, InverseSchedule, InverseKeyColumn, IsInverseSchedule;
    var dk := InverseSchedule(rk, nr);
    var padded := dk + seq(68 - |dk|, _ => 0);
    forall j | 0 <= j < 4 * nr + 4 ensures ColumnOf(padded[j]) == InverseKeyColumn(rk, nr, j) {
      InverseScheduleColumn(rk, nr, j);
    }
    InverseFilledSchedule(padded, rk, nr);
    SameRoundKeys(padded, dk, rk, nr);
  }

  lemma SameRoundKeys(padded: seq<bv32>, dk: seq<bv32>, rk: seq<bv32>, nr: nat)
    requires |dk| == 4 * nr + 4 && dk <= padded && IsInverseSchedule(padded, rk, nr)
    ensures IsInverseSchedule(dk, rk, nr)
  {
    hide ColumnOf, InvMixColumns;
    forall r | 0 <= r <= nr ensures RoundKey(dk, r) == RoundKey(padded, r) {}
  }

  lemma {:induction false} InvCipherStateAgrees(dk: seq<bv32>, ek: seq<bv32>, rk: seq<bv32>, nr: nat, input: State, r: nat)
    requires IsInverseSchedule(dk, rk, nr) && IsInverseSchedule(ek, rk, nr) && r < nr
    ensures InvCipherState(dk, input, r) == InvCipherState(ek, input, r)
  {
    hide AddRoundKey, InvMixColumns, InvShiftRows, InvSubBytes, RoundKey;
    if r > 0 { InvCipherStateAgrees(dk, ek, rk, nr, input, r - 1); }
  }

  /** A keyed context computes the cipher of its key on every block. */
  lemma ContextComputesCipher(rk: seq<bv32>, key: seq<bv8>, nk: nat)
    requires Filled(rk, key, nk, 4 * (nk + 7))
    ensures Computes(Encrypt, rk, nk + 6, KeyCipher(key, nk))
  {
    hide Cipher, ToState, FromState, Expanded, ExpandedWord;
    var (nr, f) := (nk + 6, KeyCipher(key, nk));
    forall b: Block ensures ComputesOn(Encrypt, rk, nr, f, b) {
      CipherOfKey(rk, key, nk, ToState(b));
    }
  }

  lemma ContextComputesDecipher(dk: seq<bv32>, key: seq<bv8>, nk: nat)
    requires ValidKey(key, nk) && IsInverseSchedule(dk, Expanded(key, nk, 4 * (nk + 7)), nk + 6)
    ensures Computes(Decrypt, dk, nk + 6, KeyDecipher(key, nk))
  {
    assert 4 * (nk + 6) + 4 <= |dk|;
    hide ToState, FromState, Expanded, ExpandedWord, InverseSchedule, InvCipher, IsInverseSchedule;
    var (w, nr, f) := (Expanded(key, nk, 4 * (nk + 7)), nk + 6, KeyDecipher(key, nk));
    var ek := InverseSchedule(w, nr);
    InverseScheduleIs(w, nr);
    forall b: Block ensures ComputesOn(Decrypt, dk, nr, f, b) {
      InvCipherAgrees(dk, ek, w, nr, ToState(b));
    }
  }

  lemma InvCipherAgrees(dk: seq<bv32>, ek: seq<bv32>, rk: seq<bv32>, nr: nat, input: State)
    requires IsInverseSchedule(dk, rk, nr) && IsInverseSchedule(ek, rk, nr)
    ensures nr > 0 && 4 * nr + 4 <= |dk| && 4 * nr + 4 <= |ek| && InvCipher(dk, nr, input) == InvCipher(ek, nr, input)
  {
    hide AddRoundKey, InvShiftRows, InvSubBytes, InvMixColumns, RoundKey, InvCipherState;
    InvCipherStateAgrees(dk, ek, rk, nr, input, nr - 1);
  }

  /** For every key of 128, 192 or 256 bits and every block, deciphering undoes ciphering. */
  lemma DecipherCipher(key: seq<bv8>, nk: nat, b: Block)
    requires ValidKey(key, nk)
    ensures KeyDecipher(key, nk)(KeyCipher(key, nk)(b)) == b
  {
    hide Cipher, InvCipher, ToState, FromState, IsInverseSchedule, InverseSchedule, Expanded;
    var w := Expanded(key, nk, 4 * (nk + 7));
    InverseScheduleIs(w, nk + 6);
    InvCipherCipher(w, InverseSchedule(w, nk + 6), nk + 6, ToState(b));
    ToFromState(Cipher(w, nk + 6, ToState(b)));
    FromToState(b);
  }
}
