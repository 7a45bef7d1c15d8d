/**
 The rounds of the SDK's table-driven AES, proved equal to the rounds of FIPS 197.
 */
module AesBlock {
  import opened GaloisField
  import opened Words
  import opened FipsAes
  import opened AesTables

  // ---------------------------------------------------------------- words of a table round

  lemma ForwardBytes(a: bv8)
    ensures var w := ForwardColumn(a);
            B0(w) == Mul(0x02, a) && B1(w) == a && B2(w) == a && B3(w) == Mul(0x03, a)
    ensures var w := Rotl8(ForwardColumn(a));
            B0(w) == Mul(0x03, a) && B1(w) == Mul(0x02, a) && B2(w) == a && B3(w) == a
    ensures var w := Rotl8(Rotl8(ForwardColumn(a)));
            B0(w) == a && B1(w) == Mul(0x03, a) && B2(w) == Mul(0x02, a) && B3(w) == a
    ensures var w := Rotl8(Rotl8(Rotl8(ForwardColumn(a))));
            B0(w) == a && B1(w) == a && B2(w) == Mul(0x03, a) && B3(w) == Mul(0x02, a)
  {
    hide Mul, Pack, Rotl8, B0, B1, B2, B3;
    var (p, q) := (Mul(0x02, a), Mul(0x03, a));
    PackBytes(p, a, a, q); PackBytes(q, p, a, a); PackBytes(a, q, p, a); PackBytes(a, a, q, p);
    RotlPack(p, a, a, q); RotlPack(q, p, a, a); RotlPack(a, q, p, a);
  }

  lemma InverseBytes(a: bv8)
    ensures var w := InverseColumn(a);
            B0(w) == Mul(0x0E, a) && B1(w) == Mul(0x09, a) && B2(w) == Mul(0x0D, a) && B3(w) == Mul(0x0B, a)
    ensures var w := Rotl8(InverseColumn(a));
            B0(w) == Mul(0x0B, a) && B1(w) == Mul(0x0E, a) && B2(w) == Mul(0x09, a) && B3(w) == Mul(0x0D, a)
    ensures var w := Rotl8(Rotl8(InverseColumn(a)));
            B0(w) == Mul(0x0D, a) && B1(w) == Mul(0x0B, a) && B2(w) == Mul(0x0E, a) && B3(w) == Mul(0x09, a)
    ensures var w := Rotl8(Rotl8(Rotl8(InverseColumn(a))));
            B0(w) == Mul(0x09, a) && B1(w) == Mul(0x0D, a) && B2(w) == Mul(0x0B, a) && B3(w) == Mul(0x0E, a)
  {
    hide Mul, Pack, Rotl8, B0, B1, B2, B3;
    var (e, b, d, n) := (Mul(0x0E, a), Mul(0x0B, a), Mul(0x0D, a), Mul(0x09, a));
    PackBytes(e, n, d, b); PackBytes(b, e, n, d); PackBytes(d, b, e, n); PackBytes(n, d, b, e);
    RotlPack(e, n, d, b); RotlPack(b, e, n, d); RotlPack(d, b, e, n);
  }

  /** A round key word and one entry of each of the four tables. */
  function TableSum(k: bv32, t0: bv32, t1: bv32, t2: bv32, t3: bv32): bv32 {
    Xor(Xor(Xor(Xor(k, t0), t1), t2), t3)
  }

  lemma TableSumBytes(k: bv32, t0: bv32, t1: bv32, t2: bv32, t3: bv32)
    ensures var w := TableSum(k, t0, t1, t2, t3);
            && B0(w) == Add(Sum4(B0(t0), B0(t1), B0(t2), B0(t3)), B0(k))
            && B1(w) == Add(Sum4(B1(t0), B1(t1), B1(t2), B1(t3)), B1(k))
            && B2(w) == Add(Sum4(B2(t0), B2(t1), B2(t2), B2(t3)), B2(k))
            && B3(w) == Add(Sum4(B3(t0), B3(t1), B3(t2), B3(t3)), B3(k))
  {
    hide Xor, B0, B1, B2, B3, Sum4, Add;
    XorBytesAdd(k, t0); XorBytesAdd(Xor(k, t0), t1);
    XorBytesAdd(Xor(Xor(k, t0), t1), t2); XorBytesAdd(Xor(Xor(Xor(k, t0), t1), t2), t3);
    Sum4Chain(B0(k), B0(t0), B0(t1), B0(t2), B0(t3));
    Sum4Chain(B1(k), B1(t0), B1(t1), B1(t2), B1(t3));
    Sum4Chain(B2(k), B2(t0), B2(t1), B2(t2), B2(t3));
    Sum4Chain(B3(k), B3(t0), B3(t1), B3(t2), B3(t3));
  }

  lemma XorBytesAdd(a: bv32, b: bv32)
    ensures B0(Xor(a, b)) == Add(B0(a), B0(b)) && B1(Xor(a, b)) == Add(B1(a), B1(b))
    ensures B2(Xor(a, b)) == Add(B2(a), B2(b)) && B3(Xor(a, b)) == Add(B3(a), B3(b))
  {
    hide Xor, B0, B1, B2, B3;
    XorBytes(a, b);
  }

  /** A word of AES_FROUND, on the S-box values of the four bytes that it reads. */
  function ForwardWord(k: bv32, a: bv8, b: bv8, c: bv8, d: bv8): bv32 {
    TableSum(k, ForwardColumn(a), Rotl8(ForwardColumn(b)), Rotl8(Rotl8(ForwardColumn(c))),
             Rotl8(Rotl8(Rotl8(ForwardColumn(d)))))
  }

  function ReverseWord(k: bv32, a: bv8, b: bv8, c: bv8, d: bv8): bv32 {
    TableSum(k, InverseColumn(a), Rotl8(InverseColumn(b)), Rotl8(Rotl8(InverseColumn(c))),
             Rotl8(Rotl8(Rotl8(InverseColumn(d)))))
  }

  lemma ForwardWordBytes(k: bv32, a: bv8, b: bv8, c: bv8, d: bv8)
    ensures var w := ForwardWord(k, a, b, c, d);
            && B0(w) == Add(MixByte(a, b, c, d), B0(k)) && B1(w) == Add(MixByte(b, c, d, a), B1(k))
            && B2(w) == Add(MixByte(c, d, a, b), B2(k)) && B3(w) == Add(MixByte(d, a, b, c), B3(k))
  {
    hide Mul, Add, Sum4, B0, B1, B2, B3, Rotl8, ForwardColumn, TableSum;
    ForwardBytes(a); ForwardBytes(b); ForwardBytes(c); ForwardBytes(d);
    TableSumBytes(k, ForwardColumn(a), Rotl8(ForwardColumn(b)), Rotl8(Rotl8(ForwardColumn(c))),
                  Rotl8(Rotl8(Rotl8(ForwardColumn(d)))));
    Sum4Rotate(Mul(0x02, b), Mul(0x03, c), d, a);
    Sum4Rotate(Mul(0x02, c), Mul(0x03, d), a, b); Sum4Rotate(b, Mul(0x02, c), Mul(0x03, d), a);
    Sum4Rotate(b, c, Mul(0x02, d), Mul(0x03, a));
    Sum4Rotate(c, Mul(0x02, d), Mul(0x03, a), b); Sum4Rotate(Mul(0x02, d), Mul(0x03, a), b, c);
    Sum4Rotate(Mul(0x03, a), b, c, Mul(0x02, d));
  }

  lemma ReverseWordBytes(k: bv32, a: bv8, b: bv8, c: bv8, d: bv8)
    ensures var w := ReverseWord(k, a, b, c, d);
            && B0(w) == Add(InvMixByte(a, b, c, d), B0(k)) && B1(w) == Add(InvMixByte(b, c, d, a), B1(k))
            && B2(w) == Add(InvMixByte(c, d, a, b), B2(k)) && B3(w) == Add(InvMixByte(d, a, b, c), B3(k))
  {
    hide Mul, Add, Sum4, B0, B1, B2, B3, Rotl8, InverseColumn, TableSum;
    InverseBytes(a); InverseBytes(b); InverseBytes(c); InverseBytes(d);
    TableSumBytes(k, InverseColumn(a), Rotl8(InverseColumn(b)), Rotl8(Rotl8(InverseColumn(c))),
                  Rotl8(Rotl8(Rotl8(InverseColumn(d)))));
    Sum4Rotate(Mul(0x0E, b), Mul(0x0B, c), Mul(0x0D, d), Mul(0x09, a));
    Sum4Rotate(Mul(0x0E, c), Mul(0x0B, d), Mul(0x0D, a), Mul(0x09, b));
    Sum4Rotate(Mul(0x09, b), Mul(0x0E, c), Mul(0x0B, d), Mul(0x0D, a));
    Sum4Rotate(Mul(0x0E, d), Mul(0x0B, a), Mul(0x0D, b), Mul(0x09, c));
    Sum4Rotate(Mul(0x09, c), Mul(0x0E, d), Mul(0x0B, a), Mul(0x0D, b));
    Sum4Rotate(Mul(0x0D, b), Mul(0x09, c), Mul(0x0E, d), Mul(0x0B, a));
  }

  // ---------------------------------------------------------------- rounds on four words

  datatype Quad = Quad(x0: bv32, x1: bv32, x2: bv32, x3: bv32)

  function StateOf(x: Quad): State { State(ColumnOf(x.x0), ColumnOf(x.x1), ColumnOf(x.x2), ColumnOf(x.x3)) }

  /** AES_FROUND: every output word reads one byte of each input word. */
  function ForwardRound(k: Quad, y: Quad): Quad {
    Quad(ForwardWord(k.x0, SBox(B0(y.x0)), SBox(B1(y.x1)), SBox(B2(y.x2)), SBox(B3(y.x3))),
         ForwardWord(k.x1, SBox(B0(y.x1)), SBox(B1(y.x2)), SBox(B2(y.x3)), SBox(B3(y.x0))),
         ForwardWord(k.x2, SBox(B0(y.x2)), SBox(B1(y.x3)), SBox(B2(y.x0)), SBox(B3(y.x1))),
         ForwardWord(k.x3, SBox(B0(y.x3)), SBox(B1(y.x0)), SBox(B2(y.x1)), SBox(B3(y.x2))))
  }

  /** AES_RROUND. */
  function ReverseRound(k: Quad, y: Quad): Quad {
    Quad(ReverseWord(k.x0, InvSBox(B0(y.x0)), InvSBox(B1(y.x3)), InvSBox(B2(y.x2)), InvSBox(B3(y.x1))),
         ReverseWord(k.x1, InvSBox(B0(y.x1)), InvSBox(B1(y.x0)), InvSBox(B2(y.x3)), InvSBox(B3(y.x2))),
         ReverseWord(k.x2, InvSBox(B0(y.x2)), InvSBox(B1(y.x1)), InvSBox(B2(y.x0)), InvSBox(B3(y.x3))),
         ReverseWord(k.x3, InvSBox(B0(y.x3)), InvSBox(B1(y.x2)), InvSBox(B2(y.x1)), InvSBox(B3(y.x0))))
  }

  lemma ForwardWordColumn(k: bv32, a: bv8, b: bv8, c: bv8, d: bv8)
    ensures ColumnOf(ForwardWord(k, a, b, c, d)) == AddColumn(MixColumn(Column(a, b, c, d)), ColumnOf(k))
  {
    hide MixByte, Add, B0, B1, B2, B3, ForwardWord;
    ForwardWordBytes(k, a, b, c, d);
  }

  lemma ReverseWordColumn(k: bv32, a: bv8, b: bv8, c: bv8, d: bv8)
    ensures ColumnOf(ReverseWord(k, a, b, c, d)) == AddColumn(InvMixColumn(Column(a, b, c, d)), ColumnOf(k))
  {
    hide InvMixByte, Add, B0, B1, B2, B3, ReverseWord;
    ReverseWordBytes(k, a, b, c, d);
  }

  lemma ForwardRoundState(k: Quad, y: Quad)
    ensures StateOf(ForwardRound(k, y)) == AddRoundKey(MixColumns(ShiftRows(SubBytes(StateOf(y)))), StateOf(k))
  {
    hide SBox, B0, B1, B2, B3, ForwardWord, AddColumn, MixColumn;
    ForwardWordColumn(k.x0, SBox(B0(y.x0)), SBox(B1(y.x1)), SBox(B2(y.x2)), SBox(B3(y.x3)));
    ForwardWordColumn(k.x1, SBox(B0(y.x1)), SBox(B1(y.x2)), SBox(B2(y.x3)), SBox(B3(y.x0)));
    ForwardWordColumn(k.x2, SBox(B0(y.x2)), SBox(B1(y.x3)), SBox(B2(y.x0)), SBox(B3(y.x1)));
    ForwardWordColumn(k.x3, SBox(B0(y.x3)), SBox(B1(y.x0)), SBox(B2(y.x1)), SBox(B3(y.x2)));
  }

  lemma ReverseRoundState(k: Quad, y: Quad)
    ensures StateOf(ReverseRound(k, y))
         == AddRoundKey(InvMixColumns(InvShiftRows(InvSubBytes(StateOf(y)))), StateOf(k))
  {
    hide InvSBox, B0, B1, B2, B3, ReverseWord, AddColumn, InvMixColumn;
    ReverseWordColumn(k.x0, InvSBox(B0(y.x0)), InvSBox(B1(y.x3)), InvSBox(B2(y.x2)), InvSBox(B3(y.x1)));
    ReverseWordColumn(k.x1, InvSBox(B0(y.x1)), InvSBox(B1(y.x0)), InvSBox(B2(y.x3)), InvSBox(B3(y.x2)));
    ReverseWordColumn(k.x2, InvSBox(B0(y.x2)), InvSBox(B1(y.x1)), InvSBox(B2(y.x0)), InvSBox(B3(y.x3)));
    ReverseWordColumn(k.x3, InvSBox(B0(y.x3)), InvSBox(B1(y.x2)), InvSBox(B2(y.x1)), InvSBox(B3(y.x0)));
  }

  /** The last round: S-box bytes without mixing. */
  function LastWord(k: bv32, a: bv8, b: bv8, c: bv8, d: bv8): bv32 {
    k ^ Shift0(a) ^ Shift1(b) ^ Shift2(c) ^ Shift3(d)
  }

  lemma LastWordIs(k: bv32, a: bv32, b: bv32, c: bv32, d: bv32)
    ensures k ^ a ^ b ^ c ^ d == (a ^ b ^ c ^ d) ^ k
  {}

  lemma LastWordXor(k: bv32, a: bv8, b: bv8, c: bv8, d: bv8)
    ensures LastWord(k, a, b, c, d) == Xor(Pack(a, b, c, d), k)
  {
    hide Shift0, Shift1, Shift2, Shift3, Pack;
    LastWordIs(k, Shift0(a), Shift1(b), Shift2(c), Shift3(d));
    XorPackIsPack(a, b, c, d);
  }

  lemma LastWordColumn(k: bv32, a: bv8, b: bv8, c: bv8, d: bv8)
    ensures ColumnOf(LastWord(k, a, b, c, d)) == AddColumn(Column(a, b, c, d), ColumnOf(k))
  {
    hide LastWord, Xor, Pack, B0, B1, B2, B3, Add;
    LastWordXor(k, a, b, c, d);
    PackBytes(a, b, c, d);
    XorBytesAdd(Pack(a, b, c, d), k);
  }

  function ForwardLast(k: Quad, y: Quad): Quad {
    Quad(LastWord(k.x0, SBox(B0(y.x0)), SBox(B1(y.x1)), SBox(B2(y.x2)), SBox(B3(y.x3))),
         LastWord(k.x1, SBox(B0(y.x1)), SBox(B1(y.x2)), SBox(B2(y.x3)), SBox(B3(y.x0))),
         LastWord(k.x2, SBox(B0(y.x2)), SBox(B1(y.x3)), SBox(B2(y.x0)), SBox(B3(y.x1))),
         LastWord(k.x3, SBox(B0(y.x3)), SBox(B1(y.x0)), SBox(B2(y.x1)), SBox(B3(y.x2))))
  }

  function ReverseLast(k: Quad, y: Quad): Quad {
    Quad(LastWord(k.x0, InvSBox(B0(y.x0)), InvSBox(B1(y.x3)), InvSBox(B2(y.x2)), InvSBox(B3(y.x1))),
         LastWord(k.x1, InvSBox(B0(y.x1)), InvSBox(B1(y.x0)), InvSBox(B2(y.x3)), InvSBox(B3(y.x2))),
         LastWord(k.x2, InvSBox(B0(y.x2)), InvSBox(B1(y.x1)), InvSBox(B2(y.x0)), InvSBox(B3(y.x3))),
         LastWord(k.x3, InvSBox(B0(y.x3)), InvSBox(B1(y.x2)), InvSBox(B2(y.x1)), InvSBox(B3(y.x0))))
  }

  lemma ForwardLastState(k: Quad, y: Quad)
    ensures StateOf(ForwardLast(k, y)) == AddRoundKey(ShiftRows(SubBytes(StateOf(y))), StateOf(k))
  {
    hide SBox, B0, B1, B2, B3, LastWord, AddColumn;
    LastWordColumn(k.x0, SBox(B0(y.x0)), SBox(B1(y.x1)), SBox(B2(y.x2)), SBox(B3(y.x3)));
    LastWordColumn(k.x1, SBox(B0(y.x1)), SBox(B1(y.x2)), SBox(B2(y.x3)), SBox(B3(y.x0)));
    LastWordColumn(k.x2, SBox(B0(y.x2)), SBox(B1(y.x3)), SBox(B2(y.x0)), SBox(B3(y.x1)));
    LastWordColumn(k.x3, SBox(B0(y.x3)), SBox(B1(y.x0)), SBox(B2(y.x1)), SBox(B3(y.x2)));
  }

  lemma ReverseLastState(k: Quad, y: Quad)
    ensures StateOf(ReverseLast(k, y)) == AddRoundKey(InvShiftRows(InvSubBytes(StateOf(y))), StateOf(k))
  {
    hide InvSBox, B0, B1, B2, B3, LastWord, AddColumn;
    LastWordColumn(k.x0, InvSBox(B0(y.x0)), InvSBox(B1(y.x3)), InvSBox(B2(y.x2)), InvSBox(B3(y.x1)));
    LastWordColumn(k.x1, InvSBox(B0(y.x1)), InvSBox(B1(y.x0)), InvSBox(B2(y.x3)), InvSBox(B3(y.x2)));
    LastWordColumn(k.x2, InvSBox(B0(y.x2)), InvSBox(B1(y.x1)), InvSBox(B2(y.x0)), InvSBox(B3(y.x3)));
    LastWordColumn(k.x3, InvSBox(B0(y.x3)), InvSBox(B1(y.x2)), InvSBox(B2(y.x1)), InvSBox(B3(y.x0)));
  }
}
