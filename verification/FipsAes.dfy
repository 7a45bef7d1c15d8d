/**
 The block cipher as FIPS 197 specifies it: the S-box (section 5.1.1), the round
 transformations on a state of four columns (sections 5.1 and 5.3), the key expansion
 (section 5.2), the Cipher (section 5.1) and the Equivalent Inverse Cipher (section 5.3.5).

 A schedule is a sequence of words, each packed from the four bytes of a column in order.
 */
module FipsAes {
  import opened GaloisField
  import opened Words

  datatype Column = Column(r0: bv8, r1: bv8, r2: bv8, r3: bv8)
  datatype State = State(c0: Column, c1: Column, c2: Column, c3: Column)

  // ---------------------------------------------------------------- the S-box

  /** Equation 5.1: bit i of the result is b_i + b_(i+4) + b_(i+5) + b_(i+6) + b_(i+7) + c_i. */
  function Affine(b: bv8): bv8 {
    b ^ b.RotateRight(4) ^ b.RotateRight(5) ^ b.RotateRight(6) ^ b.RotateRight(7) ^ 0x63
  }

  function InvAffine(b: bv8): bv8 {
    b.RotateRight(2) ^ b.RotateRight(5) ^ b.RotateRight(7) ^ 0x05
  }

  lemma InvAffineAffine(b: bv8)
    ensures InvAffine(Affine(b)) == b && Affine(InvAffine(b)) == b
  {}

  function SBox(x: bv8): bv8 { Affine(Inverse(x)) }
  function InvSBox(y: bv8): bv8 { Inverse(InvAffine(y)) }

  lemma InverseInverse(x: bv8)
    ensures Inverse(Inverse(x)) == x
  {
    hide *;
    InverseLaw(x);
    if x != 0 { InverseUnique(Inverse(x), x); } else { InverseLaw(0); }
  }

  lemma InvSBoxSBox(x: bv8)
    ensures InvSBox(SBox(x)) == x && SBox(InvSBox(x)) == x
  {
    hide Inverse, Affine, InvAffine;
    InvAffineAffine(Inverse(x)); InvAffineAffine(x);
    InverseInverse(x); InverseInverse(InvAffine(x));
  }

  // ---------------------------------------------------------------- round transformations

  function MixByte(a: bv8, b: bv8, c: bv8, d: bv8): bv8 {
    Sum4(Mul(0x02, a), Mul(0x03, b), c, d)
  }

  function InvMixByte(a: bv8, b: bv8, c: bv8, d: bv8): bv8 {
    Sum4(Mul(0x0E, a), Mul(0x0B, b), Mul(0x0D, c), Mul(0x09, d))
  }

  function SubColumn(c: Column): Column { Column(SBox(c.r0), SBox(c.r1), SBox(c.r2), SBox(c.r3)) }
  function InvSubColumn(c: Column): Column { Column(InvSBox(c.r0), InvSBox(c.r1), InvSBox(c.r2), InvSBox(c.r3)) }

  function SubBytes(s: State): State {
    State(SubColumn(s.c0), SubColumn(s.c1), SubColumn(s.c2), SubColumn(s.c3))
  }

  function InvSubBytes(s: State): State {
    State(InvSubColumn(s.c0), InvSubColumn(s.c1), InvSubColumn(s.c2), InvSubColumn(s.c3))
  }

  /** Row r moves left by r: s'[r, c] = s[r, c + r mod 4]. */
  function ShiftRows(s: State): State {
    State(Column(s.c0.r0, s.c1.r1, s.c2.r2, s.c3.r3), Column(s.c1.r0, s.c2.r1, s.c3.r2, s.c0.r3),
          Column(s.c2.r0, s.c3.r1, s.c0.r2, s.c1.r3), Column(s.c3.r0, s.c0.r1, s.c1.r2, s.c2.r3))
  }

  function InvShiftRows(s: State): State {
    State(Column(s.c0.r0, s.c3.r1, s.c2.r2, s.c1.r3), Column(s.c1.r0, s.c0.r1, s.c3.r2, s.c2.r3),
          Column(s.c2.r0, s.c1.r1, s.c0.r2, s.c3.r3), Column(s.c3.r0, s.c2.r1, s.c1.r2, s.c0.r3))
  }

  function MixColumn(c: Column): Column {
    Column(MixByte(c.r0, c.r1, c.r2, c.r3), MixByte(c.r1, c.r2, c.r3, c.r0),
           MixByte(c.r2, c.r3, c.r0, c.r1), MixByte(c.r3, c.r0, c.r1, c.r2))
  }

  function InvMixColumn(c: Column): Column {
    Column(InvMixByte(c.r0, c.r1, c.r2, c.r3), InvMixByte(c.r1, c.r2, c.r3, c.r0),
           InvMixByte(c.r2, c.r3, c.r0, c.r1), InvMixByte(c.r3, c.r0, c.r1, c.r2))
  }

  function MixColumns(s: State): State {
    State(MixColumn(s.c0), MixColumn(s.c1), MixColumn(s.c2), MixColumn(s.c3))
  }

  function InvMixColumns(s: State): State {
    State(InvMixColumn(s.c0), InvMixColumn(s.c1), InvMixColumn(s.c2), InvMixColumn(s.c3))
  }

  function AddColumn(c: Column, d: Column): Column {
    Column(Add(c.r0, d.r0), Add(c.r1, d.r1), Add(c.r2, d.r2), Add(c.r3, d.r3))
  }

  function AddRoundKey(s: State, k: State): State {
    State(AddColumn(s.c0, k.c0), AddColumn(s.c1, k.c1), AddColumn(s.c2, k.c2), AddColumn(s.c3, k.c3))
  }

  // ---------------------------------------------------------------- keys

  function ColumnOf(w: bv32): Column { Column(B0(w), B1(w), B2(w), B3(w)) }

  function RoundKey(rk: seq<bv32>, r: nat): State
    requires 4 * r + 4 <= |rk|
  {
    State(ColumnOf(rk[4 * r]), ColumnOf(rk[4 * r + 1]), ColumnOf(rk[4 * r + 2]), ColumnOf(rk[4 * r + 3]))
  }

  function SubWord(w: bv32): bv32 { Pack(SBox(B0(w)), SBox(B1(w)), SBox(B2(w)), SBox(B3(w))) }
  function RotWord(w: bv32): bv32 { Pack(B1(w), B2(w), B3(w), B0(w)) }

  /** The round constant [x^(i-1), 0, 0, 0]. */
  function Rcon(i: nat): bv32
    requires i > 0
  {
    Power(2, i - 1) as bv32
  }

  ghost predicate ValidKey(key: seq<bv8>, nk: nat) {
    (nk == 4 || nk == 6 || nk == 8) && |key| == 4 * nk
  }

  /** Word i of the expanded key (figure 11 of FIPS 197), for nk key words. */
  function ExpandedWord(key: seq<bv8>, nk: nat, i: nat): bv32
    requires ValidKey(key, nk)
    decreases i
  {
    if i < nk then
      Pack(key[4 * i], key[4 * i + 1], key[4 * i + 2], key[4 * i + 3])
    else
      var temp := ExpandedWord(key, nk, i - 1);
      Xor(ExpandedWord(key, nk, i - nk),
          if i % nk == 0 then Xor(SubWord(RotWord(temp)), Rcon(i / nk))
          else if nk > 6 && i % nk == 4 then SubWord(temp)
          else temp)
  }

  function Expanded(key: seq<bv8>, nk: nat, n: nat): (w: seq<bv32>)
    requires ValidKey(key, nk)
    ensures |w| == n
  {
    seq(n, i requires 0 <= i < n => ExpandedWord(key, nk, i))
  }

  /** The first words of the schedule are the key, four bytes to a column, in order. */
  lemma KeyColumn(key: seq<bv8>, nk: nat, n: nat, i: nat)
    requires ValidKey(key, nk) && i < nk && i < n
    ensures ColumnOf(Expanded(key, nk, n)[i]) == Column(key[4 * i], key[4 * i + 1], key[4 * i + 2], key[4 * i + 3])
  {
    hide Pack, B0, B1, B2, B3;
    PackBytes(key[4 * i], key[4 * i + 1], key[4 * i + 2], key[4 * i + 3]);
  }

  // ---------------------------------------------------------------- the two ciphers

  /** The state after r full rounds. */
  function CipherState(rk: seq<bv32>, input: State, r: nat): State
    requires 4 * r + 4 <= |rk|
  {
    if r == 0 then AddRoundKey(input, RoundKey(rk, 0))
    else AddRoundKey(MixColumns(ShiftRows(SubBytes(CipherState(rk, input, r - 1)))), RoundKey(rk, r))
  }

  function Cipher(rk: seq<bv32>, nr: nat, input: State): State
    requires nr > 0 && 4 * nr + 4 <= |rk|
  {
    AddRoundKey(ShiftRows(SubBytes(CipherState(rk, input, nr - 1))), RoundKey(rk, nr))
  }

  function InvCipherState(dk: seq<bv32>, input: State, r: nat): State
    requires 4 * r + 4 <= |dk|
  {
    if r == 0 then AddRoundKey(input, RoundKey(dk, 0))
    else AddRoundKey(InvMixColumns(InvShiftRows(InvSubBytes(InvCipherState(dk, input, r - 1)))), RoundKey(dk, r))
  }

  function InvCipher(dk: seq<bv32>, nr: nat, input: State): State
    requires nr > 0 && 4 * nr + 4 <= |dk|
  {
    AddRoundKey(InvShiftRows(InvSubBytes(InvCipherState(dk, input, nr - 1))), RoundKey(dk, nr))
  }

  /** The decryption schedule: round keys reversed, the middle ones through InvMixColumns. */
  ghost predicate IsInverseSchedule(dk: seq<bv32>, rk: seq<bv32>, nr: nat) {
    && nr > 0 && 4 * nr + 4 <= |rk| && 4 * nr + 4 <= |dk|
    && RoundKey(dk, 0) == RoundKey(rk, nr)
    && RoundKey(dk, nr) == RoundKey(rk, 0)
    && forall r :: 0 < r < nr ==> RoundKey(dk, r) == InvMixColumns(RoundKey(rk, nr - r))
  }

  // ---------------------------------------------------------------- the layers cancel

  lemma InvSubSubColumn(c: Column)
    ensures InvSubColumn(SubColumn(c)) == c
  {
    hide SBox, InvSBox;
    InvSBoxSBox(c.r0); InvSBoxSBox(c.r1); InvSBoxSBox(c.r2); InvSBoxSBox(c.r3);
  }

  lemma InvSubShift(s: State)
    ensures InvShiftRows(InvSubBytes(ShiftRows(SubBytes(s)))) == s
  {
    hide SBox, InvSBox;
    InvSubSubColumn(s.c0); InvSubSubColumn(s.c1); InvSubSubColumn(s.c2); InvSubSubColumn(s.c3);
  }

  lemma AddColumnCancel(c: Column, d: Column)
    ensures AddColumn(AddColumn(c, d), d) == c
  {
    hide Add;
    AddAssoc(c.r0, d.r0, d.r0); AddAssoc(c.r1, d.r1, d.r1); AddAssoc(c.r2, d.r2, d.r2); AddAssoc(c.r3, d.r3, d.r3);
    AddLaws(d.r0, 0); AddLaws(d.r1, 0); AddLaws(d.r2, 0); AddLaws(d.r3, 0);
    AddLaws(c.r0, 0); AddLaws(c.r1, 0); AddLaws(c.r2, 0); AddLaws(c.r3, 0);
  }

  lemma RoundKeyCancel(s: State, k: State)
    ensures AddRoundKey(AddRoundKey(s, k), k) == s
  {
    hide AddColumn;
    AddColumnCancel(s.c0, k.c0); AddColumnCancel(s.c1, k.c1); AddColumnCancel(s.c2, k.c2); AddColumnCancel(s.c3, k.c3);
  }

  lemma Coefficients()
    ensures Mul(0x0E, 0x02) == 0x1C && Mul(0x0E, 0x03) == 0x12
    ensures Mul(0x0B, 0x02) == 0x16 && Mul(0x0B, 0x03) == 0x1D
    ensures Mul(0x0D, 0x02) == 0x1A && Mul(0x0D, 0x03) == 0x17
    ensures Mul(0x09, 0x02) == 0x12 && Mul(0x09, 0x03) == 0x1B
  {}

  /** One row of InvMixColumns against one column of MixColumns. */
  lemma InvMixMix(a: bv8, b: bv8, c: bv8, d: bv8)
    ensures InvMixByte(MixByte(a, b, c, d), MixByte(b, c, d, a), MixByte(c, d, a, b), MixByte(d, a, b, c)) == a
  {
    assert Sum4(0x1C, 0x0B, 0x0D, 0x1B) == 1 && Sum4(0x12, 0x16, 0x0D, 0x09) == 0;
    assert Sum4(0x0E, 0x1D, 0x1A, 0x09) == 0 && Sum4(0x0E, 0x0B, 0x17, 0x12) == 0;
    assert Sum4(a, 0, 0, 0) == a;
    hide Mul, Add, Sum4;
    Coefficients();
    MixTimes(0x0E, 0x1C, 0x12, a, b, c, d);
    MixTimes(0x0B, 0x16, 0x1D, b, c, d, a);
    MixTimes(0x0D, 0x1A, 0x17, c, d, a, b);
    MixTimes(0x09, 0x12, 0x1B, d, a, b, c);
    Sum4Rotate(Mul(0x16, b), Mul(0x1D, c), Mul(0x0B, d), Mul(0x0B, a));
    Sum4Rotate(Mul(0x0D, a), Mul(0x0D, b), Mul(0x1A, c), Mul(0x17, d));
    Sum4Rotate(Mul(0x17, d), Mul(0x0D, a), Mul(0x0D, b), Mul(0x1A, c));
    Sum4Rotate(Mul(0x1A, c), Mul(0x17, d), Mul(0x0D, a), Mul(0x0D, b));
    Sum4Rotate(Mul(0x12, d), Mul(0x1B, a), Mul(0x09, b), Mul(0x09, c));
    Sum4Rotate(Mul(0x1B, a), Mul(0x09, b), Mul(0x09, c), Mul(0x12, d));
    Sum4Transpose(Mul(0x1C, a), Mul(0x12, b), Mul(0x0E, c), Mul(0x0E, d),
                  Mul(0x0B, a), Mul(0x16, b), Mul(0x1D, c), Mul(0x0B, d),
                  Mul(0x0D, a), Mul(0x0D, b), Mul(0x1A, c), Mul(0x17, d),
                  Mul(0x1B, a), Mul(0x09, b), Mul(0x09, c), Mul(0x12, d));
    Sum4Mul(0x1C, 0x0B, 0x0D, 0x1B, a);
    Sum4Mul(0x12, 0x16, 0x0D, 0x09, b);
    Sum4Mul(0x0E, 0x1D, 0x1A, 0x09, c);
    Sum4Mul(0x0E, 0x0B, 0x17, 0x12, d);
    MulByZeroOne(a); MulByZeroOne(b); MulByZeroOne(c); MulByZeroOne(d);
  }

  lemma MixTimes(k: bv8, k2: bv8, k3: bv8, a: bv8, b: bv8, c: bv8, d: bv8)
    requires k2 == Mul(k, 0x02) && k3 == Mul(k, 0x03)
    ensures Mul(k, MixByte(a, b, c, d)) == Sum4(Mul(k2, a), Mul(k3, b), Mul(k, c), Mul(k, d))
  {
    hide Mul, Add, Sum4;
    MulSum4(k, Mul(0x02, a), Mul(0x03, b), c, d);
    MulAssoc(k, 0x02, a); MulAssoc(k, 0x03, b);
  }

  lemma Sum4Rotate(a: bv8, b: bv8, c: bv8, d: bv8)
    ensures Sum4(a, b, c, d) == Sum4(d, a, b, c)
  {
    hide Add;
    AddLaws(Add(a, b), Add(c, d)); AddLaws(c, d);
    AddSwap(d, c, a, b); AddLaws(c, b);
  }

  lemma InvMixMixColumn(c: Column)
    ensures InvMixColumn(MixColumn(c)) == c
  {
    hide MixByte, InvMixByte;
    InvMixMix(c.r0, c.r1, c.r2, c.r3); InvMixMix(c.r1, c.r2, c.r3, c.r0);
    InvMixMix(c.r2, c.r3, c.r0, c.r1); InvMixMix(c.r3, c.r0, c.r1, c.r2);
  }

  lemma InvMixMixColumns(s: State)
    ensures InvMixColumns(MixColumns(s)) == s
  {
    hide MixColumn, InvMixColumn;
    InvMixMixColumn(s.c0); InvMixMixColumn(s.c1); InvMixMixColumn(s.c2); InvMixMixColumn(s.c3);
  }

  lemma InvMixByteAdd(a: bv8, b: bv8, c: bv8, d: bv8, a': bv8, b': bv8, c': bv8, d': bv8)
    ensures InvMixByte(Add(a, a'), Add(b, b'), Add(c, c'), Add(d, d'))
         == Add(InvMixByte(a, b, c, d), InvMixByte(a', b', c', d'))
  {
    hide Mul, Add, Sum4;
    MulAddRight(0x0E, a, a'); MulAddRight(0x0B, b, b'); MulAddRight(0x0D, c, c'); MulAddRight(0x09, d, d');
    Sum4Add(Mul(0x0E, a), Mul(0x0B, b), Mul(0x0D, c), Mul(0x09, d),
            Mul(0x0E, a'), Mul(0x0B, b'), Mul(0x0D, c'), Mul(0x09, d'));
  }

  lemma InvMixColumnAdd(c: Column, d: Column)
    ensures InvMixColumn(AddColumn(c, d)) == AddColumn(InvMixColumn(c), InvMixColumn(d))
  {
    hide InvMixByte, Add;
    InvMixByteAdd(c.r0, c.r1, c.r2, c.r3, d.r0, d.r1, d.r2, d.r3);
    InvMixByteAdd(c.r1, c.r2, c.r3, c.r0, d.r1, d.r2, d.r3, d.r0);
    InvMixByteAdd(c.r2, c.r3, c.r0, c.r1, d.r2, d.r3, d.r0, d.r1);
    InvMixByteAdd(c.r3, c.r0, c.r1, c.r2, d.r3, d.r0, d.r1, d.r2);
  }

  lemma InvMixColumnsAdd(s: State, k: State)
    ensures InvMixColumns(AddRoundKey(s, k)) == AddRoundKey(InvMixColumns(s), InvMixColumns(k))
  {
    hide InvMixColumn, AddColumn;
    InvMixColumnAdd(s.c0, k.c0); InvMixColumnAdd(s.c1, k.c1); InvMixColumnAdd(s.c2, k.c2); InvMixColumnAdd(s.c3, k.c3);
  }

  // ---------------------------------------------------------------- decryption undoes encryption

  /** After r inverse rounds the state is the one that entered round nr - r, through its byte layers. */
  lemma {:induction false} InverseRounds(rk: seq<bv32>, dk: seq<bv32>, nr: nat, input: State, r: nat)
    requires IsInverseSchedule(dk, rk, nr) && r < nr
    ensures InvCipherState(dk, Cipher(rk, nr, input), r) == ShiftRows(SubBytes(CipherState(rk, input, nr - 1 - r)))
  {
    hide SubBytes, ShiftRows, MixColumns, InvSubBytes, InvShiftRows, InvMixColumns, AddRoundKey, RoundKey;
    if r == 0 {
      RoundKeyCancel(ShiftRows(SubBytes(CipherState(rk, input, nr - 1))), RoundKey(rk, nr));
    } else {
      InverseRounds(rk, dk, nr, input, r - 1);
      var outer := CipherState(rk, input, nr - r);
      var inner := ShiftRows(SubBytes(CipherState(rk, input, nr - 1 - r)));
      InvSubShift(outer);
      InvMixColumnsAdd(MixColumns(inner), RoundKey(rk, nr - r));
      InvMixMixColumns(inner);
      RoundKeyCancel(inner, InvMixColumns(RoundKey(rk, nr - r)));
    }
  }

  lemma InvCipherCipher(rk: seq<bv32>, dk: seq<bv32>, nr: nat, input: State)
    requires IsInverseSchedule(dk, rk, nr)
    ensures InvCipher(dk, nr, Cipher(rk, nr, input)) == input
  {
    hide SubBytes, ShiftRows, InvSubBytes, InvShiftRows, AddRoundKey, RoundKey, MixColumns, InvMixColumns;
    InverseRounds(rk, dk, nr, input, nr - 1);
    InvSubShift(CipherState(rk, input, 0));
    RoundKeyCancel(input, RoundKey(rk, 0));
  }
}
