/**
 The key expansions of appendices A.2 and A.3 of FIPS 197 and the cipher example of its appendix C.1,
 computed step by step.
 */
module AesVectors {
  import opened GaloisField
  import opened Words
  import opened FipsAes
  import opened AesTables
  import opened AesContext
  import opened Blocks
  import opened SBoxTable

  // ---------------------------------------------------------------- key expansion

  lemma RoundConstants()
    ensures Rcon(1) == 0x01 && Rcon(2) == 0x02 && Rcon(3) == 0x04 && Rcon(4) == 0x08 && Rcon(5) == 0x10
    ensures Rcon(6) == 0x20 && Rcon(7) == 0x40 && Rcon(8) == 0x80 && Rcon(9) == 0x1B && Rcon(10) == 0x36
  {
    hide Power;
    PowerBase(2);
    PowerTwoNext(0); PowerTwoNext(1); PowerTwoNext(2); PowerTwoNext(3); PowerTwoNext(4);
    PowerTwoNext(5); PowerTwoNext(6); PowerTwoNext(7); PowerTwoNext(8);
  }

  lemma Unfolded(key: seq<bv8>, nk: nat, i: nat)
    requires ValidKey(key, nk) && i >= nk
    ensures ExpandedWord(key, nk, i) == Xor(ExpandedWord(key, nk, i - nk), Temp(nk, i, ExpandedWord(key, nk, i - 1)))
  {
    hide Xor, SubWord, RotWord, Rcon;
  }

  /** The word that figure 11 of FIPS 197 adds to an earlier one. */
  function Temp(nk: nat, i: nat, last: bv32): bv32
    requires 0 < nk <= i
  {
    if i % nk == 0 then Xor(SubWord(RotWord(last)), Rcon(i / nk))
    else if nk > 6 && i % nk == 4 then SubWord(last)
    else last
  }

  /** A word added unchanged. */
  lemma Plain(key: seq<bv8>, nk: nat, i: nat)
    requires ValidKey(key, nk) && i >= nk && i % nk != 0 && !(nk > 6 && i % nk == 4)
    ensures ExpandedWord(key, nk, i) == Xor(ExpandedWord(key, nk, i - nk), ExpandedWord(key, nk, i - 1))
  {
    hide ExpandedWord, Xor, SubWord, RotWord, Rcon;
    Unfolded(key, nk, i);
  }

  /** A word that is rotated and substituted before. */
  lemma Rotated(key: seq<bv8>, nk: nat, i: nat, last: bv32, rcon: bv32)
    requires ValidKey(key, nk) && i >= nk && i % nk == 0 && ExpandedWord(key, nk, i - 1) == last && Rcon(i / nk) == rcon
    ensures ExpandedWord(key, nk, i) ==
      Xor(ExpandedWord(key, nk, i - nk), Xor(Pack(SBox(B1(last)), SBox(B2(last)), SBox(B3(last)), SBox(B0(last))), rcon))
  {
    Unfolded(key, nk, i);
    PackBytes(B1(last), B2(last), B3(last), B0(last));
    hide ExpandedWord, Xor, Pack, SBox, B0, B1, B2, B3, Rcon;
  }

  /** A word that is substituted before. */
  lemma Substituted(key: seq<bv8>, nk: nat, i: nat, last: bv32)
    requires ValidKey(key, nk) && nk == 8 && i >= nk && i % nk == 4 && ExpandedWord(key, nk, i - 1) == last
    ensures ExpandedWord(key, nk, i) ==
      Xor(ExpandedWord(key, nk, i - nk), Pack(SBox(B0(last)), SBox(B1(last)), SBox(B2(last)), SBox(B3(last))))
  {
    Unfolded(key, nk, i);
    hide ExpandedWord, Xor, Pack, SBox, B0, B1, B2, B3, Rcon;
  }

  /** The key of appendix C.1. */
  ghost predicate KeyC1(key: seq<bv8>) {
    && |key| == 16
    && key[0] == 0x00 && key[1] == 0x01 && key[2] == 0x02 && key[3] == 0x03 && key[4] == 0x04 && key[5] == 0x05 && key[6] == 0x06 && key[7] == 0x07
    && key[8] == 0x08 && key[9] == 0x09 && key[10] == 0x0A && key[11] == 0x0B && key[12] == 0x0C && key[13] == 0x0D && key[14] == 0x0E && key[15] == 0x0F
  }

  lemma C1Words0(key: seq<bv8>)
    requires KeyC1(key)
    ensures ExpandedWord(key, 4, 0) == 0x03020100 && ExpandedWord(key, 4, 1) == 0x07060504
    ensures ExpandedWord(key, 4, 2) == 0x0B0A0908 && ExpandedWord(key, 4, 3) == 0x0F0E0D0C
  {
    hide SBox;
  }

  lemma C1Key(key: seq<bv8>)
    requires KeyC1(key)
    ensures ValidKey(key, 4)
  {
  }

  lemma C1Words4(key: seq<bv8>)
    requires KeyC1(key)
    ensures ExpandedWord(key, 4, 4) == 0xFD74AAD6 && ExpandedWord(key, 4, 5) == 0xFA72AFD2
    ensures ExpandedWord(key, 4, 6) == 0xF178A6DA && ExpandedWord(key, 4, 7) == 0xFE76ABD6
  {
    hide ExpandedWord, SBox, Rcon, KeyC1;
    C1Key(key);
    C1Words0(key);
    Row0();
    RoundConstants();
    Rotated(key, 4, 4, 0x0F0E0D0C, 0x01);
    Plain(key, 4, 5); Plain(key, 4, 6); Plain(key, 4, 7);
  }

  lemma C1Words8(key: seq<bv8>)
    requires KeyC1(key)
    ensures ExpandedWord(key, 4, 8) == 0x0BCF92B6 && ExpandedWord(key, 4, 9) == 0xF1BD3D64
    ensures ExpandedWord(key, 4, 10) == 0x00C59BBE && ExpandedWord(key, 4, 11) == 0xFEB33068
  {
    hide ExpandedWord, SBox, Rcon, KeyC1;
    C1Key(key);
    C1Words4(key);
    Row7(); RowA(); RowD(); RowF();
    RoundConstants();
    Rotated(key, 4, 8, 0xFE76ABD6, 0x02);
    Plain(key, 4, 9); Plain(key, 4, 10); Plain(key, 4, 11);
  }

  lemma C1Words12(key: seq<bv8>)
    requires KeyC1(key)
    ensures ExpandedWord(key, 4, 12) == 0x4E74FFB6 && ExpandedWord(key, 4, 13) == 0xBFC9C2D2
    ensures ExpandedWord(key, 4, 14) == 0xBF0C596C && ExpandedWord(key, 4, 15) == 0x41BF6904
  {
    hide ExpandedWord, SBox, Rcon, KeyC1;
    C1Key(key);
    C1Words8(key);
    Row3(); Row6(); RowB(); RowF();
    RoundConstants();
    Rotated(key, 4, 12, 0xFEB33068, 0x04);
    Plain(key, 4, 13); Plain(key, 4, 14); Plain(key, 4, 15);
  }

  lemma C1Words16(key: seq<bv8>)
    requires KeyC1(key)
    ensures ExpandedWord(key, 4, 16) == 0xBCF7F747 && ExpandedWord(key, 4, 17) == 0x033E3595
    ensures ExpandedWord(key, 4, 18) == 0xBC326CF9 && ExpandedWord(key, 4, 19) == 0xFD8D05FD
  {
    hide ExpandedWord, SBox, Rcon, KeyC1;
    C1Key(key);
    C1Words12(key);
    Row0(); Row4(); Row6(); RowB();
    RoundConstants();
    Rotated(key, 4, 16, 0x41BF6904, 0x08);
    Plain(key, 4, 17); Plain(key, 4, 18); Plain(key, 4, 19);
  }

  lemma C1Words20(key: seq<bv8>)
    requires KeyC1(key)
    ensures ExpandedWord(key, 4, 20) == 0xE8A3AA3C && ExpandedWord(key, 4, 21) == 0xEB9D9FA9
    ensures ExpandedWord(key, 4, 22) == 0x57AFF350 && ExpandedWord(key, 4, 23) == 0xAA22F6AD
  {
    hide ExpandedWord, SBox, Rcon, KeyC1;
    C1Key(key);
    C1Words16(key);
    Row0(); Row8(); RowF();
    RoundConstants();
    Rotated(key, 4, 20, 0xFD8D05FD, 0x10);
    Plain(key, 4, 21); Plain(key, 4, 22); Plain(key, 4, 23);
  }

  lemma C1Words24(key: seq<bv8>)
    requires KeyC1(key)
    ensures ExpandedWord(key, 4, 24) == 0x7D0F395E && ExpandedWord(key, 4, 25) == 0x9692A6F7
    ensures ExpandedWord(key, 4, 26) == 0xC13D55A7 && ExpandedWord(key, 4, 27) == 0x6B1FA30A
  {
    hide ExpandedWord, SBox, Rcon, KeyC1;
    C1Key(key);
    C1Words20(key);
    Row2(); RowA(); RowF();
    RoundConstants();
    Rotated(key, 4, 24, 0xAA22F6AD, 0x20);
    Plain(key, 4, 25); Plain(key, 4, 26); Plain(key, 4, 27);
  }

  lemma C1Words28(key: seq<bv8>)
    requires KeyC1(key)
    ensures ExpandedWord(key, 4, 28) == 0x1A70F914 && ExpandedWord(key, 4, 29) == 0x8CE25FE3
    ensures ExpandedWord(key, 4, 30) == 0x4DDF0A44 && ExpandedWord(key, 4, 31) == 0x26C0A94E
  {
    hide ExpandedWord, SBox, Rcon, KeyC1;
    C1Key(key);
    C1Words24(key);
    Row0(); Row1(); Row6(); RowA();
    RoundConstants();
    Rotated(key, 4, 28, 0x6B1FA30A, 0x40);
    Plain(key, 4, 29); Plain(key, 4, 30); Plain(key, 4, 31);
  }

  lemma C1Words32(key: seq<bv8>)
    requires KeyC1(key)
    ensures ExpandedWord(key, 4, 32) == 0x35874347 && ExpandedWord(key, 4, 33) == 0xB9651CA4
    ensures ExpandedWord(key, 4, 34) == 0xF4BA16E0 && ExpandedWord(key, 4, 35) == 0xD27ABFAE
  {
    hide ExpandedWord, SBox, Rcon, KeyC1;
    C1Key(key);
    C1Words28(key);
    Row2(); Row4(); RowA(); RowC();
    RoundConstants();
    Rotated(key, 4, 32, 0x26C0A94E, 0x80);
    Plain(key, 4, 33); Plain(key, 4, 34); Plain(key, 4, 35);
  }

  lemma C1Words36(key: seq<bv8>)
    requires KeyC1(key)
    ensures ExpandedWord(key, 4, 36) == 0xD1329954 && ExpandedWord(key, 4, 37) == 0x685785F0
    ensures ExpandedWord(key, 4, 38) == 0x9CED9310 && ExpandedWord(key, 4, 39) == 0x4E972CBE
  {
    hide ExpandedWord, SBox, Rcon, KeyC1;
    C1Key(key);
    C1Words32(key);
    Row7(); RowA(); RowB(); RowD();
    RoundConstants();
    Rotated(key, 4, 36, 0xD27ABFAE, 0x1B);
    Plain(key, 4, 37); Plain(key, 4, 38); Plain(key, 4, 39);
  }

  lemma C1Words40(key: seq<bv8>)
    requires KeyC1(key)
    ensures ExpandedWord(key, 4, 40) == 0x7F1D1113 && ExpandedWord(key, 4, 41) == 0x174A94E3
    ensures ExpandedWord(key, 4, 42) == 0x8BA707F3 && ExpandedWord(key, 4, 43) == 0xC5302B4D
  {
    hide ExpandedWord, SBox, Rcon, KeyC1;
    C1Key(key);
    C1Words36(key);
    Row2(); Row4(); Row9(); RowB();
    RoundConstants();
    Rotated(key, 4, 40, 0x4E972CBE, 0x36);
    Plain(key, 4, 41); Plain(key, 4, 42); Plain(key, 4, 43);
  }

  /** The key of appendix A.2. */
  ghost predicate KeyA2(key: seq<bv8>) {
    && |key| == 24
    && key[0] == 0x8E && key[1] == 0x73 && key[2] == 0xB0 && key[3] == 0xF7 && key[4] == 0xDA && key[5] == 0x0E && key[6] == 0x64 && key[7] == 0x52
    && key[8] == 0xC8 && key[9] == 0x10 && key[10] == 0xF3 && key[11] == 0x2B && key[12] == 0x80 && key[13] == 0x90 && key[14] == 0x79 && key[15] == 0xE5
    && key[16] == 0x62 && key[17] == 0xF8 && key[18] == 0xEA && key[19] == 0xD2 && key[20] == 0x52 && key[21] == 0x2C && key[22] == 0x6B && key[23] == 0x7B
  }

  lemma A2Words0(key: seq<bv8>)
    requires KeyA2(key)
    ensures ExpandedWord(key, 6, 6) == 0xF7910CFE && ExpandedWord(key, 6, 7) == 0xA5F50224
    ensures ExpandedWord(key, 6, 8) == 0x8E0612EC && ExpandedWord(key, 6, 9) == 0x6B7F826C
    ensures ExpandedWord(key, 6, 10) == 0xB9957A0E && ExpandedWord(key, 6, 11) == 0xC2FE565C
  {
    hide ExpandedWord, SBox, Rcon, KeyA2;
    A2Key(key);
    A2First(key);
    Row2(); Row5(); Row6(); Row7();
    RoundConstants();
    Rotated(key, 6, 6, 0x7B6B2C52, 0x01);
    Plain(key, 6, 7); Plain(key, 6, 8); Plain(key, 6, 9); Plain(key, 6, 10);
    Plain(key, 6, 11);
  }

  lemma A2First(key: seq<bv8>)
    requires KeyA2(key)
    ensures ExpandedWord(key, 6, 0) == 0xF7B0738E && ExpandedWord(key, 6, 1) == 0x52640EDA
    ensures ExpandedWord(key, 6, 2) == 0x2BF310C8 && ExpandedWord(key, 6, 3) == 0xE5799080
    ensures ExpandedWord(key, 6, 4) == 0xD2EAF862 && ExpandedWord(key, 6, 5) == 0x7B6B2C52
  {
    hide SBox;
  }

  lemma A2Key(key: seq<bv8>)
    requires KeyA2(key)
    ensures ValidKey(key, 6)
  {
  }

  lemma A2Words12(key: seq<bv8>)
    requires KeyA2(key)
    ensures ExpandedWord(key, 6, 18) == 0x57F05A48 && ExpandedWord(key, 6, 19) == 0x4FB1EF21
    ensures ExpandedWord(key, 6, 20) == 0xD9F648A4 && ExpandedWord(key, 6, 21) == 0x24CE6D4D
    ensures ExpandedWord(key, 6, 22) == 0x606332AA && ExpandedWord(key, 6, 23) == 0xE6303B11
  {
    hide ExpandedWord, SBox, Rcon, KeyA2;
    A2Key(key);
    A2Words0(key);
    Row0(); Row5(); Row8(); RowB(); RowC(); RowF();
    RoundConstants();
    Rotated(key, 6, 12, 0xC2FE565C, 0x02);
    Plain(key, 6, 13); Plain(key, 6, 14); Plain(key, 6, 15); Plain(key, 6, 16);
    Plain(key, 6, 17); Rotated(key, 6, 18, 0x865309BB, 0x04); Plain(key, 6, 19); Plain(key, 6, 20);
    Plain(key, 6, 21); Plain(key, 6, 22); Plain(key, 6, 23);
  }

  lemma A2Words24(key: seq<bv8>)
    requires KeyA2(key)
    ensures ExpandedWord(key, 6, 30) == 0xEB8617EC && ExpandedWord(key, 6, 31) == 0x7149A66F
    ensures ExpandedWord(key, 6, 32) == 0x32705F48 && ExpandedWord(key, 6, 33) == 0x5587CB22
    ensures ExpandedWord(key, 6, 34) == 0x52136DE2 && ExpandedWord(key, 6, 35) == 0xB3B7F033
  {
    hide ExpandedWord, SBox, Rcon, KeyA2;
    A2Key(key);
    A2Words12(key);
    Row1(); Row3(); Row9(); RowA(); RowD(); RowE();
    RoundConstants();
    Rotated(key, 6, 24, 0xE6303B11, 0x08);
    Plain(key, 6, 25); Plain(key, 6, 26); Plain(key, 6, 27); Plain(key, 6, 28);
    Plain(key, 6, 29); Rotated(key, 6, 30, 0xE1A49DD1, 0x10); Plain(key, 6, 31); Plain(key, 6, 32);
    Plain(key, 6, 33); Plain(key, 6, 34); Plain(key, 6, 35);
  }

  lemma A2Words36(key: seq<bv8>)
    requires KeyA2(key)
    ensures ExpandedWord(key, 6, 42) == 0x0A751F82 && ExpandedWord(key, 6, 43) == 0x53D707AD
    ensures ExpandedWord(key, 6, 44) == 0x380540CA && ExpandedWord(key, 6, 45) == 0x0650CC8F
    ensures ExpandedWord(key, 6, 46) == 0x6A162D28 && ExpandedWord(key, 6, 47) == 0xB5E73CBC
  {
    hide ExpandedWord, SBox, Rcon, KeyA2;
    A2Key(key);
    A2Words24(key);
    Row1(); Row3(); Row9(); RowB(); RowD(); RowF();
    RoundConstants();
    Rotated(key, 6, 36, 0xB3B7F033, 0x20);
    Plain(key, 6, 37); Plain(key, 6, 38); Plain(key, 6, 39); Plain(key, 6, 40);
    Plain(key, 6, 41); Rotated(key, 6, 42, 0xDFF11194, 0x40); Plain(key, 6, 43); Plain(key, 6, 44);
    Plain(key, 6, 45); Plain(key, 6, 46); Plain(key, 6, 47);
  }

  lemma A2Words48(key: seq<bv8>)
    requires KeyA2(key)
    ensures ExpandedWord(key, 6, 48) == 0x6FA08BE9 && ExpandedWord(key, 6, 49) == 0x3C778C44
    ensures ExpandedWord(key, 6, 50) == 0x0472CC8E && ExpandedWord(key, 6, 51) == 0x02220001
  {
    hide ExpandedWord, SBox, Rcon, KeyA2;
    A2Key(key);
    A2Words36(key);
    Row3(); RowB(); RowE();
    RoundConstants();
    Rotated(key, 6, 48, 0xB5E73CBC, 0x80);
    Plain(key, 6, 49); Plain(key, 6, 50); Plain(key, 6, 51);
  }

  /** The key of appendix A.3. */
  ghost predicate KeyA3(key: seq<bv8>) {
    && |key| == 32
    && key[0] == 0x60 && key[1] == 0x3D && key[2] == 0xEB && key[3] == 0x10 && key[4] == 0x15 && key[5] == 0xCA && key[6] == 0x71 && key[7] == 0xBE
    && key[8] == 0x2B && key[9] == 0x73 && key[10] == 0xAE && key[11] == 0xF0 && key[12] == 0x85 && key[13] == 0x7D && key[14] == 0x77 && key[15] == 0x81
    && key[16] == 0x1F && key[17] == 0x35 && key[18] == 0x2C && key[19] == 0x07 && key[20] == 0x3B && key[21] == 0x61 && key[22] == 0x08 && key[23] == 0xD7
    && key[24] == 0x2D && key[25] == 0x98 && key[26] == 0x10 && key[27] == 0xA3 && key[28] == 0x09 && key[29] == 0x14 && key[30] == 0xDF && key[31] == 0xF4
  }

  lemma A3Words0(key: seq<bv8>)
    requires KeyA3(key)
    ensures ExpandedWord(key, 8, 8) == 0x1154A39B && ExpandedWord(key, 8, 9) == 0xAF25698E
    ensures ExpandedWord(key, 8, 10) == 0x5F8B1AA5 && ExpandedWord(key, 8, 11) == 0xDEFC6720
    ensures ExpandedWord(key, 8, 12) == 0x1A9CB0A8 && ExpandedWord(key, 8, 13) == 0xCD94D193
    ensures ExpandedWord(key, 8, 14) == 0x6E8449BE && ExpandedWord(key, 8, 15) == 0x9A5B5DB7
  {
    hide ExpandedWord, SBox, Rcon, KeyA3;
    A3Key(key);
    A3First(key);
    Row0(); Row1(); Row2(); Row6(); RowD(); RowF();
    RoundConstants();
    Rotated(key, 8, 8, 0xF4DF1409, 0x01);
    Plain(key, 8, 9); Plain(key, 8, 10); Plain(key, 8, 11); Substituted(key, 8, 12, 0xDEFC6720);
    Plain(key, 8, 13); Plain(key, 8, 14); Plain(key, 8, 15);
  }

  lemma A3First(key: seq<bv8>)
    requires KeyA3(key)
    ensures ExpandedWord(key, 8, 0) == 0x10EB3D60 && ExpandedWord(key, 8, 1) == 0xBE71CA15
    ensures ExpandedWord(key, 8, 2) == 0xF0AE732B && ExpandedWord(key, 8, 3) == 0x81777D85
    ensures ExpandedWord(key, 8, 4) == 0x072C351F && ExpandedWord(key, 8, 5) == 0xD708613B
    ensures ExpandedWord(key, 8, 6) == 0xA310982D && ExpandedWord(key, 8, 7) == 0xF4DF1409
  {
    hide SBox;
  }

  lemma A3Key(key: seq<bv8>)
    requires KeyA3(key)
    ensures ValidKey(key, 8)
  {
  }

  lemma A3Words16(key: seq<bv8>)
    requires KeyA3(key)
    ensures ExpandedWord(key, 8, 24) == 0xAD812C81 && ExpandedWord(key, 8, 25) == 0xBA48DFDA
    ensures ExpandedWord(key, 8, 26) == 0xF20A3624 && ExpandedWord(key, 8, 27) == 0x64B4B8FA
    ensures ExpandedWord(key, 8, 28) == 0xC9BFC598 && ExpandedWord(key, 8, 29) == 0x8E19BDBE
    ensures ExpandedWord(key, 8, 30) == 0xA73B8C26 && ExpandedWord(key, 8, 31) == 0x1442E009
  {
    hide ExpandedWord, SBox, Rcon, KeyA3;
    A3Key(key);
    A3Words0(key);
    Row2(); Row5(); Row6(); Row7(); Row8(); Row9(); RowB(); RowD(); RowF();
    RoundConstants();
    Rotated(key, 8, 16, 0x9A5B5DB7, 0x02);
    Plain(key, 8, 17); Plain(key, 8, 18); Plain(key, 8, 19); Substituted(key, 8, 20, 0x96BE8EDE);
    Plain(key, 8, 21); Plain(key, 8, 22); Plain(key, 8, 23); Rotated(key, 8, 24, 0xB3796C2F, 0x04);
    Plain(key, 8, 25); Plain(key, 8, 26); Plain(key, 8, 27); Substituted(key, 8, 28, 0x64B4B8FA);
    Plain(key, 8, 29); Plain(key, 8, 30); Plain(key, 8, 31);
  }

  lemma A3Words32(key: seq<bv8>)
    requires KeyA3(key)
    ensures ExpandedWord(key, 8, 40) == 0x676913DE && ExpandedWord(key, 8, 41) == 0x715ACC6C
    ensures ExpandedWord(key, 8, 42) == 0x956325FA && ExpandedWord(key, 8, 43) == 0x15EE7496
    ensures ExpandedWord(key, 8, 44) == 0x5DCA8658 && ExpandedWord(key, 8, 45) == 0xD7312F2E
    ensures ExpandedWord(key, 8, 46) == 0xFAF10A7E && ExpandedWord(key, 8, 47) == 0xC373CF27
  {
    hide ExpandedWord, SBox, Rcon, KeyA3;
    A3Key(key);
    A3Words16(key);
    Row0(); Row1(); Row3(); Row4(); Row5(); Row6(); Row7(); Row8(); Row9(); RowC(); RowE();
    RoundConstants();
    Rotated(key, 8, 32, 0x1442E009, 0x08);
    Plain(key, 8, 33); Plain(key, 8, 34); Plain(key, 8, 35); Substituted(key, 8, 36, 0x808D516C);
    Plain(key, 8, 37); Plain(key, 8, 38); Plain(key, 8, 39); Rotated(key, 8, 40, 0x3982C559, 0x10);
    Plain(key, 8, 41); Plain(key, 8, 42); Plain(key, 8, 43); Substituted(key, 8, 44, 0x15EE7496);
    Plain(key, 8, 45); Plain(key, 8, 46); Plain(key, 8, 47);
  }

  lemma A3Words48(key: seq<bv8>)
    requires KeyA3(key)
    ensures ExpandedWord(key, 8, 52) == 0xE3AAFACA && ExpandedWord(key, 8, 53) == 0x349BD5E4
    ensures ExpandedWord(key, 8, 54) == 0xCE6ADF9A && ExpandedWord(key, 8, 55) == 0x0D1910BD
    ensures ExpandedWord(key, 8, 56) == 0xD19048FE && ExpandedWord(key, 8, 57) == 0x0B8D18E6
    ensures ExpandedWord(key, 8, 58) == 0x44F36D04 && ExpandedWord(key, 8, 59) == 0x1E636C70
  {
    hide ExpandedWord, SBox, Rcon, KeyA3;
    A3Key(key);
    A3Words32(key);
    Row0(); Row1(); Row2(); Row5(); Row7(); Row9(); RowB(); RowC();
    RoundConstants();
    Rotated(key, 8, 48, 0xC373CF27, 0x20);
    Plain(key, 8, 49); Plain(key, 8, 50); Plain(key, 8, 51); Substituted(key, 8, 52, 0x5A900174);
    Plain(key, 8, 53); Plain(key, 8, 54); Plain(key, 8, 55); Rotated(key, 8, 56, 0x0D1910BD, 0x40);
    Plain(key, 8, 57); Plain(key, 8, 58); Plain(key, 8, 59);
  }

  /** The last words of the expansions of appendices A.2 and A.3. */
  lemma Expansion192(key: seq<bv8>)
    requires KeyA2(key)
    ensures ValidKey(key, 6) && ColumnOf(ExpandedWord(key, 6, 51)) == Column(0x01, 0x00, 0x22, 0x02)
  {
    hide ExpandedWord, KeyA2;
    A2Key(key);
    A2Words48(key);
  }

  lemma Expansion256(key: seq<bv8>)
    requires KeyA3(key)
    ensures ValidKey(key, 8) && ColumnOf(ExpandedWord(key, 8, 59)) == Column(0x70, 0x6C, 0x63, 0x1E)
  {
    hide ExpandedWord, KeyA3;
    A3Key(key);
    A3Words48(key);
  }

  // ---------------------------------------------------------------- the cipher

  function Sum5(x: bv8, y: bv8, b: bv8, c: bv8, d: bv8): bv8 { x ^ y ^ b ^ c ^ d }

  function Mixed(a: bv8, b: bv8, c: bv8, d: bv8): bv8 { Sum5(Xtime(a), Xtime(b), b, c, d) }

  lemma MixColumnIs(c: Column)
    ensures MixColumn(c) == Column(Mixed(c.r0, c.r1, c.r2, c.r3), Mixed(c.r1, c.r2, c.r3, c.r0),
                                   Mixed(c.r2, c.r3, c.r0, c.r1), Mixed(c.r3, c.r0, c.r1, c.r2))
  {
    hide Mixed, MixByte;
    MixByteIs(c.r0, c.r1, c.r2, c.r3); MixByteIs(c.r1, c.r2, c.r3, c.r0);
    MixByteIs(c.r2, c.r3, c.r0, c.r1); MixByteIs(c.r3, c.r0, c.r1, c.r2);
  }

  lemma MixByteIs(a: bv8, b: bv8, c: bv8, d: bv8)
    ensures MixByte(a, b, c, d) == Mixed(a, b, c, d)
  {
    hide Mul, Xtime, Sum4, Sum5;
    MulPowersOfX(a);
    TimesThree(b);
    Regroup(Xtime(a), Xtime(b), b, c, d);
  }

  lemma Regroup(x: bv8, y: bv8, b: bv8, c: bv8, d: bv8)
    ensures Sum4(x, b ^ y, c, d) == Sum5(x, y, b, c, d)
  {
  }

  function Schedule(key: seq<bv8>): (w: seq<bv32>)
    requires ValidKey(key, 4)
    ensures |w| == 44
  {
    Expanded(key, 4, 44)
  }

  lemma RoundKey0(key: seq<bv8>)
    requires KeyC1(key)
    ensures ValidKey(key, 4) && RoundKey(Schedule(key), 0)
         == State(Column(0x00, 0x01, 0x02, 0x03), Column(0x04, 0x05, 0x06, 0x07),
                  Column(0x08, 0x09, 0x0A, 0x0B), Column(0x0C, 0x0D, 0x0E, 0x0F))
  {
    C1Key(key);
    C1Words0(key);
    hide ExpandedWord;
  }

  lemma RoundKey1(key: seq<bv8>)
    requires KeyC1(key)
    ensures ValidKey(key, 4) && RoundKey(Schedule(key), 1)
         == State(Column(0xD6, 0xAA, 0x74, 0xFD), Column(0xD2, 0xAF, 0x72, 0xFA),
                  Column(0xDA, 0xA6, 0x78, 0xF1), Column(0xD6, 0xAB, 0x76, 0xFE))
  {
    C1Key(key);
    C1Words4(key);
    hide ExpandedWord;
  }

  lemma RoundKey2(key: seq<bv8>)
    requires KeyC1(key)
    ensures ValidKey(key, 4) && RoundKey(Schedule(key), 2)
         == State(Column(0xB6, 0x92, 0xCF, 0x0B), Column(0x64, 0x3D, 0xBD, 0xF1),
                  Column(0xBE, 0x9B, 0xC5, 0x00), Column(0x68, 0x30, 0xB3, 0xFE))
  {
    C1Key(key);
    C1Words8(key);
    hide ExpandedWord;
  }

  lemma RoundKey3(key: seq<bv8>)
    requires KeyC1(key)
    ensures ValidKey(key, 4) && RoundKey(Schedule(key), 3)
         == State(Column(0xB6, 0xFF, 0x74, 0x4E), Column(0xD2, 0xC2, 0xC9, 0xBF),
                  Column(0x6C, 0x59, 0x0C, 0xBF), Column(0x04, 0x69, 0xBF, 0x41))
  {
    C1Key(key);
    C1Words12(key);
    hide ExpandedWord;
  }

  lemma RoundKey4(key: seq<bv8>)
    requires KeyC1(key)
    ensures ValidKey(key, 4) && RoundKey(Schedule(key), 4)
         == State(Column(0x47, 0xF7, 0xF7, 0xBC), Column(0x95, 0x35, 0x3E, 0x03),
                  Column(0xF9, 0x6C, 0x32, 0xBC), Column(0xFD, 0x05, 0x8D, 0xFD))
  {
    C1Key(key);
    C1Words16(key);
    hide ExpandedWord;
  }

  lemma RoundKey5(key: seq<bv8>)
    requires KeyC1(key)
    ensures ValidKey(key, 4) && RoundKey(Schedule(key), 5)
         == State(Column(0x3C, 0xAA, 0xA3, 0xE8), Column(0xA9, 0x9F, 0x9D, 0xEB),
                  Column(0x50, 0xF3, 0xAF, 0x57), Column(0xAD, 0xF6, 0x22, 0xAA))
  {
    C1Key(key);
    C1Words20(key);
    hide ExpandedWord;
  }

  lemma RoundKey6(key: seq<bv8>)
    requires KeyC1(key)
    ensures ValidKey(key, 4) && RoundKey(Schedule(key), 6)
         == State(Column(0x5E, 0x39, 0x0F, 0x7D), Column(0xF7, 0xA6, 0x92, 0x96),
                  Column(0xA7, 0x55, 0x3D, 0xC1), Column(0x0A, 0xA3, 0x1F, 0x6B))
  {
    C1Key(key);
    C1Words24(key);
    hide ExpandedWord;
  }

  lemma RoundKey7(key: seq<bv8>)
    requires KeyC1(key)
    ensures ValidKey(key, 4) && RoundKey(Schedule(key), 7)
         == State(Column(0x14, 0xF9, 0x70, 0x1A), Column(0xE3, 0x5F, 0xE2, 0x8C),
                  Column(0x44, 0x0A, 0xDF, 0x4D), Column(0x4E, 0xA9, 0xC0, 0x26))
  {
    C1Key(key);
    C1Words28(key);
    hide ExpandedWord;
  }

  lemma RoundKey8(key: seq<bv8>)
    requires KeyC1(key)
    ensures ValidKey(key, 4) && RoundKey(Schedule(key), 8)
         == State(Column(0x47, 0x43, 0x87, 0x35), Column(0xA4, 0x1C, 0x65, 0xB9),
                  Column(0xE0, 0x16, 0xBA, 0xF4), Column(0xAE, 0xBF, 0x7A, 0xD2))
  {
    C1Key(key);
    C1Words32(key);
    hide ExpandedWord;
  }

  lemma RoundKey9(key: seq<bv8>)
    requires KeyC1(key)
    ensures ValidKey(key, 4) && RoundKey(Schedule(key), 9)
         == State(Column(0x54, 0x99, 0x32, 0xD1), Column(0xF0, 0x85, 0x57, 0x68),
                  Column(0x10, 0x93, 0xED, 0x9C), Column(0xBE, 0x2C, 0x97, 0x4E))
  {
    C1Key(key);
    C1Words36(key);
    hide ExpandedWord;
  }

  lemma RoundKey10(key: seq<bv8>)
    requires KeyC1(key)
    ensures ValidKey(key, 4) && RoundKey(Schedule(key), 10)
         == State(Column(0x13, 0x11, 0x1D, 0x7F), Column(0xE3, 0x94, 0x4A, 0x17),
                  Column(0xF3, 0x07, 0xA7, 0x8B), Column(0x4D, 0x2B, 0x30, 0xC5))
  {
    C1Key(key);
    C1Words40(key);
    hide ExpandedWord;
  }

  const Plaintext := State(Column(0x00, 0x11, 0x22, 0x33), Column(0x44, 0x55, 0x66, 0x77),
                           Column(0x88, 0x99, 0xAA, 0xBB), Column(0xCC, 0xDD, 0xEE, 0xFF))

  lemma Round0(key: seq<bv8>)
    requires KeyC1(key)
    ensures ValidKey(key, 4) && CipherState(Schedule(key), Plaintext, 0)
         == State(Column(0x00, 0x10, 0x20, 0x30), Column(0x40, 0x50, 0x60, 0x70),
                  Column(0x80, 0x90, 0xA0, 0xB0), Column(0xC0, 0xD0, 0xE0, 0xF0))
  {
    RoundKey0(key);
    hide Schedule, RoundKey;
  }

  lemma NextState(rk: seq<bv32>, r: nat, before: State, mid: State, mixed: State, k: State)
    requires 0 < r && 4 * r + 4 <= |rk| && CipherState(rk, Plaintext, r - 1) == before && RoundKey(rk, r) == k
    requires ShiftRows(SubBytes(before)) == mid && MixColumns(mid) == mixed
    ensures CipherState(rk, Plaintext, r) == AddRoundKey(mixed, k)
  {
    hide RoundKey, SubBytes, ShiftRows, MixColumns, AddRoundKey;
  }

  lemma Round1(key: seq<bv8>)
    requires KeyC1(key)
    ensures ValidKey(key, 4) && CipherState(Schedule(key), Plaintext, 1)
         == State(Column(0x89, 0xD8, 0x10, 0xE8), Column(0x85, 0x5A, 0xCE, 0x68),
                  Column(0x2D, 0x18, 0x43, 0xD8), Column(0xCB, 0x12, 0x8F, 0xE4))
  {
    hide KeyC1, CipherState, Schedule, RoundKey, SBox, MixColumn;
    Round0(key); RoundKey1(key);
    Row0(); Row1(); Row2(); Row3(); Row4(); Row5(); Row6(); Row7(); Row8(); Row9(); RowA(); RowB(); RowC(); RowD(); RowE(); RowF();
    var mid := State(Column(0x63, 0x53, 0xE0, 0x8C), Column(0x09, 0x60, 0xE1, 0x04),
                     Column(0xCD, 0x70, 0xB7, 0x51), Column(0xBA, 0xCA, 0xD0, 0xE7));
    MixColumnIs(mid.c0); MixColumnIs(mid.c1); MixColumnIs(mid.c2); MixColumnIs(mid.c3);
    NextState(Schedule(key), 1, CipherState(Schedule(key), Plaintext, 0), mid,
              State(Column(0x5F, 0x72, 0x64, 0x15), Column(0x57, 0xF5, 0xBC, 0x92),
                    Column(0xF7, 0xBE, 0x3B, 0x29), Column(0x1D, 0xB9, 0xF9, 0x1A)), RoundKey(Schedule(key), 1));
  }

  lemma Round2(key: seq<bv8>)
    requires KeyC1(key)
    ensures ValidKey(key, 4) && CipherState(Schedule(key), Plaintext, 2)
         == State(Column(0x49, 0x15, 0x59, 0x8F), Column(0x55, 0xE5, 0xD7, 0xA0),
                  Column(0xDA, 0xCA, 0x94, 0xFA), Column(0x1F, 0x0A, 0x63, 0xF7))
  {
    hide KeyC1, CipherState, Schedule, RoundKey, SBox, MixColumn;
    Round1(key); RoundKey2(key);
    Row1(); Row2(); Row4(); Row5(); Row6(); Row8(); RowC(); RowD(); RowE();
    var mid := State(Column(0xA7, 0xBE, 0x1A, 0x69), Column(0x97, 0xAD, 0x73, 0x9B),
                     Column(0xD8, 0xC9, 0xCA, 0x45), Column(0x1F, 0x61, 0x8B, 0x61));
    MixColumnIs(mid.c0); MixColumnIs(mid.c1); MixColumnIs(mid.c2); MixColumnIs(mid.c3);
    NextState(Schedule(key), 2, CipherState(Schedule(key), Plaintext, 1), mid,
              State(Column(0xFF, 0x87, 0x96, 0x84), Column(0x31, 0xD8, 0x6A, 0x51),
                    Column(0x64, 0x51, 0x51, 0xFA), Column(0x77, 0x3A, 0xD0, 0x09)), RoundKey(Schedule(key), 2));
  }

  lemma Round3(key: seq<bv8>)
    requires KeyC1(key)
    ensures ValidKey(key, 4) && CipherState(Schedule(key), Plaintext, 3)
         == State(Column(0xFA, 0x63, 0x6A, 0x28), Column(0x25, 0xB3, 0x39, 0xC9),
                  Column(0x40, 0x66, 0x8A, 0x31), Column(0x57, 0x24, 0x4D, 0x17))
  {
    hide KeyC1, CipherState, Schedule, RoundKey, SBox, MixColumn;
    Round2(key); RoundKey3(key);
    Row0(); Row1(); Row4(); Row5(); Row6(); Row8(); Row9(); RowA(); RowC(); RowD(); RowE(); RowF();
    var mid := State(Column(0x3B, 0xD9, 0x22, 0x68), Column(0xFC, 0x74, 0xFB, 0x73),
                     Column(0x57, 0x67, 0xCB, 0xE0), Column(0xC0, 0x59, 0x0E, 0x2D));
    MixColumnIs(mid.c0); MixColumnIs(mid.c1); MixColumnIs(mid.c2); MixColumnIs(mid.c3);
    NextState(Schedule(key), 3, CipherState(Schedule(key), Plaintext, 2), mid,
              State(Column(0x4C, 0x9C, 0x1E, 0x66), Column(0xF7, 0x71, 0xF0, 0x76),
                    Column(0x2C, 0x3F, 0x86, 0x8E), Column(0x53, 0x4D, 0xF2, 0x56)), RoundKey(Schedule(key), 3));
  }

  lemma Round4(key: seq<bv8>)
    requires KeyC1(key)
    ensures ValidKey(key, 4) && CipherState(Schedule(key), Plaintext, 4)
         == State(Column(0x24, 0x72, 0x40, 0x23), Column(0x69, 0x66, 0xB3, 0xFA),
                  Column(0x6E, 0xD2, 0x75, 0x32), Column(0x88, 0x42, 0x5B, 0x6C))
  {
    hide KeyC1, CipherState, Schedule, RoundKey, SBox, MixColumn;
    Round3(key); RoundKey4(key);
    Row1(); Row2(); Row3(); Row4(); Row5(); Row6(); Row8(); RowB(); RowC(); RowF();
    var mid := State(Column(0x2D, 0x6D, 0x7E, 0xF0), Column(0x3F, 0x33, 0xE3, 0x34),
                     Column(0x09, 0x36, 0x02, 0xDD), Column(0x5B, 0xFB, 0x12, 0xC7));
    MixColumnIs(mid.c0); MixColumnIs(mid.c1); MixColumnIs(mid.c2); MixColumnIs(mid.c3);
    NextState(Schedule(key), 4, CipherState(Schedule(key), Plaintext, 3), mid,
              State(Column(0x63, 0x85, 0xB7, 0x9F), Column(0xFC, 0x53, 0x8D, 0xF9),
                    Column(0x97, 0xBE, 0x47, 0x8E), Column(0x75, 0x47, 0xD6, 0x91)), RoundKey(Schedule(key), 4));
  }

  lemma Round5(key: seq<bv8>)
    requires KeyC1(key)
    ensures ValidKey(key, 4) && CipherState(Schedule(key), Plaintext, 5)
         == State(Column(0xC8, 0x16, 0x77, 0xBC), Column(0x9B, 0x7A, 0xC9, 0x3B),
                  Column(0x25, 0x02, 0x79, 0x92), Column(0xB0, 0x26, 0x19, 0x96))
  {
    hide KeyC1, CipherState, Schedule, RoundKey, SBox, MixColumn;
    Round4(key); RoundKey5(key);
    Row2(); Row3(); Row4(); Row5(); Row6(); Row7(); Row8(); RowB(); RowD(); RowF();
    var mid := State(Column(0x36, 0x33, 0x9D, 0x50), Column(0xF9, 0xB5, 0x39, 0x26),
                     Column(0x9F, 0x2C, 0x09, 0x2D), Column(0xC4, 0x40, 0x6D, 0x23));
    MixColumnIs(mid.c0); MixColumnIs(mid.c1); MixColumnIs(mid.c2); MixColumnIs(mid.c3);
    NextState(Schedule(key), 5, CipherState(Schedule(key), Plaintext, 4), mid,
              State(Column(0xF4, 0xBC, 0xD4, 0x54), Column(0x32, 0xE5, 0x54, 0xD0),
                    Column(0x75, 0xF1, 0xD6, 0xC5), Column(0x1D, 0xD0, 0x3B, 0x3C)), RoundKey(Schedule(key), 5));
  }

  lemma Round6(key: seq<bv8>)
    requires KeyC1(key)
    ensures ValidKey(key, 4) && CipherState(Schedule(key), Plaintext, 6)
         == State(Column(0xC6, 0x2F, 0xE1, 0x09), Column(0xF7, 0x5E, 0xED, 0xC3),
                  Column(0xCC, 0x79, 0x39, 0x5D), Column(0x84, 0xF9, 0xCF, 0x5D))
  {
    hide KeyC1, CipherState, Schedule, RoundKey, SBox, MixColumn;
    Round5(key); RoundKey6(key);
    Row0(); Row1(); Row2(); Row3(); Row7(); Row9(); RowB(); RowC();
    var mid := State(Column(0xE8, 0xDA, 0xB6, 0x90), Column(0x14, 0x77, 0xD4, 0x65),
                     Column(0x3F, 0xF7, 0xF5, 0xE2), Column(0xE7, 0x47, 0xDD, 0x4F));
    MixColumnIs(mid.c0); MixColumnIs(mid.c1); MixColumnIs(mid.c2); MixColumnIs(mid.c3);
    NextState(Schedule(key), 6, CipherState(Schedule(key), Plaintext, 5), mid,
              State(Column(0x98, 0x16, 0xEE, 0x74), Column(0x00, 0xF8, 0x7F, 0x55),
                    Column(0x6B, 0x2C, 0x04, 0x9C), Column(0x8E, 0x5A, 0xD0, 0x36)), RoundKey(Schedule(key), 6));
  }

  lemma Round7(key: seq<bv8>)
    requires KeyC1(key)
    ensures ValidKey(key, 4) && CipherState(Schedule(key), Plaintext, 7)
         == State(Column(0xD1, 0x87, 0x6C, 0x0F), Column(0x79, 0xC4, 0x30, 0x0A),
                  Column(0xB4, 0x55, 0x94, 0xAD), Column(0xD6, 0x6F, 0xF4, 0x1F))
  {
    hide KeyC1, CipherState, Schedule, RoundKey, SBox, MixColumn;
    Round6(key); RoundKey7(key);
    Row0(); Row2(); Row3(); Row5(); Row7(); Row8(); RowC(); RowE(); RowF();
    var mid := State(Column(0xB4, 0x58, 0x12, 0x4C), Column(0x68, 0xB6, 0x8A, 0x01),
                     Column(0x4B, 0x99, 0xF8, 0x2E), Column(0x5F, 0x15, 0x55, 0x4C));
    MixColumnIs(mid.c0); MixColumnIs(mid.c1); MixColumnIs(mid.c2); MixColumnIs(mid.c3);
    NextState(Schedule(key), 7, CipherState(Schedule(key), Plaintext, 6), mid,
              State(Column(0xC5, 0x7E, 0x1C, 0x15), Column(0x9A, 0x9B, 0xD2, 0x86),
                    Column(0xF0, 0x5F, 0x4B, 0xE0), Column(0x98, 0xC6, 0x34, 0x39)), RoundKey(Schedule(key), 7));
  }

  lemma Round8(key: seq<bv8>)
    requires KeyC1(key)
    ensures ValidKey(key, 4) && CipherState(Schedule(key), Plaintext, 8)
         == State(Column(0xFD, 0xE3, 0xBA, 0xD2), Column(0x05, 0xE5, 0xD0, 0xD7),
                  Column(0x35, 0x47, 0x96, 0x4E), Column(0xF1, 0xFE, 0x37, 0xF1))
  {
    hide KeyC1, CipherState, Schedule, RoundKey, SBox, MixColumn;
    Round7(key); RoundKey8(key);
    Row0(); Row1(); Row3(); Row5(); Row6(); Row7(); Row8(); Row9(); RowA(); RowB(); RowC(); RowD(); RowF();
    var mid := State(Column(0x3E, 0x1C, 0x22, 0xC0), Column(0xB6, 0xFC, 0xBF, 0x76),
                     Column(0x8D, 0xA8, 0x50, 0x67), Column(0xF6, 0x17, 0x04, 0x95));
    MixColumnIs(mid.c0); MixColumnIs(mid.c1); MixColumnIs(mid.c2); MixColumnIs(mid.c3);
    NextState(Schedule(key), 8, CipherState(Schedule(key), Plaintext, 7), mid,
              State(Column(0xBA, 0xA0, 0x3D, 0xE7), Column(0xA1, 0xF9, 0xB5, 0x6E),
                    Column(0xD5, 0x51, 0x2C, 0xBA), Column(0x5F, 0x41, 0x4D, 0x23)), RoundKey(Schedule(key), 8));
  }

  lemma Round9(key: seq<bv8>)
    requires KeyC1(key)
    ensures ValidKey(key, 4) && CipherState(Schedule(key), Plaintext, 9)
         == State(Column(0xBD, 0x6E, 0x7C, 0x3D), Column(0xF2, 0xB5, 0x77, 0x9E),
                  Column(0x0B, 0x61, 0x21, 0x6E), Column(0x8B, 0x10, 0xB6, 0x89))
  {
    hide KeyC1, CipherState, Schedule, RoundKey, SBox, MixColumn;
    Round8(key); RoundKey9(key);
    Row0(); Row3(); Row4(); Row9(); RowB(); RowD(); RowE(); RowF();
    var mid := State(Column(0x54, 0xD9, 0x90, 0xA1), Column(0x6B, 0xA0, 0x9A, 0xB5),
                     Column(0x96, 0xBB, 0xF4, 0x0E), Column(0xA1, 0x11, 0x70, 0x2F));
    MixColumnIs(mid.c0); MixColumnIs(mid.c1); MixColumnIs(mid.c2); MixColumnIs(mid.c3);
    NextState(Schedule(key), 9, CipherState(Schedule(key), Plaintext, 8), mid,
              State(Column(0xE9, 0xF7, 0x4E, 0xEC), Column(0x02, 0x30, 0x20, 0xF6),
                    Column(0x1B, 0xF2, 0xCC, 0xF2), Column(0x35, 0x3C, 0x21, 0xC7)), RoundKey(Schedule(key), 9));
  }

  /** The ciphertext of appendix C.1. */
  lemma CipherC1(key: seq<bv8>)
    requires KeyC1(key)
    ensures ValidKey(key, 4) && Cipher(Schedule(key), 10, Plaintext)
         == State(Column(0x69, 0xC4, 0xE0, 0xD8), Column(0x6A, 0x7B, 0x04, 0x30),
                  Column(0xD8, 0xCD, 0xB7, 0x80), Column(0x70, 0xB4, 0xC5, 0x5A))
  {
    hide KeyC1, CipherState, Schedule, RoundKey, SBox;
    Round9(key); RoundKey10(key);
    Row0(); Row1(); Row2(); Row3(); Row6(); Row7(); Row8(); Row9(); RowB(); RowF();
  }

  lemma CipherOnBlock(key: seq<bv8>, block: Block)
    requires ValidKey(key, 4)
    ensures KeyCipher(key, 4)(block) == FromState(Cipher(Schedule(key), 10, ToState(block)))
  {
    hide Cipher, FromState, ToState, Expanded;
  }

  /** A block written out. */
  ghost predicate Reads(b: Block, b0: bv8, b1: bv8, b2: bv8, b3: bv8, b4: bv8, b5: bv8, b6: bv8, b7: bv8,
                        b8: bv8, b9: bv8, b10: bv8, b11: bv8, b12: bv8, b13: bv8, b14: bv8, b15: bv8)
  {
    && b[0] == b0 && b[1] == b1 && b[2] == b2 && b[3] == b3 && b[4] == b4 && b[5] == b5 && b[6] == b6 && b[7] == b7
    && b[8] == b8 && b[9] == b9 && b[10] == b10 && b[11] == b11 && b[12] == b12 && b[13] == b13 && b[14] == b14 && b[15] == b15
  }

  /** Encrypting the block of appendix C.1 under its key. */
  lemma ExampleC1(key: seq<bv8>, block: Block)
    requires KeyC1(key)
    requires Reads(block, 0x00, 0x11, 0x22, 0x33, 0x44, 0x55, 0x66, 0x77,
                          0x88, 0x99, 0xAA, 0xBB, 0xCC, 0xDD, 0xEE, 0xFF)
    ensures ValidKey(key, 4)
    ensures Reads(KeyCipher(key, 4)(block), 0x69, 0xC4, 0xE0, 0xD8, 0x6A, 0x7B, 0x04, 0x30,
                                            0xD8, 0xCD, 0xB7, 0x80, 0x70, 0xB4, 0xC5, 0x5A)
  {
    hide KeyC1, Cipher, ToState, FromState, Schedule, KeyCipher;
    PlaintextC1(block);
    CipherC1(key);
    CipherOnBlock(key, block);
    WrittenOut(Cipher(Schedule(key), 10, Plaintext));
  }

  lemma PlaintextC1(block: Block)
    requires Reads(block, 0x00, 0x11, 0x22, 0x33, 0x44, 0x55, 0x66, 0x77,
                          0x88, 0x99, 0xAA, 0xBB, 0xCC, 0xDD, 0xEE, 0xFF)
    ensures ToState(block) == Plaintext
  {
  }

  lemma WrittenOut(s: State)
    ensures Reads(FromState(s), s.c0.r0, s.c0.r1, s.c0.r2, s.c0.r3, s.c1.r0, s.c1.r1, s.c1.r2, s.c1.r3,
                                s.c2.r0, s.c2.r1, s.c2.r2, s.c2.r3, s.c3.r0, s.c3.r1, s.c3.r2, s.c3.r3)
  {
  }
}
