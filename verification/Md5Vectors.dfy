/**
 The digest of "abc" of appendix A.5 of RFC 1321, step by step: the compression of the one block into
 which the message is padded.
 */
module Md5Vectors {
  import opened Words
  import opened Md5

  const Start := Registers(0x67452301, 0xEFCDAB89, 0x98BADCFE, 0x10325476)

  /** The padded message "abc". */
  ghost predicate Abc(data: Bytes64) {
    && data[0] == 0x61 && data[1] == 0x62 && data[2] == 0x63 && data[3] == 0x80 && data[56] == 0x18
    && forall i :: 4 <= i < 64 && i != 56 ==> data[i] == 0
  }

  lemma MessageWords(data: Bytes64)
    requires Abc(data)
    ensures LittleEndian(data, 0) == 0x80636261 && LittleEndian(data, 56) == 0x18
    ensures LittleEndian(data, 4) == 0 && LittleEndian(data, 8) == 0 && LittleEndian(data, 12) == 0
    ensures LittleEndian(data, 16) == 0 && LittleEndian(data, 20) == 0 && LittleEndian(data, 24) == 0
    ensures LittleEndian(data, 28) == 0 && LittleEndian(data, 32) == 0 && LittleEndian(data, 36) == 0
    ensures LittleEndian(data, 40) == 0 && LittleEndian(data, 44) == 0 && LittleEndian(data, 48) == 0
    ensures LittleEndian(data, 52) == 0 && LittleEndian(data, 60) == 0
  {
    assert Pack(0x61, 0x62, 0x63, 0x80) == 0x80636261 && Pack(0x18, 0, 0, 0) == 0x18 && Pack(0, 0, 0, 0) == 0;
    hide Pack;
  }

  /** One step, with the word, shift and table entry it uses. */
  lemma Next(data: Bytes64, i: nat, at: nat, s: bv32, t: bv32, r: Registers)
    requires Operations(data, Start, i) == r && at == 4 * Word(i) && s == Shift(i) && t == T(i)
    ensures Operations(data, Start, i + 1)
         == Registers(r.d, Plus(r.b, Rotl(Sum(r.a, Mix(i, r.b, r.c, r.d), LittleEndian(data, at), t), s)), r.b, r.c)
  {
    hide Operations, Word, Shift, T, Plus, Rotl, Sum, Mix, LittleEndian;
    OperationsNext(data, Start, i);
  }

  lemma Steps8(data: Bytes64)
    requires Abc(data)
    ensures Operations(data, Start, 8) == Registers(0xC73741EF, 0x928D99F6, 0x207DC67B, 0x8BAC3051)
  {
    hide Abc, Operations, LittleEndian, Word, Shift, T;
    OperationsStart(data, Start);
    MessageWords(data);
    Constants0();
    Next(data, 0, 0, 7, 0xD76AA478, Registers(0x67452301, 0xEFCDAB89, 0x98BADCFE, 0x10325476));
    Next(data, 1, 4, 12, 0xE8C7B756, Registers(0x10325476, 0xD6D117B4, 0xEFCDAB89, 0x98BADCFE));
    Next(data, 2, 8, 17, 0x242070DB, Registers(0x98BADCFE, 0x344A8432, 0xD6D117B4, 0xEFCDAB89));
    Next(data, 3, 12, 22, 0xC1BDCEEE, Registers(0xEFCDAB89, 0x2F6FBD72, 0x344A8432, 0xD6D117B4));
    Next(data, 4, 16, 7, 0xF57C0FAF, Registers(0xD6D117B4, 0x7AD956F2, 0x2F6FBD72, 0x344A8432));
    Next(data, 5, 20, 12, 0x4787C62A, Registers(0x344A8432, 0xC73741EF, 0x7AD956F2, 0x2F6FBD72));
    Next(data, 6, 24, 17, 0xA8304613, Registers(0x2F6FBD72, 0x8BAC3051, 0xC73741EF, 0x7AD956F2));
    Next(data, 7, 28, 22, 0xFD469501, Registers(0x7AD956F2, 0x207DC67B, 0x8BAC3051, 0xC73741EF));
  }

  lemma Steps16(data: Bytes64)
    requires Abc(data)
    ensures Operations(data, Start, 16) == Registers(0xDDA9B9A6, 0x72AFF2E0, 0xE396856B, 0xA1051895)
  {
    hide Abc, Operations, LittleEndian, Word, Shift, T;
    Steps8(data);
    MessageWords(data);
    Constants8();
    Next(data, 8, 32, 7, 0x698098D8, Registers(0xC73741EF, 0x928D99F6, 0x207DC67B, 0x8BAC3051));
    Next(data, 9, 36, 12, 0x8B44F7AF, Registers(0x8BAC3051, 0x854B3712, 0x928D99F6, 0x207DC67B));
    Next(data, 10, 40, 17, 0xFFFF5BB1, Registers(0x207DC67B, 0x74E2F284, 0x854B3712, 0x928D99F6));
    Next(data, 11, 44, 22, 0x895CD7BE, Registers(0x928D99F6, 0x3020401C, 0x74E2F284, 0x854B3712));
    Next(data, 12, 48, 7, 0x6B901122, Registers(0x854B3712, 0x5ED49596, 0x3020401C, 0x74E2F284));
    Next(data, 13, 52, 12, 0xFD987193, Registers(0x74E2F284, 0xDDA9B9A6, 0x5ED49596, 0x3020401C));
    Next(data, 14, 56, 17, 0xA679438E, Registers(0x3020401C, 0xA1051895, 0xDDA9B9A6, 0x5ED49596));
    Next(data, 15, 60, 22, 0x49B40821, Registers(0x5ED49596, 0xE396856B, 0xA1051895, 0xDDA9B9A6));
  }

  lemma Steps24(data: Bytes64)
    requires Abc(data)
    ensures Operations(data, Start, 24) == Registers(0x59A8FFDA, 0x47092C07, 0xABFC7920, 0x6D002F1E)
  {
    hide Abc, Operations, LittleEndian, Word, Shift, T;
    Steps16(data);
    MessageWords(data);
    Constants16();
    Next(data, 16, 4, 5, 0xF61E2562, Registers(0xDDA9B9A6, 0x72AFF2E0, 0xE396856B, 0xA1051895));
    Next(data, 17, 24, 9, 0xC040B340, Registers(0xA1051895, 0x3E9E9126, 0x72AFF2E0, 0xE396856B));
    Next(data, 18, 44, 14, 0x265E5A51, Registers(0xE396856B, 0x4A1D804E, 0x3E9E9126, 0x72AFF2E0));
    Next(data, 19, 0, 20, 0xE9B6C7AA, Registers(0x72AFF2E0, 0xE25E1652, 0x4A1D804E, 0x3E9E9126));
    Next(data, 20, 20, 5, 0xD62F105D, Registers(0x3E9E9126, 0xB5B204E4, 0xE25E1652, 0x4A1D804E));
    Next(data, 21, 40, 9, 0x02441453, Registers(0x4A1D804E, 0x59A8FFDA, 0xB5B204E4, 0xE25E1652));
    Next(data, 22, 60, 14, 0xD8A1E681, Registers(0xE25E1652, 0x6D002F1E, 0x59A8FFDA, 0xB5B204E4));
    Next(data, 23, 16, 20, 0xE7D3FBC8, Registers(0xB5B204E4, 0xABFC7920, 0x6D002F1E, 0x59A8FFDA));
  }

  lemma Steps32(data: Bytes64)
    requires Abc(data)
    ensures Operations(data, Start, 32) == Registers(0x790A77FB, 0x726342D3, 0xA62884AA, 0x9F47E4F8)
  {
    hide Abc, Operations, LittleEndian, Word, Shift, T;
    Steps24(data);
    MessageWords(data);
    Constants24();
    Next(data, 24, 36, 5, 0x21E1CDE6, Registers(0x59A8FFDA, 0x47092C07, 0xABFC7920, 0x6D002F1E));
    Next(data, 25, 56, 9, 0xC33707D6, Registers(0x6D002F1E, 0xB7F268CF, 0x47092C07, 0xABFC7920));
    Next(data, 26, 12, 14, 0xF4D50D87, Registers(0xABFC7920, 0x09388EFF, 0xB7F268CF, 0x47092C07));
    Next(data, 27, 32, 20, 0x455A14ED, Registers(0x47092C07, 0xFE1623B1, 0x09388EFF, 0xB7F268CF));
    Next(data, 28, 52, 5, 0xA9E3E905, Registers(0xB7F268CF, 0x786ACB8F, 0xFE1623B1, 0x09388EFF));
    Next(data, 29, 8, 9, 0xFCEFA3F8, Registers(0x09388EFF, 0x790A77FB, 0x786ACB8F, 0xFE1623B1));
    Next(data, 30, 28, 14, 0x676F02D9, Registers(0xFE1623B1, 0x9F47E4F8, 0x790A77FB, 0x786ACB8F));
    Next(data, 31, 48, 20, 0x8D2A4C8A, Registers(0x786ACB8F, 0xA62884AA, 0x9F47E4F8, 0x790A77FB));
  }

  lemma Steps40(data: Bytes64)
    requires Abc(data)
    ensures Operations(data, Start, 40) == Registers(0x21B117B9, 0x5A2F5EA5, 0x3575227E, 0x6E7429D5)
  {
    hide Abc, Operations, LittleEndian, Word, Shift, T;
    Steps32(data);
    MessageWords(data);
    Constants32();
    Next(data, 32, 20, 4, 0xFFFA3942, Registers(0x790A77FB, 0x726342D3, 0xA62884AA, 0x9F47E4F8));
    Next(data, 33, 32, 11, 0x8771F681, Registers(0x9F47E4F8, 0xB3707EBF, 0x726342D3, 0xA62884AA));
    Next(data, 34, 44, 16, 0x6D9D6122, Registers(0xA62884AA, 0x60127B2E, 0xB3707EBF, 0x726342D3));
    Next(data, 35, 56, 23, 0xFDE5380C, Registers(0x726342D3, 0x8D212FF5, 0x60127B2E, 0xB3707EBF));
    Next(data, 36, 4, 4, 0xA4BEEA44, Registers(0xB3707EBF, 0x3B0875C7, 0x8D212FF5, 0x60127B2E));
    Next(data, 37, 16, 11, 0x4BDECFA9, Registers(0x60127B2E, 0x21B117B9, 0x3B0875C7, 0x8D212FF5));
    Next(data, 38, 28, 16, 0xF6BB4B60, Registers(0x8D212FF5, 0x6E7429D5, 0x21B117B9, 0x3B0875C7));
    Next(data, 39, 40, 23, 0xBEBFBC70, Registers(0x3B0875C7, 0x3575227E, 0x6E7429D5, 0x21B117B9));
  }

  lemma Steps48(data: Bytes64)
    requires Abc(data)
    ensures Operations(data, Start, 48) == Registers(0x7F2E507B, 0x7BEB9700, 0x8FAE6399, 0x99D9679D)
  {
    hide Abc, Operations, LittleEndian, Word, Shift, T;
    Steps40(data);
    MessageWords(data);
    Constants40();
    Next(data, 40, 52, 4, 0x289B7EC6, Registers(0x21B117B9, 0x5A2F5EA5, 0x3575227E, 0x6E7429D5));
    Next(data, 41, 0, 11, 0xEAA127FA, Registers(0x6E7429D5, 0x11DE1779, 0x5A2F5EA5, 0x3575227E));
    Next(data, 42, 12, 16, 0xD4EF3085, Registers(0x3575227E, 0xFADCAA38, 0x11DE1779, 0x5A2F5EA5));
    Next(data, 43, 24, 23, 0x04881D05, Registers(0x5A2F5EA5, 0x31C465CA, 0xFADCAA38, 0x11DE1779));
    Next(data, 44, 36, 4, 0xD9D4D039, Registers(0x11DE1779, 0x4C6124F4, 0x31C465CA, 0xFADCAA38));
    Next(data, 45, 48, 11, 0xE6DB99E5, Registers(0xFADCAA38, 0x7F2E507B, 0x4C6124F4, 0x31C465CA));
    Next(data, 46, 60, 16, 0x1FA27CF8, Registers(0x31C465CA, 0x99D9679D, 0x7F2E507B, 0x4C6124F4));
    Next(data, 47, 8, 23, 0xC4AC5665, Registers(0x4C6124F4, 0x8FAE6399, 0x99D9679D, 0x7F2E507B));
  }

  lemma Steps56(data: Bytes64)
    requires Abc(data)
    ensures Operations(data, Start, 56) == Registers(0x06CC5E8A, 0x3BFA2C27, 0x7D632DD0, 0x5B0D97AA)
  {
    hide Abc, Operations, LittleEndian, Word, Shift, T;
    Steps48(data);
    MessageWords(data);
    Constants48();
    Next(data, 48, 0, 6, 0xF4292244, Registers(0x7F2E507B, 0x7BEB9700, 0x8FAE6399, 0x99D9679D));
    Next(data, 49, 28, 10, 0x432AFF97, Registers(0x99D9679D, 0x7B201DF8, 0x7BEB9700, 0x8FAE6399));
    Next(data, 50, 56, 15, 0xAB9423A7, Registers(0x8FAE6399, 0xF4E8E96E, 0x7B201DF8, 0x7BEB9700));
    Next(data, 51, 20, 21, 0xFC93A039, Registers(0x7BEB9700, 0xB298CEFD, 0xF4E8E96E, 0x7B201DF8));
    Next(data, 52, 48, 6, 0x655B59C3, Registers(0x7B201DF8, 0x8BF025C4, 0xB298CEFD, 0xF4E8E96E));
    Next(data, 53, 12, 10, 0x8F0CCC92, Registers(0xF4E8E96E, 0x06CC5E8A, 0x8BF025C4, 0xB298CEFD));
    Next(data, 54, 40, 15, 0xFFEFF47D, Registers(0xB298CEFD, 0x5B0D97AA, 0x06CC5E8A, 0x8BF025C4));
    Next(data, 55, 4, 21, 0x85845DD1, Registers(0x8BF025C4, 0x7D632DD0, 0x5B0D97AA, 0x06CC5E8A));
  }

  lemma Steps64(data: Bytes64)
    requires Abc(data)
    ensures Operations(data, Start, 64) == Registers(0x310ADE8F, 0xC08226B3, 0xE484B9D8, 0x624D8CB2)
  {
    hide Abc, Operations, LittleEndian, Word, Shift, T;
    Steps56(data);
    MessageWords(data);
    Constants56();
    Next(data, 56, 32, 6, 0x6FA87E4F, Registers(0x06CC5E8A, 0x3BFA2C27, 0x7D632DD0, 0x5B0D97AA));
    Next(data, 57, 60, 10, 0xFE2CE6E0, Registers(0x5B0D97AA, 0x7F81CC35, 0x3BFA2C27, 0x7D632DD0));
    Next(data, 58, 24, 15, 0xA3014314, Registers(0x7D632DD0, 0x094454AB, 0x7F81CC35, 0x3BFA2C27));
    Next(data, 59, 52, 21, 0x4E0811A1, Registers(0x3BFA2C27, 0x4F9DBE3F, 0x094454AB, 0x7F81CC35));
    Next(data, 60, 16, 6, 0xF7537E82, Registers(0x7F81CC35, 0x7327D604, 0x4F9DBE3F, 0x094454AB));
    Next(data, 61, 44, 10, 0xBD3AF235, Registers(0x094454AB, 0x310ADE8F, 0x7327D604, 0x4F9DBE3F));
    Next(data, 62, 8, 15, 0x2AD7D2BB, Registers(0x4F9DBE3F, 0x624D8CB2, 0x310ADE8F, 0x7327D604));
    Next(data, 63, 36, 21, 0xEB86D391, Registers(0x7327D604, 0xE484B9D8, 0x624D8CB2, 0x310ADE8F));
  }

  /** The registers at the end. */
  lemma CompressAbc(data: Bytes64)
    requires Abc(data)
    ensures Compress(Start, data) == Registers(0x98500190, 0xB04FD23C, 0x7D3F96D6, 0x727FE128)
  {
    hide Operations, Abc;
    Steps64(data);
  }
}
