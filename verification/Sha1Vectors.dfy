/**
 The example of section 7.3 of RFC 3174, word by word and step by step: the compression of the one
 block into which "abc" is padded.
 */
module Sha1Vectors {
  import opened Words
  import opened Sha1

  const Start := Registers(0x67452301, 0xEFCDAB89, 0x98BADCFE, 0x10325476, 0xC3D2E1F0)

  /** The padded message "abc". */
  ghost predicate Abc(data: Bytes64) {
    && data[0] == 0x61 && data[1] == 0x62 && data[2] == 0x63 && data[3] == 0x80 && data[63] == 0x18
    && forall i :: 4 <= i < 63 ==> data[i] == 0
  }

  lemma WordNext(data: Bytes64, t: nat)
    requires t >= 16
    ensures W(data, t) == Rotl1(Xor4(W(data, t - 3), W(data, t - 8), W(data, t - 14), W(data, t - 16)))
  {
    hide Rotl1, Xor4;
  }

  lemma FirstWords(data: Bytes64)
    requires Abc(data)
    ensures W(data, 0) == 0x61626380 && W(data, 1) == 0 && W(data, 2) == 0 && W(data, 3) == 0
    ensures W(data, 4) == 0 && W(data, 5) == 0 && W(data, 6) == 0 && W(data, 7) == 0 && W(data, 8) == 0
    ensures W(data, 9) == 0 && W(data, 10) == 0 && W(data, 11) == 0 && W(data, 12) == 0 && W(data, 13) == 0
    ensures W(data, 14) == 0 && W(data, 15) == 0x18
  {
    assert Pack(0x80, 0x63, 0x62, 0x61) == 0x61626380 && Pack(0x18, 0, 0, 0) == 0x18 && Pack(0, 0, 0, 0) == 0;
    hide Pack;
  }

  lemma Words16(data: Bytes64)
    requires Abc(data)
    ensures W(data, 16) == 0xC2C4C700 && W(data, 17) == 0x00000000 && W(data, 18) == 0x00000030 && W(data, 19) == 0x85898E01
    ensures W(data, 20) == 0x00000000 && W(data, 21) == 0x00000060 && W(data, 22) == 0x0B131C03 && W(data, 23) == 0x00000030
    ensures W(data, 24) == 0x85898EC1 && W(data, 25) == 0x16263806 && W(data, 26) == 0x00000000 && W(data, 27) == 0x00000180
    ensures W(data, 28) == 0x2C4C700C && W(data, 29) == 0x000000F0 && W(data, 30) == 0x93AFB507 && W(data, 31) == 0x5898E048
  {
    hide W, Abc;
    FirstWords(data);
    WordNext(data, 16); WordNext(data, 17); WordNext(data, 18); WordNext(data, 19);
    WordNext(data, 20); WordNext(data, 21); WordNext(data, 22); WordNext(data, 23);
    WordNext(data, 24); WordNext(data, 25); WordNext(data, 26); WordNext(data, 27);
    WordNext(data, 28); WordNext(data, 29); WordNext(data, 30); WordNext(data, 31);
  }

  lemma Words32(data: Bytes64)
    requires Abc(data)
    ensures W(data, 32) == 0x8E9A9202 && W(data, 33) == 0x00000600 && W(data, 34) == 0xB131C0F0 && W(data, 35) == 0x16263BC6
    ensures W(data, 36) == 0x4EBED41E && W(data, 37) == 0x626380A1 && W(data, 38) == 0x16263806 && W(data, 39) == 0x000018C0
    ensures W(data, 40) == 0xD2E138C4 && W(data, 41) == 0x00000F00 && W(data, 42) == 0x3AFB5079 && W(data, 43) == 0x898E04E5
    ensures W(data, 44) == 0xE2BA3C2B && W(data, 45) == 0x000060C0 && W(data, 46) == 0x053A37CD && W(data, 47) == 0x74458547
  {
    hide W, Abc;
    Words16(data);
    WordNext(data, 32); WordNext(data, 33); WordNext(data, 34); WordNext(data, 35);
    WordNext(data, 36); WordNext(data, 37); WordNext(data, 38); WordNext(data, 39);
    WordNext(data, 40); WordNext(data, 41); WordNext(data, 42); WordNext(data, 43);
    WordNext(data, 44); WordNext(data, 45); WordNext(data, 46); WordNext(data, 47);
  }

  lemma Words48(data: Bytes64)
    requires Abc(data)
    ensures W(data, 48) == 0xDA9415ED && W(data, 49) == 0x26380A16 && W(data, 50) == 0x626383A1 && W(data, 51) == 0x4EBF54DE
    ensures W(data, 52) == 0x3835B44B && W(data, 53) == 0x0000F600 && W(data, 54) == 0x1E84C7A3 && W(data, 55) == 0x98E04D98
    ensures W(data, 56) == 0x651D16A0 && W(data, 57) == 0x62658CA1 && W(data, 58) == 0x458544D6 && W(data, 59) == 0x44584CB7
    ensures W(data, 60) == 0x7BA06619 && W(data, 61) == 0x6380AEA2 && W(data, 62) == 0x0AE55269 && W(data, 63) == 0x627B49A1
  {
    hide W, Abc;
    Words32(data);
    WordNext(data, 48); WordNext(data, 49); WordNext(data, 50); WordNext(data, 51);
    WordNext(data, 52); WordNext(data, 53); WordNext(data, 54); WordNext(data, 55);
    WordNext(data, 56); WordNext(data, 57); WordNext(data, 58); WordNext(data, 59);
    WordNext(data, 60); WordNext(data, 61); WordNext(data, 62); WordNext(data, 63);
  }

  lemma Words64(data: Bytes64)
    requires Abc(data)
    ensures W(data, 64) == 0x7CD45C9D && W(data, 65) == 0x000F0000 && W(data, 66) == 0xFB50753A && W(data, 67) == 0xEC6765E8
    ensures W(data, 68) == 0xBA3C2BE2 && W(data, 69) == 0x0060C000 && W(data, 70) == 0x3A37CD05 && W(data, 71) == 0x458546F4
    ensures W(data, 72) == 0xB8599DD6 && W(data, 73) == 0x380A1A26 && W(data, 74) == 0x01E02203 && W(data, 75) == 0xE7CC3456
    ensures W(data, 76) == 0xE6E60B69 && W(data, 77) == 0x00F60A00 && W(data, 78) == 0x5795EF4F && W(data, 79) == 0x822E0879
  {
    hide W, Abc;
    Words48(data);
    WordNext(data, 64); WordNext(data, 65); WordNext(data, 66); WordNext(data, 67);
    WordNext(data, 68); WordNext(data, 69); WordNext(data, 70); WordNext(data, 71);
    WordNext(data, 72); WordNext(data, 73); WordNext(data, 74); WordNext(data, 75);
    WordNext(data, 76); WordNext(data, 77); WordNext(data, 78); WordNext(data, 79);
  }

  lemma Steps10(data: Bytes64)
    requires Abc(data)
    ensures Rounds(data, Start, 10) == Registers(0x8351F929, 0x4B6AE328, 0x27A301F5, 0x664F8C30, 0x0FF1F290)
  {
    hide W, Abc, Rounds;
    RoundsStart(data, Start); FirstWords(data);
    RoundsNext(data, Start, 0); RoundsNext(data, Start, 1); RoundsNext(data, Start, 2); RoundsNext(data, Start, 3); RoundsNext(data, Start, 4);
    RoundsNext(data, Start, 5); RoundsNext(data, Start, 6); RoundsNext(data, Start, 7); RoundsNext(data, Start, 8); RoundsNext(data, Start, 9);
  }

  lemma Steps20(data: Bytes64)
    requires Abc(data)
    ensures Rounds(data, Start, 20) == Registers(0xFD9E1D7D, 0xDC64901D, 0x20AA99CA, 0xD3A49608, 0xC82F758B)
  {
    hide W, Abc, Rounds;
    Steps10(data);
    FirstWords(data);
    Words16(data);
    RoundsNext(data, Start, 10); RoundsNext(data, Start, 11); RoundsNext(data, Start, 12); RoundsNext(data, Start, 13); RoundsNext(data, Start, 14);
    RoundsNext(data, Start, 15); RoundsNext(data, Start, 16); RoundsNext(data, Start, 17); RoundsNext(data, Start, 18); RoundsNext(data, Start, 19);
  }

  lemma Steps30(data: Bytes64)
    requires Abc(data)
    ensures Rounds(data, Start, 30) == Registers(0xC5FBAF5D, 0x8370B52E, 0xD2AA1365, 0x6F8D7EF5, 0x12104EE9)
  {
    hide W, Abc, Rounds;
    Steps20(data);
    Words16(data);
    RoundsNext(data, Start, 20); RoundsNext(data, Start, 21); RoundsNext(data, Start, 22); RoundsNext(data, Start, 23); RoundsNext(data, Start, 24);
    RoundsNext(data, Start, 25); RoundsNext(data, Start, 26); RoundsNext(data, Start, 27); RoundsNext(data, Start, 28); RoundsNext(data, Start, 29);
  }

  lemma Steps40(data: Bytes64)
    requires Abc(data)
    ensures Rounds(data, Start, 40) == Registers(0x32DE1CBA, 0x4C986405, 0xF718E5CF, 0x03D447F6, 0xF72EEC32)
  {
    hide W, Abc, Rounds;
    Steps30(data);
    Words16(data);
    Words32(data);
    RoundsNext(data, Start, 30); RoundsNext(data, Start, 31); RoundsNext(data, Start, 32); RoundsNext(data, Start, 33); RoundsNext(data, Start, 34);
    RoundsNext(data, Start, 35); RoundsNext(data, Start, 36); RoundsNext(data, Start, 37); RoundsNext(data, Start, 38); RoundsNext(data, Start, 39);
  }

  lemma Steps50(data: Bytes64)
    requires Abc(data)
    ensures Rounds(data, Start, 50) == Registers(0x120731C5, 0xBAF39337, 0xAFAB40B2, 0x2806E11B, 0x8714787C)
  {
    hide W, Abc, Rounds;
    Steps40(data);
    Words32(data);
    Words48(data);
    RoundsNext(data, Start, 40); RoundsNext(data, Start, 41); RoundsNext(data, Start, 42); RoundsNext(data, Start, 43); RoundsNext(data, Start, 44);
    RoundsNext(data, Start, 45); RoundsNext(data, Start, 46); RoundsNext(data, Start, 47); RoundsNext(data, Start, 48); RoundsNext(data, Start, 49);
  }

  lemma Steps60(data: Bytes64)
    requires Abc(data)
    ensures Rounds(data, Start, 60) == Registers(0x3F52DE5A, 0x09D785FD, 0x3498BFD4, 0xF211824F, 0xD79915AB)
  {
    hide W, Abc, Rounds;
    Steps50(data);
    Words48(data);
    RoundsNext(data, Start, 50); RoundsNext(data, Start, 51); RoundsNext(data, Start, 52); RoundsNext(data, Start, 53); RoundsNext(data, Start, 54);
    RoundsNext(data, Start, 55); RoundsNext(data, Start, 56); RoundsNext(data, Start, 57); RoundsNext(data, Start, 58); RoundsNext(data, Start, 59);
  }

  lemma Steps70(data: Bytes64)
    requires Abc(data)
    ensures Rounds(data, Start, 70) == Registers(0x3F2588C2, 0x497093C0, 0xDE37534A, 0x030F7CAD, 0x4405957E)
  {
    hide W, Abc, Rounds;
    Steps60(data);
    Words48(data);
    Words64(data);
    RoundsNext(data, Start, 60); RoundsNext(data, Start, 61); RoundsNext(data, Start, 62); RoundsNext(data, Start, 63); RoundsNext(data, Start, 64);
    RoundsNext(data, Start, 65); RoundsNext(data, Start, 66); RoundsNext(data, Start, 67); RoundsNext(data, Start, 68); RoundsNext(data, Start, 69);
  }

  lemma Steps80(data: Bytes64)
    requires Abc(data)
    ensures Rounds(data, Start, 80) == Registers(0x42541B35, 0x5738D5E1, 0x21834873, 0x681E6DF6, 0xD8FDF6AD)
  {
    hide W, Abc, Rounds;
    Steps70(data);
    Words64(data);
    RoundsNext(data, Start, 70); RoundsNext(data, Start, 71); RoundsNext(data, Start, 72); RoundsNext(data, Start, 73); RoundsNext(data, Start, 74);
    RoundsNext(data, Start, 75); RoundsNext(data, Start, 76); RoundsNext(data, Start, 77); RoundsNext(data, Start, 78); RoundsNext(data, Start, 79);
  }

  /** The registers at the end of the example. */
  lemma CompressAbc(data: Bytes64)
    requires Abc(data)
    ensures Compress(Start, data) == Registers(0xA9993E36, 0x4706816A, 0xBA3E2571, 0x7850C26C, 0x9CD0D89D)
  {
    hide Rounds, Abc;
    Steps80(data);
  }
}
