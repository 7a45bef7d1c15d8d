/**
 The S-box of figure 7 of FIPS 197, from the powers of 3 that fill the logarithm tables.
 */
module SBoxTable {
  import opened GaloisField
  import opened FipsAes
  import opened AesTables

  // ---------------------------------------------------------------- powers of 3

  lemma PowerNext(k: nat)
    ensures Power(3, k + 1) == Power(3, k) ^ Xtime(Power(3, k))
  {
    hide Mul, Xtime;
    TimesThree(Power(3, k));
  }

  lemma Powers00()
    ensures Power(3, 0) == 0x01 && Power(3, 1) == 0x03 && Power(3, 2) == 0x05 && Power(3, 3) == 0x0F
    ensures Power(3, 4) == 0x11 && Power(3, 5) == 0x33 && Power(3, 6) == 0x55 && Power(3, 7) == 0xFF
    ensures Power(3, 8) == 0x1A && Power(3, 9) == 0x2E && Power(3, 10) == 0x72 && Power(3, 11) == 0x96
    ensures Power(3, 12) == 0xA1 && Power(3, 13) == 0xF8 && Power(3, 14) == 0x13 && Power(3, 15) == 0x35
  {
    hide Power;
    PowerBase(3);
    PowerNext(0); PowerNext(1); PowerNext(2); PowerNext(3); PowerNext(4); PowerNext(5);
    PowerNext(6); PowerNext(7); PowerNext(8); PowerNext(9); PowerNext(10); PowerNext(11);
    PowerNext(12); PowerNext(13); PowerNext(14);
  }

  lemma Powers10()
    ensures Power(3, 16) == 0x5F && Power(3, 17) == 0xE1 && Power(3, 18) == 0x38 && Power(3, 19) == 0x48
    ensures Power(3, 20) == 0xD8 && Power(3, 21) == 0x73 && Power(3, 22) == 0x95 && Power(3, 23) == 0xA4
    ensures Power(3, 24) == 0xF7 && Power(3, 25) == 0x02 && Power(3, 26) == 0x06 && Power(3, 27) == 0x0A
    ensures Power(3, 28) == 0x1E && Power(3, 29) == 0x22 && Power(3, 30) == 0x66 && Power(3, 31) == 0xAA
  {
    hide Power;
    Powers00();
    PowerNext(15); PowerNext(16); PowerNext(17); PowerNext(18); PowerNext(19); PowerNext(20);
    PowerNext(21); PowerNext(22); PowerNext(23); PowerNext(24); PowerNext(25); PowerNext(26);
    PowerNext(27); PowerNext(28); PowerNext(29); PowerNext(30);
  }

  lemma Powers20()
    ensures Power(3, 32) == 0xE5 && Power(3, 33) == 0x34 && Power(3, 34) == 0x5C && Power(3, 35) == 0xE4
    ensures Power(3, 36) == 0x37 && Power(3, 37) == 0x59 && Power(3, 38) == 0xEB && Power(3, 39) == 0x26
    ensures Power(3, 40) == 0x6A && Power(3, 41) == 0xBE && Power(3, 42) == 0xD9 && Power(3, 43) == 0x70
    ensures Power(3, 44) == 0x90 && Power(3, 45) == 0xAB && Power(3, 46) == 0xE6 && Power(3, 47) == 0x31
  {
    hide Power;
    Powers10();
    PowerNext(31); PowerNext(32); PowerNext(33); PowerNext(34); PowerNext(35); PowerNext(36);
    PowerNext(37); PowerNext(38); PowerNext(39); PowerNext(40); PowerNext(41); PowerNext(42);
    PowerNext(43); PowerNext(44); PowerNext(45); PowerNext(46);
  }

  lemma Powers30()
    ensures Power(3, 48) == 0x53 && Power(3, 49) == 0xF5 && Power(3, 50) == 0x04 && Power(3, 51) == 0x0C
    ensures Power(3, 52) == 0x14 && Power(3, 53) == 0x3C && Power(3, 54) == 0x44 && Power(3, 55) == 0xCC
    ensures Power(3, 56) == 0x4F && Power(3, 57) == 0xD1 && Power(3, 58) == 0x68 && Power(3, 59) == 0xB8
    ensures Power(3, 60) == 0xD3 && Power(3, 61) == 0x6E && Power(3, 62) == 0xB2 && Power(3, 63) == 0xCD
  {
    hide Power;
    Powers20();
    PowerNext(47); PowerNext(48); PowerNext(49); PowerNext(50); PowerNext(51); PowerNext(52);
    PowerNext(53); PowerNext(54); PowerNext(55); PowerNext(56); PowerNext(57); PowerNext(58);
    PowerNext(59); PowerNext(60); PowerNext(61); PowerNext(62);
  }

  lemma Powers40()
    ensures Power(3, 64) == 0x4C && Power(3, 65) == 0xD4 && Power(3, 66) == 0x67 && Power(3, 67) == 0xA9
    ensures Power(3, 68) == 0xE0 && Power(3, 69) == 0x3B && Power(3, 70) == 0x4D && Power(3, 71) == 0xD7
    ensures Power(3, 72) == 0x62 && Power(3, 73) == 0xA6 && Power(3, 74) == 0xF1 && Power(3, 75) == 0x08
    ensures Power(3, 76) == 0x18 && Power(3, 77) == 0x28 && Power(3, 78) == 0x78 && Power(3, 79) == 0x88
  {
    hide Power;
    Powers30();
    PowerNext(63); PowerNext(64); PowerNext(65); PowerNext(66); PowerNext(67); PowerNext(68);
    PowerNext(69); PowerNext(70); PowerNext(71); PowerNext(72); PowerNext(73); PowerNext(74);
    PowerNext(75); PowerNext(76); PowerNext(77); PowerNext(78);
  }

  lemma Powers50()
    ensures Power(3, 80) == 0x83 && Power(3, 81) == 0x9E && Power(3, 82) == 0xB9 && Power(3, 83) == 0xD0
    ensures Power(3, 84) == 0x6B && Power(3, 85) == 0xBD && Power(3, 86) == 0xDC && Power(3, 87) == 0x7F
    ensures Power(3, 88) == 0x81 && Power(3, 89) == 0x98 && Power(3, 90) == 0xB3 && Power(3, 91) == 0xCE
    ensures Power(3, 92) == 0x49 && Power(3, 93) == 0xDB && Power(3, 94) == 0x76 && Power(3, 95) == 0x9A
  {
    hide Power;
    Powers40();
    PowerNext(79); PowerNext(80); PowerNext(81); PowerNext(82); PowerNext(83); PowerNext(84);
    PowerNext(85); PowerNext(86); PowerNext(87); PowerNext(88); PowerNext(89); PowerNext(90);
    PowerNext(91); PowerNext(92); PowerNext(93); PowerNext(94);
  }

  lemma Powers60()
    ensures Power(3, 96) == 0xB5 && Power(3, 97) == 0xC4 && Power(3, 98) == 0x57 && Power(3, 99) == 0xF9
    ensures Power(3, 100) == 0x10 && Power(3, 101) == 0x30 && Power(3, 102) == 0x50 && Power(3, 103) == 0xF0
    ensures Power(3, 104) == 0x0B && Power(3, 105) == 0x1D && Power(3, 106) == 0x27 && Power(3, 107) == 0x69
    ensures Power(3, 108) == 0xBB && Power(3, 109) == 0xD6 && Power(3, 110) == 0x61 && Power(3, 111) == 0xA3
  {
    hide Power;
    Powers50();
    PowerNext(95); PowerNext(96); PowerNext(97); PowerNext(98); PowerNext(99); PowerNext(100);
    PowerNext(101); PowerNext(102); PowerNext(103); PowerNext(104); PowerNext(105); PowerNext(106);
    PowerNext(107); PowerNext(108); PowerNext(109); PowerNext(110);
  }

  lemma Powers70()
    ensures Power(3, 112) == 0xFE && Power(3, 113) == 0x19 && Power(3, 114) == 0x2B && Power(3, 115) == 0x7D
    ensures Power(3, 116) == 0x87 && Power(3, 117) == 0x92 && Power(3, 118) == 0xAD && Power(3, 119) == 0xEC
    ensures Power(3, 120) == 0x2F && Power(3, 121) == 0x71 && Power(3, 122) == 0x93 && Power(3, 123) == 0xAE
    ensures Power(3, 124) == 0xE9 && Power(3, 125) == 0x20 && Power(3, 126) == 0x60 && Power(3, 127) == 0xA0
  {
    hide Power;
    Powers60();
    PowerNext(111); PowerNext(112); PowerNext(113); PowerNext(114); PowerNext(115); PowerNext(116);
    PowerNext(117); PowerNext(118); PowerNext(119); PowerNext(120); PowerNext(121); PowerNext(122);
    PowerNext(123); PowerNext(124); PowerNext(125); PowerNext(126);
  }

  lemma Powers80()
    ensures Power(3, 128) == 0xFB && Power(3, 129) == 0x16 && Power(3, 130) == 0x3A && Power(3, 131) == 0x4E
    ensures Power(3, 132) == 0xD2 && Power(3, 133) == 0x6D && Power(3, 134) == 0xB7 && Power(3, 135) == 0xC2
    ensures Power(3, 136) == 0x5D && Power(3, 137) == 0xE7 && Power(3, 138) == 0x32 && Power(3, 139) == 0x56
    ensures Power(3, 140) == 0xFA && Power(3, 141) == 0x15 && Power(3, 142) == 0x3F && Power(3, 143) == 0x41
  {
    hide Power;
    Powers70();
    PowerNext(127); PowerNext(128); PowerNext(129); PowerNext(130); PowerNext(131); PowerNext(132);
    PowerNext(133); PowerNext(134); PowerNext(135); PowerNext(136); PowerNext(137); PowerNext(138);
    PowerNext(139); PowerNext(140); PowerNext(141); PowerNext(142);
  }

  lemma Powers90()
    ensures Power(3, 144) == 0xC3 && Power(3, 145) == 0x5E && Power(3, 146) == 0xE2 && Power(3, 147) == 0x3D
    ensures Power(3, 148) == 0x47 && Power(3, 149) == 0xC9 && Power(3, 150) == 0x40 && Power(3, 151) == 0xC0
    ensures Power(3, 152) == 0x5B && Power(3, 153) == 0xED && Power(3, 154) == 0x2C && Power(3, 155) == 0x74
    ensures Power(3, 156) == 0x9C && Power(3, 157) == 0xBF && Power(3, 158) == 0xDA && Power(3, 159) == 0x75
  {
    hide Power;
    Powers80();
    PowerNext(143); PowerNext(144); PowerNext(145); PowerNext(146); PowerNext(147); PowerNext(148);
    PowerNext(149); PowerNext(150); PowerNext(151); PowerNext(152); PowerNext(153); PowerNext(154);
    PowerNext(155); PowerNext(156); PowerNext(157); PowerNext(158);
  }

  lemma PowersA0()
    ensures Power(3, 160) == 0x9F && Power(3, 161) == 0xBA && Power(3, 162) == 0xD5 && Power(3, 163) == 0x64
    ensures Power(3, 164) == 0xAC && Power(3, 165) == 0xEF && Power(3, 166) == 0x2A && Power(3, 167) == 0x7E
    ensures Power(3, 168) == 0x82 && Power(3, 169) == 0x9D && Power(3, 170) == 0xBC && Power(3, 171) == 0xDF
    ensures Power(3, 172) == 0x7A && Power(3, 173) == 0x8E && Power(3, 174) == 0x89 && Power(3, 175) == 0x80
  {
    hide Power;
    Powers90();
    PowerNext(159); PowerNext(160); PowerNext(161); PowerNext(162); PowerNext(163); PowerNext(164);
    PowerNext(165); PowerNext(166); PowerNext(167); PowerNext(168); PowerNext(169); PowerNext(170);
    PowerNext(171); PowerNext(172); PowerNext(173); PowerNext(174);
  }

  lemma PowersB0()
    ensures Power(3, 176) == 0x9B && Power(3, 177) == 0xB6 && Power(3, 178) == 0xC1 && Power(3, 179) == 0x58
    ensures Power(3, 180) == 0xE8 && Power(3, 181) == 0x23 && Power(3, 182) == 0x65 && Power(3, 183) == 0xAF
    ensures Power(3, 184) == 0xEA && Power(3, 185) == 0x25 && Power(3, 186) == 0x6F && Power(3, 187) == 0xB1
    ensures Power(3, 188) == 0xC8 && Power(3, 189) == 0x43 && Power(3, 190) == 0xC5 && Power(3, 191) == 0x54
  {
    hide Power;
    PowersA0();
    PowerNext(175); PowerNext(176); PowerNext(177); PowerNext(178); PowerNext(179); PowerNext(180);
    PowerNext(181); PowerNext(182); PowerNext(183); PowerNext(184); PowerNext(185); PowerNext(186);
    PowerNext(187); PowerNext(188); PowerNext(189); PowerNext(190);
  }

  lemma PowersC0()
    ensures Power(3, 192) == 0xFC && Power(3, 193) == 0x1F && Power(3, 194) == 0x21 && Power(3, 195) == 0x63
    ensures Power(3, 196) == 0xA5 && Power(3, 197) == 0xF4 && Power(3, 198) == 0x07 && Power(3, 199) == 0x09
    ensures Power(3, 200) == 0x1B && Power(3, 201) == 0x2D && Power(3, 202) == 0x77 && Power(3, 203) == 0x99
    ensures Power(3, 204) == 0xB0 && Power(3, 205) == 0xCB && Power(3, 206) == 0x46 && Power(3, 207) == 0xCA
  {
    hide Power;
    PowersB0();
    PowerNext(191); PowerNext(192); PowerNext(193); PowerNext(194); PowerNext(195); PowerNext(196);
    PowerNext(197); PowerNext(198); PowerNext(199); PowerNext(200); PowerNext(201); PowerNext(202);
    PowerNext(203); PowerNext(204); PowerNext(205); PowerNext(206);
  }

  lemma PowersD0()
    ensures Power(3, 208) == 0x45 && Power(3, 209) == 0xCF && Power(3, 210) == 0x4A && Power(3, 211) == 0xDE
    ensures Power(3, 212) == 0x79 && Power(3, 213) == 0x8B && Power(3, 214) == 0x86 && Power(3, 215) == 0x91
    ensures Power(3, 216) == 0xA8 && Power(3, 217) == 0xE3 && Power(3, 218) == 0x3E && Power(3, 219) == 0x42
    ensures Power(3, 220) == 0xC6 && Power(3, 221) == 0x51 && Power(3, 222) == 0xF3 && Power(3, 223) == 0x0E
  {
    hide Power;
    PowersC0();
    PowerNext(207); PowerNext(208); PowerNext(209); PowerNext(210); PowerNext(211); PowerNext(212);
    PowerNext(213); PowerNext(214); PowerNext(215); PowerNext(216); PowerNext(217); PowerNext(218);
    PowerNext(219); PowerNext(220); PowerNext(221); PowerNext(222);
  }

  lemma PowersE0()
    ensures Power(3, 224) == 0x12 && Power(3, 225) == 0x36 && Power(3, 226) == 0x5A && Power(3, 227) == 0xEE
    ensures Power(3, 228) == 0x29 && Power(3, 229) == 0x7B && Power(3, 230) == 0x8D && Power(3, 231) == 0x8C
    ensures Power(3, 232) == 0x8F && Power(3, 233) == 0x8A && Power(3, 234) == 0x85 && Power(3, 235) == 0x94
    ensures Power(3, 236) == 0xA7 && Power(3, 237) == 0xF2 && Power(3, 238) == 0x0D && Power(3, 239) == 0x17
  {
    hide Power;
    PowersD0();
    PowerNext(223); PowerNext(224); PowerNext(225); PowerNext(226); PowerNext(227); PowerNext(228);
    PowerNext(229); PowerNext(230); PowerNext(231); PowerNext(232); PowerNext(233); PowerNext(234);
    PowerNext(235); PowerNext(236); PowerNext(237); PowerNext(238);
  }

  lemma PowersF0()
    ensures Power(3, 240) == 0x39 && Power(3, 241) == 0x4B && Power(3, 242) == 0xDD && Power(3, 243) == 0x7C
    ensures Power(3, 244) == 0x84 && Power(3, 245) == 0x97 && Power(3, 246) == 0xA2 && Power(3, 247) == 0xFD
    ensures Power(3, 248) == 0x1C && Power(3, 249) == 0x24 && Power(3, 250) == 0x6C && Power(3, 251) == 0xB4
    ensures Power(3, 252) == 0xC7 && Power(3, 253) == 0x52 && Power(3, 254) == 0xF6 && Power(3, 255) == 0x01
  {
    hide Power;
    PowersE0();
    PowerNext(239); PowerNext(240); PowerNext(241); PowerNext(242); PowerNext(243); PowerNext(244);
    PowerNext(245); PowerNext(246); PowerNext(247); PowerNext(248); PowerNext(249); PowerNext(250);
    PowerNext(251); PowerNext(252); PowerNext(253); PowerNext(254);
  }

  // ---------------------------------------------------------------- figure 7

  /** Substituting the k-th power of 3: its inverse is the power that completes it to the 255th. */
  lemma SBoxAtPower(k: nat)
    requires k <= 255
    ensures SBox(Power(3, k)) == Affine(Power(3, 255 - k))
  {
    hide *;
    PowerAdd(3, 255 - k, k);
    ThreeAtDivisors();
    InverseUnique(Power(3, k), Power(3, 255 - k));
    SBoxIs(Power(3, k), Affine(Power(3, 255 - k)));
  }

  lemma Row0()
    ensures SBox(0x00) == 0x63 && SBox(0x01) == 0x7C && SBox(0x02) == 0x77 && SBox(0x03) == 0x7B
    ensures SBox(0x04) == 0xF2 && SBox(0x05) == 0x6B && SBox(0x06) == 0x6F && SBox(0x07) == 0xC5
    ensures SBox(0x08) == 0x30 && SBox(0x09) == 0x01 && SBox(0x0A) == 0x67 && SBox(0x0B) == 0x2B
    ensures SBox(0x0C) == 0xFE && SBox(0x0D) == 0xD7 && SBox(0x0E) == 0xAB && SBox(0x0F) == 0x76
  {
    hide SBox, Power;
    Powers00(); Powers10(); Powers20(); Powers30(); Powers40(); Powers60(); Powers90(); PowersB0();
    PowersC0(); PowersD0(); PowersE0(); PowersF0();
    SBoxZero(); SBoxAtPower(0); SBoxAtPower(25); SBoxAtPower(1); SBoxAtPower(50); SBoxAtPower(2);
    SBoxAtPower(26); SBoxAtPower(198); SBoxAtPower(75); SBoxAtPower(199); SBoxAtPower(27); SBoxAtPower(104);
    SBoxAtPower(51); SBoxAtPower(238); SBoxAtPower(223); SBoxAtPower(3);
  }

  lemma Row1()
    ensures SBox(0x10) == 0xCA && SBox(0x11) == 0x82 && SBox(0x12) == 0xC9 && SBox(0x13) == 0x7D
    ensures SBox(0x14) == 0xFA && SBox(0x15) == 0x59 && SBox(0x16) == 0x47 && SBox(0x17) == 0xF0
    ensures SBox(0x18) == 0xAD && SBox(0x19) == 0xD4 && SBox(0x1A) == 0xA2 && SBox(0x1B) == 0xAF
    ensures SBox(0x1C) == 0x9C && SBox(0x1D) == 0xA4 && SBox(0x1E) == 0x72 && SBox(0x1F) == 0xC0
  {
    hide SBox, Power;
    Powers00(); Powers10(); Powers30(); Powers40(); Powers60(); Powers70(); Powers80(); Powers90();
    PowersB0(); PowersC0(); PowersE0(); PowersF0();
    SBoxAtPower(100); SBoxAtPower(4); SBoxAtPower(224); SBoxAtPower(14); SBoxAtPower(52); SBoxAtPower(141);
    SBoxAtPower(129); SBoxAtPower(239); SBoxAtPower(76); SBoxAtPower(113); SBoxAtPower(8); SBoxAtPower(200);
    SBoxAtPower(248); SBoxAtPower(105); SBoxAtPower(28); SBoxAtPower(193);
  }

  lemma Row2()
    ensures SBox(0x20) == 0xB7 && SBox(0x21) == 0xFD && SBox(0x22) == 0x93 && SBox(0x23) == 0x26
    ensures SBox(0x24) == 0x36 && SBox(0x25) == 0x3F && SBox(0x26) == 0xF7 && SBox(0x27) == 0xCC
    ensures SBox(0x28) == 0x34 && SBox(0x29) == 0xA5 && SBox(0x2A) == 0xE5 && SBox(0x2B) == 0xF1
    ensures SBox(0x2C) == 0x71 && SBox(0x2D) == 0xD8 && SBox(0x2E) == 0x31 && SBox(0x2F) == 0x15
  {
    hide SBox, Power;
    Powers00(); Powers10(); Powers20(); Powers30(); Powers40(); Powers50(); Powers60(); Powers70();
    Powers80(); Powers90(); PowersA0(); PowersB0(); PowersC0(); PowersD0(); PowersE0(); PowersF0();
    SBoxAtPower(125); SBoxAtPower(194); SBoxAtPower(29); SBoxAtPower(181); SBoxAtPower(249); SBoxAtPower(185);
    SBoxAtPower(39); SBoxAtPower(106); SBoxAtPower(77); SBoxAtPower(228); SBoxAtPower(166); SBoxAtPower(114);
    SBoxAtPower(154); SBoxAtPower(201); SBoxAtPower(9); SBoxAtPower(120);
  }

  lemma Row3()
    ensures SBox(0x30) == 0x04 && SBox(0x31) == 0xC7 && SBox(0x32) == 0x23 && SBox(0x33) == 0xC3
    ensures SBox(0x34) == 0x18 && SBox(0x35) == 0x96 && SBox(0x36) == 0x05 && SBox(0x37) == 0x9A
    ensures SBox(0x38) == 0x07 && SBox(0x39) == 0x12 && SBox(0x3A) == 0x80 && SBox(0x3B) == 0xE2
    ensures SBox(0x3C) == 0xEB && SBox(0x3D) == 0x27 && SBox(0x3E) == 0xB2 && SBox(0x3F) == 0x75
  {
    hide SBox, Power;
    Powers00(); Powers10(); Powers20(); Powers30(); Powers40(); Powers60(); Powers70(); Powers80();
    Powers90(); PowersB0(); PowersC0(); PowersD0(); PowersE0(); PowersF0();
    SBoxAtPower(101); SBoxAtPower(47); SBoxAtPower(138); SBoxAtPower(5); SBoxAtPower(33); SBoxAtPower(15);
    SBoxAtPower(225); SBoxAtPower(36); SBoxAtPower(18); SBoxAtPower(240); SBoxAtPower(130); SBoxAtPower(69);
    SBoxAtPower(53); SBoxAtPower(147); SBoxAtPower(218); SBoxAtPower(142);
  }

  lemma Row4()
    ensures SBox(0x40) == 0x09 && SBox(0x41) == 0x83 && SBox(0x42) == 0x2C && SBox(0x43) == 0x1A
    ensures SBox(0x44) == 0x1B && SBox(0x45) == 0x6E && SBox(0x46) == 0x5A && SBox(0x47) == 0xA0
    ensures SBox(0x48) == 0x52 && SBox(0x49) == 0x3B && SBox(0x4A) == 0xD6 && SBox(0x4B) == 0xB3
    ensures SBox(0x4C) == 0x29 && SBox(0x4D) == 0xE3 && SBox(0x4E) == 0x2F && SBox(0x4F) == 0x84
  {
    hide SBox, Power;
    Powers00(); Powers10(); Powers20(); Powers30(); Powers40(); Powers50(); Powers60(); Powers70();
    Powers80(); Powers90(); PowersA0(); PowersB0(); PowersC0(); PowersD0(); PowersE0(); PowersF0();
    SBoxAtPower(150); SBoxAtPower(143); SBoxAtPower(219); SBoxAtPower(189); SBoxAtPower(54); SBoxAtPower(208);
    SBoxAtPower(206); SBoxAtPower(148); SBoxAtPower(19); SBoxAtPower(92); SBoxAtPower(210); SBoxAtPower(241);
    SBoxAtPower(64); SBoxAtPower(70); SBoxAtPower(131); SBoxAtPower(56);
  }

  lemma Row5()
    ensures SBox(0x50) == 0x53 && SBox(0x51) == 0xD1 && SBox(0x52) == 0x00 && SBox(0x53) == 0xED
    ensures SBox(0x54) == 0x20 && SBox(0x55) == 0xFC && SBox(0x56) == 0xB1 && SBox(0x57) == 0x5B
    ensures SBox(0x58) == 0x6A && SBox(0x59) == 0xCB && SBox(0x5A) == 0xBE && SBox(0x5B) == 0x39
    ensures SBox(0x5C) == 0x4A && SBox(0x5D) == 0x4C && SBox(0x5E) == 0x58 && SBox(0x5F) == 0xCF
  {
    hide SBox, Power;
    Powers00(); Powers10(); Powers20(); Powers30(); Powers40(); Powers60(); Powers70(); Powers80();
    Powers90(); PowersB0(); PowersC0(); PowersD0(); PowersE0(); PowersF0();
    SBoxAtPower(102); SBoxAtPower(221); SBoxAtPower(253); SBoxAtPower(48); SBoxAtPower(191); SBoxAtPower(6);
    SBoxAtPower(139); SBoxAtPower(98); SBoxAtPower(179); SBoxAtPower(37); SBoxAtPower(226); SBoxAtPower(152);
    SBoxAtPower(34); SBoxAtPower(136); SBoxAtPower(145); SBoxAtPower(16);
  }

  lemma Row6()
    ensures SBox(0x60) == 0xD0 && SBox(0x61) == 0xEF && SBox(0x62) == 0xAA && SBox(0x63) == 0xFB
    ensures SBox(0x64) == 0x43 && SBox(0x65) == 0x4D && SBox(0x66) == 0x33 && SBox(0x67) == 0x85
    ensures SBox(0x68) == 0x45 && SBox(0x69) == 0xF9 && SBox(0x6A) == 0x02 && SBox(0x6B) == 0x7F
    ensures SBox(0x6C) == 0x50 && SBox(0x6D) == 0x3C && SBox(0x6E) == 0x9F && SBox(0x6F) == 0xA8
  {
    hide SBox, Power;
    Powers00(); Powers10(); Powers20(); Powers30(); Powers40(); Powers50(); Powers60(); Powers70();
    Powers80(); Powers90(); PowersA0(); PowersB0(); PowersC0(); PowersD0(); PowersE0(); PowersF0();
    SBoxAtPower(126); SBoxAtPower(110); SBoxAtPower(72); SBoxAtPower(195); SBoxAtPower(163); SBoxAtPower(182);
    SBoxAtPower(30); SBoxAtPower(66); SBoxAtPower(58); SBoxAtPower(107); SBoxAtPower(40); SBoxAtPower(84);
    SBoxAtPower(250); SBoxAtPower(133); SBoxAtPower(61); SBoxAtPower(186);
  }

  lemma Row7()
    ensures SBox(0x70) == 0x51 && SBox(0x71) == 0xA3 && SBox(0x72) == 0x40 && SBox(0x73) == 0x8F
    ensures SBox(0x74) == 0x92 && SBox(0x75) == 0x9D && SBox(0x76) == 0x38 && SBox(0x77) == 0xF5
    ensures SBox(0x78) == 0xBC && SBox(0x79) == 0xB6 && SBox(0x7A) == 0xDA && SBox(0x7B) == 0x21
    ensures SBox(0x7C) == 0x10 && SBox(0x7D) == 0xFF && SBox(0x7E) == 0xF3 && SBox(0x7F) == 0xD2
  {
    hide SBox, Power;
    Powers00(); Powers10(); Powers20(); Powers30(); Powers40(); Powers50(); Powers60(); Powers70();
    Powers80(); Powers90(); PowersA0(); PowersB0(); PowersC0(); PowersD0(); PowersE0(); PowersF0();
    SBoxAtPower(43); SBoxAtPower(121); SBoxAtPower(10); SBoxAtPower(21); SBoxAtPower(155); SBoxAtPower(159);
    SBoxAtPower(94); SBoxAtPower(202); SBoxAtPower(78); SBoxAtPower(212); SBoxAtPower(172); SBoxAtPower(229);
    SBoxAtPower(243); SBoxAtPower(115); SBoxAtPower(167); SBoxAtPower(87);
  }

  lemma Row8()
    ensures SBox(0x80) == 0xCD && SBox(0x81) == 0x0C && SBox(0x82) == 0x13 && SBox(0x83) == 0xEC
    ensures SBox(0x84) == 0x5F && SBox(0x85) == 0x97 && SBox(0x86) == 0x44 && SBox(0x87) == 0x17
    ensures SBox(0x88) == 0xC4 && SBox(0x89) == 0xA7 && SBox(0x8A) == 0x7E && SBox(0x8B) == 0x3D
    ensures SBox(0x8C) == 0x64 && SBox(0x8D) == 0x5D && SBox(0x8E) == 0x19 && SBox(0x8F) == 0x73
  {
    hide SBox, Power;
    Powers00(); Powers10(); Powers20(); Powers40(); Powers50(); Powers70(); Powers80(); PowersA0();
    PowersB0(); PowersD0(); PowersE0(); PowersF0();
    SBoxAtPower(175); SBoxAtPower(88); SBoxAtPower(168); SBoxAtPower(80); SBoxAtPower(244); SBoxAtPower(234);
    SBoxAtPower(214); SBoxAtPower(116); SBoxAtPower(79); SBoxAtPower(174); SBoxAtPower(233); SBoxAtPower(213);
    SBoxAtPower(231); SBoxAtPower(230); SBoxAtPower(173); SBoxAtPower(232);
  }

  lemma Row9()
    ensures SBox(0x90) == 0x60 && SBox(0x91) == 0x81 && SBox(0x92) == 0x4F && SBox(0x93) == 0xDC
    ensures SBox(0x94) == 0x22 && SBox(0x95) == 0x2A && SBox(0x96) == 0x90 && SBox(0x97) == 0x88
    ensures SBox(0x98) == 0x46 && SBox(0x99) == 0xEE && SBox(0x9A) == 0xB8 && SBox(0x9B) == 0x14
    ensures SBox(0x9C) == 0xDE && SBox(0x9D) == 0x5E && SBox(0x9E) == 0x0B && SBox(0x9F) == 0xDB
  {
    hide SBox, Power;
    Powers00(); Powers10(); Powers20(); Powers30(); Powers40(); Powers50(); Powers60(); Powers70();
    Powers80(); Powers90(); PowersA0(); PowersB0(); PowersC0(); PowersD0(); PowersE0(); PowersF0();
    SBoxAtPower(44); SBoxAtPower(215); SBoxAtPower(117); SBoxAtPower(122); SBoxAtPower(235); SBoxAtPower(22);
    SBoxAtPower(11); SBoxAtPower(245); SBoxAtPower(89); SBoxAtPower(203); SBoxAtPower(95); SBoxAtPower(176);
    SBoxAtPower(156); SBoxAtPower(169); SBoxAtPower(81); SBoxAtPower(160);
  }

  lemma RowA()
    ensures SBox(0xA0) == 0xE0 && SBox(0xA1) == 0x32 && SBox(0xA2) == 0x3A && SBox(0xA3) == 0x0A
    ensures SBox(0xA4) == 0x49 && SBox(0xA5) == 0x06 && SBox(0xA6) == 0x24 && SBox(0xA7) == 0x5C
    ensures SBox(0xA8) == 0xC2 && SBox(0xA9) == 0xD3 && SBox(0xAA) == 0xAC && SBox(0xAB) == 0x62
    ensures SBox(0xAC) == 0x91 && SBox(0xAD) == 0x95 && SBox(0xAE) == 0xE4 && SBox(0xAF) == 0x79
  {
    hide SBox, Power;
    Powers00(); Powers10(); Powers20(); Powers30(); Powers40(); Powers50(); Powers60(); Powers70();
    Powers80(); Powers90(); PowersA0(); PowersB0(); PowersC0(); PowersD0(); PowersE0(); PowersF0();
    SBoxAtPower(127); SBoxAtPower(12); SBoxAtPower(246); SBoxAtPower(111); SBoxAtPower(23); SBoxAtPower(196);
    SBoxAtPower(73); SBoxAtPower(236); SBoxAtPower(216); SBoxAtPower(67); SBoxAtPower(31); SBoxAtPower(45);
    SBoxAtPower(164); SBoxAtPower(118); SBoxAtPower(123); SBoxAtPower(183);
  }

  lemma RowB()
    ensures SBox(0xB0) == 0xE7 && SBox(0xB1) == 0xC8 && SBox(0xB2) == 0x37 && SBox(0xB3) == 0x6D
    ensures SBox(0xB4) == 0x8D && SBox(0xB5) == 0xD5 && SBox(0xB6) == 0x4E && SBox(0xB7) == 0xA9
    ensures SBox(0xB8) == 0x6C && SBox(0xB9) == 0x56 && SBox(0xBA) == 0xF4 && SBox(0xBB) == 0xEA
    ensures SBox(0xBC) == 0x65 && SBox(0xBD) == 0x7A && SBox(0xBE) == 0xAE && SBox(0xBF) == 0x08
  {
    hide SBox, Power;
    Powers00(); Powers20(); Powers30(); Powers40(); Powers50(); Powers60(); Powers70(); Powers80();
    Powers90(); PowersA0(); PowersB0(); PowersC0(); PowersD0(); PowersF0();
    SBoxAtPower(204); SBoxAtPower(187); SBoxAtPower(62); SBoxAtPower(90); SBoxAtPower(251); SBoxAtPower(96);
    SBoxAtPower(177); SBoxAtPower(134); SBoxAtPower(59); SBoxAtPower(82); SBoxAtPower(161); SBoxAtPower(108);
    SBoxAtPower(170); SBoxAtPower(85); SBoxAtPower(41); SBoxAtPower(157);
  }

  lemma RowC()
    ensures SBox(0xC0) == 0xBA && SBox(0xC1) == 0x78 && SBox(0xC2) == 0x25 && SBox(0xC3) == 0x2E
    ensures SBox(0xC4) == 0x1C && SBox(0xC5) == 0xA6 && SBox(0xC6) == 0xB4 && SBox(0xC7) == 0xC6
    ensures SBox(0xC8) == 0xE8 && SBox(0xC9) == 0xDD && SBox(0xCA) == 0x74 && SBox(0xCB) == 0x1F
    ensures SBox(0xCC) == 0x4B && SBox(0xCD) == 0xBD && SBox(0xCE) == 0x8B && SBox(0xCF) == 0x8A
  {
    hide SBox, Power;
    Powers00(); Powers20(); Powers30(); Powers40(); Powers50(); Powers60(); Powers70(); Powers80();
    Powers90(); PowersA0(); PowersB0(); PowersC0(); PowersD0(); PowersF0();
    SBoxAtPower(151); SBoxAtPower(178); SBoxAtPower(135); SBoxAtPower(144); SBoxAtPower(97); SBoxAtPower(190);
    SBoxAtPower(220); SBoxAtPower(252); SBoxAtPower(188); SBoxAtPower(149); SBoxAtPower(207); SBoxAtPower(205);
    SBoxAtPower(55); SBoxAtPower(63); SBoxAtPower(91); SBoxAtPower(209);
  }

  lemma RowD()
    ensures SBox(0xD0) == 0x70 && SBox(0xD1) == 0x3E && SBox(0xD2) == 0xB5 && SBox(0xD3) == 0x66
    ensures SBox(0xD4) == 0x48 && SBox(0xD5) == 0x03 && SBox(0xD6) == 0xF6 && SBox(0xD7) == 0x0E
    ensures SBox(0xD8) == 0x61 && SBox(0xD9) == 0x35 && SBox(0xDA) == 0x57 && SBox(0xDB) == 0xB9
    ensures SBox(0xDC) == 0x86 && SBox(0xDD) == 0xC1 && SBox(0xDE) == 0x1D && SBox(0xDF) == 0x9E
  {
    hide SBox, Power;
    Powers00(); Powers10(); Powers20(); Powers30(); Powers40(); Powers50(); Powers60(); Powers70();
    Powers80(); Powers90(); PowersA0(); PowersB0(); PowersC0(); PowersD0(); PowersE0(); PowersF0();
    SBoxAtPower(83); SBoxAtPower(57); SBoxAtPower(132); SBoxAtPower(60); SBoxAtPower(65); SBoxAtPower(162);
    SBoxAtPower(109); SBoxAtPower(71); SBoxAtPower(20); SBoxAtPower(42); SBoxAtPower(158); SBoxAtPower(93);
    SBoxAtPower(86); SBoxAtPower(242); SBoxAtPower(211); SBoxAtPower(171);
  }

  lemma RowE()
    ensures SBox(0xE0) == 0xE1 && SBox(0xE1) == 0xF8 && SBox(0xE2) == 0x98 && SBox(0xE3) == 0x11
    ensures SBox(0xE4) == 0x69 && SBox(0xE5) == 0xD9 && SBox(0xE6) == 0x8E && SBox(0xE7) == 0x94
    ensures SBox(0xE8) == 0x9B && SBox(0xE9) == 0x1E && SBox(0xEA) == 0x87 && SBox(0xEB) == 0xE9
    ensures SBox(0xEC) == 0xCE && SBox(0xED) == 0x55 && SBox(0xEE) == 0x28 && SBox(0xEF) == 0xDF
  {
    hide SBox, Power;
    Powers10(); Powers20(); Powers40(); Powers50(); Powers60(); Powers70(); Powers80(); Powers90();
    PowersA0(); PowersB0(); PowersD0(); PowersE0();
    SBoxAtPower(68); SBoxAtPower(17); SBoxAtPower(146); SBoxAtPower(217); SBoxAtPower(35); SBoxAtPower(32);
    SBoxAtPower(46); SBoxAtPower(137); SBoxAtPower(180); SBoxAtPower(124); SBoxAtPower(184); SBoxAtPower(38);
    SBoxAtPower(119); SBoxAtPower(153); SBoxAtPower(227); SBoxAtPower(165);
  }

  lemma RowF()
    ensures SBox(0xF0) == 0x8C && SBox(0xF1) == 0xA1 && SBox(0xF2) == 0x89 && SBox(0xF3) == 0x0D
    ensures SBox(0xF4) == 0xBF && SBox(0xF5) == 0xE6 && SBox(0xF6) == 0x42 && SBox(0xF7) == 0x68
    ensures SBox(0xF8) == 0x41 && SBox(0xF9) == 0x99 && SBox(0xFA) == 0x2D && SBox(0xFB) == 0x0F
    ensures SBox(0xFC) == 0xB0 && SBox(0xFD) == 0x54 && SBox(0xFE) == 0xBB && SBox(0xFF) == 0x16
  {
    hide SBox, Power;
    Powers00(); Powers10(); Powers20(); Powers30(); Powers40(); Powers60(); Powers70(); Powers80();
    Powers90(); PowersB0(); PowersC0(); PowersD0(); PowersE0(); PowersF0();
    SBoxAtPower(103); SBoxAtPower(74); SBoxAtPower(237); SBoxAtPower(222); SBoxAtPower(197); SBoxAtPower(49);
    SBoxAtPower(254); SBoxAtPower(24); SBoxAtPower(13); SBoxAtPower(99); SBoxAtPower(140); SBoxAtPower(128);
    SBoxAtPower(192); SBoxAtPower(247); SBoxAtPower(112); SBoxAtPower(7);
  }
}
