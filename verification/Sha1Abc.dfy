/** The first test of section 7.3 of RFC 3174, the message abc, step by step. */
module Sha1Abc {
  import opened Entries
  import opened Blocks
  import opened Sha1

  // The padded message: three bytes, the one bit, zeros, and the length of 24 bits.
  ghost const ABC: Block := [0x61, 0x62, 0x63, 0x80] + Zeros(52) + [0x00, 0x00, 0x00, 0x00, 0x00, 0x00, 0x00, 0x18]

  lemma Words16()
    ensures W(ABC, 0) == 0x61626380 && W(ABC, 15) == 0x00000018
    ensures forall t :: 1 <= t < 15 ==> W(ABC, t) == 0
  {
  }

  lemma NextWord(t: nat)
    requires t >= 16
    ensures W(ABC, t) == Mix(W(ABC, t - 3), W(ABC, t - 8), W(ABC, t - 14), W(ABC, t - 16))
  {
  }

  lemma Words32()
    ensures W(ABC, 16) == 0xc2c4c700 && W(ABC, 17) == 0x00000000
    ensures W(ABC, 18) == 0x00000030 && W(ABC, 19) == 0x85898e01
    ensures W(ABC, 20) == 0x00000000 && W(ABC, 21) == 0x00000060
    ensures W(ABC, 22) == 0x0b131c03 && W(ABC, 23) == 0x00000030
    ensures W(ABC, 24) == 0x85898ec1 && W(ABC, 25) == 0x16263806
    ensures W(ABC, 26) == 0x00000000 && W(ABC, 27) == 0x00000180
    ensures W(ABC, 28) == 0x2c4c700c && W(ABC, 29) == 0x000000f0
    ensures W(ABC, 30) == 0x93afb507 && W(ABC, 31) == 0x5898e048
  {
    hide W;
    Words16();
    NextWord(16);
    assert W(ABC, 16) == 0xc2c4c700;
    NextWord(17);
    assert W(ABC, 17) == 0x00000000;
    NextWord(18);
    assert W(ABC, 18) == 0x00000030;
    NextWord(19);
    assert W(ABC, 19) == 0x85898e01;
    NextWord(20);
    assert W(ABC, 20) == 0x00000000;
    NextWord(21);
    assert W(ABC, 21) == 0x00000060;
    NextWord(22);
    assert W(ABC, 22) == 0x0b131c03;
    NextWord(23);
    assert W(ABC, 23) == 0x00000030;
    NextWord(24);
    assert W(ABC, 24) == 0x85898ec1;
    NextWord(25);
    assert W(ABC, 25) == 0x16263806;
    NextWord(26);
    assert W(ABC, 26) == 0x00000000;
    NextWord(27);
    assert W(ABC, 27) == 0x00000180;
    NextWord(28);
    assert W(ABC, 28) == 0x2c4c700c;
    NextWord(29);
    assert W(ABC, 29) == 0x000000f0;
    NextWord(30);
    assert W(ABC, 30) == 0x93afb507;
    NextWord(31);
    assert W(ABC, 31) == 0x5898e048;
  }

  lemma Words48()
    ensures W(ABC, 32) == 0x8e9a9202 && W(ABC, 33) == 0x00000600
    ensures W(ABC, 34) == 0xb131c0f0 && W(ABC, 35) == 0x16263bc6
    ensures W(ABC, 36) == 0x4ebed41e && W(ABC, 37) == 0x626380a1
    ensures W(ABC, 38) == 0x16263806 && W(ABC, 39) == 0x000018c0
    ensures W(ABC, 40) == 0xd2e138c4 && W(ABC, 41) == 0x00000f00
    ensures W(ABC, 42) == 0x3afb5079 && W(ABC, 43) == 0x898e04e5
    ensures W(ABC, 44) == 0xe2ba3c2b && W(ABC, 45) == 0x000060c0
    ensures W(ABC, 46) == 0x053a37cd && W(ABC, 47) == 0x74458547
  {
    hide W;
    Words32();
    NextWord(32);
    assert W(ABC, 32) == 0x8e9a9202;
    NextWord(33);
    assert W(ABC, 33) == 0x00000600;
    NextWord(34);
    assert W(ABC, 34) == 0xb131c0f0;
    NextWord(35);
    assert W(ABC, 35) == 0x16263bc6;
    NextWord(36);
    assert W(ABC, 36) == 0x4ebed41e;
    NextWord(37);
    assert W(ABC, 37) == 0x626380a1;
    NextWord(38);
    assert W(ABC, 38) == 0x16263806;
    NextWord(39);
    assert W(ABC, 39) == 0x000018c0;
    NextWord(40);
    assert W(ABC, 40) == 0xd2e138c4;
    NextWord(41);
    assert W(ABC, 41) == 0x00000f00;
    NextWord(42);
    assert W(ABC, 42) == 0x3afb5079;
    NextWord(43);
    assert W(ABC, 43) == 0x898e04e5;
    NextWord(44);
    assert W(ABC, 44) == 0xe2ba3c2b;
    NextWord(45);
    assert W(ABC, 45) == 0x000060c0;
    NextWord(46);
    assert W(ABC, 46) == 0x053a37cd;
    NextWord(47);
    assert W(ABC, 47) == 0x74458547;
  }

  lemma Words64()
    ensures W(ABC, 48) == 0xda9415ed && W(ABC, 49) == 0x26380a16
    ensures W(ABC, 50) == 0x626383a1 && W(ABC, 51) == 0x4ebf54de
    ensures W(ABC, 52) == 0x3835b44b && W(ABC, 53) == 0x0000f600
    ensures W(ABC, 54) == 0x1e84c7a3 && W(ABC, 55) == 0x98e04d98
    ensures W(ABC, 56) == 0x651d16a0 && W(ABC, 57) == 0x62658ca1
    ensures W(ABC, 58) == 0x458544d6 && W(ABC, 59) == 0x44584cb7
    ensures W(ABC, 60) == 0x7ba06619 && W(ABC, 61) == 0x6380aea2
    ensures W(ABC, 62) == 0x0ae55269 && W(ABC, 63) == 0x627b49a1
  {
    hide W;
    Words48();
    NextWord(48);
    assert W(ABC, 48) == 0xda9415ed;
    NextWord(49);
    assert W(ABC, 49) == 0x26380a16;
    NextWord(50);
    assert W(ABC, 50) == 0x626383a1;
    NextWord(51);
    assert W(ABC, 51) == 0x4ebf54de;
    NextWord(52);
    assert W(ABC, 52) == 0x3835b44b;
    NextWord(53);
    assert W(ABC, 53) == 0x0000f600;
    NextWord(54);
    assert W(ABC, 54) == 0x1e84c7a3;
    NextWord(55);
    assert W(ABC, 55) == 0x98e04d98;
    NextWord(56);
    assert W(ABC, 56) == 0x651d16a0;
    NextWord(57);
    assert W(ABC, 57) == 0x62658ca1;
    NextWord(58);
    assert W(ABC, 58) == 0x458544d6;
    NextWord(59);
    assert W(ABC, 59) == 0x44584cb7;
    NextWord(60);
    assert W(ABC, 60) == 0x7ba06619;
    NextWord(61);
    assert W(ABC, 61) == 0x6380aea2;
    NextWord(62);
    assert W(ABC, 62) == 0x0ae55269;
    NextWord(63);
    assert W(ABC, 63) == 0x627b49a1;
  }

  lemma Words80()
    ensures W(ABC, 64) == 0x7cd45c9d && W(ABC, 65) == 0x000f0000
    ensures W(ABC, 66) == 0xfb50753a && W(ABC, 67) == 0xec6765e8
    ensures W(ABC, 68) == 0xba3c2be2 && W(ABC, 69) == 0x0060c000
    ensures W(ABC, 70) == 0x3a37cd05 && W(ABC, 71) == 0x458546f4
    ensures W(ABC, 72) == 0xb8599dd6 && W(ABC, 73) == 0x380a1a26
    ensures W(ABC, 74) == 0x01e02203 && W(ABC, 75) == 0xe7cc3456
    ensures W(ABC, 76) == 0xe6e60b69 && W(ABC, 77) == 0x00f60a00
    ensures W(ABC, 78) == 0x5795ef4f && W(ABC, 79) == 0x822e0879
  {
    hide W;
    Words64();
    NextWord(64);
    assert W(ABC, 64) == 0x7cd45c9d;
    NextWord(65);
    assert W(ABC, 65) == 0x000f0000;
    NextWord(66);
    assert W(ABC, 66) == 0xfb50753a;
    NextWord(67);
    assert W(ABC, 67) == 0xec6765e8;
    NextWord(68);
    assert W(ABC, 68) == 0xba3c2be2;
    NextWord(69);
    assert W(ABC, 69) == 0x0060c000;
    NextWord(70);
    assert W(ABC, 70) == 0x3a37cd05;
    NextWord(71);
    assert W(ABC, 71) == 0x458546f4;
    NextWord(72);
    assert W(ABC, 72) == 0xb8599dd6;
    NextWord(73);
    assert W(ABC, 73) == 0x380a1a26;
    NextWord(74);
    assert W(ABC, 74) == 0x01e02203;
    NextWord(75);
    assert W(ABC, 75) == 0xe7cc3456;
    NextWord(76);
    assert W(ABC, 76) == 0xe6e60b69;
    NextWord(77);
    assert W(ABC, 77) == 0x00f60a00;
    NextWord(78);
    assert W(ABC, 78) == 0x5795ef4f;
    NextWord(79);
    assert W(ABC, 79) == 0x822e0879;
  }

  lemma Round8()
    ensures Rounds(START, ABC, 8) == State(0x9e8c07d4, 0x993e30c1, 0x0ff1f290, 0xb3f52677, 0xf3763846)
  {
    hide Rounds, W;
    Start();
    Words16();
    NextRound(START, ABC, 0);
    assert Rounds(START, ABC, 1) == State(0x0116fc33, 0x67452301, 0x7bf36ae2, 0x98badcfe, 0x10325476);
    NextRound(START, ABC, 1);
    assert Rounds(START, ABC, 2) == State(0x8990536d, 0x0116fc33, 0x59d148c0, 0x7bf36ae2, 0x98badcfe);
    NextRound(START, ABC, 2);
    assert Rounds(START, ABC, 3) == State(0xa1390f08, 0x8990536d, 0xc045bf0c, 0x59d148c0, 0x7bf36ae2);
    NextRound(START, ABC, 3);
    assert Rounds(START, ABC, 4) == State(0xcdd8e11b, 0xa1390f08, 0x626414db, 0xc045bf0c, 0x59d148c0);
    NextRound(START, ABC, 4);
    assert Rounds(START, ABC, 5) == State(0xcfd499de, 0xcdd8e11b, 0x284e43c2, 0x626414db, 0xc045bf0c);
    NextRound(START, ABC, 5);
    assert Rounds(START, ABC, 6) == State(0x3fc7ca40, 0xcfd499de, 0xf3763846, 0x284e43c2, 0x626414db);
    NextRound(START, ABC, 6);
    assert Rounds(START, ABC, 7) == State(0x993e30c1, 0x3fc7ca40, 0xb3f52677, 0xf3763846, 0x284e43c2);
    NextRound(START, ABC, 7);
  }

  lemma Round16()
    ensures Rounds(START, ABC, 16) == State(0x20bdd62f, 0x196bee77, 0x644a3da5, 0x1181ed99, 0x18c623f9)
  {
    hide Rounds, W;
    Round8();
    Words16();
    NextRound(START, ABC, 8);
    assert Rounds(START, ABC, 9) == State(0x4b6ae328, 0x9e8c07d4, 0x664f8c30, 0x0ff1f290, 0xb3f52677);
    NextRound(START, ABC, 9);
    assert Rounds(START, ABC, 10) == State(0x8351f929, 0x4b6ae328, 0x27a301f5, 0x664f8c30, 0x0ff1f290);
    NextRound(START, ABC, 10);
    assert Rounds(START, ABC, 11) == State(0xfbda9e89, 0x8351f929, 0x12dab8ca, 0x27a301f5, 0x664f8c30);
    NextRound(START, ABC, 11);
    assert Rounds(START, ABC, 12) == State(0x63188fe4, 0xfbda9e89, 0x60d47e4a, 0x12dab8ca, 0x27a301f5);
    NextRound(START, ABC, 12);
    assert Rounds(START, ABC, 13) == State(0x4607b664, 0x63188fe4, 0x7ef6a7a2, 0x60d47e4a, 0x12dab8ca);
    NextRound(START, ABC, 13);
    assert Rounds(START, ABC, 14) == State(0x9128f695, 0x4607b664, 0x18c623f9, 0x7ef6a7a2, 0x60d47e4a);
    NextRound(START, ABC, 14);
    assert Rounds(START, ABC, 15) == State(0x196bee77, 0x9128f695, 0x1181ed99, 0x18c623f9, 0x7ef6a7a2);
    NextRound(START, ABC, 15);
  }

  lemma Round24()
    ensures Rounds(START, ABC, 24) == State(0xd541f12d, 0x21283486, 0x0ce88eff, 0x868dec32, 0x7f67875f)
  {
    hide Rounds, W;
    Round16();
    Words32();
    NextRound(START, ABC, 16);
    assert Rounds(START, ABC, 17) == State(0x4e925823, 0x20bdd62f, 0xc65afb9d, 0x644a3da5, 0x1181ed99);
    NextRound(START, ABC, 17);
    assert Rounds(START, ABC, 18) == State(0x82aa6728, 0x4e925823, 0xc82f758b, 0xc65afb9d, 0x644a3da5);
    NextRound(START, ABC, 18);
    assert Rounds(START, ABC, 19) == State(0xdc64901d, 0x82aa6728, 0xd3a49608, 0xc82f758b, 0xc65afb9d);
    NextRound(START, ABC, 19);
    assert Rounds(START, ABC, 20) == State(0xfd9e1d7d, 0xdc64901d, 0x20aa99ca, 0xd3a49608, 0xc82f758b);
    NextRound(START, ABC, 20);
    assert Rounds(START, ABC, 21) == State(0x1a37b0ca, 0xfd9e1d7d, 0x77192407, 0x20aa99ca, 0xd3a49608);
    NextRound(START, ABC, 21);
    assert Rounds(START, ABC, 22) == State(0x33a23bfc, 0x1a37b0ca, 0x7f67875f, 0x77192407, 0x20aa99ca);
    NextRound(START, ABC, 22);
    assert Rounds(START, ABC, 23) == State(0x21283486, 0x33a23bfc, 0x868dec32, 0x7f67875f, 0x77192407);
    NextRound(START, ABC, 23);
  }

  lemma Round32()
    ensures Rounds(START, ABC, 32) == State(0x3b845d33, 0x1267b407, 0x717eebd7, 0xa0dc2d4b, 0xd2aa1365)
  {
    hide Rounds, W;
    Round24();
    Words32();
    NextRound(START, ABC, 24);
    assert Rounds(START, ABC, 25) == State(0xc7567dc6, 0xd541f12d, 0x884a0d21, 0x0ce88eff, 0x868dec32);
    NextRound(START, ABC, 25);
    assert Rounds(START, ABC, 26) == State(0x48413ba4, 0xc7567dc6, 0x75507c4b, 0x884a0d21, 0x0ce88eff);
    NextRound(START, ABC, 26);
    assert Rounds(START, ABC, 27) == State(0xbe35fbd5, 0x48413ba4, 0xb1d59f71, 0x75507c4b, 0x884a0d21);
    NextRound(START, ABC, 27);
    assert Rounds(START, ABC, 28) == State(0x4aa84d97, 0xbe35fbd5, 0x12104ee9, 0xb1d59f71, 0x75507c4b);
    NextRound(START, ABC, 28);
    assert Rounds(START, ABC, 29) == State(0x8370b52e, 0x4aa84d97, 0x6f8d7ef5, 0x12104ee9, 0xb1d59f71);
    NextRound(START, ABC, 29);
    assert Rounds(START, ABC, 30) == State(0xc5fbaf5d, 0x8370b52e, 0xd2aa1365, 0x6f8d7ef5, 0x12104ee9);
    NextRound(START, ABC, 30);
    assert Rounds(START, ABC, 31) == State(0x1267b407, 0xc5fbaf5d, 0xa0dc2d4b, 0xd2aa1365, 0x6f8d7ef5);
    NextRound(START, ABC, 31);
  }

  lemma Round40()
    ensures Rounds(START, ABC, 40) == State(0x32de1cba, 0x4c986405, 0xf718e5cf, 0x03d447f6, 0xf72eec32)
  {
    hide Rounds, W;
    Round32();
    Words48();
    NextRound(START, ABC, 32);
    assert Rounds(START, ABC, 33) == State(0x046faa0a, 0x3b845d33, 0xc499ed01, 0x717eebd7, 0xa0dc2d4b);
    NextRound(START, ABC, 33);
    assert Rounds(START, ABC, 34) == State(0x2c0ebc11, 0x046faa0a, 0xcee1174c, 0xc499ed01, 0x717eebd7);
    NextRound(START, ABC, 34);
    assert Rounds(START, ABC, 35) == State(0x21796ad4, 0x2c0ebc11, 0x811bea82, 0xcee1174c, 0xc499ed01);
    NextRound(START, ABC, 35);
    assert Rounds(START, ABC, 36) == State(0xdcbbb0cb, 0x21796ad4, 0x4b03af04, 0x811bea82, 0xcee1174c);
    NextRound(START, ABC, 36);
    assert Rounds(START, ABC, 37) == State(0x0f511fd8, 0xdcbbb0cb, 0x085e5ab5, 0x4b03af04, 0x811bea82);
    NextRound(START, ABC, 37);
    assert Rounds(START, ABC, 38) == State(0xdc63973f, 0x0f511fd8, 0xf72eec32, 0x085e5ab5, 0x4b03af04);
    NextRound(START, ABC, 38);
    assert Rounds(START, ABC, 39) == State(0x4c986405, 0xdc63973f, 0x03d447f6, 0xf72eec32, 0x085e5ab5);
    NextRound(START, ABC, 39);
  }

  lemma Round48()
    ensures Rounds(START, ABC, 48) == State(0xbead02ca, 0xa01b846c, 0x8714787c, 0x503ca382, 0xfb86c6ab)
  {
    hide Rounds, W;
    Round40();
    Words48();
    NextRound(START, ABC, 40);
    assert Rounds(START, ABC, 41) == State(0xfc87dedf, 0x32de1cba, 0x53261901, 0xf718e5cf, 0x03d447f6);
    NextRound(START, ABC, 41);
    assert Rounds(START, ABC, 42) == State(0x970a0d5c, 0xfc87dedf, 0x8cb7872e, 0x53261901, 0xf718e5cf);
    NextRound(START, ABC, 42);
    assert Rounds(START, ABC, 43) == State(0x7f193dc5, 0x970a0d5c, 0xff21f7b7, 0x8cb7872e, 0x53261901);
    NextRound(START, ABC, 43);
    assert Rounds(START, ABC, 44) == State(0xee1b1aaf, 0x7f193dc5, 0x25c28357, 0xff21f7b7, 0x8cb7872e);
    NextRound(START, ABC, 44);
    assert Rounds(START, ABC, 45) == State(0x40f28e09, 0xee1b1aaf, 0x5fc64f71, 0x25c28357, 0xff21f7b7);
    NextRound(START, ABC, 45);
    assert Rounds(START, ABC, 46) == State(0x1c51e1f2, 0x40f28e09, 0xfb86c6ab, 0x5fc64f71, 0x25c28357);
    NextRound(START, ABC, 46);
    assert Rounds(START, ABC, 47) == State(0xa01b846c, 0x1c51e1f2, 0x503ca382, 0xfb86c6ab, 0x5fc64f71);
    NextRound(START, ABC, 47);
  }

  lemma Round56()
    ensures Rounds(START, ABC, 56) == State(0x5e6456af, 0x7b71f76d, 0x09fa7c76, 0x792410db, 0x8e11eb59)
  {
    hide Rounds, W;
    Round48();
    Words64();
    NextRound(START, ABC, 48);
    assert Rounds(START, ABC, 49) == State(0xbaf39337, 0xbead02ca, 0x2806e11b, 0x8714787c, 0x503ca382);
    NextRound(START, ABC, 49);
    assert Rounds(START, ABC, 50) == State(0x120731c5, 0xbaf39337, 0xafab40b2, 0x2806e11b, 0x8714787c);
    NextRound(START, ABC, 50);
    assert Rounds(START, ABC, 51) == State(0x641db2ce, 0x120731c5, 0xeebce4cd, 0xafab40b2, 0x2806e11b);
    NextRound(START, ABC, 51);
    assert Rounds(START, ABC, 52) == State(0x3847ad66, 0x641db2ce, 0x4481cc71, 0xeebce4cd, 0xafab40b2);
    NextRound(START, ABC, 52);
    assert Rounds(START, ABC, 53) == State(0xe490436d, 0x3847ad66, 0x99076cb3, 0x4481cc71, 0xeebce4cd);
    NextRound(START, ABC, 53);
    assert Rounds(START, ABC, 54) == State(0x27e9f1d8, 0xe490436d, 0x8e11eb59, 0x99076cb3, 0x4481cc71);
    NextRound(START, ABC, 54);
    assert Rounds(START, ABC, 55) == State(0x7b71f76d, 0x27e9f1d8, 0x792410db, 0x8e11eb59, 0x99076cb3);
    NextRound(START, ABC, 55);
  }

  lemma Round64()
    ensures Rounds(START, ABC, 64) == State(0x6b61c9e1, 0xb66c020b, 0x9523272c, 0xf5d5b051, 0x8fd4b796)
  {
    hide Rounds, W;
    Round56();
    Words64();
    NextRound(START, ABC, 56);
    assert Rounds(START, ABC, 57) == State(0xc846093f, 0x5e6456af, 0x5edc7ddb, 0x09fa7c76, 0x792410db);
    NextRound(START, ABC, 57);
    assert Rounds(START, ABC, 58) == State(0xd262ff50, 0xc846093f, 0xd79915ab, 0x5edc7ddb, 0x09fa7c76);
    NextRound(START, ABC, 58);
    assert Rounds(START, ABC, 59) == State(0x09d785fd, 0xd262ff50, 0xf211824f, 0xd79915ab, 0x5edc7ddb);
    NextRound(START, ABC, 59);
    assert Rounds(START, ABC, 60) == State(0x3f52de5a, 0x09d785fd, 0x3498bfd4, 0xf211824f, 0xd79915ab);
    NextRound(START, ABC, 60);
    assert Rounds(START, ABC, 61) == State(0xd756c147, 0x3f52de5a, 0x4275e17f, 0x3498bfd4, 0xf211824f);
    NextRound(START, ABC, 61);
    assert Rounds(START, ABC, 62) == State(0x548c9cb2, 0xd756c147, 0x8fd4b796, 0x4275e17f, 0x3498bfd4);
    NextRound(START, ABC, 62);
    assert Rounds(START, ABC, 63) == State(0xb66c020b, 0x548c9cb2, 0xf5d5b051, 0x8fd4b796, 0x4275e17f);
    NextRound(START, ABC, 63);
  }

  lemma Round72()
    ensures Rounds(START, ABC, 72) == State(0x39859de7, 0xc199f8c7, 0x8fc96230, 0x125c24f0, 0xde37534a)
  {
    hide Rounds, W;
    Round64();
    Words80();
    NextRound(START, ABC, 64);
    assert Rounds(START, ABC, 65) == State(0x19dfa7ac, 0x6b61c9e1, 0xed9b0082, 0x9523272c, 0xf5d5b051);
    NextRound(START, ABC, 65);
    assert Rounds(START, ABC, 66) == State(0x101655f9, 0x19dfa7ac, 0x5ad87278, 0xed9b0082, 0x9523272c);
    NextRound(START, ABC, 66);
    assert Rounds(START, ABC, 67) == State(0x0c3df2b4, 0x101655f9, 0x0677e9eb, 0x5ad87278, 0xed9b0082);
    NextRound(START, ABC, 67);
    assert Rounds(START, ABC, 68) == State(0x78dd4d2b, 0x0c3df2b4, 0x4405957e, 0x0677e9eb, 0x5ad87278);
    NextRound(START, ABC, 68);
    assert Rounds(START, ABC, 69) == State(0x497093c0, 0x78dd4d2b, 0x030f7cad, 0x4405957e, 0x0677e9eb);
    NextRound(START, ABC, 69);
    assert Rounds(START, ABC, 70) == State(0x3f2588c2, 0x497093c0, 0xde37534a, 0x030f7cad, 0x4405957e);
    NextRound(START, ABC, 70);
    assert Rounds(START, ABC, 71) == State(0xc199f8c7, 0x3f2588c2, 0x125c24f0, 0xde37534a, 0x030f7cad);
    NextRound(START, ABC, 71);
  }

  lemma Round80()
    ensures Rounds(START, ABC, 80) == State(0x42541b35, 0x5738d5e1, 0x21834873, 0x681e6df6, 0xd8fdf6ad)
  {
    hide Rounds, W;
    Round72();
    Words80();
    NextRound(START, ABC, 72);
    assert Rounds(START, ABC, 73) == State(0xedb42de4, 0x39859de7, 0xf0667e31, 0x8fc96230, 0x125c24f0);
    NextRound(START, ABC, 73);
    assert Rounds(START, ABC, 74) == State(0x11793f6f, 0xedb42de4, 0xce616779, 0xf0667e31, 0x8fc96230);
    NextRound(START, ABC, 74);
    assert Rounds(START, ABC, 75) == State(0x5ee76897, 0x11793f6f, 0x3b6d0b79, 0xce616779, 0xf0667e31);
    NextRound(START, ABC, 75);
    assert Rounds(START, ABC, 76) == State(0x63f7dab7, 0x5ee76897, 0xc45e4fdb, 0x3b6d0b79, 0xce616779);
    NextRound(START, ABC, 76);
    assert Rounds(START, ABC, 77) == State(0xa079b7d9, 0x63f7dab7, 0xd7b9da25, 0xc45e4fdb, 0x3b6d0b79);
    NextRound(START, ABC, 77);
    assert Rounds(START, ABC, 78) == State(0x860d21cc, 0xa079b7d9, 0xd8fdf6ad, 0xd7b9da25, 0xc45e4fdb);
    NextRound(START, ABC, 78);
    assert Rounds(START, ABC, 79) == State(0x5738d5e1, 0x860d21cc, 0x681e6df6, 0xd8fdf6ad, 0xd7b9da25);
    NextRound(START, ABC, 79);
  }

  lemma Start()
    ensures Rounds(START, ABC, 0) == State(0x67452301, 0xefcdab89, 0x98badcfe, 0x10325476, 0xc3d2e1f0)
  {
  }

  lemma Compressed()
    ensures Compress(START, ABC) == State(0xa9993e36, 0x4706816a, 0xba3e2571, 0x7850c26c, 0x9cd0d89d)
  {
    hide Rounds;
    Round80();
  }

  lemma Padded()
    ensures [0x61, 0x62, 0x63] + Padding(3, LengthBytes(24)) == ABC
  {
    assert ZeroCount(3) == 52;
  }

  lemma Shown()
    ensures DigestBytes(State(0xa9993e36, 0x4706816a, 0xba3e2571, 0x7850c26c, 0x9cd0d89d)) == [
      0xa9, 0x99, 0x3e, 0x36, 0x47, 0x06, 0x81, 0x6a, 0xba, 0x3e,
      0x25, 0x71, 0x78, 0x50, 0xc2, 0x6c, 0x9c, 0xd0, 0xd8, 0x9d
    ]
  {
  }

  // The digest that RFC 3174 prints.
  lemma AbcDigest()
    ensures Digest([0x61, 0x62, 0x63]) == [
      0xa9, 0x99, 0x3e, 0x36, 0x47, 0x06, 0x81, 0x6a, 0xba, 0x3e,
      0x25, 0x71, 0x78, 0x50, 0xc2, 0x6c, 0x9c, 0xd0, 0xd8, 0x9d
    ]
  {
    hide Compress, DigestBytes, Fold, LengthBytes;
    Padded();
    FoldFront(Compress, START, ABC);
    assert ABC[..64] == ABC && ABC[64..] == [];
    FoldFront(Compress, Compress(START, ABC), []);
    Compressed();
    Shown();
  }
}
