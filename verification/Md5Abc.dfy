/** The message abc of section A.5 of RFC 1321, step by step. */
module Md5Abc {
  import opened Entries
  import opened Blocks
  import opened Md5

  // The padded message: three bytes, the one bit, zeros, and the length of 24 bits.
  ghost const ABC: Block := [0x61, 0x62, 0x63, 0x80] + Zeros(52) + [0x18, 0x00, 0x00, 0x00, 0x00, 0x00, 0x00, 0x00]

  lemma Words()
    ensures X(ABC, 0) == 0x80636261 && X(ABC, 14) == 0x00000018 && X(ABC, 15) == 0
    ensures forall k :: 1 <= k < 14 ==> X(ABC, k) == 0
  {
  }

  lemma Round8()
    ensures Rounds(START, ABC, 8) == State(0xc73741ef, 0x928d99f6, 0x207dc67b, 0x8bac3051)
  {
    hide Rounds, X, T1, T2, T3, T4, Shift, Index;
    Start();
    Words();
    Row1();
    NextRound(START, ABC, 0);
    assert Rounds(START, ABC, 1) == State(0x10325476, 0xd6d117b4, 0xefcdab89, 0x98badcfe);
    NextRound(START, ABC, 1);
    assert Rounds(START, ABC, 2) == State(0x98badcfe, 0x344a8432, 0xd6d117b4, 0xefcdab89);
    NextRound(START, ABC, 2);
    assert Rounds(START, ABC, 3) == State(0xefcdab89, 0x2f6fbd72, 0x344a8432, 0xd6d117b4);
    NextRound(START, ABC, 3);
    assert Rounds(START, ABC, 4) == State(0xd6d117b4, 0x7ad956f2, 0x2f6fbd72, 0x344a8432);
    NextRound(START, ABC, 4);
    assert Rounds(START, ABC, 5) == State(0x344a8432, 0xc73741ef, 0x7ad956f2, 0x2f6fbd72);
    NextRound(START, ABC, 5);
    assert Rounds(START, ABC, 6) == State(0x2f6fbd72, 0x8bac3051, 0xc73741ef, 0x7ad956f2);
    NextRound(START, ABC, 6);
    assert Rounds(START, ABC, 7) == State(0x7ad956f2, 0x207dc67b, 0x8bac3051, 0xc73741ef);
    NextRound(START, ABC, 7);
  }

  lemma Round16()
    ensures Rounds(START, ABC, 16) == State(0xdda9b9a6, 0x72aff2e0, 0xe396856b, 0xa1051895)
  {
    hide Rounds, X, T1, T2, T3, T4, Shift, Index;
    Round8();
    Words();
    Row1();
    NextRound(START, ABC, 8);
    assert Rounds(START, ABC, 9) == State(0x8bac3051, 0x854b3712, 0x928d99f6, 0x207dc67b);
    NextRound(START, ABC, 9);
    assert Rounds(START, ABC, 10) == State(0x207dc67b, 0x74e2f284, 0x854b3712, 0x928d99f6);
    NextRound(START, ABC, 10);
    assert Rounds(START, ABC, 11) == State(0x928d99f6, 0x3020401c, 0x74e2f284, 0x854b3712);
    NextRound(START, ABC, 11);
    assert Rounds(START, ABC, 12) == State(0x854b3712, 0x5ed49596, 0x3020401c, 0x74e2f284);
    NextRound(START, ABC, 12);
    assert Rounds(START, ABC, 13) == State(0x74e2f284, 0xdda9b9a6, 0x5ed49596, 0x3020401c);
    NextRound(START, ABC, 13);
    assert Rounds(START, ABC, 14) == State(0x3020401c, 0xa1051895, 0xdda9b9a6, 0x5ed49596);
    NextRound(START, ABC, 14);
    assert Rounds(START, ABC, 15) == State(0x5ed49596, 0xe396856b, 0xa1051895, 0xdda9b9a6);
    NextRound(START, ABC, 15);
  }

  lemma Round24()
    ensures Rounds(START, ABC, 24) == State(0x59a8ffda, 0x47092c07, 0xabfc7920, 0x6d002f1e)
  {
    hide Rounds, X, T1, T2, T3, T4, Shift, Index;
    Round16();
    Words();
    Row2();
    NextRound(START, ABC, 16);
    assert Rounds(START, ABC, 17) == State(0xa1051895, 0x3e9e9126, 0x72aff2e0, 0xe396856b);
    NextRound(START, ABC, 17);
    assert Rounds(START, ABC, 18) == State(0xe396856b, 0x4a1d804e, 0x3e9e9126, 0x72aff2e0);
    NextRound(START, ABC, 18);
    assert Rounds(START, ABC, 19) == State(0x72aff2e0, 0xe25e1652, 0x4a1d804e, 0x3e9e9126);
    NextRound(START, ABC, 19);
    assert Rounds(START, ABC, 20) == State(0x3e9e9126, 0xb5b204e4, 0xe25e1652, 0x4a1d804e);
    NextRound(START, ABC, 20);
    assert Rounds(START, ABC, 21) == State(0x4a1d804e, 0x59a8ffda, 0xb5b204e4, 0xe25e1652);
    NextRound(START, ABC, 21);
    assert Rounds(START, ABC, 22) == State(0xe25e1652, 0x6d002f1e, 0x59a8ffda, 0xb5b204e4);
    NextRound(START, ABC, 22);
    assert Rounds(START, ABC, 23) == State(0xb5b204e4, 0xabfc7920, 0x6d002f1e, 0x59a8ffda);
    NextRound(START, ABC, 23);
  }

  lemma Round32()
    ensures Rounds(START, ABC, 32) == State(0x790a77fb, 0x726342d3, 0xa62884aa, 0x9f47e4f8)
  {
    hide Rounds, X, T1, T2, T3, T4, Shift, Index;
    Round24();
    Words();
    Row2();
    NextRound(START, ABC, 24);
    assert Rounds(START, ABC, 25) == State(0x6d002f1e, 0xb7f268cf, 0x47092c07, 0xabfc7920);
    NextRound(START, ABC, 25);
    assert Rounds(START, ABC, 26) == State(0xabfc7920, 0x09388eff, 0xb7f268cf, 0x47092c07);
    NextRound(START, ABC, 26);
    assert Rounds(START, ABC, 27) == State(0x47092c07, 0xfe1623b1, 0x09388eff, 0xb7f268cf);
    NextRound(START, ABC, 27);
    assert Rounds(START, ABC, 28) == State(0xb7f268cf, 0x786acb8f, 0xfe1623b1, 0x09388eff);
    NextRound(START, ABC, 28);
    assert Rounds(START, ABC, 29) == State(0x09388eff, 0x790a77fb, 0x786acb8f, 0xfe1623b1);
    NextRound(START, ABC, 29);
    assert Rounds(START, ABC, 30) == State(0xfe1623b1, 0x9f47e4f8, 0x790a77fb, 0x786acb8f);
    NextRound(START, ABC, 30);
    assert Rounds(START, ABC, 31) == State(0x786acb8f, 0xa62884aa, 0x9f47e4f8, 0x790a77fb);
    NextRound(START, ABC, 31);
  }

  lemma Round40()
    ensures Rounds(START, ABC, 40) == State(0x21b117b9, 0x5a2f5ea5, 0x3575227e, 0x6e7429d5)
  {
    hide Rounds, X, T1, T2, T3, T4, Shift, Index;
    Round32();
    Words();
    Row3();
    NextRound(START, ABC, 32);
    assert Rounds(START, ABC, 33) == State(0x9f47e4f8, 0xb3707ebf, 0x726342d3, 0xa62884aa);
    NextRound(START, ABC, 33);
    assert Rounds(START, ABC, 34) == State(0xa62884aa, 0x60127b2e, 0xb3707ebf, 0x726342d3);
    NextRound(START, ABC, 34);
    assert Rounds(START, ABC, 35) == State(0x726342d3, 0x8d212ff5, 0x60127b2e, 0xb3707ebf);
    NextRound(START, ABC, 35);
    assert Rounds(START, ABC, 36) == State(0xb3707ebf, 0x3b0875c7, 0x8d212ff5, 0x60127b2e);
    NextRound(START, ABC, 36);
    assert Rounds(START, ABC, 37) == State(0x60127b2e, 0x21b117b9, 0x3b0875c7, 0x8d212ff5);
    NextRound(START, ABC, 37);
    assert Rounds(START, ABC, 38) == State(0x8d212ff5, 0x6e7429d5, 0x21b117b9, 0x3b0875c7);
    NextRound(START, ABC, 38);
    assert Rounds(START, ABC, 39) == State(0x3b0875c7, 0x3575227e, 0x6e7429d5, 0x21b117b9);
    NextRound(START, ABC, 39);
  }

  lemma Round48()
    ensures Rounds(START, ABC, 48) == State(0x7f2e507b, 0x7beb9700, 0x8fae6399, 0x99d9679d)
  {
    hide Rounds, X, T1, T2, T3, T4, Shift, Index;
    Round40();
    Words();
    Row3();
    NextRound(START, ABC, 40);
    assert Rounds(START, ABC, 41) == State(0x6e7429d5, 0x11de1779, 0x5a2f5ea5, 0x3575227e);
    NextRound(START, ABC, 41);
    assert Rounds(START, ABC, 42) == State(0x3575227e, 0xfadcaa38, 0x11de1779, 0x5a2f5ea5);
    NextRound(START, ABC, 42);
    assert Rounds(START, ABC, 43) == State(0x5a2f5ea5, 0x31c465ca, 0xfadcaa38, 0x11de1779);
    NextRound(START, ABC, 43);
    assert Rounds(START, ABC, 44) == State(0x11de1779, 0x4c6124f4, 0x31c465ca, 0xfadcaa38);
    NextRound(START, ABC, 44);
    assert Rounds(START, ABC, 45) == State(0xfadcaa38, 0x7f2e507b, 0x4c6124f4, 0x31c465ca);
    NextRound(START, ABC, 45);
    assert Rounds(START, ABC, 46) == State(0x31c465ca, 0x99d9679d, 0x7f2e507b, 0x4c6124f4);
    NextRound(START, ABC, 46);
    assert Rounds(START, ABC, 47) == State(0x4c6124f4, 0x8fae6399, 0x99d9679d, 0x7f2e507b);
    NextRound(START, ABC, 47);
  }

  lemma Round56()
    ensures Rounds(START, ABC, 56) == State(0x06cc5e8a, 0x3bfa2c27, 0x7d632dd0, 0x5b0d97aa)
  {
    hide Rounds, X, T1, T2, T3, T4, Shift, Index;
    Round48();
    Words();
    Row4();
    NextRound(START, ABC, 48);
    assert Rounds(START, ABC, 49) == State(0x99d9679d, 0x7b201df8, 0x7beb9700, 0x8fae6399);
    NextRound(START, ABC, 49);
    assert Rounds(START, ABC, 50) == State(0x8fae6399, 0xf4e8e96e, 0x7b201df8, 0x7beb9700);
    NextRound(START, ABC, 50);
    assert Rounds(START, ABC, 51) == State(0x7beb9700, 0xb298cefd, 0xf4e8e96e, 0x7b201df8);
    NextRound(START, ABC, 51);
    assert Rounds(START, ABC, 52) == State(0x7b201df8, 0x8bf025c4, 0xb298cefd, 0xf4e8e96e);
    NextRound(START, ABC, 52);
    assert Rounds(START, ABC, 53) == State(0xf4e8e96e, 0x06cc5e8a, 0x8bf025c4, 0xb298cefd);
    NextRound(START, ABC, 53);
    assert Rounds(START, ABC, 54) == State(0xb298cefd, 0x5b0d97aa, 0x06cc5e8a, 0x8bf025c4);
    NextRound(START, ABC, 54);
    assert Rounds(START, ABC, 55) == State(0x8bf025c4, 0x7d632dd0, 0x5b0d97aa, 0x06cc5e8a);
    NextRound(START, ABC, 55);
  }

  lemma Round64()
    ensures Rounds(START, ABC, 64) == State(0x310ade8f, 0xc08226b3, 0xe484b9d8, 0x624d8cb2)
  {
    hide Rounds, X, T1, T2, T3, T4, Shift, Index;
    Round56();
    Words();
    Row4();
    NextRound(START, ABC, 56);
    assert Rounds(START, ABC, 57) == State(0x5b0d97aa, 0x7f81cc35, 0x3bfa2c27, 0x7d632dd0);
    NextRound(START, ABC, 57);
    assert Rounds(START, ABC, 58) == State(0x7d632dd0, 0x094454ab, 0x7f81cc35, 0x3bfa2c27);
    NextRound(START, ABC, 58);
    assert Rounds(START, ABC, 59) == State(0x3bfa2c27, 0x4f9dbe3f, 0x094454ab, 0x7f81cc35);
    NextRound(START, ABC, 59);
    assert Rounds(START, ABC, 60) == State(0x7f81cc35, 0x7327d604, 0x4f9dbe3f, 0x094454ab);
    NextRound(START, ABC, 60);
    assert Rounds(START, ABC, 61) == State(0x094454ab, 0x310ade8f, 0x7327d604, 0x4f9dbe3f);
    NextRound(START, ABC, 61);
    assert Rounds(START, ABC, 62) == State(0x4f9dbe3f, 0x624d8cb2, 0x310ade8f, 0x7327d604);
    NextRound(START, ABC, 62);
    assert Rounds(START, ABC, 63) == State(0x7327d604, 0xe484b9d8, 0x624d8cb2, 0x310ade8f);
    NextRound(START, ABC, 63);
  }

  lemma Start()
    ensures Rounds(START, ABC, 0) == State(0x67452301, 0xefcdab89, 0x98badcfe, 0x10325476)
  {
  }

  lemma Compressed()
    ensures Compress(START, ABC) == State(0x98500190, 0xb04fd23c, 0x7d3f96d6, 0x727fe128)
  {
    hide Rounds;
    Round64();
  }

  lemma Padded()
    ensures [0x61, 0x62, 0x63] + Padding(3, LengthBytes(24)) == ABC
  {
    assert ZeroCount(3) == 52;
  }

  lemma Shown()
    ensures DigestBytes(State(0x98500190, 0xb04fd23c, 0x7d3f96d6, 0x727fe128)) == [
      0x90, 0x01, 0x50, 0x98, 0x3c, 0xd2, 0x4f, 0xb0, 0xd6, 0x96,
      0x3f, 0x7d, 0x28, 0xe1, 0x7f, 0x72
    ]
  {
  }

  // The digest that RFC 1321 prints.
  lemma AbcDigest()
    ensures Digest([0x61, 0x62, 0x63]) == [
      0x90, 0x01, 0x50, 0x98, 0x3c, 0xd2, 0x4f, 0xb0, 0xd6, 0x96,
      0x3f, 0x7d, 0x28, 0xe1, 0x7f, 0x72
    ]
  {
    hide Compress, DigestBytes, Fold, LengthBytes;
    Padded();
    FoldFront(Compress, START, ABC);
    assert ABC[..64] == ABC && ABC[64..] == [];
    FoldFront(Compress, Compress(START, ABC), []);
    Compressed();
    Shown();
  }
}
