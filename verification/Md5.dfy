/** MD5: the unrolled transform against the table-driven description of section 3.4 of RFC 1321, and
    the incremental context. */
module Md5 {
  import opened Entries
  import opened Blocks

  datatype State = State(a: Word, b: Word, c: Word, d: Word)

  // ---------- the standard's definition ----------

  function F(x: Word, y: Word, z: Word): Word { (x & y) | (!x & z) }

  function G(x: Word, y: Word, z: Word): Word { (x & z) | (y & !z) }

  function H(x: Word, y: Word, z: Word): Word { x ^ y ^ z }

  function I(x: Word, y: Word, z: Word): Word { y ^ (x | !z) }

  // What the functions do bit by bit: F chooses between y and z by x, G between x and y by z, H adds up,
  // and I turns y over where x or not z is set.
  lemma Selections(x: Word, y: Word, z: Word)
    ensures F(x, y, z) & x == y & x && F(x, y, z) & !x == z & !x
    ensures G(x, y, z) & z == x & z && G(x, y, z) & !z == y & !z
    ensures H(x, y, z) ^ x == y ^ z
    ensures I(x, y, z) ^ y == x | !z
  {
    ChoiceF(x, y, z);
    ChoiceG(x, y, z);
    SumsHI(x, y, z);
    hide F, G, H, I;
  }

  lemma ChoiceF(x: Word, y: Word, z: Word)
    ensures F(x, y, z) & x == y & x && F(x, y, z) & !x == z & !x
  {
  }

  lemma ChoiceG(x: Word, y: Word, z: Word)
    ensures G(x, y, z) & z == x & z && G(x, y, z) & !z == y & !z
  {
  }

  lemma SumsHI(x: Word, y: Word, z: Word)
    ensures H(x, y, z) ^ x == y ^ z && I(x, y, z) ^ y == x | !z
  {
  }

  ghost function T1(t: nat): Word
    requires 0 <= t < 16
  {
    match t
    case 0 => 0xd76aa478
    case 1 => 0xe8c7b756
    case 2 => 0x242070db
    case 3 => 0xc1bdceee
    case 4 => 0xf57c0faf
    case 5 => 0x4787c62a
    case 6 => 0xa8304613
    case 7 => 0xfd469501
    case 8 => 0x698098d8
    case 9 => 0x8b44f7af
    case 10 => 0xffff5bb1
    case 11 => 0x895cd7be
    case 12 => 0x6b901122
    case 13 => 0xfd987193
    case 14 => 0xa679438e
    case _ => 0x49b40821
  }

  ghost function T2(t: nat): Word
    requires 16 <= t < 32
  {
    match t
    case 16 => 0xf61e2562
    case 17 => 0xc040b340
    case 18 => 0x265e5a51
    case 19 => 0xe9b6c7aa
    case 20 => 0xd62f105d
    case 21 => 0x2441453
    case 22 => 0xd8a1e681
    case 23 => 0xe7d3fbc8
    case 24 => 0x21e1cde6
    case 25 => 0xc33707d6
    case 26 => 0xf4d50d87
    case 27 => 0x455a14ed
    case 28 => 0xa9e3e905
    case 29 => 0xfcefa3f8
    case 30 => 0x676f02d9
    case _ => 0x8d2a4c8a
  }

  ghost function T3(t: nat): Word
    requires 32 <= t < 48
  {
    match t
    case 32 => 0xfffa3942
    case 33 => 0x8771f681
    case 34 => 0x6d9d6122
    case 35 => 0xfde5380c
    case 36 => 0xa4beea44
    case 37 => 0x4bdecfa9
    case 38 => 0xf6bb4b60
    case 39 => 0xbebfbc70
    case 40 => 0x289b7ec6
    case 41 => 0xeaa127fa
    case 42 => 0xd4ef3085
    case 43 => 0x4881d05
    case 44 => 0xd9d4d039
    case 45 => 0xe6db99e5
    case 46 => 0x1fa27cf8
    case _ => 0xc4ac5665
  }

  ghost function T4(t: nat): Word
    requires 48 <= t < 64
  {
    match t
    case 48 => 0xf4292244
    case 49 => 0x432aff97
    case 50 => 0xab9423a7
    case 51 => 0xfc93a039
    case 52 => 0x655b59c3
    case 53 => 0x8f0ccc92
    case 54 => 0xffeff47d
    case 55 => 0x85845dd1
    case 56 => 0x6fa87e4f
    case 57 => 0xfe2ce6e0
    case 58 => 0xa3014314
    case 59 => 0x4e0811a1
    case 60 => 0xf7537e82
    case 61 => 0xbd3af235
    case 62 => 0x2ad7d2bb
    case _ => 0xeb86d391
  }

  ghost function T(t: nat): Word
    requires t < 64
  {
    if t < 16 then T1(t) else if t < 32 then T2(t) else if t < 48 then T3(t) else T4(t)
  }

  ghost function Auxiliary(t: nat, x: Word, y: Word, z: Word): Word
  {
    if t < 16 then F(x, y, z) else if t < 32 then G(x, y, z) else if t < 48 then H(x, y, z) else I(x, y, z)
  }

  // The word of the block a step takes in, and by how much it rotates.
  ghost function Index(t: nat): (k: nat)
    ensures k < 16
  {
    (if t < 16 then t else if t < 32 then 5 * t + 1 else if t < 48 then 3 * t + 5 else 7 * t) % 16
  }

  ghost function Shift(t: nat): (s: nat)
    ensures 0 < s < 32
  {
    var k := t % 4;
    if t < 16 then 7 + 5 * k
    else if t < 32 then if k == 0 then 5 else if k == 1 then 9 else if k == 2 then 14 else 20
    else if t < 48 then if k == 0 then 4 else if k == 1 then 11 else if k == 2 then 16 else 23
    else if k == 0 then 6 else if k == 1 then 10 else if k == 2 then 15 else 21
  }

  ghost function X(m: Block, k: nat): Word
    requires k < 16
  {
    Little(m[4 * k], m[4 * k + 1], m[4 * k + 2], m[4 * k + 3])
  }

  ghost function Sum4(a: Word, f: Word, x: Word, t: Word): Word { a + f + x + t }

  ghost function Step(t: nat, s: State, x: Word): State
    requires t < 64
  {
    State(s.d, Plus(s.b, Rol(Sum4(s.a, Auxiliary(t, s.b, s.c, s.d), x, T(t)), Shift(t))), s.b, s.c)
  }

  ghost function Rounds(h: State, m: Block, t: nat): State
    requires t <= 64
    decreases t
  {
    if t == 0 then h else Step(t - 1, Rounds(h, m, t - 1), X(m, Index(t - 1)))
  }

  ghost function Sum(h: State, s: State): State
  {
    State(Plus(h.a, s.a), Plus(h.b, s.b), Plus(h.c, s.c), Plus(h.d, s.d))
  }

  ghost function Compress(h: State, m: Block): State
  {
    Sum(h, Rounds(h, m, 64))
  }

  // ---------- the transform ----------

  lemma NextRound(h: State, m: Block, t: nat)
    requires t < 64
    ensures Rounds(h, m, t + 1) == Step(t, Rounds(h, m, t), X(m, Index(t)))
  {
  }

  function Added(a: Word, f: Word, x: Word, ac: Word): Word { a + (f + x + ac) }

  lemma Reorder(a: Word, f: Word, x: Word, ac: Word)
    ensures Added(a, f, x, ac) == Sum4(a, f, x, ac)
  {
  }

  lemma Swap(x: Word, y: Word)
    ensures Plus(x, y) == Plus(y, x)
  {
  }

  method FF(a: Word, b: Word, c: Word, d: Word, x: Word, s: nat, ac: Word, ghost t: nat, ghost m: Block, ghost h: State)
    returns (a': Word)
    requires 0 <= t < 16 && Rounds(h, m, t) == State(a, b, c, d)
    requires x == X(m, Index(t)) && s == Shift(t) && ac == T1(t)
    ensures Rounds(h, m, t + 1) == State(d, a', b, c)
  {
    hide Rounds, X, Index, Shift, T1, T2, T3, T4, F, G, H, I, Rol, Plus, Sum4;
    a' := Added(a, F(b, c, d), x, ac);
    a' := Rol(a', s);
    a' := Plus(a', b);
    NextRound(h, m, t);
    Reorder(a, F(b, c, d), x, ac);
    Swap(b, Rol(Sum4(a, F(b, c, d), x, ac), s));
  }

  method GG(a: Word, b: Word, c: Word, d: Word, x: Word, s: nat, ac: Word, ghost t: nat, ghost m: Block, ghost h: State)
    returns (a': Word)
    requires 16 <= t < 32 && Rounds(h, m, t) == State(a, b, c, d)
    requires x == X(m, Index(t)) && s == Shift(t) && ac == T2(t)
    ensures Rounds(h, m, t + 1) == State(d, a', b, c)
  {
    hide Rounds, X, Index, Shift, T1, T2, T3, T4, F, G, H, I, Rol, Plus, Sum4;
    a' := Added(a, G(b, c, d), x, ac);
    a' := Rol(a', s);
    a' := Plus(a', b);
    NextRound(h, m, t);
    Reorder(a, G(b, c, d), x, ac);
    Swap(b, Rol(Sum4(a, G(b, c, d), x, ac), s));
  }

  method HH(a: Word, b: Word, c: Word, d: Word, x: Word, s: nat, ac: Word, ghost t: nat, ghost m: Block, ghost h: State)
    returns (a': Word)
    requires 32 <= t < 48 && Rounds(h, m, t) == State(a, b, c, d)
    requires x == X(m, Index(t)) && s == Shift(t) && ac == T3(t)
    ensures Rounds(h, m, t + 1) == State(d, a', b, c)
  {
    hide Rounds, X, Index, Shift, T1, T2, T3, T4, F, G, H, I, Rol, Plus, Sum4;
    a' := Added(a, H(b, c, d), x, ac);
    a' := Rol(a', s);
    a' := Plus(a', b);
    NextRound(h, m, t);
    Reorder(a, H(b, c, d), x, ac);
    Swap(b, Rol(Sum4(a, H(b, c, d), x, ac), s));
  }

  method II(a: Word, b: Word, c: Word, d: Word, x: Word, s: nat, ac: Word, ghost t: nat, ghost m: Block, ghost h: State)
    returns (a': Word)
    requires 48 <= t < 64 && Rounds(h, m, t) == State(a, b, c, d)
    requires x == X(m, Index(t)) && s == Shift(t) && ac == T4(t)
    ensures Rounds(h, m, t + 1) == State(d, a', b, c)
  {
    hide Rounds, X, Index, Shift, T1, T2, T3, T4, F, G, H, I, Rol, Plus, Sum4;
    a' := Added(a, I(b, c, d), x, ac);
    a' := Rol(a', s);
    a' := Plus(a', b);
    NextRound(h, m, t);
    Reorder(a, I(b, c, d), x, ac);
    Swap(b, Rol(Sum4(a, I(b, c, d), x, ac), s));
  }

  // The words, rotations and constants of the steps of each round.
  lemma Row1()
    ensures Index(0) == 0 && Shift(0) == 7 && T1(0) == 0xd76aa478
    ensures Index(1) == 1 && Shift(1) == 12 && T1(1) == 0xe8c7b756
    ensures Index(2) == 2 && Shift(2) == 17 && T1(2) == 0x242070db
    ensures Index(3) == 3 && Shift(3) == 22 && T1(3) == 0xc1bdceee
    ensures Index(4) == 4 && Shift(4) == 7 && T1(4) == 0xf57c0faf
    ensures Index(5) == 5 && Shift(5) == 12 && T1(5) == 0x4787c62a
    ensures Index(6) == 6 && Shift(6) == 17 && T1(6) == 0xa8304613
    ensures Index(7) == 7 && Shift(7) == 22 && T1(7) == 0xfd469501
    ensures Index(8) == 8 && Shift(8) == 7 && T1(8) == 0x698098d8
    ensures Index(9) == 9 && Shift(9) == 12 && T1(9) == 0x8b44f7af
    ensures Index(10) == 10 && Shift(10) == 17 && T1(10) == 0xffff5bb1
    ensures Index(11) == 11 && Shift(11) == 22 && T1(11) == 0x895cd7be
    ensures Index(12) == 12 && Shift(12) == 7 && T1(12) == 0x6b901122
    ensures Index(13) == 13 && Shift(13) == 12 && T1(13) == 0xfd987193
    ensures Index(14) == 14 && Shift(14) == 17 && T1(14) == 0xa679438e
    ensures Index(15) == 15 && Shift(15) == 22 && T1(15) == 0x49b40821
  {
  }

  lemma Row2()
    ensures Index(16) == 1 && Shift(16) == 5 && T2(16) == 0xf61e2562
    ensures Index(17) == 6 && Shift(17) == 9 && T2(17) == 0xc040b340
    ensures Index(18) == 11 && Shift(18) == 14 && T2(18) == 0x265e5a51
    ensures Index(19) == 0 && Shift(19) == 20 && T2(19) == 0xe9b6c7aa
    ensures Index(20) == 5 && Shift(20) == 5 && T2(20) == 0xd62f105d
    ensures Index(21) == 10 && Shift(21) == 9 && T2(21) == 0x2441453
    ensures Index(22) == 15 && Shift(22) == 14 && T2(22) == 0xd8a1e681
    ensures Index(23) == 4 && Shift(23) == 20 && T2(23) == 0xe7d3fbc8
    ensures Index(24) == 9 && Shift(24) == 5 && T2(24) == 0x21e1cde6
    ensures Index(25) == 14 && Shift(25) == 9 && T2(25) == 0xc33707d6
    ensures Index(26) == 3 && Shift(26) == 14 && T2(26) == 0xf4d50d87
    ensures Index(27) == 8 && Shift(27) == 20 && T2(27) == 0x455a14ed
    ensures Index(28) == 13 && Shift(28) == 5 && T2(28) == 0xa9e3e905
    ensures Index(29) == 2 && Shift(29) == 9 && T2(29) == 0xfcefa3f8
    ensures Index(30) == 7 && Shift(30) == 14 && T2(30) == 0x676f02d9
    ensures Index(31) == 12 && Shift(31) == 20 && T2(31) == 0x8d2a4c8a
  {
  }

  lemma Row3()
    ensures Index(32) == 5 && Shift(32) == 4 && T3(32) == 0xfffa3942
    ensures Index(33) == 8 && Shift(33) == 11 && T3(33) == 0x8771f681
    ensures Index(34) == 11 && Shift(34) == 16 && T3(34) == 0x6d9d6122
    ensures Index(35) == 14 && Shift(35) == 23 && T3(35) == 0xfde5380c
    ensures Index(36) == 1 && Shift(36) == 4 && T3(36) == 0xa4beea44
    ensures Index(37) == 4 && Shift(37) == 11 && T3(37) == 0x4bdecfa9
    ensures Index(38) == 7 && Shift(38) == 16 && T3(38) == 0xf6bb4b60
    ensures Index(39) == 10 && Shift(39) == 23 && T3(39) == 0xbebfbc70
    ensures Index(40) == 13 && Shift(40) == 4 && T3(40) == 0x289b7ec6
    ensures Index(41) == 0 && Shift(41) == 11 && T3(41) == 0xeaa127fa
    ensures Index(42) == 3 && Shift(42) == 16 && T3(42) == 0xd4ef3085
    ensures Index(43) == 6 && Shift(43) == 23 && T3(43) == 0x4881d05
    ensures Index(44) == 9 && Shift(44) == 4 && T3(44) == 0xd9d4d039
    ensures Index(45) == 12 && Shift(45) == 11 && T3(45) == 0xe6db99e5
    ensures Index(46) == 15 && Shift(46) == 16 && T3(46) == 0x1fa27cf8
    ensures Index(47) == 2 && Shift(47) == 23 && T3(47) == 0xc4ac5665
  {
  }

  lemma Row4()
    ensures Index(48) == 0 && Shift(48) == 6 && T4(48) == 0xf4292244
    ensures Index(49) == 7 && Shift(49) == 10 && T4(49) == 0x432aff97
    ensures Index(50) == 14 && Shift(50) == 15 && T4(50) == 0xab9423a7
    ensures Index(51) == 5 && Shift(51) == 21 && T4(51) == 0xfc93a039
    ensures Index(52) == 12 && Shift(52) == 6 && T4(52) == 0x655b59c3
    ensures Index(53) == 3 && Shift(53) == 10 && T4(53) == 0x8f0ccc92
    ensures Index(54) == 10 && Shift(54) == 15 && T4(54) == 0xffeff47d
    ensures Index(55) == 1 && Shift(55) == 21 && T4(55) == 0x85845dd1
    ensures Index(56) == 8 && Shift(56) == 6 && T4(56) == 0x6fa87e4f
    ensures Index(57) == 15 && Shift(57) == 10 && T4(57) == 0xfe2ce6e0
    ensures Index(58) == 6 && Shift(58) == 15 && T4(58) == 0xa3014314
    ensures Index(59) == 13 && Shift(59) == 21 && T4(59) == 0x4e0811a1
    ensures Index(60) == 4 && Shift(60) == 6 && T4(60) == 0xf7537e82
    ensures Index(61) == 11 && Shift(61) == 10 && T4(61) == 0xbd3af235
    ensures Index(62) == 2 && Shift(62) == 15 && T4(62) == 0x2ad7d2bb
    ensures Index(63) == 9 && Shift(63) == 21 && T4(63) == 0xeb86d391
  {
  }

  ghost predicate Loaded(x: array<Word>, m: Block)
    reads x
  {
    x.Length == 16 && forall k :: 0 <= k < 16 ==> x[k] == X(m, k)
  }

  method Round1(a0: Word, b0: Word, c0: Word, d0: Word, x: array<Word>, ghost m: Block, ghost h: State)
    returns (a: Word, b: Word, c: Word, d: Word)
    requires Loaded(x, m) && Rounds(h, m, 0) == State(a0, b0, c0, d0)
    ensures Rounds(h, m, 16) == State(a, b, c, d)
  {
    hide Rounds, X, Index, Shift, T1;
    Row1();
    a, b, c, d := a0, b0, c0, d0;
    a := FF(a, b, c, d, x[0], 7, 0xd76aa478, 0, m, h);
    d := FF(d, a, b, c, x[1], 12, 0xe8c7b756, 1, m, h);
    c := FF(c, d, a, b, x[2], 17, 0x242070db, 2, m, h);
    b := FF(b, c, d, a, x[3], 22, 0xc1bdceee, 3, m, h);
    a := FF(a, b, c, d, x[4], 7, 0xf57c0faf, 4, m, h);
    d := FF(d, a, b, c, x[5], 12, 0x4787c62a, 5, m, h);
    c := FF(c, d, a, b, x[6], 17, 0xa8304613, 6, m, h);
    b := FF(b, c, d, a, x[7], 22, 0xfd469501, 7, m, h);
    a := FF(a, b, c, d, x[8], 7, 0x698098d8, 8, m, h);
    d := FF(d, a, b, c, x[9], 12, 0x8b44f7af, 9, m, h);
    c := FF(c, d, a, b, x[10], 17, 0xffff5bb1, 10, m, h);
    b := FF(b, c, d, a, x[11], 22, 0x895cd7be, 11, m, h);
    a := FF(a, b, c, d, x[12], 7, 0x6b901122, 12, m, h);
    d := FF(d, a, b, c, x[13], 12, 0xfd987193, 13, m, h);
    c := FF(c, d, a, b, x[14], 17, 0xa679438e, 14, m, h);
    b := FF(b, c, d, a, x[15], 22, 0x49b40821, 15, m, h);
  }

  method Round2(a0: Word, b0: Word, c0: Word, d0: Word, x: array<Word>, ghost m: Block, ghost h: State)
    returns (a: Word, b: Word, c: Word, d: Word)
    requires Loaded(x, m) && Rounds(h, m, 16) == State(a0, b0, c0, d0)
    ensures Rounds(h, m, 32) == State(a, b, c, d)
  {
    hide Rounds, X, Index, Shift, T2;
    Row2();
    a, b, c, d := a0, b0, c0, d0;
    a := GG(a, b, c, d, x[1], 5, 0xf61e2562, 16, m, h);
    d := GG(d, a, b, c, x[6], 9, 0xc040b340, 17, m, h);
    c := GG(c, d, a, b, x[11], 14, 0x265e5a51, 18, m, h);
    b := GG(b, c, d, a, x[0], 20, 0xe9b6c7aa, 19, m, h);
    a := GG(a, b, c, d, x[5], 5, 0xd62f105d, 20, m, h);
    d := GG(d, a, b, c, x[10], 9, 0x2441453, 21, m, h);
    c := GG(c, d, a, b, x[15], 14, 0xd8a1e681, 22, m, h);
    b := GG(b, c, d, a, x[4], 20, 0xe7d3fbc8, 23, m, h);
    a := GG(a, b, c, d, x[9], 5, 0x21e1cde6, 24, m, h);
    d := GG(d, a, b, c, x[14], 9, 0xc33707d6, 25, m, h);
    c := GG(c, d, a, b, x[3], 14, 0xf4d50d87, 26, m, h);
    b := GG(b, c, d, a, x[8], 20, 0x455a14ed, 27, m, h);
    a := GG(a, b, c, d, x[13], 5, 0xa9e3e905, 28, m, h);
    d := GG(d, a, b, c, x[2], 9, 0xfcefa3f8, 29, m, h);
    c := GG(c, d, a, b, x[7], 14, 0x676f02d9, 30, m, h);
    b := GG(b, c, d, a, x[12], 20, 0x8d2a4c8a, 31, m, h);
  }

  method Round3(a0: Word, b0: Word, c0: Word, d0: Word, x: array<Word>, ghost m: Block, ghost h: State)
    returns (a: Word, b: Word, c: Word, d: Word)
    requires Loaded(x, m) && Rounds(h, m, 32) == State(a0, b0, c0, d0)
    ensures Rounds(h, m, 48) == State(a, b, c, d)
  {
    hide Rounds, X, Index, Shift, T3;
    Row3();
    a, b, c, d := a0, b0, c0, d0;
    a := HH(a, b, c, d, x[5], 4, 0xfffa3942, 32, m, h);
    d := HH(d, a, b, c, x[8], 11, 0x8771f681, 33, m, h);
    c := HH(c, d, a, b, x[11], 16, 0x6d9d6122, 34, m, h);
    b := HH(b, c, d, a, x[14], 23, 0xfde5380c, 35, m, h);
    a := HH(a, b, c, d, x[1], 4, 0xa4beea44, 36, m, h);
    d := HH(d, a, b, c, x[4], 11, 0x4bdecfa9, 37, m, h);
    c := HH(c, d, a, b, x[7], 16, 0xf6bb4b60, 38, m, h);
    b := HH(b, c, d, a, x[10], 23, 0xbebfbc70, 39, m, h);
    a := HH(a, b, c, d, x[13], 4, 0x289b7ec6, 40, m, h);
    d := HH(d, a, b, c, x[0], 11, 0xeaa127fa, 41, m, h);
    c := HH(c, d, a, b, x[3], 16, 0xd4ef3085, 42, m, h);
    b := HH(b, c, d, a, x[6], 23, 0x4881d05, 43, m, h);
    a := HH(a, b, c, d, x[9], 4, 0xd9d4d039, 44, m, h);
    d := HH(d, a, b, c, x[12], 11, 0xe6db99e5, 45, m, h);
    c := HH(c, d, a, b, x[15], 16, 0x1fa27cf8, 46, m, h);
    b := HH(b, c, d, a, x[2], 23, 0xc4ac5665, 47, m, h);
  }

  method Round4(a0: Word, b0: Word, c0: Word, d0: Word, x: array<Word>, ghost m: Block, ghost h: State)
    returns (a: Word, b: Word, c: Word, d: Word)
    requires Loaded(x, m) && Rounds(h, m, 48) == State(a0, b0, c0, d0)
    ensures Rounds(h, m, 64) == State(a, b, c, d)
  {
    hide Rounds, X, Index, Shift, T4;
    Row4();
    a, b, c, d := a0, b0, c0, d0;
    a := II(a, b, c, d, x[0], 6, 0xf4292244, 48, m, h);
    d := II(d, a, b, c, x[7], 10, 0x432aff97, 49, m, h);
    c := II(c, d, a, b, x[14], 15, 0xab9423a7, 50, m, h);
    b := II(b, c, d, a, x[5], 21, 0xfc93a039, 51, m, h);
    a := II(a, b, c, d, x[12], 6, 0x655b59c3, 52, m, h);
    d := II(d, a, b, c, x[3], 10, 0x8f0ccc92, 53, m, h);
    c := II(c, d, a, b, x[10], 15, 0xffeff47d, 54, m, h);
    b := II(b, c, d, a, x[1], 21, 0x85845dd1, 55, m, h);
    a := II(a, b, c, d, x[8], 6, 0x6fa87e4f, 56, m, h);
    d := II(d, a, b, c, x[15], 10, 0xfe2ce6e0, 57, m, h);
    c := II(c, d, a, b, x[6], 15, 0xa3014314, 58, m, h);
    b := II(b, c, d, a, x[13], 21, 0x4e0811a1, 59, m, h);
    a := II(a, b, c, d, x[4], 6, 0xf7537e82, 60, m, h);
    d := II(d, a, b, c, x[11], 10, 0xbd3af235, 61, m, h);
    c := II(c, d, a, b, x[2], 15, 0x2ad7d2bb, 62, m, h);
    b := II(b, c, d, a, x[9], 21, 0xeb86d391, 63, m, h);
  }

  // hash_md5_decode
  method Decode(output: array<Word>, input: array<Byte>, off: nat, len: nat)
    requires len % 4 == 0 && len / 4 <= output.Length && off + len <= input.Length
    modifies output
    ensures forall k :: 0 <= k < len / 4 ==>
      output[k] == Little(input[off + 4 * k], input[off + 4 * k + 1], input[off + 4 * k + 2], input[off + 4 * k + 3])
  {
    hide Little;
    var i, j := 0, 0;
    while j < len
      invariant j == 4 * i <= len
      invariant forall k :: 0 <= k < i ==>
        output[k] == Little(input[off + 4 * k], input[off + 4 * k + 1], input[off + 4 * k + 2], input[off + 4 * k + 3])
    {
      output[i] := Little(input[off + j], input[off + j + 1], input[off + j + 2], input[off + j + 3]);
      i := i + 1;
      j := j + 4;
    }
  }

  ghost function StateOf(state: array<Word>): State
    requires state.Length == 4
    reads state
  {
    State(state[0], state[1], state[2], state[3])
  }

  method AllRounds(a0: Word, b0: Word, c0: Word, d0: Word, block: array<Byte>, off: nat)
    returns (a: Word, b: Word, c: Word, d: Word)
    requires off + 64 <= block.Length
    ensures State(a, b, c, d) == Rounds(State(a0, b0, c0, d0), block[off..off + 64], 64)
  {
    hide Little, Rounds;
    ghost var m: Block := block[off..off + 64];
    ghost var h := State(a0, b0, c0, d0);
    var x := new Word[16];
    Decode(x, block, off, 64);
    NoRounds(h, m);
    assert Loaded(x, m);
    hide X, Loaded;
    a, b, c, d := Round1(a0, b0, c0, d0, x, m, h);
    a, b, c, d := Round2(a, b, c, d, x, m, h);
    a, b, c, d := Round3(a, b, c, d, x, m, h);
    a, b, c, d := Round4(a, b, c, d, x, m, h);
  }

  lemma NoRounds(h: State, m: Block)
    ensures Rounds(h, m, 0) == h
  {
  }

  // hash_md5_transform
  method Transform(state: array<Word>, block: array<Byte>, off: nat)
    requires state.Length == 4 && off + 64 <= block.Length
    modifies state
    ensures StateOf(state) == Compress(old(StateOf(state)), block[off..off + 64])
  {
    hide Rounds, Sum;
    var a, b, c, d := AllRounds(state[0], state[1], state[2], state[3], block, off);
    AddIn(state, a, b, c, d);
  }

  method AddIn(state: array<Word>, a: Word, b: Word, c: Word, d: Word)
    requires state.Length == 4
    modifies state
    ensures StateOf(state) == Sum(old(StateOf(state)), State(a, b, c, d))
  {
    hide Plus;
    state[0] := Plus(state[0], a);
    state[1] := Plus(state[1], b);
    state[2] := Plus(state[2], c);
    state[3] := Plus(state[3], d);
  }

  // ---------- padding and digest ----------

  // The bytes of a word, the least significant first.
  function LittleByte(w: Word, k: nat): Byte
    requires k < 4
  {
    ((if k == 0 then w else if k == 1 then w >> 8 else if k == 2 then w >> 16 else w >> 24) & 255) as Byte
  }

  ghost function LittleBytes(ws: seq<Word>): (s: seq<Byte>)
    ensures |s| == 4 * |ws|
  {
    seq(4 * |ws|, k requires 0 <= k < 4 * |ws| => LittleByte(ws[k / 4], k % 4))
  }

  lemma LittleRoundTrip(w: Word)
    ensures Little(LittleByte(w, 0), LittleByte(w, 1), LittleByte(w, 2), LittleByte(w, 3)) == w
  {
  }

  // What hash_md5_decode reads from the bytes of hash_md5_encode are the words encoded.
  lemma DecodeUndoesEncode(ws: seq<Word>, k: nat)
    requires k < |ws|
    ensures var s := LittleBytes(ws); Little(s[4 * k], s[4 * k + 1], s[4 * k + 2], s[4 * k + 3]) == ws[k]
  {
    hide LittleByte, Little;
    LittleRoundTrip(ws[k]);
  }

  // The length of the message in bits as two words, the low one first.
  ghost function LengthBytes(bits: nat): (s: seq<Byte>)
    requires bits < TWO_64
    ensures |s| == 8
  {
    LittleBytes([ToWord(bits % TWO_32), ToWord(bits / TWO_32)])
  }

  ghost function DigestBytes(s: State): seq<Byte>
  {
    LittleBytes([s.a, s.b, s.c, s.d])
  }

  // The first word is the rest modulo 2^32, the second one counts the full 2^32 bits.
  lemma LengthWords(bits: nat)
    requires bits < TWO_64
    ensures var s := LengthBytes(bits);
      && Little(s[0], s[1], s[2], s[3]) == ToWord(bits % TWO_32)
      && Little(s[4], s[5], s[6], s[7]) == ToWord(bits / TWO_32)
  {
    hide LittleBytes, Little, ToWord;
    var ws := [ToWord(bits % TWO_32), ToWord(bits / TWO_32)];
    DecodeUndoesEncode(ws, 0);
    DecodeUndoesEncode(ws, 1);
  }

  // A digest tells the chaining value it was made from.
  lemma DigestTellsState(s: State, t: State)
    requires DigestBytes(s) == DigestBytes(t)
    ensures s == t
  {
    hide LittleBytes, Little;
    var x, y := [s.a, s.b, s.c, s.d], [t.a, t.b, t.c, t.d];
    forall k | 0 <= k < 4 ensures x[k] == y[k] {
      DecodeUndoesEncode(x, k);
      DecodeUndoesEncode(y, k);
    }
    assert x[0] == y[0] && x[1] == y[1] && x[2] == y[2] && x[3] == y[3];
  }

  // The digest of a message as the standard defines it.
  ghost function Digest(m: seq<Byte>): seq<Byte>
  {
    DigestBytes(Fold(Compress, START, m + Padding(|m|, LengthBytes(8 * |m| % TWO_64))))
  }

  // hash_md5_encode
  method Encode(output: array<Byte>, input: array<Word>, len: nat)
    requires len % 4 == 0 && len / 4 == input.Length && len == output.Length
    modifies output
    ensures output[..] == LittleBytes(input[..])
  {
    hide LittleByte;
    var i, j := 0, 0;
    while j < len
      invariant j == 4 * i <= len
      invariant forall k :: 0 <= k < j ==> output[k] == LittleByte(input[k / 4], k % 4)
    {
      EncodeWord(output, j, input[i]);
      i := i + 1;
      j := j + 4;
    }
    assert output[..] == LittleBytes(input[..]);
  }

  method EncodeWord(output: array<Byte>, j: nat, w: Word)
    requires j % 4 == 0 && j + 4 <= output.Length
    modifies output
    ensures forall k :: 0 <= k < output.Length ==>
      output[k] == if j <= k < j + 4 then LittleByte(w, k % 4) else old(output[k])
  {
    hide LittleByte;
    output[j] := LittleByte(w, 0);
    output[j + 1] := LittleByte(w, 1);
    output[j + 2] := LittleByte(w, 2);
    output[j + 3] := LittleByte(w, 3);
  }

  // ---------- the context ----------

  const START := State(0x67452301, 0xefcdab89, 0x98badcfe, 0x10325476)

  class Context {
    const state: array<Word>
    // The 32-bit words of the bit counter, the low one first.
    var count0: nat
    var count1: nat
    const buffer: array<Byte>

    ghost predicate Valid()
      reads this
    {
      state.Length == 4 && buffer.Length == 64 && count0 < TWO_32 && count1 < TWO_32
    }

    ghost function Kept(): (v: View<State>)
      requires Valid()
      reads this, state, buffer
      ensures Proper(v)
    {
      View(StateOf(state), buffer[..count0 / 8 % 64], count1 * TWO_32 + count0)
    }

    // hash_md5_init
    constructor ()
      ensures Valid() && fresh(state) && fresh(buffer) && Kept() == View(START, [], 0)
    {
      count0, count1 := 0, 0;
      var s := new Word[4];
      s[0], s[1], s[2], s[3] := 0x67452301, 0xefcdab89, 0x98badcfe, 0x10325476;
      state := s;
      buffer := new Byte[64];
    }

    // The counter takes in inputLen bytes.
    method AddCount(inputLen: nat)
      requires Valid() && inputLen < TWO_32
      modifies this`count0, this`count1
      ensures Valid() && count0 / 8 % 64 == (old(count0) / 8 % 64 + inputLen) % 64
      ensures count1 * TWO_32 + count0 == (old(count1) * TWO_32 + old(count0) + 8 * inputLen) % TWO_64
    {
      CountCarry(count0, count1, inputLen);
      LiveBytes(count0, inputLen);
      count0 := (count0 + 8 * inputLen % TWO_32) % TWO_32;
      if count0 < 8 * inputLen % TWO_32 {
        count1 := (count1 + 1) % TWO_32;
      }
      count1 := (count1 + inputLen / 0x2000_0000) % TWO_32;
    }

    // The full blocks of input from index `from` on.
    method TransformBlocks(input: array<Byte>, from: nat, inputLen: nat) returns (i: nat)
      requires Valid() && from <= inputLen <= input.Length
      modifies state
      ensures from <= i <= inputLen && i + 63 >= inputLen && Tail(input[from..inputLen]) == input[i..inputLen]
      ensures StateOf(state) == Fold(Compress, old(StateOf(state)), input[from..inputLen])
    {
      hide Compress, StateOf, Fold, Tail;
      i := from;
      while i + 63 < inputLen
        invariant from <= i <= inputLen
        invariant Fold(Compress, old(StateOf(state)), input[from..inputLen])
               == Fold(Compress, StateOf(state), input[i..inputLen])
        invariant Tail(input[from..inputLen]) == Tail(input[i..inputLen])
      {
        assert input[i..inputLen][..64] == input[i..i + 64] && input[i..inputLen][64..] == input[i + 64..inputLen];
        FoldFront(Compress, StateOf(state), input[i..inputLen]);
        TailDrop(input[i..inputLen]);
        Transform(state, input, i);
        i := i + 64;
      }
      FoldShort(Compress, StateOf(state), input[i..inputLen]);
    }

    // The buffer is filled and transformed, and the full blocks that follow are.
    method FillAndTransform(index: nat, input: array<Byte>, inputLen: nat) returns (i: nat)
      requires Valid() && index < 64 && inputLen <= input.Length && input != buffer && index + inputLen >= 64
      modifies state, buffer
      ensures var m := old(buffer[..index]) + input[..inputLen];
        && i <= inputLen && Tail(m) == input[i..inputLen] && i + 63 >= inputLen
        && StateOf(state) == Fold(Compress, old(StateOf(state)), m)
    {
      hide Compress, StateOf, Fold, Tail;
      ghost var m := buffer[..index] + input[..inputLen];
      FoldFront(Compress, StateOf(state), m);
      TailDrop(m);
      var partLen := 64 - index;
      Copy(buffer, index, input, 0, partLen);
      assert buffer[0..64] == m[..64] && m[64..] == input[partLen..inputLen];
      Transform(state, buffer, 0);
      i := TransformBlocks(input, partLen, inputLen);
    }

    // hash_md5_update
    method Update(input: array<Byte>, inputLen: nat)
      requires Valid() && inputLen <= input.Length && inputLen < 0x8000_0000 && input != buffer
      modifies this, state, buffer
      ensures Valid() && Kept() == Absorb(Compress, old(Kept()), input[..inputLen])
    {
      hide Compress, StateOf, Fold, Tail;
      var index := count0 / 8 % 64;
      AddCount(inputLen);
      ghost var m := buffer[..index] + input[..inputLen];
      FoldFront(Compress, StateOf(state), m);
      TailLength(m);
      var i := 0;
      if inputLen >= 64 - index {
        i := FillAndTransform(index, input, inputLen);
        index := 0;
      } else {
        TailShort(m);
      }
      Copy(buffer, index, input, i, inputLen - i);
      assert buffer[..count0 / 8 % 64] == Tail(m);
    }

    method Wipe()
      requires Valid()
      modifies this, state, buffer
      ensures Valid() && Kept() == View(State(0, 0, 0, 0), [], 0) && buffer[..] == Zeros(64)
    {
      forall i | 0 <= i < 4 { state[i] := 0; }
      forall i | 0 <= i < 64 { buffer[i] := 0; }
      count0, count1 := 0, 0;
    }

    // The bit counter, least significant byte first.
    method CountBytes() returns (bits: array<Byte>)
      requires Valid()
      ensures fresh(bits) && bits.Length == 8 && bits[..] == LengthBytes(count1 * TWO_32 + count0)
    {
      hide LittleBytes, ToWord;
      HighLow(count0, count1);
      bits := new Byte[8];
      var count := new Word[2];
      count[0], count[1] := ToWord(count0), ToWord(count1);
      Encode(bits, count, 8);
      assert count[..] == [ToWord(count0), ToWord(count1)];
    }

    // hash_md5_final
    method Final(digest: array<Byte>)
      requires Valid() && digest.Length == 16 && digest != buffer
      modifies digest, this, state, buffer
      ensures var v := old(Kept());
        digest[..] == DigestBytes(Absorb(Compress, v, Padding(|v.tail|, LengthBytes(v.bits))).state)
      ensures Valid() && Kept() == View(State(0, 0, 0, 0), [], 0) && buffer[..] == Zeros(64)
    {
      hide Compress, Fold, Absorb, LengthBytes, LittleBytes;
      ghost var v := Kept();
      var bits := CountBytes();
      assert bits[..8] == bits[..];
      var index := count0 / 8 % 64;
      var padLen := if index < 56 then 56 - index else 120 - index;
      var padding := new Byte[64](i => if i == 0 then 0x80 else 0);
      assert padding[..padLen] == [0x80] + Zeros(ZeroCount(|v.tail|));
      Update(padding, padLen);
      AbsorbTwice(Compress, v, padding[..padLen], bits[..8]);
      Update(bits, 8);
      assert Padding(|v.tail|, bits[..8]) == padding[..padLen] + bits[..8];
      Encode(digest, state, 16);
      assert state[..] == [state[0], state[1], state[2], state[3]];
      Wipe();
    }
  }

  // A context that was started, fed the chunks of a message and finished has the standard's digest.
  lemma DigestOfChunks(chunks: seq<seq<Byte>>)
    ensures var v := AbsorbAll(Compress, View(START, [], 0), chunks);
      && v.bits < TWO_64
      && DigestBytes(Absorb(Compress, v, Padding(|v.tail|, LengthBytes(v.bits))).state) == Digest(Concat(chunks))
    ensures |Concat(chunks) + Padding(|Concat(chunks)|, LengthBytes(8 * |Concat(chunks)| % TWO_64))| % 64 == 0
  {
    hide Compress, Fold, Absorb, LengthBytes, Padding, DigestBytes;
    var m := Concat(chunks);
    ChunkIndependence(Compress, View(START, [], 0), chunks);
    var length := LengthBytes(8 * |m| % TWO_64);
    PaddedFold(Compress, START, m, length);
    PaddedBlocks(m, length);
  }

  // hash_md5_string
  method DigestString(text: array<Byte>, digest: array<Byte>)
    requires text.Length < 0x8000_0000 && digest.Length == 16 && text != digest
    modifies digest
    ensures digest[..] == Digest(text[..])
  {
    hide Compress, Fold, LengthBytes, DigestBytes, Digest, Padding;
    var context := new Context();
    context.Update(text, text.Length);
    assert text[..text.Length] == text[..];
    DigestOfChunks([text[..]]);
    assert Concat([text[..]]) == text[..];
    context.Final(digest);
  }
}
