/** SHA-1: the unrolled block function over a circular schedule against the 80-word definition of
    section 6.1.2 of FIPS 180-4, and the incremental context. */
module Sha1 {
  import opened Entries
  import opened Blocks

  datatype State = State(a: Word, b: Word, c: Word, d: Word, e: Word)

  // ---------- the standard's definition ----------

  ghost function BigEndian(b0: Byte, b1: Byte, b2: Byte, b3: Byte): Word
  {
    ((b0 as Word) << 24) | ((b1 as Word) << 16) | ((b2 as Word) << 8) | (b3 as Word)
  }

  ghost function Big(m: Block, t: nat): Word
    requires t < 16
  {
    BigEndian(m[4 * t], m[4 * t + 1], m[4 * t + 2], m[4 * t + 3])
  }

  function Mix(x: Word, y: Word, z: Word, w: Word): Word
  {
    Rol(x ^ y ^ z ^ w, 1)
  }

  // Rotation moves every bit k to place k + n, counted around the word.
  lemma RolBits(x: Word, k: Word)
    requires k < 32
    ensures (Rol(x, 1) >> ((k + 1) & 31)) & 1 == (x >> k) & 1
    ensures (Rol(x, 5) >> ((k + 5) & 31)) & 1 == (x >> k) & 1
    ensures (Rol(x, 30) >> ((k + 30) & 31)) & 1 == (x >> k) & 1
  {
  }

  lemma XorBits(x: Word, y: Word, z: Word, w: Word, k: Word)
    requires k < 32
    ensures ((x ^ y ^ z ^ w) >> k) & 1 == ((x >> k) ^ (y >> k) ^ (z >> k) ^ (w >> k)) & 1
  {
  }

  // A bit of a new schedule word is the exclusive or of the bits one place lower in the four old ones.
  lemma MixBits(x: Word, y: Word, z: Word, w: Word, k: Word)
    requires k < 32
    ensures (Mix(x, y, z, w) >> ((k + 1) & 31)) & 1 == ((x >> k) ^ (y >> k) ^ (z >> k) ^ (w >> k)) & 1
  {
    hide Rol;
    RolBits(x ^ y ^ z ^ w, k);
    XorBits(x, y, z, w, k);
  }

  // The message schedule.
  ghost function W(m: Block, t: nat): Word
    decreases t
  {
    if t < 16 then Big(m, t) else Mix(W(m, t - 3), W(m, t - 8), W(m, t - 14), W(m, t - 16))
  }

  ghost function Ch(x: Word, y: Word, z: Word): Word { (x & y) ^ (!x & z) }

  ghost function Maj(x: Word, y: Word, z: Word): Word { (x & y) ^ (x & z) ^ (y & z) }

  function Parity(x: Word, y: Word, z: Word): Word { x ^ y ^ z }

  ghost function F(t: nat, x: Word, y: Word, z: Word): Word
  {
    if t < 20 then Ch(x, y, z) else if 40 <= t < 60 then Maj(x, y, z) else Parity(x, y, z)
  }

  ghost function K(t: nat): Word
  {
    if t < 20 then 0x5A827999 else if t < 40 then 0x6ED9EBA1 else if t < 60 then 0x8F1BBCDC else 0xCA62C1D6
  }

  ghost function Sum5(r: Word, f: Word, e: Word, k: Word, w: Word): Word { r + f + e + k + w }

  ghost function Step(t: nat, s: State, w: Word): State
  {
    State(Sum5(Rol(s.a, 5), F(t, s.b, s.c, s.d), s.e, K(t), w), s.a, Rol(s.b, 30), s.c, s.d)
  }

  ghost function Rounds(h: State, m: Block, t: nat): State
    decreases t
  {
    if t == 0 then h else Step(t - 1, Rounds(h, m, t - 1), W(m, t - 1))
  }

  ghost function Sum(h: State, s: State): State
  {
    State(Plus(h.a, s.a), Plus(h.b, s.b), Plus(h.c, s.c), Plus(h.d, s.d), Plus(h.e, s.e))
  }

  ghost function Compress(h: State, m: Block): State
  {
    Sum(h, Rounds(h, m, 80))
  }

  // ---------- the block function ----------

  ghost function Raw(m: Block, t: nat): Word
    requires t < 16
  {
    Little(m[4 * t], m[4 * t + 1], m[4 * t + 2], m[4 * t + 3])
  }

  function Swapped(x: Word): Word
  {
    (((x << 24) | (x >> 8)) & 0xFF00FF00) | (((x << 8) | (x >> 24)) & 0x00FF00FF)
  }

  lemma SwappedIsBig(b0: Byte, b1: Byte, b2: Byte, b3: Byte)
    ensures Swapped(Little(b0, b1, b2, b3)) == BigEndian(b0, b1, b2, b3)
  {
  }

  // Bit by bit, the code's choice and majority are the standard's.
  lemma Choice(w: Word, x: Word, y: Word)
    ensures (w & (x ^ y)) ^ y == Ch(w, x, y)
  {
  }

  lemma Majority(w: Word, x: Word, y: Word)
    ensures ((w | x) & y) | (w & x) == Maj(w, x, y)
  {
  }

  // The last step before t that wrote word j of the circular schedule.
  ghost function Writer(t: int, j: int): int { t - 1 - (t - 1 - j) % 16 }

  // Sixteen words are kept before step t: the newest of the schedule, or the raw ones.
  ghost predicate Ring(block: array<Word>, m: Block, t: nat)
    reads block
  {
    block.Length == 16
    && forall j :: 0 <= j < 16 ==>
      block[j] == if Writer(t, j) < 0 then Raw(m, j) else W(m, Writer(t, j))
  }

  ghost predicate Reached(block: array<Word>, m: Block, h: State, t: nat, s: State)
    reads block
  {
    Ring(block, m, t) && Rounds(h, m, t) == s
  }

  lemma WriterBack(i: nat)
    ensures Writer(i, (i + 13) % 16) == i - 3 && Writer(i, (i + 8) % 16) == i - 8
    ensures Writer(i, (i + 2) % 16) == i - 14 && Writer(i, i % 16) == i - 16
  {
    BackBy(i, 3);
    BackBy(i, 8);
    BackBy(i, 14);
    BackBy(i, 16);
  }

  lemma BackBy(i: nat, d: nat)
    requires 0 < d <= 16
    ensures Writer(i, (i + 16 - d) % 16) == i - d
  {
    var c := (i + 16 - d) / 16;
    assert i - 1 - (i + 16 - d) % 16 == 16 * (c - 1) + (d - 1);
    Remainder(c - 1, d - 1);
  }

  lemma Remainder(q: int, r: int)
    requires 0 <= r < 16
    ensures (16 * q + r) % 16 == r
  {
  }

  lemma WriterNext(i: nat, j: nat)
    requires j < 16
    ensures Writer(i + 1, j) == if j == i % 16 then i else Writer(i, j)
  {
    var q, r := (i - j) / 16, (i - j) % 16;
    assert i - j == 16 * q + r;
    if r == 0 {
      assert i == 16 * q + j;
      Remainder(q, j);
    } else {
      assert i - 1 - j == 16 * q + (r - 1);
      Remainder(q, r - 1);
    }
  }

  // blk0
  method Blk0(i: nat, block: array<Word>, ghost m: Block) returns (w: Word)
    requires i < 16 && Ring(block, m, i)
    modifies block
    ensures w == W(m, i) && Ring(block, m, i + 1)
  {
    hide W, Swapped, BigEndian, Little, Writer;
    BackBy(i, 16);
    forall j | 0 <= j < 16 ensures Writer(i + 1, j) == if j == i % 16 then i else Writer(i, j) { WriterNext(i, j); }
    assert i % 16 == i;
    SwappedIsBig(m[4 * i], m[4 * i + 1], m[4 * i + 2], m[4 * i + 3]);
    Written(m, i);
    block[i] := Swapped(block[i]);
    w := block[i];
  }

  lemma Written(m: Block, t: nat)
    requires t < 16
    ensures W(m, t) == Big(m, t)
  {
  }

  // blk
  method Blk(i: nat, block: array<Word>, ghost m: Block) returns (w: Word)
    requires i >= 16 && Ring(block, m, i)
    modifies block
    ensures w == W(m, i) && Ring(block, m, i + 1)
  {
    hide W, Raw, Mix, Writer;
    Scheduled(m, i);
    WriterBack(i);
    forall j | 0 <= j < 16 ensures Writer(i + 1, j) == if j == i % 16 then i else Writer(i, j) { WriterNext(i, j); }
    block[i % 16] := Mix(block[(i + 13) % 16], block[(i + 8) % 16], block[(i + 2) % 16], block[i % 16]);
    w := block[i % 16];
  }

  lemma Scheduled(m: Block, t: nat)
    requires t >= 16
    ensures W(m, t) == Mix(W(m, t - 3), W(m, t - 8), W(m, t - 14), W(m, t - 16))
  {
  }

  lemma NextRound(h: State, m: Block, t: nat)
    ensures Rounds(h, m, t + 1) == Step(t, Rounds(h, m, t), W(m, t))
  {
  }

  function Mixed(z: Word, f: Word, word: Word, k: Word, v: Word): Word
  {
    z + (f + word + k + Rol(v, 5))
  }

  lemma Reorder(z: Word, f: Word, word: Word, k: Word, v: Word)
    ensures Mixed(z, f, word, k, v) == Sum5(Rol(v, 5), f, z, k, word)
  {
    hide Rol;
  }

  // One step in the names of the code; f and k stand for the function and the constant of the round.
  lemma StepInNames(t: nat, v: Word, w: Word, x: Word, y: Word, z: Word, f: Word, k: Word, word: Word)
    requires f == F(t, w, x, y) && k == K(t)
    ensures Step(t, State(v, w, x, y, z), word) == State(Mixed(z, f, word, k, v), v, Rol(w, 30), x, y)
  {
    hide F, K, Rol, Sum5, Mixed;
    Reorder(z, f, word, k, v);
  }

  method R0(v: Word, w: Word, x: Word, y: Word, z: Word, i: nat, block: array<Word>, ghost m: Block, ghost h: State)
    returns (z': Word, w': Word)
    requires i < 16 && Reached(block, m, h, i, State(v, w, x, y, z))
    modifies block
    ensures Reached(block, m, h, i + 1, State(z', v, w', x, y))
  {
    hide Ring, W, Rounds, Rol, Ch, Maj, Parity, Step, Mixed;
    var word := Blk0(i, block, m);
    var f := (w & (x ^ y)) ^ y;
    z' := Mixed(z, f, word, 0x5A827999, v);
    w' := Rol(w, 30);
    Choice(w, x, y);
    StepInNames(i, v, w, x, y, z, f, 0x5A827999, word);
    NextRound(h, m, i);
  }

  method R1(v: Word, w: Word, x: Word, y: Word, z: Word, i: nat, block: array<Word>, ghost m: Block, ghost h: State)
    returns (z': Word, w': Word)
    requires 16 <= i < 20 && Reached(block, m, h, i, State(v, w, x, y, z))
    modifies block
    ensures Reached(block, m, h, i + 1, State(z', v, w', x, y))
  {
    hide Ring, W, Rounds, Rol, Ch, Maj, Parity, Step, Mixed;
    var word := Blk(i, block, m);
    var f := (w & (x ^ y)) ^ y;
    z' := Mixed(z, f, word, 0x5A827999, v);
    w' := Rol(w, 30);
    Choice(w, x, y);
    StepInNames(i, v, w, x, y, z, f, 0x5A827999, word);
    NextRound(h, m, i);
  }

  method R2(v: Word, w: Word, x: Word, y: Word, z: Word, i: nat, block: array<Word>, ghost m: Block, ghost h: State)
    returns (z': Word, w': Word)
    requires 20 <= i < 40 && Reached(block, m, h, i, State(v, w, x, y, z))
    modifies block
    ensures Reached(block, m, h, i + 1, State(z', v, w', x, y))
  {
    hide Ring, W, Rounds, Rol, Ch, Maj, Parity, Step, Mixed;
    var word := Blk(i, block, m);
    var f := Parity(w, x, y);
    z' := Mixed(z, f, word, 0x6ED9EBA1, v);
    w' := Rol(w, 30);
    StepInNames(i, v, w, x, y, z, f, 0x6ED9EBA1, word);
    NextRound(h, m, i);
  }

  method R3(v: Word, w: Word, x: Word, y: Word, z: Word, i: nat, block: array<Word>, ghost m: Block, ghost h: State)
    returns (z': Word, w': Word)
    requires 40 <= i < 60 && Reached(block, m, h, i, State(v, w, x, y, z))
    modifies block
    ensures Reached(block, m, h, i + 1, State(z', v, w', x, y))
  {
    hide Ring, W, Rounds, Rol, Ch, Maj, Parity, Step, Mixed;
    var word := Blk(i, block, m);
    var f := ((w | x) & y) | (w & x);
    z' := Mixed(z, f, word, 0x8F1BBCDC, v);
    w' := Rol(w, 30);
    Majority(w, x, y);
    StepInNames(i, v, w, x, y, z, f, 0x8F1BBCDC, word);
    NextRound(h, m, i);
  }

  method R4(v: Word, w: Word, x: Word, y: Word, z: Word, i: nat, block: array<Word>, ghost m: Block, ghost h: State)
    returns (z': Word, w': Word)
    requires 60 <= i < 80 && Reached(block, m, h, i, State(v, w, x, y, z))
    modifies block
    ensures Reached(block, m, h, i + 1, State(z', v, w', x, y))
  {
    hide Ring, W, Rounds, Rol, Ch, Maj, Parity, Step, Mixed;
    var word := Blk(i, block, m);
    var f := Parity(w, x, y);
    z' := Mixed(z, f, word, 0xCA62C1D6, v);
    w' := Rol(w, 30);
    StepInNames(i, v, w, x, y, z, f, 0xCA62C1D6, word);
    NextRound(h, m, i);
  }

  method Rounds0To19(a0: Word, b0: Word, c0: Word, d0: Word, e0: Word, block: array<Word>, ghost m: Block,
                       ghost h: State)
    returns (a: Word, b: Word, c: Word, d: Word, e: Word)
    requires Reached(block, m, h, 0, State(a0, b0, c0, d0, e0))
    modifies block
    ensures Reached(block, m, h, 20, State(a, b, c, d, e))
  {
    hide Reached;
    a, b, c, d, e := a0, b0, c0, d0, e0;
    e, b := R0(a, b, c, d, e, 0, block, m, h);
    d, a := R0(e, a, b, c, d, 1, block, m, h);
    c, e := R0(d, e, a, b, c, 2, block, m, h);
    b, d := R0(c, d, e, a, b, 3, block, m, h);
    a, c := R0(b, c, d, e, a, 4, block, m, h);
    e, b := R0(a, b, c, d, e, 5, block, m, h);
    d, a := R0(e, a, b, c, d, 6, block, m, h);
    c, e := R0(d, e, a, b, c, 7, block, m, h);
    b, d := R0(c, d, e, a, b, 8, block, m, h);
    a, c := R0(b, c, d, e, a, 9, block, m, h);
    e, b := R0(a, b, c, d, e, 10, block, m, h);
    d, a := R0(e, a, b, c, d, 11, block, m, h);
    c, e := R0(d, e, a, b, c, 12, block, m, h);
    b, d := R0(c, d, e, a, b, 13, block, m, h);
    a, c := R0(b, c, d, e, a, 14, block, m, h);
    e, b := R0(a, b, c, d, e, 15, block, m, h);
    d, a := R1(e, a, b, c, d, 16, block, m, h);
    c, e := R1(d, e, a, b, c, 17, block, m, h);
    b, d := R1(c, d, e, a, b, 18, block, m, h);
    a, c := R1(b, c, d, e, a, 19, block, m, h);
  }

  method Rounds20To39(a0: Word, b0: Word, c0: Word, d0: Word, e0: Word, block: array<Word>, ghost m: Block,
                       ghost h: State)
    returns (a: Word, b: Word, c: Word, d: Word, e: Word)
    requires Reached(block, m, h, 20, State(a0, b0, c0, d0, e0))
    modifies block
    ensures Reached(block, m, h, 40, State(a, b, c, d, e))
  {
    hide Reached;
    a, b, c, d, e := a0, b0, c0, d0, e0;
    e, b := R2(a, b, c, d, e, 20, block, m, h);
    d, a := R2(e, a, b, c, d, 21, block, m, h);
    c, e := R2(d, e, a, b, c, 22, block, m, h);
    b, d := R2(c, d, e, a, b, 23, block, m, h);
    a, c := R2(b, c, d, e, a, 24, block, m, h);
    e, b := R2(a, b, c, d, e, 25, block, m, h);
    d, a := R2(e, a, b, c, d, 26, block, m, h);
    c, e := R2(d, e, a, b, c, 27, block, m, h);
    b, d := R2(c, d, e, a, b, 28, block, m, h);
    a, c := R2(b, c, d, e, a, 29, block, m, h);
    e, b := R2(a, b, c, d, e, 30, block, m, h);
    d, a := R2(e, a, b, c, d, 31, block, m, h);
    c, e := R2(d, e, a, b, c, 32, block, m, h);
    b, d := R2(c, d, e, a, b, 33, block, m, h);
    a, c := R2(b, c, d, e, a, 34, block, m, h);
    e, b := R2(a, b, c, d, e, 35, block, m, h);
    d, a := R2(e, a, b, c, d, 36, block, m, h);
    c, e := R2(d, e, a, b, c, 37, block, m, h);
    b, d := R2(c, d, e, a, b, 38, block, m, h);
    a, c := R2(b, c, d, e, a, 39, block, m, h);
  }

  method Rounds40To59(a0: Word, b0: Word, c0: Word, d0: Word, e0: Word, block: array<Word>, ghost m: Block,
                       ghost h: State)
    returns (a: Word, b: Word, c: Word, d: Word, e: Word)
    requires Reached(block, m, h, 40, State(a0, b0, c0, d0, e0))
    modifies block
    ensures Reached(block, m, h, 60, State(a, b, c, d, e))
  {
    hide Reached;
    a, b, c, d, e := a0, b0, c0, d0, e0;
    e, b := R3(a, b, c, d, e, 40, block, m, h);
    d, a := R3(e, a, b, c, d, 41, block, m, h);
    c, e := R3(d, e, a, b, c, 42, block, m, h);
    b, d := R3(c, d, e, a, b, 43, block, m, h);
    a, c := R3(b, c, d, e, a, 44, block, m, h);
    e, b := R3(a, b, c, d, e, 45, block, m, h);
    d, a := R3(e, a, b, c, d, 46, block, m, h);
    c, e := R3(d, e, a, b, c, 47, block, m, h);
    b, d := R3(c, d, e, a, b, 48, block, m, h);
    a, c := R3(b, c, d, e, a, 49, block, m, h);
    e, b := R3(a, b, c, d, e, 50, block, m, h);
    d, a := R3(e, a, b, c, d, 51, block, m, h);
    c, e := R3(d, e, a, b, c, 52, block, m, h);
    b, d := R3(c, d, e, a, b, 53, block, m, h);
    a, c := R3(b, c, d, e, a, 54, block, m, h);
    e, b := R3(a, b, c, d, e, 55, block, m, h);
    d, a := R3(e, a, b, c, d, 56, block, m, h);
    c, e := R3(d, e, a, b, c, 57, block, m, h);
    b, d := R3(c, d, e, a, b, 58, block, m, h);
    a, c := R3(b, c, d, e, a, 59, block, m, h);
  }

  method Rounds60To79(a0: Word, b0: Word, c0: Word, d0: Word, e0: Word, block: array<Word>, ghost m: Block,
                       ghost h: State)
    returns (a: Word, b: Word, c: Word, d: Word, e: Word)
    requires Reached(block, m, h, 60, State(a0, b0, c0, d0, e0))
    modifies block
    ensures Reached(block, m, h, 80, State(a, b, c, d, e))
  {
    hide Reached;
    a, b, c, d, e := a0, b0, c0, d0, e0;
    e, b := R4(a, b, c, d, e, 60, block, m, h);
    d, a := R4(e, a, b, c, d, 61, block, m, h);
    c, e := R4(d, e, a, b, c, 62, block, m, h);
    b, d := R4(c, d, e, a, b, 63, block, m, h);
    a, c := R4(b, c, d, e, a, 64, block, m, h);
    e, b := R4(a, b, c, d, e, 65, block, m, h);
    d, a := R4(e, a, b, c, d, 66, block, m, h);
    c, e := R4(d, e, a, b, c, 67, block, m, h);
    b, d := R4(c, d, e, a, b, 68, block, m, h);
    a, c := R4(b, c, d, e, a, 69, block, m, h);
    e, b := R4(a, b, c, d, e, 70, block, m, h);
    d, a := R4(e, a, b, c, d, 71, block, m, h);
    c, e := R4(d, e, a, b, c, 72, block, m, h);
    b, d := R4(c, d, e, a, b, 73, block, m, h);
    a, c := R4(b, c, d, e, a, 74, block, m, h);
    e, b := R4(a, b, c, d, e, 75, block, m, h);
    d, a := R4(e, a, b, c, d, 76, block, m, h);
    c, e := R4(d, e, a, b, c, 77, block, m, h);
    b, d := R4(c, d, e, a, b, 78, block, m, h);
    a, c := R4(b, c, d, e, a, 79, block, m, h);
  }

  ghost function StateOf(state: array<Word>): State
    requires state.Length == 5
    reads state
  {
    State(state[0], state[1], state[2], state[3], state[4])
  }

  // The copy of 64 bytes into the union of bytes and words.
  method LoadWords(buffer: array<Byte>, off: nat) returns (block: array<Word>)
    requires off + 64 <= buffer.Length
    ensures fresh(block) && Ring(block, buffer[off..off + 64], 0)
  {
    block := new Word[16];
    ghost var m: Block := buffer[off..off + 64];
    for i := 0 to 16
      invariant forall j :: 0 <= j < i ==> block[j] == Raw(m, j)
    {
      var k := off + 4 * i;
      block[i] := Little(buffer[k], buffer[k + 1], buffer[k + 2], buffer[k + 3]);
    }
  }

  method AllRounds(a0: Word, b0: Word, c0: Word, d0: Word, e0: Word, buffer: array<Byte>, off: nat)
    returns (a: Word, b: Word, c: Word, d: Word, e: Word)
    requires off + 64 <= buffer.Length
    ensures State(a, b, c, d, e) == Rounds(State(a0, b0, c0, d0, e0), buffer[off..off + 64], 80)
  {
    ghost var m: Block := buffer[off..off + 64];
    ghost var h := State(a0, b0, c0, d0, e0);
    var block := LoadWords(buffer, off);
    hide Ring, W, Rounds;
    NoRounds(h, m);
    a, b, c, d, e := Rounds0To19(a0, b0, c0, d0, e0, block, m, h);
    a, b, c, d, e := Rounds20To39(a, b, c, d, e, block, m, h);
    a, b, c, d, e := Rounds40To59(a, b, c, d, e, block, m, h);
    a, b, c, d, e := Rounds60To79(a, b, c, d, e, block, m, h);
  }

  lemma NoRounds(h: State, m: Block)
    ensures Rounds(h, m, 0) == h
  {
  }

  // hash_sha1_hash
  method Hash(state: array<Word>, buffer: array<Byte>, off: nat)
    requires state.Length == 5 && off + 64 <= buffer.Length
    modifies state
    ensures StateOf(state) == Compress(old(StateOf(state)), buffer[off..off + 64])
  {
    hide Rounds, Sum;
    var a, b, c, d, e := AllRounds(state[0], state[1], state[2], state[3], state[4], buffer, off);
    AddIn(state, a, b, c, d, e);
  }

  method AddIn(state: array<Word>, a: Word, b: Word, c: Word, d: Word, e: Word)
    requires state.Length == 5
    modifies state
    ensures StateOf(state) == Sum(old(StateOf(state)), State(a, b, c, d, e))
  {
    hide Plus;
    state[0] := Plus(state[0], a);
    state[1] := Plus(state[1], b);
    state[2] := Plus(state[2], c);
    state[3] := Plus(state[3], d);
    state[4] := Plus(state[4], e);
  }

  // ---------- padding and digest ----------

  // The bytes of a word, the most significant first.
  function BigByte(w: Word, k: nat): Byte
    requires k < 4
  {
    ((if k == 0 then w >> 24 else if k == 1 then w >> 16 else if k == 2 then w >> 8 else w) & 255) as Byte
  }

  ghost function BigBytes(ws: seq<Word>): (s: seq<Byte>)
    ensures |s| == 4 * |ws|
  {
    seq(4 * |ws|, k requires 0 <= k < 4 * |ws| => BigByte(ws[k / 4], k % 4))
  }

  lemma BigRoundTrip(w: Word)
    ensures BigEndian(BigByte(w, 0), BigByte(w, 1), BigByte(w, 2), BigByte(w, 3)) == w
  {
  }

  // The words can be read back from their bytes.
  lemma BigWords(ws: seq<Word>, k: nat)
    requires k < |ws|
    ensures var s := BigBytes(ws); BigEndian(s[4 * k], s[4 * k + 1], s[4 * k + 2], s[4 * k + 3]) == ws[k]
  {
    hide BigByte, BigEndian;
    BigRoundTrip(ws[k]);
  }

  // The length of the message in bits as two words, the high one first.
  ghost function LengthBytes(bits: nat): (s: seq<Byte>)
    requires bits < TWO_64
    ensures |s| == 8
  {
    BigBytes([ToWord(bits / TWO_32), ToWord(bits % TWO_32)])
  }

  ghost function DigestBytes(s: State): seq<Byte>
  {
    BigBytes([s.a, s.b, s.c, s.d, s.e])
  }

  // The first word counts the full 2^32 bits, the second one the rest.
  lemma LengthWords(bits: nat)
    requires bits < TWO_64
    ensures var s := LengthBytes(bits);
      && BigEndian(s[0], s[1], s[2], s[3]) == ToWord(bits / TWO_32)
      && BigEndian(s[4], s[5], s[6], s[7]) == ToWord(bits % TWO_32)
  {
    hide BigBytes, BigEndian, ToWord;
    var ws := [ToWord(bits / TWO_32), ToWord(bits % TWO_32)];
    BigWords(ws, 0);
    BigWords(ws, 1);
  }

  // A digest tells the chaining value it was made from.
  lemma DigestTellsState(s: State, t: State)
    requires DigestBytes(s) == DigestBytes(t)
    ensures s == t
  {
    hide BigBytes, BigEndian;
    var x, y := [s.a, s.b, s.c, s.d, s.e], [t.a, t.b, t.c, t.d, t.e];
    forall k | 0 <= k < 5 ensures x[k] == y[k] {
      BigWords(x, k);
      BigWords(y, k);
    }
    assert x[0] == y[0] && x[1] == y[1] && x[2] == y[2] && x[3] == y[3] && x[4] == y[4];
  }

  // The hash of a message as the standard defines it.
  ghost function Digest(m: seq<Byte>): seq<Byte>
  {
    DigestBytes(Fold(Compress, START, m + Padding(|m|, LengthBytes(8 * |m| % TWO_64))))
  }

  // ---------- the context ----------

  const START := State(0x67452301, 0xEFCDAB89, 0x98BADCFE, 0x10325476, 0xC3D2E1F0)

  class Context {
    const state: array<Word>
    // The 32-bit words of the bit counter, the low one first.
    var count0: nat
    var count1: nat
    const buffer: array<Byte>

    ghost predicate Valid()
      reads this
    {
      state.Length == 5 && buffer.Length == 64 && count0 < TWO_32 && count1 < TWO_32
    }

    ghost function Kept(): (v: View<State>)
      requires Valid()
      reads this, state, buffer
      ensures Proper(v)
    {
      View(StateOf(state), buffer[..count0 / 8 % 64], count1 * TWO_32 + count0)
    }

    // hash_sha1_init
    constructor ()
      ensures Valid() && fresh(state) && fresh(buffer) && Kept() == View(START, [], 0)
    {
      count0, count1 := 0, 0;
      var s := new Word[5];
      s[0], s[1], s[2], s[3], s[4] := 0x67452301, 0xEFCDAB89, 0x98BADCFE, 0x10325476, 0xC3D2E1F0;
      state := s;
      buffer := new Byte[64];
    }

    // The counter takes in len bytes.
    method AddCount(len: nat)
      requires Valid() && len < TWO_32
      modifies this`count0, this`count1
      ensures Valid() && count0 / 8 % 64 == (old(count0) / 8 % 64 + len) % 64
      ensures count1 * TWO_32 + count0 == (old(count1) * TWO_32 + old(count0) + 8 * len) % TWO_64
    {
      CountCarry(count0, count1, len);
      LiveBytes(count0, len);
      var j := count0;
      count0 := (count0 + 8 * len % TWO_32) % TWO_32;
      if count0 < j {
        count1 := (count1 + 1) % TWO_32;
      }
      count1 := (count1 + len / 0x2000_0000) % TWO_32;
    }

    // The full blocks of data from index `from` on.
    method HashBlocks(data: array<Byte>, from: nat, len: nat) returns (i: nat)
      requires Valid() && from <= len <= data.Length
      modifies state
      ensures from <= i <= len && i + 63 >= len && Tail(data[from..len]) == data[i..len]
      ensures StateOf(state) == Fold(Compress, old(StateOf(state)), data[from..len])
    {
      hide Compress, StateOf, Fold, Tail;
      i := from;
      while i + 63 < len
        invariant from <= i <= len
        invariant Fold(Compress, old(StateOf(state)), data[from..len]) == Fold(Compress, StateOf(state), data[i..len])
        invariant Tail(data[from..len]) == Tail(data[i..len])
      {
        assert data[i..len][..64] == data[i..i + 64] && data[i..len][64..] == data[i + 64..len];
        FoldFront(Compress, StateOf(state), data[i..len]);
        TailDrop(data[i..len]);
        Hash(state, data, i);
        i := i + 64;
      }
      FoldShort(Compress, StateOf(state), data[i..len]);
    }

    // The buffer is filled and hashed, and the full blocks that follow are.
    method FillAndHash(j: nat, data: array<Byte>, len: nat) returns (i: nat)
      requires Valid() && j < 64 && len <= data.Length && data != buffer && j + len >= 64
      modifies state, buffer
      ensures var m := old(buffer[..j]) + data[..len];
        && i <= len && Tail(m) == data[i..len] && i + 63 >= len
        && StateOf(state) == Fold(Compress, old(StateOf(state)), m)
    {
      hide Compress, StateOf, Fold, Tail;
      ghost var m := buffer[..j] + data[..len];
      FoldFront(Compress, StateOf(state), m);
      TailDrop(m);
      i := 64 - j;
      Copy(buffer, j, data, 0, i);
      assert buffer[0..64] == m[..64] && m[64..] == data[i..len];
      Hash(state, buffer, 0);
      i := HashBlocks(data, i, len);
    }

    // hash_sha1_process
    method Process(data: array<Byte>, len: nat)
      requires Valid() && len <= data.Length && len < 0x8000_0000 && data != buffer
      modifies this, state, buffer
      ensures Valid() && Kept() == Absorb(Compress, old(Kept()), data[..len])
    {
      hide Compress, StateOf, Fold, Tail;
      var j := count0;
      AddCount(len);
      j := j / 8 % 64;
      ghost var m := buffer[..j] + data[..len];
      FoldFront(Compress, StateOf(state), m);
      TailLength(m);
      var i := 0;
      if j + len > 63 {
        i := FillAndHash(j, data, len);
        j := 0;
      } else {
        TailShort(m);
      }
      Copy(buffer, j, data, i, len - i);
      assert buffer[..count0 / 8 % 64] == Tail(m);
    }

    method Wipe()
      requires Valid()
      modifies this, state, buffer
      ensures Valid() && Kept() == View(State(0, 0, 0, 0, 0), [], 0) && buffer[..] == Zeros(64)
    {
      forall i | 0 <= i < 5 { state[i] := 0; }
      forall i | 0 <= i < 64 { buffer[i] := 0; }
      count0, count1 := 0, 0;
    }

    // The bit counter, most significant byte first.
    method CountBytes() returns (finalcount: array<Byte>)
      requires Valid()
      ensures fresh(finalcount) && finalcount[..] == LengthBytes(count1 * TWO_32 + count0)
    {
      hide BigBytes, ToWord;
      HighLow(count0, count1);
      finalcount := TwoWords(ToWord(count0), ToWord(count1));
    }

    static method TwoWords(low: Word, high: Word) returns (finalcount: array<Byte>)
      ensures fresh(finalcount) && finalcount[..] == BigBytes([high, low])
    {
      hide BigByte;
      finalcount := new Byte[8];
      for i := 0 to 8
        invariant forall k :: 0 <= k < i ==> finalcount[k] == BigByte([high, low][k / 4], k % 4)
      {
        finalcount[i] := BigByte(if i >= 4 then low else high, i % 4);
      }
    }

    // One bit and zeros up to 8 bytes below a block boundary.
    method Pad()
      requires Valid()
      modifies this, state, buffer
      ensures Valid() && Kept() == Absorb(Compress, old(Kept()), [0x80] + Zeros(ZeroCount(old(count0) / 8 % 64)))
    {
      hide Compress, StateOf, Fold, Absorb;
      ghost var v := Kept();
      var c := new Byte[1];
      c[0] := 0x80;
      Process(c, 1);
      ghost var n := 0;
      assert c[..1] == [0x80] + Zeros(0);
      TailGrows(v, n);
      while count0 / 8 % 64 != 56
        invariant n <= ZeroCount(|v.tail|) && Valid() && Kept() == Absorb(Compress, v, [0x80] + Zeros(n))
        invariant count0 / 8 % 64 == (|v.tail| + 1 + n) % 64
        decreases ZeroCount(|v.tail|) - n
      {
        ZeroCountMinimal(|v.tail|, n);
        c[0] := 0;
        Process(c, 1);
        assert [0x80] + Zeros(n) + c[..1] == [0x80] + Zeros(n + 1);
        AbsorbTwice(Compress, v, [0x80] + Zeros(n), c[..1]);
        n := n + 1;
        TailGrows(v, n);
      }
      ZeroCountMinimal(|v.tail|, n);
    }

    // hash_sha1_final
    method Final(digest: array<Byte>)
      requires Valid() && digest.Length == 20 && digest != buffer
      modifies digest, this, state, buffer
      ensures var v := old(Kept());
        digest[..] == DigestBytes(Absorb(Compress, v, Padding(|v.tail|, LengthBytes(v.bits))).state)
      ensures Valid() && Kept() == View(State(0, 0, 0, 0, 0), [], 0) && buffer[..] == Zeros(64)
    {
      hide Compress, StateOf, Fold, Absorb, LengthBytes;
      ghost var v := Kept();
      var finalcount := CountBytes();
      assert finalcount[..8] == finalcount[..];
      Pad();
      AbsorbTwice(Compress, v, [0x80] + Zeros(ZeroCount(|v.tail|)), finalcount[..8]);
      Process(finalcount, 8);
      assert Padding(|v.tail|, finalcount[..8]) == [0x80] + Zeros(ZeroCount(|v.tail|)) + finalcount[..8];
      Emit(digest);
      Wipe();
    }

    method Emit(digest: array<Byte>)
      requires Valid() && digest.Length == 20
      modifies digest
      ensures digest[..] == DigestBytes(StateOf(state))
    {
      hide BigByte;
      for i := 0 to 20
        invariant forall k :: 0 <= k < i ==> digest[k] == BigByte(state[k / 4], k % 4)
      {
        digest[i] := BigByte(state[i / 4], i % 4);
      }
      assert [state[0], state[1], state[2], state[3], state[4]] == state[..];
      assert digest[..] == BigBytes(state[..]);
    }
  }

  lemma TailGrows(v: View<State>, n: nat)
    ensures |Absorb(Compress, v, [0x80] + Zeros(n)).tail| == (|v.tail| + 1 + n) % 64
  {
    hide Compress, Fold, Tail;
    TailLength(v.tail + ([0x80] + Zeros(n)));
  }

  // A context that was started, fed the chunks of a message and finished has the standard's digest.
  lemma DigestOfChunks(chunks: seq<seq<Byte>>)
    ensures var v := AbsorbAll(Compress, View(START, [], 0), chunks);
      && v.bits < TWO_64
      && DigestBytes(Absorb(Compress, v, Padding(|v.tail|, LengthBytes(v.bits))).state) == Digest(Concat(chunks))
    ensures |Concat(chunks) + Padding(|Concat(chunks)|, LengthBytes(8 * |Concat(chunks)| % TWO_64))| % 64 == 0
  {
    hide Compress, Fold, Absorb, LengthBytes, Padding, DigestBytes;
    var m := Concat(chunks);
    ChunkIndependence(Compress, View(START, [], 0), chunks);
    var length := LengthBytes(8 * |m| % TWO_64);
    PaddedFold(Compress, START, m, length);
    PaddedBlocks(m, length);
  }
}
