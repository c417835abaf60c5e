/** Messages cut into 64-byte blocks, and what an incremental hash keeps of the bytes it was fed. */
module Blocks {
  import opened Entries

  type Byte = bv8
  type Word = bv32

  type Block = b: seq<Byte> | |b| == 64 witness seq(64, _ => 0)

  function Rol(x: Word, n: nat): Word
    requires 0 < n < 32
  {
    (x << n) | (x >> (32 - n))
  }

  function Plus(x: Word, y: Word): Word { x + y }

  // Four bytes as a word, the least significant first.
  function Little(b0: Byte, b1: Byte, b2: Byte, b3: Byte): Word
  {
    (b0 as Word) | ((b1 as Word) << 8) | ((b2 as Word) << 16) | ((b3 as Word) << 24)
  }

  function ToWord(n: nat): Word
    requires n < TWO_32
  {
    n as Word
  }

  const TWO_64: int := 0x1_0000_0000_0000_0000

  // The chaining value after the full blocks of m.
  ghost function Fold<T>(f: (T, Block) -> T, s: T, m: seq<Byte>): T
    decreases |m|
  {
    if |m| < 64 then s else Fold(f, f(s, m[..64]), m[64..])
  }

  // The bytes behind the last full block.
  ghost function Tail(m: seq<Byte>): seq<Byte> { m[|m| / 64 * 64..] }

  lemma {:induction false} FoldAppend<T>(f: (T, Block) -> T, s: T, a: seq<Byte>, b: seq<Byte>)
    ensures Fold(f, s, a + b) == Fold(f, Fold(f, s, a), Tail(a) + b)
    ensures Tail(a + b) == Tail(Tail(a) + b)
    decreases |a|
  {
    if |a| < 64 {
      TailShort(a);
    } else {
      assert (a + b)[..64] == a[..64] && (a + b)[64..] == a[64..] + b;
      FoldAppend(f, f(s, a[..64]), a[64..], b);
      TailDrop(a);
      TailDrop(a + b);
    }
  }

  // One block at the front, or none at all.
  lemma FoldShort<T>(f: (T, Block) -> T, s: T, m: seq<Byte>)
    requires |m| < 64
    ensures Fold(f, s, m) == s && Tail(m) == m
  {
  }

  lemma FoldFront<T>(f: (T, Block) -> T, s: T, m: seq<Byte>)
    ensures |m| >= 64 ==> Fold(f, s, m) == Fold(f, f(s, m[..64]), m[64..])
    ensures |m| < 64 ==> Fold(f, s, m) == s
  {
  }

  lemma TailShort(m: seq<Byte>)
    requires |m| < 64
    ensures Tail(m) == m
  {
    assert |m| / 64 * 64 == 0;
  }

  lemma TailLength(m: seq<Byte>)
    ensures |Tail(m)| == |m| % 64
  {
  }

  lemma TailDrop(m: seq<Byte>)
    requires |m| >= 64
    ensures Tail(m) == Tail(m[64..])
  {
  }

  // What a context remembers: the chaining value, the bytes that wait for a full block, and the
  // number of bits modulo 2^64.
  datatype View<T> = View(state: T, tail: seq<Byte>, bits: nat)

  ghost function Absorb<T>(f: (T, Block) -> T, v: View<T>, data: seq<Byte>): View<T>
  {
    View(Fold(f, v.state, v.tail + data), Tail(v.tail + data), (v.bits + 8 * |data|) % TWO_64)
  }

  // Two chunks leave what their concatenation leaves.
  lemma AbsorbTwice<T>(f: (T, Block) -> T, v: View<T>, a: seq<Byte>, b: seq<Byte>)
    ensures Absorb(f, Absorb(f, v, a), b) == Absorb(f, v, a + b)
  {
    hide Fold, Tail;
    FoldAppend(f, v.state, v.tail + a, b);
    assert v.tail + a + b == v.tail + (a + b);
    ModAdd(v.bits, 8 * |a|, 8 * |b|);
  }

  lemma ModAdd(x: nat, y: nat, z: nat)
    ensures ((x + y) % TWO_64 + z) % TWO_64 == (x + (y + z)) % TWO_64
  {
  }

  ghost function AbsorbAll<T>(f: (T, Block) -> T, v: View<T>, chunks: seq<seq<Byte>>): View<T>
    decreases |chunks|
  {
    if chunks == [] then v else AbsorbAll(f, Absorb(f, v, chunks[0]), chunks[1..])
  }

  // A context is never left with a full block or more than 64 bits of count.
  ghost predicate Proper<T>(v: View<T>) { |v.tail| < 64 && v.bits < TWO_64 }

  // How a message is cut into chunks does not matter.
  lemma {:induction false} ChunkIndependence<T>(f: (T, Block) -> T, v: View<T>, chunks: seq<seq<Byte>>)
    requires Proper(v)
    ensures AbsorbAll(f, v, chunks) == Absorb(f, v, Concat(chunks))
    decreases |chunks|
  {
    if chunks == [] {
      assert v.tail + [] == v.tail;
    } else {
      ChunkIndependence(f, Absorb(f, v, chunks[0]), chunks[1..]);
      AbsorbTwice(f, v, chunks[0], Concat(chunks[1..]));
    }
  }

  // A context that started empty counts the bytes it was fed, and holds the last of them.
  lemma AbsorbFromStart<T>(f: (T, Block) -> T, s: T, m: seq<Byte>)
    ensures var v := Absorb(f, View(s, [], 0), m);
      && v.state == Fold(f, s, m) && v.tail == Tail(m) && v.bits == 8 * |m| % TWO_64
      && Proper(v) && |v.tail| == |m| % 64 && v.bits / 8 % 64 == |m| % 64
  {
    assert [] + m == m;
    CountedBytes(|m|);
  }

  lemma CountedBytes(n: nat)
    ensures 8 * n % TWO_64 / 8 % 64 == n % 64
  {
  }

  lemma ModShift(x: int, k: int)
    ensures (x + 64 * k) % 64 == x % 64
  {
    assert x + 64 * k == 64 * (x / 64 + k) + x % 64;
  }

  lemma ModOfMod(x: int, y: int)
    ensures (x % 64 + y) % 64 == (x + y) % 64
  {
    ModShift(x % 64 + y, x / 64);
  }

  ghost function Zeros(n: nat): seq<Byte> { seq(n, _ => 0) }

  // The number of zero bytes that brings n bytes and one more to 8 bytes below a block boundary.
  ghost function ZeroCount(n: nat): nat { if n % 64 < 56 then 55 - n % 64 else 119 - n % 64 }

  // It is the smallest number that does.
  lemma ZeroCountMinimal(n: nat, k: nat)
    ensures (n + 1 + ZeroCount(n)) % 64 == 56
    ensures (n + 1 + k) % 64 == 56 ==> ZeroCount(n) <= k
  {
    ModOfMod(n, 1 + ZeroCount(n));
    ModOfMod(n, 1 + k);
    var q := (n % 64 + 1 + k) / 64;
    assert n % 64 + 1 + k == 64 * q + (n % 64 + 1 + k) % 64;
  }

  // A one bit, the fewest zero bits, and the eight bytes that tell the length.
  ghost function Padding(n: nat, length: seq<Byte>): seq<Byte> { [0x80] + Zeros(ZeroCount(n)) + length }

  // A padded message is cut into full blocks.
  lemma PaddedBlocks(m: seq<Byte>, length: seq<Byte>)
    requires |length| == 8
    ensures |m + Padding(|m|, length)| % 64 == 0 && Tail(m + Padding(|m|, length)) == []
  {
    ZeroCountMinimal(|m|, 0);
    TailLength(m + Padding(|m|, length));
  }

  // Feeding a message and then its padding folds the padded message.
  lemma PaddedFold<T>(f: (T, Block) -> T, s: T, m: seq<Byte>, length: seq<Byte>)
    ensures var v := Absorb(f, View(s, [], 0), m);
      && v.bits == 8 * |m| % TWO_64 && |v.tail| == |m| % 64
      && Absorb(f, v, Padding(|v.tail|, length)).state == Fold(f, s, m + Padding(|m|, length))
  {
    hide Fold, Tail, Absorb, Padding;
    AbsorbFromStart(f, s, m);
    var p := Padding(|m|, length);
    AbsorbTwice(f, View(s, [], 0), m, p);
    AbsorbFromStart(f, s, m + p);
    PaddingMod(|m|, length);
  }

  lemma PaddingMod(n: nat, length: seq<Byte>)
    ensures Padding(n % 64, length) == Padding(n, length)
  {
    ModOfMod(n, 0);
  }

  // Adding 8 * len to a counter of two 32-bit words, the low one first.
  lemma CountCarry(low: nat, high: nat, len: nat)
    requires low < TWO_32 && high < TWO_32 && len < TWO_32
    ensures var l := (low + 8 * len % TWO_32) % TWO_32;
      && (l < low <==> l < 8 * len % TWO_32)
      && var h := (if l < low then (high + 1) % TWO_32 else high);
      (h + len / 0x2000_0000) % TWO_32 * TWO_32 + l == (high * TWO_32 + low + 8 * len) % TWO_64
  {
    var q, r := len / 0x2000_0000, 8 * len % TWO_32;
    EightTimes(len);
    WordsWrap(low, high, q, r);
  }

  lemma EightTimes(len: nat)
    ensures 8 * len == len / 0x2000_0000 * TWO_32 + 8 * len % TWO_32
  {
  }

  lemma WordsWrap(low: nat, high: nat, q: nat, r: nat)
    requires low < TWO_32 && high < TWO_32 && r < TWO_32 && q < 8
    ensures var l := (low + r) % TWO_32; var h := (if l < low then (high + 1) % TWO_32 else high);
      (l < low <==> l < r) && (h + q) % TWO_32 * TWO_32 + l == (high * TWO_32 + low + (q * TWO_32 + r)) % TWO_64
  {
    var c := if low + r >= TWO_32 then 1 else 0;
    assert (low + r) % TWO_32 == low + r - c * TWO_32;
    HighWrap(high + c + q, (low + r) % TWO_32);
  }

  lemma HighWrap(h: nat, l: nat)
    requires l < TWO_32 && h < 2 * TWO_32
    ensures h % TWO_32 * TWO_32 + l == (h * TWO_32 + l) % TWO_64
  {
    assert h % TWO_32 == if h < TWO_32 then h else h - TWO_32;
  }

  lemma HighLow(low: nat, high: nat)
    requires low < TWO_32
    ensures (high * TWO_32 + low) / TWO_32 == high && (high * TWO_32 + low) % TWO_32 == low
  {
  }

  lemma LiveBytes(low: nat, len: nat)
    requires low < TWO_32 && len < TWO_32
    ensures (low + 8 * len % TWO_32) % TWO_32 / 8 % 64 == (low / 8 % 64 + len) % 64
  {
    var q, r, u, v := len / 0x2000_0000, len % 0x2000_0000, low / 8, low % 8;
    assert 8 * len == q * TWO_32 + 8 * r && 8 * len % TWO_32 == 8 * r;
    var c := if low + 8 * r >= TWO_32 then 1 else 0;
    assert (low + 8 * r) % TWO_32 == 8 * (u + r - c * 0x2000_0000) + v;
    assert (8 * (u + r - c * 0x2000_0000) + v) / 8 == u + r - c * 0x2000_0000;
    ModShift(u + r - c * 0x2000_0000, c * 0x80_0000);
    ModShift(u + r, q * 0x80_0000);
    ModOfMod(u, len);
  }

  // lbs_memcpy
  method Copy(dst: array<Byte>, at: nat, src: array<Byte>, from: nat, len: nat)
    requires at + len <= dst.Length && from + len <= src.Length && dst != src
    modifies dst
    ensures dst[..] == old(dst[..at]) + src[from..from + len] + old(dst[at + len..])
  {
    var i := len;
    while i != 0
      invariant 0 <= i <= len
      invariant forall k :: 0 <= k < dst.Length ==>
        dst[k] == if at + i <= k < at + len then src[from + k - at] else old(dst[k])
    {
      i := i - 1;
      dst[at + i] := src[from + i];
    }
  }
}
