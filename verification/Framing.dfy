/** Packets of easenet: packing a payload into a frame, and unpacking frames from a byte stream that
    arrives in pieces. */
module Framing {
  import opened Entries
  import opened Words

  type Octet = b: int | 0 <= b < 256

  const HEAD_SIZE: nat := 16
  const TAIL_SIZE: nat := 8
  const MAGIC: nat := 0x3244

  // Abort stands for a failed assert(0), Overrun for a memcpy outside its arrays.
  datatype Code = Ok | UncompletePacket | DataCorrupt | Abort | Overrun

  // ---------- the frame ----------

  // A 32-bit word in memory.
  function Bytes(x: nat): (s: seq<Octet>)
    requires x < TWO_32
    ensures |s| == 4
  {
    [x % 256, x / 256 % 256, x / 256 / 256 % 256, x / 256 / 256 / 256]
  }

  function Word(s: seq<Octet>, at: nat): (x: nat)
    requires at + 4 <= |s|
    ensures x < TWO_32
  {
    var b0: int, b1: int, b2: int, b3: int := s[at], s[at + 1], s[at + 2], s[at + 3];
    b0 + 0x100 * b1 + 0x1_0000 * b2 + 0x100_0000 * b3
  }

  lemma WordOfBytes(x: nat)
    requires x < TWO_32
    ensures Word(Bytes(x), 0) == x
  {
  }

  function Head(n: nat): (s: seq<Octet>)
    requires n < TWO_32
    ensures |s| == HEAD_SIZE
  {
    Bytes(MAGIC) + Bytes(Reverse(MAGIC)) + Bytes(n) + Bytes(Reverse(n))
  }

  // The tail repeats the magic number with its halves exchanged.
  function Tail(n: nat): (s: seq<Octet>)
    requires n < TWO_32
    ensures |s| == TAIL_SIZE
  {
    var magic := MAGIC / 0x1_0000 + MAGIC * 0x1_0000;
    Bytes(magic) + Bytes(Xor(Xor(MAGIC, n), magic))
  }

  function Frame(payload: seq<Octet>): seq<Octet>
    requires |payload| < TWO_32
  {
    Head(|payload|) + payload + Tail(|payload|)
  }

  // enet_is_head_valid
  predicate HeadOk(s: seq<Octet>)
    requires |s| >= HEAD_SIZE
  {
    Word(s, 0) == MAGIC && Word(s, 4) == Reverse(Word(s, 0)) && Word(s, 12) == Reverse(Word(s, 8))
  }

  function LengthOf(s: seq<Octet>): (n: nat)
    requires |s| >= HEAD_SIZE
    ensures n < TWO_32
  {
    Word(s, 8)
  }

  lemma WordAt(a: seq<Octet>, x: nat, b: seq<Octet>)
    requires x < TWO_32
    ensures Word(a + Bytes(x) + b, |a|) == x
  {
    hide Bytes;
    WordOfBytes(x);
    var s := a + Bytes(x) + b;
    assert s[|a|] == Bytes(x)[0] && s[|a| + 1] == Bytes(x)[1] && s[|a| + 2] == Bytes(x)[2] && s[|a| + 3] == Bytes(x)[3];
  }

  // Four words in a row.
  lemma WordsInRow(x: nat, y: nat, z: nat, w: nat, rest: seq<Octet>)
    requires x < TWO_32 && y < TWO_32 && z < TWO_32 && w < TWO_32
    ensures var s := Bytes(x) + Bytes(y) + Bytes(z) + Bytes(w) + rest;
      Word(s, 0) == x && Word(s, 4) == y && Word(s, 8) == z && Word(s, 12) == w
  {
    hide Bytes, Word;
    var a, b, c, d := Bytes(x), Bytes(y), Bytes(z), Bytes(w);
    var s := a + b + c + d + rest;
    WordAt([], x, b + c + d + rest);
    assert [] + a + (b + c + d + rest) == s;
    WordAt(a, y, c + d + rest);
    assert a + b + (c + d + rest) == s;
    WordAt(a + b, z, d + rest);
    assert a + b + c + (d + rest) == s;
    WordAt(a + b + c, w, rest);
  }

  // The head of a packed frame is accepted and tells the payload's length.
  lemma HeadRoundTrip(payload: seq<Octet>)
    requires |payload| < TWO_32
    ensures var f := Frame(payload); HeadOk(f) && LengthOf(f) == |payload|
  {
    hide Bytes, Word, Tail;
    var n := |payload|;
    WordsInRow(MAGIC, Reverse(MAGIC), n, Reverse(n), payload + Tail(n));
    assert Frame(payload) == Bytes(MAGIC) + Bytes(Reverse(MAGIC)) + Bytes(n) + Bytes(Reverse(n)) + (payload + Tail(n));
  }

  // The words of a frame: the magic number, the length, each with its complement, and a tail that starts
  // with the magic number's halves exchanged and makes the exclusive or with the first and the third
  // word 0.
  ghost predicate FrameWords(f: seq<Octet>, n: nat)
  {
    && |f| == HEAD_SIZE + n + TAIL_SIZE
    && Word(f, 0) == 0x3244 && Xor(Word(f, 0), Word(f, 4)) == 0xFFFF_FFFF
    && Word(f, 8) == n && Xor(Word(f, 8), Word(f, 12)) == 0xFFFF_FFFF
    && Word(f, 16 + n) == Word(f, 0) % 0x1_0000 * 0x1_0000 + Word(f, 0) / 0x1_0000
    && Xor(Xor(Xor(Word(f, 0), Word(f, 8)), Word(f, 16 + n)), Word(f, 20 + n)) == 0
  }

  lemma WordsOfFrame(payload: seq<Octet>)
    requires |payload| + HEAD_SIZE + TAIL_SIZE < TWO_32
    ensures FrameWords(Frame(payload), |payload|)
  {
    hide Bytes, Word, Xor, Head, Tail;
    var n := |payload|;
    HeadWords(payload);
    TailWords(payload);
    Complements(MAGIC, Reverse(MAGIC));
    Complements(n, Reverse(n));
    Pow32();
    var check := Xor(Xor(MAGIC, n), 0x3244_0000);
    XorSelf(check, 32);
    XorAgain(check);
  }

  lemma XorAgain(x: nat)
    requires x < TWO_32 && x < Pow(2, 32) && XorBits(x, x, 32) == 0
    ensures Xor(x, x) == 0
  {
  }

  lemma HeadWords(payload: seq<Octet>)
    requires |payload| < TWO_32
    ensures var f, n := Frame(payload), |payload|;
      Word(f, 0) == MAGIC && Word(f, 4) == Reverse(MAGIC) && Word(f, 8) == n && Word(f, 12) == Reverse(n)
  {
    hide Bytes, Word, Tail;
    var n := |payload|;
    WordsInRow(MAGIC, Reverse(MAGIC), n, Reverse(n), payload + Tail(n));
    assert Frame(payload) == Bytes(MAGIC) + Bytes(Reverse(MAGIC)) + Bytes(n) + Bytes(Reverse(n)) + (payload + Tail(n));
  }

  lemma TailWords(payload: seq<Octet>)
    requires |payload| < TWO_32
    ensures var f, n := Frame(payload), |payload|;
      && |f| == HEAD_SIZE + n + TAIL_SIZE
      && Word(f, 16 + n) == 0x3244_0000 && Word(f, 20 + n) == Xor(Xor(MAGIC, n), 0x3244_0000)
  {
    hide Bytes, Word, Xor, Head;
    var n, f, h := |payload|, Frame(payload), Head(|payload|);
    var magic := 0x3244_0000;
    var check := Xor(Xor(MAGIC, n), magic);
    assert Tail(n) == Bytes(magic) + Bytes(check);
    WordAt(h + payload, magic, Bytes(check));
    assert f == (h + payload) + Bytes(magic) + Bytes(check);
    WordAt(h + payload + Bytes(magic), check, []);
    assert f == (h + payload + Bytes(magic)) + Bytes(check) + [];
  }

  // A frame byte by byte.
  lemma OneByteFrame(b: Octet)
    ensures Frame([b]) == [
      0x44, 0x32, 0x00, 0x00, 0xBB, 0xCD, 0xFF, 0xFF, 0x01, 0x00, 0x00, 0x00, 0xFE, 0xFF, 0xFF, 0xFF,
      b, 0x00, 0x00, 0x44, 0x32, 0x45, 0x32, 0x44, 0x32]
  {
    hide Bytes, Xor;
    CheckOfOne();
    BytesOf();
  }

  lemma CheckOfOne()
    ensures Xor(Xor(MAGIC, 1), 0x3244_0000) == 0x3244_3245
  {
    hide XorBits;
    Pow32();
    Pow16();
    XorApart(1, 0x3244, 1, 32);
    XorSwap(1, 0x3244, 32);
    assert LowZero(0x3244_0, 4);
    assert LowZero(0x3244_00, 8);
    assert LowZero(0x3244_000, 12);
    assert LowZero(0x3244_0000, 16);
    XorApart(0x3245, 0x3244_0000, 16, 32);
    XorValue(0x3244, 1);
    XorValue(0x3245, 0x3244_0000);
  }

  lemma Pow16()
    ensures Pow(2, 16) == 0x1_0000 && Pow(2, 1) == 2
  {
    assert Pow(2, 8) == 0x100;
  }

  lemma XorValue(x: nat, y: nat)
    requires x < TWO_32 && y < TWO_32 && Pow(2, 32) == TWO_32
    ensures Xor(x, y) == XorBits(x, y, 32)
  {
  }

  lemma BytesOf()
    ensures Bytes(0x3244) == [0x44, 0x32, 0x00, 0x00] && Bytes(0xFFFF_CDBB) == [0xBB, 0xCD, 0xFF, 0xFF]
    ensures Bytes(1) == [0x01, 0x00, 0x00, 0x00] && Bytes(0xFFFF_FFFE) == [0xFE, 0xFF, 0xFF, 0xFF]
    ensures Bytes(0x3244_0000) == [0x00, 0x00, 0x44, 0x32] && Bytes(0x3244_3245) == [0x45, 0x32, 0x44, 0x32]
  {
  }

  // ---------- unpacking ----------

  datatype Outcome = Outcome(code: Code, held: seq<Octet>, out: seq<Octet>)

  // What a call makes of the bytes held back so far and of a piece of input; room is the size of the
  // output array.
  ghost function Unpacked(held: seq<Octet>, piece: seq<Octet>, room: nat): Outcome
  {
    if held == [] then FirstPiece(piece, room)
    else if |held| + |piece| <= HEAD_SIZE && |held| < HEAD_SIZE then Outcome(UncompletePacket, held + piece, [])
    else LaterPiece(held, piece, room)
  }

  ghost function FirstPiece(piece: seq<Octet>, room: nat): Outcome
  {
    if |piece| < HEAD_SIZE then Outcome(UncompletePacket, piece, [])
    else if !HeadOk(piece) then Outcome(DataCorrupt, [], [])
    else
      var n := LengthOf(piece);
      if (n + HEAD_SIZE + TAIL_SIZE) % TWO_32 > |piece| then Outcome(UncompletePacket, piece, [])
      else if room < n then Outcome(Abort, [], [])
      else if n + HEAD_SIZE + TAIL_SIZE > |piece| then Outcome(Overrun, [], [])
      // What follows the payload is held back, the tail included.
      else if |piece| - HEAD_SIZE - TAIL_SIZE > n then
        Outcome(Ok, piece[HEAD_SIZE + n..], piece[HEAD_SIZE..HEAD_SIZE + n])
      else Outcome(Ok, [], piece[HEAD_SIZE..HEAD_SIZE + n])
  }

  // The head is complete with this piece, or was before.
  ghost function LaterPiece(held: seq<Octet>, piece: seq<Octet>, room: nat): Outcome
    requires |held| >= HEAD_SIZE || |held| + |piece| > HEAD_SIZE
  {
    var all := held + piece;
    var crossing := |held| < HEAD_SIZE;
    var n := LengthOf(all);
    if |all| < (n + HEAD_SIZE + TAIL_SIZE) % TWO_32 then
      // A crossing piece is counted down by 16 bytes; the count of a shorter one wraps around.
      if crossing && |piece| < HEAD_SIZE then Outcome(Overrun, held, []) else Outcome(UncompletePacket, all, [])
    else if n > room || n + HEAD_SIZE + TAIL_SIZE > |all| then Outcome(Overrun, held, [])
    // The remainder is looked for in the input, even when it is in the buffer.
    else if |held| > HEAD_SIZE + n + TAIL_SIZE then Outcome(Overrun, held, [])
    else Outcome(Ok, all[HEAD_SIZE + n + TAIL_SIZE..], all[HEAD_SIZE..HEAD_SIZE + n])
  }

  // ---------- one piece of a frame ----------

  lemma HeadPrefix(a: seq<Octet>, f: seq<Octet>)
    requires |a| >= HEAD_SIZE && a <= f
    ensures HeadOk(a) == HeadOk(f) && LengthOf(a) == LengthOf(f)
  {
    assert forall i :: 0 <= i < HEAD_SIZE ==> a[i] == f[i];
  }

  ghost predicate Fits(payload: seq<Octet>, room: nat) 
  {
    |payload| <= room && |payload| + HEAD_SIZE + TAIL_SIZE < TWO_32
  }

  // A piece that ends a split head, is shorter than a head, and does not end the frame.
  ghost predicate Short(held: seq<Octet>, piece: seq<Octet>, f: seq<Octet>)
  {
    && 0 < |held| < HEAD_SIZE && |piece| < HEAD_SIZE
    && HEAD_SIZE < |held| + |piece| < |f|
  }

  lemma PayloadOf(payload: seq<Octet>, rest: seq<Octet>)
    requires |payload| < TWO_32
    ensures var s := Frame(payload) + rest; var n := |payload|;
      && |Frame(payload)| == HEAD_SIZE + n + TAIL_SIZE
      && s[HEAD_SIZE..HEAD_SIZE + n] == payload && s[HEAD_SIZE + n..] == Tail(n) + rest
      && s[HEAD_SIZE + n + TAIL_SIZE..] == rest
  {
    hide Head, Tail;
    var n, h, t := |payload|, Head(|payload|), Tail(|payload|);
    var s := h + payload + t + rest;
    assert s == h + (payload + t + rest) && s == (h + payload) + (t + rest) && s == (h + payload + t) + rest;
  }

  // The head and the payload of a piece that begins with a frame, or is part of one.
  lemma HeadOf(payload: seq<Octet>, rest: seq<Octet>, a: seq<Octet>)
    requires |payload| < TWO_32 && a <= Frame(payload) + rest && |a| >= HEAD_SIZE
    ensures HeadOk(a) && LengthOf(a) == |payload|
  {
    hide Frame, HeadOk, LengthOf;
    HeadRoundTrip(payload);
    PayloadOf(payload, rest);
    var f, all := Frame(payload), Frame(payload) + rest;
    assert f <= all;
    HeadPrefix(f, all);
    HeadPrefix(a, all);
  }

  lemma FirstOfFrame(payload: seq<Octet>, rest: seq<Octet>, piece: seq<Octet>, room: nat)
    requires Fits(payload, room) && piece <= Frame(payload) + rest
    requires piece == Frame(payload) + rest || |piece| < |Frame(payload)|
    ensures FirstPiece(piece, room) ==
      if |piece| < |Frame(payload)| then Outcome(UncompletePacket, piece, [])
      else Outcome(Ok, if rest == [] then [] else Tail(|payload|) + rest, payload)
  {
    hide Frame, HeadOk, LengthOf, Tail;
    PayloadOf(payload, rest);
    if |piece| >= HEAD_SIZE {
      HeadOf(payload, rest, piece);
    }
  }

  lemma LaterOfFrame(payload: seq<Octet>, rest: seq<Octet>, held: seq<Octet>, piece: seq<Octet>, room: nat)
    requires Fits(payload, room) && held + piece <= Frame(payload) + rest && |held| + |piece| >= HEAD_SIZE
    requires held + piece == Frame(payload) + rest || |held| + |piece| < |Frame(payload)|
    requires |held| <= |Frame(payload)| && held != [] && (|held| >= HEAD_SIZE || |held| + |piece| > HEAD_SIZE)
    ensures LaterPiece(held, piece, room) ==
      if |held| + |piece| >= |Frame(payload)| then Outcome(Ok, rest, payload)
      else if Short(held, piece, Frame(payload)) then Outcome(Overrun, held, [])
      else Outcome(UncompletePacket, held + piece, [])
  {
    hide Frame, HeadOk, LengthOf, Tail;
    PayloadOf(payload, rest);
    HeadOf(payload, rest, held + piece);
  }

  // A short piece fails; any other is held back, or completes the frame and leaves nothing behind.
  lemma PieceOfFrame(payload: seq<Octet>, held: seq<Octet>, piece: seq<Octet>, room: nat)
    requires Fits(payload, room) && held + piece <= Frame(payload) && |held| < |Frame(payload)|
    ensures var f, o := Frame(payload), Unpacked(held, piece, room);
      if held + piece == f then o == Outcome(Ok, [], payload)
      else if Short(held, piece, f) then o.code == Overrun
      else o == Outcome(UncompletePacket, held + piece, [])
  {
    hide Frame, FirstPiece, LaterPiece;
    assert Frame(payload) + [] == Frame(payload);
    PayloadOf(payload, []);
    if held == [] {
      assert held + piece == piece;
      FirstOfFrame(payload, [], piece, room);
    } else if |held| >= HEAD_SIZE || |held| + |piece| > HEAD_SIZE {
      LaterOfFrame(payload, [], held, piece, room);
    }
  }

  // The remainder is looked for in front of the input.
  lemma PastFrame(payload: seq<Octet>, held: seq<Octet>, piece: seq<Octet>, room: nat)
    requires Fits(payload, room) && Frame(payload) <= held && |held| > |Frame(payload)|
    ensures Unpacked(held, piece, room).code == Overrun
  {
    hide Frame, HeadOk, LengthOf, Tail;
    var rest := held[|Frame(payload)|..] + piece;
    assert held + piece == Frame(payload) + rest;
    PayloadOf(payload, rest);
    HeadOf(payload, rest, held + piece);
  }

  // Bytes behind a frame are kept as they are exactly when the frame began in an earlier piece and ends
  // with this one, or with the one before.  When it came in one piece, its tail is kept with them; when
  // more than the frame was held back, the call fails.
  lemma Coalesced(payload: seq<Octet>, rest: seq<Octet>, held: seq<Octet>, piece: seq<Octet>, room: nat)
    requires Fits(payload, room) && held + piece == Frame(payload) + rest && rest != []
    ensures var o := Unpacked(held, piece, room);
      && ((o.code == Ok && o.held == rest) <==> 0 < |held| <= |Frame(payload)|)
      && (|held| <= |Frame(payload)| ==>
            o.code == Ok && o.out == payload && o.held == if held == [] then Tail(|payload|) + rest else rest)
      && (|held| > |Frame(payload)| ==> o.code == Overrun)
  {
    hide Frame, Unpacked, FirstPiece, LaterPiece, Tail;
    PayloadOf(payload, rest);
    if held == [] {
      assert held + piece == piece;
      UnpackedFirst(piece, room);
      FirstOfFrame(payload, rest, piece, room);
      assert |Tail(|payload|) + rest| > |rest|;
    } else if |held| > |Frame(payload)| {
      assert Frame(payload) <= held + piece;
      PastFrame(payload, held, piece, room);
    } else {
      UnpackedLater(held, piece, room);
      LaterOfFrame(payload, rest, held, piece, room);
    }
  }

  lemma UnpackedFirst(piece: seq<Octet>, room: nat)
    ensures Unpacked([], piece, room) == FirstPiece(piece, room)
  {
  }

  lemma UnpackedLater(held: seq<Octet>, piece: seq<Octet>, room: nat)
    requires held != [] && (|held| >= HEAD_SIZE || |held| + |piece| > HEAD_SIZE)
    ensures Unpacked(held, piece, room) == LaterPiece(held, piece, room)
  {
  }

  // A corrupt head is noticed only when it comes in one piece, with nothing held back.
  lemma CorruptHead(held: seq<Octet>, piece: seq<Octet>, room: nat)
    ensures Unpacked(held, piece, room).code == DataCorrupt <==>
      && held == [] && |piece| >= HEAD_SIZE
      && (Word(piece, 0) != 0x3244 || Xor(Word(piece, 0), Word(piece, 4)) != 0xFFFF_FFFF
          || Xor(Word(piece, 8), Word(piece, 12)) != 0xFFFF_FFFF)
  {
    hide Word, Xor;
    if |piece| >= HEAD_SIZE {
      Complements(Word(piece, 0), Word(piece, 4));
      Complements(Word(piece, 8), Word(piece, 12));
    }
  }

  // ---------- a stream of frames ----------

  // What has been held back and handed out, until a call fails.
  datatype Stream = Stream(held: seq<Octet>, outs: seq<seq<Octet>>, ok: bool)

  ghost function Feed(s: Stream, piece: seq<Octet>, room: nat): Stream
  {
    if !s.ok then s
    else
      var o := Unpacked(s.held, piece, room);
      match o.code
      case Ok => Stream(o.held, s.outs + [o.out], true)
      case UncompletePacket => Stream(o.held, s.outs, true)
      case _ => Stream(s.held, s.outs, false)
  }

  ghost function FeedAll(s: Stream, pieces: seq<seq<Octet>>, room: nat): Stream
    decreases |pieces|
  {
    if pieces == [] then s else FeedAll(Feed(s, pieces[0], room), pieces[1..], room)
  }

  lemma {:induction false} FeedAppend(s: Stream, a: seq<seq<Octet>>, b: seq<seq<Octet>>, room: nat)
    ensures FeedAll(s, a + b, room) == FeedAll(FeedAll(s, a, room), b, room)
    decreases |a|
  {
    if a == [] {
      assert a + b == b;
    } else {
      assert (a + b)[0] == a[0] && (a + b)[1..] == a[1..] + b;
      FeedAppend(Feed(s, a[0], room), a[1..], b, room);
    }
  }

  lemma {:induction false} FeedFailed(s: Stream, pieces: seq<seq<Octet>>, room: nat)
    requires !s.ok
    ensures FeedAll(s, pieces, room) == s
    decreases |pieces|
  {
    if pieces != [] {
      FeedFailed(s, pieces[1..], room);
    }
  }

  // The pieces make up what is missing of f, and the last one is not empty.
  ghost predicate Cut(held: seq<Octet>, pieces: seq<seq<Octet>>, f: seq<Octet>)
  {
    held + Concat(pieces) == f && pieces != [] && pieces[|pieces| - 1] != []
  }

  // None of the pieces is a short one.
  ghost predicate Steady(held: seq<Octet>, pieces: seq<seq<Octet>>, f: seq<Octet>)
    decreases |pieces|
  {
    pieces != [] ==> !Short(held, pieces[0], f) && Steady(held + pieces[0], pieces[1..], f)
  }

  lemma {:induction false} CutRest(pieces: seq<seq<Octet>>)
    requires pieces != [] && pieces[|pieces| - 1] != []
    ensures Concat(pieces) != []
    decreases |pieces|
  {
    if |pieces| > 1 {
      CutRest(pieces[1..]);
    }
  }

  // A piece that is not the last one.
  lemma FeedPiece(payload: seq<Octet>, s: Stream, pieces: seq<seq<Octet>>, room: nat)
    requires Fits(payload, room) && s.ok && Cut(s.held, pieces, Frame(payload)) && |pieces| > 1
    ensures var f, piece, t := Frame(payload), pieces[0], Feed(s, pieces[0], room);
      if Short(s.held, piece, f) then t == Stream(s.held, s.outs, false)
      else t == Stream(s.held + piece, s.outs, true) && Cut(t.held, pieces[1..], f)
  {
    hide Frame, Unpacked, Short;
    var piece, rest := pieces[0], pieces[1..];
    CutRest(pieces);
    CutRest(rest);
    assert rest[|rest| - 1] == pieces[|pieces| - 1];
    assert s.held + (piece + Concat(rest)) == s.held + piece + Concat(rest);
    PieceOfFrame(payload, s.held, piece, room);
  }

  // A frame cut into pieces comes out exactly when none of them is short: the payload, once, after the
  // last piece, with nothing held back.
  lemma {:induction false} Reassembly(payload: seq<Octet>, s: Stream, pieces: seq<seq<Octet>>, room: nat)
    requires Fits(payload, room) && s.ok && Cut(s.held, pieces, Frame(payload))
    ensures var r := FeedAll(s, pieces, room);
      && (r.ok <==> Steady(s.held, pieces, Frame(payload)))
      && (r.ok ==> r == Stream([], s.outs + [payload], true))
      && (!r.ok ==> r.outs == s.outs)
    decreases |pieces|
  {
    hide Frame, Unpacked, Short;
    var f, piece, rest := Frame(payload), pieces[0], pieces[1..];
    var t := Feed(s, piece, room);
    if rest == [] {
      assert Concat(pieces) == piece;
      PieceOfFrame(payload, s.held, piece, room);
      NotShortAtEnd(s.held, piece, f);
    } else {
      FeedPiece(payload, s, pieces, room);
      if Short(s.held, piece, f) {
        FeedFailed(t, rest, room);
      } else {
        Reassembly(payload, t, rest, room);
      }
    }
  }

  lemma NotShortAtEnd(held: seq<Octet>, piece: seq<Octet>, f: seq<Octet>)
    requires held + piece == f
    ensures !Short(held, piece, f)
  {
  }

  // Nothing comes out before the last piece.
  lemma {:induction false} NothingEarly(payload: seq<Octet>, s: Stream, pieces: seq<seq<Octet>>, room: nat, k: nat)
    requires Fits(payload, room) && s.ok && Cut(s.held, pieces, Frame(payload)) && k < |pieces|
    ensures var r := FeedAll(s, pieces[..k], room);
      && r.outs == s.outs
      && (Steady(s.held, pieces, Frame(payload)) ==> r == Stream(s.held + Concat(pieces[..k]), s.outs, true))
    decreases k
  {
    hide Frame, Feed, Short;
    if k > 0 {
      var f, piece, rest := Frame(payload), pieces[0], pieces[1..];
      FeedPiece(payload, s, pieces, room);
      var t := Feed(s, piece, room);
      assert pieces[..k][0] == piece && pieces[..k][1..] == rest[..k - 1];
      assert s.held + (piece + Concat(rest[..k - 1])) == s.held + piece + Concat(rest[..k - 1]);
      if Short(s.held, piece, f) {
        FeedFailed(t, rest[..k - 1], room);
      } else {
        NothingEarly(payload, t, rest, room, k - 1);
      }
    } else {
      assert s.held + Concat(pieces[..0]) == s.held;
    }
  }

  // The frame of one byte in pieces of 10, 7 and 8 bytes: the second piece ends the head and is short.
  lemma ShortPieceFails(b: Octet, room: nat) returns (pieces: seq<seq<Octet>>)
    requires room > 0
    ensures Cut([], pieces, Frame([b])) && |pieces| == 3 && |pieces[0]| == 10 && |pieces[1]| == 7 && |pieces[2]| == 8
    ensures !Steady([], pieces, Frame([b]))
    ensures var r := FeedAll(Stream([], [], true), pieces, room); !r.ok && r.outs == []
  {
    hide Head, Tail;
    var f := Frame([b]);
    pieces := [f[..10], f[10..17], f[17..]];
    assert Concat(pieces[2..]) == f[17..] + [];
    assert pieces[1..][1..] == pieces[2..] && Concat(pieces[1..]) == f[10..17] + Concat(pieces[2..]);
    assert Concat(pieces) == f;
    assert [] + f[..10] == f[..10];
    assert Short(f[..10], pieces[1], f);
    assert pieces[1..][0] == pieces[1];
    Reassembly([b], Stream([], [], true), pieces, room);
  }

  ghost predicate AllSteady(payloads: seq<seq<Octet>>, cuts: seq<seq<seq<Octet>>>, room: nat)
    requires |payloads| == |cuts|
  {
    forall i :: 0 <= i < |cuts| ==> Fits(payloads[i], room) && Steady([], cuts[i], Frame(payloads[i]))
  }

  // A sequence of frames, each of which ends with a piece, is recovered in order exactly when no piece of
  // any of them is short.
  lemma {:induction false} StreamOfFrames(payloads: seq<seq<Octet>>, cuts: seq<seq<seq<Octet>>>, s: Stream, room: nat)
    requires |payloads| == |cuts| && s.ok && s.held == []
    requires forall i :: 0 <= i < |cuts| ==> Fits(payloads[i], room) && Cut([], cuts[i], Frame(payloads[i]))
    ensures var r := FeedAll(s, Concat(cuts), room);
      && (r == Stream([], s.outs + payloads, true) <==> AllSteady(payloads, cuts, room))
      && (r.ok <==> AllSteady(payloads, cuts, room))
    decreases |cuts|
  {
    hide Frame, Unpacked, Cut, Steady, Fits;
    if cuts == [] {
      assert s.outs + payloads == s.outs;
    } else {
      var t := FeedAll(s, cuts[0], room);
      FeedAppend(s, cuts[0], Concat(cuts[1..]), room);
      Reassembly(payloads[0], s, cuts[0], room);
      if t.ok {
        StreamOfFrames(payloads[1..], cuts[1..], t, room);
        assert s.outs + [payloads[0]] + payloads[1..] == s.outs + payloads;
        assert AllSteady(payloads, cuts, room) <==> AllSteady(payloads[1..], cuts[1..], room) by {
          assert forall i :: 0 < i < |cuts| ==> cuts[i] == cuts[1..][i - 1] && payloads[i] == payloads[1..][i - 1];
        }
      } else {
        FeedFailed(t, Concat(cuts[1..]), room);
      }
    }
  }

  // A frame in two pieces, with more bytes behind it in the second one.
  lemma TwoPieces(p: seq<Octet>, rest: seq<Octet>, room: nat)
    requires Fits(p, room) && rest != []
    ensures var f := Frame(p);
      && |f| > 20 && FeedAll(Stream([], [], true), [f[..20], f[20..] + rest], room) == Stream(rest, [p], true)
  {
    hide Frame, Unpacked, FeedAll;
    var f, s := Frame(p), Stream([], [], true);
    FrameLength(p, room);
    var a, b := f[..20], f[20..] + rest;
    assert [] + a == a && a + b == f + rest;
    PieceOfFrame(p, [], a, room);
    NotShort(a, f);
    Coalesced(p, rest, a, b, room);
    var t := Feed(s, a, room);
    assert t == Stream(a, [], true);
    assert [a] + [b] == [a, b];
    FeedAppend(s, [a], [b], room);
    FeedOne(s, a, room);
    FeedOne(t, b, room);
  }

  lemma FrameLength(p: seq<Octet>, room: nat)
    requires Fits(p, room)
    ensures |p| < TWO_32 && |Frame(p)| == HEAD_SIZE + |p| + TAIL_SIZE
  {
  }

  // Two frames and a byte in two pieces: the first frame comes out and the rest is held back.  The next
  // piece, whatever it is, makes the call fail, so the second frame is lost.
  lemma SecondFrameLost(p: seq<Octet>, q: seq<Octet>, x: Octet, next: seq<Octet>, room: nat)
    requires Fits(p, room) && Fits(q, room)
    ensures var f, g := Frame(p), Frame(q); var s := Stream([], [], true);
      && |f| > 20
      && FeedAll(s, [f[..20], f[20..] + (g + [x])], room) == Stream(g + [x], [p], true)
      && FeedAll(s, [f[..20], f[20..] + (g + [x]), next], room) == Stream(g + [x], [p], false)
  {
    hide Frame, Unpacked, FeedAll;
    var f, rest, s := Frame(p), Frame(q) + [x], Stream([], [], true);
    TwoPieces(p, rest, room);
    PastFrame(q, rest, next, room);
    var a, b := f[..20], f[20..] + rest;
    assert [a, b] + [next] == [a, b, next];
    FeedAppend(s, [a, b], [next], room);
    FeedOne(Stream(rest, [p], true), next, room);
  }

  lemma FeedOne(s: Stream, piece: seq<Octet>, room: nat)
    ensures FeedAll(s, [piece], room) == Feed(s, piece, room)
  {
    assert [piece][1..] == [];
  }

  lemma NotShort(piece: seq<Octet>, f: seq<Octet>)
    ensures !Short([], piece, f)
  {
  }

  // ---------- the calls ----------

  // memcpy, which must stay inside both arrays.
  method Move(dst: array<Octet>, at: int, src: array<Octet>, from: int, len: int) returns (ok: bool)
    requires dst != src
    modifies dst
    ensures ok <==> 0 <= at && 0 <= from && 0 <= len && at + len <= dst.Length && from + len <= src.Length
    ensures ok ==> dst[..] == old(dst[..at]) + src[from..from + len] + old(dst[at + len..])
    ensures !ok ==> dst[..] == old(dst[..])
  {
    if !(0 <= at && 0 <= from && 0 <= len && at + len <= dst.Length && from + len <= src.Length) {
      return false;
    }
    var i := 0;
    while i < len
      invariant 0 <= i <= len
      invariant forall k :: 0 <= k < dst.Length ==>
        dst[k] == if at <= k < at + i then src[from + k - at] else old(dst[k])
    {
      dst[at + i] := src[from + i];
      i := i + 1;
    }
    ok := true;
  }

  // A structure copied out of the stack.
  method Put(dst: array<Octet>, at: nat, s: seq<Octet>)
    requires at + |s| <= dst.Length
    modifies dst
    ensures dst[..] == old(dst[..at]) + s + old(dst[at + |s|..])
  {
    for i := 0 to |s|
      invariant forall k :: 0 <= k < dst.Length ==> dst[k] == if at <= k < at + i then s[k - at] else old(dst[k])
    {
      dst[at + i] := s[i];
    }
  }

  // enet_pack_data
  method Pack(input: array<Octet>, size: nat, out: array<Octet>, outSize: nat) returns (rc: Code, outSize': nat)
    requires size <= input.Length && outSize <= out.Length && input != out && size + HEAD_SIZE + TAIL_SIZE < TWO_32
    modifies out
    ensures rc == if outSize < HEAD_SIZE + size + TAIL_SIZE then Abort else Ok
    ensures rc == Ok ==> outSize' <= out.Length && out[..outSize'] == Frame(input[..size])
    ensures rc == Ok ==> FrameWords(out[..outSize'], size) && out[HEAD_SIZE..HEAD_SIZE + size] == input[..size]
  {
    hide Head, Tail, FrameWords;
    WordsOfFrame(input[..size]);
    if outSize < HEAD_SIZE + size + TAIL_SIZE {
      return Abort, outSize;
    }
    Put(out, 0, Head(size));
    var ok := Move(out, HEAD_SIZE, input, 0, size);
    Put(out, HEAD_SIZE + size, Tail(size));
    outSize' := HEAD_SIZE + TAIL_SIZE + size;
    rc := Ok;
  }

  // The result of an unsigned subtraction, and an unsigned number taken as an int.
  function Wrap(x: int): (r: nat)
    ensures r < TWO_32
  {
    x % TWO_32
  }

  function ToInt(x: nat): int
    requires x < TWO_32
  {
    if x < 0x8000_0000 then x else x - TWO_32
  }

  ghost predicate Room(input: array<Octet>, size: nat, buffer: array<Octet>, bufferSize: nat, out: array<Octet>)
  {
    && input != buffer && input != out && buffer != out
    && size <= input.Length < 0x4000_0000 && bufferSize + size <= buffer.Length < 0x4000_0000
    && out.Length < 0x4000_0000
    // A split head is completed with 16 bytes, whatever the size of the input.
    && (0 < bufferSize < HEAD_SIZE && bufferSize + size > HEAD_SIZE ==>
          HEAD_SIZE <= input.Length && bufferSize + HEAD_SIZE <= buffer.Length)
  }

  // enet_unpack_data with nothing held back.
  method UnpackFirst(input: array<Octet>, size: nat, buffer: array<Octet>, out: array<Octet>, outSize: nat)
    returns (rc: Code, bufferSize': nat, outSize': nat)
    requires Room(input, size, buffer, 0, out) && outSize == out.Length && size > 0
    modifies buffer, out
    ensures var o := FirstPiece(input[..size], out.Length);
      && rc == o.code && bufferSize' <= buffer.Length && buffer[..bufferSize'] == o.held
      && (rc == Ok ==> outSize' <= out.Length && out[..outSize'] == o.out)
      && (rc != Ok ==> outSize' == if rc == UncompletePacket && size >= HEAD_SIZE then 0 else outSize)
  {
    hide HeadOk, LengthOf;
    bufferSize', outSize' := 0, outSize;
    ghost var piece := input[..size];
    if size < HEAD_SIZE {
      bufferSize' := KeepPiece(input, size, buffer);
      return UncompletePacket, bufferSize', outSize';
    }
    var head := input[..HEAD_SIZE];
    HeadPrefix(head, piece);
    if !HeadOk(head) {
      return DataCorrupt, 0, outSize';
    }
    var length := LengthOf(head);
    if Wrap(length + HEAD_SIZE + TAIL_SIZE) <= size {
      if outSize < length {
        return Abort, 0, outSize';
      }
      NoWrap(length, size, outSize);
      Sliced(input, size, HEAD_SIZE, HEAD_SIZE + length);
      bufferSize' := TakeFrame(input, size, buffer, out, length);
      Sliced(input, size, size - bufferSize', size);
      assert piece[size - bufferSize'..] == piece[size - bufferSize'..size];
      return Ok, bufferSize', length;
    }
    bufferSize' := KeepPiece(input, size, buffer);
    return UncompletePacket, bufferSize', 0;
  }

  lemma Sliced(a: array<Octet>, n: nat, i: nat, j: nat)
    requires i <= j <= n <= a.Length
    ensures a[..n][i..j] == a[i..j]
  {
    assert forall k :: i <= k < j ==> a[..n][k] == a[k];
  }

  // The whole piece is held back.
  method KeepPiece(input: array<Octet>, size: nat, buffer: array<Octet>) returns (bufferSize': nat)
    requires input != buffer && size <= input.Length && size <= buffer.Length
    modifies buffer
    ensures bufferSize' == size && buffer[..size] == input[..size]
  {
    var ok := Move(buffer, 0, input, 0, size);
    bufferSize' := size;
  }

  // A frame that came in one piece, and what follows its payload.
  method TakeFrame(input: array<Octet>, size: nat, buffer: array<Octet>, out: array<Octet>, length: nat)
    returns (bufferSize': nat)
    requires Room(input, size, buffer, 0, out) && length <= out.Length && length + HEAD_SIZE + TAIL_SIZE <= size
    modifies buffer, out
    ensures out[..length] == input[HEAD_SIZE..HEAD_SIZE + length]
    ensures bufferSize' == (if size - HEAD_SIZE - TAIL_SIZE > length then size - HEAD_SIZE - length else 0)
    ensures bufferSize' <= buffer.Length && buffer[..bufferSize'] == input[size - bufferSize'..size]
  {
    var ok := Move(out, 0, input, HEAD_SIZE, length);
    assert out[..length] == input[HEAD_SIZE..HEAD_SIZE + length];
    bufferSize' := 0;
    if size - HEAD_SIZE - TAIL_SIZE > length {
      bufferSize' := size - HEAD_SIZE - length;
      ok := Move(buffer, 0, input, HEAD_SIZE + length, bufferSize');
      assert buffer[..bufferSize'] == input[size - bufferSize'..size];
    }
  }

  // How the bytes of all are spread over the first bs bytes of the buffer and the input from inAt on,
  // where sz is what the code takes for the number of input bytes left.
  ghost predicate Spread(all: seq<Octet>, buffer: array<Octet>, bs: nat, input: array<Octet>, inAt: nat, sz: nat)
    reads buffer, input
  {
    && HEAD_SIZE <= bs <= buffer.Length && |all| <= buffer.Length
    && (forall x :: 0 <= x < bs && x < |all| ==> buffer[x] == all[x])
    && (inAt == 0 || (inAt == HEAD_SIZE && bs < 2 * HEAD_SIZE))
    && inAt <= bs && inAt <= input.Length
    && (forall z :: 0 <= z < inAt + |all| - bs ==> z < input.Length && input[z] == all[bs - inAt + z])
    && (if bs <= |all| then sz == |all| - bs && inAt + sz <= input.Length
        else inAt == HEAD_SIZE && bs < |all| + HEAD_SIZE && sz == TWO_32 + |all| - bs)
    && |all| >= HEAD_SIZE
  }

  // The frame is not complete.
  method Append(input: array<Octet>, inAt: nat, sz: nat, buffer: array<Octet>, bs: nat, ghost all: seq<Octet>)
    returns (rc: Code, bs': nat)
    requires input != buffer && Spread(all, buffer, bs, input, inAt, sz) && buffer.Length < 0x4000_0000
    modifies buffer
    ensures rc == if bs > |all| then Overrun else UncompletePacket
    ensures rc == UncompletePacket ==> bs' == |all| && buffer[..bs'] == all
  {
    var ok := Move(buffer, bs, input, inAt, sz);
    if !ok {
      return Overrun, bs;
    }
    bs' := bs + sz;
    ghost var s := buffer[..];
    forall x | 0 <= x < bs' ensures s[x] == all[x] {
      if x >= bs {
        var z := inAt + (x - bs);
        assert s[x] == input[z] && input[z] == all[bs - inAt + z];
      } else {
        assert s[x] == old(buffer[x]);
      }
    }
    rc := UncompletePacket;
  }

  // The signed counts of a complete frame: payload bytes still in the input, and bytes behind the frame.
  lemma Counts(all: int, bs: nat, sz: nat, n: nat)
    requires 0 <= all < 0x4000_0000 && HEAD_SIZE <= bs < 0x4000_0000 && n < TWO_32
    requires sz == if bs <= all then all - bs else TWO_32 + all - bs
    ensures var j := ToInt(Wrap(n - (bs - HEAD_SIZE))); var k := ToInt(Wrap(sz - j - TAIL_SIZE));
      && (n < 0x4000_0000 || j > 0 ==> j == n - bs + HEAD_SIZE)
      && (n + HEAD_SIZE + TAIL_SIZE <= all ==> k == all - n - HEAD_SIZE - TAIL_SIZE)
  {
  }

  lemma NoWrap(n: nat, all: nat, room: nat)
    requires n < TWO_32 && Wrap(n + HEAD_SIZE + TAIL_SIZE) <= all && n <= room < 0x4000_0000
    ensures n + HEAD_SIZE + TAIL_SIZE <= all
  {
  }

  // The payload: from the buffer, and from the input as far as it is there.
  method TakePayload(input: array<Octet>, inAt: nat, buffer: array<Octet>, bs: nat, out: array<Octet>, n: nat, j: int,
                     ghost all: seq<Octet>, ghost sz: nat)
    returns (ok: bool)
    requires input != buffer && input != out && buffer != out && Spread(all, buffer, bs, input, inAt, sz)
    requires n <= out.Length ==> n + HEAD_SIZE + TAIL_SIZE <= |all| && j == n - bs + HEAD_SIZE
    requires j > 0 ==> j == n - bs + HEAD_SIZE
    modifies out
    ensures ok <==> n <= out.Length
    ensures ok ==> out[..n] == all[HEAD_SIZE..HEAD_SIZE + n]
  {
    var i := bs - HEAD_SIZE;
    if n <= out.Length {
      PayloadSpread(input, inAt, buffer, bs, n, j, all, sz);
    }
    if j > 0 {
      ok := Move(out, 0, buffer, HEAD_SIZE, i);
      if ok {
        assert out[..i] == buffer[HEAD_SIZE..bs];
        ok := Move(out, i, input, inAt, j);
        assert ok ==> out[..n] == buffer[HEAD_SIZE..bs] + input[inAt..inAt + j];
      }
    } else {
      ok := Move(out, 0, buffer, HEAD_SIZE, n);
    }
  }

  lemma PayloadSpread(input: array<Octet>, inAt: nat, buffer: array<Octet>, bs: nat, n: nat, j: int,
                      all: seq<Octet>, sz: nat)
    requires Spread(all, buffer, bs, input, inAt, sz)
    requires n + HEAD_SIZE + TAIL_SIZE <= |all| && j == n - bs + HEAD_SIZE
    ensures j > 0 ==>
      && inAt + j <= input.Length
      && buffer[HEAD_SIZE..bs] + input[inAt..inAt + j] == all[HEAD_SIZE..HEAD_SIZE + n]
    ensures j <= 0 ==> buffer[HEAD_SIZE..HEAD_SIZE + n] == all[HEAD_SIZE..HEAD_SIZE + n]
  {
    if j > 0 {
      var s := buffer[HEAD_SIZE..bs] + input[inAt..inAt + j];
      forall x | 0 <= x < n ensures s[x] == all[HEAD_SIZE + x] {
        if x < bs - HEAD_SIZE {
          assert s[x] == buffer[HEAD_SIZE + x];
        } else {
          var z := inAt + (x - (bs - HEAD_SIZE));
          assert s[x] == input[z] && input[z] == all[bs - inAt + z];
        }
      }
    }
  }

  // What follows the frame goes to the front of the buffer.
  method KeepRest(input: array<Octet>, inAt: nat, buffer: array<Octet>, bs: nat, n: nat, j: int, k: int,
                  ghost all: seq<Octet>, ghost sz: nat)
    returns (ok: bool, bs': nat)
    requires input != buffer && Spread(all, buffer, bs, input, inAt, sz)
    requires j == n - bs + HEAD_SIZE && k == |all| - n - HEAD_SIZE - TAIL_SIZE >= 0
    modifies buffer
    ensures ok <==> !(inAt == 0 && bs > HEAD_SIZE + n + TAIL_SIZE)
    ensures ok ==> bs' <= buffer.Length && buffer[..bs'] == all[HEAD_SIZE + n + TAIL_SIZE..]
  {
    ok, bs' := true, 0;
    if k > 0 {
      ok := Move(buffer, 0, input, inAt + j + TAIL_SIZE, k);
      bs' := k;
      if ok {
        ghost var s := buffer[..];
        forall x | 0 <= x < k ensures s[x] == all[HEAD_SIZE + n + TAIL_SIZE + x] {
          var z := inAt + j + TAIL_SIZE + x;
          assert s[x] == input[z] && input[z] == all[bs - inAt + z];
        }
      }
    }
  }

  // The frame is complete; n is the length its head tells.
  method Finish(input: array<Octet>, inAt: nat, sz: nat, buffer: array<Octet>, bs: nat, out: array<Octet>, n: nat,
                ghost all: seq<Octet>)
    returns (rc: Code, bs': nat)
    requires input != buffer && input != out && buffer != out && n < TWO_32
    requires Spread(all, buffer, bs, input, inAt, sz) && Wrap(n + HEAD_SIZE + TAIL_SIZE) <= |all|
    requires buffer.Length < 0x4000_0000 && input.Length < 0x4000_0000 && out.Length < 0x4000_0000
    modifies buffer, out
    ensures rc == if n > out.Length || (inAt == 0 && bs > HEAD_SIZE + n + TAIL_SIZE) then Overrun else Ok
    ensures rc == Ok ==>
      && HEAD_SIZE + n + TAIL_SIZE <= |all| && out[..n] == all[HEAD_SIZE..HEAD_SIZE + n]
      && bs' <= buffer.Length && buffer[..bs'] == all[HEAD_SIZE + n + TAIL_SIZE..]
  {
    hide Wrap, ToInt;
    Counts(|all|, bs, sz, n);
    if n <= out.Length {
      NoWrap(n, |all|, out.Length);
    }
    var j := ToInt(Wrap(n - (bs - HEAD_SIZE)));
    var k := ToInt(Wrap(sz - j - TAIL_SIZE));
    var ok := TakePayload(input, inAt, buffer, bs, out, n, j, all, sz);
    if !ok {
      return Overrun, bs;
    }
    ok, bs' := KeepRest(input, inAt, buffer, bs, n, j, k, all, sz);
    rc := if ok then Ok else Overrun;
  }

  // A head that is split is completed with 16 bytes of the input, which is counted down by as much.
  method Gather(input: array<Octet>, size: nat, buffer: array<Octet>, bufferSize: nat, out: array<Octet>)
    returns (bs: nat, inAt: nat, sz: nat)
    requires Room(input, size, buffer, bufferSize, out)
    requires bufferSize > 0 && (bufferSize >= HEAD_SIZE || bufferSize + size > HEAD_SIZE)
    modifies buffer
    ensures var all := old(buffer[..bufferSize]) + input[..size];
      && Spread(all, buffer, bs, input, inAt, sz) && (inAt == 0 <==> bufferSize >= HEAD_SIZE)
      && bs - inAt == bufferSize && Wrap(sz + bs) == |all| && buffer[..HEAD_SIZE] == all[..HEAD_SIZE]
  {
    bs, inAt, sz := bufferSize, 0, size;
    ghost var held := buffer[..bufferSize];
    ghost var all := held + input[..size];
    if bs < HEAD_SIZE {
      var ok := Move(buffer, bs, input, 0, HEAD_SIZE);
      bs := bs + HEAD_SIZE;
      inAt := HEAD_SIZE;
      sz := Wrap(sz - HEAD_SIZE);
      assert forall x :: bufferSize <= x < bs ==> buffer[..][x] == input[x - bufferSize];
      assert forall x :: 0 <= x < bufferSize ==> buffer[..][x] == held[x];
    }
  }

  // enet_unpack_data with bytes held back.
  method UnpackLater(input: array<Octet>, size: nat, buffer: array<Octet>, bufferSize: nat, out: array<Octet>,
                     outSize: nat)
    returns (rc: Code, bufferSize': nat, outSize': nat)
    requires Room(input, size, buffer, bufferSize, out) && outSize == out.Length && bufferSize > 0
    modifies buffer, out
    ensures var o := Unpacked(old(buffer[..bufferSize]), input[..size], out.Length);
      && rc == o.code
      && (rc != Overrun ==> bufferSize' <= buffer.Length && buffer[..bufferSize'] == o.held)
      && (rc == Ok ==> outSize' <= out.Length && out[..outSize'] == o.out)
      && (rc == UncompletePacket ==>
            outSize' == if bufferSize < HEAD_SIZE && bufferSize + size <= HEAD_SIZE then outSize else 0)
  {
    hide LaterPiece;
    ghost var held := buffer[..bufferSize];
    if bufferSize < HEAD_SIZE && size + bufferSize <= HEAD_SIZE {
      var ok := Move(buffer, bufferSize, input, 0, size);
      assert buffer[..bufferSize + size] == held + input[..size];
      return UncompletePacket, bufferSize + size, outSize;
    }
    rc, bufferSize', outSize' := UnpackOn(input, size, buffer, bufferSize, out);
  }

  // The same when the head is complete with this piece, or was before.
  method UnpackOn(input: array<Octet>, size: nat, buffer: array<Octet>, bufferSize: nat, out: array<Octet>)
    returns (rc: Code, bufferSize': nat, outSize': nat)
    requires Room(input, size, buffer, bufferSize, out) && bufferSize > 0
    requires bufferSize >= HEAD_SIZE || bufferSize + size > HEAD_SIZE
    modifies buffer, out
    ensures var o := LaterPiece(old(buffer[..bufferSize]), input[..size], out.Length);
      && rc == o.code
      && (rc != Overrun ==> bufferSize' <= buffer.Length && buffer[..bufferSize'] == o.held)
      && (rc == Ok ==> outSize' <= out.Length && out[..outSize'] == o.out)
      && (rc == UncompletePacket ==> outSize' == 0)
  {
    hide LengthOf, Spread;
    ghost var held := buffer[..bufferSize];
    ghost var all := held + input[..size];
    var bs, inAt, sz := Gather(input, size, buffer, bufferSize, out);
    var head := buffer[..HEAD_SIZE];
    HeadPrefix(head, all);
    var length := LengthOf(head);
    if Wrap(sz + bs) < Wrap(length + HEAD_SIZE + TAIL_SIZE) {
      rc, bufferSize' := Append(input, inAt, sz, buffer, bs, all);
      return rc, bufferSize', 0;
    }
    rc, bufferSize' := Finish(input, inAt, sz, buffer, bs, out, length, all);
    outSize' := length;
  }

  // enet_unpack_data
  method Unpack(input: array<Octet>, size: nat, buffer: array<Octet>, bufferSize: nat, out: array<Octet>, outSize: nat)
    returns (rc: Code, bufferSize': nat, outSize': nat)
    requires Room(input, size, buffer, bufferSize, out) && outSize == out.Length
    modifies buffer, out
    ensures var o := Unpacked(old(buffer[..bufferSize]), input[..size], out.Length);
      && rc == o.code
      && (rc != Overrun ==> bufferSize' <= buffer.Length && buffer[..bufferSize'] == o.held)
      && (rc == Ok ==> outSize' <= out.Length && out[..outSize'] == o.out)
  {
    hide FirstPiece, LaterPiece;
    if bufferSize == 0 && size == 0 {
      FirstEmpty(out.Length);
      return UncompletePacket, 0, outSize;
    }
    if bufferSize == 0 {
      rc, bufferSize', outSize' := UnpackFirst(input, size, buffer, out, outSize);
    } else {
      rc, bufferSize', outSize' := UnpackLater(input, size, buffer, bufferSize, out, outSize);
    }
  }

  lemma FirstEmpty(room: nat)
    ensures FirstPiece([], room) == Outcome(UncompletePacket, [], [])
  {
  }
}
