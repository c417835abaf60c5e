/** 2-3 trees as shapes without identities, what insertion and deletion make of them, and the
    properties those keep.  The heap methods of TwoThreeTree are proved against this module. */
module TwoThreeSpec {
  import opened Entries

  datatype Shape =
    | Empty
    | Two(k: int, v: Pointer, l: Shape, r: Shape)
    | Three(k1: int, v1: Pointer, k2: int, v2: Pointer, l: Shape, m: Shape, r: Shape)

  datatype Pos = L | M | R

  // A path upwards from a hole: which child of a 2-node or a 3-node it is, with the other
  // children a, b from left to right.
  datatype Path =
    | Top
    | At2(k: int, v: Pointer, left: bool, sib: Shape, up: Path)
    | At3(k1: int, v1: Pointer, k2: int, v2: Pointer, pos: Pos, a: Shape, b: Shape, up: Path)

  ghost function Fill(c: Path, s: Shape): Shape
    requires !c.Top?
  {
    match c
    case At2(k, v, left, sib, _) => if left then Two(k, v, s, sib) else Two(k, v, sib, s)
    case At3(k1, v1, k2, v2, pos, a, b, _) =>
      match pos
      case L => Three(k1, v1, k2, v2, s, a, b)
      case M => Three(k1, v1, k2, v2, a, s, b)
      case R => Three(k1, v1, k2, v2, a, b, s)
  }

  ghost function Plug(c: Path, s: Shape): Shape
    decreases c
  {
    if c.Top? then s else Plug(c.up, Fill(c, s))
  }

  ghost function InOrder(s: Shape): seq<Entry>
  {
    match s
    case Empty => []
    case Two(k, v, l, r) => InOrder(l) + [(k, v)] + InOrder(r)
    case Three(k1, v1, k2, v2, l, m, r) => InOrder(l) + [(k1, v1)] + InOrder(m) + [(k2, v2)] + InOrder(r)
  }

  ghost function Before(c: Path): seq<Entry>
  {
    match c
    case Top => []
    case At2(k, v, left, sib, up) => if left then Before(up) else Before(up) + (InOrder(sib) + [(k, v)])
    case At3(k1, v1, k2, v2, pos, a, b, up) =>
      match pos
      case L => Before(up)
      case M => Before(up) + (InOrder(a) + [(k1, v1)])
      case R => Before(up) + (InOrder(a) + [(k1, v1)] + InOrder(b) + [(k2, v2)])
  }

  ghost function After(c: Path): seq<Entry>
  {
    match c
    case Top => []
    case At2(k, v, left, sib, up) => if left then [(k, v)] + InOrder(sib) + After(up) else After(up)
    case At3(k1, v1, k2, v2, pos, a, b, up) =>
      match pos
      case L => ([(k1, v1)] + InOrder(a) + [(k2, v2)] + InOrder(b)) + After(up)
      case M => [(k2, v2)] + InOrder(b) + After(up)
      case R => After(up)
  }

  // All leaves lie h levels down.
  ghost predicate Balanced(s: Shape, h: int)
    decreases s
  {
    match s
    case Empty => h == 0
    case Two(_, _, l, r) => Balanced(l, h - 1) && Balanced(r, h - 1)
    case Three(_, _, _, _, l, m, r) => Balanced(l, h - 1) && Balanced(m, h - 1) && Balanced(r, h - 1)
  }

  // A tree of height h fits the hole.
  ghost predicate Fits(c: Path, h: int)
    decreases c
  {
    match c
    case Top => true
    case At2(_, _, _, sib, up) => Balanced(sib, h) && Fits(up, h + 1)
    case At3(_, _, _, _, _, a, b, up) => Balanced(a, h) && Balanced(b, h) && Fits(up, h + 1)
  }

  ghost function Depth(c: Path): nat
  {
    if c.Top? then 0 else 1 + Depth(c.up)
  }

  // ---------- facts about shapes ----------

  lemma TwoInOrder(s: Shape)
    requires s.Two?
    ensures InOrder(s) == InOrder(s.l) + [(s.k, s.v)] + InOrder(s.r)
  {
  }

  lemma ThreeInOrder(s: Shape)
    requires s.Three?
    ensures InOrder(s) == InOrder(s.l) + [(s.k1, s.v1)] + InOrder(s.m) + [(s.k2, s.v2)] + InOrder(s.r)
  {
  }

  // Regrouping of concatenations.
  lemma Group3(b: seq<Entry>, x: seq<Entry>, e: Entry, y: seq<Entry>, f: Entry, z: seq<Entry>, a: seq<Entry>)
    ensures b + (x + [e] + y + [f] + z) + a == b + x + (([e] + y + [f] + z) + a)
    ensures b + (x + [e] + y + [f] + z) + a == b + (x + [e]) + y + ([f] + z + a)
    ensures b + (x + [e] + y + [f] + z) + a == b + (x + [e] + y + [f]) + z + a
  {
  }

  // What the parent of the hole holds when the hole holds m.
  ghost function Around(c: Path, m: seq<Entry>): seq<Entry>
    requires !c.Top?
  {
    match c
    case At2(k, v, left, sib, _) =>
      if left then m + [(k, v)] + InOrder(sib) else InOrder(sib) + [(k, v)] + m
    case At3(k1, v1, k2, v2, pos, a, b, _) =>
      match pos
      case L => m + [(k1, v1)] + InOrder(a) + [(k2, v2)] + InOrder(b)
      case M => InOrder(a) + [(k1, v1)] + m + [(k2, v2)] + InOrder(b)
      case R => InOrder(a) + [(k1, v1)] + InOrder(b) + [(k2, v2)] + m
  }

  lemma AroundInOrder(c: Path, m: seq<Entry>)
    requires !c.Top?
    ensures Before(c.up) + Around(c, m) + After(c.up) == Before(c) + m + After(c)
  {
    hide InOrder;
    var B, A := Before(c.up), After(c.up);
    if c.At2? {
      if c.left {
        Group2(B, m, (c.k, c.v), InOrder(c.sib), A);
      } else {
        Group2(B, InOrder(c.sib), (c.k, c.v), m, A);
      }
    } else {
      var e, f, a, b := (c.k1, c.v1), (c.k2, c.v2), InOrder(c.a), InOrder(c.b);
      match c.pos
      case L => Group3(B, m, e, a, f, b, A);
      case M => Group3(B, a, e, m, f, b, A);
      case R => Group3(B, a, e, b, f, m, A);
    }
  }

  lemma FillInOrder(c: Path, s: Shape)
    requires !c.Top?
    ensures InOrder(Fill(c, s)) == Around(c, InOrder(s))
  {
    hide InOrder;
    if c.At2? { TwoInOrder(Fill(c, s)); } else { ThreeInOrder(Fill(c, s)); }
  }

  lemma {:induction false} PlugInOrder(c: Path, s: Shape)
    ensures InOrder(Plug(c, s)) == Before(c) + InOrder(s) + After(c)
    decreases c
  {
    if !c.Top? {
      FillInOrder(c, s);
      AroundInOrder(c, InOrder(s));
      PlugInOrder(c.up, Fill(c, s));
    }
  }

  lemma {:induction false} PlugBalanced(c: Path, s: Shape, h: int)
    requires Balanced(s, h) && Fits(c, h)
    ensures Balanced(Plug(c, s), h + Depth(c))
    decreases c
  {
    if !c.Top? {
      PlugBalanced(c.up, Fill(c, s), h + 1);
    }
  }

  lemma {:induction false} UnplugBalanced(c: Path, s: Shape, H: int)
    requires Balanced(Plug(c, s), H)
    ensures Balanced(s, H - Depth(c)) && Fits(c, H - Depth(c))
    decreases c
  {
    if !c.Top? {
      UnplugBalanced(c.up, Fill(c, s), H);
    }
  }

  lemma {:induction false} BalancedHeight(s: Shape, h: int)
    requires Balanced(s, h)
    ensures h >= 0 && (h == 0 <==> s.Empty?)
    decreases s
  {
    if !s.Empty? {
      BalancedHeight(s.l, h - 1);
    }
  }

  // ---------- insertion ----------

  // The hole's tree has split into a and b around the entry (k, v).
  ghost function InsertUp(c: Path, a: Shape, k: int, v: Pointer, b: Shape): Shape
    decreases c
  {
    match c
    case Top => Two(k, v, a, b)
    case At2(ck, cv, left, sib, up) =>
      Plug(up, if left then Three(k, v, ck, cv, a, b, sib) else Three(ck, cv, k, v, sib, a, b))
    case At3(k1, v1, k2, v2, pos, x, y, up) =>
      match pos
      case L => InsertUp(up, Two(k, v, a, b), k1, v1, Two(k2, v2, x, y))
      case M => InsertUp(up, Two(k1, v1, x, a), k, v, Two(k2, v2, b, y))
      case R => InsertUp(up, Two(k1, v1, x, y), k2, v2, Two(k, v, a, b))
  }

  // Every node above the hole is a 3-node.
  ghost predicate Full(c: Path)
    decreases c
  {
    !c.Top? ==> c.At3? && Full(c.up)
  }

  lemma {:induction false} InsertUpBalanced(c: Path, a: Shape, k: int, v: Pointer, b: Shape, h: int)
    requires Balanced(a, h) && Balanced(b, h) && Fits(c, h)
    ensures Balanced(InsertUp(c, a, k, v, b), h + Depth(c) + if Full(c) then 1 else 0)
    decreases c
  {
    match c
    case Top =>
    case At2(ck, cv, left, sib, up) =>
      PlugBalanced(up, if left then Three(k, v, ck, cv, a, b, sib) else Three(ck, cv, k, v, sib, a, b), h + 1);
    case At3(k1, v1, k2, v2, pos, x, y, up) =>
      match pos
      case L => InsertUpBalanced(up, Two(k, v, a, b), k1, v1, Two(k2, v2, x, y), h + 1);
      case M => InsertUpBalanced(up, Two(k1, v1, x, a), k, v, Two(k2, v2, b, y), h + 1);
      case R => InsertUpBalanced(up, Two(k1, v1, x, y), k2, v2, Two(k, v, a, b), h + 1);
  }

  // Regrouping of five pieces around four entries, and of four around three.
  lemma Group4(x: seq<Entry>, e: Entry, y: seq<Entry>, f: Entry, z: seq<Entry>, g: Entry, w: seq<Entry>)
    ensures (x + [e] + y) + [f] + (z + [g] + w) == (x + [e] + y) + [f] + z + [g] + w
    ensures (x + [e] + y) + [f] + (z + [g] + w) == x + [e] + (y + [f] + z) + [g] + w
    ensures (x + [e] + y) + [f] + (z + [g] + w) == x + [e] + y + [f] + (z + [g] + w)
    ensures (x + [e] + y) + [f] + (z + [g] + w) == (x + [e] + y + [f] + z) + [g] + w
    ensures (x + [e] + y) + [f] + (z + [g] + w) == x + [e] + (y + [f] + z + [g] + w)
  {
  }

  lemma InsertUpInOrderStep(c: Path, a: Shape, k: int, v: Pointer, b: Shape)
    requires c.At3?
    ensures var e, f, g := (c.k1, c.v1), (c.k2, c.v2), (k, v);
      var x, y, s, t := InOrder(c.a), InOrder(c.b), InOrder(a), InOrder(b);
      Around(c, s + [g] + t) ==
      match c.pos
      case L => (s + [g] + t) + [e] + (x + [f] + y)
      case M => (x + [e] + s) + [g] + (t + [f] + y)
      case R => (x + [e] + y) + [f] + (s + [g] + t)
  {
    hide InOrder;
    var e, f, g := (c.k1, c.v1), (c.k2, c.v2), (k, v);
    var x, y, s, t := InOrder(c.a), InOrder(c.b), InOrder(a), InOrder(b);
    match c.pos
    case L => Group4(s, g, t, e, x, f, y);
    case M => Group4(x, e, s, g, t, f, y);
    case R => Group4(x, e, y, f, s, g, t);
  }

  lemma {:induction false} InsertUpInOrder(c: Path, a: Shape, k: int, v: Pointer, b: Shape)
    ensures InOrder(InsertUp(c, a, k, v, b)) == Before(c) + (InOrder(a) + [(k, v)] + InOrder(b)) + After(c)
    decreases c
  {
    hide InOrder, Before, After, Around, Plug;
    var m := InOrder(a) + [(k, v)] + InOrder(b);
    TwoInOrder(Two(k, v, a, b));
    match c
    case Top => EdgesTop(m);
    case At2(ck, cv, left, sib, up) =>
      AroundInOrder(c, m);
      Absorb2InOrder(c, a, k, v, b);
      PlugInOrder(up, if left then Three(k, v, ck, cv, a, b, sib) else Three(ck, cv, k, v, sib, a, b));
    case At3(k1, v1, k2, v2, pos, x, y, up) =>
      AroundInOrder(c, m);
      InsertUpInOrderStep(c, a, k, v, b);
      match pos
      case L =>
        TwoInOrder(Two(k2, v2, x, y));
        InsertUpInOrder(up, Two(k, v, a, b), k1, v1, Two(k2, v2, x, y));
      case M =>
        TwoInOrder(Two(k1, v1, x, a));
        TwoInOrder(Two(k2, v2, b, y));
        InsertUpInOrder(up, Two(k1, v1, x, a), k, v, Two(k2, v2, b, y));
      case R =>
        TwoInOrder(Two(k1, v1, x, y));
        InsertUpInOrder(up, Two(k1, v1, x, y), k2, v2, Two(k, v, a, b));
  }

  lemma EdgesTop(m: seq<Entry>)
    ensures Before(Top) + m + After(Top) == m
  {
  }

  lemma Absorb2InOrder(c: Path, a: Shape, k: int, v: Pointer, b: Shape)
    requires c.At2?
    ensures InOrder(if c.left then Three(k, v, c.k, c.v, a, b, c.sib) else Three(c.k, c.v, k, v, c.sib, a, b))
         == Around(c, InOrder(a) + [(k, v)] + InOrder(b))
  {
    hide InOrder;
    ThreeInOrder(if c.left then Three(k, v, c.k, c.v, a, b, c.sib) else Three(c.k, c.v, k, v, c.sib, a, b));
    var s := InOrder(c.sib);
    if !c.left {
      assert s + [(c.k, c.v)] + (InOrder(a) + [(k, v)] + InOrder(b)) ==
             s + [(c.k, c.v)] + InOrder(a) + [(k, v)] + InOrder(b);
    }
  }

  // ---------- deletion ----------

  // A brother of the hole is a 3-node the code borrows from.
  ghost predicate Lends(c: Path)
  {
    match c
    case Top => false
    case At2(_, _, _, sib, _) => sib.Three?
    case At3(_, _, _, _, pos, a, b, _) => if pos == L then a.Three? else b.Three?
  }

  // The parent's subtree after a loan; x is what was left in the hole.
  ghost function Borrow(c: Path, x: Shape): Shape
    requires Lends(c)
  {
    match c
    case At2(k, v, left, s, _) =>
      if left then Two(s.k1, s.v1, Two(k, v, x, s.l), Two(s.k2, s.v2, s.m, s.r))
      else Two(s.k2, s.v2, Two(s.k1, s.v1, s.l, s.m), Two(k, v, s.r, x))
    case At3(k1, v1, k2, v2, pos, a, b, _) =>
      match pos
      case L => Three(a.k1, a.v1, k2, v2, Two(k1, v1, x, a.l), Two(a.k2, a.v2, a.m, a.r), b)
      case M => Three(k1, v1, b.k1, b.v1, a, Two(k2, v2, x, b.l), Two(b.k2, b.v2, b.m, b.r))
      case R => Three(k1, v1, b.k2, b.v2, a, Two(b.k1, b.v1, b.l, b.m), Two(k2, v2, b.r, x))
  }

  // The brother that takes the parent's key is a 2-node.
  ghost predicate Mergeable(c: Path)
  {
    match c
    case Top => false
    case At2(_, _, _, sib, _) => sib.Two?
    case At3(_, _, _, _, pos, a, b, _) => if pos == L then a.Two? else b.Two?
  }

  // A 3-node parent gives one key to a merged 3-node and stays as a 2-node.
  ghost function Shrink(c: Path, x: Shape): Shape
    requires c.At3? && Mergeable(c)
  {
    var a, b := c.a, c.b;
    match c.pos
    case L => Two(c.k2, c.v2, Three(c.k1, c.v1, a.k, a.v, x, a.l, a.r), b)
    case M => Two(c.k1, c.v1, a, Three(c.k2, c.v2, b.k, b.v, x, b.l, b.r))
    case R => Two(c.k1, c.v1, a, Three(b.k, b.v, c.k2, c.v2, b.l, b.r, x))
  }

  // A 2-node parent gives up its only key and is the next hole, over the merged 3-node.
  ghost function Merge(c: Path, x: Shape): Shape
    requires c.At2? && Mergeable(c)
  {
    var s := c.sib;
    if c.left then Three(c.k, c.v, s.k, s.v, x, s.l, s.r) else Three(s.k, s.v, c.k, c.v, s.l, s.r, x)
  }

  // The hole's node lost its last key and has the single subtree x.
  ghost function DeleteUp(c: Path, x: Shape): Shape
    decreases c
  {
    if Lends(c) then Plug(c.up, Borrow(c, x))
    else if !Mergeable(c) then x
    else if c.At3? then Plug(c.up, Shrink(c, x))
    else DeleteUp(c.up, Merge(c, x))
  }

  // Every node above the hole is a 2-node next to a 2-node.
  ghost predicate Thin(c: Path)
    decreases c
  {
    !c.Top? ==> c.At2? && c.sib.Two? && Thin(c.up)
  }

  lemma FitsBrothers(c: Path, h: int)
    requires Fits(c, h + 1) && h >= 0 && !c.Top?
    ensures c.At2? ==> !c.sib.Empty?
    ensures c.At3? ==> !c.a.Empty? && !c.b.Empty?
    ensures Lends(c) || Mergeable(c)
  {
    if c.At2? {
      BalancedHeight(c.sib, h + 1);
    } else {
      BalancedHeight(c.a, h + 1);
      BalancedHeight(c.b, h + 1);
    }
  }

  lemma MergeBalanced(c: Path, x: Shape, h: int)
    requires Balanced(x, h) && Fits(c, h + 1) && c.At2? && Mergeable(c)
    ensures Balanced(Merge(c, x), h + 1)
  {
  }

  lemma {:induction false} DeleteUpBalanced(c: Path, x: Shape, h: int)
    requires Balanced(x, h) && Fits(c, h + 1)
    ensures Balanced(DeleteUp(c, x), h + 1 + Depth(c) - if Thin(c) then 1 else 0)
    decreases c
  {
    BalancedHeight(x, h);
    if !c.Top? {
      FitsBrothers(c, h);
      if Lends(c) {
        PlugBalanced(c.up, Borrow(c, x), h + 2);
      } else if c.At3? {
        PlugBalanced(c.up, Shrink(c, x), h + 2);
      } else {
        DeleteUpBalanced(c.up, Merge(c, x), h + 1);
      }
    }
  }

  // No entry around the hole is lost, added or moved.
  lemma BorrowInOrder(c: Path, x: Shape)
    requires Lends(c)
    ensures InOrder(Borrow(c, x)) == Around(c, InOrder(x))
  {
    hide InOrder;
    var m := InOrder(x);
    var t := Borrow(c, x);
    if c.At2? {
      var s := c.sib;
      TwoInOrder(t);
      TwoInOrder(t.l);
      TwoInOrder(t.r);
      ThreeInOrder(s);
      var p, q, u := InOrder(s.l), InOrder(s.m), InOrder(s.r);
      if c.left {
        Group4(m, (c.k, c.v), p, (s.k1, s.v1), q, (s.k2, s.v2), u);
      } else {
        Group4(p, (s.k1, s.v1), q, (s.k2, s.v2), u, (c.k, c.v), m);
      }
    } else {
      BorrowInOrder3(c, x);
    }
  }

  lemma BorrowInOrder3(c: Path, x: Shape)
    requires Lends(c) && c.At3?
    ensures InOrder(Borrow(c, x)) == Around(c, InOrder(x))
  {
    hide InOrder;
    var m, A, B := InOrder(x), InOrder(c.a), InOrder(c.b);
    var t := Borrow(c, x);
    var e, f := (c.k1, c.v1), (c.k2, c.v2);
    ThreeInOrder(t);
    match c.pos
    case L =>
      ThreeInOrder(c.a);
      TwoInOrder(t.l);
      TwoInOrder(t.m);
      Group4(m, e, InOrder(c.a.l), (c.a.k1, c.a.v1), InOrder(c.a.m), (c.a.k2, c.a.v2), InOrder(c.a.r));
    case M =>
      ThreeInOrder(c.b);
      TwoInOrder(t.m);
      TwoInOrder(t.r);
      var s := c.b;
      Group4(m, f, InOrder(s.l), (s.k1, s.v1), InOrder(s.m), (s.k2, s.v2), InOrder(s.r));
      Shift(A, e, (m + [f] + InOrder(s.l)), (s.k1, s.v1), InOrder(t.r));
      Shift(A, e, m, f, B);
    case R =>
      ThreeInOrder(c.b);
      TwoInOrder(t.m);
      TwoInOrder(t.r);
      var s := c.b;
      Group4(InOrder(s.l), (s.k1, s.v1), InOrder(s.m), (s.k2, s.v2), InOrder(s.r), f, m);
      Shift(A, e, InOrder(t.m), (s.k2, s.v2), InOrder(t.r));
      Shift(A, e, B, f, m);
  }

  lemma Shift(a: seq<Entry>, e: Entry, x: seq<Entry>, f: Entry, y: seq<Entry>)
    ensures a + [e] + x + [f] + y == a + [e] + (x + [f] + y)
  {
  }

  lemma ShrinkInOrder(c: Path, x: Shape)
    requires c.At3? && Mergeable(c)
    ensures InOrder(Shrink(c, x)) == Around(c, InOrder(x))
  {
    hide InOrder;
    var m, A, B := InOrder(x), InOrder(c.a), InOrder(c.b);
    var t := Shrink(c, x);
    var e, f := (c.k1, c.v1), (c.k2, c.v2);
    TwoInOrder(t);
    match c.pos
    case L =>
      ThreeInOrder(t.l);
      TwoInOrder(c.a);
      Shift(m, e, InOrder(c.a.l), (c.a.k, c.a.v), InOrder(c.a.r));
    case M =>
      ThreeInOrder(t.r);
      TwoInOrder(c.b);
      Shift(A, e, m, f, B);
      Shift(m, f, InOrder(c.b.l), (c.b.k, c.b.v), InOrder(c.b.r));
    case R =>
      ThreeInOrder(t.r);
      TwoInOrder(c.b);
      Shift(A, e, B, f, m);
  }

  lemma MergeInOrder(c: Path, x: Shape)
    requires c.At2? && Mergeable(c)
    ensures InOrder(Merge(c, x)) == Around(c, InOrder(x))
  {
    hide InOrder;
    var s := c.sib;
    ThreeInOrder(Merge(c, x));
    TwoInOrder(s);
    if c.left {
      Shift(InOrder(x), (c.k, c.v), InOrder(s.l), (s.k, s.v), InOrder(s.r));
    }
  }

  lemma {:induction false} DeleteUpInOrder(c: Path, x: Shape, h: int)
    requires Balanced(x, h) && Fits(c, h + 1)
    ensures InOrder(DeleteUp(c, x)) == Before(c) + InOrder(x) + After(c)
    decreases c
  {
    hide InOrder, Before, After, Around, Plug, Borrow, Shrink, Merge;
    BalancedHeight(x, h);
    if c.Top? {
      EdgesTop(InOrder(x));
    } else {
      FitsBrothers(c, h);
      AroundInOrder(c, InOrder(x));
      if Lends(c) {
        BorrowInOrder(c, x);
        PlugInOrder(c.up, Borrow(c, x));
      } else if c.At3? {
        ShrinkInOrder(c, x);
        PlugInOrder(c.up, Shrink(c, x));
      } else {
        MergeInOrder(c, x);
        MergeBalanced(c, x, h);
        DeleteUpInOrder(c.up, Merge(c, x), h + 1);
      }
    }
  }
}
