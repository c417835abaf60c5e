/** Searching, inserting into and deleting from whole 2-3 trees. */
module TwoThreeTheorems {
  import opened Entries
  import opened TwoThreeSpec

  // The key value that marks a missing right key, an unsigned long of 32 bits.
  const INVALID_KEY := 0xFFFF_FFFF

  ghost predicate KeysOk(s: seq<Entry>) { forall e <- s :: 0 <= e.0 < INVALID_KEY }

  ghost predicate WellFormed(s: Shape, h: int)
  {
    Balanced(s, h) && Sorted(InOrder(s)) && KeysOk(InOrder(s))
  }

  datatype Place = Place(c: Path, s: Shape)

  ghost predicate HasKey(s: Shape, key: int)
  {
    match s
    case Empty => false
    case Two(k, _, _, _) => k == key
    case Three(k1, _, k2, _, _, _, _) => k1 == key || k2 == key
  }

  // The child the search goes on with, and the path to it.
  ghost function Below(c: Path, s: Shape, key: int): Place
    requires !s.Empty?
  {
    match s
    case Two(k, v, l, r) =>
      if k > key then Place(At2(k, v, true, r, c), l) else Place(At2(k, v, false, l, c), r)
    case Three(k1, v1, k2, v2, l, m, r) =>
      if k1 > key then Place(At3(k1, v1, k2, v2, L, m, r, c), l)
      else if k2 < key then Place(At3(k1, v1, k2, v2, R, l, m, c), r)
      else Place(At3(k1, v1, k2, v2, M, l, r, c), m)
  }

  // Where a search ends: at the node with the key, or at the empty place where it belongs.
  ghost function Seek(c: Path, s: Shape, key: int): Place
    decreases s
  {
    if s.Empty? || HasKey(s, key) then Place(c, s)
    else var p := Below(c, s, key); Seek(p.c, p.s, key)
  }

  // search_node_or_parent: the node with the key, or the leaf below which it belongs.
  ghost function Probe(c: Path, s: Shape, key: int): Place
    requires !s.Empty?
    decreases s
  {
    if HasKey(s, key) || s.l.Empty? || Below(c, s, key).s.Empty? then Place(c, s)
    else var p := Below(c, s, key); Probe(p.c, p.s, key)
  }

  // The data of a key the node holds.
  ghost function DataOf(s: Shape, key: int): Pointer
    requires HasKey(s, key)
  {
    if s.Two? then s.v else if s.k1 == key then s.v1 else s.v2
  }

  lemma BelowFill(c: Path, s: Shape, key: int)
    requires !s.Empty?
    ensures var p := Below(c, s, key); !p.c.Top? && p.c.up == c && Fill(p.c, p.s) == s
  {
  }

  lemma {:induction false} SeekPlace(c: Path, s: Shape, key: int)
    ensures var p := Seek(c, s, key);
      && Plug(p.c, p.s) == Plug(c, s)
      && (p.s.Empty? || HasKey(p.s, key))
    decreases s
  {
    if !s.Empty? && !HasKey(s, key) {
      var p := Below(c, s, key);
      BelowFill(c, s, key);
      SeekPlace(p.c, p.s, key);
    }
  }

  // Both halves of a sorted concatenation are sorted, and lie on their sides of the middle.
  lemma SortedParts(a: seq<Entry>, e: Entry, b: seq<Entry>)
    requires Sorted(a + [e] + b)
    ensures Sorted(a) && Sorted(b) && AllBelow(a, e.0) && AllAbove(e.0, b)
  {
    SortedCut(a, e, b);
    var s := a + b;
    assert a == s[..|a|] && b == s[|a|..];
  }

  lemma SortedMiddle(a: seq<Entry>, m: seq<Entry>, b: seq<Entry>)
    requires Sorted(a + m + b)
    ensures Sorted(m)
  {
    assert m == (a + m + b)[|a|..|a| + |m|];
  }

  lemma BelowSorted(c: Path, s: Shape, key: int)
    requires !s.Empty? && !HasKey(s, key) && Sorted(InOrder(s))
    requires AllBelow(Before(c), key) && AllAbove(key, After(c))
    ensures var p := Below(c, s, key);
      Sorted(InOrder(p.s)) && AllBelow(Before(p.c), key) && AllAbove(key, After(p.c))
  {
    hide InOrder, Sorted;
    if s.Two? {
      TwoInOrder(s);
      SortedParts(InOrder(s.l), (s.k, s.v), InOrder(s.r));
    } else {
      var x, e, y, f, z := InOrder(s.l), (s.k1, s.v1), InOrder(s.m), (s.k2, s.v2), InOrder(s.r);
      ThreeInOrder(s);
      Shift(x, e, y, f, z);
      SortedParts(x, e, y + [f] + z);
      SortedParts(y, f, z);
      assert f in y + [f] + z;
      assert forall i <- y :: i in y + [f] + z;
      assert forall i <- z :: i in y + [f] + z;
    }
  }

  lemma {:induction false} SeekBetween(c: Path, s: Shape, key: int)
    requires Sorted(InOrder(s)) && AllBelow(Before(c), key) && AllAbove(key, After(c))
    ensures var p := Seek(c, s, key);
      AllBelow(Before(p.c), key) && AllAbove(key, After(p.c))
    decreases s
  {
    hide InOrder, Sorted, AllBelow, AllAbove, Before, After;
    if !s.Empty? && !HasKey(s, key) {
      BelowSorted(c, s, key);
      var p := Below(c, s, key);
      SeekBetween(p.c, p.s, key);
    }
  }

  // The entries of a tree around one key of the node at place (c, s).
  ghost function LeftOf(c: Path, s: Shape, key: int): seq<Entry>
    requires HasKey(s, key)
  {
    if s.Two? || s.k1 == key then Before(c) + InOrder(s.l)
    else Before(c) + (InOrder(s.l) + [(s.k1, s.v1)] + InOrder(s.m))
  }

  ghost function RightOf(c: Path, s: Shape, key: int): seq<Entry>
    requires HasKey(s, key)
  {
    if s.Three? && s.k1 == key then (InOrder(s.m) + [(s.k2, s.v2)] + InOrder(s.r)) + After(c)
    else InOrder(s.r) + After(c)
  }

  lemma PlaceInOrder(c: Path, s: Shape, key: int)
    requires HasKey(s, key)
    ensures InOrder(Plug(c, s)) == LeftOf(c, s, key) + [(key, DataOf(s, key))] + RightOf(c, s, key)
  {
    hide InOrder, Before, After, Plug;
    PlugInOrder(c, s);
    var B, A := Before(c), After(c);
    if s.Two? {
      TwoInOrder(s);
      Group1(B, InOrder(s.l), (s.k, s.v), InOrder(s.r), A);
    } else {
      var x, e, y, f, z := InOrder(s.l), (s.k1, s.v1), InOrder(s.m), (s.k2, s.v2), InOrder(s.r);
      ThreeInOrder(s);
      Shift(x, e, y, f, z);
      if s.k1 == key {
        Group1(B, x, e, y + [f] + z, A);
      } else {
        assert x + [e] + y + [f] + z == (x + [e] + y) + [f] + z;
        Group1(B, x + [e] + y, f, z, A);
      }
    }
  }

  lemma Group1(b: seq<Entry>, x: seq<Entry>, e: Entry, y: seq<Entry>, a: seq<Entry>)
    ensures b + (x + [e] + y) + a == (b + x) + [e] + (y + a)
  {
  }

  // A search ends at a node exactly when the key is bound, and that node holds its data.
  lemma SeekFinds(s: Shape, key: int)
    requires Sorted(InOrder(s))
    ensures var p := Seek(Top, s, key);
      && Plug(p.c, p.s) == s
      && (p.s.Empty? <==> key !in ToMap(InOrder(s)))
      && (!p.s.Empty? ==> HasKey(p.s, key) && DataOf(p.s, key) == ToMap(InOrder(s))[key])
  {
    hide LeftOf, RightOf;
    var p := Seek(Top, s, key);
    SeekPlace(Top, s, key);
    if p.s.Empty? {
      SeekBetween(Top, s, key);
      PlugInOrder(p.c, p.s);
    } else {
      PlaceInOrder(p.c, p.s, key);
      SortedWithout(LeftOf(p.c, p.s, key), (key, DataOf(p.s, key)), RightOf(p.c, p.s, key));
    }
  }

  // The probe ends at the node with the key, or just above the empty place where the search ends.
  lemma {:induction false} ProbeSeek(c: Path, s: Shape, key: int, h: int)
    requires !s.Empty? && Balanced(s, h)
    ensures var p := Probe(c, s, key);
      && Plug(p.c, p.s) == Plug(c, s) && !p.s.Empty?
      && (HasKey(p.s, key) ==> Seek(c, s, key) == p)
      && (!HasKey(p.s, key) ==>
            p.s.l.Empty? && Seek(c, s, key) == Below(p.c, p.s, key) && Below(p.c, p.s, key).s.Empty?)
    decreases s
  {
    if !HasKey(s, key) {
      var p := Below(c, s, key);
      BelowFill(c, s, key);
      BalancedHeight(s.l, h - 1);
      BalancedHeight(p.s, h - 1);
      if !p.s.Empty? {
        ProbeSeek(p.c, p.s, key, h - 1);
      }
    }
  }

  // ---------- insertion ----------

  ghost function Insert(s: Shape, key: int, v: Pointer): Shape
  {
    InsertUp(Seek(Top, s, key).c, Empty, key, v, Empty)
  }

  // Every node on the way down is a 3-node, the root included.
  ghost predicate Splits(s: Shape, key: int) { Full(Seek(Top, s, key).c) }

  // The empty place where a missing key belongs.
  lemma InsertPlace(s: Shape, key: int, v: Pointer, h: int)
    requires WellFormed(s, h) && key !in ToMap(InOrder(s)) && 0 <= key < INVALID_KEY
    ensures var c := Seek(Top, s, key).c; var total := Before(c) + [(key, v)] + After(c);
      && Fits(c, 0) && h == Depth(c) && Sorted(total) && KeysOk(total)
      && InOrder(s) == Before(c) + After(c) && ToMap(total) == ToMap(InOrder(s))[key := v]
  {
    hide InOrder, Sorted, AllBelow, AllAbove, ToMap, Plug, Seek, Balanced, Fits;
    var c := Seek(Top, s, key).c;
    SeekFinds(s, key);
    SeekEdges(s, key);
    UnplugBalanced(c, Empty, h);
    PlugInOrder(c, Empty);
    EmptyShape();
    BalancedHeight(Empty, h - Depth(c));
    assert InOrder(s) == Before(c) + After(c);
    SortedWith(Before(c), (key, v), After(c));
    assert forall e <- Before(c) + [(key, v)] + After(c) :: e in InOrder(s) || e == (key, v);
  }

  lemma InsertTheorem(s: Shape, key: int, v: Pointer, h: int)
    requires WellFormed(s, h) && key !in ToMap(InOrder(s)) && 0 <= key < INVALID_KEY
    ensures var s' := Insert(s, key, v);
      && WellFormed(s', if Splits(s, key) then h + 1 else h)
      && ToMap(InOrder(s')) == ToMap(InOrder(s))[key := v]
      && |InOrder(s')| == |InOrder(s)| + 1
  {
    hide InOrder, Sorted, ToMap, Plug, Seek, Balanced, Fits, Full, InsertUp, KeysOk;
    var c := Seek(Top, s, key).c;
    InsertPlace(s, key, v, h);
    EmptyShape();
    EmptyBalanced();
    InsertUpBalanced(c, Empty, key, v, Empty, 0);
    InsertUpInOrder(c, Empty, key, v, Empty);
    assert InOrder(Empty) + [(key, v)] + InOrder(Empty) == [(key, v)];
  }

  lemma EmptyShape()
    ensures InOrder(Empty) == []
  {
  }

  lemma SeekEdges(s: Shape, key: int)
    requires Sorted(InOrder(s))
    ensures var p := Seek(Top, s, key); AllBelow(Before(p.c), key) && AllAbove(key, After(p.c))
  {
    SeekBetween(Top, s, key);
  }

  // ---------- deletion ----------

  // The leaf with the smallest keys of s, and the path to it.
  ghost function Min(s: Shape): Shape
    requires !s.Empty?
    ensures !Min(s).Empty? && Min(s).l.Empty?
    decreases s
  {
    if s.l.Empty? then s else Min(s.l)
  }

  ghost function Leftwards(c: Path, s: Shape): Path
    requires !s.Empty?
  {
    if s.Two? then At2(s.k, s.v, true, s.r, c) else At3(s.k1, s.v1, s.k2, s.v2, L, s.m, s.r, c)
  }

  ghost function MinPath(c: Path, s: Shape): Path
    requires !s.Empty?
    decreases s
  {
    if s.l.Empty? then c else MinPath(Leftwards(c, s), s.l)
  }

  ghost function FirstKey(s: Shape): int requires !s.Empty? { if s.Two? then s.k else s.k1 }

  ghost function FirstData(s: Shape): Pointer requires !s.Empty? { if s.Two? then s.v else s.v1 }

  lemma {:induction false} MinPlace(c: Path, s: Shape)
    requires !s.Empty?
    ensures Plug(MinPath(c, s), Min(s)) == Plug(c, s)
    decreases s
  {
    if !s.l.Empty? {
      MinPlace(Leftwards(c, s), s.l);
    }
  }

  // Of keys that are all above key, a probe for key + 1 reaches the smallest, in a leaf.
  lemma {:induction false} ProbeMin(c: Path, s: Shape, key: int, h: int)
    requires Balanced(s, h) && !s.Empty? && Sorted(InOrder(s)) && AllAbove(key, InOrder(s))
    ensures Probe(c, s, key + 1) == Place(MinPath(c, s), Min(s))
    decreases s
  {
    hide InOrder, Sorted, AllAbove, Min;
    MinStep(c, s);
    if !s.l.Empty? {
      BalancedHeight(s.l, h - 1);
      LeftFirst(s, key);
      assert Below(c, s, key + 1) == Place(Leftwards(c, s), s.l);
      ProbeMin(Leftwards(c, s), s.l, key, h - 1);
    }
  }

  lemma MinStep(c: Path, s: Shape)
    requires !s.Empty?
    ensures if s.l.Empty? then Min(s) == s && MinPath(c, s) == c
            else Min(s) == Min(s.l) && MinPath(c, s) == MinPath(Leftwards(c, s), s.l)
  {
  }

  // An interior node whose keys all exceed key has its first key above key + 1.
  lemma LeftFirst(s: Shape, key: int)
    requires !s.Empty? && !s.l.Empty? && Sorted(InOrder(s)) && AllAbove(key, InOrder(s))
    ensures FirstKey(s) > key + 1 && (s.Three? ==> s.k2 > key + 1)
    ensures Sorted(InOrder(s.l)) && AllAbove(key, InOrder(s.l))
  {
    hide InOrder, Sorted;
    NonEmptyInOrder(s.l);
    var x := InOrder(s.l);
    var e := (FirstKey(s), FirstData(s));
    assert x[0] in x;
    if s.Two? {
      TwoInOrder(s);
      SortedParts(x, e, InOrder(s.r));
      assert forall i <- x :: i in InOrder(s);
    } else {
      var y, f, z := InOrder(s.m), (s.k2, s.v2), InOrder(s.r);
      ThreeInOrder(s);
      Shift(x, e, y, f, z);
      SortedParts(x, e, y + [f] + z);
      assert f in y + [f] + z;
      assert forall i <- x :: i in InOrder(s);
    }
  }

  lemma NonEmptyInOrder(s: Shape)
    requires !s.Empty?
    ensures |InOrder(s)| > 0
  {
  }

  // The subtree that follows a key of an interior node, and the path to it when the entry of the
  // key has been replaced by (k, v).
  ghost function NextSub(s: Shape, key: int): Shape
    requires HasKey(s, key)
  {
    if s.Three? && s.k1 == key then s.m else s.r
  }

  ghost function NextPath(c: Path, s: Shape, key: int, k: int, v: Pointer): Path
    requires HasKey(s, key)
  {
    if s.Two? then At2(k, v, false, s.l, c)
    else if s.k1 == key then At3(k, v, s.k2, s.v2, M, s.l, s.r, c)
    else At3(s.k1, s.v1, k, v, R, s.l, s.m, c)
  }

  // Probing for key + 1 from the interior node that holds key ends at the leaf whose left key is
  // the in-order successor.
  lemma ProbeSuccessor(c: Path, s: Shape, key: int, h: int)
    requires Balanced(s, h) && HasKey(s, key) && !s.l.Empty? && Sorted(InOrder(s))
    ensures var t := NextSub(s, key);
      && !t.Empty? && Probe(c, s, key + 1) == Place(MinPath(NextPath(c, s, key, key, DataOf(s, key)), t), Min(t))
      && Balanced(t, h - 1) && Sorted(InOrder(t)) && AllAbove(key, InOrder(t))
  {
    hide InOrder, Sorted, Probe, AllAbove;
    BalancedHeight(s.l, h - 1);
    BalancedHeight(s.r, h - 1);
    var t := NextSub(s, key);
    if s.Two? {
      TwoInOrder(s);
      SortedParts(InOrder(s.l), (s.k, s.v), InOrder(s.r));
    } else {
      BalancedHeight(s.m, h - 1);
      var x, e, y, f, z := InOrder(s.l), (s.k1, s.v1), InOrder(s.m), (s.k2, s.v2), InOrder(s.r);
      ThreeInOrder(s);
      Shift(x, e, y, f, z);
      SortedParts(x, e, y + [f] + z);
      SortedParts(y, f, z);
      GapAbove(y, f, z, s.k1);
      NonEmptyInOrder(s.m);
    }
    ProbeStep(c, s, key);
    ProbeMin(NextPath(c, s, key, key, DataOf(s, key)), t, key, h - 1);
  }

  lemma GapAbove(y: seq<Entry>, f: Entry, z: seq<Entry>, key: int)
    requires AllAbove(key, y + [f] + z) && AllBelow(y, f.0)
    ensures AllAbove(key, y) && AllAbove(key, z) && (|y| > 0 ==> key + 1 < f.0)
  {
    assert forall i <- y :: i in y + [f] + z;
    assert forall i <- z :: i in y + [f] + z;
    if |y| > 0 {
      assert y[0] in y;
    }
  }

  lemma ProbeStep(c: Path, s: Shape, key: int)
    requires HasKey(s, key) && !s.l.Empty? && !NextSub(s, key).Empty?
    requires s.Three? ==> s.k1 < s.k2 && (s.k1 == key ==> key + 1 < s.k2)
    ensures var n := NextPath(c, s, key, key, DataOf(s, key)); var t := NextSub(s, key);
      Probe(c, s, key + 1) == Probe(n, t, key + 1)
  {
  }

  // A leaf loses its first or its second key.
  ghost function DropFirst(c: Path, s: Shape): Shape
    requires !s.Empty?
  {
    if s.Two? then DeleteUp(c, Empty) else Plug(c, Two(s.k2, s.v2, Empty, Empty))
  }

  ghost function DropSecond(c: Path, s: Shape): Shape
    requires s.Three?
  {
    Plug(c, Two(s.k1, s.v1, Empty, Empty))
  }

  ghost function DeleteAt(c: Path, s: Shape, key: int): Shape
    requires HasKey(s, key) && !NextSub(s, key).Empty? == !s.l.Empty?
  {
    if s.l.Empty? then
      if FirstKey(s) == key then DropFirst(c, s) else DropSecond(c, s)
    else
      var t := NextSub(s, key);
      DropFirst(MinPath(NextPath(c, s, key, FirstKey(Min(t)), FirstData(Min(t))), t), Min(t))
  }

  ghost function Delete(s: Shape, key: int): Shape
    requires var p := Seek(Top, s, key); HasKey(p.s, key) && !NextSub(p.s, key).Empty? == !p.s.l.Empty?
  {
    DeleteAt(Seek(Top, s, key).c, Seek(Top, s, key).s, key)
  }

  // The freed key costs the tree a level.
  ghost predicate Collapses(c: Path, s: Shape)
    requires !s.Empty?
  {
    s.Two? && Thin(c)
  }

  lemma DropFirstBalanced(c: Path, s: Shape, h: int)
    requires !s.Empty? && s.l.Empty? && Balanced(Plug(c, s), h)
    ensures Balanced(DropFirst(c, s), if Collapses(c, s) then h - 1 else h)
    ensures s.Three? ==> Balanced(DropSecond(c, s), h)
    ensures h == Depth(c) + 1 && Fits(c, 1) && s.r.Empty? && (s.Three? ==> s.m.Empty?)
  {
    hide Plug, Fits, Thin, DeleteUp;
    UnplugBalanced(c, s, h);
    LeafBalanced(s, h - Depth(c));
    if s.Two? {
      DeleteUpBalanced(c, Empty, 0);
    } else {
      PlugBalanced(c, Two(s.k2, s.v2, Empty, Empty), 1);
      PlugBalanced(c, Two(s.k1, s.v1, Empty, Empty), 1);
    }
  }

  lemma LeafBalanced(s: Shape, h: int)
    requires !s.Empty? && s.l.Empty? && Balanced(s, h)
    ensures h == 1 && s.r.Empty? && (s.Three? ==> s.m.Empty?)
    ensures forall k, v :: Balanced(Two(k, v, Empty, Empty), 1)
  {
    BalancedHeight(s.r, h - 1);
    if s.Three? {
      BalancedHeight(s.m, h - 1);
    }
  }

  lemma LeafInOrder(s: Shape)
    requires !s.Empty? && s.l.Empty? && s.r.Empty? && (s.Three? ==> s.m.Empty?)
    ensures InOrder(s) == if s.Two? then [(s.k, s.v)] else [(s.k1, s.v1), (s.k2, s.v2)]
  {
  }

  // The smallest entry goes, the others stay.
  lemma DropFirstInOrder(c: Path, s: Shape, h: int)
    requires !s.Empty? && s.l.Empty? && Balanced(Plug(c, s), h)
    ensures InOrder(Plug(c, s)) == Before(c) + [(FirstKey(s), FirstData(s))] + InOrder(s)[1..] + After(c)
    ensures InOrder(DropFirst(c, s)) == Before(c) + InOrder(s)[1..] + After(c)
    ensures |InOrder(s)| > 0
    ensures s.Three? ==>
      && InOrder(Plug(c, s)) == (Before(c) + [(s.k1, s.v1)]) + [(s.k2, s.v2)] + After(c)
      && InOrder(DropSecond(c, s)) == (Before(c) + [(s.k1, s.v1)]) + After(c)
  {
    hide Plug, Fits, DeleteUp, InOrder, Before, After;
    DropFirstBalanced(c, s, h);
    LeafInOrder(s);
    PlugInOrder(c, s);
    EmptyShape();
    if s.Two? {
      EmptyBalanced();
      DeleteUpInOrder(c, Empty, 0);
    } else {
      LeafInOrder(Two(s.k2, s.v2, Empty, Empty));
      LeafInOrder(Two(s.k1, s.v1, Empty, Empty));
      PlugInOrder(c, Two(s.k2, s.v2, Empty, Empty));
      PlugInOrder(c, Two(s.k1, s.v1, Empty, Empty));
    }
  }

  lemma EmptyBalanced()
    ensures Balanced(Empty, 0)
  {
  }

  // The path to the successor passes nothing on its left but the replaced entry.
  lemma {:induction false} MinPathInOrder(c: Path, s: Shape)
    requires !s.Empty?
    ensures Before(MinPath(c, s)) == Before(c)
    decreases s
  {
    if !s.l.Empty? {
      MinPathInOrder(Leftwards(c, s), s.l);
    }
  }

  lemma NextPathPlug(c: Path, s: Shape, key: int, k: int, v: Pointer, h: int)
    requires HasKey(s, key) && Balanced(Plug(c, s), h)
    ensures Balanced(Plug(NextPath(c, s, key, k, v), NextSub(s, key)), h)
    ensures Before(NextPath(c, s, key, k, v)) == LeftOf(c, s, key) + [(k, v)]
    ensures InOrder(NextSub(s, key)) + After(NextPath(c, s, key, k, v)) == RightOf(c, s, key)
  {
    hide InOrder, Plug;
    var n, t := NextPath(c, s, key, k, v), NextSub(s, key);
    UnplugBalanced(c, s, h);
    PlugStep(n, t);
    PlugBalanced(c, Fill(n, t), h - Depth(c));
    if s.Three? && s.k1 == key {
      var x, y, z, f := InOrder(s.l), InOrder(s.m), InOrder(s.r), (s.k2, s.v2);
      Group2([], y, f, z, After(c));
      assert [] + (y + [f] + z) == y + [f] + z;
      assert [] + y == y;
    }
  }

  lemma PlugStep(c: Path, s: Shape)
    requires !c.Top?
    ensures Plug(c, s) == Plug(c.up, Fill(c, s))
  {
  }

  lemma DeleteAtInOrder(c: Path, s: Shape, key: int, h: int)
    requires HasKey(s, key) && !NextSub(s, key).Empty? == !s.l.Empty? && Balanced(Plug(c, s), h)
    ensures InOrder(DeleteAt(c, s, key)) == LeftOf(c, s, key) + RightOf(c, s, key)
  {
    hide InOrder, Before, After, Plug, DropFirst, DropSecond, Min, MinPath, LeftOf, RightOf;
    PlaceInOrder(c, s, key);
    if s.l.Empty? {
      DropFirstInOrder(c, s, h);
      DropFirstBalanced(c, s, h);
      LeafInOrder(s);
      EmptyShape();
      LeafSides(c, s, key);
    } else {
      var t := NextSub(s, key);
      var m := Min(t);
      var e := (FirstKey(m), FirstData(m));
      var n := NextPath(c, s, key, e.0, e.1);
      var u := MinPath(n, t);
      NextPathPlug(c, s, key, e.0, e.1, h);
      MinPlace(n, t);
      MinPathInOrder(n, t);
      DropFirstInOrder(u, m, h);
      PlugInOrder(n, t);
      MovedEntry(LeftOf(c, s, key), e, InOrder(m)[1..], After(u), InOrder(t), After(n), RightOf(c, s, key));
    }
  }

  // The first entry of a subtree, put in front of it and taken out of it.
  lemma MovedEntry(L: seq<Entry>, e: Entry, Q: seq<Entry>, X: seq<Entry>, T: seq<Entry>, A: seq<Entry>, R: seq<Entry>)
    requires L + [e] + [e] + Q + X == L + [e] + T + A && T + A == R
    ensures L + [e] + Q + X == L + R
  {
    var P := L + [e];
    assert (P + [e] + Q + X)[|P|..] == [e] + Q + X;
    assert (P + T + A)[|P|..] == T + A;
    assert P + Q + X == L + ([e] + Q + X);
  }

  lemma LeafSides(c: Path, s: Shape, key: int)
    requires HasKey(s, key) && s.l.Empty? && s.r.Empty? && (s.Three? ==> s.m.Empty?)
    ensures LeftOf(c, s, key) == if s.Two? || s.k1 == key then Before(c) else Before(c) + [(s.k1, s.v1)]
    ensures RightOf(c, s, key) == if s.Three? && s.k1 == key then [(s.k2, s.v2)] + After(c) else After(c)
  {
    hide InOrder, Before, After;
    EmptyInOrder();
    var none: seq<Entry> := [];
    assert Before(c) + none == Before(c) && none + After(c) == After(c);
    if s.Three? {
      assert none + [(s.k1, s.v1)] + none == [(s.k1, s.v1)] && none + [(s.k2, s.v2)] + none == [(s.k2, s.v2)];
    }
  }

  lemma EmptyInOrder()
    ensures InOrder(Empty) == []
  {
  }

  // The leaf that gives up a key, and the path to it.
  ghost function Drained(c: Path, s: Shape, key: int): Place
    requires HasKey(s, key) && !NextSub(s, key).Empty? == !s.l.Empty?
  {
    if s.l.Empty? then Place(c, s)
    else
      var t := NextSub(s, key);
      Place(MinPath(NextPath(c, s, key, FirstKey(Min(t)), FirstData(Min(t))), t), Min(t))
  }

  lemma DeleteAtBalanced(c: Path, s: Shape, key: int, h: int)
    requires HasKey(s, key) && !NextSub(s, key).Empty? == !s.l.Empty? && Balanced(Plug(c, s), h)
    ensures var p := Drained(c, s, key);
      Balanced(DeleteAt(c, s, key), if Collapses(p.c, p.s) then h - 1 else h)
  {
    hide Plug, DropFirst, DropSecond, Min, MinPath, Thin;
    if s.l.Empty? {
      DropFirstBalanced(c, s, h);
    } else {
      var t := NextSub(s, key);
      var n := NextPath(c, s, key, FirstKey(Min(t)), FirstData(Min(t)));
      NextPathPlug(c, s, key, FirstKey(Min(t)), FirstData(Min(t)), h);
      MinPlace(n, t);
      DropFirstBalanced(MinPath(n, t), Min(t), h);
    }
  }

  lemma InteriorHasNext(c: Path, s: Shape, key: int, h: int)
    requires HasKey(s, key) && Balanced(Plug(c, s), h)
    ensures !NextSub(s, key).Empty? == !s.l.Empty?
    ensures Balanced(s, h - Depth(c))
  {
    UnplugBalanced(c, s, h);
    BalancedHeight(s.l, h - Depth(c) - 1);
    BalancedHeight(NextSub(s, key), h - Depth(c) - 1);
  }

  // The level is lost exactly when the drained leaf and every node above it are 2-nodes next to
  // 2-nodes.
  lemma DeleteTheorem(s: Shape, key: int, h: int)
    requires WellFormed(s, h) && key in ToMap(InOrder(s))
    ensures var p := Seek(Top, s, key);
      && HasKey(p.s, key) && !NextSub(p.s, key).Empty? == !p.s.l.Empty?
      && var d := Drained(p.c, p.s, key);
      && WellFormed(Delete(s, key), if Collapses(d.c, d.s) then h - 1 else h)
      && ToMap(InOrder(Delete(s, key))) == ToMap(InOrder(s)) - {key}
      && |InOrder(Delete(s, key))| == |InOrder(s)| - 1
  {
    hide InOrder, Sorted, ToMap, Plug, Seek, Balanced, Drained, DeleteAt, LeftOf, RightOf;
    SeekFinds(s, key);
    var p := Seek(Top, s, key);
    InteriorHasNext(p.c, p.s, key, h);
    DeleteAtBalanced(p.c, p.s, key, h);
    DeleteAtInOrder(p.c, p.s, key, h);
    PlaceInOrder(p.c, p.s, key);
    var a, e, b := LeftOf(p.c, p.s, key), (key, DataOf(p.s, key)), RightOf(p.c, p.s, key);
    SortedWithout(a, e, b);
    assert forall i <- a + b :: i in a + [e] + b;
  }

  // ---------- size ----------

  // Between all 2-nodes and all 3-nodes.
  lemma {:induction false} BoundsOf(s: Shape, h: nat)
    requires Balanced(s, h)
    ensures Pow(2, h) - 1 <= |InOrder(s)| <= Pow(3, h) - 1
    decreases s
  {
    if !s.Empty? {
      BalancedHeight(s.l, h - 1);
      BoundsOf(s.l, h - 1);
      BoundsOf(s.r, h - 1);
      if s.Three? {
        BoundsOf(s.m, h - 1);
      }
    }
  }
}
