/** What insertion and removal do to the shape of a tree, node identities included, and the
    properties the header promises of them.  The heap methods of RbTree are proved against the
    functions of this module. */
module RbSpec {
  import opened Entries
  import opened RbShape

  ghost function Blacken(t: Tree): Tree { if t.Br? then t.(red := false) else t }

  ghost function Redden(t: Tree): Tree { if t.Br? then t.(red := true) else t }

  // ---------- insertion ----------

  // The 3-node around the hole of c is full: c.n is its red node, or its black node with a red
  // left child.
  ghost predicate Crowded(c: Ctx)
  {
    c.Cx? && ((c.red && c.up.Cx?) || (!c.red && !c.left && Red(c.sib)))
  }

  // The place of the whole 3-node.
  ghost function Outer(c: Ctx): Ctx
    requires Crowded(c)
  {
    if c.red then c.up.up else c.up
  }

  // The full 3-node around the hole, broken into two 2-nodes below the middle one of three.
  ghost function Split(c: Ctx, t: Tree): Tree
    requires t.Br? && Crowded(c)
  {
    if c.red then
      var g := c.up;
      if c.left then
        Br(c.n, c.k, c.d, false, t, Br(g.n, g.k, g.d, false, c.sib, g.sib))
      else
        Br(t.n, t.k, t.d, false,
           Br(c.n, c.k, c.d, false, c.sib, t.l), Br(g.n, g.k, g.d, false, t.r, g.sib))
    else
      Br(c.n, c.k, c.d, false, Blacken(c.sib), t)
  }

  // The 2-node c.n takes t in and becomes a 3-node.
  ghost function Absorb(c: Ctx, t: Tree): Tree
    requires t.Br? && c.Cx?
  {
    if c.left then Fill(c, Redden(t))
    else Br(t.n, t.k, t.d, c.red, Br(c.n, c.k, c.d, true, c.sib, t.l), t.r)
  }

  // t is a black node one too high for the hole of c: split full 3-nodes on the way up until a
  // 2-node or the root absorbs it.
  ghost function InsertUp(c: Ctx, t: Tree): Tree
    requires t.Br?
    decreases c
  {
    if c.Top? then t
    else if Crowded(c) then InsertUp(Outer(c), Split(c, t))
    else Plug(c.up, Absorb(c, t))
  }

  // Every 3-node from the hole to the root is full.
  ghost predicate Full(c: Ctx)
    decreases c
  {
    c.Cx? ==> Crowded(c) && Full(Outer(c))
  }

  // t may be handed to the hole of c by a split: black, no red link, one too high.
  ghost predicate Overflow(c: Ctx, t: Tree, h: int)
  {
    t.Br? && !t.red && !Red(t.l) && RB(t, h + 1) && CtxRB(c, h, false)
  }

  lemma SplitOverflow(c: Ctx, t: Tree, h: int)
    requires Overflow(c, t, h) && Crowded(c)
    ensures Overflow(Outer(c), Split(c, t), h + 1)
    ensures Blacks(c) == Blacks(Outer(c)) + 1
    ensures c.red ==> c.up.left && !c.up.red
  {
    if c.red {
      assert CtxRB(c.up, h, true);
      assert RB(Br(c.up.n, c.up.k, c.up.d, false, c.sib, c.up.sib), h + 1);
    } else {
      assert RB(Blacken(c.sib), h + 1);
    }
  }

  lemma AbsorbOverflow(c: Ctx, t: Tree, h: int)
    requires Overflow(c, t, h) && c.Cx? && !Crowded(c)
    ensures !c.red && RB(Absorb(c, t), h + 1) && CtxRB(c.up, h + 1, false)
  {
    assert CtxRB(c.up, if c.red then h else h + 1, c.red);
    if !c.left {
      assert RB(Br(c.n, c.k, c.d, true, c.sib, t.l), h);
    }
  }

  lemma BrInOrder(t: Tree)
    requires t.Br?
    ensures InOrder(t) == InOrder(t.l) + [(t.k, t.d)] + InOrder(t.r)
  {
  }

  lemma SplitLeftGroup(B: seq<Entry>, o: seq<Entry>, e: Entry, s: seq<Entry>, g: Entry, u: seq<Entry>, A: seq<Entry>)
    ensures B + (o + [e] + (s + [g] + u)) + A == B + o + ([e] + s + ([g] + u + A))
  {
  }

  lemma SplitRightGroup(B: seq<Entry>, s: seq<Entry>, e: Entry, l: seq<Entry>, m: Entry, r: seq<Entry>, g: Entry,
                        u: seq<Entry>, A: seq<Entry>)
    ensures B + ((s + [e] + l) + [m] + (r + [g] + u)) + A == B + (s + [e]) + (l + [m] + r) + ([g] + u + A)
  {
  }

  lemma SplitInOrder(c: Ctx, t: Tree)
    requires t.Br? && Crowded(c) && (c.red ==> c.up.left)
    ensures Before(Outer(c)) + InOrder(Split(c, t)) + After(Outer(c)) == Before(c) + InOrder(t) + After(c)
  {
    if c.red {
      hide InOrder;
      var g, p := c.up, Split(c, t);
      var B, A := Before(g.up), After(g.up);
      BrInOrder(p);
      BrInOrder(p.r);
      if c.left {
        SplitLeftGroup(B, InOrder(t), (c.k, c.d), InOrder(c.sib), (g.k, g.d), InOrder(g.sib), A);
      } else {
        BrInOrder(t);
        BrInOrder(p.l);
        SplitRightGroup(B, InOrder(c.sib), (c.k, c.d), InOrder(t.l), (t.k, t.d), InOrder(t.r), (g.k, g.d),
                        InOrder(g.sib), A);
      }
    }
  }

  lemma SplitNodes(c: Ctx, t: Tree)
    requires t.Br? && Crowded(c) && CSep(c) && Sep(t) && CFoot(c) !! Foot(t)
    ensures CSep(Outer(c)) && Sep(Split(c, t)) && CFoot(Outer(c)) !! Foot(Split(c, t))
    ensures CFoot(Outer(c)) + Foot(Split(c, t)) == CFoot(c) + Foot(t)
  {
    if !c.red {
      assert Sep(Blacken(c.sib)) && Foot(Blacken(c.sib)) == Foot(c.sib);
    }
  }

  lemma {:induction false} InsertUpRB(c: Ctx, t: Tree, h: int)
    requires Overflow(c, t, h)
    ensures RB(InsertUp(c, t), h + Blacks(c) + if Full(c) then 1 else 0)
    ensures !Red(InsertUp(c, t))
    decreases c
  {
    if Crowded(c) {
      SplitOverflow(c, t, h);
      InsertUpRB(Outer(c), Split(c, t), h + 1);
    } else if c.Cx? {
      AbsorbOverflow(c, t, h);
      PlugRB(c.up, Absorb(c, t), h + 1);
    }
  }

  lemma AbsorbInOrder(c: Ctx, t: Tree)
    requires t.Br? && c.Cx?
    ensures Before(c.up) + InOrder(Absorb(c, t)) + After(c.up) == Before(c) + InOrder(t) + After(c)
  {
    hide InOrder, Before, After;
    AroundInOrder(c, t);
    BrInOrder(Absorb(c, t));
    BrInOrder(t);
    if c.left {
      BrInOrder(Redden(t));
    } else {
      BrInOrder(Absorb(c, t).l);
    }
  }

  lemma {:induction false} InsertUpInOrder(c: Ctx, t: Tree, h: int)
    requires Overflow(c, t, h)
    ensures InOrder(InsertUp(c, t)) == Before(c) + InOrder(t) + After(c)
    decreases c
  {
    if Crowded(c) {
      SplitOverflow(c, t, h);
      SplitInOrder(c, t);
      InsertUpInOrder(Outer(c), Split(c, t), h + 1);
    } else if c.Cx? {
      PlugInOrder(c.up, Absorb(c, t));
      AbsorbInOrder(c, t);
    }
  }

  lemma {:induction false} InsertUpNodes(c: Ctx, t: Tree)
    requires t.Br? && CSep(c) && Sep(t) && CFoot(c) !! Foot(t)
    ensures Foot(InsertUp(c, t)) == CFoot(c) + Foot(t) && Sep(InsertUp(c, t))
    decreases c
  {
    if Crowded(c) {
      SplitNodes(c, t);
      InsertUpNodes(Outer(c), Split(c, t));
    } else if c.Cx? {
      PlugFoot(c.up, Absorb(c, t));
      PlugSep(c.up, Absorb(c, t));
    }
  }

  // ---------- removal ----------

  datatype Removed = Removed(t: Tree, freed: Node)

  // The brother side of the hole has a key to spare.
  ghost predicate Lends(c: Ctx)
  {
    c.Cx? && c.sib.Br? && ((c.sib.red && c.sib.r.Br?) || (!c.sib.red && Red(c.sib.l)))
  }

  // The subtree that replaces the one at c.n when a key moves over from the brother side, and
  // the node that is left empty.
  ghost function Borrow(c: Ctx, n: Node, w: Tree): Removed
    requires Lends(c)
  {
    var b := c.sib;
    if b.red then
      var nep := b.r;
      if Red(nep.l) then
        Removed(Br(c.n, nep.k, nep.d, c.red,
                   Br(b.n, b.k, b.d, true, b.l, Blacken(nep.l)),
                   Br(n, c.k, c.d, false, nep.r, w)), nep.n)
      else
        Removed(Br(c.n, b.k, b.d, c.red, b.l, Br(n, c.k, c.d, false, Redden(nep), w)), b.n)
    else
      var nep := b.l;
      if c.left then
        Removed(Br(c.n, nep.k, nep.d, c.red,
                   Br(n, c.k, c.d, false, w, nep.l),
                   Br(b.n, b.k, b.d, false, nep.r, b.r)), nep.n)
      else
        Removed(Br(c.n, b.k, b.d, c.red, Blacken(nep), Br(n, c.k, c.d, false, b.r, w)), b.n)
  }

  // The hole, its parent's key and its brother as one 3-node, the only subtree of the parent.
  ghost function Merge(c: Ctx, n: Node, w: Tree): Tree
    requires c.Cx? && c.sib.Br?
  {
    var b := c.sib;
    if c.left then Br(b.n, b.k, b.d, false, Br(n, c.k, c.d, true, w, b.l), b.r)
    else Br(n, c.k, c.d, false, Redden(b), w)
  }

  // Node n with colour red stands in the hole of c; it lost its key and has the single subtree
  // w, of the height its children should have.  Climb until the missing key can be made good.
  ghost function RemoveUp(c: Ctx, n: Node, red: bool, w: Tree): Removed
    decreases c
  {
    if c.Top? then Removed(w, n)
    else if red || c.sib.Leaf? then Removed(Plug(c, w), n)
    else if Lends(c) then Removed(Plug(c.up, Borrow(c, n, w).t), Borrow(c, n, w).freed)
    else RemoveUp(c.up, c.n, c.red, Merge(c, n, w))
  }

  // The climb reaches the root: no node on the way has a key to spare.
  ghost predicate Shrinks(c: Ctx, red: bool)
    decreases c
  {
    c.Cx? ==> !red && !Lends(c) && Shrinks(c.up, c.red)
  }

  // n may stand in the hole of c: what is left below it is black and one short of a full node.
  ghost predicate Underflow(c: Ctx, red: bool, w: Tree, h: int)
  {
    RB(w, h) && !Red(w) && CtxRB(c, if red then h else h + 1, red)
  }

  // Every case of the climb finds the nodes it touches.
  lemma UnderflowBrother(c: Ctx, red: bool, w: Tree, h: int)
    requires Underflow(c, red, w, h) && c.Cx?
    ensures h >= 0
    ensures red ==> c.left && !c.red
    ensures !red ==> c.sib.Br? && (c.sib.red ==> !c.left && !c.red && c.sib.r.Br? && !c.sib.r.red)
  {
    RBHeight(w, h);
    RBHeight(c.sib, if red then h else h + 1);
    if !red && c.sib.red {
      RBHeight(c.sib.r, h + 1);
    }
  }

  lemma BorrowRB(c: Ctx, n: Node, w: Tree, h: int)
    requires Underflow(c, false, w, h) && Lends(c)
    ensures var t := Borrow(c, n, w).t;
      RB(t, if c.red then h + 1 else h + 2) && t.red == c.red
  {
    var b := c.sib;
    UnderflowBrother(c, false, w, h);
    assert RB(b, h + 1);
    if b.red {
      var nep := b.r;
      assert RB(b.l, h + 1) && RB(nep, h + 1);
      assert RB(nep.r, h) && !Red(nep.r);
      if Red(nep.l) {
        assert RB(nep.l, h);
        assert RB(Blacken(nep.l), h + 1);
        assert RB(Br(b.n, b.k, b.d, true, b.l, Blacken(nep.l)), h + 1);
        assert RB(Br(n, c.k, c.d, false, nep.r, w), h + 1);
      } else {
        assert RB(Redden(nep), h);
        assert RB(Br(n, c.k, c.d, false, Redden(nep), w), h + 1);
      }
    } else {
      var nep := b.l;
      assert RB(nep, h) && RB(b.r, h) && !Red(b.r);
      assert RB(nep.l, h) && RB(nep.r, h) && !Red(nep.l) && !Red(nep.r);
      if c.left {
        assert RB(Br(n, c.k, c.d, false, w, nep.l), h + 1);
        assert RB(Br(b.n, b.k, b.d, false, nep.r, b.r), h + 1);
      } else {
        assert RB(Blacken(nep), h + 1);
        assert RB(Br(n, c.k, c.d, false, b.r, w), h + 1);
      }
    }
  }

  lemma MergeUnderflow(c: Ctx, n: Node, w: Tree, h: int)
    requires Underflow(c, false, w, h) && c.Cx? && !Lends(c)
    ensures c.sib.Br? && !c.sib.red && Underflow(c.up, c.red, Merge(c, n, w), h + 1)
  {
    UnderflowBrother(c, false, w, h);
    var b := c.sib;
    assert RB(b.l, h) && RB(b.r, h);
    if c.left {
      assert RB(Br(n, c.k, c.d, true, w, b.l), h);
    } else {
      assert RB(Redden(b), h);
    }
  }

  // What the hole, its parent and its brother hold, from left to right.
  ghost function Around(c: Ctx, w: Tree): seq<Entry>
    requires c.Cx?
  {
    if c.left then InOrder(w) + [(c.k, c.d)] + InOrder(c.sib)
    else InOrder(c.sib) + [(c.k, c.d)] + InOrder(w)
  }

  lemma AroundInOrder(c: Ctx, w: Tree)
    requires c.Cx?
    ensures Before(c.up) + Around(c, w) + After(c.up) == Before(c) + InOrder(w) + After(c)
  {
    hide InOrder;
    if c.left {
      Group2(Before(c.up), InOrder(w), (c.k, c.d), InOrder(c.sib), After(c.up));
    } else {
      Group2(Before(c.up), InOrder(c.sib), (c.k, c.d), InOrder(w), After(c.up));
    }
  }

  lemma BorrowInOrderRed(c: Ctx, n: Node, w: Tree)
    requires Lends(c) && c.sib.red && !c.left
    ensures InOrder(Borrow(c, n, w).t) == Around(c, w)
  {
    var b := c.sib;
    var nep := b.r;
    var o, P, B := InOrder(w), [(c.k, c.d)], [(b.k, b.d)];
    var x, y, z, N := InOrder(b.l), InOrder(nep.l), InOrder(nep.r), [(nep.k, nep.d)];
    assert InOrder(b) == x + B + (y + N + z);
    if Red(nep.l) {
      assert InOrder(Blacken(nep.l)) == y;
      assert InOrder(Borrow(c, n, w).t) == (x + B + y) + N + (z + P + o);
    } else {
      assert InOrder(Redden(nep)) == y + N + z;
      assert InOrder(Borrow(c, n, w).t) == x + B + ((y + N + z) + P + o);
    }
  }

  lemma BorrowInOrder(c: Ctx, n: Node, w: Tree)
    requires Lends(c) && (c.sib.red ==> !c.left)
    ensures InOrder(Borrow(c, n, w).t) == Around(c, w)
  {
    var b := c.sib;
    var nep := b.l;
    if b.red {
      BorrowInOrderRed(c, n, w);
    } else {
      var o, P, B := InOrder(w), [(c.k, c.d)], [(b.k, b.d)];
      var x, y, z, N := InOrder(nep.l), InOrder(nep.r), InOrder(b.r), [(nep.k, nep.d)];
      assert InOrder(b) == (x + N + y) + B + z;
      if c.left {
        assert InOrder(Borrow(c, n, w).t) == (o + P + x) + N + (y + B + z);
      } else {
        assert InOrder(Blacken(nep)) == x + N + y;
        assert InOrder(Borrow(c, n, w).t) == (x + N + y) + B + (z + P + o);
      }
    }
  }

  lemma MergeInOrder(c: Ctx, n: Node, w: Tree)
    requires c.Cx? && c.sib.Br?
    ensures InOrder(Merge(c, n, w)) == Around(c, w)
  {
    var b := c.sib;
    if c.left {
      assert InOrder(Br(n, c.k, c.d, true, w, b.l)) == InOrder(w) + [(c.k, c.d)] + InOrder(b.l);
    } else {
      assert InOrder(Redden(b)) == InOrder(b);
    }
  }

  // The nodes around the hole, n included, are pairwise different.
  ghost predicate Apart(c: Ctx, n: Node, w: Tree)
  {
    CSep(c) && Sep(w) && CFoot(c) !! Foot(w) && n !in CFoot(c) && n !in Foot(w)
  }

  lemma BorrowNodesRed(c: Ctx, n: Node, w: Tree)
    requires Apart(c, n, w) && Lends(c) && c.sib.red
    ensures var r := Borrow(c, n, w);
      Sep(r.t) && r.freed !in Foot(r.t) && Foot(r.t) + {r.freed} == {c.n, n} + Foot(c.sib) + Foot(w)
  {
    var b := c.sib;
    var nep := b.r;
    var r := Borrow(c, n, w);
    assert Sep(nep) && Sep(b.l);
    if Red(nep.l) {
      assert Sep(nep.l);
      assert Sep(Blacken(nep.l)) && Foot(Blacken(nep.l)) == Foot(nep.l);
      assert Foot(r.t.l) == {b.n} + Foot(b.l) + Foot(nep.l);
      assert Foot(r.t.r) == {n} + Foot(nep.r) + Foot(w);
    } else {
      assert Sep(Redden(nep)) && Foot(Redden(nep)) == Foot(nep);
      assert Foot(r.t.r) == {n} + Foot(nep) + Foot(w);
    }
  }

  lemma BorrowNodes(c: Ctx, n: Node, w: Tree)
    requires Apart(c, n, w) && Lends(c)
    ensures var r := Borrow(c, n, w);
      Sep(r.t) && r.freed !in Foot(r.t) && Foot(r.t) + {r.freed} == {c.n, n} + Foot(c.sib) + Foot(w)
  {
    var b := c.sib;
    var nep := b.l;
    var r := Borrow(c, n, w);
    if b.red {
      BorrowNodesRed(c, n, w);
    } else {
      assert Sep(nep) && Sep(b.r);
      if c.left {
        assert Foot(r.t.l) == {n} + Foot(w) + Foot(nep.l);
        assert Foot(r.t.r) == {b.n} + Foot(nep.r) + Foot(b.r);
      } else {
        assert Sep(Blacken(nep)) && Foot(Blacken(nep)) == Foot(nep);
        assert Foot(r.t.r) == {n} + Foot(b.r) + Foot(w);
      }
    }
  }

  lemma MergeNodes(c: Ctx, n: Node, w: Tree)
    requires Apart(c, n, w) && c.Cx? && c.sib.Br?
    ensures var m := Merge(c, n, w);
      Apart(c.up, c.n, m) && Foot(m) == {n} + Foot(c.sib) + Foot(w)
  {
    var b := c.sib;
    if c.left {
      assert Foot(Br(n, c.k, c.d, true, w, b.l)) == {n} + Foot(w) + Foot(b.l);
    } else {
      assert Sep(Redden(b)) && Foot(Redden(b)) == Foot(b);
    }
  }

  lemma {:induction false} RemoveUpRB(c: Ctx, n: Node, red: bool, w: Tree, h: int)
    requires Underflow(c, red, w, h)
    ensures RB(RemoveUp(c, n, red, w).t,
               (if red then h else h + 1) + Blacks(c) - if Shrinks(c, red) then 1 else 0)
    ensures !Red(RemoveUp(c, n, red, w).t)
    decreases c
  {
    if c.Cx? {
      UnderflowBrother(c, red, w, h);
      if red {
        PlugRB(c, w, h);
      } else if Lends(c) {
        BorrowRB(c, n, w, h);
        PlugRB(c.up, Borrow(c, n, w).t, if c.red then h + 1 else h + 2);
      } else {
        MergeUnderflow(c, n, w, h);
        RemoveUpRB(c.up, c.n, c.red, Merge(c, n, w), h + 1);
      }
    }
  }

  lemma {:induction false} RemoveUpInOrder(c: Ctx, n: Node, red: bool, w: Tree, h: int)
    requires Underflow(c, red, w, h)
    ensures InOrder(RemoveUp(c, n, red, w).t) == Before(c) + InOrder(w) + After(c)
    decreases c
  {
    if c.Cx? {
      UnderflowBrother(c, red, w, h);
      AroundInOrder(c, w);
      if red {
        PlugInOrder(c, w);
      } else if Lends(c) {
        BorrowInOrder(c, n, w);
        PlugInOrder(c.up, Borrow(c, n, w).t);
      } else {
        MergeInOrder(c, n, w);
        MergeUnderflow(c, n, w, h);
        RemoveUpInOrder(c.up, c.n, c.red, Merge(c, n, w), h + 1);
      }
    }
  }

  lemma {:induction false} RemoveUpNodes(c: Ctx, n: Node, red: bool, w: Tree)
    requires Apart(c, n, w)
    ensures var r := RemoveUp(c, n, red, w);
      Sep(r.t) && r.freed !in Foot(r.t) && Foot(r.t) + {r.freed} == CFoot(c) + Foot(w) + {n}
    decreases c
  {
    if c.Cx? {
      if red || c.sib.Leaf? {
        PlugFoot(c, w);
        PlugSep(c, w);
      } else if Lends(c) {
        BorrowNodes(c, n, w);
        PlugFoot(c.up, Borrow(c, n, w).t);
        PlugSep(c.up, Borrow(c, n, w).t);
      } else {
        MergeNodes(c, n, w);
        RemoveUpNodes(c.up, c.n, c.red, Merge(c, n, w));
      }
    }
  }
}
