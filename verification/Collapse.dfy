/** Reading every red link as the inside of a 3-node turns the red-black tree into a 2-3 tree, and
    insertion into the one into insertion into the other. */
module Collapse {
  import opened Entries
  import Rb = RbShape
  import RbS = RbSpec
  import RbT = RbTheorems
  import opened TwoThreeSpec
  import T = TwoThreeTheorems

  ghost function Collapse(t: Rb.Tree): Shape
    decreases t
  {
    if t.Leaf? then Empty
    else if Rb.Red(t.l) then Three(t.l.k, t.l.d, t.k, t.d, Collapse(t.l.l), Collapse(t.l.r), Collapse(t.r))
    else Two(t.k, t.d, Collapse(t.l), Collapse(t.r))
  }

  // The path seen from a black hole.
  ghost function CollapseCtx(c: Rb.Ctx): Path
    decreases c
  {
    if c.Top? then Top
    else if c.red && c.up.Cx? then
      At3(c.k, c.d, c.up.k, c.up.d, if c.left then L else M, Collapse(c.sib), Collapse(c.up.sib),
          CollapseCtx(c.up.up))
    else if !c.left && Rb.Red(c.sib) then
      At3(c.sib.k, c.sib.d, c.k, c.d, R, Collapse(c.sib.l), Collapse(c.sib.r), CollapseCtx(c.up))
    else
      At2(c.k, c.d, c.left, Collapse(c.sib), CollapseCtx(c.up))
  }

  // Both trees hold the same entries, and black height is height.
  lemma {:induction false} CollapseKeeps(t: Rb.Tree, h: int)
    requires Rb.RB(t, h) && !Rb.Red(t)
    ensures InOrder(Collapse(t)) == Rb.InOrder(t)
    ensures Balanced(Collapse(t), h)
    decreases t
  {
    if t.Br? {
      CollapseKeeps(t.r, h - 1);
      if Rb.Red(t.l) {
        CollapseKeeps(t.l.l, h - 1);
        CollapseKeeps(t.l.r, h - 1);
      } else {
        CollapseKeeps(t.l, h - 1);
      }
    }
  }

  lemma {:induction false} CollapsePlug(c: Rb.Ctx, t: Rb.Tree, h: int)
    requires Rb.CtxRB(c, h, false) && !Rb.Red(t)
    ensures Collapse(Rb.Plug(c, t)) == Plug(CollapseCtx(c), Collapse(t))
    decreases c
  {
    if c.Cx? {
      if c.red {
        assert Rb.CtxRB(c.up, h, true);
        var g := c.up;
        var x := Rb.Fill(c, t);
        Rb.PlugFill(c, t);
        Rb.PlugFill(g, x);
        assert Collapse(Rb.Fill(g, x)) == Fill(CollapseCtx(c), Collapse(t));
        CollapsePlug(g.up, Rb.Fill(g, x), h + 1);
      } else {
        Rb.PlugFill(c, t);
        assert Collapse(Rb.Fill(c, t)) == Fill(CollapseCtx(c), Collapse(t));
        CollapsePlug(c.up, Rb.Fill(c, t), h + 1);
      }
    }
  }

  // The upward pass of the one insertion is the upward pass of the other.
  lemma {:induction false} CollapseInsertUp(c: Rb.Ctx, t: Rb.Tree, h: int)
    requires RbS.Overflow(c, t, h)
    ensures Collapse(RbS.InsertUp(c, t)) ==
            InsertUp(CollapseCtx(c), Collapse(t.l), t.k, t.d, Collapse(t.r))
    decreases c
  {
    if RbS.Crowded(c) {
      RbS.SplitOverflow(c, t, h);
      var s := RbS.Split(c, t);
      CollapseInsertUp(RbS.Outer(c), s, h + 1);
    } else if c.Cx? {
      RbS.AbsorbOverflow(c, t, h);
      CollapseAbsorb(c, t, h);
    }
  }

  // A 2-node takes in the entry that came up.
  lemma CollapseAbsorb(c: Rb.Ctx, t: Rb.Tree, h: int)
    requires RbS.Overflow(c, t, h) && c.Cx? && !RbS.Crowded(c)
    ensures Collapse(Rb.Plug(c.up, RbS.Absorb(c, t))) ==
            InsertUp(CollapseCtx(c), Collapse(t.l), t.k, t.d, Collapse(t.r))
  {
    RbS.AbsorbOverflow(c, t, h);
    CollapsePlug(c.up, RbS.Absorb(c, t), h + 1);
  }

  // Both searches take the same way down.
  lemma {:induction false} CollapseSeek(c: Rb.Ctx, t: Rb.Tree, key: int, h: int)
    requires Rb.RB(t, h) && !Rb.Red(t) && Sorted(Rb.InOrder(t))
    requires RbT.Seek(c, t, key).t.Leaf? && (c.Cx? ==> !c.red || (c.up.Cx? && c.up.left))
    ensures T.Seek(CollapseCtx(c), Collapse(t), key) == T.Place(CollapseCtx(RbT.Seek(c, t, key).c), Empty)
    decreases t, 1
  {
    hide Rb.InOrder, Sorted;
    if t.Br? {
      RbSortedParts(t);
      if t.k < key {
        CollapseSeek(Rb.Cx(t.n, t.k, t.d, t.red, false, t.l, c), t.r, key, h - 1);
      } else if !Rb.Red(t.l) {
        CollapseSeek(Rb.Cx(t.n, t.k, t.d, t.red, true, t.r, c), t.l, key, h - 1);
      } else {
        CollapseSeekLeft(c, t, key, h);
      }
    }
  }

  // The way into the left part of a 3-node.
  lemma {:induction false} CollapseSeekLeft(c: Rb.Ctx, t: Rb.Tree, key: int, h: int)
    requires Rb.RB(t, h) && !Rb.Red(t) && Sorted(Rb.InOrder(t)) && t.Br? && Rb.Red(t.l) && key <= t.k
    requires RbT.Seek(c, t, key).t.Leaf? && (c.Cx? ==> !c.red || (c.up.Cx? && c.up.left))
    ensures T.Seek(CollapseCtx(c), Collapse(t), key) == T.Place(CollapseCtx(RbT.Seek(c, t, key).c), Empty)
    decreases t, 0
  {
    hide Rb.InOrder, Sorted;
    var cl := Rb.Cx(t.n, t.k, t.d, t.red, true, t.r, c);
    var l := t.l;
    RbSortedParts(t);
    RbSortedParts(l);
    assert Rb.RB(l, h - 1);
    if l.k > key {
      CollapseSeek(Rb.Cx(l.n, l.k, l.d, l.red, true, l.r, cl), l.l, key, h - 1);
    } else {
      CollapseSeek(Rb.Cx(l.n, l.k, l.d, l.red, false, l.l, cl), l.r, key, h - 1);
    }
  }

  lemma RbSortedParts(t: Rb.Tree)
    requires t.Br? && Sorted(Rb.InOrder(t))
    ensures Sorted(Rb.InOrder(t.l)) && Sorted(Rb.InOrder(t.r))
    ensures t.l.Br? ==> t.l.k < t.k
  {
    T.SortedParts(Rb.InOrder(t.l), (t.k, t.d), Rb.InOrder(t.r));
    if t.l.Br? {
      assert Rb.InOrder(t.l)[|Rb.InOrder(t.l.l)|] == (t.l.k, t.l.d);
    }
  }

  // Collapse after red-black insertion is 2-3 insertion after collapse.
  lemma InsertCommutes(t: Rb.Tree, n: Rb.Node, key: int, d: Pointer, h: int)
    requires RbT.WellFormed(t, h) && key !in ToMap(Rb.InOrder(t))
    ensures Collapse(RbT.Insert(t, n, key, d)) == T.Insert(Collapse(t), key, d)
    ensures RbT.Splits(t, key) <==> T.Splits(Collapse(t), key)
  {
    hide Rb.InOrder, Sorted, ToMap, Rb.Plug, RbT.Seek, T.Seek, RbS.InsertUp, InsertUp;
    var c := RbT.Seek(Rb.Top, t, key).c;
    var x := Rb.Br(n, key, d, false, Rb.Leaf, Rb.Leaf);
    RbT.SeekFinds(t, key);
    Rb.UnplugRB(c, Rb.Leaf, h);
    CollapseSeek(Rb.Top, t, key, h);
    CollapseInsertUp(c, x, h - Rb.Blacks(c));
    CollapseFull(c, h - Rb.Blacks(c));
  }

  lemma {:induction false} CollapseFull(c: Rb.Ctx, h: int)
    requires Rb.CtxRB(c, h, false)
    ensures RbS.Full(c) <==> Full(CollapseCtx(c))
    decreases c
  {
    if c.Cx? {
      if c.red {
        assert Rb.CtxRB(c.up, h, true);
        CollapseFull(c.up.up, h + 1);
      } else {
        CollapseFull(c.up, h + 1);
      }
    }
  }
}
