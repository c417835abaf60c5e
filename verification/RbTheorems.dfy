/** Search paths, and the whole of insertion and removal on well-formed trees. */
module RbTheorems {
  import opened Entries
  import opened RbShape
  import opened RbSpec

  // The rules of the header for a whole tree of black height h.
  ghost predicate WellFormed(t: Tree, h: int)
  {
    RB(t, h) && !Red(t) && Sorted(InOrder(t)) && Sep(t)
  }

  datatype Place = Place(c: Ctx, t: Tree)

  // Where a search for key ends: at the node that holds it, or at the leaf where it belongs.
  ghost function Seek(c: Ctx, t: Tree, key: int): Place
    decreases t
  {
    if t.Leaf? || t.k == key then Place(c, t)
    else if t.k > key then Seek(Cx(t.n, t.k, t.d, t.red, true, t.r, c), t.l, key)
    else Seek(Cx(t.n, t.k, t.d, t.red, false, t.l, c), t.r, key)
  }

  lemma {:induction false} SeekPlace(c: Ctx, t: Tree, key: int)
    ensures var p := Seek(c, t, key); Plug(p.c, p.t) == Plug(c, t)
    decreases t
  {
    if t.Br? && t.k != key {
      if t.k > key {
        SeekPlace(Cx(t.n, t.k, t.d, t.red, true, t.r, c), t.l, key);
      } else {
        SeekPlace(Cx(t.n, t.k, t.d, t.red, false, t.l, c), t.r, key);
      }
    }
  }

  // The key lies between what is left and what is right of the place.
  lemma {:induction false} SeekBetween(c: Ctx, t: Tree, key: int)
    requires Sorted(InOrder(t)) && AllBelow(Before(c), key) && AllAbove(key, After(c))
    ensures var p := Seek(c, t, key); AllBelow(Before(p.c), key) && AllAbove(key, After(p.c))
    decreases t
  {
    if t.Br? && t.k != key {
      var s, l := InOrder(t), |InOrder(t.l)|;
      assert InOrder(t.l) == s[..l] && InOrder(t.r) == s[l + 1..] && s[l] == (t.k, t.d);
      if t.k > key {
        assert AllAbove(key, InOrder(t.r));
        SeekBetween(Cx(t.n, t.k, t.d, t.red, true, t.r, c), t.l, key);
      } else {
        assert AllBelow(InOrder(t.l), key);
        SeekBetween(Cx(t.n, t.k, t.d, t.red, false, t.l, c), t.r, key);
      }
    }
  }

  // The entries of a tree around the node at place (c, s).
  lemma PlaceInOrder(c: Ctx, s: Tree)
    requires s.Br?
    ensures InOrder(Plug(c, s)) ==
            (Before(c) + InOrder(s.l)) + [(s.k, s.d)] + (InOrder(s.r) + After(c))
  {
    PlugInOrder(c, s);
  }

  // A search ends at a node exactly when the key is bound, and that node holds its data.
  lemma SeekFinds(t: Tree, key: int)
    requires Sorted(InOrder(t))
    ensures var p := Seek(Top, t, key);
      && Plug(p.c, p.t) == t
      && (p.t.Br? <==> key in ToMap(InOrder(t)))
      && (p.t.Br? ==> p.t.k == key && p.t.d == ToMap(InOrder(t))[key])
  {
    var p := Seek(Top, t, key);
    SeekPlace(Top, t, key);
    SeekEnd(Top, t, key);
    if p.t.Br? {
      PlaceInOrder(p.c, p.t);
      SortedWithout(Before(p.c) + InOrder(p.t.l), (p.t.k, p.t.d), InOrder(p.t.r) + After(p.c));
    } else {
      SeekBetween(Top, t, key);
      PlugInOrder(p.c, p.t);
    }
  }

  lemma {:induction false} SeekEnd(c: Ctx, t: Tree, key: int)
    ensures var p := Seek(c, t, key); p.t.Br? ==> p.t.k == key
    decreases t
  {
    if t.Br? && t.k != key {
      if t.k > key {
        SeekEnd(Cx(t.n, t.k, t.d, t.red, true, t.r, c), t.l, key);
      } else {
        SeekEnd(Cx(t.n, t.k, t.d, t.red, false, t.l, c), t.r, key);
      }
    }
  }

  // ---------- insertion ----------

  // n is the new node.
  ghost function Insert(t: Tree, n: Node, key: int, d: Pointer): Tree
  {
    InsertUp(Seek(Top, t, key).c, Br(n, key, d, false, Leaf, Leaf))
  }

  // The root 3-node, and every 3-node on the way down to it, is full.
  ghost predicate Splits(t: Tree, key: int) { Full(Seek(Top, t, key).c) }

  lemma InsertShape(t: Tree, n: Node, key: int, d: Pointer, h: int)
    requires RB(t, h) && !Red(t)
    requires Seek(Top, t, key).t.Leaf?
    ensures var t' := Insert(t, n, key, d); var c := Seek(Top, t, key).c;
      && RB(t', if Splits(t, key) then h + 1 else h) && !Red(t')
      && InOrder(t') == Before(c) + [(key, d)] + After(c)
  {
    var c := Seek(Top, t, key).c;
    var x := Br(n, key, d, false, Leaf, Leaf);
    SeekPlace(Top, t, key);
    UnplugRB(c, Leaf, h);
    InsertUpRB(c, x, h - Blacks(c));
    InsertUpInOrder(c, x, h - Blacks(c));
    assert InOrder(x) == [(key, d)];
  }

  lemma InsertNodes(t: Tree, n: Node, key: int, d: Pointer)
    requires Sep(t) && n !in Foot(t)
    requires Seek(Top, t, key).t.Leaf?
    ensures var t' := Insert(t, n, key, d); Foot(t') == Foot(t) + {n} && Sep(t')
  {
    var c := Seek(Top, t, key).c;
    SeekPlace(Top, t, key);
    PlugFoot(c, Leaf);
    PlugSep(c, Leaf);
    InsertUpNodes(c, Br(n, key, d, false, Leaf, Leaf));
  }

  lemma InsertEntries(t: Tree, n: Node, key: int, d: Pointer, h: int)
    requires RB(t, h) && !Red(t) && Sorted(InOrder(t))
    requires key !in ToMap(InOrder(t))
    ensures var s, s' := InOrder(t), InOrder(Insert(t, n, key, d));
      Sorted(s') && ToMap(s') == ToMap(s)[key := d] && |s'| == |s| + 1
  {
    hide Sorted, ToMap, RB, Seek, InsertUp, Plug;
    var c := Seek(Top, t, key).c;
    SeekFinds(t, key);
    SeekBetween(Top, t, key);
    InsertShape(t, n, key, d, h);
    PlugInOrder(c, Leaf);
    var B, A := Before(c), After(c);
    assert InOrder(t) == B + A;
    SortedWith(B, (key, d), A);
  }

  lemma InsertTheorem(t: Tree, n: Node, key: int, d: Pointer, h: int)
    requires WellFormed(t, h) && n !in Foot(t)
    requires key !in ToMap(InOrder(t))
    ensures var t' := Insert(t, n, key, d);
      && WellFormed(t', if Splits(t, key) then h + 1 else h)
      && ToMap(InOrder(t')) == ToMap(InOrder(t))[key := d]
      && |InOrder(t')| == |InOrder(t)| + 1
      && Foot(t') == Foot(t) + {n}
  {
    SeekFinds(t, key);
    InsertShape(t, n, key, d, h);
    InsertEntries(t, n, key, d, h);
    InsertNodes(t, n, key, d);
  }

  // Replacing the data of the node at place (c, t) changes that one binding and nothing else.
  lemma UpdateTheorem(c: Ctx, t: Tree, d: Pointer, h: int)
    requires t.Br? && WellFormed(Plug(c, t), h)
    ensures var t' := Plug(c, t.(d := d));
      && WellFormed(t', h)
      && ToMap(InOrder(t')) == ToMap(InOrder(Plug(c, t)))[t.k := d]
      && |InOrder(t')| == |InOrder(Plug(c, t))|
      && Foot(t') == Foot(Plug(c, t)) && Root(t') == Root(Plug(c, t))
  {
    hide Plug, ToMap, Sorted, InOrder, AllBelow, AllAbove;
    UpdateShape(c, t, d, h);
    PlaceInOrder(c, t);
    PlaceInOrder(c, t.(d := d));
    var B, A := Before(c) + InOrder(t.l), InOrder(t.r) + After(c);
    SortedCut(B, (t.k, t.d), A);
    SortedWith(B, (t.k, t.d), A);
    SortedWith(B, (t.k, d), A);
  }

  lemma UpdateShape(c: Ctx, t: Tree, d: Pointer, h: int)
    requires t.Br? && RB(Plug(c, t), h) && !Red(Plug(c, t)) && Sep(Plug(c, t))
    ensures var t' := Plug(c, t.(d := d));
      RB(t', h) && !Red(t') && Sep(t') && Foot(t') == Foot(Plug(c, t)) && Root(t') == Root(Plug(c, t))
  {
    hide InOrder, Sorted;
    UnplugRB(c, t, h);
    PlugRB(c, t.(d := d), h - Blacks(c));
    PlugSep(c, t);
    PlugSep(c, t.(d := d));
    PlugFoot(c, t);
    PlugFoot(c, t.(d := d));
    PlugRoot(c, t);
    PlugRoot(c, t.(d := d));
  }

  // The topmost node of a context.
  ghost function Base(c: Ctx): Node?
  {
    if c.Top? then null else if c.up.Top? then c.n else Base(c.up)
  }

  lemma {:induction false} PlugRoot(c: Ctx, t: Tree)
    ensures Root(Plug(c, t)) == if c.Top? then Root(t) else Base(c)
    decreases c
  {
    if c.Cx? {
      PlugRoot(c.up, Fill(c, t));
    }
  }

  // ---------- removal ----------

  ghost function Min(t: Tree): Tree
    requires t.Br?
    ensures Min(t).Br? && Min(t).l.Leaf?
    decreases t
  {
    if t.l.Leaf? then t else Min(t.l)
  }

  ghost function MinCtx(t: Tree, c: Ctx): Ctx
    requires t.Br?
    decreases t
  {
    if t.l.Leaf? then c else MinCtx(t.l, Cx(t.n, t.k, t.d, t.red, true, t.r, c))
  }

  lemma {:induction false} MinPlace(t: Tree, c: Ctx)
    requires t.Br?
    ensures Plug(MinCtx(t, c), Min(t)) == Plug(c, t)
    ensures Before(MinCtx(t, c)) == Before(c)
    ensures [(Min(t).k, Min(t).d)] + InOrder(Min(t).r) + After(MinCtx(t, c)) == InOrder(t) + After(c)
    decreases t
  {
    if t.l.Br? {
      MinPlace(t.l, Cx(t.n, t.k, t.d, t.red, true, t.r, c));
    }
  }

  // The successor of the node at place (c, s), after its entry has moved into that node.
  ghost function SuccCtx(c: Ctx, s: Tree): Ctx
    requires s.Br? && s.r.Br?
  {
    MinCtx(s.r, Cx(s.n, Min(s.r).k, Min(s.r).d, s.red, false, s.l, c))
  }

  // The node at place (c, s) loses its key: its successor or its red child moves in, and the
  // node that is then empty leaves the tree.
  ghost function RemoveAt(c: Ctx, s: Tree): Removed
    requires s.Br?
  {
    if s.r.Br? then RemoveUp(SuccCtx(c, s), Min(s.r).n, Min(s.r).red, Leaf)
    else if Red(s.l) then Removed(Plug(c, Br(s.n, s.l.k, s.l.d, s.red, Leaf, Leaf)), s.l.n)
    else RemoveUp(c, s.n, s.red, Leaf)
  }

  ghost function Remove(t: Tree, key: int): Removed
    requires Seek(Top, t, key).t.Br?
  {
    RemoveAt(Seek(Top, t, key).c, Seek(Top, t, key).t)
  }

  // The lost key leaves a hole that cannot be refilled below the root.
  ghost predicate CollapsesAt(c: Ctx, s: Tree)
    requires s.Br?
  {
    if s.r.Br? then Shrinks(SuccCtx(c, s), Min(s.r).red)
    else !Red(s.l) && Shrinks(c, s.red)
  }

  ghost predicate Collapses(t: Tree, key: int)
    requires Seek(Top, t, key).t.Br?
  {
    CollapsesAt(Seek(Top, t, key).c, Seek(Top, t, key).t)
  }

  // A place whose subtree has no right (or no left) child is at the bottom of the tree.
  lemma BottomPlace(c: Ctx, s: Tree, h: int)
    requires s.Br? && RB(Plug(c, s), h) && !Red(Plug(c, s))
    ensures s.l.Leaf? ==> s.r.Leaf?
    ensures s.r.Leaf? ==> s.l.Leaf? || (s.l.red && s.l.l.Leaf? && s.l.r.Leaf?)
    ensures s.l.Leaf? ==> Underflow(c, s.red, Leaf, 0) && h == Blacks(c) + if s.red then 0 else 1
    ensures s.r.Leaf? && s.l.Br? ==> !s.red && h == Blacks(c) + 1 && CtxRB(c, 1, false)
  {
    UnplugRB(c, s, h);
    var ch := h - Blacks(c) - if s.red then 0 else 1;
    assert RB(s.l, ch) && RB(s.r, ch);
    RBHeight(s.r, ch);
    RBHeight(s.l, ch);
  }

  lemma SuccPlace(c: Ctx, s: Tree, h: int)
    requires s.Br? && s.r.Br? && RB(Plug(c, s), h) && !Red(Plug(c, s))
    ensures var m, u := Min(s.r), SuccCtx(c, s);
      && Underflow(u, m.red, Leaf, 0) && h == Blacks(u) + (if m.red then 0 else 1)
      && m.r.Leaf?
      && Plug(u, m) == Plug(c, Br(s.n, m.k, m.d, s.red, s.l, s.r))
  {
    hide InOrder, Before, After, Min, MinCtx;
    var m := Min(s.r);
    var x := Br(s.n, m.k, m.d, s.red, s.l, s.r);
    UnplugRB(c, s, h);
    PlugRB(c, x, h - Blacks(c));
    MinPlace(s.r, Cx(s.n, m.k, m.d, s.red, false, s.l, c));
    BottomPlace(SuccCtx(c, s), m, h);
  }

  lemma SuccInOrder(c: Ctx, s: Tree, h: int)
    requires s.Br? && s.r.Br? && RB(Plug(c, s), h) && !Red(Plug(c, s))
    ensures var u := SuccCtx(c, s);
      Before(u) + InOrder(Leaf) + After(u) == (Before(c) + InOrder(s.l)) + (InOrder(s.r) + After(c))
  {
    hide Min, MinCtx, RB, CtxRB;
    var m := Min(s.r);
    var up := Cx(s.n, m.k, m.d, s.red, false, s.l, c);
    SuccPlace(c, s, h);
    MinPlace(s.r, up);
    assert Before(up) == (Before(c) + InOrder(s.l)) + [(m.k, m.d)];
  }

  lemma SuccNodes(c: Ctx, s: Tree, h: int)
    requires s.Br? && s.r.Br? && RB(Plug(c, s), h) && !Red(Plug(c, s)) && Sep(Plug(c, s))
    ensures var m, u := Min(s.r), SuccCtx(c, s);
      Apart(u, m.n, Leaf) && CFoot(u) + {m.n} == Foot(Plug(c, s))
  {
    hide Min, MinCtx, RB, CtxRB, Plug, SuccCtx;
    var m, u := Min(s.r), SuccCtx(c, s);
    var x := Br(s.n, m.k, m.d, s.red, s.l, s.r);
    SuccPlace(c, s, h);
    PlugSep(c, s);
    PlugFoot(c, s);
    PlugSep(c, x);
    PlugFoot(c, x);
    PlugSep(u, m);
    PlugFoot(u, m);
    assert Foot(m) == {m.n};
  }

  lemma RemoveAtRB(c: Ctx, s: Tree, h: int)
    requires s.Br? && RB(Plug(c, s), h) && !Red(Plug(c, s))
    ensures var r := RemoveAt(c, s);
      RB(r.t, if CollapsesAt(c, s) then h - 1 else h) && !Red(r.t)
  {
    hide Min, SuccCtx, RemoveUp, Shrinks, Plug;
    if s.r.Br? {
      SuccPlace(c, s, h);
      RemoveUpRB(SuccCtx(c, s), Min(s.r).n, Min(s.r).red, Leaf, 0);
    } else {
      BottomPlace(c, s, h);
      if Red(s.l) {
        PlugRB(c, Br(s.n, s.l.k, s.l.d, s.red, Leaf, Leaf), 1);
      } else {
        RemoveUpRB(c, s.n, s.red, Leaf, 0);
      }
    }
  }

  lemma RemoveAtInOrder(c: Ctx, s: Tree, h: int)
    requires s.Br? && RB(Plug(c, s), h) && !Red(Plug(c, s))
    ensures InOrder(RemoveAt(c, s).t) == (Before(c) + InOrder(s.l)) + (InOrder(s.r) + After(c))
  {
    hide Min, SuccCtx, RemoveUp, RB, CtxRB, Plug;
    if s.r.Br? {
      SuccPlace(c, s, h);
      SuccInOrder(c, s, h);
      RemoveUpInOrder(SuccCtx(c, s), Min(s.r).n, Min(s.r).red, Leaf, 0);
    } else {
      BottomPlace(c, s, h);
      if Red(s.l) {
        PlugInOrder(c, Br(s.n, s.l.k, s.l.d, s.red, Leaf, Leaf));
        assert InOrder(s.l) == [(s.l.k, s.l.d)];
      } else {
        RemoveUpInOrder(c, s.n, s.red, Leaf, 0);
      }
    }
  }

  lemma RemoveAtNodes(c: Ctx, s: Tree, h: int)
    requires s.Br? && RB(Plug(c, s), h) && !Red(Plug(c, s)) && Sep(Plug(c, s))
    ensures var r := RemoveAt(c, s);
      Sep(r.t) && r.freed !in Foot(r.t) && Foot(r.t) + {r.freed} == Foot(Plug(c, s))
  {
    hide Min, SuccCtx, RemoveUp, RB, CtxRB, Plug;
    if s.r.Br? {
      SuccNodes(c, s, h);
      RemoveUpNodes(SuccCtx(c, s), Min(s.r).n, Min(s.r).red, Leaf);
    } else {
      BottomPlace(c, s, h);
      PlugSep(c, s);
      PlugFoot(c, s);
      if Red(s.l) {
        PlugFoot(c, Br(s.n, s.l.k, s.l.d, s.red, Leaf, Leaf));
        PlugSep(c, Br(s.n, s.l.k, s.l.d, s.red, Leaf, Leaf));
      } else {
        RemoveUpNodes(c, s.n, s.red, Leaf);
      }
    }
  }

  lemma RemoveTheorem(t: Tree, key: int, h: int)
    requires WellFormed(t, h)
    requires key in ToMap(InOrder(t))
    ensures var p := Seek(Top, t, key); p.t.Br? && p.t.k == key && p.t.d == ToMap(InOrder(t))[key]
    ensures var r := Remove(t, key);
      && WellFormed(r.t, if Collapses(t, key) then h - 1 else h)
      && ToMap(InOrder(r.t)) == ToMap(InOrder(t)) - {key}
      && |InOrder(r.t)| == |InOrder(t)| - 1
      && r.freed in Foot(t) && Foot(r.t) == Foot(t) - {r.freed}
  {
    hide Seek, RemoveAt, RB, Plug, Sorted, ToMap, InOrder, Foot, Sep;
    SeekFinds(t, key);
    var p := Seek(Top, t, key);
    RemoveAtRB(p.c, p.t, h);
    RemoveAtInOrder(p.c, p.t, h);
    RemoveAtNodes(p.c, p.t, h);
    PlaceInOrder(p.c, p.t);
    SortedWithout(Before(p.c) + InOrder(p.t.l), (p.t.k, p.t.d), InOrder(p.t.r) + After(p.c));
  }
}
