/** lbs_23tree_fix_null_node chooses among the cases of TwoThreeDelete. */
module TwoThreeFix {
  import opened Entries
  import S = TwoThreeSpec
  import T = TwoThreeTheorems
  import opened TwoThreeHeap
  import opened TwoThreeDelete

  // The side of the hole, read off the parent's links.
  lemma Sides(c: Ctx, n: Node, x: Tree)
    requires !c.Top? && Apart(c, n, x) && OwnsCtx(c, n)
    requires c.C2? ==> !c.sib.Nil?
    requires c.C3? ==> !c.a.Nil? && !c.b.Nil?
    ensures c.n.lchild == n <==> (if c.C2? then c.left else c.pos == S.L)
    ensures c.n.rchild == n <==> (if c.C2? then !c.left else c.pos == S.R)
    ensures c.n.mchild == n <==> c.C3? && c.pos == S.M
  {
  }

  // The number of keys of the parent and of its children, read off the key fields.
  lemma Sizes(c: Ctx, n: Node, x: Tree, h: int)
    requires !c.Top? && OwnsCtx(c, n) && Sunk(c, x, h) && Keyed(c)
    ensures c.n.IsTri() <==> c.C3?
    ensures c.C2? ==> !c.sib.Nil? && (c.sib.n.IsTri() <==> c.sib.N3?)
    ensures c.C3? ==> !c.a.Nil? && !c.b.Nil? && (c.a.n.IsTri() <==> c.a.N3?) && (c.b.n.IsTri() <==> c.b.N3?)
  {
    hide S.Balanced, S.Fits, S.Before, S.After, S.InOrder, Foot, CFoot, Level, Erase, ErasePath;
    SunkLevel(c, x, h);
    CtxOwnsParts(c, n);
    if c.C2? {
      KeyedStep2(c);
      KeyedShape(c.sib);
      HoldsParts(c.sib);
    } else {
      KeyedStep3(c);
      KeyedShape(c.a);
      KeyedShape(c.b);
      HoldsParts(c.a);
      HoldsParts(c.b);
    }
  }

  lemma NearZone(c: Ctx, n: Node, x: Tree)
    requires !c.Top? && !Opened(c).Nil? && Apart(c, n, x)
    ensures {c.n, n} + Tip(x) + Reach(Opened(c)) <= Zone(c, n, x)
  {
    hide Sep, CSep;
    Zoned(c, n, x);
  }

  // One case.  It leaves a mended subtree, or a merged one below a parent without keys; spare is
  // the node to be freed, bro the root of the merged subtree.
  method MendStep(parent: Node, node: Node, ghost c: Ctx, ghost x: Tree, ghost h: int)
    returns (spare: Node?, bro: Node?)
    requires !c.Top? && parent == c.n
    requires Apart(c, node, x) && Hole(c, node, x) && Sunk(c, x, h) && Keyed(c)
    modifies Zone(c, node, x)`lkey, Zone(c, node, x)`lvalue, Zone(c, node, x)`rkey, Zone(c, node, x)`rvalue
    modifies Zone(c, node, x)`lchild, Zone(c, node, x)`mchild, Zone(c, node, x)`rchild, Zone(c, node, x)`parent
    ensures Lends(c) || Mergeable(c)
    ensures spare == if Lends(c) then null else Spare(c, node)
    ensures bro == null <==> Local(c)
    ensures OwnsCtx(c.up, parent)
    ensures Local(c) ==> Owns(Mended(c, node, x), Over(c.up))
    ensures !Local(c) ==>
      && bro == c.sib.n && Owns(Merge(c, x), parent) && parent.parent == Over(c.up)
      && parent.lkey == NO_KEY && parent.rkey == NO_KEY
      && (if c.left then Slots(parent, node, null, null, bro) else Slots(parent, bro, null, null, node))
  {
    hide Foot, CFoot, Sep, CSep, Under, Holds, OwnsCtx, Apart, Zone, Sunk, Keyed, Level, Slots, IsTwo, IsThree;
    SunkLevel(c, x, h);
    Sides(c, node, x);
    Sizes(c, node, x, h);
    NearZone(c, node, x);
    CtxOwnsParts(c, node);
    bro := null;
    spare := null;
    if node != parent.lchild {
      if node == parent.rchild {
        if parent.IsTri() {
          assert Slots(parent, Root(c.a), Root(c.b), null, node);
          var mid := parent.mchild;
          if mid.IsTri() {
            BorrowRight3(parent, node, mid, c, x);
          } else {
            ShrinkRight3(parent, node, mid, c, x);
            spare := node;
          }
        } else {
          var other := parent.lchild;
          if other.IsTri() {
            BorrowRight2(parent, node, other, c, x);
          } else {
            MergeRight2(parent, node, other, c, x);
            spare, bro := node, other;
          }
        }
      } else if node == parent.mchild {
        var right := parent.rchild;
        if right.IsTri() {
          BorrowMid3(parent, node, right, c, x);
        } else {
          ShrinkMid3(parent, node, right, c, x);
          spare := node;
        }
      }
    } else if parent.IsTri() {
      var mid := parent.mchild;
      if mid.IsTri() {
        BorrowLeft3(parent, node, mid, c, x);
      } else {
        ShrinkLeft3(parent, node, mid, c, x);
        spare := mid;
      }
    } else {
      var other := parent.rchild;
      if other.IsTri() {
        BorrowLeft2(parent, node, other, c, x);
      } else {
        MergeLeft2(parent, node, other, c, x);
        spare, bro := node, other;
      }
    }
  }
}
