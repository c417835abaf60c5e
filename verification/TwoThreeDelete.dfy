/** The pointer steps of lbs_23tree_fix_null_node.  A node that lost its last key is a hole over a
    single subtree, its left child; each case moves keys and children as the code does. */
module TwoThreeDelete {
  import opened Entries
  import S = TwoThreeSpec
  import T = TwoThreeTheorems
  import opened TwoThreeHeap

  // The node n in the hole of c has no key and the single subtree x.
  ghost predicate Hole(c: Ctx, n: Node, x: Tree)
    reads CFoot(c), Foot(x), n
  {
    OwnsCtx(c, n) && Bare(n, x) && n.parent == Over(c)
  }

  ghost predicate Bare(n: Node, x: Tree)
    reads n`lkey, n`rkey, n`lchild, n`mchild, n`mchild2, n`rchild
    reads Foot(x)`lchild, Foot(x)`mchild, Foot(x)`mchild2, Foot(x)`rchild
    reads Foot(x)`lkey, Foot(x)`lvalue, Foot(x)`rkey, Foot(x)`rvalue, Foot(x)`parent
  {
    n.lkey == NO_KEY && n.rkey == NO_KEY && Slots(n, Root(x), null, null, null) && Owns(x, n)
  }

  // The nodes around the hole, n included, are pairwise different.
  ghost predicate Apart(c: Ctx, n: Node, x: Tree)
  {
    CSep(c) && Sep(x) && CFoot(c) !! Foot(x) && n !in CFoot(c) && n !in Foot(x)
  }

  // The children of t are there exactly when the hole has a subtree.
  ghost predicate Level(x: Tree, t: Tree)
  {
    match t
    case Nil => true
    case N2(_, _, _, l, r) => l.Nil? == x.Nil? && r.Nil? == x.Nil?
    case N3(_, _, _, _, _, l, m, r) => l.Nil? == x.Nil? && m.Nil? == x.Nil? && r.Nil? == x.Nil?
  }

  ghost function Only(n: Node?): set<Node> { if n == null then {} else {n} }

  ghost function Tip(t: Tree): set<Node> { if t.Nil? then {} else {t.n} }

  // The nodes ns, the trees and the context u do not overlap.
  ghost predicate Scatter(ns: set<Node>, a: Tree, b: Tree, c: Tree, d: Tree, e: Tree, u: Ctx)
  {
    && ns !! Foot(a) && ns !! Foot(b) && ns !! Foot(c) && ns !! Foot(d) && ns !! Foot(e) && ns !! CFoot(u)
    && Foot(a) !! Foot(b) && Foot(a) !! Foot(c) && Foot(a) !! Foot(d) && Foot(a) !! Foot(e)
    && Foot(b) !! Foot(c) && Foot(b) !! Foot(d) && Foot(b) !! Foot(e)
    && Foot(c) !! Foot(d) && Foot(c) !! Foot(e) && Foot(d) !! Foot(e)
    && CFoot(u) !! Foot(a) && CFoot(u) !! Foot(b) && CFoot(u) !! Foot(c) && CFoot(u) !! Foot(d)
    && CFoot(u) !! Foot(e)
    && Sep(a) && Sep(b) && Sep(c) && Sep(d) && Sep(e) && CSep(u)
  }

  // The children of a brother.
  ghost function Kid1(t: Tree): Tree { if t.Nil? then Nil else t.l }
  ghost function Kid2(t: Tree): Tree { if t.N3? then t.m else Nil }
  ghost function Kid3(t: Tree): Tree { if t.Nil? then Nil else t.r }

  lemma BrotherParts(t: Tree)
    requires !t.Nil? && Sep(t)
    ensures Foot(t) == {t.n} + Foot(Kid1(t)) + Foot(Kid2(t)) + Foot(Kid3(t))
    ensures t.n !in Foot(Kid1(t)) && t.n !in Foot(Kid2(t)) && t.n !in Foot(Kid3(t))
    ensures Foot(Kid1(t)) !! Foot(Kid2(t)) && Foot(Kid1(t)) !! Foot(Kid3(t)) && Foot(Kid2(t)) !! Foot(Kid3(t))
    ensures Sep(Kid1(t)) && Sep(Kid2(t)) && Sep(Kid3(t))
  {
  }

  lemma Scatter2(c: Ctx, n: Node, x: Tree)
    requires c.C2? && !c.sib.Nil? && Apart(c, n, x)
    ensures Scatter({c.n, n, c.sib.n}, x, Kid1(c.sib), Kid2(c.sib), Kid3(c.sib), Nil, c.up)
    ensures c.n != n && c.n != c.sib.n && n != c.sib.n
  {
    hide Foot, CFoot, Sep, CSep;
    NilParts();
    CtxParts2(c);
    BrotherParts(c.sib);
  }

  // s is the brother that is opened, o the other one.
  lemma Scatter3(c: Ctx, n: Node, x: Tree, s: Tree, o: Tree)
    requires c.C3? && !s.Nil? && Apart(c, n, x)
    requires (s == c.a && o == c.b) || (s == c.b && o == c.a)
    ensures Scatter({c.n, n, s.n}, x, Kid1(s), Kid2(s), Kid3(s), o, c.up)
    ensures c.n != n && c.n != s.n && n != s.n
  {
    hide Foot, CFoot, Sep, CSep;
    CtxParts3(c);
    BrotherParts(s);
  }

  // SET_LEFT_CHILD, SET_MID_CHILD and SET_RIGHT_CHILD: nothing happens for a null child.
  method SetLeft(parent: Node, child: Node?)
    modifies parent`lchild, Only(child)`parent
    ensures if child == null then parent.lchild == old(parent.lchild)
            else parent.lchild == child && child.parent == parent
  {
    if child != null {
      parent.lchild := child;
      child.parent := parent;
    }
  }

  method SetMid(parent: Node, child: Node?)
    modifies parent`mchild, Only(child)`parent
    ensures if child == null then parent.mchild == old(parent.mchild)
            else parent.mchild == child && child.parent == parent
  {
    if child != null {
      parent.mchild := child;
      child.parent := parent;
    }
  }

  method SetRight(parent: Node, child: Node?)
    modifies parent`rchild, Only(child)`parent
    ensures if child == null then parent.rchild == old(parent.rchild)
            else parent.rchild == child && child.parent == parent
  {
    if child != null {
      parent.rchild := child;
      child.parent := parent;
    }
  }

  // ---------- what each case makes of the nodes around the hole ----------

  ghost predicate Lends(c: Ctx)
  {
    match c
    case Top => false
    case C2(_, _, _, _, s, _) => s.N3?
    case C3(_, _, _, _, _, pos, a, b, _) => if pos == S.L then a.N3? else b.N3?
  }

  ghost function Borrow(c: Ctx, n: Node, x: Tree): Tree
    requires Lends(c)
  {
    match c
    case C2(p, k, v, left, s, _) =>
      if left then N2(p, s.k1, s.v1, N2(n, k, v, x, s.l), N2(s.n, s.k2, s.v2, s.m, s.r))
      else N2(p, s.k2, s.v2, N2(s.n, s.k1, s.v1, s.l, s.m), N2(n, k, v, s.r, x))
    case C3(p, k1, v1, k2, v2, pos, a, b, _) =>
      match pos
      case L => N3(p, a.k1, a.v1, k2, v2, N2(n, k1, v1, x, a.l), N2(a.n, a.k2, a.v2, a.m, a.r), b)
      case M => N3(p, k1, v1, b.k1, b.v1, a, N2(n, k2, v2, x, b.l), N2(b.n, b.k2, b.v2, b.m, b.r))
      case R => N3(p, k1, v1, b.k2, b.v2, a, N2(b.n, b.k1, b.v1, b.l, b.m), N2(n, k2, v2, b.r, x))
  }

  ghost predicate Mergeable(c: Ctx)
  {
    match c
    case Top => false
    case C2(_, _, _, _, s, _) => s.N2?
    case C3(_, _, _, _, _, pos, a, b, _) => if pos == S.L then a.N2? else b.N2?
  }

  ghost function Shrink(c: Ctx, n: Node, x: Tree): Tree
    requires c.C3? && Mergeable(c)
  {
    var a, b := c.a, c.b;
    match c.pos
    case L => N2(c.n, c.k2, c.v2, N3(n, c.k1, c.v1, a.k, a.v, x, a.l, a.r), b)
    case M => N2(c.n, c.k1, c.v1, a, N3(b.n, c.k2, c.v2, b.k, b.v, x, b.l, b.r))
    case R => N2(c.n, c.k1, c.v1, a, N3(b.n, b.k, b.v, c.k2, c.v2, b.l, b.r, x))
  }

  // The node a merge hands to free.
  ghost function Spare(c: Ctx, n: Node): Node
    requires Mergeable(c)
  {
    if c.C3? && c.pos == S.L then c.a.n else n
  }

  ghost function Merge(c: Ctx, x: Tree): Tree
    requires c.C2? && Mergeable(c)
  {
    var s := c.sib;
    if c.left then N3(s.n, c.k, c.v, s.k, s.v, x, s.l, s.r) else N3(s.n, s.k, s.v, c.k, c.v, s.l, s.r, x)
  }

  lemma EraseCases(c: Ctx, n: Node, x: Tree)
    ensures Lends(c) <==> S.Lends(ErasePath(c))
    ensures Mergeable(c) <==> S.Mergeable(ErasePath(c))
    ensures Lends(c) ==> Erase(Borrow(c, n, x)) == S.Borrow(ErasePath(c), Erase(x))
    ensures Mergeable(c) && c.C3? ==> Erase(Shrink(c, n, x)) == S.Shrink(ErasePath(c), Erase(x))
    ensures Mergeable(c) && c.C2? ==> Erase(Merge(c, x)) == S.Merge(ErasePath(c), Erase(x))
  {
  }

  // ---------- parent is a 2-node, the hole on its left ----------

  method BorrowLeft2Links(parent: Node, node: Node, bro: Node)
    requires parent != node && parent != bro && node != bro
    requires bro.lchild !in {parent, node, bro} && bro.mchild !in {parent, node, bro}
    requires node.lchild == null ==> node.rchild == bro.lchild == bro.mchild == null
    requires node.lchild != null ==> bro.lchild != null && bro.mchild != null
    modifies parent`lkey, parent`lvalue, node`lkey, node`lvalue, bro`lkey, bro`lvalue, bro`rkey, bro`rvalue
    modifies node`rchild, bro`lchild, bro`mchild, Only(bro.lchild)`parent
    ensures node.lkey == old(parent.lkey) && node.lvalue == old(parent.lvalue)
    ensures parent.lkey == old(bro.lkey) && parent.lvalue == old(bro.lvalue)
    ensures bro.lkey == old(bro.rkey) && bro.lvalue == old(bro.rvalue) && bro.rkey == old(node.lkey)
    ensures node.rchild == old(bro.lchild) && bro.lchild == old(bro.mchild) && bro.mchild == null
    ensures node.rchild != null ==> node.rchild.parent == node
  {
    node.lkey, parent.lkey := parent.lkey, node.lkey;
    node.lvalue, parent.lvalue := parent.lvalue, node.lvalue;
    parent.lkey, bro.lkey := bro.lkey, parent.lkey;
    parent.lvalue, bro.lvalue := bro.lvalue, parent.lvalue;
    bro.lkey, bro.rkey := bro.rkey, bro.lkey;
    bro.lvalue, bro.rvalue := bro.rvalue, bro.lvalue;
    if !node.IsLeaf() {
      node.rchild := bro.lchild;
      bro.lchild.parent := node;
      bro.lchild := bro.mchild;
      bro.mchild := null;
    }
  }

  method BorrowLeft2(parent: Node, node: Node, bro: Node, ghost c: Ctx, ghost x: Tree)
    requires c.C2? && c.left && c.sib.N3? && parent == c.n && bro == c.sib.n
    requires Apart(c, node, x) && Hole(c, node, x) && Level(x, c.sib)
    modifies parent`lkey, parent`lvalue, node`lkey, node`lvalue, bro`lkey, bro`lvalue, bro`rkey, bro`rvalue
    modifies node`rchild, bro`lchild, bro`mchild, Tip(c.sib.l)`parent
    ensures Owns(Borrow(c, node, x), Over(c.up)) && OwnsCtx(c.up, parent)
  {
    hide Foot, CFoot, Sep, CSep, Under, Holds, OwnsCtx;
    ghost var s := c.sib;
    Scatter2(c, node, x);
    CtxOwnsParts(c, node);
    HoldsParts(s);
    Rooted(s.l);
    Rooted(s.m);
    assert allocated(Foot(x)) && allocated(Foot(s.m)) && allocated(Foot(s.r)) && allocated(CFoot(c.up));
    assert allocated(Foot(s.l)) && allocated(Under(s.l));
    BorrowLeft2Links(parent, node, bro);
    HoldsMake(N2(node, c.k, c.v, x, s.l));
    HoldsMake(N2(bro, s.k2, s.v2, s.m, s.r));
    HoldsMake(Borrow(c, node, x));
  }

  method MergeLeft2Links(parent: Node, node: Node, bro: Node)
    requires parent != node && parent != bro && node != bro
    requires node.lchild !in {parent, node, bro}
    requires node.lchild == null ==> bro.lchild == bro.mchild == null
    modifies parent`lkey, parent`lvalue, bro`lkey, bro`lvalue, bro`rkey, bro`rvalue
    modifies bro`mchild, bro`lchild, Only(node.lchild)`parent
    ensures parent.lkey == old(bro.rkey)
    ensures bro.lkey == old(parent.lkey) && bro.lvalue == old(parent.lvalue)
    ensures bro.rkey == old(bro.lkey) && bro.rvalue == old(bro.lvalue)
    ensures bro.mchild == old(bro.lchild) && bro.lchild == node.lchild
    ensures bro.lchild != null ==> bro.lchild.parent == bro
  {
    bro.lkey, bro.rkey := bro.rkey, bro.lkey;
    bro.lvalue, bro.rvalue := bro.rvalue, bro.lvalue;
    parent.lkey, bro.lkey := bro.lkey, parent.lkey;
    parent.lvalue, bro.lvalue := bro.lvalue, parent.lvalue;
    if !node.IsLeaf() {
      bro.mchild := bro.lchild;
      bro.lchild := node.lchild;
      bro.lchild.parent := bro;
    }
  }

  // The merged 3-node is complete; the links of the parent are set by the caller.
  method MergeLeft2(parent: Node, node: Node, bro: Node, ghost c: Ctx, ghost x: Tree)
    requires c.C2? && c.left && c.sib.N2? && parent == c.n && bro == c.sib.n
    requires Apart(c, node, x) && Hole(c, node, x) && Level(x, c.sib)
    modifies parent`lkey, parent`lvalue, bro`lkey, bro`lvalue, bro`rkey, bro`rvalue
    modifies bro`mchild, bro`lchild, Tip(x)`parent
    ensures Owns(Merge(c, x), parent) && OwnsCtx(c.up, parent) && parent.parent == Over(c.up)
    ensures parent.lkey == NO_KEY && parent.rkey == NO_KEY && Slots(parent, node, null, null, bro)
  {
    hide Foot, CFoot, Sep, CSep, Under, Holds, OwnsCtx;
    ghost var s := c.sib;
    Scatter2(c, node, x);
    CtxOwnsParts(c, node);
    HoldsParts(s);
    Rooted(x);
    assert allocated(Foot(s.l)) && allocated(Foot(s.r)) && allocated(CFoot(c.up));
    assert allocated(Foot(x)) && allocated(Under(x));
    MergeLeft2Links(parent, node, bro);
    HoldsMake(Merge(c, x));
  }

  // ---------- parent is a 2-node, the hole on its right ----------

  method BorrowRight2Links(parent: Node, node: Node, bro: Node)
    requires parent != node && parent != bro && node != bro
    requires node.lchild !in {parent, node, bro} && bro.rchild !in {parent, node, bro}
    requires bro.mchild !in {parent, node, bro} && bro.mchild !in {node.lchild, bro.rchild} - {null}
    requires node.lchild != null ==> node.lchild != bro.rchild
    requires node.lchild == null ==> node.rchild == bro.lchild == bro.mchild == bro.rchild == null
    requires node.lchild != null ==> bro.mchild != null && bro.rchild != null
    modifies parent`lkey, parent`lvalue, parent`rkey, parent`rvalue
    modifies node`lkey, node`lvalue, node`rkey, node`rvalue, bro`rkey, bro`rvalue
    modifies node`lchild, node`rchild, bro`rchild, bro`mchild
    modifies Only(node.lchild)`parent, Only(bro.rchild)`parent, Only(bro.mchild)`parent
    ensures node.lkey == old(parent.lkey) && node.lvalue == old(parent.lvalue) && node.rkey == old(parent.rkey)
    ensures parent.lkey == old(bro.rkey) && parent.lvalue == old(bro.rvalue) && parent.rkey == old(node.rkey)
    ensures bro.rkey == old(node.lkey)
    ensures node.rchild == old(node.lchild) && node.lchild == old(bro.rchild)
    ensures bro.rchild == old(bro.mchild) && bro.mchild == null
    ensures node.rchild != null ==> node.rchild.parent == node
    ensures node.lchild != null ==> node.lchild.parent == node
    ensures bro.rchild != null ==> bro.rchild.parent == bro
  {
    parent.lkey, node.lkey := node.lkey, parent.lkey;
    parent.lvalue, node.lvalue := node.lvalue, parent.lvalue;
    parent.rkey, node.rkey := node.rkey, parent.rkey;
    parent.rvalue, node.rvalue := node.rvalue, parent.rvalue;
    parent.lkey, bro.rkey := bro.rkey, parent.lkey;
    parent.lvalue, bro.rvalue := bro.rvalue, parent.lvalue;
    if !node.IsLeaf() {
      SetRight(node, node.lchild);
      SetLeft(node, bro.rchild);
      SetRight(bro, bro.mchild);
      bro.mchild := null;
    }
  }

  method BorrowRight2(parent: Node, node: Node, bro: Node, ghost c: Ctx, ghost x: Tree)
    requires c.C2? && !c.left && c.sib.N3? && parent == c.n && bro == c.sib.n
    requires Apart(c, node, x) && Hole(c, node, x) && Level(x, c.sib)
    modifies parent`lkey, parent`lvalue, parent`rkey, parent`rvalue
    modifies node`lkey, node`lvalue, node`rkey, node`rvalue, bro`rkey, bro`rvalue
    modifies node`lchild, node`rchild, bro`rchild, bro`mchild
    modifies Tip(x)`parent, Tip(c.sib.r)`parent, Tip(c.sib.m)`parent
    ensures Owns(Borrow(c, node, x), Over(c.up)) && OwnsCtx(c.up, parent)
  {
    hide Foot, CFoot, Sep, CSep, Under, Holds, OwnsCtx;
    ghost var s := c.sib;
    Scatter2(c, node, x);
    CtxOwnsParts(c, node);
    HoldsParts(s);
    Rooted(x);
    Rooted(s.m);
    Rooted(s.r);
    assert allocated(Foot(s.l)) && allocated(CFoot(c.up)) && allocated(Foot(x)) && allocated(Under(x));
    assert allocated(Foot(s.m)) && allocated(Under(s.m)) && allocated(Foot(s.r)) && allocated(Under(s.r));
    BorrowRight2Links(parent, node, bro);
    HoldsMake(N2(bro, s.k1, s.v1, s.l, s.m));
    HoldsMake(N2(node, c.k, c.v, s.r, x));
    HoldsMake(Borrow(c, node, x));
  }

  method MergeRight2Links(parent: Node, node: Node, bro: Node)
    requires parent != node && parent != bro && node != bro
    requires node.lchild !in {parent, node, bro} && bro.rchild !in {parent, node, bro}
    requires node.lchild != null ==> node.lchild != bro.rchild && bro.rchild != null
    requires node.lchild == null ==> bro.mchild == bro.rchild == null
    modifies parent`lkey, parent`lvalue, bro`rkey, bro`rvalue
    modifies bro`mchild, bro`rchild, Only(node.lchild)`parent, Only(bro.rchild)`parent
    ensures parent.lkey == old(bro.rkey)
    ensures bro.rkey == old(parent.lkey) && bro.rvalue == old(parent.lvalue)
    ensures bro.mchild == old(bro.rchild) && bro.rchild == node.lchild
    ensures bro.mchild != null ==> bro.mchild.parent == bro
    ensures bro.rchild != null ==> bro.rchild.parent == bro
  {
    bro.rkey, parent.lkey := parent.lkey, bro.rkey;
    bro.rvalue, parent.lvalue := parent.lvalue, bro.rvalue;
    if !node.IsLeaf() {
      SetMid(bro, bro.rchild);
      SetRight(bro, node.lchild);
    }
  }

  method MergeRight2(parent: Node, node: Node, bro: Node, ghost c: Ctx, ghost x: Tree)
    requires c.C2? && !c.left && c.sib.N2? && parent == c.n && bro == c.sib.n
    requires Apart(c, node, x) && Hole(c, node, x) && Level(x, c.sib)
    modifies parent`lkey, parent`lvalue, bro`rkey, bro`rvalue
    modifies bro`mchild, bro`rchild, Tip(x)`parent, Tip(c.sib.r)`parent
    ensures Owns(Merge(c, x), parent) && OwnsCtx(c.up, parent) && parent.parent == Over(c.up)
    ensures parent.lkey == NO_KEY && parent.rkey == NO_KEY && Slots(parent, bro, null, null, node)
  {
    hide Foot, CFoot, Sep, CSep, Under, Holds, OwnsCtx;
    ghost var s := c.sib;
    Scatter2(c, node, x);
    CtxOwnsParts(c, node);
    HoldsParts(s);
    Rooted(x);
    Rooted(s.r);
    assert allocated(Foot(s.l)) && allocated(CFoot(c.up)) && allocated(Foot(x)) && allocated(Under(x));
    assert allocated(Foot(s.r)) && allocated(Under(s.r));
    MergeRight2Links(parent, node, bro);
    HoldsMake(Merge(c, x));
  }

  // ---------- parent is a 3-node, the hole on its left ----------

  method BorrowLeft3Links(parent: Node, node: Node, mid: Node)
    requires parent != node && parent != mid && node != mid
    requires mid.lchild !in {parent, node, mid} && mid.mchild !in {parent, node, mid}
    requires mid.lchild != null ==> mid.lchild != mid.mchild
    requires node.lchild == null ==> node.rchild == mid.lchild == mid.mchild == null
    requires node.lchild != null ==> mid.lchild != null && mid.mchild != null
    modifies parent`lkey, parent`lvalue, node`lkey, node`lvalue, mid`lkey, mid`lvalue, mid`rkey, mid`rvalue
    modifies node`rchild, mid`lchild, mid`mchild, Only(mid.lchild)`parent, Only(mid.mchild)`parent
    ensures node.lkey == old(parent.lkey) && node.lvalue == old(parent.lvalue)
    ensures parent.lkey == old(mid.lkey) && parent.lvalue == old(mid.lvalue)
    ensures mid.lkey == old(mid.rkey) && mid.lvalue == old(mid.rvalue) && mid.rkey == old(node.lkey)
    ensures node.rchild == old(mid.lchild) && mid.lchild == old(mid.mchild) && mid.mchild == null
    ensures node.rchild != null ==> node.rchild.parent == node
    ensures mid.lchild != null ==> mid.lchild.parent == mid
  {
    parent.lkey, node.lkey := node.lkey, parent.lkey;
    parent.lvalue, node.lvalue := node.lvalue, parent.lvalue;
    parent.lkey, mid.lkey := mid.lkey, parent.lkey;
    parent.lvalue, mid.lvalue := mid.lvalue, parent.lvalue;
    mid.lkey, mid.rkey := mid.rkey, mid.lkey;
    mid.lvalue, mid.rvalue := mid.rvalue, mid.lvalue;
    if !node.IsLeaf() {
      SetRight(node, mid.lchild);
      SetLeft(mid, mid.mchild);
      mid.mchild := null;
    }
  }

  method BorrowLeft3(parent: Node, node: Node, mid: Node, ghost c: Ctx, ghost x: Tree)
    requires c.C3? && c.pos == S.L && c.a.N3? && parent == c.n && mid == c.a.n
    requires Apart(c, node, x) && Hole(c, node, x) && Level(x, c.a)
    modifies parent`lkey, parent`lvalue, node`lkey, node`lvalue, mid`lkey, mid`lvalue, mid`rkey, mid`rvalue
    modifies node`rchild, mid`lchild, mid`mchild, Tip(c.a.l)`parent, Tip(c.a.m)`parent
    ensures Owns(Borrow(c, node, x), Over(c.up)) && OwnsCtx(c.up, parent)
  {
    hide Foot, CFoot, Sep, CSep, Under, Holds, OwnsCtx;
    ghost var s := c.a;
    Scatter3(c, node, x, s, c.b);
    CtxOwnsParts(c, node);
    HoldsParts(s);
    Rooted(s.l);
    Rooted(s.m);
    assert allocated(Foot(x)) && allocated(Foot(s.r)) && allocated(Foot(c.b)) && allocated(CFoot(c.up));
    assert allocated(Foot(s.l)) && allocated(Under(s.l)) && allocated(Foot(s.m)) && allocated(Under(s.m));
    BorrowLeft3Links(parent, node, mid);
    HoldsMake(N2(node, c.k1, c.v1, x, s.l));
    HoldsMake(N2(mid, s.k2, s.v2, s.m, s.r));
    HoldsMake(Borrow(c, node, x));
  }

  method ShrinkLeft3Links(parent: Node, node: Node, mid: Node)
    requires parent != node && parent != mid && node != mid
    requires mid.lchild !in {parent, node, mid} && mid.rchild !in {parent, node, mid}
    requires mid.lchild != null ==> mid.lchild != mid.rchild
    requires node.lchild == null ==> node.mchild == node.rchild == mid.lchild == mid.rchild == null
    requires node.lchild != null ==> mid.lchild != null && mid.rchild != null
    modifies parent`lkey, parent`lvalue, parent`rkey, parent`rvalue
    modifies node`lkey, node`lvalue, node`rkey, node`rvalue, mid`lkey, mid`lvalue
    modifies node`mchild, node`rchild, parent`mchild, Only(mid.lchild)`parent, Only(mid.rchild)`parent
    ensures node.lkey == old(parent.lkey) && node.lvalue == old(parent.lvalue)
    ensures node.rkey == old(mid.lkey) && node.rvalue == old(mid.lvalue)
    ensures parent.lkey == old(parent.rkey) && parent.lvalue == old(parent.rvalue) && parent.rkey == old(node.lkey)
    ensures node.mchild == old(mid.lchild) && node.rchild == old(mid.rchild) && parent.mchild == null
    ensures node.mchild != null ==> node.mchild.parent == node
    ensures node.rchild != null ==> node.rchild.parent == node
  {
    node.lkey, parent.lkey := parent.lkey, node.lkey;
    node.lvalue, parent.lvalue := parent.lvalue, node.lvalue;
    parent.lkey, parent.rkey := parent.rkey, parent.lkey;
    parent.lvalue, parent.rvalue := parent.rvalue, parent.lvalue;
    node.rkey, mid.lkey := mid.lkey, node.rkey;
    node.rvalue, mid.lvalue := mid.lvalue, node.rvalue;
    if !node.IsLeaf() {
      node.mchild := mid.lchild;
      node.rchild := mid.rchild;
      mid.lchild.parent := node;
      mid.rchild.parent := node;
    }
    parent.mchild := null;
  }

  // The one merge that keeps the hole and frees the brother.
  method ShrinkLeft3(parent: Node, node: Node, mid: Node, ghost c: Ctx, ghost x: Tree)
    requires c.C3? && c.pos == S.L && c.a.N2? && parent == c.n && mid == c.a.n
    requires Apart(c, node, x) && Hole(c, node, x) && Level(x, c.a)
    modifies parent`lkey, parent`lvalue, parent`rkey, parent`rvalue
    modifies node`lkey, node`lvalue, node`rkey, node`rvalue, mid`lkey, mid`lvalue
    modifies node`mchild, node`rchild, parent`mchild, Tip(c.a.l)`parent, Tip(c.a.r)`parent
    ensures Owns(Shrink(c, node, x), Over(c.up)) && OwnsCtx(c.up, parent)
  {
    hide Foot, CFoot, Sep, CSep, Under, Holds, OwnsCtx;
    ghost var s := c.a;
    Scatter3(c, node, x, s, c.b);
    CtxOwnsParts(c, node);
    HoldsParts(s);
    Rooted(s.l);
    Rooted(s.r);
    assert allocated(Foot(x)) && allocated(Foot(c.b)) && allocated(CFoot(c.up));
    assert allocated(Foot(s.l)) && allocated(Under(s.l)) && allocated(Foot(s.r)) && allocated(Under(s.r));
    ShrinkLeft3Links(parent, node, mid);
    HoldsMake(N3(node, c.k1, c.v1, s.k, s.v, x, s.l, s.r));
    HoldsMake(Shrink(c, node, x));
  }

  // ---------- parent is a 3-node, the hole in its middle: the right brother helps ----------

  method BorrowMid3Links(parent: Node, node: Node, bro: Node)
    requires parent != node && parent != bro && node != bro
    requires bro.lchild !in {parent, node, bro} && bro.mchild !in {parent, node, bro}
    requires bro.lchild != null ==> bro.lchild != bro.mchild
    requires node.lchild == null ==> node.rchild == bro.lchild == bro.mchild == null
    requires node.lchild != null ==> bro.lchild != null && bro.mchild != null
    modifies parent`rkey, parent`rvalue, node`lkey, node`lvalue, bro`lkey, bro`lvalue, bro`rkey, bro`rvalue
    modifies node`rchild, bro`lchild, bro`mchild, Only(bro.lchild)`parent, Only(bro.mchild)`parent
    ensures node.lkey == old(parent.rkey) && node.lvalue == old(parent.rvalue)
    ensures parent.rkey == old(bro.lkey) && parent.rvalue == old(bro.lvalue)
    ensures bro.lkey == old(bro.rkey) && bro.lvalue == old(bro.rvalue) && bro.rkey == old(node.lkey)
    ensures node.rchild == old(bro.lchild) && bro.lchild == old(bro.mchild) && bro.mchild == null
    ensures node.rchild != null ==> node.rchild.parent == node
    ensures bro.lchild != null ==> bro.lchild.parent == bro
  {
    parent.rkey, node.lkey := node.lkey, parent.rkey;
    parent.rvalue, node.lvalue := node.lvalue, parent.rvalue;
    parent.rkey, bro.lkey := bro.lkey, parent.rkey;
    parent.rvalue, bro.lvalue := bro.lvalue, parent.rvalue;
    bro.lkey, bro.rkey := bro.rkey, bro.lkey;
    bro.lvalue, bro.rvalue := bro.rvalue, bro.lvalue;
    if !node.IsLeaf() {
      SetRight(node, bro.lchild);
      SetLeft(bro, bro.mchild);
      bro.mchild := null;
    }
  }

  method BorrowMid3(parent: Node, node: Node, bro: Node, ghost c: Ctx, ghost x: Tree)
    requires c.C3? && c.pos == S.M && c.b.N3? && parent == c.n && bro == c.b.n
    requires Apart(c, node, x) && Hole(c, node, x) && Level(x, c.b)
    modifies parent`rkey, parent`rvalue, node`lkey, node`lvalue, bro`lkey, bro`lvalue, bro`rkey, bro`rvalue
    modifies node`rchild, bro`lchild, bro`mchild, Tip(c.b.l)`parent, Tip(c.b.m)`parent
    ensures Owns(Borrow(c, node, x), Over(c.up)) && OwnsCtx(c.up, parent)
  {
    hide Foot, CFoot, Sep, CSep, Under, Holds, OwnsCtx;
    ghost var s := c.b;
    Scatter3(c, node, x, s, c.a);
    CtxOwnsParts(c, node);
    HoldsParts(s);
    Rooted(s.l);
    Rooted(s.m);
    assert allocated(Foot(x)) && allocated(Foot(s.r)) && allocated(Foot(c.a)) && allocated(CFoot(c.up));
    assert allocated(Foot(s.l)) && allocated(Under(s.l)) && allocated(Foot(s.m)) && allocated(Under(s.m));
    BorrowMid3Links(parent, node, bro);
    HoldsMake(N2(node, c.k2, c.v2, x, s.l));
    HoldsMake(N2(bro, s.k2, s.v2, s.m, s.r));
    HoldsMake(Borrow(c, node, x));
  }

  method ShrinkMid3Links(parent: Node, node: Node, bro: Node)
    requires parent != node && parent != bro && node != bro
    requires bro.lchild !in {parent, node, bro} && node.lchild !in {parent, node, bro}
    requires node.lchild != null ==> node.lchild != bro.lchild && bro.lchild != null
    requires node.lchild == null ==> bro.mchild == bro.lchild == null
    modifies parent`rkey, parent`rvalue, bro`lkey, bro`lvalue, bro`rkey, bro`rvalue
    modifies parent`mchild, bro`mchild, bro`lchild, Only(bro.lchild)`parent, Only(node.lchild)`parent
    ensures bro.lkey == old(parent.rkey) && bro.lvalue == old(parent.rvalue)
    ensures bro.rkey == old(bro.lkey) && bro.rvalue == old(bro.lvalue) && parent.rkey == old(bro.rkey)
    ensures parent.mchild == null && bro.mchild == old(bro.lchild) && bro.lchild == node.lchild
    ensures bro.mchild != null ==> bro.mchild.parent == bro
    ensures bro.lchild != null ==> bro.lchild.parent == bro
  {
    bro.lkey, bro.rkey := bro.rkey, bro.lkey;
    bro.lvalue, bro.rvalue := bro.rvalue, bro.lvalue;
    parent.rkey, bro.lkey := bro.lkey, parent.rkey;
    parent.rvalue, bro.lvalue := bro.lvalue, parent.rvalue;
    parent.mchild := null;
    if !node.IsLeaf() {
      SetMid(bro, bro.lchild);
      SetLeft(bro, node.lchild);
    }
  }

  method ShrinkMid3(parent: Node, node: Node, bro: Node, ghost c: Ctx, ghost x: Tree)
    requires c.C3? && c.pos == S.M && c.b.N2? && parent == c.n && bro == c.b.n
    requires Apart(c, node, x) && Hole(c, node, x) && Level(x, c.b)
    modifies parent`rkey, parent`rvalue, bro`lkey, bro`lvalue, bro`rkey, bro`rvalue
    modifies parent`mchild, bro`mchild, bro`lchild, Tip(c.b.l)`parent, Tip(x)`parent
    ensures Owns(Shrink(c, node, x), Over(c.up)) && OwnsCtx(c.up, parent)
  {
    hide Foot, CFoot, Sep, CSep, Under, Holds, OwnsCtx;
    ghost var s := c.b;
    Scatter3(c, node, x, s, c.a);
    CtxOwnsParts(c, node);
    HoldsParts(s);
    Rooted(s.l);
    Rooted(x);
    assert allocated(Foot(s.r)) && allocated(Foot(c.a)) && allocated(CFoot(c.up));
    assert allocated(Foot(s.l)) && allocated(Under(s.l)) && allocated(Foot(x)) && allocated(Under(x));
    ShrinkMid3Links(parent, node, bro);
    HoldsMake(N3(bro, c.k2, c.v2, s.k, s.v, x, s.l, s.r));
    HoldsMake(Shrink(c, node, x));
  }

  // ---------- parent is a 3-node, the hole on its right: the middle brother helps ----------

  method BorrowRight3Links(parent: Node, node: Node, mid: Node)
    requires parent != node && parent != mid && node != mid
    requires node.lchild !in {parent, node, mid} && mid.rchild !in {parent, node, mid}
    requires mid.mchild !in {parent, node, mid} && mid.mchild !in {node.lchild, mid.rchild} - {null}
    requires node.lchild != null ==> node.lchild != mid.rchild
    requires node.lchild == null ==> node.rchild == mid.lchild == mid.mchild == mid.rchild == null
    requires node.lchild != null ==> mid.mchild != null && mid.rchild != null
    modifies parent`rkey, parent`rvalue, node`lkey, node`lvalue, mid`rkey, mid`rvalue
    modifies node`lchild, node`rchild, mid`rchild, mid`mchild
    modifies Only(node.lchild)`parent, Only(mid.rchild)`parent, Only(mid.mchild)`parent
    ensures node.lkey == old(parent.rkey) && node.lvalue == old(parent.rvalue)
    ensures parent.rkey == old(mid.rkey) && parent.rvalue == old(mid.rvalue) && mid.rkey == old(node.lkey)
    ensures node.rchild == old(node.lchild) && node.lchild == old(mid.rchild)
    ensures mid.rchild == old(mid.mchild) && mid.mchild == null
    ensures node.rchild != null ==> node.rchild.parent == node
    ensures node.lchild != null ==> node.lchild.parent == node
    ensures mid.rchild != null ==> mid.rchild.parent == mid
  {
    parent.rkey, node.lkey := node.lkey, parent.rkey;
    parent.rvalue, node.lvalue := node.lvalue, parent.rvalue;
    mid.rkey, parent.rkey := parent.rkey, mid.rkey;
    mid.rvalue, parent.rvalue := parent.rvalue, mid.rvalue;
    if !node.IsLeaf() {
      SetRight(node, node.lchild);
      SetLeft(node, mid.rchild);
      SetRight(mid, mid.mchild);
      mid.mchild := null;
    }
  }

  method BorrowRight3(parent: Node, node: Node, mid: Node, ghost c: Ctx, ghost x: Tree)
    requires c.C3? && c.pos == S.R && c.b.N3? && parent == c.n && mid == c.b.n
    requires Apart(c, node, x) && Hole(c, node, x) && Level(x, c.b)
    modifies parent`rkey, parent`rvalue, node`lkey, node`lvalue, mid`rkey, mid`rvalue
    modifies node`lchild, node`rchild, mid`rchild, mid`mchild
    modifies Tip(x)`parent, Tip(c.b.r)`parent, Tip(c.b.m)`parent
    ensures Owns(Borrow(c, node, x), Over(c.up)) && OwnsCtx(c.up, parent)
  {
    hide Foot, CFoot, Sep, CSep, Under, Holds, OwnsCtx;
    ghost var s := c.b;
    Scatter3(c, node, x, s, c.a);
    CtxOwnsParts(c, node);
    HoldsParts(s);
    Rooted(x);
    Rooted(s.m);
    Rooted(s.r);
    assert allocated(Foot(s.l)) && allocated(Foot(c.a)) && allocated(CFoot(c.up));
    assert allocated(Foot(x)) && allocated(Under(x));
    assert allocated(Foot(s.m)) && allocated(Under(s.m)) && allocated(Foot(s.r)) && allocated(Under(s.r));
    BorrowRight3Links(parent, node, mid);
    HoldsMake(N2(mid, s.k1, s.v1, s.l, s.m));
    HoldsMake(N2(node, c.k2, c.v2, s.r, x));
    HoldsMake(Borrow(c, node, x));
  }

  method ShrinkRight3Links(parent: Node, node: Node, mid: Node)
    requires parent != node && parent != mid && node != mid
    requires node.lchild !in {parent, node, mid} && mid.rchild !in {parent, node, mid}
    requires node.lchild != null ==> node.lchild != mid.rchild && mid.rchild != null
    requires node.lchild == null ==> mid.mchild == mid.rchild == null
    modifies parent`rkey, parent`rvalue, mid`rkey, mid`rvalue
    modifies parent`rchild, parent`mchild, mid`parent, mid`mchild, mid`rchild
    modifies Only(node.lchild)`parent, Only(mid.rchild)`parent
    ensures mid.rkey == old(parent.rkey) && mid.rvalue == old(parent.rvalue) && parent.rkey == old(mid.rkey)
    ensures parent.rchild == mid && mid.parent == parent && parent.mchild == null
    ensures mid.mchild == old(mid.rchild) && mid.rchild == node.lchild
    ensures mid.mchild != null ==> mid.mchild.parent == mid
    ensures mid.rchild != null ==> mid.rchild.parent == mid
  {
    parent.rkey, mid.rkey := mid.rkey, parent.rkey;
    parent.rvalue, mid.rvalue := mid.rvalue, parent.rvalue;
    SetRight(parent, mid);
    parent.mchild := null;
    if !node.IsLeaf() {
      SetMid(mid, mid.rchild);
      SetRight(mid, node.lchild);
    }
  }

  method ShrinkRight3(parent: Node, node: Node, mid: Node, ghost c: Ctx, ghost x: Tree)
    requires c.C3? && c.pos == S.R && c.b.N2? && parent == c.n && mid == c.b.n
    requires Apart(c, node, x) && Hole(c, node, x) && Level(x, c.b)
    modifies parent`rkey, parent`rvalue, mid`rkey, mid`rvalue
    modifies parent`rchild, parent`mchild, mid`parent, mid`mchild, mid`rchild
    modifies Tip(x)`parent, Tip(c.b.r)`parent
    ensures Owns(Shrink(c, node, x), Over(c.up)) && OwnsCtx(c.up, parent)
  {
    hide Foot, CFoot, Sep, CSep, Under, Holds, OwnsCtx;
    ghost var s := c.b;
    Scatter3(c, node, x, s, c.a);
    CtxOwnsParts(c, node);
    HoldsParts(s);
    Rooted(x);
    Rooted(s.r);
    assert allocated(Foot(s.l)) && allocated(Foot(c.a)) && allocated(CFoot(c.up));
    assert allocated(Foot(x)) && allocated(Under(x)) && allocated(Foot(s.r)) && allocated(Under(s.r));
    ShrinkRight3Links(parent, node, mid);
    HoldsMake(N3(mid, s.k, s.v, c.k2, c.v2, s.l, s.r, x));
    HoldsMake(Shrink(c, node, x));
  }

  // ---------- choosing the case ----------

  // The parent keeps a key: nothing has to be mended above it.
  ghost predicate Local(c: Ctx)
  {
    Lends(c) || (c.C3? && Mergeable(c))
  }

  ghost function Mended(c: Ctx, n: Node, x: Tree): Tree
    requires Local(c)
  {
    if Lends(c) then Borrow(c, n, x) else Shrink(c, n, x)
  }

  // All nodes of the tree with a hole.
  ghost function Zone(c: Ctx, n: Node, x: Tree): set<Node> { CFoot(c) + Foot(x) + {n} }

  ghost function Reach(t: Tree): set<Node> { Tip(t) + Tip(Kid1(t)) + Tip(Kid2(t)) + Tip(Kid3(t)) }

  // The hole is one level too low.
  ghost predicate Sunk(c: Ctx, x: Tree, h: int)
  {
    S.Balanced(Erase(x), h) && S.Fits(ErasePath(c), h + 1)
  }

  ghost predicate Keyed(c: Ctx)
  {
    T.KeysOk(S.Before(ErasePath(c))) && T.KeysOk(S.After(ErasePath(c)))
  }

  lemma KeyedShape(t: Tree)
    requires T.KeysOk(S.InOrder(Erase(t)))
    ensures t.N2? ==> t.k != NO_KEY
    ensures t.N3? ==> t.k1 != NO_KEY && t.k2 != NO_KEY
  {
    if t.N2? {
      assert (t.k, t.v) in S.InOrder(Erase(t));
    } else if t.N3? {
      assert (t.k1, t.v1) in S.InOrder(Erase(t));
      assert (t.k2, t.v2) in S.InOrder(Erase(t));
    }
  }

  lemma KeyedStep2(c: Ctx)
    requires c.C2? && Keyed(c)
    ensures Keyed(c.up) && c.k != NO_KEY && T.KeysOk(S.InOrder(Erase(c.sib)))
  {
    hide S.InOrder;
    var p := ErasePath(c);
    var all := S.Before(p) + S.After(p);
    assert T.KeysOk(all);
    assert (c.k, c.v) in all;
    assert forall e <- S.Before(p.up) :: e in all;
    assert forall e <- S.After(p.up) :: e in all;
    assert forall e <- S.InOrder(p.sib) :: e in all;
  }

  lemma KeyedStep3(c: Ctx)
    requires c.C3? && Keyed(c)
    ensures Keyed(c.up) && c.k1 != NO_KEY && c.k2 != NO_KEY
    ensures T.KeysOk(S.InOrder(Erase(c.a))) && T.KeysOk(S.InOrder(Erase(c.b)))
  {
    hide S.InOrder;
    var p := ErasePath(c);
    var all := S.Before(p) + S.After(p);
    assert T.KeysOk(all);
    assert (c.k1, c.v1) in all;
    assert (c.k2, c.v2) in all;
    assert forall e <- S.Before(p.up) :: e in all;
    assert forall e <- S.After(p.up) :: e in all;
    assert forall e <- S.InOrder(p.a) :: e in all;
    assert forall e <- S.InOrder(p.b) :: e in all;
  }

  // The brothers of a hole are there, and their children when the hole has one.
  lemma SunkLevel(c: Ctx, x: Tree, h: int)
    requires !c.Top? && Sunk(c, x, h)
    ensures c.C2? ==> !c.sib.Nil? && Level(x, c.sib)
    ensures c.C3? ==> !c.a.Nil? && !c.b.Nil? && Level(x, c.a) && Level(x, c.b)
    ensures h >= 0 && (Lends(c) || Mergeable(c))
  {
    S.BalancedHeight(Erase(x), h);
    S.FitsBrothers(ErasePath(c), h);
    if c.C2? {
      ChildLevel(x, c.sib, h);
    } else {
      ChildLevel(x, c.a, h);
      ChildLevel(x, c.b, h);
    }
  }

  lemma ChildLevel(x: Tree, t: Tree, h: int)
    requires S.Balanced(Erase(x), h) && S.Balanced(Erase(t), h + 1)
    ensures Level(x, t)
  {
    S.BalancedHeight(Erase(x), h);
    if !t.Nil? {
      S.BalancedHeight(Erase(t.l), h);
      S.BalancedHeight(Erase(t.r), h);
      if t.N3? {
        S.BalancedHeight(Erase(t.m), h);
      }
    }
  }

  lemma Foot2(t: Tree)
    requires t.N2?
    ensures Foot(t) == {t.n} + Foot(t.l) + Foot(t.r)
    ensures Sep(t) <==> t.n !in Foot(t.l) && t.n !in Foot(t.r) && Foot(t.l) !! Foot(t.r) && Sep(t.l) && Sep(t.r)
  {
  }

  lemma Foot3(t: Tree)
    requires t.N3?
    ensures Foot(t) == {t.n} + Foot(t.l) + Foot(t.m) + Foot(t.r)
    ensures Sep(t) <==>
      && t.n !in Foot(t.l) && t.n !in Foot(t.m) && t.n !in Foot(t.r)
      && Foot(t.l) !! Foot(t.m) && Foot(t.l) !! Foot(t.r) && Foot(t.m) !! Foot(t.r)
      && Sep(t.l) && Sep(t.m) && Sep(t.r)
  {
  }

  // The brother that is opened, and the other one.
  ghost function Opened(c: Ctx): Tree
    requires !c.Top?
  {
    if c.C2? then c.sib else if c.pos == S.L then c.a else c.b
  }

  ghost function Aside(c: Ctx): Tree
    requires !c.Top?
  {
    if c.C2? then Nil else if c.pos == S.L then c.b else c.a
  }

  ghost function Pieces(c: Ctx, n: Node, x: Tree): set<Node>
    requires !c.Top? && !Opened(c).Nil?
  {
    var s := Opened(c);
    {c.n, n, s.n} + Foot(x) + Foot(Kid1(s)) + Foot(Kid2(s)) + Foot(Kid3(s)) + Foot(Aside(c))
  }

  lemma Scattered(c: Ctx, n: Node, x: Tree)
    requires !c.Top? && !Opened(c).Nil? && Apart(c, n, x)
    ensures var s := Opened(c);
      Scatter({c.n, n, s.n}, x, Kid1(s), Kid2(s), Kid3(s), Aside(c), c.up) && c.n != n && c.n != s.n && n != s.n
  {
    hide Foot, CFoot, Sep, CSep, Kid1, Kid2, Kid3, Apart, Scatter;
    if c.C2? {
      Scatter2(c, n, x);
    } else {
      Scatter3(c, n, x, Opened(c), Aside(c));
    }
  }

  lemma Zoned(c: Ctx, n: Node, x: Tree)
    requires !c.Top? && !Opened(c).Nil?
    ensures Zone(c, n, x) == CFoot(c.up) + Pieces(c, n, x)
  {
    hide Foot, Sep, CSep;
    NilParts();
    var s := Opened(c);
    if s.N2? { Foot2(s); } else { Foot3(s); }
    if c.C3? {
      assert CFoot(c) == {c.n} + Foot(s) + Foot(Aside(c)) + CFoot(c.up);
    }
  }

  lemma PiecesApart(c: Ctx, n: Node, x: Tree)
    requires !c.Top? && !Opened(c).Nil? && Apart(c, n, x)
    ensures Pieces(c, n, x) !! CFoot(c.up) && CSep(c.up)
  {
    hide Foot, CFoot, Sep, CSep, Kid1, Kid2, Kid3, Apart;
    Scattered(c, n, x);
  }

  lemma BorrowSep(c: Ctx, n: Node, x: Tree)
    requires Lends(c) && Apart(c, n, x)
    ensures Sep(Borrow(c, n, x))
  {
    hide Foot, Sep, CFoot, CSep, Apart;
    Scattered(c, n, x);
    var t := Borrow(c, n, x);
    if c.C2? {
      Foot2(t);
      Foot2(t.l);
      Foot2(t.r);
    } else {
      Foot3(t);
      Foot2(t.m);
      if c.pos == S.L { Foot2(t.l); } else { Foot2(t.r); }
    }
  }

  lemma BorrowUnion(c: Ctx, n: Node, x: Tree)
    requires Lends(c)
    ensures Foot(Borrow(c, n, x)) == Pieces(c, n, x)
  {
    hide Foot, Sep;
    NilParts();
    var t := Borrow(c, n, x);
    if c.C2? {
      Foot2(t);
      Foot2(t.l);
      Foot2(t.r);
    } else {
      Foot3(t);
      Foot2(t.m);
      if c.pos == S.L { Foot2(t.l); } else { Foot2(t.r); }
    }
  }

  lemma ShrinkSep(c: Ctx, n: Node, x: Tree)
    requires c.C3? && Mergeable(c) && Apart(c, n, x)
    ensures Sep(Shrink(c, n, x)) && Spare(c, n) !in Foot(Shrink(c, n, x))
  {
    hide Foot, Sep, CFoot, CSep, Apart;
    Scattered(c, n, x);
    var t := Shrink(c, n, x);
    Foot2(t);
    if c.pos == S.L { Foot3(t.l); } else { Foot3(t.r); }
  }

  lemma ShrinkUnion(c: Ctx, n: Node, x: Tree)
    requires c.C3? && Mergeable(c)
    ensures Foot(Shrink(c, n, x)) + {Spare(c, n)} == Pieces(c, n, x)
  {
    hide Foot, Sep;
    NilParts();
    var t := Shrink(c, n, x);
    Foot2(t);
    if c.pos == S.L { Foot3(t.l); } else { Foot3(t.r); }
  }

  lemma MendedFoot(c: Ctx, n: Node, x: Tree)
    requires Local(c) && Apart(c, n, x)
    ensures var t := Mended(c, n, x);
      && Sep(t) && CSep(c.up) && Foot(t) !! CFoot(c.up) && Root(t) == c.n
      && Zone(c, n, x) == CFoot(c.up) + Foot(t) + (if Lends(c) then {} else {Spare(c, n)})
      && (!Lends(c) ==> Spare(c, n) !in CFoot(c.up) + Foot(t))
  {
    hide Foot, Sep, CFoot, CSep, Apart, Pieces, Zone;
    Zoned(c, n, x);
    PiecesApart(c, n, x);
    if Lends(c) {
      BorrowSep(c, n, x);
      BorrowUnion(c, n, x);
    } else {
      ShrinkSep(c, n, x);
      ShrinkUnion(c, n, x);
      assert Spare(c, n) in Pieces(c, n, x);
    }
  }

  lemma MergeFoot(c: Ctx, n: Node, x: Tree)
    requires c.C2? && Mergeable(c) && Apart(c, n, x)
    ensures Apart(c.up, c.n, Merge(c, x))
    ensures Zone(c, n, x) == Zone(c.up, c.n, Merge(c, x)) + {n}
    ensures n !in Zone(c.up, c.n, Merge(c, x)) && n != c.sib.n && n != c.n && c.n != c.sib.n
  {
    hide CFoot, CSep;
    CtxParts2(c);
  }
}
