/** The pointer steps of rbt_remove.  The node op in the hole has lost its key; both its links name
    the one subtree that is left to it.  The cases that write only one of the two links are right
    because of that. */
module RbRemove {
  import opened Entries
  import opened RbShape
  import opened RbSpec
  import opened RbLinks
  import opened RbInsert
  import opened RbTheorems

  // The loop invariant on the heap.
  ghost predicate Hole(c: Ctx, op: Node, red: bool, w: Tree)
    reads op, CFoot(c), Foot(w)
  {
    && OwnsCtx(c, op, red) && Bare(op, red, w) && op.parent == Over(c)
  }

  // op without a key over the single subtree w.
  ghost predicate Bare(op: Node, red: bool, w: Tree)
    reads op`red, op`redLink, op`lnode, op`rnode
    reads Foot(w)`key, Foot(w)`data, Foot(w)`red, Foot(w)`redLink, Foot(w)`parent, Foot(w)`lnode, Foot(w)`rnode
  {
    op.red == red && !op.redLink && op.lnode == Root(w) && op.rnode == Root(w) && Owns(w, op)
  }

  method SwapNodeData(a: Node, b: Node)
    modifies a`key, a`data, b`key, b`data
    ensures a.key == old(b.key) && a.data == old(b.data)
    ensures b.key == old(a.key) && b.data == old(a.data)
  {
    a.key, b.key := b.key, a.key;
    a.data, b.data := b.data, a.data;
  }

  // The pieces around the hole, the brother opened.
  lemma ScatterHole(c: Ctx, op: Node, w: Tree)
    requires c.Cx? && c.sib.Br? && Apart(c, op, w)
    ensures Scatter({c.n, op, c.sib.n}, w, c.sib.l, c.sib.r, Leaf, Leaf, c.up)
    ensures c.n != op && c.n != c.sib.n && op != c.sib.n
    ensures c.up.Cx? ==> c.up.n in CFoot(c.up)
  {
    hide Foot, CFoot, Sep, CSep;
    LeafParts();
    CtxParts(c);
    TreeParts(c.sib);
    if c.up.Cx? { CtxParts(c.up); }
  }

  // ---------- the hole is the red node of a 3-node ----------

  method FillRed(parent: Node, op: Node, ghost c: Ctx, ghost w: Tree)
    requires c.Cx? && c.left && parent == c.n && Apart(c, op, w) && Hole(c, op, true, w) && !Red(w)
    modifies parent`lnode, parent`redLink, Tip(w)`parent, Tip(w)`red
    ensures Owns(Plug(c, w), null)
  {
    hide Foot, CFoot, Sep, CSep, Under, Holds, OwnsCtx, Plug;
    CtxParts(c);
    CtxOwnsParts(c, op, true);
    Rooted(w);
    if w.Br? { TreeParts(w); HoldsParts(w); }
    assert w.Br? ==> allocated(Foot(w.l)) && allocated(Foot(w.r));
    assert allocated(Foot(c.sib)) && allocated(CFoot(c.up));
    BuildRelationLeftCheck(parent, op.lnode);
    parent.redLink := false;
    if parent.lnode != null {
      parent.lnode.red := false;
    }
    HoldsMake(w);
    CtxOwnsMake(c, Root(w), false);
    PlugOwns(c, w);
  }

  // ---------- nobody can lend: the parent's key comes down ----------

  method MergeLeftLinks(parent: Node, op: Node, bro: Node)
    requires parent != op && parent != bro && op != bro
    requires bro.lnode !in {parent, op, bro}
    modifies parent`key, parent`data, op`key, op`data
    modifies op`rnode, Only(bro.lnode)`parent, bro`lnode, op`parent, parent`lnode, bro`parent, op`red, bro`redLink
    ensures op.key == old(parent.key) && op.data == old(parent.data)
    ensures op.rnode == old(bro.lnode) && (op.rnode != null ==> op.rnode.parent == op)
    ensures bro.lnode == op && op.parent == bro && parent.lnode == bro && bro.parent == parent
    ensures op.red && bro.redLink
  {
    SwapNodeData(parent, op);
    BuildRelationRightCheck(op, bro.lnode);
    BuildRelationLeft(bro, op);
    BuildRelationLeft(parent, bro);
    op.red := true;
    bro.redLink := true;
  }

  method MergeLeft(parent: Node, op: Node, bro: Node, ghost c: Ctx, ghost w: Tree)
    requires c.Cx? && c.left && c.sib.Br? && !c.sib.red && !Red(c.sib.l) && !Red(w)
    requires parent == c.n && bro == c.sib.n && Apart(c, op, w) && Hole(c, op, false, w)
    modifies parent`key, parent`data, op`key, op`data
    modifies op`rnode, Tip(c.sib.l)`parent, bro`lnode, op`parent, parent`lnode, bro`parent, op`red, bro`redLink
    ensures Hole(c.up, parent, c.red, Merge(c, op, w))
  {
    hide Foot, CFoot, Sep, CSep, Under, Holds, OwnsCtx;
    ghost var b := c.sib;
    ScatterHole(c, op, w);
    CtxOwnsParts(c, op, false);
    HoldsParts(b);
    Rooted(b.l);
    assert allocated(Foot(w)) && allocated(Foot(b.r)) && allocated(CFoot(c.up));
    assert allocated(Foot(b.l)) && allocated(Under(b.l));
    MergeLeftLinks(parent, op, bro);
    HoldsMake(Br(op, c.k, c.d, true, w, b.l));
    HoldsMake(Merge(c, op, w));
  }

  method MergeRightLinks(parent: Node, op: Node, bro: Node)
    requires parent != op && parent != bro && op != bro
    modifies parent`key, parent`data, op`key, op`data
    modifies op`lnode, bro`parent, parent`lnode, op`parent, bro`red, op`redLink
    ensures op.key == old(parent.key) && op.data == old(parent.data)
    ensures op.lnode == bro && bro.parent == op && parent.lnode == op && op.parent == parent
    ensures bro.red && op.redLink
  {
    SwapNodeData(op, parent);
    BuildRelationLeft(op, bro);
    BuildRelationLeft(parent, op);
    bro.red := true;
    op.redLink := true;
  }

  method MergeRight(parent: Node, op: Node, bro: Node, ghost c: Ctx, ghost w: Tree)
    requires c.Cx? && !c.left && c.sib.Br? && !c.sib.red && !Red(c.sib.l) && !Red(w)
    requires parent == c.n && bro == c.sib.n && Apart(c, op, w) && Hole(c, op, false, w)
    modifies parent`key, parent`data, op`key, op`data
    modifies op`lnode, bro`parent, parent`lnode, op`parent, bro`red, op`redLink
    ensures Hole(c.up, parent, c.red, Merge(c, op, w))
  {
    hide Foot, CFoot, Sep, CSep, Under, Holds, OwnsCtx;
    ghost var b := c.sib;
    ScatterHole(c, op, w);
    CtxOwnsParts(c, op, false);
    HoldsParts(b);
    assert allocated(Foot(w)) && allocated(Foot(b.l)) && allocated(Foot(b.r)) && allocated(CFoot(c.up));
    MergeRightLinks(parent, op, bro);
    HoldsMake(Redden(b));
    HoldsMake(Merge(c, op, w));
  }

  // ---------- the brother is a 3-node and lends ----------

  ghost predicate Four(a: Node, b: Node, c: Node, d: Node)
  {
    a != b && a != c && a != d && b != c && b != d && c != d
  }

  lemma ScatterLeft(c: Ctx, op: Node, w: Tree)
    requires c.Cx? && c.sib.Br? && c.sib.l.Br? && Apart(c, op, w)
    ensures Scatter({c.n, op, c.sib.n, c.sib.l.n}, w, c.sib.l.l, c.sib.l.r, c.sib.r, Leaf, c.up)
    ensures Four(c.n, op, c.sib.n, c.sib.l.n)
  {
    hide Foot, CFoot, Sep, CSep;
    LeafParts();
    CtxParts(c);
    TreeParts(c.sib);
    TreeParts(c.sib.l);
  }

  // The red node of the brother moves over to a hole on the left.
  method BorrowLeftLinks(parent: Node, op: Node, bro: Node, nephew: Node)
    requires Four(parent, op, bro, nephew)
    requires nephew.lnode !in {parent, op, bro, nephew} && nephew.rnode !in {parent, op, bro, nephew}
    requires nephew.lnode != null ==> nephew.lnode != nephew.rnode
    modifies parent`key, parent`data, op`key, op`data, nephew`key, nephew`data
    modifies op`rnode, Only(nephew.lnode)`parent, bro`lnode, Only(nephew.rnode)`parent, bro`redLink
    ensures op.key == old(parent.key) && op.data == old(parent.data)
    ensures parent.key == old(nephew.key) && parent.data == old(nephew.data)
    ensures op.rnode == old(nephew.lnode) && bro.lnode == old(nephew.rnode) && !bro.redLink
    ensures op.rnode != null ==> op.rnode.parent == op
    ensures bro.lnode != null ==> bro.lnode.parent == bro
  {
    SwapNodeData(op, parent);
    SwapNodeData(parent, nephew);
    BuildRelationRightCheck(op, nephew.lnode);
    BuildRelationLeftCheck(bro, nephew.rnode);
    bro.redLink := false;
  }

  method BorrowLeft(parent: Node, op: Node, bro: Node, nephew: Node, ghost c: Ctx, ghost w: Tree)
    requires c.Cx? && c.left && c.sib.Br? && !c.sib.red && c.sib.l.Br? && c.sib.l.red
    requires !Red(c.sib.l.r) && !Red(w)
    requires parent == c.n && bro == c.sib.n && nephew == c.sib.l.n && Apart(c, op, w) && Hole(c, op, false, w)
    modifies parent`key, parent`data, op`key, op`data, nephew`key, nephew`data
    modifies op`rnode, Tip(c.sib.l.l)`parent, bro`lnode, Tip(c.sib.l.r)`parent, bro`redLink
    ensures Owns(Borrow(c, op, w).t, Over(c.up)) && OwnsCtx(c.up, parent, c.red)
  {
    hide Foot, CFoot, Sep, CSep, Under, Holds, OwnsCtx;
    ghost var b, x := c.sib, c.sib.l;
    ScatterLeft(c, op, w);
    CtxOwnsParts(c, op, false);
    HoldsParts(b);
    HoldsParts(x);
    Rooted(x.l);
    Rooted(x.r);
    assert allocated(Foot(w)) && allocated(Foot(b.r)) && allocated(CFoot(c.up));
    assert allocated(Foot(x.l)) && allocated(Under(x.l));
    assert allocated(Foot(x.r)) && allocated(Under(x.r));
    BorrowLeftLinks(parent, op, bro, nephew);
    HoldsMake(Br(op, c.k, c.d, false, w, x.l));
    HoldsMake(Br(bro, b.k, b.d, false, x.r, b.r));
    HoldsMake(Borrow(c, op, w).t);
  }

  // The brother's own key moves over to a hole on the right; its red node takes its place.
  method BorrowRightLinks(parent: Node, op: Node, bro: Node, nephew: Node)
    requires Four(parent, op, bro, nephew)
    requires bro.rnode !in {parent, op, bro, nephew}
    modifies parent`key, parent`data, op`key, op`data, bro`key, bro`data
    modifies parent`lnode, nephew`parent, op`lnode, Only(bro.rnode)`parent, nephew`red
    ensures op.key == old(parent.key) && op.data == old(parent.data)
    ensures parent.key == old(bro.key) && parent.data == old(bro.data)
    ensures parent.lnode == nephew && nephew.parent == parent && op.lnode == old(bro.rnode) && !nephew.red
    ensures op.lnode != null ==> op.lnode.parent == op
  {
    SwapNodeData(bro, parent);
    SwapNodeData(op, bro);
    BuildRelationLeft(parent, nephew);
    BuildRelationLeftCheck(op, bro.rnode);
    nephew.red := false;
  }

  method BorrowRight(parent: Node, op: Node, bro: Node, nephew: Node, ghost c: Ctx, ghost w: Tree)
    requires c.Cx? && !c.left && c.sib.Br? && !c.sib.red && c.sib.l.Br? && c.sib.l.red
    requires !Red(c.sib.r) && !Red(w)
    requires parent == c.n && bro == c.sib.n && nephew == c.sib.l.n && Apart(c, op, w) && Hole(c, op, false, w)
    modifies parent`key, parent`data, op`key, op`data, bro`key, bro`data
    modifies parent`lnode, nephew`parent, op`lnode, Tip(c.sib.r)`parent, nephew`red
    ensures Owns(Borrow(c, op, w).t, Over(c.up)) && OwnsCtx(c.up, parent, c.red)
  {
    hide Foot, CFoot, Sep, CSep, Under, Holds, OwnsCtx;
    ghost var b, x := c.sib, c.sib.l;
    ScatterLeft(c, op, w);
    CtxOwnsParts(c, op, false);
    HoldsParts(b);
    HoldsParts(x);
    Rooted(b.r);
    assert allocated(Foot(w)) && allocated(Foot(x.l)) && allocated(Foot(x.r)) && allocated(CFoot(c.up));
    assert allocated(Foot(b.r)) && allocated(Under(b.r));
    BorrowRightLinks(parent, op, bro, nephew);
    HoldsMake(Blacken(x));
    HoldsMake(Br(op, c.k, c.d, false, b.r, w));
    HoldsMake(Borrow(c, op, w).t);
  }

  // ---------- the brother is the red node of the parent's 3-node ----------

  lemma ScatterRed(c: Ctx, op: Node, w: Tree)
    requires c.Cx? && c.sib.Br? && c.sib.r.Br? && Apart(c, op, w)
    ensures Scatter({c.n, op, c.sib.n, c.sib.r.n}, w, c.sib.l, c.sib.r.l, c.sib.r.r, Leaf, c.up)
    ensures Four(c.n, op, c.sib.n, c.sib.r.n)
  {
    hide Foot, CFoot, Sep, CSep;
    LeafParts();
    CtxParts(c);
    TreeParts(c.sib);
    TreeParts(c.sib.r);
  }

  // The nephew is a 2-node: it becomes the red left child of the refilled node.
  method BorrowRedLinks(parent: Node, op: Node, bro: Node, nephew: Node)
    requires Four(parent, op, bro, nephew)
    requires op.lnode !in {parent, op, bro, nephew} && bro.lnode != null && bro.lnode !in {parent, op, bro, nephew}
    requires op.lnode != bro.lnode
    modifies parent`key, parent`data, op`key, op`data, bro`key, bro`data
    modifies op`rnode, Only(op.lnode)`parent, parent`lnode, Only(bro.lnode)`parent, op`lnode, nephew`parent
    modifies parent`redLink, nephew`red, op`redLink
    ensures op.key == old(parent.key) && op.data == old(parent.data)
    ensures parent.key == old(bro.key) && parent.data == old(bro.data)
    ensures op.rnode == old(op.lnode) && (op.rnode != null ==> op.rnode.parent == op)
    ensures parent.lnode == old(bro.lnode) && parent.lnode.parent == parent
    ensures op.lnode == nephew && nephew.parent == op
    ensures !parent.redLink && nephew.red && op.redLink
  {
    SwapNodeData(parent, op);
    SwapNodeData(parent, bro);
    BuildRelationRightCheck(op, op.lnode);
    BuildRelationLeft(parent, bro.lnode);
    BuildRelationLeft(op, nephew);
    parent.redLink := false;
    nephew.red := true;
    op.redLink := true;
  }

  method BorrowRed(parent: Node, op: Node, bro: Node, nephew: Node, ghost c: Ctx, ghost w: Tree)
    requires c.Cx? && !c.left && c.sib.Br? && c.sib.red && c.sib.l.Br? && c.sib.r.Br? && !c.sib.r.red
    requires !Red(c.sib.l) && !Red(c.sib.r.l) && !Red(w)
    requires parent == c.n && bro == c.sib.n && nephew == c.sib.r.n && Apart(c, op, w) && Hole(c, op, false, w)
    modifies parent`key, parent`data, op`key, op`data, bro`key, bro`data
    modifies op`rnode, Tip(w)`parent, parent`lnode, c.sib.l.n`parent, op`lnode, nephew`parent
    modifies parent`redLink, nephew`red, op`redLink
    ensures Owns(Borrow(c, op, w).t, Over(c.up)) && OwnsCtx(c.up, parent, c.red)
  {
    hide Foot, CFoot, Sep, CSep, Under, Holds, OwnsCtx;
    ghost var b, x := c.sib, c.sib.r;
    ScatterRed(c, op, w);
    CtxOwnsParts(c, op, false);
    HoldsParts(b);
    HoldsParts(x);
    Rooted(b.l);
    Rooted(w);
    assert allocated(Foot(x.l)) && allocated(Foot(x.r)) && allocated(Foot(b.l)) && allocated(Under(b.l));
    assert allocated(CFoot(c.up)) && allocated(Foot(w)) && allocated(Under(w));
    BorrowRedLinks(parent, op, bro, nephew);
    HoldsMake(Redden(x));
    HoldsMake(Br(op, c.k, c.d, false, Redden(x), w));
    HoldsMake(Borrow(c, op, w).t);
  }

  // The nephew is a 3-node: its black node's key moves over, its red node stays behind.
  method BorrowNephewLinks(parent: Node, op: Node, bro: Node, nephew: Node, gs: Node)
    requires Four(parent, op, bro, nephew) && gs !in {parent, op, bro, nephew} && gs == nephew.lnode
    requires op.lnode !in {parent, op, bro, nephew, gs} && nephew.rnode !in {parent, op, bro, nephew, gs}
    requires op.lnode != null ==> op.lnode != nephew.rnode
    modifies parent`key, parent`data, op`key, op`data, nephew`key, nephew`data
    modifies op`rnode, Only(op.lnode)`parent, op`lnode, Only(nephew.rnode)`parent, bro`rnode, gs`parent, gs`red
    ensures op.key == old(parent.key) && op.data == old(parent.data)
    ensures parent.key == old(nephew.key) && parent.data == old(nephew.data)
    ensures op.rnode == old(op.lnode) && (op.rnode != null ==> op.rnode.parent == op)
    ensures op.lnode == old(nephew.rnode) && (op.lnode != null ==> op.lnode.parent == op)
    ensures bro.rnode == gs && gs.parent == bro && !gs.red
  {
    SwapNodeData(parent, op);
    SwapNodeData(nephew, parent);
    BuildRelationRightCheck(op, op.lnode);
    BuildRelationLeftCheck(op, nephew.rnode);
    BuildRelationRight(bro, gs);
    gs.red := false;
  }

  lemma ScatterNephew(c: Ctx, op: Node, w: Tree)
    requires c.Cx? && c.sib.Br? && c.sib.r.Br? && c.sib.r.l.Br? && Apart(c, op, w)
    ensures Scatter({c.n, op, c.sib.n, c.sib.r.n, c.sib.r.l.n}, w, c.sib.l,
                    c.sib.r.l.l, c.sib.r.l.r, c.sib.r.r, c.up)
    ensures Four(c.n, op, c.sib.n, c.sib.r.n) && c.sib.r.l.n !in {c.n, op, c.sib.n, c.sib.r.n}
  {
    hide Foot, CFoot, Sep, CSep;
    CtxParts(c);
    TreeParts(c.sib);
    TreeParts(c.sib.r);
    TreeParts(c.sib.r.l);
  }

  method BorrowNephew(parent: Node, op: Node, bro: Node, nephew: Node, gs: Node, ghost c: Ctx, ghost w: Tree)
    requires c.Cx? && !c.left && c.sib.Br? && c.sib.red && c.sib.r.Br? && c.sib.r.l.Br? && c.sib.r.l.red
    requires !Red(c.sib.l) && !Red(c.sib.r.r) && !Red(w)
    requires parent == c.n && bro == c.sib.n && nephew == c.sib.r.n && gs == c.sib.r.l.n
    requires Apart(c, op, w) && Hole(c, op, false, w)
    modifies parent`key, parent`data, op`key, op`data, nephew`key, nephew`data
    modifies op`rnode, Tip(w)`parent, op`lnode, Tip(c.sib.r.r)`parent, bro`rnode, gs`parent, gs`red
    ensures Owns(Borrow(c, op, w).t, Over(c.up)) && OwnsCtx(c.up, parent, c.red)
  {
    hide Foot, CFoot, Sep, CSep, Under, Holds, OwnsCtx;
    ghost var b, x, g := c.sib, c.sib.r, c.sib.r.l;
    ScatterNephew(c, op, w);
    CtxOwnsParts(c, op, false);
    HoldsParts(b);
    HoldsParts(x);
    HoldsParts(g);
    Rooted(x.r);
    Rooted(w);
    assert allocated(Foot(b.l)) && allocated(Foot(g.l)) && allocated(Foot(g.r)) && allocated(CFoot(c.up));
    assert allocated(Foot(x.r)) && allocated(Under(x.r));
    assert allocated(Foot(w)) && allocated(Under(w));
    BorrowNephewLinks(parent, op, bro, nephew, gs);
    HoldsMake(Blacken(g));
    HoldsMake(Br(op, c.k, c.d, false, x.r, w));
    HoldsMake(Br(bro, b.k, b.d, true, b.l, Blacken(g)));
    HoldsMake(Borrow(c, op, w).t);
  }

  // The loop's test on the brother: one of the four borrowing cases, whichever it is.
  method BorrowStep(parent: Node, op: Node, bro: Node, ghost c: Ctx, ghost w: Tree, ghost bh: int,
                    ghost S: set<Node>)
    returns (freed: Node)
    requires Lends(c) && Underflow(c, false, w, bh) && parent == c.n && bro == c.sib.n
    requires Apart(c, op, w) && Hole(c, op, false, w) && S == CFoot(c) + {op} + Foot(w)
    modifies S`key, S`data, S`red, S`redLink, S`parent, S`lnode, S`rnode
    ensures Owns(Plug(c.up, Borrow(c, op, w).t), null) && freed == Borrow(c, op, w).freed
  {
    hide Foot, CFoot, Sep, CSep, Under, Holds, OwnsCtx, RB, CtxRB, Plug;
    LendShape(c, op, w, bh);
    CtxOwnsParts(c, op, false);
    HoldsParts(c.sib);
    if bro.red {
      var nephew := bro.rnode;
      HoldsParts(c.sib.r);
      if nephew.redLink {
        BorrowNephew(parent, op, bro, nephew, nephew.lnode, c, w);
        freed := nephew;
      } else {
        BorrowRed(parent, op, bro, nephew, c, w);
        freed := bro;
      }
    } else {
      var nephew := bro.lnode;
      if op == parent.lnode {
        BorrowLeft(parent, op, bro, nephew, c, w);
        freed := nephew;
      } else {
        BorrowRight(parent, op, bro, nephew, c, w);
        freed := bro;
      }
    }
    PlugOwns(c.up, Borrow(c, op, w).t);
  }

  lemma TipIn(t: Tree)
    ensures Tip(t) <= Foot(t)
  {
  }

  // Shapes and places of the nodes a loan touches.
  lemma LendShape(c: Ctx, op: Node, w: Tree, bh: int)
    requires Lends(c) && Underflow(c, false, w, bh) && Apart(c, op, w)
    ensures var b := c.sib;
      && (b.red ==>
          !c.left && b.l.Br? && b.r.Br? && !b.l.red && !b.r.red && !Red(b.r.r))
      && (!b.red ==> b.l.Br? && b.l.red && !Red(b.l.r) && !Red(b.r))
    ensures op != c.n && op != c.sib.n && c.sib.n != c.n
    ensures {c.n, c.sib.n} <= CFoot(c) && Tip(w) <= Foot(w)
    ensures Tip(c.sib.l) <= CFoot(c) && Tip(c.sib.r) <= CFoot(c)
    ensures c.sib.l.Br? ==> Tip(c.sib.l.l) <= CFoot(c) && Tip(c.sib.l.r) <= CFoot(c)
    ensures c.sib.r.Br? ==> Tip(c.sib.r.l) <= CFoot(c) && Tip(c.sib.r.r) <= CFoot(c)
    ensures Borrow(c, op, w).t.Br? && Borrow(c, op, w).t.n == c.n
  {
    UnderflowBrother(c, false, w, bh);
    var b := c.sib;
    assert RB(b, bh + 1) && Foot(b) <= CFoot(c);
    if b.red {
      RBHeight(b.l, bh + 1);
      assert RB(b.r, bh + 1);
    } else {
      assert RB(b.l, bh);
    }
    if b.l.Br? {
      assert Foot(b.l.l) <= Foot(b.l) && Foot(b.l.r) <= Foot(b.l);
      TipIn(b.l.l);
      TipIn(b.l.r);
    }
    if b.r.Br? {
      assert Foot(b.r.l) <= Foot(b.r) && Foot(b.r.r) <= Foot(b.r);
      TipIn(b.r.l);
      TipIn(b.r.r);
    }
  }

  method MergeStep(parent: Node, op: Node, bro: Node, ghost c: Ctx, ghost w: Tree, ghost bh: int,
                   ghost S: set<Node>)
    requires c.Cx? && !Lends(c) && Underflow(c, false, w, bh) && parent == c.n && bro == Root(c.sib)
    requires Apart(c, op, w) && Hole(c, op, false, w) && S == CFoot(c) + {op} + Foot(w)
    modifies S`key, S`data, S`red, S`redLink, S`parent, S`lnode, S`rnode
    ensures c.sib.Br? && Hole(c.up, parent, c.red, Merge(c, op, w))
  {
    hide Foot, CFoot, Sep, CSep, Under, Holds, OwnsCtx, RB, CtxRB, Plug;
    MergeShape(c, op, w, bh);
    CtxOwnsParts(c, op, false);
    if op == parent.lnode {
      MergeLeft(parent, op, bro, c, w);
    } else {
      MergeRight(parent, op, bro, c, w);
    }
  }

  lemma MergeShape(c: Ctx, op: Node, w: Tree, bh: int)
    requires c.Cx? && !Lends(c) && Underflow(c, false, w, bh) && Apart(c, op, w)
    ensures c.sib.Br? && !c.sib.red && !Red(c.sib.l)
    ensures op != c.n && op != c.sib.n && c.sib.n != c.n
    ensures {c.n, c.sib.n} <= CFoot(c) && Tip(c.sib.l) <= CFoot(c)
  {
    UnderflowBrother(c, false, w, bh);
  }

  // ---------- the start: the successor moves up ----------

  // The nodes passed on the way down to the smallest node of t, with what hangs to their right.
  ghost function SpineFoot(t: Tree): set<Node>
    requires t.Br?
    decreases t
  {
    if t.l.Leaf? then {} else {t.n} + Foot(t.r) + SpineFoot(t.l)
  }

  ghost predicate Spine(t: Tree, p: Node?)
    requires t.Br?
    reads SpineFoot(t)
    decreases t
  {
    t.l.Br? ==>
      && t.n.key == t.k && t.n.data == t.d && t.n.red == t.red && t.n.redLink == Red(t.l)
      && t.n.parent == p && t.n.lnode == Root(t.l) && t.n.rnode == Root(t.r)
      && Owns(t.r, t.n) && Spine(t.l, t.n)
  }

  lemma {:induction false} SpineOwns(t: Tree, up: Ctx)
    requires t.Br?
    ensures OwnsCtx(MinCtx(t, up), Min(t).n, Min(t).red) <==> Spine(t, Over(up)) && OwnsCtx(up, t.n, t.red)
    decreases t
  {
    if t.l.Br? {
      SpineOwns(t.l, Cx(t.n, t.k, t.d, t.red, true, t.r, up));
    }
  }

  lemma {:induction false} SpineOver(t: Tree, up: Ctx, up': Ctx)
    requires t.Br? && Over(up) == Over(up')
    ensures Over(MinCtx(t, up)) == Over(MinCtx(t, up'))
    decreases t
  {
    if t.l.Br? {
      SpineOver(t.l, Cx(t.n, t.k, t.d, t.red, true, t.r, up), Cx(t.n, t.k, t.d, t.red, true, t.r, up'));
    }
  }

  lemma {:induction false} SpineAway(t: Tree)
    requires t.Br? && Sep(t)
    ensures SpineFoot(t) <= Foot(t) && Min(t).n in Foot(t) && Min(t).n !in SpineFoot(t)
    decreases t
  {
    if t.l.Br? {
      SpineAway(t.l);
    }
  }

  // rbt_first
  method First(root: Node?, ghost t: Tree) returns (first: Node?)
    requires root == Root(t) && Holds(t)
    ensures first == if t.Br? then Min(t).n else null
  {
    if root == null {
      return null;
    }
    var node := root;
    ghost var s := t;
    while true
      invariant s.Br? && node == s.n && Holds(s) && Min(s) == Min(t)
      decreases s
    {
      if node.lnode == null {
        return node;
      }
      node, s := node.lnode, s.l;
    }
  }
}
