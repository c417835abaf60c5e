/** The pointer steps of rbt_insert.  A `..Links` method moves pointers exactly as one case of the
    loop does; the method named after it shows that the heap then holds the shape RbSpec gives. */
module RbInsert {
  import opened Entries
  import opened RbShape
  import opened RbSpec
  import opened RbLinks

  method BuildRelation(parent: Node, leftNode: Node, rightNode: Node)
    requires parent != leftNode && parent != rightNode
    modifies parent`lnode, parent`rnode, leftNode`parent, rightNode`parent
    ensures parent.lnode == leftNode && parent.rnode == rightNode
    ensures leftNode.parent == parent && rightNode.parent == parent
  {
    parent.lnode := leftNode;
    parent.rnode := rightNode;
    leftNode.parent := parent;
    rightNode.parent := parent;
  }

  method BuildRelationLeft(parent: Node, node: Node)
    modifies parent`lnode, node`parent
    ensures parent.lnode == node && node.parent == parent
  {
    parent.lnode := node;
    node.parent := parent;
  }

  method BuildRelationRight(parent: Node, node: Node)
    modifies parent`rnode, node`parent
    ensures parent.rnode == node && node.parent == parent
  {
    parent.rnode := node;
    node.parent := parent;
  }

  ghost function Only(n: Node?): set<Node> { if n == null then {} else {n} }

  method BuildRelationLeftCheck(parent: Node, node: Node?)
    modifies parent`lnode, Only(node)`parent
    ensures parent.lnode == node && (node != null ==> node.parent == parent)
  {
    parent.lnode := node;
    if node != null {
      node.parent := parent;
    }
  }

  method BuildRelationRightCheck(parent: Node, node: Node?)
    modifies parent`rnode, Only(node)`parent
    ensures parent.rnode == node && (node != null ==> node.parent == parent)
  {
    parent.rnode := node;
    if node != null {
      node.parent := parent;
    }
  }

  // ---------- the new node comes below the left end of a full 3-node ----------

  method SplitLeftLinks(parent: Node, parent2: Node, node: Node)
    requires parent != parent2 && parent != node && parent2 != node
    requires parent.rnode !in {parent, parent2, node}
    modifies parent`red, parent`lnode, parent`rnode
    modifies parent2`redLink, parent2`lnode, parent2`parent
    modifies node`parent, Only(parent.rnode)`parent
    ensures !parent.red && parent.lnode == node && parent.rnode == parent2
    ensures !parent2.redLink && parent2.lnode == old(parent.rnode) && parent2.parent == parent
    ensures node.parent == parent
    ensures old(parent.rnode) != null ==> old(parent.rnode).parent == parent2
  {
    parent.red := false;
    parent2.redLink := false;
    BuildRelationLeftCheck(parent2, parent.rnode);
    BuildRelation(parent, node, parent2);
  }

  method SplitLeft(parent: Node, parent2: Node, node: Node, ghost c: Ctx, ghost t: Tree, ghost h: Node?)
    requires c.Cx? && c.red && c.left && c.up.Cx? && c.up.left && !c.up.red
    requires parent == c.n && parent2 == c.up.n && t.Br? && node == t.n && !t.red
    requires Disjoint(c, t) && OwnsCtx(c, h, false) && Holds(t) && !Red(c.sib) && !Red(c.up.sib)
    modifies parent`red, parent`lnode, parent`rnode
    modifies parent2`redLink, parent2`lnode, parent2`parent
    modifies node`parent, Tip(c.sib)`parent
    ensures Holds(Split(c, t)) && OwnsCtx(Outer(c), parent2, false)
  {
    hide Foot, CFoot, Sep, CSep, Under, Holds, OwnsCtx;
    var g := c.up;
    ScatterTwo(c, t);
    CtxOwnsParts(c, h, false);
    CtxOwnsParts(g, parent, true);
    HoldsParts(t);
    Rooted(c.sib);
    assert allocated(Foot(t.l)) && allocated(Foot(t.r)) && allocated(Foot(g.sib)) && allocated(CFoot(g.up));
    assert allocated(Foot(c.sib)) && allocated(Under(c.sib));
    SplitLeftLinks(parent, parent2, node);
    HoldsMake(t);
    HoldsMake(Br(parent2, g.k, g.d, false, c.sib, g.sib));
    HoldsMake(Split(c, t));
  }

  method SplitMiddleLinks(parent: Node, parent2: Node, node: Node)
    requires parent != parent2 && parent != node && parent2 != node
    requires node.lnode !in {parent, parent2, node} && node.rnode !in {parent, parent2, node}
    requires node.lnode != null ==> node.lnode != node.rnode
    modifies parent`red, parent`rnode, parent`parent
    modifies parent2`redLink, parent2`lnode, parent2`parent
    modifies node`lnode, node`rnode, Only(node.lnode)`parent, Only(node.rnode)`parent
    ensures !parent.red && parent.rnode == old(node.lnode) && parent.parent == node
    ensures !parent2.redLink && parent2.lnode == old(node.rnode) && parent2.parent == node
    ensures node.lnode == parent && node.rnode == parent2
    ensures old(node.lnode) != null ==> old(node.lnode).parent == parent
    ensures old(node.rnode) != null ==> old(node.rnode).parent == parent2
  {
    parent.red := false;
    parent2.redLink := false;
    BuildRelationRightCheck(parent, node.lnode);
    BuildRelationLeftCheck(parent2, node.rnode);
    BuildRelation(node, parent, parent2);
  }

  method SplitMiddle(parent: Node, parent2: Node, node: Node, ghost c: Ctx, ghost t: Tree, ghost h: Node?)
    requires c.Cx? && c.red && !c.left && c.up.Cx? && c.up.left && !c.up.red
    requires parent == c.n && parent2 == c.up.n && t.Br? && node == t.n && !t.red
    requires Disjoint(c, t) && OwnsCtx(c, h, false) && Holds(t)
    requires !Red(c.sib) && !Red(c.up.sib) && !Red(t.l) && !Red(t.r)
    modifies parent`red, parent`rnode, parent`parent
    modifies parent2`redLink, parent2`lnode, parent2`parent
    modifies node`lnode, node`rnode, Tip(t.l)`parent, Tip(t.r)`parent
    ensures Holds(Split(c, t)) && OwnsCtx(Outer(c), parent2, false)
  {
    hide Foot, CFoot, Sep, CSep, Under, Holds, OwnsCtx;
    var g := c.up;
    ScatterTwo(c, t);
    CtxOwnsParts(c, h, false);
    CtxOwnsParts(g, parent, true);
    HoldsParts(t);
    Rooted(t.l);
    Rooted(t.r);
    assert allocated(Foot(c.sib)) && allocated(Foot(g.sib)) && allocated(CFoot(g.up));
    assert allocated(Foot(t.l)) && allocated(Under(t.l)) && allocated(Foot(t.r)) && allocated(Under(t.r));
    SplitMiddleLinks(parent, parent2, node);
    HoldsMake(Br(parent, c.k, c.d, false, c.sib, t.l));
    HoldsMake(Br(parent2, g.k, g.d, false, t.r, g.sib));
    HoldsMake(Split(c, t));
  }

  // ---------- it comes below the right end ----------

  method SplitRightLinks(parent: Node, parent2: Node, node: Node)
    requires parent != parent2 && parent != node && parent2 != node
    modifies parent`red, parent2`redLink, parent2`rnode, node`parent
    ensures !parent.red && !parent2.redLink && parent2.rnode == node && node.parent == parent2
  {
    parent.red := false;
    parent2.redLink := false;
    BuildRelationRight(parent2, node);
  }

  lemma ScatterSib(c: Ctx, t: Tree)
    requires c.Cx? && c.sib.Br? && t.Br? && Disjoint(c, t)
    ensures Scatter({c.n, c.sib.n, t.n}, t.l, t.r, c.sib.l, c.sib.r, Leaf, c.up)
    ensures c.n != c.sib.n && c.n != t.n && c.sib.n != t.n
  {
    hide Foot, CFoot, Sep, CSep;
    LeafParts();
    CtxParts(c);
    TreeParts(c.sib);
    TreeParts(t);
  }

  method SplitRight(parent: Node, parent2: Node, node: Node, ghost c: Ctx, ghost t: Tree, ghost h: Node?)
    requires c.Cx? && !c.red && !c.left && c.sib.Br? && c.sib.red && !Red(c.sib.l)
    requires parent == c.sib.n && parent2 == c.n && t.Br? && node == t.n && !t.red
    requires Disjoint(c, t) && OwnsCtx(c, h, false) && Holds(t)
    modifies parent`red, parent2`redLink, parent2`rnode, node`parent
    ensures Holds(Split(c, t)) && OwnsCtx(Outer(c), parent2, false)
    ensures parent2.parent == Over(c.up)
  {
    hide Foot, CFoot, Sep, CSep, Under, Holds, OwnsCtx;
    ScatterSib(c, t);
    HoldsParts(t);
    CtxOwnsParts(c, h, false);
    HoldsParts(c.sib);
    assert allocated(Foot(t.l)) && allocated(Foot(t.r)) && allocated(CFoot(c.up));
    assert allocated(Foot(c.sib.l)) && allocated(Foot(c.sib.r));
    SplitRightLinks(parent, parent2, node);
    HoldsMake(t);
    HoldsMake(Blacken(c.sib));
    HoldsMake(Split(c, t));
  }

  // ---------- a 2-node takes the new node in ----------

  lemma ScatterOne(c: Ctx, t: Tree)
    requires c.Cx? && t.Br? && Disjoint(c, t)
    ensures Scatter({c.n, t.n}, t.l, t.r, c.sib, Leaf, Leaf, c.up)
    ensures c.n != t.n
  {
    hide Foot, CFoot, Sep, CSep;
    LeafParts();
    CtxParts(c);
    TreeParts(t);
  }

  method AbsorbLeft(parent: Node, node: Node, ghost c: Ctx, ghost t: Tree, ghost h: Node?)
    requires c.Cx? && !c.red && c.left && parent == c.n && t.Br? && node == t.n && !t.red
    requires Disjoint(c, t) && OwnsCtx(c, h, false) && Holds(t)
    modifies parent`lnode, parent`redLink, node`red, node`parent
    ensures Owns(Plug(c.up, Absorb(c, t)), null)
  {
    hide Foot, CFoot, Sep, CSep, Under, Holds, OwnsCtx, Plug;
    ScatterOne(c, t);
    CtxOwnsParts(c, h, false);
    HoldsParts(t);
    assert allocated(Foot(t.l)) && allocated(Foot(t.r)) && allocated(Foot(c.sib)) && allocated(CFoot(c.up));
    BuildRelationLeft(parent, node);
    node.red := true;
    parent.redLink := true;
    HoldsMake(Redden(t));
    HoldsMake(Absorb(c, t));
    PlugOwns(c.up, Absorb(c, t));
  }

  method AbsorbRightLinks(parent: Node, node: Node, grandpa: Node?)
    requires parent != node && node.lnode !in {parent, node}
    modifies parent`rnode, parent`parent, parent`red
    modifies node`lnode, node`parent, node`redLink, Only(node.lnode)`parent
    ensures parent.rnode == old(node.lnode) && parent.parent == node && parent.red
    ensures node.lnode == parent && node.parent == grandpa && node.redLink
    ensures old(node.lnode) != null ==> old(node.lnode).parent == parent
  {
    BuildRelationRightCheck(parent, node.lnode);
    BuildRelationLeft(node, parent);
    node.parent := grandpa;
    parent.red := true;
    node.redLink := true;
  }

  // The new node takes the place of its parent, which becomes its red left child.
  method AbsorbRight(parent: Node, node: Node, grandpa: Node?, ghost c: Ctx, ghost t: Tree, ghost h: Node?)
    requires c.Cx? && !c.red && !c.left && parent == c.n && t.Br? && node == t.n && !t.red && !Red(c.sib)
    requires grandpa == Over(c.up) && !Red(t.l)
    requires Disjoint(c, t) && OwnsTop(c, h, false) && Holds(t)
    modifies parent`rnode, parent`parent, parent`red
    modifies node`lnode, node`parent, node`redLink, Tip(t.l)`parent
    ensures Owns(Absorb(c, t), Over(c.up))
  {
    hide Foot, CFoot, Sep, CSep, Under, Holds, OwnsCtx;
    ScatterOne(c, t);
    HoldsParts(t);
    Rooted(t.l);
    assert allocated(Foot(t.r)) && allocated(Foot(c.sib)) && allocated(Foot(t.l)) && allocated(Under(t.l));
    AbsorbRightLinks(parent, node, grandpa);
    HoldsMake(Br(parent, c.k, c.d, true, c.sib, t.l));
    HoldsMake(Absorb(c, t));
  }

  // The link of grandpa that led to old now leads to node.
  method Relink(grandpa: Node, parent: Node, node: Node, ghost c: Ctx)
    requires c.Cx? && grandpa == c.n && CSep(c) && OwnsCtx(c, parent, false) && parent !in Foot(c.sib)
    modifies grandpa`lnode, grandpa`rnode
    ensures OwnsCtx(c, node, false)
  {
    hide Foot, CFoot, Sep, CSep, Under, Holds, OwnsCtx;
    CtxParts(c);
    CtxOwnsParts(c, parent, false);
    Rooted(c.sib);
    assert allocated(Foot(c.sib)) && allocated(CFoot(c.up));
    if grandpa.lnode == parent {
      grandpa.lnode := node;
    } else {
      grandpa.rnode := node;
    }
    CtxOwnsMake(c, node, false);
  }
}
