/** Cutting the heap predicates of a tree into pieces that do not overlap, and putting the pieces
    back together: the steps shared by the pointer proofs of insertion and removal. */
module RbLinks {
  import opened Entries
  import opened RbShape

  ghost predicate Disjoint(c: Ctx, t: Tree)
  {
    CSep(c) && Sep(t) && CFoot(c) !! Foot(t)
  }

  // The root of t, as a set.
  ghost function Tip(t: Tree): set<Node> { if t.Br? then {t.n} else {} }

  // The nodes ns, the trees and the context u do not overlap.
  ghost predicate Scatter(ns: set<Node>, a: Tree, b: Tree, c: Tree, d: Tree, e: Tree, u: Ctx)
  {
    && ns !! Foot(a) && ns !! Foot(b) && ns !! Foot(c) && ns !! Foot(d) && ns !! Foot(e) && ns !! CFoot(u)
    && Foot(a) !! Foot(b) && Foot(a) !! Foot(c) && Foot(a) !! Foot(d) && Foot(a) !! Foot(e)
    && Foot(b) !! Foot(c) && Foot(b) !! Foot(d) && Foot(b) !! Foot(e)
    && Foot(c) !! Foot(d) && Foot(c) !! Foot(e) && Foot(d) !! Foot(e)
    && CFoot(u) !! Foot(a) && CFoot(u) !! Foot(b) && CFoot(u) !! Foot(c) && CFoot(u) !! Foot(d)
    && CFoot(u) !! Foot(e)
    && Sep(a) && Sep(b) && Sep(c) && Sep(d) && Sep(e) && CSep(u)
  }

  // One step of unfolding.
  lemma TreeParts(t: Tree)
    requires t.Br? && Sep(t)
    ensures Foot(t) == {t.n} + Foot(t.l) + Foot(t.r)
    ensures t.n !in Foot(t.l) && t.n !in Foot(t.r) && Foot(t.l) !! Foot(t.r)
    ensures Sep(t.l) && Sep(t.r)
  {
  }

  lemma CtxParts(c: Ctx)
    requires c.Cx? && CSep(c)
    ensures CFoot(c) == {c.n} + Foot(c.sib) + CFoot(c.up)
    ensures c.n !in Foot(c.sib) && c.n !in CFoot(c.up) && Foot(c.sib) !! CFoot(c.up)
    ensures Sep(c.sib) && CSep(c.up)
  {
  }

  lemma LeafParts()
    ensures Foot(Leaf) == {} && Sep(Leaf)
  {
  }

  lemma Rooted(t: Tree)
    requires Sep(t)
    ensures Under(t) <= Foot(t)
    ensures t.Br? ==> t.n in Foot(t) && t.n !in Under(t)
  {
  }

  lemma HoldsParts(t: Tree)
    requires Holds(t) && t.Br?
    ensures
      && t.n.key == t.k && t.n.data == t.d && t.n.red == t.red && t.n.redLink == Red(t.l)
      && t.n.lnode == Root(t.l) && t.n.rnode == Root(t.r)
      && Owns(t.l, t.n) && Owns(t.r, t.n)
  {
  }

  lemma HoldsMake(t: Tree)
    requires t.Br? ==>
      && t.n.key == t.k && t.n.data == t.d && t.n.red == t.red && t.n.redLink == Red(t.l)
      && t.n.lnode == Root(t.l) && t.n.rnode == Root(t.r)
      && Owns(t.l, t.n) && Owns(t.r, t.n)
    ensures Holds(t)
  {
  }

  lemma CtxOwnsParts(c: Ctx, h: Node?, hr: bool)
    requires OwnsCtx(c, h, hr) && c.Cx?
    ensures
      && c.n.key == c.k && c.n.data == c.d && c.n.red == c.red
      && c.n.redLink == (if c.left then hr else Red(c.sib))
      && c.n.parent == Over(c.up)
      && c.n.lnode == (if c.left then h else Root(c.sib))
      && c.n.rnode == (if c.left then Root(c.sib) else h)
      && Owns(c.sib, c.n) && OwnsCtx(c.up, c.n, c.red)
  {
  }

  // The node around the hole and its other child, without what is above.
  ghost predicate OwnsTop(c: Ctx, h: Node?, hr: bool)
    requires c.Cx?
    reads c.n`key, c.n`data, c.n`red, c.n`redLink, c.n`parent, c.n`lnode, c.n`rnode
    reads Foot(c.sib)`key, Foot(c.sib)`data, Foot(c.sib)`red, Foot(c.sib)`redLink
    reads Foot(c.sib)`parent, Foot(c.sib)`lnode, Foot(c.sib)`rnode
  {
    && c.n.key == c.k && c.n.data == c.d && c.n.red == c.red
    && c.n.redLink == (if c.left then hr else Red(c.sib))
    && c.n.parent == Over(c.up)
    && c.n.lnode == (if c.left then h else Root(c.sib))
    && c.n.rnode == (if c.left then Root(c.sib) else h)
    && Owns(c.sib, c.n)
  }

  lemma CtxOwnsMake(c: Ctx, h: Node?, hr: bool)
    requires c.Cx? ==>
      && c.n.key == c.k && c.n.data == c.d && c.n.red == c.red
      && c.n.redLink == (if c.left then hr else Red(c.sib))
      && c.n.parent == Over(c.up)
      && c.n.lnode == (if c.left then h else Root(c.sib))
      && c.n.rnode == (if c.left then Root(c.sib) else h)
      && Owns(c.sib, c.n) && OwnsCtx(c.up, c.n, c.red)
    ensures OwnsCtx(c, h, hr)
  {
  }

  // The pieces around a hole whose parent is the red node of a 3-node.
  lemma ScatterTwo(c: Ctx, t: Tree)
    requires c.Cx? && c.up.Cx? && t.Br? && Disjoint(c, t)
    ensures Scatter({c.n, c.up.n, t.n}, t.l, t.r, c.sib, c.up.sib, Leaf, c.up.up)
    ensures c.n != c.up.n && c.n != t.n && c.up.n != t.n
  {
    hide Foot, CFoot, Sep, CSep;
    LeafParts();
    CtxParts(c);
    CtxParts(c.up);
    TreeParts(t);
  }
}
