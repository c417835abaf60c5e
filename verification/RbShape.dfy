/** Heap nodes of the left-leaning red-black tree and the ghost shapes that describe them.
    A `Tree` names every node it is made of, so that aliasing, parent links and freed nodes
    stay visible; a `Ctx` is the path from a place in a tree up to the root. */
module RbShape {

  import opened Entries

  // The three used bits of the status byte are fields.  The link of the root node to its tree
  // object is a null `parent`.
  class Node {
    var key: int
    var data: Pointer
    var red: bool
    var redLink: bool
    var isRoot: bool
    var parent: Node?
    var lnode: Node?
    var rnode: Node?

    // A node as calloc leaves it.
    constructor ()
      ensures !red && !redLink && !isRoot && parent == null && lnode == null && rnode == null
    {
      red, redLink, isRoot := false, false, false;
      parent, lnode, rnode := null, null, null;
    }
  }

  datatype Tree = Leaf | Br(n: Node, k: int, d: Pointer, red: bool, l: Tree, r: Tree)

  // `Cx(n, .., left, sib, up)`: the hole is the left (or right) child of node n, whose other
  // child is sib.
  datatype Ctx = Top | Cx(n: Node, k: int, d: Pointer, red: bool, left: bool, sib: Tree, up: Ctx)

  ghost predicate Red(t: Tree) { t.Br? && t.red }

  ghost function Root(t: Tree): Node? { if t.Br? then t.n else null }

  ghost function Over(c: Ctx): Node? { if c.Cx? then c.n else null }

  ghost function Foot(t: Tree): set<Node>
  {
    match t
    case Leaf => {}
    case Br(n, _, _, _, l, r) => {n} + Foot(l) + Foot(r)
  }

  ghost function CFoot(c: Ctx): set<Node>
  {
    match c
    case Top => {}
    case Cx(n, _, _, _, _, sib, up) => {n} + Foot(sib) + CFoot(up)
  }

  // No node occurs twice.
  ghost predicate Sep(t: Tree)
  {
    t.Br? ==>
      && t.n !in Foot(t.l) && t.n !in Foot(t.r) && Foot(t.l) !! Foot(t.r)
      && Sep(t.l) && Sep(t.r)
  }

  ghost predicate CSep(c: Ctx)
  {
    c.Cx? ==>
      && c.n !in Foot(c.sib) && c.n !in CFoot(c.up) && Foot(c.sib) !! CFoot(c.up)
      && Sep(c.sib) && CSep(c.up)
  }

  ghost function Under(t: Tree): set<Node> { if t.Br? then Foot(t.l) + Foot(t.r) else {} }

  // The heap holds t: the fields of its nodes are as t says and the link colour equals the colour
  // of the left child.  Nothing is said about the parent link of the root.
  ghost predicate Holds(t: Tree)
    reads Foot(t)`key, Foot(t)`data, Foot(t)`red, Foot(t)`redLink, Foot(t)`lnode, Foot(t)`rnode
    reads Under(t)`parent
    decreases t
  {
    t.Br? ==>
      && t.n.key == t.k && t.n.data == t.d && t.n.red == t.red && t.n.redLink == Red(t.l)
      && t.n.lnode == Root(t.l) && t.n.rnode == Root(t.r)
      && (t.l.Br? ==> t.l.n.parent == t.n) && (t.r.Br? ==> t.r.n.parent == t.n)
      && Holds(t.l) && Holds(t.r)
  }

  // The heap holds t below p.
  ghost predicate Owns(t: Tree, p: Node?)
    reads Foot(t)`key, Foot(t)`data, Foot(t)`red, Foot(t)`redLink
    reads Foot(t)`parent, Foot(t)`lnode, Foot(t)`rnode
  {
    Holds(t) && (t.Br? ==> t.n.parent == p)
  }

  // The heap holds the context c; h is what the link into the hole points to and hr the colour
  // recorded for it when it is a left link.
  ghost predicate OwnsCtx(c: Ctx, h: Node?, hr: bool)
    reads CFoot(c)`key, CFoot(c)`data, CFoot(c)`red, CFoot(c)`redLink
    reads CFoot(c)`parent, CFoot(c)`lnode, CFoot(c)`rnode
    decreases c
  {
    c.Cx? ==>
      && c.n.key == c.k && c.n.data == c.d && c.n.red == c.red
      && c.n.redLink == (if c.left then hr else Red(c.sib))
      && c.n.parent == Over(c.up)
      && c.n.lnode == (if c.left then h else Root(c.sib))
      && c.n.rnode == (if c.left then Root(c.sib) else h)
      && Owns(c.sib, c.n) && OwnsCtx(c.up, c.n, c.red)
  }

  // Of the nodes in s only r carries the root mark.
  ghost predicate Marked(s: set<Node>, r: Node?)
    reads s`isRoot
  {
    forall n <- s :: n.isRoot <==> n == r
  }

  ghost function Fill(c: Ctx, t: Tree): Tree
    requires c.Cx?
  {
    Br(c.n, c.k, c.d, c.red, if c.left then t else c.sib, if c.left then c.sib else t)
  }

  ghost function Plug(c: Ctx, t: Tree): Tree
    decreases c
  {
    if c.Top? then t else Plug(c.up, Fill(c, t))
  }

  ghost function InOrder(t: Tree): seq<Entry>
  {
    match t
    case Leaf => []
    case Br(_, k, d, _, l, r) => InOrder(l) + [(k, d)] + InOrder(r)
  }

  // The entries to the left and to the right of the hole.
  ghost function Before(c: Ctx): seq<Entry>
  {
    match c
    case Top => []
    case Cx(_, k, d, _, left, sib, up) =>
      if left then Before(up) else Before(up) + (InOrder(sib) + [(k, d)])
  }

  ghost function After(c: Ctx): seq<Entry>
  {
    match c
    case Top => []
    case Cx(_, k, d, _, left, sib, up) =>
      if left then [(k, d)] + InOrder(sib) + After(up) else After(up)
  }

  // Rules 1-6 of the header: t has black height h, red nodes are left children and have no red
  // child.
  ghost predicate RB(t: Tree, h: int)
    decreases t
  {
    match t
    case Leaf => h == 0
    case Br(_, _, _, red, l, r) =>
      var ch := if red then h else h - 1;
      !Red(r) && (red ==> !Red(l)) && RB(l, ch) && RB(r, ch)
  }

  // c obeys the rules around a hole filled by a tree of black height h and root colour hr.
  ghost predicate CtxRB(c: Ctx, h: int, hr: bool)
    decreases c
  {
    match c
    case Top => !hr
    case Cx(_, _, _, red, left, sib, up) =>
      && RB(sib, h) && (if left then !Red(sib) else !hr)
      && (red ==> !hr && !Red(sib))
      && CtxRB(up, if red then h else h + 1, red)
  }

  ghost function Blacks(c: Ctx): nat
  {
    if c.Top? then 0 else (if c.red then 0 else 1) + Blacks(c.up)
  }

  // ---------- facts about shapes ----------

  lemma PlugFill(c: Ctx, t: Tree)
    requires c.Cx?
    ensures Plug(c, t) == Plug(c.up, Fill(c, t))
  {
  }

  lemma {:induction false} PlugInOrder(c: Ctx, t: Tree)
    ensures InOrder(Plug(c, t)) == Before(c) + InOrder(t) + After(c)
    decreases c
  {
    if c.Cx? {
      PlugInOrder(c.up, Fill(c, t));
    }
  }

  lemma {:induction false} PlugFoot(c: Ctx, t: Tree)
    ensures Foot(Plug(c, t)) == CFoot(c) + Foot(t)
    decreases c
  {
    if c.Cx? {
      PlugFoot(c.up, Fill(c, t));
    }
  }

  lemma {:induction false} PlugSep(c: Ctx, t: Tree)
    ensures Sep(Plug(c, t)) <==> CSep(c) && Sep(t) && CFoot(c) !! Foot(t)
    decreases c
  {
    if c.Cx? {
      PlugSep(c.up, Fill(c, t));
    }
  }

  lemma {:induction false} PlugRB(c: Ctx, t: Tree, h: int)
    requires RB(t, h)
    requires CtxRB(c, h, Red(t))
    ensures RB(Plug(c, t), h + Blacks(c))
    ensures !Red(Plug(c, t))
    decreases c
  {
    if c.Cx? {
      PlugRB(c.up, Fill(c, t), if c.red then h else h + 1);
    }
  }

  // The other way round: a place in a well-formed tree is well formed.
  lemma {:induction false} UnplugRB(c: Ctx, t: Tree, H: int)
    requires RB(Plug(c, t), H) && !Red(Plug(c, t))
    ensures RB(t, H - Blacks(c)) && CtxRB(c, H - Blacks(c), Red(t))
    decreases c
  {
    if c.Cx? {
      UnplugRB(c.up, Fill(c, t), H);
    }
  }

  lemma {:induction false} RBHeight(t: Tree, h: int)
    requires RB(t, h)
    ensures h >= 0
    ensures h == 0 ==> t.Leaf? || (t.red && t.l.Leaf? && t.r.Leaf?)
    decreases t
  {
    if t.Br? {
      RBHeight(t.l, if t.red then h else h - 1);
      RBHeight(t.r, if t.red then h else h - 1);
    }
  }

  lemma {:induction false} PlugOwns(c: Ctx, t: Tree)
    requires OwnsCtx(c, Root(t), Red(t)) && Owns(t, Over(c))
    ensures Owns(Plug(c, t), null)
    decreases c
  {
    if c.Cx? {
      PlugOwns(c.up, Fill(c, t));
    }
  }

  lemma {:induction false} UnplugOwns(c: Ctx, t: Tree)
    requires Owns(Plug(c, t), null)
    ensures OwnsCtx(c, Root(t), Red(t)) && Owns(t, Over(c))
    decreases c
  {
    if c.Cx? {
      UnplugOwns(c.up, Fill(c, t));
    }
  }
}
