/** Heap nodes of the 2-3 tree, the ghost trees that name them, and what it means for the heap to
    hold such a tree. */
module TwoThreeHeap {
  import opened Entries
  import S = TwoThreeSpec
  import T = TwoThreeTheorems

  const NO_KEY := T.INVALID_KEY

  // The address of the tree's root field, the parent link of the root, is a null `parent`.
  class Node {
    var isRoot: bool
    var parent: Node?
    var lchild: Node?
    var mchild: Node?
    var mchild2: Node?
    var rchild: Node?
    var lkey: int
    var lvalue: Pointer
    var rkey: int
    var rvalue: Pointer

    // lbs_23tree_new_node
    constructor (value: Pointer, key: int)
      ensures lkey == key && lvalue == value && rkey == NO_KEY
      ensures !isRoot && parent == null && lchild == null && mchild == null && mchild2 == null && rchild == null
    {
      isRoot := false;
      parent, lchild, mchild, mchild2, rchild := null, null, null, null, null;
      lkey, lvalue, rkey, rvalue := key, value, NO_KEY, 0;
    }

    predicate IsTri()
      reads this
    {
      lkey != NO_KEY && rkey != NO_KEY
    }

    predicate IsLeaf()
      reads this
    {
      lchild == null
    }
  }

  datatype Tree =
    | Nil
    | N2(n: Node, k: int, v: Pointer, l: Tree, r: Tree)
    | N3(n: Node, k1: int, v1: Pointer, k2: int, v2: Pointer, l: Tree, m: Tree, r: Tree)

  datatype Ctx =
    | Top
    | C2(n: Node, k: int, v: Pointer, left: bool, sib: Tree, up: Ctx)
    | C3(n: Node, k1: int, v1: Pointer, k2: int, v2: Pointer, pos: S.Pos, a: Tree, b: Tree, up: Ctx)

  ghost function Root(t: Tree): Node? { if t.Nil? then null else t.n }

  ghost function Over(c: Ctx): Node? { if c.Top? then null else c.n }

  // The shape without the nodes.
  ghost function Erase(t: Tree): S.Shape
  {
    match t
    case Nil => S.Empty
    case N2(_, k, v, l, r) => S.Two(k, v, Erase(l), Erase(r))
    case N3(_, k1, v1, k2, v2, l, m, r) => S.Three(k1, v1, k2, v2, Erase(l), Erase(m), Erase(r))
  }

  ghost function ErasePath(c: Ctx): S.Path
  {
    match c
    case Top => S.Top
    case C2(_, k, v, left, sib, up) => S.At2(k, v, left, Erase(sib), ErasePath(up))
    case C3(_, k1, v1, k2, v2, pos, a, b, up) => S.At3(k1, v1, k2, v2, pos, Erase(a), Erase(b), ErasePath(up))
  }

  ghost function Foot(t: Tree): set<Node>
  {
    match t
    case Nil => {}
    case N2(n, _, _, l, r) => {n} + Foot(l) + Foot(r)
    case N3(n, _, _, _, _, l, m, r) => {n} + Foot(l) + Foot(m) + Foot(r)
  }

  ghost function CFoot(c: Ctx): set<Node>
  {
    match c
    case Top => {}
    case C2(n, _, _, _, sib, up) => {n} + Foot(sib) + CFoot(up)
    case C3(n, _, _, _, _, _, a, b, up) => {n} + Foot(a) + Foot(b) + CFoot(up)
  }

  // No node occurs twice.
  ghost predicate Sep(t: Tree)
  {
    match t
    case Nil => true
    case N2(n, _, _, l, r) => n !in Foot(l) && n !in Foot(r) && Foot(l) !! Foot(r) && Sep(l) && Sep(r)
    case N3(n, _, _, _, _, l, m, r) =>
      && n !in Foot(l) && n !in Foot(m) && n !in Foot(r)
      && Foot(l) !! Foot(m) && Foot(l) !! Foot(r) && Foot(m) !! Foot(r)
      && Sep(l) && Sep(m) && Sep(r)
  }

  ghost predicate CSep(c: Ctx)
  {
    match c
    case Top => true
    case C2(n, _, _, _, sib, up) =>
      && n !in Foot(sib) && n !in CFoot(up) && Foot(sib) !! CFoot(up) && Sep(sib) && CSep(up)
    case C3(n, _, _, _, _, _, a, b, up) =>
      && n !in Foot(a) && n !in Foot(b) && n !in CFoot(up)
      && Foot(a) !! Foot(b) && Foot(a) !! CFoot(up) && Foot(b) !! CFoot(up)
      && Sep(a) && Sep(b) && CSep(up)
  }

  ghost function Under(t: Tree): set<Node>
  {
    match t
    case Nil => {}
    case N2(_, _, _, l, r) => Foot(l) + Foot(r)
    case N3(_, _, _, _, _, l, m, r) => Foot(l) + Foot(m) + Foot(r)
  }

  // The fields of one node: its keys and data, and its four child links.
  ghost predicate IsTwo(n: Node, k: int, v: Pointer)
    reads n`lkey, n`lvalue, n`rkey
  {
    n.lkey == k && n.lvalue == v && n.rkey == NO_KEY
  }

  ghost predicate IsThree(n: Node, k1: int, v1: Pointer, k2: int, v2: Pointer)
    reads n`lkey, n`lvalue, n`rkey, n`rvalue
  {
    n.lkey == k1 && n.lvalue == v1 && n.rkey == k2 && n.rvalue == v2
  }

  ghost predicate Slots(n: Node, l: Node?, m: Node?, m2: Node?, r: Node?)
    reads n`lchild, n`mchild, n`mchild2, n`rchild
  {
    n.lchild == l && n.mchild == m && n.mchild2 == m2 && n.rchild == r
  }

  // The heap holds t; nothing is said about the parent link of its root.
  ghost predicate Holds(t: Tree)
    reads Foot(t)`lchild, Foot(t)`mchild, Foot(t)`mchild2, Foot(t)`rchild
    reads Foot(t)`lkey, Foot(t)`lvalue, Foot(t)`rkey, Foot(t)`rvalue, Under(t)`parent
    decreases t
  {
    match t
    case Nil => true
    case N2(n, k, v, l, r) =>
      && IsTwo(n, k, v) && Slots(n, Root(l), null, null, Root(r))
      && (!l.Nil? ==> l.n.parent == n) && (!r.Nil? ==> r.n.parent == n)
      && Holds(l) && Holds(r)
    case N3(n, k1, v1, k2, v2, l, m, r) =>
      && IsThree(n, k1, v1, k2, v2) && Slots(n, Root(l), Root(m), null, Root(r))
      && (!l.Nil? ==> l.n.parent == n) && (!m.Nil? ==> m.n.parent == n) && (!r.Nil? ==> r.n.parent == n)
      && Holds(l) && Holds(m) && Holds(r)
  }

  // The heap holds t below p.
  ghost predicate Owns(t: Tree, p: Node?)
    reads Foot(t)`lchild, Foot(t)`mchild, Foot(t)`mchild2, Foot(t)`rchild
    reads Foot(t)`lkey, Foot(t)`lvalue, Foot(t)`rkey, Foot(t)`rvalue, Foot(t)`parent
  {
    Holds(t) && (!t.Nil? ==> t.n.parent == p)
  }

  // The heap holds the context c; h is what the link into the hole points to.
  ghost predicate OwnsCtx(c: Ctx, h: Node?)
    reads CFoot(c)`lchild, CFoot(c)`mchild, CFoot(c)`mchild2, CFoot(c)`rchild
    reads CFoot(c)`lkey, CFoot(c)`lvalue, CFoot(c)`rkey, CFoot(c)`rvalue, CFoot(c)`parent
    decreases c
  {
    match c
    case Top => true
    case C2(n, k, v, left, sib, up) =>
      && IsTwo(n, k, v) && n.parent == Over(up)
      && (if left then Slots(n, h, null, null, Root(sib)) else Slots(n, Root(sib), null, null, h))
      && Owns(sib, n) && OwnsCtx(up, n)
    case C3(n, k1, v1, k2, v2, pos, a, b, up) =>
      && IsThree(n, k1, v1, k2, v2) && n.parent == Over(up)
      && (match pos
          case L => Slots(n, h, Root(a), null, Root(b))
          case M => Slots(n, Root(a), h, null, Root(b))
          case R => Slots(n, Root(a), Root(b), null, h))
      && Owns(a, n) && Owns(b, n) && OwnsCtx(up, n)
  }

  // Of the nodes in s only r carries the root mark.
  ghost predicate Marked(s: set<Node>, r: Node?)
    reads s`isRoot
  {
    forall n <- s :: n.isRoot <==> n == r
  }

  ghost function Fill(c: Ctx, t: Tree): Tree
    requires !c.Top?
  {
    match c
    case C2(n, k, v, left, sib, _) => if left then N2(n, k, v, t, sib) else N2(n, k, v, sib, t)
    case C3(n, k1, v1, k2, v2, pos, a, b, _) =>
      match pos
      case L => N3(n, k1, v1, k2, v2, t, a, b)
      case M => N3(n, k1, v1, k2, v2, a, t, b)
      case R => N3(n, k1, v1, k2, v2, a, b, t)
  }

  ghost function Plug(c: Ctx, t: Tree): Tree
    decreases c
  {
    if c.Top? then t else Plug(c.up, Fill(c, t))
  }

  // The topmost node of a context.
  ghost function Base(c: Ctx): Node?
  {
    if c.Top? then null else if c.up.Top? then c.n else Base(c.up)
  }

  // ---------- plugging ----------

  lemma {:induction false} PlugErase(c: Ctx, t: Tree)
    ensures Erase(Plug(c, t)) == S.Plug(ErasePath(c), Erase(t))
    decreases c
  {
    if !c.Top? {
      PlugErase(c.up, Fill(c, t));
    }
  }

  lemma {:induction false} PlugFoot(c: Ctx, t: Tree)
    ensures Foot(Plug(c, t)) == CFoot(c) + Foot(t)
    decreases c
  {
    if !c.Top? {
      PlugFoot(c.up, Fill(c, t));
    }
  }

  lemma {:induction false} PlugSep(c: Ctx, t: Tree)
    ensures Sep(Plug(c, t)) <==> CSep(c) && Sep(t) && CFoot(c) !! Foot(t)
    decreases c
  {
    if !c.Top? {
      PlugSep(c.up, Fill(c, t));
    }
  }

  lemma {:induction false} PlugOwns(c: Ctx, t: Tree)
    requires OwnsCtx(c, Root(t)) && Owns(t, Over(c))
    ensures Owns(Plug(c, t), null)
    decreases c
  {
    if !c.Top? {
      PlugOwns(c.up, Fill(c, t));
    }
  }

  lemma {:induction false} UnplugOwns(c: Ctx, t: Tree)
    requires Owns(Plug(c, t), null)
    ensures OwnsCtx(c, Root(t)) && Owns(t, Over(c))
    decreases c
  {
    if !c.Top? {
      UnplugOwns(c.up, Fill(c, t));
    }
  }

  lemma {:induction false} PlugRoot(c: Ctx, t: Tree)
    ensures Root(Plug(c, t)) == if c.Top? then Root(t) else Base(c)
    decreases c
  {
    if !c.Top? {
      PlugRoot(c.up, Fill(c, t));
    }
  }

  lemma {:induction false} BaseIsTop(c: Ctx)
    requires !c.Top? && CSep(c)
    ensures Base(c) in CFoot(c)
    ensures c.n == Base(c) <==> c.up.Top?
    decreases c
  {
    if !c.up.Top? {
      BaseIsTop(c.up);
    }
  }

  // ---------- one step of unfolding ----------

  lemma Rooted(t: Tree)
    requires Sep(t)
    ensures Under(t) <= Foot(t)
    ensures !t.Nil? ==> t.n in Foot(t) && t.n !in Under(t)
  {
  }

  lemma NilParts()
    ensures Foot(Nil) == {} && Sep(Nil) && Holds(Nil)
  {
  }

  lemma Parts2(t: Tree)
    requires t.N2? && Sep(t)
    ensures Foot(t) == {t.n} + Foot(t.l) + Foot(t.r)
    ensures t.n !in Foot(t.l) && t.n !in Foot(t.r) && Foot(t.l) !! Foot(t.r)
    ensures Sep(t.l) && Sep(t.r)
  {
  }

  lemma Parts3(t: Tree)
    requires t.N3? && Sep(t)
    ensures Foot(t) == {t.n} + Foot(t.l) + Foot(t.m) + Foot(t.r)
    ensures t.n !in Foot(t.l) && t.n !in Foot(t.m) && t.n !in Foot(t.r)
    ensures Foot(t.l) !! Foot(t.m) && Foot(t.l) !! Foot(t.r) && Foot(t.m) !! Foot(t.r)
    ensures Sep(t.l) && Sep(t.m) && Sep(t.r)
  {
  }

  lemma CtxParts2(c: Ctx)
    requires c.C2? && CSep(c)
    ensures CFoot(c) == {c.n} + Foot(c.sib) + CFoot(c.up)
    ensures c.n !in Foot(c.sib) && c.n !in CFoot(c.up) && Foot(c.sib) !! CFoot(c.up)
    ensures Sep(c.sib) && CSep(c.up)
  {
  }

  lemma CtxParts3(c: Ctx)
    requires c.C3? && CSep(c)
    ensures CFoot(c) == {c.n} + Foot(c.a) + Foot(c.b) + CFoot(c.up)
    ensures c.n !in Foot(c.a) && c.n !in Foot(c.b) && c.n !in CFoot(c.up)
    ensures Foot(c.a) !! Foot(c.b) && Foot(c.a) !! CFoot(c.up) && Foot(c.b) !! CFoot(c.up)
    ensures Sep(c.a) && Sep(c.b) && CSep(c.up)
  {
  }

  lemma HoldsParts(t: Tree)
    requires Holds(t)
    ensures t.N2? ==>
      && IsTwo(t.n, t.k, t.v) && Slots(t.n, Root(t.l), null, null, Root(t.r)) && Owns(t.l, t.n) && Owns(t.r, t.n)
    ensures t.N3? ==>
      && IsThree(t.n, t.k1, t.v1, t.k2, t.v2) && Slots(t.n, Root(t.l), Root(t.m), null, Root(t.r))
      && Owns(t.l, t.n) && Owns(t.m, t.n) && Owns(t.r, t.n)
  {
  }

  lemma HoldsMake(t: Tree)
    requires t.N2? ==>
      && IsTwo(t.n, t.k, t.v) && Slots(t.n, Root(t.l), null, null, Root(t.r)) && Owns(t.l, t.n) && Owns(t.r, t.n)
    requires t.N3? ==>
      && IsThree(t.n, t.k1, t.v1, t.k2, t.v2) && Slots(t.n, Root(t.l), Root(t.m), null, Root(t.r))
      && Owns(t.l, t.n) && Owns(t.m, t.n) && Owns(t.r, t.n)
    ensures Holds(t)
  {
  }

  lemma CtxOwnsParts(c: Ctx, h: Node?)
    requires OwnsCtx(c, h)
    ensures c.C2? ==>
      && IsTwo(c.n, c.k, c.v) && c.n.parent == Over(c.up)
      && (if c.left then Slots(c.n, h, null, null, Root(c.sib)) else Slots(c.n, Root(c.sib), null, null, h))
      && Owns(c.sib, c.n) && OwnsCtx(c.up, c.n)
    ensures c.C3? ==>
      && IsThree(c.n, c.k1, c.v1, c.k2, c.v2) && c.n.parent == Over(c.up)
      && (c.pos == S.L ==> Slots(c.n, h, Root(c.a), null, Root(c.b)))
      && (c.pos == S.M ==> Slots(c.n, Root(c.a), h, null, Root(c.b)))
      && (c.pos == S.R ==> Slots(c.n, Root(c.a), Root(c.b), null, h))
      && Owns(c.a, c.n) && Owns(c.b, c.n) && OwnsCtx(c.up, c.n)
  {
  }
}
