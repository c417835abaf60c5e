/** The pointer steps of lbs_23tree_insert_into.  While an entry climbs, the node above it holds one
    child more than it has room for. */
module TwoThreeInsert {
  import opened Entries
  import S = TwoThreeSpec
  import T = TwoThreeTheorems
  import opened TwoThreeHeap
  import opened TwoThreeDelete

  // The child links of c.n when a and b stand where its hole was.
  ghost predicate Crowded(c: Ctx, a: Node?, b: Node?)
    requires !c.Top?
    reads c.n`lchild, c.n`mchild, c.n`mchild2, c.n`rchild
  {
    match c
    case C2(n, _, _, left, s, _) =>
      if left then Slots(n, a, b, null, Root(s)) else Slots(n, Root(s), a, null, b)
    case C3(n, _, _, _, _, pos, x, y, _) =>
      match pos
      case L => Slots(n, a, b, Root(x), Root(y))
      case M => Slots(n, Root(x), a, b, Root(y))
      case R => Slots(n, Root(x), Root(y), a, b)
  }

  // The heap holds c with a and b in its hole.
  ghost predicate Swollen(c: Ctx, a: Tree, b: Tree)
    reads CFoot(c), Foot(a), Foot(b)
  {
    && !c.Top? && Crowded(c, Root(a), Root(b)) && Owns(a, c.n) && Owns(b, c.n)
    && OwnsCtx(c.up, c.n) && c.n.parent == Over(c.up)
    && match c
       case C2(n, k, v, _, s, _) => IsTwo(n, k, v) && Owns(s, n)
       case C3(n, k1, v1, k2, v2, _, x, y, _) => IsThree(n, k1, v1, k2, v2) && Owns(x, n) && Owns(y, n)
  }

  ghost predicate Spread(c: Ctx, a: Tree, b: Tree, n: Node)
  {
    && CSep(c) && Sep(a) && Sep(b)
    && CFoot(c) !! Foot(a) && CFoot(c) !! Foot(b) && Foot(a) !! Foot(b)
    && n !in CFoot(c) && n !in Foot(a) && n !in Foot(b)
  }

  // A node that holds one entry and is linked to nothing.
  ghost predicate Loose(n: Node, k: int, v: Pointer)
    reads n
  {
    IsTwo(n, k, v) && Slots(n, null, null, null, null) && n.parent == null && !n.isRoot
  }

  // All entries of the tree once (k, v) has found its place.
  ghost function Total(c: Ctx, a: Tree, k: int, v: Pointer, b: Tree): seq<Entry>
  {
    var p := ErasePath(c);
    S.Before(p) + (S.InOrder(Erase(a)) + [(k, v)] + S.InOrder(Erase(b))) + S.After(p)
  }

  // ---------- a full node divides ----------

  // The entries of the two halves and the one between them.
  ghost function LowEntry(c: Ctx, k: int, v: Pointer): Entry
    requires c.C3?
  {
    if c.pos == S.L then (k, v) else (c.k1, c.v1)
  }

  ghost function Middle(c: Ctx, k: int, v: Pointer): Entry
    requires c.C3?
  {
    match c.pos
    case L => (c.k1, c.v1)
    case M => (k, v)
    case R => (c.k2, c.v2)
  }

  ghost function HighEntry(c: Ctx, k: int, v: Pointer): Entry
    requires c.C3?
  {
    if c.pos == S.R then (k, v) else (c.k2, c.v2)
  }

  // The subtrees that stay below the node, and those that move below the new one.
  ghost function Stayers(c: Ctx, a: Tree, b: Tree): (Tree, Tree)
    requires c.C3?
  {
    match c.pos
    case L => (a, b)
    case M => (c.a, a)
    case R => (c.a, c.b)
  }

  ghost function Movers(c: Ctx, a: Tree, b: Tree): (Tree, Tree)
    requires c.C3?
  {
    match c.pos
    case L => (c.a, c.b)
    case M => (b, c.b)
    case R => (a, b)
  }

  ghost function LowHalf(c: Ctx, a: Tree, k: int, v: Pointer, b: Tree): Tree
    requires c.C3?
  {
    var e, p := LowEntry(c, k, v), Stayers(c, a, b);
    N2(c.n, e.0, e.1, p.0, p.1)
  }

  ghost function HighHalf(c: Ctx, a: Tree, k: int, v: Pointer, b: Tree, d: Node): Tree
    requires c.C3?
  {
    var e, p := HighEntry(c, k, v), Movers(c, a, b);
    N2(d, e.0, e.1, p.0, p.1)
  }

  // The entry goes where its key belongs in the parent.
  ghost predicate InPlace(c: Ctx, k: int)
  {
    match c
    case Top => true
    case C2(_, ck, _, left, _, _) => if left then k < ck else ck < k
    case C3(_, k1, _, k2, _, pos, _, _, _) =>
      match pos
      case L => k < k1 < k2
      case M => k1 < k < k2
      case R => k1 < k2 < k
  }

  method MergeNodes(node: Node, parent: Node) returns (rc: int)
    requires node != parent
    modifies node`lkey, node`lvalue, parent`lkey, parent`lvalue, parent`rkey, parent`rvalue
    ensures rc == if old(node.IsTri()) then 1 else 0
    ensures var k, v := old(node.lkey), old(node.lvalue);
      if rc == 0 && k < old(parent.lkey) then
        && node.lkey == old(parent.lkey) && node.lvalue == old(parent.lvalue)
        && parent.lkey == k && parent.lvalue == v
        && parent.rkey == old(parent.rkey) && parent.rvalue == old(parent.rvalue)
      else if rc == 0 && k > old(parent.rkey) then
        && node.lkey == old(parent.rkey) && node.lvalue == old(parent.rvalue)
        && parent.rkey == k && parent.rvalue == v
        && parent.lkey == old(parent.lkey) && parent.lvalue == old(parent.lvalue)
      else
        && node.lkey == k && node.lvalue == v
        && parent.lkey == old(parent.lkey) && parent.lvalue == old(parent.lvalue)
        && parent.rkey == old(parent.rkey) && parent.rvalue == old(parent.rvalue)
  {
    if node.IsTri() {
      return 1;
    }
    if node.lkey < parent.lkey {
      parent.lvalue, node.lvalue := node.lvalue, parent.lvalue;
      parent.lkey, node.lkey := node.lkey, parent.lkey;
    } else if node.lkey > parent.rkey {
      parent.rvalue, node.lvalue := node.lvalue, parent.rvalue;
      parent.rkey, node.lkey := node.lkey, parent.rkey;
    }
    rc := 0;
  }

  // SET_RELATIONS
  method SetRelations(parent: Node, l: Node?, m: Node?, r: Node?)
    requires parent != l && parent != m && parent != r
    modifies parent`lchild, parent`mchild, parent`rchild, Only(l)`parent, Only(m)`parent, Only(r)`parent
    ensures parent.lchild == if l != null then l else old(parent.lchild)
    ensures parent.mchild == if m != null then m else old(parent.mchild)
    ensures parent.rchild == if r != null then r else old(parent.rchild)
    ensures l != null ==> l.parent == parent
    ensures m != null ==> m.parent == parent
    ensures r != null ==> r.parent == parent
  {
    if l != null {
      parent.lchild := l;
      l.parent := parent;
    }
    if m != null {
      parent.mchild := m;
      m.parent := parent;
    }
    if r != null {
      parent.rchild := r;
      r.parent := parent;
    }
  }

  method DivideNode(node: Node) returns (dnode: Node)
    requires node.mchild2 == null ==> node.mchild == null && node.rchild == null
    modifies node`rkey, node`rvalue, node`mchild, node`mchild2, node`rchild
    modifies Only(node.mchild2)`parent, Only(node.rchild)`parent
    ensures fresh(dnode) && IsTwo(dnode, old(node.rkey), old(node.rvalue)) && node.rkey == NO_KEY
    ensures Slots(dnode, old(node.mchild2), null, null, old(node.rchild)) && !dnode.isRoot && dnode.parent == null
    ensures node.rchild == old(node.mchild) && node.mchild == null && node.mchild2 == null
    ensures dnode.lchild != null ==> dnode.lchild.parent == dnode
    ensures dnode.rchild != null ==> dnode.rchild.parent == dnode
  {
    dnode := new Node(node.rvalue, node.rkey);
    node.rvalue := 0;
    node.rkey := NO_KEY;
    if node.mchild2 != null {
      SetRelations(dnode, node.mchild2, null, node.rchild);
      node.rchild := node.mchild;
      node.mchild := null;
      node.mchild2 := null;
    }
  }

  // Either all the children are there or the node is a leaf.
  ghost predicate Flat(c: Ctx, a: Tree, b: Tree)
  {
    match c
    case Top => true
    case C2(_, _, _, _, s, _) => a.Nil? == b.Nil? == s.Nil?
    case C3(_, _, _, _, _, _, x, y, _) => a.Nil? == b.Nil? == x.Nil? == y.Nil?
  }

  lemma PiecesOf(c: Ctx, a: Tree, b: Tree, n: Node)
    requires c.C3? && Spread(c, a, b, n)
    ensures var (x, y) := Movers(c, a, b); var (p, q) := Stayers(c, a, b);
      CFoot(c) + Foot(a) + Foot(b) == {c.n} + Foot(x) + Foot(y) + Foot(p) + Foot(q) + CFoot(c.up)
  {
    hide Foot, Sep, CSep, Spread;
  }

  lemma PiecesScatter(c: Ctx, a: Tree, b: Tree, n: Node)
    requires c.C3? && Spread(c, a, b, n)
    ensures var (x, y) := Movers(c, a, b); var (p, q) := Stayers(c, a, b);
      Scatter({c.n, n}, x, y, p, q, Nil, c.up) && c.n != n
  {
    hide Foot, CFoot, Sep, CSep;
    NilParts();
    CtxParts3(c);
  }

  lemma SwollenParts(c: Ctx, a: Tree, b: Tree)
    requires c.C3? && Swollen(c, a, b)
    ensures var (x, y) := Movers(c, a, b); var (p, q) := Stayers(c, a, b);
      && Owns(x, c.n) && Owns(y, c.n) && Owns(p, c.n) && Owns(q, c.n)
      && Slots(c.n, Root(p), Root(q), Root(x), Root(y)) && OwnsCtx(c.up, c.n) && c.n.parent == Over(c.up)
      && IsThree(c.n, c.k1, c.v1, c.k2, c.v2)
      && (Flat(c, a, b) ==> p.Nil? == q.Nil? == x.Nil? == y.Nil?)
  {
    hide Holds, OwnsCtx, Foot, CFoot;
  }

  method SplitKeys(node: Node, parent: Node, ghost c: Ctx, ghost k: int, ghost v: Pointer)
    requires c.C3? && node != parent && IsThree(parent, c.k1, c.v1, c.k2, c.v2) && IsTwo(node, k, v) && InPlace(c, k)
    modifies node`lkey, node`lvalue, parent`lkey, parent`lvalue, parent`rkey, parent`rvalue
    ensures var e, f := LowEntry(c, k, v), HighEntry(c, k, v); IsThree(parent, e.0, e.1, f.0, f.1)
    ensures IsTwo(node, Middle(c, k, v).0, Middle(c, k, v).1)
  {
    var rc := MergeNodes(node, parent);
  }

  method SplitLinks(node: Node, parent: Node, ghost c: Ctx, ghost k: int, ghost v: Pointer) returns (dnode: Node)
    requires c.C3? && node != parent && IsThree(parent, c.k1, c.v1, c.k2, c.v2) && Loose(node, k, v) && InPlace(c, k)
    requires parent.mchild2 == null ==> parent.mchild == null && parent.rchild == null
    requires node !in Only(parent.mchild2) + Only(parent.rchild)
    requires parent !in Only(parent.mchild2) + Only(parent.rchild)
    modifies node`lkey, node`lvalue, parent`lkey, parent`lvalue, parent`rkey, parent`rvalue
    modifies parent`mchild, parent`mchild2, parent`rchild
    modifies Only(parent.mchild2)`parent, Only(parent.rchild)`parent
    ensures fresh(dnode) && !dnode.isRoot && dnode.parent == null
    ensures Slots(dnode, old(parent.mchild2), null, null, old(parent.rchild))
    ensures parent.rchild == old(parent.mchild) && parent.mchild == null && parent.mchild2 == null
    ensures dnode.lchild != null ==> dnode.lchild.parent == dnode
    ensures dnode.rchild != null ==> dnode.rchild.parent == dnode
    ensures var e, f := LowEntry(c, k, v), HighEntry(c, k, v); IsTwo(parent, e.0, e.1) && IsTwo(dnode, f.0, f.1)
    ensures Loose(node, Middle(c, k, v).0, Middle(c, k, v).1)
  {
    SplitKeys(node, parent, c, k, v);
    dnode := DivideNode(parent);
  }

  method SplitNode(node: Node, parent: Node, ghost c: Ctx, ghost a: Tree, ghost k: int, ghost v: Pointer, ghost b: Tree)
    returns (dnode: Node)
    requires c.C3? && parent == c.n && Swollen(c, a, b) && Spread(c, a, b, node) && Loose(node, k, v)
    requires InPlace(c, k) && Flat(c, a, b)
    modifies node`lkey, node`lvalue, parent`lkey, parent`lvalue, parent`rkey, parent`rvalue
    modifies parent`mchild, parent`mchild2, parent`rchild
    modifies Tip(Movers(c, a, b).0)`parent, Tip(Movers(c, a, b).1)`parent
    ensures fresh(dnode) && !dnode.isRoot && dnode.parent == null && parent.parent == Over(c.up)
    ensures Holds(LowHalf(c, a, k, v, b)) && Holds(HighHalf(c, a, k, v, b, dnode)) && OwnsCtx(c.up, parent)
    ensures Loose(node, Middle(c, k, v).0, Middle(c, k, v).1)
  {
    hide Foot, CFoot, Sep, CSep, Under, Holds, OwnsCtx, Movers, Stayers, LowEntry, HighEntry, Middle;
    hide Swollen, Spread, InPlace, Flat;
    ghost var (x, y) := Movers(c, a, b);
    ghost var (p, q) := Stayers(c, a, b);
    PiecesScatter(c, a, b, node);
    SwollenParts(c, a, b);
    Rooted(x);
    Rooted(y);
    assert allocated(Foot(p)) && allocated(Foot(q)) && allocated(CFoot(c.up));
    assert allocated(Foot(x)) && allocated(Under(x)) && allocated(Foot(y)) && allocated(Under(y));
    dnode := SplitLinks(node, parent, c, k, v);
    HoldsMake(LowHalf(c, a, k, v, b));
    HoldsMake(HighHalf(c, a, k, v, b, dnode));
  }

  // insert_divided_node
  method InsertDividedNode(source: Node, node: Node, parent: Node)
    modifies parent`mchild, parent`mchild2, parent`rchild
    ensures if source == old(parent.rchild) then
        parent.rchild == node && if old(parent.mchild) != null
          then parent.mchild2 == source && parent.mchild == old(parent.mchild)
          else parent.mchild == source && parent.mchild2 == old(parent.mchild2)
      else if source == old(parent.mchild) then
        parent.mchild2 == node && parent.mchild == old(parent.mchild) && parent.rchild == old(parent.rchild)
      else if source == old(parent.lchild) then
        parent.mchild == node && parent.rchild == old(parent.rchild)
        && parent.mchild2 == if old(parent.mchild) != null then old(parent.mchild) else old(parent.mchild2)
      else
        unchanged(parent)
  {
    if source == parent.rchild {
      if parent.mchild != null {
        parent.mchild2 := source;
      } else {
        parent.mchild := source;
      }
      parent.rchild := node;
      return;
    }
    if source == parent.mchild {
      parent.mchild2 := node;
      return;
    }
    if source == parent.lchild {
      if parent.mchild != null {
        parent.mchild2 := parent.mchild;
        parent.mchild := node;
      } else {
        parent.mchild := node;
      }
    }
  }

  // The brothers of a hole are other nodes than the one in it.
  lemma OtherRoots(c: Ctx, a: Tree)
    requires !c.Top? && !a.Nil? && CSep(c) && Sep(a) && CFoot(c) !! Foot(a)
    ensures c.C2? ==> Root(c.sib) != a.n
    ensures c.C3? ==> Root(c.a) != a.n && Root(c.b) != a.n
  {
  }

  // The new half joins its brother: the node above is now the crowded one.
  method HangHalf(source: Node, dnode: Node, parent: Node, ghost c: Ctx, ghost low: Tree, ghost high: Tree)
    requires !c.Top? && parent == c.n && Root(low) == source && Root(high) == dnode
    requires CSep(c) && Sep(low) && Sep(high)
    requires CFoot(c) !! Foot(low) && CFoot(c) !! Foot(high) && Foot(low) !! Foot(high)
    requires OwnsCtx(c, source) && Owns(low, parent) && Holds(high)
    requires c.C2? ==> !c.sib.Nil?
    requires c.C3? ==> !c.a.Nil? && !c.b.Nil?
    modifies parent`mchild, parent`mchild2, parent`rchild, dnode`parent
    ensures Swollen(c, low, high)
  {
    hide Foot, CFoot, Sep, CSep, Under, Holds, OwnsCtx;
    OtherRoots(c, low);
    Rooted(low);
    Rooted(high);
    CtxOwnsParts(c, source);
    if c.C2? { CtxParts2(c); } else { CtxParts3(c); }
    assert allocated(Foot(low)) && allocated(Foot(high)) && allocated(Under(high)) && allocated(CFoot(c));
    assert c.C2? ==> allocated(Foot(c.sib));
    assert c.C3? ==> allocated(Foot(c.a)) && allocated(Foot(c.b));
    assert allocated(CFoot(c.up));
    dnode.parent := parent;
    InsertDividedNode(source, dnode, parent);
  }

  // ---------- a 2-node takes the entry in ----------

  ghost function Absorbed(c: Ctx, a: Tree, k: int, v: Pointer, b: Tree): Tree
    requires c.C2?
  {
    if c.left then N3(c.n, k, v, c.k, c.v, a, b, c.sib) else N3(c.n, c.k, c.v, k, v, c.sib, a, b)
  }

  // The key of node goes into a 2-node, which is a 3-node afterwards exactly when that key is not the
  // mark of a missing one; the mark is lost.
  method TakeIn(node: Node, parent: Node)
    requires node != parent
    modifies parent`lkey, parent`lvalue, parent`rkey, parent`rvalue
    ensures old(parent.lkey) < NO_KEY && node.lkey <= NO_KEY ==> (parent.IsTri() <==> node.lkey != NO_KEY)
    ensures if old(parent.lkey) < node.lkey then
        && parent.lkey == old(parent.lkey) && parent.lvalue == old(parent.lvalue)
        && parent.rkey == node.lkey && parent.rvalue == node.lvalue
      else
        && parent.lkey == node.lkey && parent.lvalue == node.lvalue
        && parent.rkey == old(parent.lkey) && parent.rvalue == old(parent.lvalue)
  {
    if parent.lkey < node.lkey {
      parent.rkey, parent.rvalue := node.lkey, node.lvalue;
    } else {
      parent.rkey, parent.rvalue := parent.lkey, parent.lvalue;
      parent.lkey, parent.lvalue := node.lkey, node.lvalue;
    }
  }

  method Absorb(node: Node, parent: Node, ghost c: Ctx, ghost a: Tree, ghost k: int, ghost v: Pointer, ghost b: Tree)
    requires c.C2? && parent == c.n && Swollen(c, a, b) && Spread(c, a, b, node) && IsTwo(node, k, v) && InPlace(c, k)
    modifies parent`lkey, parent`lvalue, parent`rkey, parent`rvalue
    ensures Owns(Absorbed(c, a, k, v, b), Over(c.up)) && OwnsCtx(c.up, parent)
  {
    hide Foot, CFoot, Sep, CSep, Under, Holds, OwnsCtx;
    CtxParts2(c);
    assert allocated(Foot(a)) && allocated(Foot(b)) && allocated(Foot(c.sib)) && allocated(CFoot(c.up));
    assert allocated(Under(a)) && allocated(Under(b)) && allocated(Under(c.sib));
    TakeIn(node, parent);
    HoldsMake(Absorbed(c, a, k, v, b));
  }

  lemma AbsorbedFoot(c: Ctx, a: Tree, k: int, v: Pointer, b: Tree, n: Node)
    requires c.C2? && Spread(c, a, b, n)
    ensures var t := Absorbed(c, a, k, v, b);
      && Sep(t) && CSep(c.up) && Foot(t) !! CFoot(c.up) && Root(t) == c.n
      && CFoot(c) + Foot(a) + Foot(b) == CFoot(c.up) + Foot(t)
  {
    hide Foot, Sep, CFoot, CSep;
    CtxParts2(c);
    Foot3(Absorbed(c, a, k, v, b));
  }

  lemma SplitUnion(c: Ctx, a: Tree, k: int, v: Pointer, b: Tree, d: Node, n: Node)
    requires c.C3? && Spread(c, a, b, n)
    ensures var low, high := LowHalf(c, a, k, v, b), HighHalf(c, a, k, v, b, d);
      CFoot(c.up) + Foot(low) + Foot(high) == CFoot(c) + Foot(a) + Foot(b) + {d}
  {
    hide Foot, Sep, CFoot, CSep, Movers, Stayers, LowEntry, HighEntry;
    PiecesOf(c, a, b, n);
    Foot2(LowHalf(c, a, k, v, b));
    Foot2(HighHalf(c, a, k, v, b, d));
  }

  lemma SplitSpread(c: Ctx, a: Tree, k: int, v: Pointer, b: Tree, d: Node, n: Node)
    requires c.C3? && Spread(c, a, b, n) && d !in CFoot(c) + Foot(a) + Foot(b) && d != n
    ensures var low, high := LowHalf(c, a, k, v, b), HighHalf(c, a, k, v, b, d);
      Spread(c.up, low, high, n) && Root(low) == c.n && Root(high) == d
  {
    hide Foot, Sep, CFoot, CSep, Movers, Stayers, LowEntry, HighEntry;
    PiecesOf(c, a, b, n);
    PiecesScatter(c, a, b, n);
    Foot2(LowHalf(c, a, k, v, b));
    Foot2(HighHalf(c, a, k, v, b, d));
  }

  // ---------- what the steps do to the shape ----------

  lemma InsertSpec(c: Ctx, a: Tree, k: int, v: Pointer, b: Tree, d: Node)
    requires !c.Top?
    ensures c.C2? ==>
      && S.InsertUp(ErasePath(c), Erase(a), k, v, Erase(b)) == Erase(Plug(c.up, Absorbed(c, a, k, v, b)))
      && !S.Full(ErasePath(c))
    ensures c.C3? ==>
      && var low, high := LowHalf(c, a, k, v, b), HighHalf(c, a, k, v, b, d); var e := Middle(c, k, v);
      && S.InsertUp(ErasePath(c), Erase(a), k, v, Erase(b))
         == S.InsertUp(ErasePath(c.up), Erase(low), e.0, e.1, Erase(high))
      && S.Full(ErasePath(c)) == S.Full(ErasePath(c.up))
  {
    if c.C2? {
      PlugErase(c.up, Absorbed(c, a, k, v, b));
    }
  }

  // The divided node above the whole tree.
  lemma InsertTop(c: Ctx, n: Node, k: int, v: Pointer, a: Tree, b: Tree)
    requires c.Top?
    ensures S.InsertUp(ErasePath(c), Erase(a), k, v, Erase(b)) == Erase(N2(n, k, v, a, b)) && S.Full(ErasePath(c))
    ensures CFoot(c) == {}
  {
  }

  ghost predicate Even(c: Ctx, a: Tree, b: Tree, h: int)
  {
    S.Balanced(Erase(a), h) && S.Balanced(Erase(b), h) && S.Fits(ErasePath(c), h)
  }

  lemma EvenStep(c: Ctx, a: Tree, k: int, v: Pointer, b: Tree, d: Node, h: int)
    requires c.C3? && Even(c, a, b, h)
    ensures Even(c.up, LowHalf(c, a, k, v, b), HighHalf(c, a, k, v, b, d), h + 1)
  {
  }

  lemma EvenFlat(c: Ctx, a: Tree, b: Tree, h: int)
    requires !c.Top? && Even(c, a, b, h)
    ensures Flat(c, a, b) && h >= 0
  {
    S.BalancedHeight(Erase(a), h);
    S.BalancedHeight(Erase(b), h);
    if c.C2? {
      S.BalancedHeight(Erase(c.sib), h);
    } else {
      S.BalancedHeight(Erase(c.a), h);
      S.BalancedHeight(Erase(c.b), h);
    }
  }

  lemma EvenBrothers(c: Ctx, h: int)
    requires !c.Top? && S.Fits(ErasePath(c), h) && h > 0
    ensures c.C2? ==> !c.sib.Nil?
    ensures c.C3? ==> !c.a.Nil? && !c.b.Nil?
  {
    if c.C2? {
      S.BalancedHeight(Erase(c.sib), h);
    } else {
      S.BalancedHeight(Erase(c.a), h);
      S.BalancedHeight(Erase(c.b), h);
    }
  }

  lemma TotalStep(c: Ctx, a: Tree, k: int, v: Pointer, b: Tree, d: Node)
    requires c.C3?
    ensures var low, high := LowHalf(c, a, k, v, b), HighHalf(c, a, k, v, b, d); var e := Middle(c, k, v);
      Total(c.up, low, e.0, e.1, high) == Total(c, a, k, v, b)
  {
    hide S.InOrder, S.Before, S.After, S.Around;
    var p := ErasePath(c);
    var low, high := LowHalf(c, a, k, v, b), HighHalf(c, a, k, v, b, d);
    S.AroundInOrder(p, S.InOrder(Erase(a)) + [(k, v)] + S.InOrder(Erase(b)));
    S.InsertUpInOrderStep(p, Erase(a), k, v, Erase(b));
    S.TwoInOrder(Erase(low));
    S.TwoInOrder(Erase(high));
  }

  lemma AroundPlaces(c: Ctx, m: seq<Entry>, g: Entry)
    requires !c.Top? && Sorted(S.Around(ErasePath(c), m)) && g in m
    ensures InPlace(c, g.0)
  {
    hide S.InOrder, Sorted;
    if c.C2? {
      var e, x := (c.k, c.v), S.InOrder(Erase(c.sib));
      if c.left { T.SortedParts(m, e, x); } else { T.SortedParts(x, e, m); }
    } else {
      var e, f, x, y := (c.k1, c.v1), (c.k2, c.v2), S.InOrder(Erase(c.a)), S.InOrder(Erase(c.b));
      match c.pos
      case L =>
        S.Shift(m, e, x, f, y);
        T.SortedParts(m, e, x + [f] + y);
        assert f in x + [f] + y;
      case M =>
        S.Shift(x, e, m, f, y);
        T.SortedParts(x, e, m + [f] + y);
        assert g in m + [f] + y;
        T.SortedParts(m, f, y);
      case R =>
        T.SortedParts(x + [e] + y, f, m);
        assert e in x + [e] + y;
    }
  }

  // The keys of the node above the hole lie around the new one, and none marks a missing key.
  lemma TotalPlaces(c: Ctx, a: Tree, k: int, v: Pointer, b: Tree)
    requires !c.Top? && Sorted(Total(c, a, k, v, b)) && T.KeysOk(Total(c, a, k, v, b))
    ensures InPlace(c, k)
    ensures c.C3? ==> c.k1 != NO_KEY && c.k2 != NO_KEY
  {
    hide S.InOrder, S.Before, S.After, Sorted, InPlace;
    var p := ErasePath(c);
    var m := S.InOrder(Erase(a)) + [(k, v)] + S.InOrder(Erase(b));
    S.AroundInOrder(p, m);
    T.SortedMiddle(S.Before(p.up), S.Around(p, m), S.After(p.up));
    assert forall e <- S.Around(p, m) :: e in Total(c, a, k, v, b);
    AroundPlaces(c, m, (k, v));
  }
}
