/** The red-black tree object: search, insertion and the integrity check. */
module RbTree {
  import opened Entries
  import opened RbShape
  import opened RbSpec
  import opened RbTheorems
  import opened RbLinks
  import opened RbInsert
  import opened RbRemove

  datatype Code = Ok | InvalidParam | AlreadyExist | NotFound | Corrupt

  // The spare nodes s are chained through their parent links, blank otherwise.
  ghost predicate Chain(head: Node?, s: seq<Node>)
    reads s
    decreases |s|
  {
    if s == [] then head == null
    else
      && head == s[0] && s[0] !in s[1..]
      && !head.red && !head.redLink && !head.isRoot && head.lnode == null && head.rnode == null
      && Chain(head.parent, s[1..])
  }

  // The keys, colours and child links of t are on the heap; link flags and parent links may be wrong.
  ghost predicate Linked(t: Tree)
    reads Foot(t)`key, Foot(t)`red, Foot(t)`lnode, Foot(t)`rnode
    decreases t
  {
    t.Br? ==>
      && t.n.key == t.k && t.n.red == t.red && t.n.lnode == Root(t.l) && t.n.rnode == Root(t.r)
      && Linked(t.l) && Linked(t.r)
  }

  lemma {:induction false} HoldsLinked(t: Tree)
    requires Holds(t)
    ensures Linked(t)
    decreases t
  {
    if t.Br? {
      HoldsLinked(t.l);
      HoldsLinked(t.r);
    }
  }

  // What check_integrity looks at: each node against its own children.
  ghost predicate Sound(t: Tree)
    reads Foot(t)`redLink
    decreases t
  {
    t.Br? ==>
      && (t.n.redLink ==> Red(t.l))
      && (t.l.Br? ==> t.l.k < t.k && !(t.red && t.l.red) && Sound(t.l))
      && (t.r.Br? ==> t.l.Br? && t.k < t.r.k && Sound(t.r))
  }

  lemma {:induction false} WellFormedIsSound(t: Tree, h: int)
    requires RB(t, h) && Sorted(InOrder(t)) && Holds(t)
    ensures Sound(t)
    decreases t
  {
    if t.Br? {
      var ch := if t.red then h else h - 1;
      var s, l := InOrder(t), |InOrder(t.l)|;
      assert InOrder(t.l) == s[..l] && InOrder(t.r) == s[l + 1..] && s[l] == (t.k, t.d);
      WellFormedIsSound(t.l, ch);
      WellFormedIsSound(t.r, ch);
      RBHeight(t.l, ch);
      RBHeight(t.r, ch);
      if t.l.Br? {
        assert InOrder(t.l)[|InOrder(t.l.l)|] == (t.l.k, t.l.d);
      }
      if t.r.Br? {
        assert InOrder(t.r)[|InOrder(t.r.l)|] == (t.r.k, t.r.d);
        assert s[l + 1 + |InOrder(t.r.l)|] == (t.r.k, t.r.d);
      }
    }
  }

  ghost function Levels(t: Tree): nat
  {
    if t.Leaf? then 0 else 1 + if Levels(t.l) < Levels(t.r) then Levels(t.r) else Levels(t.l)
  }

  lemma {:induction false} LevelsBound(t: Tree, h: int)
    requires RB(t, h)
    ensures Levels(t) <= 2 * h + if Red(t) then 1 else 0
    decreases t
  {
    if t.Br? {
      LevelsBound(t.l, if t.red then h else h - 1);
      LevelsBound(t.r, if t.red then h else h - 1);
    }
  }

  // Between all 2-nodes and all 3-nodes.
  lemma {:induction false} BoundsOf(t: Tree, h: nat)
    requires RB(t, h)
    ensures !Red(t) ==> Pow(2, h) - 1 <= |InOrder(t)| <= Pow(3, h) - 1
    ensures Red(t) ==> 2 * Pow(2, h) - 1 <= |InOrder(t)| <= 2 * Pow(3, h) - 1
    decreases t
  {
    if t.Br? {
      RBHeight(t.l, if t.red then h else h - 1);
      BoundsOf(t.l, if t.red then h else h - 1);
      BoundsOf(t.r, if t.red then h else h - 1);
    }
  }

  method CheckIntegrity(root: Node?, ghost t: Tree) returns (bad: bool)
    requires root == Root(t) && Linked(t)
    ensures bad <==> !Sound(t)
    decreases t
  {
    if root == null {
      return false;
    }
    assert Linked(t.l) && Linked(t.r) && allocated(Foot(t.l)) && allocated(Foot(t.r));
    if root.lnode != null {
      if root.key <= root.lnode.key {
        return true;
      }
      if root.red && root.lnode.red {
        return true;
      }
      if root.redLink && !root.lnode.red {
        return true;
      }
      var b := CheckIntegrity(root.lnode, t.l);
      if b {
        return true;
      }
    } else {
      if root.redLink {
        return true;
      }
    }
    if root.rnode != null {
      if root.lnode == null {
        return true;
      }
      if root.key >= root.rnode.key {
        return true;
      }
      var b := CheckIntegrity(root.rnode, t.r);
      if b {
        return true;
      }
    }
    return false;
  }

  lemma {:induction false} BaseIsTop(c: Ctx)
    requires c.Cx? && CSep(c)
    ensures Base(c) in CFoot(c)
    ensures c.n == Base(c) <==> c.up.Top?
    decreases c
  {
    if c.up.Cx? {
      BaseIsTop(c.up);
    }
  }

  // The keys around a hole order the branches a split tests.
  lemma KeySides(c: Ctx, t: Tree)
    requires c.Cx? && t.Br? && Sorted(Before(c) + InOrder(t) + After(c))
    ensures if c.left then t.k < c.k else c.k < t.k
    ensures c.red && c.up.Cx? && c.up.left ==> t.k < c.up.k
    ensures !c.left && c.sib.Br? ==> c.sib.k < t.k
  {
    var B, A := Before(c), After(c);
    var s := B + InOrder(t) + A;
    var i := |B| + |InOrder(t.l)|;
    assert s[i] == (t.k, t.d);
    if c.left {
      assert s[|B| + |InOrder(t)|] == A[0] == (c.k, c.d);
    } else {
      assert s[|B| - 1] == B[|B| - 1] == (c.k, c.d);
      if c.sib.Br? {
        var m := |Before(c.up)| + |InOrder(c.sib.l)|;
        assert s[m] == B[m] == (c.sib.k, c.sib.d);
      }
    }
    if c.red && c.up.Cx? && c.up.left {
      var j := if c.left then 1 + |InOrder(c.sib)| else 0;
      assert A[j] == (c.up.k, c.up.d);
      assert s[|B| + |InOrder(t)| + j] == A[j];
    }
  }

  // Where the pieces of a split lie.
  lemma SplitPlace(c: Ctx, t: Tree, bh: int)
    requires Crowded(c) && Overflow(c, t, bh) && Disjoint(c, t)
    ensures c.red ==> c.up.left && !c.up.red && !Red(c.sib) && !Red(c.up.sib)
    ensures !c.red ==> !c.left && c.sib.Br? && c.sib.red && !Red(c.sib.l)
    ensures !Red(t.r)
    ensures c.n in CFoot(c) && t.n in Foot(t) && (c.red ==> c.up.n in CFoot(c)) && c.n !in Foot(t)
    ensures Tip(t.l) <= Foot(t) && Tip(t.r) <= Foot(t) && Tip(c.sib) <= CFoot(c)
    ensures Split(c, t).n in CFoot(c) + Foot(t)
    ensures var g := if c.red then c.up else c; g.n == Base(c) <==> Outer(c).Top?
    ensures c.red ==> Split(c, t).n != c.up.n && !Outer(c).Top? ==> Outer(c).n in CFoot(c)
    ensures Base(Outer(c)) == if Outer(c).Top? then null else Base(c)
  {
    SplitOverflow(c, t, bh);
    BaseIsTop(c);
    if c.red {
      assert CtxRB(c.up, bh, true);
      BaseIsTop(c.up);
    }
  }

  // The loop's test for a full 3-node.
  lemma CrowdedIff(c: Ctx, t: Tree, h: Node?, bh: int)
    requires c.Cx? && Overflow(c, t, bh) && OwnsCtx(c, h, false)
    ensures Crowded(c) <==> c.n.red || c.n.redLink
  {
    assert CtxRB(c.up, if c.red then bh else bh + 1, c.red);
  }

  lemma AbsorbPlace(c: Ctx, t: Tree, bh: int)
    requires c.Cx? && !Crowded(c) && Overflow(c, t, bh) && Disjoint(c, t)
    ensures !c.red && !Red(c.sib)
    ensures c.n in CFoot(c) && t.n in Foot(t) && c.n !in Foot(t) && t.n !in CFoot(c)
    ensures Tip(t.l) <= Foot(t) && (c.up.Cx? ==> c.up.n in CFoot(c) && c.up.n in CFoot(c.up) && c.n !in Foot(c.up.sib))
    ensures Foot(c.sib) <= CFoot(c) && CFoot(c.up) <= CFoot(c) && CFoot(c) !! Foot(t)
    ensures c.n !in Foot(c.sib) && c.n !in CFoot(c.up) && Foot(c.sib) !! CFoot(c.up)
    ensures c.up.Cx? ==> CSep(c.up)
    ensures c.n == Base(c) <==> c.up.Top?
    ensures Root(InsertUp(c, t)) == if c.up.Cx? then Base(c) else Absorb(c, t).n
  {
    AbsorbOverflow(c, t, bh);
    BaseIsTop(c);
    PlugRoot(c.up, Absorb(c, t));
  }

  // The branches of the loop for a full 3-node: parent2 is its black node, grandpa what is above.
  method SplitRelink(parent0: Node, node0: Node, ghost c: Ctx, ghost t: Tree, ghost h: Node?, ghost bh: int)
    returns (node: Node, parent2: Node, grandpa: Node?)
    requires Crowded(c) && parent0 == c.n && t.Br? && node0 == t.n
    requires Overflow(c, t, bh) && Disjoint(c, t)
    requires Sorted(Before(c) + InOrder(t) + After(c))
    requires OwnsCtx(c, h, false) && Holds(t)
    modifies (CFoot(c) + Foot(t))`red, (CFoot(c) + Foot(t))`redLink
    modifies (CFoot(c) + Foot(t))`lnode, (CFoot(c) + Foot(t))`rnode, (CFoot(c) + Foot(t))`parent
    ensures node == Split(c, t).n && parent2 == (if c.red then c.up else c).n && grandpa == Over(Outer(c))
    ensures Holds(Split(c, t)) && OwnsCtx(Outer(c), parent2, false)
    ensures node == parent2 ==> node.parent == grandpa
  {
    hide Foot, CFoot, Sep, CSep, Under, Holds, OwnsCtx, RB, CtxRB, InOrder, Before, After, Sorted;
    KeySides(c, t);
    SplitPlace(c, t, bh);
    CtxOwnsParts(c, h, false);
    HoldsParts(t);
    var parent := parent0;
    node := node0;
    grandpa := parent.parent;
    if parent.red {
      CtxOwnsParts(c.up, parent, true);
      parent2 := parent.parent;
      grandpa := parent2.parent;
    } else {
      HoldsParts(c.sib);
      parent2 := parent;
      parent := parent.lnode;
    }
    if parent.key > node.key {
      SplitLeft(parent, parent2, node, c, t, h);
      node := parent;
    } else if parent2.key < node.key {
      SplitRight(parent, parent2, node, c, t, h);
      node := parent2;
    } else {
      SplitMiddle(parent, parent2, node, c, t, h);
    }
  }

  // What the start of a removal finds at place (c, s): a successor to take down, ...
  lemma TakeOutSucc(c: Ctx, s: Tree, h: int)
    requires s.Br? && s.r.Br? && WellFormed(Plug(c, s), h)
    ensures var m, u := Min(s.r), SuccCtx(c, s);
      && Apart(u, m.n, Leaf) && Underflow(u, m.red, Leaf, 0) && CFoot(u) + {m.n} == Foot(Plug(c, s))
      && Root(Plug(c, s)) == (if u.Top? then m.n else Base(u))
  {
    hide Min, MinCtx, SuccCtx, RB, CtxRB, Plug, InOrder, Sorted;
    var m := Min(s.r);
    var x := Br(s.n, m.k, m.d, s.red, s.l, s.r);
    SuccPlace(c, s, h);
    SuccNodes(c, s, h);
    PlugRoot(c, s);
    PlugRoot(c, x);
    PlugRoot(SuccCtx(c, s), m);
  }

  // ... a leaf ...
  lemma TakeOutLeaf(c: Ctx, s: Tree, h: int)
    requires s.Br? && s.r.Leaf? && !Red(s.l) && WellFormed(Plug(c, s), h) && Owns(Plug(c, s), null)
    ensures Apart(c, s.n, Leaf) && Underflow(c, s.red, Leaf, 0) && CFoot(c) + {s.n} == Foot(Plug(c, s))
    ensures Root(Plug(c, s)) == (if c.Top? then s.n else Base(c))
    ensures Hole(c, s.n, s.red, Leaf)
  {
    hide RB, CtxRB, Plug, InOrder, Sorted, OwnsCtx;
    BottomPlace(c, s, h);
    PlugRoot(c, s);
    PlugSep(c, s);
    PlugFoot(c, s);
    UnplugOwns(c, s);
  }

  // ... or a red child.
  lemma TakeOutRed(c: Ctx, s: Tree, h: int)
    requires s.Br? && s.r.Leaf? && Red(s.l) && WellFormed(Plug(c, s), h)
    ensures RemoveAt(c, s).freed == s.l.n && s.l.n in Foot(Plug(c, s))
    ensures Root(RemoveAt(c, s).t) == Root(Plug(c, s)) && s.l.n != Root(Plug(c, s))
  {
    hide RB, CtxRB, Plug, InOrder, Sorted;
    PlugRoot(c, s);
    PlugRoot(c, Br(s.n, s.l.k, s.l.d, s.red, Leaf, Leaf));
    PlugSep(c, s);
    PlugFoot(c, s);
    if c.Cx? { BaseIsTop(c); }
  }

  // Where the hole stands.
  lemma HolePlace(c: Ctx, op: Node, red: bool, w: Tree, bh: int)
    requires Apart(c, op, w) && Underflow(c, red, w, bh)
    ensures !Red(w) && op !in Foot(w) && op !in CFoot(c)
    ensures c.Cx? ==>
      && Base(c) in CFoot(c) && Base(c) != op && c.n in CFoot(c) && c.n != op
      && (if c.up.Top? then Base(c) == c.n else Base(c) == Base(c.up))
      && (red ==> c.left) && (!red ==> c.sib.Br?)
    ensures Tip(w) <= Foot(w)
  {
    if c.Cx? {
      BaseIsTop(c);
      UnderflowBrother(c, red, w, bh);
    }
  }

  // The tests on the brother ask whether it can lend.
  lemma BrotherIff(c: Ctx, op: Node, w: Tree, bh: int)
    requires c.Cx? && Apart(c, op, w) && Underflow(c, false, w, bh) && OwnsCtx(c, op, false)
    ensures c.sib.Br? && (Lends(c) <==> c.sib.n.red || c.sib.n.redLink)
  {
    UnderflowBrother(c, false, w, bh);
  }

  lemma SingleWellFormed(n: Node, key: int, d: Pointer)
    ensures WellFormed(Br(n, key, d, false, Leaf, Leaf), 1)
    ensures InOrder(Br(n, key, d, false, Leaf, Leaf)) == [(key, d)]
  {
    assert InOrder(Br(n, key, d, false, Leaf, Leaf)) == [(key, d)];
  }

  // A new node at the end of a search is fit for the insertion loop.
  lemma SeekShape(t: Tree, n: Node, key: int, d: Pointer, h: int)
    requires WellFormed(t, h) && n !in Foot(t) && key !in ToMap(InOrder(t))
    ensures var c, x := Seek(Top, t, key).c, Br(n, key, d, false, Leaf, Leaf);
      && Overflow(c, x, 0) && Disjoint(c, x) && Sorted(Before(c) + InOrder(x) + After(c))
      && h == Blacks(c) && Plug(c, Leaf) == t
  {
    hide InOrder, Sorted, Seek, ToMap, Before, After, Plug, InsertUp, Full;
    var c, x := Seek(Top, t, key).c, Br(n, key, d, false, Leaf, Leaf);
    SingleWellFormed(n, key, d);
    SeekFinds(t, key);
    UnplugRB(c, Leaf, h);
    PlugSep(c, Leaf);
    PlugFoot(c, Leaf);
    InsertEntries(t, n, key, d, h);
    InsertShape(t, n, key, d, h);
  }

  lemma EmptyInsert(t: Tree, n: Node, key: int, d: Pointer, h: int)
    requires t.Leaf? && RB(t, h)
    ensures h == 0 && |InOrder(t)| == 0 && Foot(t) == {} && Splits(t, key)
    ensures key !in ToMap(InOrder(t))
    ensures Insert(t, n, key, d) == Br(n, key, d, false, Leaf, Leaf)
  {
  }

  lemma RootIn(t: Tree)
    requires t.Br?
    ensures t.n in Foot(t)
  {
  }

  class RbTree {
    var depth: int
    var count: int
    var integrity: bool
    var pool: Node?
    var root: Node?
    ghost var shape: Tree
    ghost var spare: seq<Node>

    // rbt_addedtree
    constructor (initPoolSize: nat, mode: bool)
      ensures Valid() && shape == Leaf && Contents() == map[] && integrity == mode
      ensures |spare| == initPoolSize && fresh(spare)
    {
      depth, count, integrity, pool, root := 0, 0, mode, null, null;
      shape, spare := Leaf, [];
      new;
      var n := initPoolSize;
      while n > 0
        invariant Chain(pool, spare) && |spare| == initPoolSize - n && fresh(spare)
        invariant depth == 0 && count == 0 && integrity == mode && root == null && shape == Leaf
      {
        n := n - 1;
        var node := new Node();
        if pool == null {
          pool := node;
        } else {
          node.parent := pool;
          pool := node;
        }
        spare := [node] + spare;
      }
    }

    ghost predicate Valid()
      reads this, Foot(shape), spare
    {
      && root == Root(shape) && Owns(shape, null) && Marked(Foot(shape), root)
      && WellFormed(shape, depth) && count == |InOrder(shape)|
      && Chain(pool, spare) && (forall n <- spare :: n !in Foot(shape))
    }

    ghost function Repr(): set<Node>
      reads this
    {
      Foot(shape) + set n | n in spare
    }

    // Between all 2-nodes and all 3-nodes.
    lemma CountBounds()
      requires Valid()
      ensures depth >= 0 && Pow(2, depth) - 1 <= count <= Pow(3, depth) - 1
      ensures count == |Contents()|
    {
      RBHeight(shape, depth);
      BoundsOf(shape, depth);
      MapSize(InOrder(shape));
    }

    ghost function Contents(): map<int, Pointer>
      reads this
      requires Sorted(InOrder(shape))
    {
      ToMap(InOrder(shape))
    }

    method ChangeRoot(oldRoot: Node, newRoot: Node?, delta: int)
      requires oldRoot != newRoot
      modifies this`depth, this`root, oldRoot`isRoot, Only(newRoot)`parent, Only(newRoot)`isRoot
      ensures depth == old(depth) + delta && root == newRoot && !oldRoot.isRoot
      ensures newRoot != null ==> newRoot.parent == null && newRoot.isRoot
    {
      depth := depth + delta;
      root := newRoot;
      if newRoot != null {
        newRoot.parent := null;
        newRoot.isRoot := true;
      }
      oldRoot.isRoot := false;
    }

    method PopNode() returns (n: Node)
      requires Chain(pool, spare)
      modifies this`pool, this`spare
      ensures Chain(pool, spare) && n !in spare
      ensures if old(spare) == [] then fresh(n) && spare == [] else n == old(spare)[0] && spare == old(spare)[1..]
      ensures (forall x <- spare :: x in old(spare)) && (fresh(n) || n in old(spare))
      ensures !n.red && !n.redLink && !n.isRoot && n.lnode == null && n.rnode == null
    {
      if pool != null {
        n := pool;
        pool := pool.parent;
        spare := spare[1..];
        return;
      }
      n := new Node();
    }

    // The full 3-node above node is split; done tells that it was the root.
    method SplitStep(parent0: Node, node0: Node, ghost c: Ctx, ghost t: Tree, ghost h: Node?, ghost bh: int,
                     ghost S: set<Node>)
      returns (node: Node, parent: Node?, done: bool, ghost stale: Node?)
      requires Crowded(c) && parent0 == c.n && t.Br? && node0 == t.n
      requires Overflow(c, t, bh) && Disjoint(c, t) && S == CFoot(c) + Foot(t)
      requires Sorted(Before(c) + InOrder(t) + After(c))
      requires OwnsCtx(c, h, false) && Holds(t)
      requires Marked(S, root) && root == Base(c)
      modifies this`depth, this`root, S
      ensures done <==> Outer(c).Top?
      ensures node == Split(c, t).n
      ensures done ==>
        && Owns(Split(c, t), null) && root == node && depth == old(depth) + 1 && Marked(S, node)
      ensures !done ==>
        && parent == Outer(c).n && Holds(Split(c, t)) && OwnsCtx(Outer(c), stale, false)
        && root == old(root) && depth == old(depth) && Marked(S, root)
    {
      hide Foot, CFoot, Sep, CSep, Under, Holds, OwnsCtx, RB, CtxRB, InOrder, Before, After, Sorted;
      SplitPlace(c, t, bh);
      assert allocated(S);
      var parent2, grandpa;
      node, parent2, grandpa := SplitRelink(parent0, node0, c, t, h, bh);
      stale := parent2;
      parent := grandpa;
      done := parent2.isRoot;
      if done {
        if node == parent2 {
          depth := depth + 1;
        } else {
          SplitNodes(c, t);
          Rooted(Split(c, t));
          assert allocated(Foot(Split(c, t))) && allocated(Under(Split(c, t)));
          ChangeRoot(parent2, node, 1);
        }
      }
    }

    // A 2-node above node takes it in, and the insertion is over.
    method AbsorbStep(parent: Node, node: Node, ghost c: Ctx, ghost t: Tree, ghost h: Node?, ghost bh: int,
                      ghost S: set<Node>)
      requires c.Cx? && !Crowded(c) && parent == c.n && t.Br? && node == t.n
      requires Overflow(c, t, bh) && Disjoint(c, t) && S == CFoot(c) + Foot(t)
      requires Sorted(Before(c) + InOrder(t) + After(c))
      requires OwnsCtx(c, h, false) && Holds(t)
      requires Marked(S, root) && root == Base(c)
      modifies this`depth, this`root, S
      ensures Owns(InsertUp(c, t), null) && depth == old(depth)
      ensures root == Root(InsertUp(c, t)) && Marked(S, root)
    {
      hide Foot, CFoot, Sep, CSep, Under, Holds, OwnsCtx, RB, CtxRB, InOrder, Before, After, Sorted, Plug;
      KeySides(c, t);
      AbsorbPlace(c, t, bh);
      assert allocated(S) && allocated(Foot(c.sib)) && allocated(Foot(t)) && allocated(CFoot(c.up));
      CtxOwnsParts(c, h, false);
      HoldsParts(t);
      Rooted(t);
      assert allocated(Under(t)) && OwnsTop(c, h, false);
      var grandpa := parent.parent;
      if parent.key > node.key {
        AbsorbLeft(parent, node, c, t, h);
      } else {
        if parent.isRoot {
          ChangeRoot(parent, node, 0);
        } else {
          Relink(grandpa, parent, node, c.up);
        }
        assert OwnsTop(c, h, false) && Holds(t);
        AbsorbRight(parent, node, grandpa, c, t, h);
        PlugOwns(c.up, Absorb(c, t));
      }
    }

    // The loop of rbt_insert: node is new, bottom the node it comes below.
    method Hang(first: Node, bottom: Node, ghost c0: Ctx, ghost t0: Tree)
      requires c0.Cx? && bottom == c0.n && t0.Br? && first == t0.n
      requires Overflow(c0, t0, 0) && Disjoint(c0, t0)
      requires Sorted(Before(c0) + InOrder(t0) + After(c0))
      requires OwnsCtx(c0, null, false) && Holds(t0)
      requires Marked(CFoot(c0) + Foot(t0), root) && root == Base(c0)
      modifies this`depth, this`root, CFoot(c0) + Foot(t0)
      ensures Owns(InsertUp(c0, t0), null) && root == Root(InsertUp(c0, t0))
      ensures Marked(CFoot(c0) + Foot(t0), root)
      ensures depth == old(depth) + if Full(c0) then 1 else 0
    {
      hide Foot, CFoot, Sep, CSep, Under, Holds, OwnsCtx, RB, CtxRB, InOrder, Before, After, Sorted, Plug,
           Split, Absorb, Overflow;
      var node, parent := first, bottom;
      ghost var c, t, h: Node?, bh := c0, t0, null, 0;
      ghost var S := CFoot(c0) + Foot(t0);
      while true
        invariant c.Cx? && parent == c.n && t.Br? && node == t.n
        invariant Overflow(c, t, bh) && Disjoint(c, t) && CFoot(c) + Foot(t) == S
        invariant Sorted(Before(c) + InOrder(t) + After(c))
        invariant OwnsCtx(c, h, false) && Holds(t)
        invariant Marked(S, root) && root == Base(c) && depth == old(depth)
        invariant InsertUp(c, t) == InsertUp(c0, t0) && Full(c) == Full(c0)
        decreases c
      {
        if parent.red || parent.redLink {
          CrowdedIff(c, t, h, bh);
          SplitPlace(c, t, bh);
          SplitOverflow(c, t, bh);
          SplitNodes(c, t);
          SplitInOrder(c, t);
          var top, grandpa, done;
          ghost var stale;
          top, grandpa, done, stale := SplitStep(parent, node, c, t, h, bh, S);
          if done {
            return;
          }
          node, parent, h := top, grandpa, stale;
          c, t, bh := Outer(c), Split(c, t), bh + 1;
        } else {
          CrowdedIff(c, t, h, bh);
          AbsorbStep(parent, node, c, t, h, bh, S);
          return;
        }
      }
    }

    // The first loop of rbt_insert: node holds the key, or is where it has to be hung.
    method Locate(key: int) returns (node: Node, ghost c: Ctx, ghost t: Tree)
      requires Valid() && root != null
      ensures t.Br? && node == t.n && node in Foot(shape) && Plug(c, t) == shape
      ensures t.k == key ==> Seek(Top, shape, key) == Place(c, t)
      ensures t.k > key ==> t.l.Leaf? && Seek(Top, shape, key) == Place(Cx(t.n, t.k, t.d, t.red, true, t.r, c), Leaf)
      ensures t.k < key ==> t.r.Leaf? && Seek(Top, shape, key) == Place(Cx(t.n, t.k, t.d, t.red, false, t.l, c), Leaf)
      ensures node.key == t.k && node.data == t.d && Valid()
    {
      assert allocated(Foot(shape)) && allocated(spare);
      node := root;
      c, t := Top, shape;
      while true
        invariant t.Br? && node == t.n && Owns(t, Over(c)) && Foot(t) <= Foot(shape)
        invariant Seek(c, t, key) == Seek(Top, shape, key) && Plug(c, t) == shape
        decreases t
      {
        if node.key == key {
          return;
        } else if node.key > key {
          if node.lnode != null {
            node := node.lnode;
            c, t := Cx(t.n, t.k, t.d, t.red, true, t.r, c), t.l;
            continue;
          }
        } else {
          if node.rnode != null {
            node := node.rnode;
            c, t := Cx(t.n, t.k, t.d, t.red, false, t.l, c), t.r;
            continue;
          }
        }
        break;
      }
    }

    // A blank node with its key and data, taken off the pool.
    method NewNode(key: int, data: Pointer) returns (n: Node)
      requires Valid()
      modifies this`pool, this`spare, spare
      ensures Valid() && shape == old(shape) && n !in Foot(shape) && n !in spare && n != root
      ensures (fresh(n) || n in old(spare)) && forall x <- spare :: x in old(spare)
      ensures n.key == key && n.data == data
      ensures !n.red && !n.redLink && !n.isRoot && n.lnode == null && n.rnode == null
    {
      hide WellFormed, InOrder, Chain, Foot, Under, Holds;
      assert allocated(Foot(shape)) && allocated(spare);
      if shape.Br? { RootIn(shape); }
      n := PopNode();
      n.data := data;
      n.key := key;
    }

    // rbt_insert_root
    method InsertRoot(key: int, data: Pointer) returns (ghost n: Node)
      requires Valid() && root == null
      modifies this, spare
      ensures Valid() && fresh(Repr() - old(Repr())) && integrity == old(integrity)
      ensures shape == Br(n, key, data, false, Leaf, Leaf)
      ensures depth == 1 && count == 1
    {
      hide Sorted, WellFormed, InOrder, Chain, Foot, Under, Holds;
      var node := NewNode(key, data);
      n := node;
      assert allocated(spare);
      node.isRoot := true;
      node.red := false;
      node.parent := null;
      count := 1;
      depth := 1;
      root := node;
      shape := Br(node, key, data, false, Leaf, Leaf);
      SingleWellFormed(node, key, data);
      LeafParts();
      TreeParts(shape);
      HoldsMake(Leaf);
      HoldsMake(shape);
    }

    method InsertNew(key: int, data: Pointer, node: Node, ghost c: Ctx, ghost t: Tree) returns (ghost n: Node)
      requires Valid() && root != null && t.Br? && node == t.n && node in Foot(shape) && Plug(c, t) == shape
      requires key !in Contents()
      requires t.k > key ==> t.l.Leaf? && Seek(Top, shape, key) == Place(Cx(t.n, t.k, t.d, t.red, true, t.r, c), Leaf)
      requires t.k < key ==> t.r.Leaf? && Seek(Top, shape, key) == Place(Cx(t.n, t.k, t.d, t.red, false, t.l, c), Leaf)
      requires t.k != key
      modifies this, Repr()
      ensures Valid() && fresh(Repr() - old(Repr())) && integrity == old(integrity)
      ensures n !in old(Foot(shape)) && shape == RbTheorems.Insert(old(shape), n, key, data)
      ensures count == old(count) + 1
      ensures depth == old(depth) + if Splits(old(shape), key) then 1 else 0
    {
      hide Foot, CFoot, Sep, CSep, Under, Holds, OwnsCtx, RB, CtxRB, InOrder, Before, After, Sorted, Plug,
           Split, Absorb, Seek, ToMap, InsertUp, Full, WellFormed, Chain;
      var added := NewNode(key, data);
      n := added;
      HangNew(added, node, key, data);
    }

    method HangNew(added: Node, node: Node, key: int, data: Pointer)
      requires Valid() && key !in Contents() && added !in Foot(shape) && added !in spare && added != root
      requires var c := Seek(Top, shape, key).c; c.Cx? && node == c.n
      requires added.key == key && added.data == data
      requires !added.red && !added.redLink && !added.isRoot && added.lnode == null && added.rnode == null
      modifies this`root, this`depth, this`count, this`shape, Foot(shape), added
      ensures Valid() && shape == RbTheorems.Insert(old(shape), added, key, data)
      ensures Foot(shape) == old(Foot(shape)) + {added}
      ensures count == old(count) + 1
      ensures depth == old(depth) + if Splits(old(shape), key) then 1 else 0
    {
      hide Foot, CFoot, Sep, CSep, Under, Holds, OwnsCtx, RB, CtxRB, InOrder, Before, After, Sorted, Plug,
           Split, Absorb, Seek, ToMap, InsertUp, Full, WellFormed, Chain;
      ghost var c := Seek(Top, shape, key).c;
      ghost var x := Br(added, key, data, false, Leaf, Leaf);
      SeekShape(shape, added, key, data, depth);
      PlaceOwns(c);
      InsertTheorem(shape, added, key, data, depth);
      SingleHolds(x);
      assert allocated(spare) && allocated(CFoot(c));
      Hang(added, node, c, x);
      shape := InsertUp(c, x);
      count := count + 1;
    }

    lemma SingleHolds(x: Tree)
      requires x.Br? && x.l.Leaf? && x.r.Leaf? && x.n.key == x.k && x.n.data == x.d && x.n.red == x.red
      requires !x.n.redLink && x.n.lnode == null && x.n.rnode == null
      ensures Holds(x) && Foot(x) == {x.n}
    {
    }

    // What the heap holds around a leaf of the tree.
    lemma PlaceOwns(c: Ctx)
      requires Owns(shape, null) && shape == Plug(c, Leaf) && root == Root(shape) && Marked(Foot(shape), root)
      ensures OwnsCtx(c, null, false) && CFoot(c) == Foot(shape) && root == Base(c)
      ensures Marked(CFoot(c), root)
    {
      UnplugOwns(c, Leaf);
      PlugFoot(c, Leaf);
      PlugRoot(c, Leaf);
    }

    // ---------- removal ----------

    // node's entry and that of its successor op change places; op is then a hole at the bottom.
    method SwapSuccessor(node: Node, ghost c: Ctx, ghost s: Tree) returns (op: Node)
      requires Valid() && s.Br? && s.r.Br? && Plug(c, s) == shape && node == s.n
      modifies Foot(shape)`key, Foot(shape)`data
      ensures op == Min(s.r).n && Hole(SuccCtx(c, s), op, Min(s.r).red, Leaf)
    {
      hide Foot, CFoot, Sep, CSep, Under, Holds, OwnsCtx, RB, Plug, Min, MinCtx, InOrder, Spine, SpineFoot;
      ghost var m := Min(s.r);
      ghost var up0 := Cx(s.n, s.k, s.d, s.red, false, s.l, c);
      ghost var up1 := Cx(s.n, m.k, m.d, s.red, false, s.l, c);
      ghost var low := MinCtx(s.r, up0);
      SuccPlace(c, s, depth);
      MinPlace(s.r, up0);
      assert Fill(up0, s.r) == s;
      assert Plug(low, m) == shape by { PlugFill(up0, s.r); }
      UnplugOwns(low, m);
      UnplugOwns(c, s);
      HoldsParts(s);
      SpineOver(s.r, up0, up1);
      SpineOwns(s.r, up0);
      HoldsParts(m);
      CtxOwnsParts(up0, s.r.n, s.r.red);
      PlugSep(c, s);
      PlugFoot(c, s);
      TreeParts(s);
      SpineAway(s.r);
      assert allocated(SpineFoot(s.r)) && allocated(Foot(s.l)) && allocated(CFoot(c)) && allocated(Foot(s.r));
      assert allocated(Under(s.r));
      op := First(node.rnode, s.r);
      SwapNodeData(node, op);
      CtxOwnsMake(up1, s.r.n, s.r.red);
      SpineOwns(s.r, up1);
      HoldsMake(Leaf);
    }

    // The node at place (c, s) has only a red child, which gives up its entry.
    method TakeRed(op0: Node, ghost c: Ctx, ghost s: Tree) returns (op: Node)
      requires Valid() && s.Br? && s.r.Leaf? && Red(s.l) && Plug(c, s) == shape && op0 == s.n
      modifies Foot(shape)`key, Foot(shape)`data, Foot(shape)`redLink, Foot(shape)`lnode
      ensures op == RemoveAt(c, s).freed && Owns(RemoveAt(c, s).t, null)
    {
      hide Foot, CFoot, Sep, CSep, Under, Holds, OwnsCtx, RB, CtxRB, Plug, InOrder, Before, After, Sorted;
      BottomPlace(c, s, depth);
      UnplugOwns(c, s);
      HoldsParts(s);
      HoldsParts(s.l);
      PlugSep(c, s);
      PlugFoot(c, s);
      TreeParts(s);
      TreeParts(s.l);
      assert allocated(CFoot(c));
      SwapNodeData(op0, op0.lnode);
      op0.redLink := false;
      op := op0.lnode;
      op.parent.lnode := null;
      HoldsMake(Leaf);
      HoldsMake(Br(s.n, s.l.k, s.l.d, s.red, Leaf, Leaf));
      PlugOwns(c, Br(s.n, s.l.k, s.l.d, s.red, Leaf, Leaf));
    }

    // The loop of rbt_remove.  op is the hole; its two links are the same whenever the loop is at
    // its top, over a subtree that is one black node short.
    method Climb(op0: Node, ghost c0: Ctx, ghost red0: bool, ghost S: set<Node>) returns (op: Node)
      requires Apart(c0, op0, Leaf) && Underflow(c0, red0, Leaf, 0) && Hole(c0, op0, red0, Leaf)
      requires S == CFoot(c0) + {op0}
      requires Marked(S, root) && root == (if c0.Top? then op0 else Base(c0))
      modifies this`depth, this`root, S
      ensures var r := RemoveUp(c0, op0, red0, Leaf);
        && op == r.freed && Owns(r.t, null) && root == Root(r.t) && Marked(S - {op}, root)
      ensures depth == old(depth) - if Shrinks(c0, red0) then 1 else 0
    {
      hide Foot, CFoot, Sep, CSep, Under, Holds, OwnsCtx, RB, CtxRB, Plug, Borrow, Merge, Lends;
      LeafParts();
      op := op0;
      ghost var c, red, w, bh := c0, red0, Leaf, 0;
      while true
        invariant Apart(c, op, w) && Underflow(c, red, w, bh) && Hole(c, op, red, w)
        invariant CFoot(c) + {op} + Foot(w) == S
        invariant Marked(S, root) && root == (if c.Top? then op else Base(c)) && depth == old(depth)
        invariant RemoveUp(c, op, red, w) == RemoveUp(c0, op0, red0, Leaf) && Shrinks(c, red) == Shrinks(c0, red0)
        decreases c
      {
        HolePlace(c, op, red, w, bh);
        Rooted(w);
        assert allocated(Foot(w)) && allocated(Under(w)) && allocated(S);
        if op.isRoot {
          ChangeRoot(op, op.lnode, -1);
          return;
        }
        CtxOwnsParts(c, op, red);
        var parent := op.parent;
        var bro;
        if op == parent.lnode {
          bro := parent.rnode;
        } else {
          bro := parent.lnode;
        }
        if op.red {
          PlugRoot(c, w);
          FillRed(parent, op, c, w);
          return;
        }
        BrotherIff(c, op, w, bh);
        if bro.red || bro.redLink {
          PlugRoot(c.up, Borrow(c, op, w).t);
          LendShape(c, op, w, bh);
          op := BorrowStep(parent, op, bro, c, w, bh, S);
          return;
        }
        MergeUnderflow(c, op, w, bh);
        MergeNodes(c, op, w);
        CtxParts(c);
        MergeStep(parent, op, bro, c, w, bh, S);
        c, op, red, w, bh := c.up, parent, c.red, Merge(c, op, w), bh + 1;
      }
    }

    // rbt_remove.  freed is the node handed to free.
    method Remove(key: int) returns (rc: Code, data: Option<Pointer>, ghost freed: Node?)
      requires Valid()
      modifies this, Foot(shape)
      ensures Valid() && integrity == old(integrity) && spare == old(spare) && pool == old(pool)
      ensures key !in old(Contents()) ==>
        rc == NotFound && data == None && freed == null && shape == old(shape) && depth == old(depth)
      ensures key in old(Contents()) ==>
        && rc == Ok && data == Some(old(Contents())[key])
        && Contents() == old(Contents()) - {key} && count == old(count) - 1
        && freed in old(Foot(shape)) && Foot(shape) == old(Foot(shape)) - {freed}
        && var t := old(shape);
        && Seek(Top, t, key).t.Br? && shape == RbTheorems.Remove(t, key).t
        && depth == old(depth) - if Collapses(t, key) then 1 else 0
    {
      hide Foot, CFoot, Sep, CSep, Under, Holds, OwnsCtx, RB, CtxRB, InOrder, Before, After, Sorted, Plug, ToMap,
           Chain, Seek, RemoveUp, Shrinks, SuccCtx, Min;
      SeekFinds(shape, key);
      assert allocated(Foot(shape)) && allocated(Under(shape)) && allocated(spare);
      var node;
      ghost var steps;
      node, steps := Search(key);
      if node == null {
        return NotFound, None, null;
      }
      data := Some(node.data);
      ghost var p := Seek(Top, shape, key);
      RemoveTheorem(shape, key, depth);
      var op := TakeOut(node, p.c, p.t);
      freed := op;
      shape := RemoveAt(p.c, p.t).t;
      count := count - 1;
      assert Valid();
      assert allocated(Foot(shape)) && allocated(Under(shape)) && allocated(spare);
      if integrity {
        HoldsLinked(shape);
        WellFormedIsSound(shape, depth);
        var bad := CheckIntegrity(root, shape);
        if bad {
          return Corrupt, None, freed;
        }
      }
      return Ok, data, freed;
    }

    // rbt_remove from the successor search to the end of the loop.
    method TakeOut(node: Node, ghost c: Ctx, ghost s: Tree) returns (op: Node)
      requires Valid() && s.Br? && Plug(c, s) == shape && node == s.n
      modifies this`depth, this`root, Foot(shape)
      ensures var r := RemoveAt(c, s);
        && op == r.freed && Owns(r.t, null) && root == Root(r.t) && Marked(Foot(shape) - {op}, root)
      ensures depth == old(depth) - if CollapsesAt(c, s) then 1 else 0
    {
      hide Foot, CFoot, Sep, CSep, Under, Holds, OwnsCtx, RB, CtxRB, InOrder, Before, After, Sorted, Plug,
           RemoveUp, Shrinks, SuccCtx, Min;
      UnplugOwns(c, s);
      HoldsParts(s);
      assert allocated(Foot(shape));
      if node.rnode != null {
        TakeOutSucc(c, s, depth);
        op := SwapSuccessor(node, c, s);
        op := Climb(op, SuccCtx(c, s), Min(s.r).red, Foot(shape));
      } else if node.redLink {
        TakeOutRed(c, s, depth);
        op := TakeRed(node, c, s);
      } else {
        TakeOutLeaf(c, s, depth);
        op := Climb(node, c, s.red, Foot(shape));
      }
    }

    method Update(node: Node, data: Pointer, ghost c: Ctx, ghost t: Tree)
      requires Valid() && t.Br? && node == t.n && node in Foot(shape) && Plug(c, t) == shape
      modifies this`shape, node`data
      ensures Valid() && shape == Plug(c, t.(d := data)) && Foot(shape) == old(Foot(shape))
      ensures Contents() == old(Contents())[t.k := data]
    {
      hide Foot, CFoot, Sep, CSep, Under, Holds, OwnsCtx, RB, InOrder, Before, After, Sorted, Plug, ToMap, Chain;
      UnplugOwns(c, t);
      HoldsParts(t);
      PlugSep(c, t);
      TreeParts(t);
      UpdateTheorem(c, t, data, depth);
      assert allocated(Foot(shape)) && allocated(Foot(t.l)) && allocated(Foot(t.r)) && allocated(CFoot(c));
      node.data := data;
      HoldsMake(t.(d := data));
      PlugOwns(c, t.(d := data));
      shape := Plug(c, t.(d := data));
    }

    // rbt_insert.  With update set the caller must say where the old data goes.
    method Insert(key: int, data: Pointer, isUpdate: bool, hasOldData: bool)
      returns (rc: Code, oldData: Option<Pointer>)
      requires Valid()
      modifies this, Repr()
      ensures Valid() && fresh(Repr() - old(Repr())) && integrity == old(integrity)
      ensures isUpdate && !hasOldData ==>
        rc == InvalidParam && oldData == None && shape == old(shape) && depth == old(depth)
      ensures !(isUpdate && !hasOldData) && key in old(Contents()) ==>
        && count == old(count) && depth == old(depth)
        && if isUpdate then
             rc == Ok && oldData == Some(old(Contents())[key]) && Contents() == old(Contents())[key := data]
           else
             rc == AlreadyExist && oldData == None && shape == old(shape)
      ensures !(isUpdate && !hasOldData) && key !in old(Contents()) ==>
        && rc == Ok && oldData == None
        && Contents() == old(Contents())[key := data] && count == old(count) + 1
        && depth == old(depth) + (if Splits(old(shape), key) then 1 else 0)
        && exists n <- Foot(shape) :: n !in old(Foot(shape)) && shape == RbTheorems.Insert(old(shape), n, key, data)
    {
      hide Foot, CFoot, Sep, CSep, Under, Holds, OwnsCtx, RB, InOrder, Before, After, Sorted, Plug, ToMap, Chain,
           Seek, Splits;
      if isUpdate && !hasOldData {
        return InvalidParam, None;
      }
      SeekFinds(shape, key);
      ghost var n;
      if root == null {
        n := InsertRoot(key, data);
        EmptyInsert(old(shape), n, key, data, old(depth));
      } else {
        var node;
        ghost var c, t;
        node, c, t := Locate(key);
        if node.key == key {
          if isUpdate {
            oldData := Some(node.data);
            Update(node, data, c, t);
            return Ok, oldData;
          } else {
            return AlreadyExist, None;
          }
        }
        n := InsertNew(key, data, node, c, t);
      }
      InsertTheorem(old(shape), n, key, data, old(depth));
      assert n in Foot(shape);
      assert allocated(Foot(shape)) && allocated(spare);
      if integrity {
        HoldsLinked(shape);
        WellFormedIsSound(shape, depth);
        var bad := CheckIntegrity(root, shape);
        if bad {
          return Corrupt, None;
        }
      }
      return Ok, None;
    }

    // rbt_search.  At most 2 * depth nodes are looked at.
    method Search(key: int) returns (found: Node?, ghost steps: nat)
      requires Valid()
      ensures found != null <==> key in Contents()
      ensures found != null ==> found in Foot(shape) && found.key == key && found.data == Contents()[key]
      ensures found == Root(Seek(Top, shape, key).t)
      ensures steps <= 2 * depth
    {
      steps := 0;
      SeekFinds(shape, key);
      LevelsBound(shape, depth);
      if root == null {
        return null, 0;
      }
      var node := root;
      ghost var c, t := Top, shape;
      while true
        invariant t.Br? && node == t.n && Owns(t, Over(c)) && Foot(t) <= Foot(shape)
        invariant Seek(c, t, key) == Seek(Top, shape, key)
        invariant steps + Levels(t) <= Levels(shape)
        decreases t
      {
        steps := steps + 1;
        if node.key == key {
          break;
        } else if node.key > key {
          if node.lnode != null {
            node := node.lnode;
            c, t := Cx(t.n, t.k, t.d, t.red, true, t.r, c), t.l;
          } else {
            return null, steps;
          }
        } else {
          if node.rnode != null {
            node := node.rnode;
            c, t := Cx(t.n, t.k, t.d, t.red, false, t.l, c), t.r;
          } else {
            return null, steps;
          }
        }
      }
      found := node;
    }
  }
}
