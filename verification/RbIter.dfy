/** rbt_first, rbt_last, rbt_next and rbt_prev: walking a tree through its parent links. */
module RbIter {
  import opened Entries
  import opened RbShape
  import opened RbTheorems
  import opened RbLinks
  import opened RbRemove
  import RbTree

  // The nodes of t from left to right, and those to the left and right of a hole.
  ghost function Nodes(t: Tree): seq<Node>
  {
    if t.Leaf? then [] else Nodes(t.l) + [t.n] + Nodes(t.r)
  }

  ghost function NodesBefore(c: Ctx): seq<Node>
  {
    if c.Top? then []
    else if c.left then NodesBefore(c.up)
    else NodesBefore(c.up) + (Nodes(c.sib) + [c.n])
  }

  ghost function NodesAfter(c: Ctx): seq<Node>
  {
    if c.Top? then []
    else if c.left then [c.n] + Nodes(c.sib) + NodesAfter(c.up)
    else NodesAfter(c.up)
  }

  lemma {:induction false} PlugNodes(c: Ctx, t: Tree)
    ensures Nodes(Plug(c, t)) == NodesBefore(c) + Nodes(t) + NodesAfter(c)
    decreases c
  {
    if c.Cx? {
      PlugNodes(c.up, Fill(c, t));
    }
  }

  lemma {:induction false} NodesInFoot(t: Tree)
    ensures forall n :: n in Nodes(t) <==> n in Foot(t)
    decreases t
  {
    if t.Br? {
      NodesInFoot(t.l);
      NodesInFoot(t.r);
    }
  }

  // The place of the i-th node.
  lemma {:induction false} PlaceOf(c: Ctx, t: Tree, i: nat) returns (c': Ctx, s: Tree)
    requires i < |Nodes(t)|
    ensures Plug(c', s) == Plug(c, t) && s.Br? && s.n == Nodes(t)[i]
    ensures |NodesBefore(c')| + |Nodes(s.l)| == |NodesBefore(c)| + i
    decreases t
  {
    if i < |Nodes(t.l)| {
      c', s := PlaceOf(Cx(t.n, t.k, t.d, t.red, true, t.r, c), t.l, i);
    } else if i == |Nodes(t.l)| {
      c', s := c, t;
    } else {
      c', s := PlaceOf(Cx(t.n, t.k, t.d, t.red, false, t.l, c), t.r, i - |Nodes(t.l)| - 1);
    }
  }

  // Nodes and entries correspond, and the heap holds each entry in its node.
  lemma {:induction false} NodesHoldEntries(t: Tree, i: nat)
    requires Holds(t) && i < |Nodes(t)|
    ensures |Nodes(t)| == |InOrder(t)|
    ensures Nodes(t)[i].key == InOrder(t)[i].0 && Nodes(t)[i].data == InOrder(t)[i].1
    decreases t
  {
    NodesCount(t.l);
    NodesCount(t.r);
    if i < |Nodes(t.l)| {
      NodesHoldEntries(t.l, i);
    } else if i > |Nodes(t.l)| {
      NodesHoldEntries(t.r, i - |Nodes(t.l)| - 1);
    }
  }

  lemma {:induction false} NodesCount(t: Tree)
    ensures |Nodes(t)| == |InOrder(t)|
    decreases t
  {
    if t.Br? {
      NodesCount(t.l);
      NodesCount(t.r);
    }
  }

  lemma {:induction false} MinIsFirst(t: Tree)
    requires t.Br?
    ensures Nodes(t)[0] == Min(t).n
    decreases t
  {
    if t.l.Br? {
      MinIsFirst(t.l);
    }
  }

  method Last(root: Node?, ghost t: Tree) returns (last: Node?)
    requires root == Root(t) && Holds(t)
    ensures last == if t.Leaf? then null else Nodes(t)[|Nodes(t)| - 1]
  {
    if root == null {
      return null;
    }
    var node := root;
    ghost var s := t;
    while true
      invariant s.Br? && node == s.n && Holds(s)
      invariant Nodes(s)[|Nodes(s)| - 1] == Nodes(t)[|Nodes(t)| - 1]
      decreases s
    {
      if node.rnode == null {
        return node;
      }
      node, s := node.rnode, s.r;
    }
  }

  // A tree that can be walked: its links and its root mark are right.
  ghost predicate Walkable(t: Tree)
    reads Foot(t)
  {
    Owns(t, null) && Sep(t) && Marked(Foot(t), Root(t))
  }

  // What the climb sees at place (c, s).
  lemma ClimbPlace(c: Ctx, s: Tree)
    requires s.Br? && Walkable(Plug(c, s))
    ensures s.n.isRoot <==> c.Top?
    ensures c.Cx? ==>
      && s.n.parent == c.n && (c.n.rnode == s.n <==> !c.left) && (c.n.lnode == s.n <==> c.left)
    ensures Owns(s, Over(c))
  {
    UnplugOwns(c, s);
    PlugRoot(c, s);
    PlugFoot(c, s);
    PlugSep(c, s);
    if c.Cx? {
      BaseIn(c);
      assert c.sib.Br? ==> c.sib.n in Foot(c.sib);
    }
  }

  lemma {:induction false} BaseIn(c: Ctx)
    requires c.Cx?
    ensures Base(c) in CFoot(c)
    decreases c
  {
    if c.up.Cx? {
      BaseIn(c.up);
    }
  }

  method Next(current: Node?, ghost t: Tree, ghost i: nat) returns (next: Node?)
    requires current != null ==> Walkable(t) && i < |Nodes(t)| && current == Nodes(t)[i]
    ensures next == if current != null && i + 1 < |Nodes(t)| then Nodes(t)[i + 1] else null
  {
    if current == null {
      return null;
    }
    hide Foot, CFoot, Sep, CSep, OwnsCtx, Plug, Marked, Under;
    var node := current;
    ghost var c, s := PlaceOf(Top, t, i);
    assert Plug(Top, t) == t by { PlugTop(t); }
    PlugNodes(c, s);
    ClimbPlace(c, s);
    assert allocated(Foot(t)) && allocated(Under(t));
    if node.rnode == null {
      while true
        invariant Walkable(t) && s.Br? && node == s.n && Plug(c, s) == t
        invariant |NodesBefore(c)| + |Nodes(s)| == i + 1
        decreases c
      {
        ClimbPlace(c, s);
        PlugNodes(c, s);
        var parent := node.parent;
        if node.isRoot {
          return null;
        }
        if node == parent.rnode {
          PlugFill(c, s);
          node, c, s := parent, c.up, Fill(c, s);
        } else {
          return parent;
        }
      }
    }
    MinIsFirst(s.r);
    node := node.rnode;
    ghost var d := s.r;
    while true
      invariant d.Br? && node == d.n && Holds(d) && Min(d) == Min(s.r)
      decreases d
    {
      if node.lnode != null {
        node, d := node.lnode, d.l;
      } else {
        return node;
      }
    }
  }

  method Prev(current: Node?, ghost t: Tree, ghost i: nat) returns (prev: Node?)
    requires current != null ==> Walkable(t) && i < |Nodes(t)| && current == Nodes(t)[i]
    ensures prev == if current != null && i > 0 then Nodes(t)[i - 1] else null
  {
    if current == null {
      return null;
    }
    hide Foot, CFoot, Sep, CSep, OwnsCtx, Plug, Marked, Under;
    var node := current;
    ghost var c, s := PlaceOf(Top, t, i);
    assert Plug(Top, t) == t by { PlugTop(t); }
    PlugNodes(c, s);
    ClimbPlace(c, s);
    assert allocated(Foot(t)) && allocated(Under(t));
    if node.lnode == null {
      while true
        invariant Walkable(t) && s.Br? && node == s.n && Plug(c, s) == t
        invariant |NodesBefore(c)| == i
        decreases c
      {
        ClimbPlace(c, s);
        PlugNodes(c, s);
        var parent := node.parent;
        if node.isRoot {
          return null;
        }
        if node == parent.lnode {
          PlugFill(c, s);
          node, c, s := parent, c.up, Fill(c, s);
        } else {
          return parent;
        }
      }
    }
    node := node.lnode;
    ghost var d := s.l;
    while true
      invariant d.Br? && node == d.n && Holds(d)
      invariant Nodes(d)[|Nodes(d)| - 1] == Nodes(s.l)[|Nodes(s.l)| - 1]
      decreases d
    {
      if node.rnode != null {
        node, d := node.rnode, d.r;
      } else {
        return node;
      }
    }
  }

  lemma PlugTop(t: Tree)
    ensures Plug(Top, t) == t
  {
  }

  // rbt_prev undoes rbt_next.
  method NextThenPrev(current: Node, ghost t: Tree, ghost i: nat) returns (next: Node?, back: Node?)
    requires Walkable(t) && i < |Nodes(t)| && current == Nodes(t)[i]
    ensures next == null <==> i + 1 == |Nodes(t)|
    ensures next != null ==> back == current
    ensures next != null && Sorted(InOrder(t)) ==> current.key < next.key
  {
    assert allocated(Foot(t)) && allocated(Under(t));
    next := Next(current, t, i);
    back := null;
    if next != null {
      assert allocated(Foot(t)) && allocated(Under(t));
      NodesCount(t);
      NodesHoldEntries(t, i);
      NodesHoldEntries(t, i + 1);
      back := Prev(next, t, i + 1);
    }
  }

  // Walking from the first node with rbt_next meets every key once, in ascending order, and ends
  // after `count` nodes.
  method Walk(tree: RbTree.RbTree) returns (keys: seq<int>)
    requires tree.Valid()
    ensures |keys| == tree.count
    ensures forall i, j :: 0 <= i < j < |keys| ==> keys[i] < keys[j]
    ensures forall k :: k in keys <==> k in tree.Contents()
  {
    keys := WalkFrom(tree.root, tree.shape);
  }

  method WalkFrom(root: Node?, ghost t: Tree) returns (keys: seq<int>)
    requires root == Root(t) && Walkable(t) && Sorted(InOrder(t))
    ensures |keys| == |InOrder(t)| && forall i :: 0 <= i < |keys| ==> keys[i] == InOrder(t)[i].0
    ensures forall i, j :: 0 <= i < j < |keys| ==> keys[i] < keys[j]
    ensures forall k :: k in keys <==> k in ToMap(InOrder(t))
  {
    keys := [];
    ghost var i := 0;
    NodesCount(t);
    assert allocated(Foot(t)) && allocated(Under(t));
    if t.Br? { MinIsFirst(t); }
    var node := First(root, t);
    while node != null
      invariant Walkable(t) && i <= |Nodes(t)| && |keys| == i
      invariant node == if i < |Nodes(t)| then Nodes(t)[i] else null
      invariant forall j :: 0 <= j < i ==> keys[j] == InOrder(t)[j].0
      decreases |Nodes(t)| - i
    {
      NodesHoldEntries(t, i);
      keys := keys + [node.key];
      assert allocated(Foot(t)) && allocated(Under(t));
      node := Next(node, t, i);
      i := i + 1;
    }
    KeysOf(t, keys);
  }

  lemma KeysOf(t: Tree, keys: seq<int>)
    requires Sorted(InOrder(t))
    requires |keys| == |InOrder(t)| && forall i :: 0 <= i < |keys| ==> keys[i] == InOrder(t)[i].0
    ensures forall k :: k in keys <==> k in ToMap(InOrder(t))
  {
    var s := InOrder(t);
    forall k | k in ToMap(s) ensures k in keys {
      var e :| e in s && e.0 == k;
      var i :| 0 <= i < |s| && s[i] == e;
      assert keys[i] == k;
    }
    forall k | k in keys ensures k in ToMap(s) {
      var i :| 0 <= i < |keys| && keys[i] == k;
      assert s[i] in s;
    }
  }
}
