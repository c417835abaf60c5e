/** lbs_23tree_search_node_or_parent, and the places of a heap tree it leads to. */
module TwoThreeSearch {
  import opened Entries
  import S = TwoThreeSpec
  import T = TwoThreeTheorems
  import opened TwoThreeHeap

  datatype SearchResult = LValue | RValue | Parent | Error

  // ---------- places of the heap tree ----------

  // A tree has only one place with a given path.
  lemma {:induction false} SamePlace(c: Ctx, s: Tree, d: Ctx, t: Tree)
    requires Plug(c, s) == Plug(d, t) && ErasePath(c) == ErasePath(d)
    ensures c == d && s == t
    decreases c
  {
    if !c.Top? {
      SamePlace(c.up, Fill(c, s), d.up, Fill(d, t));
    }
  }

  ghost function Leftmost(t: Tree): Tree
    requires !t.Nil?
    ensures !Leftmost(t).Nil?
    decreases t
  {
    if t.l.Nil? then t else Leftmost(t.l)
  }

  ghost function LeftCtx(c: Ctx, t: Tree): Ctx
    requires !t.Nil?
  {
    if t.N2? then C2(t.n, t.k, t.v, true, t.r, c) else C3(t.n, t.k1, t.v1, t.k2, t.v2, S.L, t.m, t.r, c)
  }

  ghost function LeftmostCtx(c: Ctx, t: Tree): Ctx
    requires !t.Nil?
    decreases t
  {
    if t.l.Nil? then c else LeftmostCtx(LeftCtx(c, t), t.l)
  }

  ghost function NextTree(s: Tree, key: int): Tree
    requires T.HasKey(Erase(s), key)
  {
    if s.N3? && s.k1 == key then s.m else s.r
  }

  // The path into the subtree after key, when (k, v) has replaced the entry of key.
  ghost function NextCtx(c: Ctx, s: Tree, key: int, k: int, v: Pointer): Ctx
    requires T.HasKey(Erase(s), key)
  {
    if s.N2? then C2(s.n, k, v, false, s.l, c)
    else if s.k1 == key then C3(s.n, k, v, s.k2, s.v2, S.M, s.l, s.r, c)
    else C3(s.n, s.k1, s.v1, k, v, S.R, s.l, s.m, c)
  }

  lemma NextErase(c: Ctx, s: Tree, key: int, k: int, v: Pointer)
    requires T.HasKey(Erase(s), key)
    ensures Erase(NextTree(s, key)) == T.NextSub(Erase(s), key)
    ensures ErasePath(NextCtx(c, s, key, k, v)) == T.NextPath(ErasePath(c), Erase(s), key, k, v)
    ensures Plug(NextCtx(c, s, key, key, T.DataOf(Erase(s), key)), NextTree(s, key)) == Plug(c, s)
  {
  }

  lemma {:induction false} LeftmostErase(c: Ctx, t: Tree)
    requires !t.Nil?
    ensures Erase(Leftmost(t)) == T.Min(Erase(t))
    ensures ErasePath(LeftmostCtx(c, t)) == T.MinPath(ErasePath(c), Erase(t))
    ensures Plug(LeftmostCtx(c, t), Leftmost(t)) == Plug(c, t)
    decreases t
  {
    if !t.l.Nil? {
      LeftmostErase(LeftCtx(c, t), t.l);
    }
  }

  lemma {:induction false} LeftmostFoot(c: Ctx, t: Tree)
    requires !t.Nil?
    ensures CFoot(LeftmostCtx(c, t)) + Foot(Leftmost(t)) == CFoot(c) + Foot(t)
    ensures CSep(c) && Sep(t) && CFoot(c) !! Foot(t) ==>
      CSep(LeftmostCtx(c, t)) && Sep(Leftmost(t)) && CFoot(LeftmostCtx(c, t)) !! Foot(Leftmost(t))
    decreases t
  {
    var d, u := LeftmostCtx(c, t), Leftmost(t);
    LeftmostErase(c, t);
    PlugFoot(c, t);
    PlugFoot(d, u);
    PlugSep(c, t);
    PlugSep(d, u);
  }

  lemma {:induction false} LeftmostOwns(c: Ctx, t: Tree)
    requires !t.Nil? && OwnsCtx(c, t.n) && Owns(t, Over(c))
    ensures OwnsCtx(LeftmostCtx(c, t), Leftmost(t).n) && Owns(Leftmost(t), Over(LeftmostCtx(c, t)))
    decreases t
  {
    if !t.l.Nil? {
      LeftmostOwns(LeftCtx(c, t), t.l);
    }
  }

  // ---------- the search ----------

  lemma {:induction false} HeightOf(s: S.Shape, h: int)
    requires S.Balanced(s, h)
    ensures h >= 0
    decreases s
  {
    S.BalancedHeight(s, h);
  }

  lemma KeyFields(s: Tree, key: int)
    requires !s.Nil? && Holds(s) && T.KeysOk(S.InOrder(Erase(s))) && 0 <= key < NO_KEY
    ensures s.n.lkey != NO_KEY && (s.n.IsTri() <==> s.N3?)
    ensures s.n.IsLeaf() <==> s.l.Nil?
    ensures T.HasKey(Erase(s), key) <==> s.n.lkey == key || s.n.rkey == key
    ensures s.n.lkey == key ==> T.DataOf(Erase(s), key) == s.n.lvalue
    ensures s.n.lkey != key && s.n.rkey == key ==> s.N3? && T.DataOf(Erase(s), key) == s.n.rvalue
  {
    if s.N2? {
      assert (s.k, s.v) in S.InOrder(Erase(s));
    } else {
      assert (s.k1, s.v1) in S.InOrder(Erase(s));
      assert (s.k2, s.v2) in S.InOrder(Erase(s));
    }
  }

  // The child GET_POSIBLE_SUBTREE picks.
  ghost function SubCtx(c: Ctx, s: Tree, key: int): Ctx
    requires !s.Nil?
  {
    if s.N2? then
      if s.k > key then C2(s.n, s.k, s.v, true, s.r, c) else C2(s.n, s.k, s.v, false, s.l, c)
    else
      if s.k1 > key then C3(s.n, s.k1, s.v1, s.k2, s.v2, S.L, s.m, s.r, c)
      else if s.k2 < key then C3(s.n, s.k1, s.v1, s.k2, s.v2, S.R, s.l, s.m, c)
      else C3(s.n, s.k1, s.v1, s.k2, s.v2, S.M, s.l, s.r, c)
  }

  ghost function SubTree(s: Tree, key: int): Tree
    requires !s.Nil?
  {
    if s.N2? then if s.k > key then s.l else s.r
    else if s.k1 > key then s.l
    else if s.k2 < key then s.r
    else s.m
  }

  lemma SubKeys(s: Tree, key: int)
    requires !s.Nil? && T.KeysOk(S.InOrder(Erase(s)))
    ensures T.KeysOk(S.InOrder(Erase(SubTree(s, key))))
  {
    hide S.InOrder;
    var all := S.InOrder(Erase(s));
    if s.N2? { S.TwoInOrder(Erase(s)); } else { S.ThreeInOrder(Erase(s)); }
    assert forall e <- S.InOrder(Erase(SubTree(s, key))) :: e in all;
  }

  lemma SubBalanced(s: Tree, key: int, h: int)
    requires !s.Nil? && S.Balanced(Erase(s), h)
    ensures var t := SubTree(s, key); S.Balanced(Erase(t), h - 1) && (t.Nil? <==> s.l.Nil?)
  {
    S.BalancedHeight(Erase(s.l), h - 1);
    S.BalancedHeight(Erase(SubTree(s, key)), h - 1);
  }

  lemma SubPlace(c: Ctx, s: Tree, key: int)
    requires !s.Nil?
    ensures var d, t := SubCtx(c, s, key), SubTree(s, key);
      && T.Below(ErasePath(c), Erase(s), key) == T.Place(ErasePath(d), Erase(t))
      && Plug(d, t) == Plug(c, s) && !d.Top? && d.n == s.n
  {
  }

  lemma SubOwns(c: Ctx, s: Tree, key: int)
    requires !s.Nil? && OwnsCtx(c, s.n) && Owns(s, Over(c))
    ensures OwnsCtx(SubCtx(c, s, key), Root(SubTree(s, key))) && Owns(SubTree(s, key), s.n)
    ensures s.N2? ==> s.n.lkey == s.k && s.n.lchild == Root(s.l) && s.n.rchild == Root(s.r)
    ensures s.N3? ==>
      && s.n.lkey == s.k1 && s.n.rkey == s.k2
      && s.n.lchild == Root(s.l) && s.n.mchild == Root(s.m) && s.n.rchild == Root(s.r)
  {
  }

  // Ends at the node with the key or at the leaf below which it belongs, after at most h nodes.
  method SearchNodeOrParent(starter: Node?, key: int, ghost c: Ctx, ghost s: Tree, ghost h: int)
    returns (node: Node?, result: SearchResult, ghost d: Ctx, ghost t: Tree, ghost steps: nat)
    requires starter == Root(s) && OwnsCtx(c, starter) && Owns(s, Over(c))
    requires T.KeysOk(S.InOrder(Erase(s))) && S.Balanced(Erase(s), h) && 0 <= key < NO_KEY
    ensures node == Root(t) && Plug(d, t) == Plug(c, s) && OwnsCtx(d, node) && Owns(t, Over(d))
    ensures s.Nil? ==> t == s && result == Error
    ensures !s.Nil? ==>
      && !t.Nil? && T.Probe(ErasePath(c), Erase(s), key) == T.Place(ErasePath(d), Erase(t))
      && (result.Parent? <==> !T.HasKey(Erase(t), key))
      && (result.LValue? ==> node.lkey == key && T.DataOf(Erase(t), key) == node.lvalue)
      && (result.RValue? ==> node.lkey != key && node.rkey == key && T.DataOf(Erase(t), key) == node.rvalue)
      && (result.Parent? ==> t.l.Nil?) && !result.Error?
      && T.KeysOk(S.InOrder(Erase(t)))
    ensures steps <= h
    decreases s
  {
    hide Foot, CFoot, Holds, OwnsCtx, S.InOrder, T.HasKey, T.DataOf, S.Balanced, Plug;
    HeightOf(Erase(s), h);
    steps := 0;
    d, t := c, s;
    if starter == null {
      return null, Error, d, t, steps;
    }
    KeyFields(s, key);
    if starter.lkey == NO_KEY {
      return null, Error, d, t, steps;
    }
    SubPlace(c, s, key);
    SubKeys(s, key);
    SubBalanced(s, key, h);
    SubOwns(c, s, key);
    HeightOf(Erase(SubTree(s, key)), h - 1);
    steps := 1;
    if starter.lkey == key {
      return starter, LValue, d, t, steps;
    } else if starter.rkey == key {
      return starter, RValue, d, t, steps;
    }
    if starter.IsLeaf() {
      return starter, Parent, d, t, steps;
    }
    var subtree :=
      if starter.lkey > key then starter.lchild
      else if starter.IsTri() then if starter.rkey < key then starter.rchild else starter.mchild
      else starter.rchild;
    node, result, d, t, steps := SearchNodeOrParent(subtree, key, SubCtx(c, s, key), SubTree(s, key), h - 1);
    steps := steps + 1;
  }

  // ---------- the successor ----------

  ghost function WithFirst(t: Tree, k: int, v: Pointer): Tree
    requires !t.Nil?
  {
    if t.N2? then t.(k := k, v := v) else t.(k1 := k, v1 := v)
  }

  // The leaf with the successor of key, and the path to it when the two entries are swapped.
  ghost function SwapTree(s: Tree, key: int): Tree
    requires T.HasKey(Erase(s), key) && !NextTree(s, key).Nil?
  {
    WithFirst(Leftmost(NextTree(s, key)), key, T.DataOf(Erase(s), key))
  }

  ghost function SwapCtx(c: Ctx, s: Tree, key: int): Ctx
    requires T.HasKey(Erase(s), key) && !NextTree(s, key).Nil?
  {
    var t := NextTree(s, key);
    var m := Erase(Leftmost(t));
    LeftmostCtx(NextCtx(c, s, key, T.FirstKey(m), T.FirstData(m)), t)
  }

  // Probing for the next key value from an interior node reaches the leftmost leaf of the subtree
  // after the key.
  lemma ProbedPlace(c: Ctx, s: Tree, key: int, h: int, d: Ctx, t: Tree)
    requires T.HasKey(Erase(s), key) && !s.l.Nil? && Sorted(S.InOrder(Erase(s))) && S.Balanced(Erase(s), h)
    requires Plug(d, t) == Plug(c, s)
    requires T.Probe(ErasePath(c), Erase(s), key + 1) == T.Place(ErasePath(d), Erase(t))
    ensures !NextTree(s, key).Nil?
    ensures d == LeftmostCtx(NextCtx(c, s, key, key, T.DataOf(Erase(s), key)), NextTree(s, key))
    ensures t == Leftmost(NextTree(s, key))
  {
    hide S.InOrder, Sorted, T.Probe, S.Balanced, Plug;
    T.ProbeSuccessor(ErasePath(c), Erase(s), key, h);
    var v := T.DataOf(Erase(s), key);
    NextErase(c, s, key, key, v);
    LeftmostErase(NextCtx(c, s, key, key, v), NextTree(s, key));
    SamePlace(d, t, LeftmostCtx(NextCtx(c, s, key, key, v), NextTree(s, key)), Leftmost(NextTree(s, key)));
  }

  lemma NextKeyIsKey(c: Ctx, s: Tree, key: int, h: int)
    requires T.HasKey(Erase(s), key) && !s.l.Nil? && Sorted(S.InOrder(Erase(s))) && S.Balanced(Erase(s), h)
    requires T.KeysOk(S.InOrder(Erase(s)))
    ensures key + 1 < NO_KEY && !NextTree(s, key).Nil?
  {
    hide S.InOrder, Sorted, T.Probe, S.Balanced;
    T.ProbeSuccessor(ErasePath(c), Erase(s), key, h);
    NextErase(c, s, key, key, T.DataOf(Erase(s), key));
    var x := S.InOrder(T.NextSub(Erase(s), key));
    T.NonEmptyInOrder(T.NextSub(Erase(s), key));
    if s.N2? { S.TwoInOrder(Erase(s)); } else { S.ThreeInOrder(Erase(s)); }
    assert x[0] in x && x[0] in S.InOrder(Erase(s));
  }

  lemma NextFoot(c: Ctx, s: Tree, key: int, k: int, v: Pointer)
    requires T.HasKey(Erase(s), key) && CSep(c) && Sep(s) && CFoot(c) !! Foot(s)
    ensures var d, t := NextCtx(c, s, key, k, v), NextTree(s, key);
      && CSep(d) && Sep(t) && CFoot(d) !! Foot(t) && CFoot(d) + Foot(t) == CFoot(c) + Foot(s)
      && s.n in Foot(s) && s.n !in Foot(t) && Foot(t) <= Foot(s) && s.n !in CFoot(c) && Over(d) == s.n
  {
  }

  // The links and keys around the subtree after key, before and after the swap.
  lemma NextOwns(c: Ctx, s: Tree, key: int, k: int, v: Pointer)
    requires T.HasKey(Erase(s), key) && OwnsCtx(c, s.n) && s.n.parent == Over(c)
    requires s.N2? ==> IsTwo(s.n, k, v) && Slots(s.n, Root(s.l), null, null, Root(s.r)) && Owns(s.l, s.n)
    requires s.N3? ==>
      && (if s.k1 == key then IsThree(s.n, k, v, s.k2, s.v2) else IsThree(s.n, s.k1, s.v1, k, v))
      && Slots(s.n, Root(s.l), Root(s.m), null, Root(s.r)) && Owns(s.l, s.n) && Owns(s.m, s.n) && Owns(s.r, s.n)
    ensures OwnsCtx(NextCtx(c, s, key, k, v), Root(NextTree(s, key)))
  {
  }

  lemma WithFirstFoot(t: Tree, k: int, v: Pointer)
    requires !t.Nil? && Sep(t)
    ensures var u := WithFirst(t, k, v); !u.Nil? && u.n == t.n && t.n in Foot(t) && Foot(u) == Foot(t) && Sep(u)
  {
  }

  // An entry of an interior node is replaced.
  method PutEntry(node: Node, key: int, k: int, v: Pointer, ghost c: Ctx, ghost s: Tree)
    requires T.HasKey(Erase(s), key) && (s.N3? ==> s.k1 < s.k2) && key != NO_KEY && s.n == node
    requires CSep(c) && Sep(s) && CFoot(c) !! Foot(s) && OwnsCtx(c, node) && Owns(s, Over(c))
    modifies node`lkey, node`lvalue, node`rkey, node`rvalue
    ensures OwnsCtx(NextCtx(c, s, key, k, v), Root(NextTree(s, key))) && Owns(NextTree(s, key), node)
  {
    hide Foot, CFoot, Holds, OwnsCtx, Sep, CSep, NextCtx;
    NextFoot(c, s, key, k, v);
    if s.N2? { Parts2(s); } else { Parts3(s); }
    HoldsParts(s);
    if node.rkey == key {
      node.rkey, node.rvalue := k, v;
    } else {
      node.lkey, node.lvalue := k, v;
    }
    NextOwns(c, s, key, k, v);
  }

  method PutFirst(leaf: Node, k: int, v: Pointer, ghost d: Ctx, ghost m: Tree)
    requires Root(m) == leaf && CSep(d) && Sep(m) && CFoot(d) !! Foot(m) && OwnsCtx(d, leaf) && Owns(m, Over(d))
    modifies leaf`lkey, leaf`lvalue
    ensures var t := WithFirst(m, k, v);
      Root(t) == leaf && Sep(t) && Foot(t) == Foot(m) && OwnsCtx(d, leaf) && Owns(t, Over(d))
  {
    hide Foot, CFoot, Holds, OwnsCtx, Sep, CSep;
    WithFirstFoot(m, k, v);
    if m.N2? { Parts2(m); } else { Parts3(m); }
    HoldsParts(m);
    leaf.lkey, leaf.lvalue := k, v;
    HoldsMake(WithFirst(m, k, v));
  }

  // The data of the key, and the first entry of the leaf reached from it, read off the fields.
  lemma SwapReads(c: Ctx, s: Tree, key: int)
    requires T.HasKey(Erase(s), key) && !NextTree(s, key).Nil? && (s.N3? ==> s.k1 < s.k2) && key != NO_KEY
    requires OwnsCtx(c, s.n) && Owns(s, Over(c))
    ensures T.DataOf(Erase(s), key) == if s.n.rkey == key then s.n.rvalue else s.n.lvalue
    ensures var m := Leftmost(NextTree(s, key)); T.FirstKey(Erase(m)) == m.n.lkey && T.FirstData(Erase(m)) == m.n.lvalue
  {
    hide OwnsCtx, Holds, Foot, CFoot, LeftmostCtx, Leftmost;
    HoldsParts(s);
    var v := T.DataOf(Erase(s), key);
    NextOwns(c, s, key, key, v);
    LeftmostOwns(NextCtx(c, s, key, key, v), NextTree(s, key));
    HoldsParts(Leftmost(NextTree(s, key)));
  }

  // The entry of key and its successor change places.
  method SwapEntries(node: Node, successor: Node, key: int, ghost c: Ctx, ghost s: Tree)
    requires T.HasKey(Erase(s), key) && !NextTree(s, key).Nil? && (s.N3? ==> s.k1 < s.k2) && key != NO_KEY
    requires s.n == node && Leftmost(NextTree(s, key)).n == successor
    requires CSep(c) && Sep(s) && CFoot(c) !! Foot(s) && OwnsCtx(c, node) && Owns(s, Over(c))
    modifies node`lkey, node`lvalue, node`rkey, node`rvalue, successor`lkey, successor`lvalue
    ensures var d, t := SwapCtx(c, s, key), SwapTree(s, key);
      && CSep(d) && Sep(t) && CFoot(d) !! Foot(t) && CFoot(d) + Foot(t) == CFoot(c) + Foot(s)
      && Root(t) == successor && OwnsCtx(d, successor) && Owns(t, Over(d))
  {
    hide Foot, CFoot, Holds, OwnsCtx, Sep, CSep, LeftmostCtx, Leftmost, NextCtx, T.DataOf, WithFirst;
    ghost var n := NextTree(s, key);
    ghost var m := Leftmost(n);
    ghost var e := NextCtx(c, s, key, T.FirstKey(Erase(m)), T.FirstData(Erase(m)));
    NextFoot(c, s, key, T.FirstKey(Erase(m)), T.FirstData(Erase(m)));
    LeftmostFoot(e, n);
    WithFirstFoot(m, 0, 0);
    SwapReads(c, s, key);
    var k, v := successor.lkey, successor.lvalue;
    var v0 := if node.rkey == key then node.rvalue else node.lvalue;
    PutEntry(node, key, k, v, c, s);
    LeftmostOwns(e, n);
    PutFirst(successor, key, v0, LeftmostCtx(e, n), m);
  }

  lemma OrderedKeys(s: Tree)
    requires Sorted(S.InOrder(Erase(s))) && s.N3?
    ensures s.k1 < s.k2
  {
    var x, y := S.InOrder(Erase(s.l)), S.InOrder(Erase(s.m));
    assert S.InOrder(Erase(s))[|x|] == (s.k1, s.v1);
    assert S.InOrder(Erase(s))[|x| + 1 + |y|] == (s.k2, s.v2);
  }

  method GetSuccessorAndSwap(node: Node, key: int, ghost c: Ctx, ghost s: Tree, ghost h: int)
    returns (successor: Node?, ghost d: Ctx, ghost t: Tree)
    requires T.HasKey(Erase(s), key) && Root(s) == node && 0 <= key < NO_KEY
    requires Sorted(S.InOrder(Erase(s))) && T.KeysOk(S.InOrder(Erase(s))) && S.Balanced(Erase(s), h)
    requires CSep(c) && Sep(s) && CFoot(c) !! Foot(s) && OwnsCtx(c, node) && Owns(s, Over(c))
    modifies Foot(s)`lkey, Foot(s)`lvalue, Foot(s)`rkey, Foot(s)`rvalue
    ensures s.l.Nil? ==> d == c && t == s
    ensures !s.l.Nil? ==> !NextTree(s, key).Nil? && d == SwapCtx(c, s, key) && t == SwapTree(s, key)
    ensures CSep(d) && Sep(t) && CFoot(d) !! Foot(t) && CFoot(d) + Foot(t) == CFoot(c) + Foot(s)
    ensures successor == Root(t) && successor != null && OwnsCtx(d, successor) && Owns(t, Over(d))
  {
    hide Foot, CFoot, Holds, OwnsCtx, Sep, CSep, S.InOrder, Sorted, S.Balanced, Plug, SwapCtx, SwapTree, T.KeysOk;
    KeyFields(s, key);
    if node.lchild == null {
      return node, c, s;
    }
    var helperKey := key + 1;
    NextKeyIsKey(c, s, key, h);
    ghost var c0, s0, steps;
    assert allocated(CFoot(c)) && allocated(Foot(s));
    var result;
    successor, result, c0, s0, steps := SearchNodeOrParent(node, helperKey, c, s, h);
    if successor == null {
      return successor, c, s;
    }
    ProbedPlace(c, s, key, h, c0, s0);
    if s.N3? { OrderedKeys(s); }
    ReachIn(s, key);
    SwapEntries(node, successor, key, c, s);
    d, t := SwapCtx(c, s, key), SwapTree(s, key);
  }

  lemma ReachIn(s: Tree, key: int)
    requires T.HasKey(Erase(s), key) && !NextTree(s, key).Nil?
    ensures s.n in Foot(s) && Leftmost(NextTree(s, key)).n in Foot(s)
  {
    LeftmostFoot(Top, NextTree(s, key));
  }
}
