/** The 2-3 tree object: search, insertion and deletion. */
module TwoThreeTree {
  import opened Entries
  import S = TwoThreeSpec
  import T = TwoThreeTheorems
  import opened TwoThreeHeap
  import opened TwoThreeDelete
  import opened TwoThreeFix
  import opened TwoThreeInsert
  import opened TwoThreeSearch

  datatype Code = Ok | InvalidParam | InvalidKey | AlreadyExist | NotFound | InternalError

  // ---------- facts for the climb of a deletion ----------

  lemma FixSpec(c: Ctx, n: Node, x: Tree)
    requires Lends(c) || Mergeable(c)
    ensures Local(c) ==>
      && S.DeleteUp(ErasePath(c), Erase(x)) == Erase(Plug(c.up, Mended(c, n, x)))
      && !S.Thin(ErasePath(c))
    ensures !Local(c) ==>
      && c.C2? && S.DeleteUp(ErasePath(c), Erase(x)) == S.DeleteUp(ErasePath(c.up), Erase(Merge(c, x)))
      && S.Thin(ErasePath(c)) == S.Thin(ErasePath(c.up))
  {
    EraseCases(c, n, x);
    if Local(c) {
      PlugErase(c.up, Mended(c, n, x));
    }
  }

  lemma SunkStep(c: Ctx, x: Tree, h: int)
    requires c.C2? && Mergeable(c) && Sunk(c, x, h)
    ensures Sunk(c.up, Merge(c, x), h + 1)
  {
  }

  // Nothing but the root of the tree carries the mark.
  lemma RootIsTop(c: Ctx, n: Node, x: Tree, root: Node?)
    requires Apart(c, n, x) && root == (if c.Top? then n else Base(c))
    requires Marked(Zone(c, n, x), root)
    ensures n.isRoot <==> c.Top?
    ensures !c.Top? ==> (c.n.isRoot <==> c.up.Top?) && root == (if c.up.Top? then c.n else Base(c.up))
  {
    if !c.Top? {
      BaseIsTop(c);
    }
  }

  class Tree23 {
    var root: Node?
    var level: int
    var nodeCount: int
    ghost var shape: Tree
    // The nodes taken from calloc and not yet handed to free.
    ghost var live: set<Node>

    ghost predicate Valid()
      reads this, live
    {
      && Foot(shape) <= live && Sep(shape) && Owns(shape, null)
      && root == Root(shape) && Marked(Foot(shape), root)
      && T.WellFormed(Erase(shape), level) && nodeCount == |S.InOrder(Erase(shape))|
    }

    ghost function Contents(): map<int, Pointer>
      requires Valid()
      reads this, live
    {
      ToMap(S.InOrder(Erase(shape)))
    }

    // Between all 2-nodes and all 3-nodes.
    lemma CountBounds()
      requires Valid()
      ensures level >= 0 && Pow(2, level) - 1 <= nodeCount <= Pow(3, level) - 1
      ensures nodeCount == |Contents()|
    {
      S.BalancedHeight(Erase(shape), level);
      T.BoundsOf(Erase(shape), level);
      MapSize(S.InOrder(Erase(shape)));
    }

    // lbs_23tree_init
    constructor ()
      ensures Valid() && shape == Nil && live == {} && Contents() == map[]
    {
      root, level, nodeCount, shape, live := null, 0, 0, Nil, {};
    }

    // CHANGE_ROOT_NODE
    method ChangeRoot(node: Node?, former: Node)
      requires former.isRoot && node != former
      modifies this`root, former`isRoot, Only(node)`isRoot, Only(node)`parent
      ensures root == node && !former.isRoot
      ensures node != null ==> node.isRoot && node.parent == former.parent
    {
      root := node;
      if node != null {
        node.parent := former.parent;
        node.isRoot := true;
      }
      former.isRoot := false;
    }

    ghost method Free(n: Node)
      requires n in live
      modifies this`live
      ensures live == old(live) - {n}
    {
      live := live - {n};
    }

    method FixNull(node: Node, ghost c: Ctx, ghost x: Tree, ghost h: int) returns (ghost t: Tree)
      requires Apart(c, node, x) && Hole(c, node, x) && Sunk(c, x, h) && Keyed(c) && (c.Top? ==> x.Nil?)
      requires Zone(c, node, x) <= live
      requires Marked(Zone(c, node, x), root) && root == if c.Top? then node else Base(c)
      modifies this`root, this`level, this`live, Zone(c, node, x)
      ensures Erase(t) == S.DeleteUp(ErasePath(c), Erase(x))
      ensures Sep(t) && Owns(t, null) && root == Root(t) && Marked(Foot(t), root)
      ensures Foot(t) <= Zone(c, node, x) && live == old(live) - (Zone(c, node, x) - Foot(t))
      ensures level == old(level) - if S.Thin(ErasePath(c)) then 1 else 0
      decreases c, 0
    {
      hide Foot, CFoot, Sep, CSep, Under, Holds, OwnsCtx, Sunk, Keyed, Slots, Erase, ErasePath, S.DeleteUp, S.Thin;
      hide Mended, Merge, Plug, Lends, Mergeable, Apart;
      var parent := node.parent;
      RootIsTop(c, node, x, root);
      BareLeaf(node, x);
      if node.IsLeaf() && node.isRoot {
        DropRoot(node);
        t := Nil;
        FixTop(x);
        return;
      }
      var left := node == parent.lchild;
      Sides(c, node, x) by { SunkLevel(c, x, h); }
      var spare, bro := MendStep(parent, node, c, x, h);
      FixSpec(c, node, x);
      if bro == null {
        t := Plug(c.up, Mended(c, node, x));
        PlugMended(c, node, x);
        if spare != null {
          Free(spare);
        }
      } else {
        MergeFoot(c, node, x);
        Free(spare);
        MergeRoot(c, x);
        KeyedStep2(c);
        SunkStep(c, x, h);
        t := FixMerged(parent, node, bro, left, c.up, Merge(c, x), h + 1);
      }
    }

    // The last leaf has lost its key.
    method DropRoot(node: Node)
      requires node.isRoot && node in live
      modifies this`root, this`level, this`live, node`isRoot
      ensures root == null && level == old(level) - 1 && live == old(live) - {node} && !node.isRoot
    {
      level := level - 1;
      ChangeRoot(null, node);
      Free(node);
    }

    // After a merge the parent has no key: as the root it gives way to the merged node, else it is the
    // next hole.
    method FixMerged(parent: Node, node: Node, bro: Node, left: bool, ghost c: Ctx, ghost y: Tree, ghost h: int)
      returns (ghost t: Tree)
      requires Apart(c, parent, y) && OwnsCtx(c, parent) && parent.parent == Over(c) && Owns(y, parent)
      requires !y.Nil? && y.n == bro && parent.lkey == NO_KEY && parent.rkey == NO_KEY
      requires if left then Slots(parent, node, null, null, bro) else Slots(parent, bro, null, null, node)
      requires Sunk(c, y, h) && Keyed(c)
      requires Zone(c, parent, y) <= live
      requires Marked(Zone(c, parent, y), root) && root == if c.Top? then parent else Base(c)
      modifies this`root, this`level, this`live, Zone(c, parent, y)
      ensures Erase(t) == S.DeleteUp(ErasePath(c), Erase(y))
      ensures Sep(t) && Owns(t, null) && root == Root(t) && Marked(Foot(t), root)
      ensures Foot(t) <= Zone(c, parent, y) && live == old(live) - (Zone(c, parent, y) - Foot(t))
      ensures level == old(level) - if S.Thin(ErasePath(c)) then 1 else 0
      decreases c, 1
    {
      hide Foot, CFoot, Sep, CSep, Under, Holds, OwnsCtx, Sunk, Keyed, Slots, Erase, ErasePath, S.DeleteUp, S.Thin;
      RootIsTop(c, parent, y, root);
      RootFoot(y);
      if parent.isRoot {
        level := level - 1;
        PutRoot(bro, parent, y);
        Free(parent);
        t := y;
        FixTopAny(c, y);
      } else {
        OpenHole(parent, node, bro, left, c, y);
        t := FixNull(parent, c, y, h);
      }
    }

    // The merged node takes the place of the root.
    method PutRoot(bro: Node, parent: Node, ghost y: Tree)
      requires Sep(y) && !y.Nil? && y.n == bro && parent !in Foot(y) && Owns(y, parent)
      requires parent.isRoot && parent.parent == null && Marked(Foot(y), parent)
      modifies this`root, parent`isRoot, bro`isRoot, bro`parent
      ensures Owns(y, null) && root == bro && Marked(Foot(y), root) && !parent.isRoot
    {
      hide Foot, Sep, Under, Holds;
      Rooted(y);
      assert allocated(Foot(y)) && allocated(Under(y));
      ChangeRoot(bro, parent);
    }

    // remove_key: a leaf gives up a key.
    method RemoveKey(leaf: Node, key: int, ghost c: Ctx, ghost s: Tree) returns (ghost t: Tree)
      requires IsLeafTree(s) && s.n == leaf && T.HasKey(Erase(s), key)
      requires key != NO_KEY && (s.N3? ==> s.k1 != NO_KEY && s.k2 != NO_KEY)
      requires CSep(c) && Sep(s) && CFoot(c) !! Foot(s) && OwnsCtx(c, leaf) && Owns(s, Over(c))
      requires Keyed(c) && S.Fits(ErasePath(c), 1)
      requires CFoot(c) + Foot(s) <= live
      requires Marked(CFoot(c) + Foot(s), root) && root == Root(Plug(c, s))
      modifies this`root, this`level, this`live, CFoot(c), Foot(s)
      ensures Erase(t) == if T.FirstKey(Erase(s)) == key then T.DropFirst(ErasePath(c), Erase(s))
                          else T.DropSecond(ErasePath(c), Erase(s))
      ensures Sep(t) && Owns(t, null) && root == Root(t) && Marked(Foot(t), root)
      ensures Foot(t) <= CFoot(c) + Foot(s) && live == old(live) - (CFoot(c) + Foot(s) - Foot(t))
      ensures level == old(level) - if T.Collapses(ErasePath(c), Erase(s)) then 1 else 0
    {
      hide CFoot, CSep, OwnsCtx, Keyed, S.Fits, S.DeleteUp, S.Thin, S.Plug, Plug;
      PlugRoot(c, s);
      if leaf.IsTri() {
        if leaf.lkey == key {
          leaf.lkey, leaf.lvalue := leaf.rkey, leaf.rvalue;
        }
        leaf.rkey, leaf.rvalue := NO_KEY, 0;
        ghost var u := if s.k1 == key then N2(leaf, s.k2, s.v2, Nil, Nil) else N2(leaf, s.k1, s.v1, Nil, Nil);
        t := Plug(c, u);
        PlugWhole(c, u);
        return;
      }
      leaf.lkey, leaf.lvalue := NO_KEY, 0;
      leaf.rkey, leaf.rvalue := NO_KEY, 0;
      t := FixNull(leaf, c, Nil, 0);
    }

    // insert_into: the node with the pending entry (k, v) climbs; a and b stand below the parent
    // where the hole of c was.
    method InsertInto(node: Node, parent: Node, ghost c: Ctx, ghost a: Tree, ghost k: int, ghost v: Pointer,
                      ghost b: Tree, ghost h: int)
      returns (ghost t: Tree)
      requires !c.Top? && parent == c.n && Swollen(c, a, b) && Spread(c, a, b, node) && Loose(node, k, v)
      requires Even(c, a, b, h) && Sorted(Total(c, a, k, v, b)) && T.KeysOk(Total(c, a, k, v, b))
      requires CFoot(c) + Foot(a) + Foot(b) + {node} <= live
      requires Marked(CFoot(c) + Foot(a) + Foot(b), root) && root == Base(c)
      modifies this`root, this`level, this`live, CFoot(c), Foot(a), Foot(b), node
      ensures Erase(t) == S.InsertUp(ErasePath(c), Erase(a), k, v, Erase(b))
      ensures Sep(t) && Owns(t, null) && root == Root(t) && Marked(Foot(t), root)
      ensures CFoot(c) + Foot(a) + Foot(b) <= Foot(t)
      ensures fresh(Foot(t) - (CFoot(c) + Foot(a) + Foot(b) + {node}))
      ensures node in Foot(t) <==> S.Full(ErasePath(c))
      ensures live == old(live) + Foot(t) - if node in Foot(t) then {} else {node}
      ensures level == old(level) + if S.Full(ErasePath(c)) then 1 else 0
      decreases c, 0
    {
      hide Foot, CFoot, Sep, CSep, Under, Holds, OwnsCtx, Erase, ErasePath, S.InsertUp, S.Full, Total, Even;
      hide Swollen, Spread, Flat, InPlace, Absorbed, LowHalf, HighHalf, Middle, Plug, Sorted, T.KeysOk, Movers, Tip;
      TotalPlaces(c, a, k, v, b);
      EvenFlat(c, a, b, h);
      TriOf(c, a, b);
      MoversIn(c, a, b, node);
      if parent.IsTri() {
        var dnode := SplitNode(node, parent, c, a, k, v, b);
        live := live + {dnode};
        SplitPlan(c, a, k, v, b, dnode, node, h);
        ghost var low, high, e := LowHalf(c, a, k, v, b), HighHalf(c, a, k, v, b, dnode), Middle(c, k, v);
        t := Rise(node, parent, dnode, c.up, low, e.0, e.1, high, h + 1);
      } else {
        Absorb(node, parent, c, a, k, v, b);
        t := Plug(c.up, Absorbed(c, a, k, v, b));
        InsertSpec(c, a, k, v, b, node);
        PlugAbsorbed(c, a, k, v, b, node);
        Free(node);
      }
    }

    // A node has divided into low and high around (k, v).
    method Rise(node: Node, parent: Node, dnode: Node, ghost c: Ctx, ghost low: Tree, ghost k: int, ghost v: Pointer,
                ghost high: Tree, ghost h: int)
      returns (ghost t: Tree)
      requires Root(low) == parent && Root(high) == dnode && Spread(c, low, high, node) && Loose(node, k, v)
      requires Holds(low) && Holds(high) && parent.parent == Over(c) && OwnsCtx(c, parent)
      requires Even(c, low, high, h) && h > 0
      requires Sorted(Total(c, low, k, v, high)) && T.KeysOk(Total(c, low, k, v, high))
      requires CFoot(c) + Foot(low) + Foot(high) + {node} <= live
      requires Marked(CFoot(c) + Foot(low) + Foot(high), root) && root == if c.Top? then parent else Base(c)
      modifies this`root, this`level, this`live, CFoot(c), Foot(low), Foot(high), node
      ensures Erase(t) == S.InsertUp(ErasePath(c), Erase(low), k, v, Erase(high))
      ensures Sep(t) && Owns(t, null) && root == Root(t) && Marked(Foot(t), root)
      ensures CFoot(c) + Foot(low) + Foot(high) <= Foot(t)
      ensures fresh(Foot(t) - (CFoot(c) + Foot(low) + Foot(high) + {node}))
      ensures node in Foot(t) <==> S.Full(ErasePath(c))
      ensures live == old(live) + Foot(t) - if node in Foot(t) then {} else {node}
      ensures level == old(level) + if S.Full(ErasePath(c)) then 1 else 0
      decreases c, 1
    {
      hide Foot, CFoot, Sep, CSep, Under, Holds, OwnsCtx, Erase, ErasePath, S.InsertUp, S.Full, Total, Even;
      hide Swollen, Spread, Sorted, T.KeysOk;
      SplitParts(c, low, high, node);
      if parent.isRoot {
        level := level + 1;
        GrowRoot(node, parent, dnode, k, v, low, high);
        t := N2(node, k, v, low, high);
        InsertTop(c, node, k, v, low, high);
        Foot2(t);
      } else {
        EvenBrothers(c, h) by { EvenFits(c, low, high, h); }
        HangHalf(parent, dnode, parent.parent, c, low, high);
        t := InsertInto(node, parent.parent, c, low, k, v, high, h);
      }
    }

    // The old root has divided; the node with the entry between the halves is the new root.
    method GrowRoot(node: Node, parent: Node, dnode: Node, ghost k: int, ghost v: Pointer,
                    ghost low: Tree, ghost high: Tree)
      requires Root(low) == parent && Root(high) == dnode && Loose(node, k, v) && parent.isRoot && parent.parent == null
      requires Sep(low) && Sep(high) && Foot(low) !! Foot(high) && node !in Foot(low) && node !in Foot(high)
      requires Holds(low) && Holds(high) && Marked(Foot(low) + Foot(high), parent)
      modifies this`root, parent`isRoot, node`isRoot, parent`parent, dnode`parent, node`parent
      modifies node`lchild, node`mchild, node`rchild
      ensures var t := N2(node, k, v, low, high);
        Sep(t) && Owns(t, null) && root == node && Marked(Foot(t), root)
    {
      hide Foot, Sep, Under, Holds;
      Rooted(low);
      Rooted(high);
      assert allocated(Foot(low)) && allocated(Under(low)) && allocated(Foot(high)) && allocated(Under(high));
      ChangeRoot(node, parent);
      SetRelations(node, parent, null, dnode);
      HoldsMake(N2(node, k, v, low, high));
      Foot2(N2(node, k, v, low, high));
    }

    // The node taken for a key that is already there is never given back.
    method Insert(value: Pointer, key: int) returns (rc: Code)
      requires Valid() && 0 <= key < NO_KEY
      modifies this, Foot(shape)
      ensures Valid() && fresh(live - old(live))
      ensures rc == (if value == 0 then InvalidParam else if key in old(Contents()) then AlreadyExist else Ok)
      ensures rc == InvalidParam ==> shape == old(shape) && live == old(live)
      ensures rc == AlreadyExist ==> shape == old(shape) && exists n <- live - old(live) :: live == old(live) + {n}
      ensures rc == Ok ==>
        && Contents() == old(Contents())[key := value] && nodeCount == old(nodeCount) + 1
        && Erase(shape) == T.Insert(old(Erase(shape)), key, value)
        && level == old(level) + (if T.Splits(old(Erase(shape)), key) then 1 else 0)
        && live - Foot(shape) == old(live - Foot(shape))
    {
      hide Foot, Holds, S.InOrder, Sorted, S.Balanced, ToMap, T.KeysOk, T.Insert, T.Splits, Sep, T.WellFormed;
      if value == 0 {
        return InvalidParam;
      }
      var node := new Node(value, key);
      live := live + {node};
      if root == null {
        assert Erase(shape) == S.Empty;
        EmptyBag(shape, level) by { assert T.WellFormed(Erase(shape), level); }
        T.InsertTheorem(Erase(shape), key, value, level);
        InsertFirst(node, key, value);
        return Ok;
      }
      rc := InsertNode(node, key, value);
    }

    // The node with the new entry is put into a tree that is not empty, unless the key is there.
    method InsertNode(node: Node, key: int, value: Pointer) returns (rc: Code)
      requires Valid() && root != null && 0 <= key < NO_KEY
      requires node in live && node !in Foot(shape) && Loose(node, key, value)
      modifies this, Foot(shape), node
      ensures Valid() && fresh(live - old(live))
      ensures rc == if key in old(Contents()) then AlreadyExist else Ok
      ensures rc == AlreadyExist ==> shape == old(shape) && live == old(live)
      ensures rc == Ok ==>
        && Contents() == old(Contents())[key := value] && nodeCount == old(nodeCount) + 1
        && Erase(shape) == T.Insert(old(Erase(shape)), key, value)
        && level == old(level) + (if T.Splits(old(Erase(shape)), key) then 1 else 0)
        && live - Foot(shape) == old(live - Foot(shape)) - {node}
    {
      hide Foot, Holds, S.InOrder, Sorted, S.Balanced, ToMap, T.KeysOk, T.Insert, T.Seek, T.Splits, Sep, Plug, T.Probe;
      T.SeekFinds(Erase(shape), key);
      ghost var c, s, steps;
      var parent, result;
      PlugTop(shape);
      assert allocated(Foot(shape));
      parent, result, c, s, steps := SearchNodeOrParent(root, key, Top, shape, level);
      SearchEnds(shape, key, level, c, s);
      if parent == null {
        return InternalError;
      }
      rc := AlreadyExist;
      if result == Parent {
        T.InsertTheorem(Erase(shape), key, value, level);
        InsertBelow(node, parent, key, value, c, s);
        rc := Ok;
      }
    }

    // The key belongs into the leaf parent.
    method InsertBelow(node: Node, parent: Node, ghost key: int, ghost value: Pointer, ghost c: Ctx, ghost s: Tree)
      requires Foot(shape) + {node} <= live && Sep(shape) && root == Root(shape) && Marked(Foot(shape), root)
      requires node !in Foot(shape) && Loose(node, key, value)
      requires T.WellFormed(Erase(shape), level) && 0 <= key < NO_KEY && key !in ToMap(S.InOrder(Erase(shape)))
      requires Root(s) == parent && Plug(c, s) == shape && OwnsCtx(c, parent) && Owns(s, Over(c))
      requires !shape.Nil? && T.Probe(S.Top, Erase(shape), key) == T.Place(ErasePath(c), Erase(s))
      requires !T.HasKey(Erase(s), key)
      modifies this, Foot(shape), node
      ensures Erase(shape) == T.Insert(old(Erase(shape)), key, value)
      ensures Sep(shape) && Owns(shape, null) && root == Root(shape) && Marked(Foot(shape), root)
      ensures old(Foot(shape)) <= Foot(shape) && fresh(Foot(shape) - old(Foot(shape)) - {node})
      ensures live == old(live) + Foot(shape) - if node in Foot(shape) then {} else {node}
      ensures level == old(level) + if T.Splits(old(Erase(shape)), key) then 1 else 0
      ensures nodeCount == old(nodeCount) + 1
    {
      hide Foot, CFoot, Holds, OwnsCtx, S.InOrder, Sorted, S.Balanced, ToMap, T.KeysOk, T.Insert, T.Seek, T.Splits;
      hide Sep, CSep, Plug, S.InsertUp, S.Full, T.Probe, Swollen, SubCtx, Even, Total;
      PlugFoot(c, s);
      PlugSep(c, s);
      PlugRoot(c, s);
      NilParts();
      InsertAt(shape, key, value, level, c, s);
      LeafCtx(c, s, key);
      LeafSwollen(c, s, key);
      shape := InsertInto(node, parent, SubCtx(c, s, key), Nil, key, value, Nil, 0);
      nodeCount := nodeCount + 1;
    }

    // The empty tree gets its root.
    method InsertFirst(node: Node, ghost key: int, ghost value: Pointer)
      requires shape.Nil? && Loose(node, key, value) && 0 <= key < NO_KEY
      modifies this, node`isRoot
      ensures root == node && live == old(live) && nodeCount == old(nodeCount) + 1 && level == 1
      ensures Foot(shape) == {node} && Sep(shape) && Owns(shape, null)
      ensures root == Root(shape) && Marked(Foot(shape), root)
      ensures Erase(shape) == T.Insert(S.Empty, key, value) && T.Splits(S.Empty, key)
    {
      root := node;
      nodeCount := nodeCount + 1;
      level := 1;
      node.isRoot := true;
      shape := N2(node, key, value, Nil, Nil);
    }

    // Examines at most `level` nodes.
    method Search(key: int) returns (rc: Code, value: Option<Pointer>, ghost steps: nat)
      requires Valid() && 0 <= key <= NO_KEY
      ensures key == NO_KEY ==> rc == InvalidParam && value == None
      ensures key != NO_KEY ==>
        if key in Contents() then rc == Ok && value == Some(Contents()[key]) else rc == NotFound && value == None
      ensures steps <= level
    {
      hide Foot, Holds, S.InOrder, Sorted, S.Balanced, ToMap, Marked, T.KeysOk;
      steps := 0;
      T.SeekFinds(Erase(shape), key);
      HeightOf(Erase(shape), level);
      if key == NO_KEY {
        return InvalidParam, None, 0;
      }
      ghost var c, s;
      var node, result;
      node, result, c, s, steps := SearchNodeOrParent(root, key, Top, shape, level);
      SearchEnds(shape, key, level, c, s);
      if node == null || result == Parent || result == Error {
        return NotFound, None, steps;
      }
      if result == LValue {
        return Ok, Some(node.lvalue), steps;
      }
      return Ok, Some(node.rvalue), steps;
    }

    method Delete(key: int) returns (rc: Code)
      requires Valid() && 0 <= key <= NO_KEY
      modifies this, Foot(shape)
      ensures Valid() && live - Foot(shape) == old(live - Foot(shape))
      ensures rc == (if key == NO_KEY then InvalidKey else if old(shape).Nil? then InternalError
                     else if key in old(Contents()) then Ok else NotFound)
      ensures rc != Ok ==> shape == old(shape) && live == old(live)
      ensures rc == Ok ==>
        && Contents() == old(Contents()) - {key} && nodeCount == old(nodeCount) - 1 && live <= old(live)
        && Deletable(old(Erase(shape)), key) && Erase(shape) == T.Delete(old(Erase(shape)), key)
        && level == old(level) - if LosesLevel(old(Erase(shape)), key) then 1 else 0
    {
      hide Foot, CFoot, Holds, OwnsCtx, Sep, CSep, S.InOrder, Sorted, S.Balanced, S.Fits, ToMap, T.KeysOk, Plug;
      hide T.Delete, T.Seek, T.Collapses, T.Drained;
      if key == NO_KEY {
        return InvalidKey;
      }
      T.SeekFinds(Erase(shape), key);
      ghost var c, s, steps;
      var node, result;
      PlugTop(shape);
      assert allocated(Foot(shape));
      node, result, c, s, steps := SearchNodeOrParent(root, key, Top, shape, level);
      SearchEnds(shape, key, level, c, s);
      if node == null {
        return InternalError;
      }
      if result == Parent || result == Error {
        return NotFound;
      }
      T.DeleteTheorem(Erase(shape), key, level);
      DeleteFound(node, key, c, s);
      rc := Ok;
    }

    // The key has been found in node.
    method DeleteFound(node: Node, key: int, ghost c: Ctx, ghost s: Tree)
      requires Foot(shape) <= live && Sep(shape) && root == Root(shape) && Marked(Foot(shape), root)
      requires T.WellFormed(Erase(shape), level) && 0 <= key < NO_KEY
      requires Root(s) == node && Plug(c, s) == shape && OwnsCtx(c, node) && Owns(s, Over(c))
      requires T.HasKey(Erase(s), key) && T.Seek(S.Top, Erase(shape), key) == T.Place(ErasePath(c), Erase(s))
      modifies this, Foot(shape)
      ensures Deletable(old(Erase(shape)), key) && Erase(shape) == T.Delete(old(Erase(shape)), key)
      ensures Sep(shape) && Owns(shape, null) && root == Root(shape) && Marked(Foot(shape), root)
      ensures Foot(shape) <= old(Foot(shape)) && live == old(live) - (old(Foot(shape)) - Foot(shape))
      ensures level == old(level) - if LosesLevel(old(Erase(shape)), key) then 1 else 0
      ensures nodeCount == old(nodeCount) - 1
    {
      hide Foot, CFoot, Holds, OwnsCtx, Sep, CSep, S.InOrder, Sorted, S.Balanced, S.Fits, ToMap, T.KeysOk, Plug;
      hide Keyed, T.DropFirst, T.DropSecond, T.Delete, T.Collapses, SwapCtx, SwapTree, Deletable, LosesLevel, T.Seek;
      PlugFoot(c, s);
      PlugSep(c, s);
      KeyAt(shape, key, level, c, s);
      var successor;
      ghost var d, t;
      successor, d, t := GetSuccessorAndSwap(node, key, c, s, level - S.Depth(ErasePath(c)));
      Drain(shape, key, level, c, s, d, t);
      shape := RemoveKey(successor, key, d, t);
      nodeCount := nodeCount - 1;
    }
  }

  ghost predicate Deletable(s: S.Shape, key: int)
  {
    var p := T.Seek(S.Top, s, key);
    T.HasKey(p.s, key) && !T.NextSub(p.s, key).Empty? == !p.s.l.Empty?
  }

  ghost predicate LosesLevel(s: S.Shape, key: int)
    requires Deletable(s, key)
  {
    var p := T.Seek(S.Top, s, key);
    var d := T.Drained(p.c, p.s, key);
    T.Collapses(d.c, d.s)
  }

  lemma PlugTop(t: Tree)
    ensures Plug(Top, t) == t && OwnsCtx(Top, Root(t))
  {
  }

  lemma EmptyBag(t: Tree, h: int)
    requires t.Nil? && T.WellFormed(Erase(t), h)
    ensures h == 0 && (forall key :: key !in ToMap(S.InOrder(Erase(t)))) && Foot(t) == {} && |S.InOrder(Erase(t))| == 0
  {
  }

  // The place below a leaf where a missing key belongs.
  lemma LeafCtx(c: Ctx, s: Tree, key: int)
    requires !s.Nil? && s.l.Nil? && s.r.Nil? && (s.N3? ==> s.m.Nil?) && CSep(c) && Sep(s) && CFoot(c) !! Foot(s)
    ensures var d := SubCtx(c, s, key);
      && !d.Top? && d.n == s.n && CFoot(d) == CFoot(c) + Foot(s) && CSep(d)
      && Base(d) == (if c.Top? then s.n else Base(c)) && SubTree(s, key).Nil?
  {
  }

  lemma LeafSwollen(c: Ctx, s: Tree, key: int)
    requires IsLeafTree(s) && OwnsCtx(c, s.n) && Owns(s, Over(c))
    ensures Swollen(SubCtx(c, s, key), Nil, Nil)
  {
  }

  lemma InsertAt(t: Tree, key: int, v: Pointer, h: int, c: Ctx, s: Tree)
    requires T.WellFormed(Erase(t), h) && !t.Nil? && Plug(c, s) == t && !s.Nil? && 0 <= key < NO_KEY
    requires T.Probe(S.Top, Erase(t), key) == T.Place(ErasePath(c), Erase(s)) && !T.HasKey(Erase(s), key)
    requires key !in ToMap(S.InOrder(Erase(t)))
    ensures var d := SubCtx(c, s, key);
      && IsLeafTree(s) && Even(d, Nil, Nil, 0)
      && Sorted(Total(d, Nil, key, v, Nil)) && T.KeysOk(Total(d, Nil, key, v, Nil))
      && T.Insert(Erase(t), key, v) == S.InsertUp(ErasePath(d), S.Empty, key, v, S.Empty)
      && T.Splits(Erase(t), key) == S.Full(ErasePath(d))
  {
    hide S.InOrder, S.Before, S.After, Sorted, T.KeysOk, ToMap, S.Fits, Plug, T.Seek, T.Probe, S.InsertUp, S.Full;
    T.ProbeSeek(S.Top, Erase(t), key, h);
    T.InsertPlace(Erase(t), key, v, h);
    SubPlace(c, s, key);
    T.EmptyShape();
    T.EmptyBalanced();
    PlugErase(c, s);
    S.UnplugBalanced(ErasePath(c), Erase(s), h);
    T.LeafBalanced(Erase(s), h - S.Depth(ErasePath(c)));
    assert S.InOrder(S.Empty) + [(key, v)] + S.InOrder(S.Empty) == [(key, v)];
  }

  // Where the probe from the root ends is where the search for the key does.
  lemma SearchEnds(t: Tree, key: int, h: int, c: Ctx, s: Tree)
    requires T.WellFormed(Erase(t), h) && Plug(c, s) == t
    requires t.Nil? ==> s.Nil?
    requires !t.Nil? ==> T.Probe(S.Top, Erase(t), key) == T.Place(ErasePath(c), Erase(s))
    ensures t.Nil? ==> key !in ToMap(S.InOrder(Erase(t)))
    ensures !t.Nil? ==>
      && (T.HasKey(Erase(s), key) <==> key in ToMap(S.InOrder(Erase(t))))
      && (T.HasKey(Erase(s), key) ==>
            && T.Seek(S.Top, Erase(t), key) == T.Place(ErasePath(c), Erase(s))
            && T.DataOf(Erase(s), key) == ToMap(S.InOrder(Erase(t)))[key])
  {
    hide S.InOrder, Sorted, ToMap, S.Balanced;
    T.SeekFinds(Erase(t), key);
    if !t.Nil? {
      T.ProbeSeek(S.Top, Erase(t), key, h);
    }
  }

  // The node with the key inside a well-formed tree.
  lemma KeyAt(t: Tree, key: int, h: int, c: Ctx, s: Tree)
    requires T.WellFormed(Erase(t), h) && Plug(c, s) == t && T.HasKey(Erase(s), key)
    ensures Sorted(S.InOrder(Erase(s))) && T.KeysOk(S.InOrder(Erase(s)))
    ensures S.Balanced(Erase(s), h - S.Depth(ErasePath(c)))
  {
    hide S.InOrder, S.Before, S.After, S.Plug, Plug, Sorted, S.Balanced, Erase, ErasePath;
    var p := ErasePath(c);
    PlugErase(c, s);
    S.UnplugBalanced(p, Erase(s), h);
    S.PlugInOrder(p, Erase(s));
    KeyedPath(p, Erase(s));
    T.SortedMiddle(S.Before(p), S.InOrder(Erase(s)), S.After(p));
  }

  lemma KeyedPath(p: S.Path, s: S.Shape)
    requires T.KeysOk(S.InOrder(S.Plug(p, s)))
    ensures T.KeysOk(S.Before(p)) && T.KeysOk(S.InOrder(s)) && T.KeysOk(S.After(p))
  {
    hide S.InOrder, S.Before, S.After, S.Plug;
    S.PlugInOrder(p, s);
    var all := S.InOrder(S.Plug(p, s));
    assert forall e <- S.Before(p) :: e in all;
    assert forall e <- S.InOrder(s) :: e in all;
    assert forall e <- S.After(p) :: e in all;
  }

  // No key of the tree is new when the successor has replaced the key.
  lemma SwapKeys(c: S.Path, s: S.Shape, key: int, h: int)
    requires T.HasKey(s, key) && !T.NextSub(s, key).Empty? && S.Balanced(S.Plug(c, s), h)
    requires T.KeysOk(S.InOrder(S.Plug(c, s)))
    ensures var t := T.NextSub(s, key); var m := T.Min(t);
      var n := T.NextPath(c, s, key, T.FirstKey(m), T.FirstData(m));
      T.KeysOk(S.InOrder(S.Plug(T.MinPath(n, t), m))) && S.Balanced(S.Plug(T.MinPath(n, t), m), h)
  {
    hide S.InOrder, S.Before, S.After, S.Plug, S.Balanced, T.Min, T.MinPath, T.LeftOf, T.RightOf, T.NextPath;
    var t := T.NextSub(s, key);
    var m := T.Min(t);
    var e := (T.FirstKey(m), T.FirstData(m));
    var n := T.NextPath(c, s, key, e.0, e.1);
    var u := T.MinPath(n, t);
    T.PlaceInOrder(c, s, key);
    T.NextPathPlug(c, s, key, e.0, e.1, h);
    T.MinPlace(n, t);
    T.MinPlace(S.Top, t);
    S.PlugInOrder(n, t);
    FirstIn(m);
    S.PlugInOrder(T.MinPath(S.Top, t), m);
    PlugNone(t);
    var L, R := T.LeftOf(c, s, key), T.RightOf(c, s, key);
    assert S.InOrder(S.Plug(n, t)) == L + [e] + (S.InOrder(t) + S.After(n));
    assert e in S.InOrder(t) && e in R;
    assert forall x <- L + [e] + R :: x in L + [(key, T.DataOf(s, key))] + R;
  }

  lemma PlugNone(t: S.Shape)
    ensures S.Plug(S.Top, t) == t
  {
  }

  lemma FirstIn(m: S.Shape)
    requires !m.Empty?
    ensures (T.FirstKey(m), T.FirstData(m)) in S.InOrder(m)
  {
  }

  // Replacing the first entry of a leaf does not show once that entry is dropped.
  lemma SwapDrop(c: S.Path, m: Tree, key: int, v: Pointer)
    requires !m.Nil?
    ensures var t := Erase(WithFirst(m, key, v));
      && T.DropFirst(c, t) == T.DropFirst(c, Erase(m)) && T.Collapses(c, t) == T.Collapses(c, Erase(m))
      && T.FirstKey(t) == key && T.HasKey(t, key) && (IsLeafTree(m) ==> IsLeafTree(WithFirst(m, key, v)))
      && Root(WithFirst(m, key, v)) == Root(m)
      && (WithFirst(m, key, v).N3? ==> m.N3? && WithFirst(m, key, v).k1 == key && WithFirst(m, key, v).k2 == m.k2)
  {
  }

  // What the leaf that gives up its key and the path to it are like.
  ghost predicate Drains(t0: Tree, key: int, d: Ctx, t: Tree)
  {
    && IsLeafTree(t) && T.HasKey(Erase(t), key) && (t.N3? ==> t.k1 != NO_KEY && t.k2 != NO_KEY)
    && Keyed(d) && S.Fits(ErasePath(d), 1) && Root(Plug(d, t)) == Root(t0)
    && Deletable(Erase(t0), key)
    && (T.FirstKey(Erase(t)) != key ==> t.N3?)
    && T.Delete(Erase(t0), key) ==
       (if T.FirstKey(Erase(t)) == key then T.DropFirst(ErasePath(d), Erase(t))
        else T.DropSecond(ErasePath(d), Erase(t)))
    && LosesLevel(Erase(t0), key) == T.Collapses(ErasePath(d), Erase(t))
  }

  lemma DrainLeaf(t0: Tree, key: int, h: int, c: Ctx, s: Tree)
    requires T.WellFormed(Erase(t0), h) && Plug(c, s) == t0 && T.HasKey(Erase(s), key) && s.l.Nil?
    requires T.Seek(S.Top, Erase(t0), key) == T.Place(ErasePath(c), Erase(s))
    ensures Drains(t0, key, c, s)
  {
    hide S.InOrder, S.Fits, S.Plug, Plug, T.DropFirst, T.DropSecond, T.Collapses, S.Balanced, Sorted, T.Seek;
    PlugErase(c, s);
    KeyedPath(ErasePath(c), Erase(s));
    KeyedShape(s);
    T.DropFirstBalanced(ErasePath(c), Erase(s), h);
  }

  lemma DrainInner(t0: Tree, key: int, h: int, c: Ctx, s: Tree)
    requires T.WellFormed(Erase(t0), h) && Plug(c, s) == t0 && T.HasKey(Erase(s), key) && !s.l.Nil?
    requires !NextTree(s, key).Nil? && 0 <= key < NO_KEY
    requires T.Seek(S.Top, Erase(t0), key) == T.Place(ErasePath(c), Erase(s))
    ensures Drains(t0, key, SwapCtx(c, s, key), SwapTree(s, key))
  {
    hide S.InOrder, S.Fits, S.Plug, Plug, T.DropFirst, T.DropSecond, T.Collapses, S.Balanced, Sorted, T.Seek;
    hide T.Min, T.MinPath, WithFirst, LeftmostCtx, Leftmost, Keyed, Foot, CFoot, Sep, CSep, ToMap, NextTree, NextCtx;
    PlugErase(c, s);
    var n := NextTree(s, key);
    var m := Leftmost(n);
    var fk, fv := T.FirstKey(Erase(m)), T.FirstData(Erase(m));
    var e := NextCtx(c, s, key, fk, fv);
    var d := LeftmostCtx(e, n);
    NextErase(c, s, key, fk, fv);
    LeftmostErase(e, n);
    SwapKeys(ErasePath(c), Erase(s), key, h);
    KeyedPath(ErasePath(d), Erase(m));
    assert Keyed(d) by { KeyedMake(d); }
    KeyedShape(m);
    T.DropFirstBalanced(ErasePath(d), Erase(m), h);
    SwapDrop(ErasePath(d), m, key, T.DataOf(Erase(s), key));
    PlugRoot(d, m);
    PlugRoot(d, WithFirst(m, key, T.DataOf(Erase(s), key)));
    NextRoot(c, s, key, fk, fv);
  }

  lemma Drain(t0: Tree, key: int, h: int, c: Ctx, s: Tree, d: Ctx, t: Tree)
    requires T.WellFormed(Erase(t0), h) && Plug(c, s) == t0 && T.HasKey(Erase(s), key) && 0 <= key < NO_KEY
    requires T.Seek(S.Top, Erase(t0), key) == T.Place(ErasePath(c), Erase(s))
    requires s.l.Nil? ==> d == c && t == s
    requires !s.l.Nil? ==> !NextTree(s, key).Nil? && d == SwapCtx(c, s, key) && t == SwapTree(s, key)
    ensures Drains(t0, key, d, t)
  {
    hide Drains;
    if s.l.Nil? {
      DrainLeaf(t0, key, h, c, s);
    } else {
      DrainInner(t0, key, h, c, s);
    }
  }

  lemma KeyedMake(d: Ctx)
    requires T.KeysOk(S.Before(ErasePath(d))) && T.KeysOk(S.After(ErasePath(d)))
    ensures Keyed(d)
  {
  }

  lemma NextRoot(c: Ctx, s: Tree, key: int, k: int, v: Pointer)
    requires T.HasKey(Erase(s), key)
    ensures Root(Plug(NextCtx(c, s, key, k, v), NextTree(s, key))) == Root(Plug(c, s))
  {
    PlugRoot(c, s);
    PlugRoot(c, Fill(NextCtx(c, s, key, k, v), NextTree(s, key)));
  }

  // A subtree in its place is a whole tree.
  lemma PlugWhole(c: Ctx, t: Tree)
    requires CSep(c) && Sep(t) && CFoot(c) !! Foot(t) && OwnsCtx(c, Root(t)) && Owns(t, Over(c))
    ensures var u := Plug(c, t);
      && Sep(u) && Owns(u, null) && Root(u) == (if c.Top? then Root(t) else Base(c))
      && Foot(u) == CFoot(c) + Foot(t) && Erase(u) == S.Plug(ErasePath(c), Erase(t))
  {
    hide Foot, CFoot, Sep, CSep, Holds, OwnsCtx, Plug;
    PlugErase(c, t);
    PlugFoot(c, t);
    PlugSep(c, t);
    PlugOwns(c, t);
    PlugRoot(c, t);
  }

  lemma TriOf(c: Ctx, a: Tree, b: Tree)
    requires Swollen(c, a, b) && (c.C3? ==> c.k1 != NO_KEY && c.k2 != NO_KEY)
    ensures c.n.IsTri() <==> c.C3?
  {
  }

  // The tree after a 2-node has taken the entry in.
  lemma PlugAbsorbed(c: Ctx, a: Tree, k: int, v: Pointer, b: Tree, n: Node)
    requires c.C2? && Spread(c, a, b, n)
    requires Owns(Absorbed(c, a, k, v, b), Over(c.up)) && OwnsCtx(c.up, c.n)
    ensures var t := Plug(c.up, Absorbed(c, a, k, v, b));
      && Sep(t) && Owns(t, null) && Root(t) == Base(c)
      && Foot(t) == CFoot(c) + Foot(a) + Foot(b) && n !in Foot(t)
  {
    hide Foot, CFoot, Sep, CSep, Holds, OwnsCtx, Absorbed, Plug;
    var m := Absorbed(c, a, k, v, b);
    AbsorbedFoot(c, a, k, v, b, n);
    PlugWhole(c.up, m);
  }

  // What the division of a node makes of the insertion.
  lemma SplitPlan(c: Ctx, a: Tree, k: int, v: Pointer, b: Tree, d: Node, n: Node, h: int)
    requires c.C3? && Spread(c, a, b, n) && d !in CFoot(c) + Foot(a) + Foot(b) && d != n && Even(c, a, b, h)
    ensures var low, high := LowHalf(c, a, k, v, b), HighHalf(c, a, k, v, b, d); var e := Middle(c, k, v);
      && S.InsertUp(ErasePath(c), Erase(a), k, v, Erase(b))
         == S.InsertUp(ErasePath(c.up), Erase(low), e.0, e.1, Erase(high))
      && S.Full(ErasePath(c)) == S.Full(ErasePath(c.up))
      && CFoot(c.up) + Foot(low) + Foot(high) == CFoot(c) + Foot(a) + Foot(b) + {d}
      && Spread(c.up, low, high, n) && Root(low) == c.n && Root(high) == d
      && Even(c.up, low, high, h + 1) && Total(c.up, low, e.0, e.1, high) == Total(c, a, k, v, b)
  {
    hide Foot, CFoot, Spread, Even, Total, LowHalf, HighHalf, Middle, S.InsertUp, S.Full, Erase, ErasePath;
    InsertSpec(c, a, k, v, b, d);
    SplitUnion(c, a, k, v, b, d, n);
    SplitSpread(c, a, k, v, b, d, n);
    EvenStep(c, a, k, v, b, d, h);
    TotalStep(c, a, k, v, b, d);
  }

  lemma MoversIn(c: Ctx, a: Tree, b: Tree, n: Node)
    requires !c.Top? && Spread(c, a, b, n)
    ensures c.n in CFoot(c) && c.n != n
    ensures c.up.Top? <==> c.n == Base(c)
    ensures !c.up.Top? ==> Base(c) == Base(c.up) && c.up.n in CFoot(c.up) && CFoot(c.up) <= CFoot(c)
    ensures c.C3? ==>
      Tip(Movers(c, a, b).0) + Tip(Movers(c, a, b).1) <= CFoot(c) + Foot(a) + Foot(b)
  {
    hide Foot, Sep, CFoot, CSep;
    BaseIsTop(c);
    MoversStep(c);
    TipIn(a);
    TipIn(b);
    if c.C3? {
      TipIn(c.a);
      TipIn(c.b);
    }
  }

  lemma MoversStep(c: Ctx)
    requires !c.Top?
    ensures c.n in CFoot(c) && CFoot(c.up) <= CFoot(c) && (!c.up.Top? ==> c.up.n in CFoot(c.up))
    ensures c.C3? ==> Foot(c.a) <= CFoot(c) && Foot(c.b) <= CFoot(c)
  {
  }

  lemma TipIn(t: Tree)
    ensures Tip(t) <= Foot(t)
  {
  }

  lemma SplitParts(c: Ctx, low: Tree, high: Tree, n: Node)
    requires Spread(c, low, high, n)
    ensures CSep(c) && Sep(low) && Sep(high) && Foot(low) !! Foot(high) && n !in Foot(low) && n !in Foot(high)
    ensures CFoot(c) !! Foot(low) && CFoot(c) !! Foot(high) && n !in CFoot(c)
    ensures Tip(low) <= Foot(low) && Tip(high) <= Foot(high)
    ensures !c.Top? ==> c.n in CFoot(c) && Base(c) in CFoot(c)
  {
    if !c.Top? {
      BaseIsTop(c);
    }
  }

  lemma EvenFits(c: Ctx, a: Tree, b: Tree, h: int)
    requires Even(c, a, b, h)
    ensures S.Fits(ErasePath(c), h)
  {
  }

  ghost predicate IsLeafTree(t: Tree) { !t.Nil? && t.l.Nil? && t.r.Nil? && (t.N3? ==> t.m.Nil?) }

  // The parent of a merged node keeps it as its left child.
  method OpenHole(parent: Node, node: Node, bro: Node, left: bool, ghost c: Ctx, ghost y: Tree)
    requires Apart(c, parent, y) && OwnsCtx(c, parent) && parent.parent == Over(c) && Owns(y, parent)
    requires Root(y) == bro && parent.lkey == NO_KEY && parent.rkey == NO_KEY
    requires if left then Slots(parent, node, null, null, bro) else Slots(parent, bro, null, null, node)
    modifies parent`lchild, parent`rchild
    ensures Hole(c, parent, y)
  {
    hide Foot, CFoot, Holds, OwnsCtx, Sep, CSep;
    if left {
      parent.lchild := bro;
    }
    parent.rchild := null;
  }

  lemma BareLeaf(n: Node, x: Tree)
    requires Bare(n, x)
    ensures n.IsLeaf() <==> x.Nil?
  {
  }

  // The tree after a local case.
  lemma PlugMended(c: Ctx, n: Node, x: Tree)
    requires Local(c) && Apart(c, n, x) && Owns(Mended(c, n, x), Over(c.up)) && OwnsCtx(c.up, c.n)
    ensures var t := Plug(c.up, Mended(c, n, x));
      && Sep(t) && Owns(t, null) && Root(t) == (if c.up.Top? then c.n else Base(c.up))
      && Zone(c, n, x) == Foot(t) + (if Lends(c) then {} else {Spare(c, n)})
      && (!Lends(c) ==> Spare(c, n) !in Foot(t))
  {
    hide Foot, CFoot, Sep, CSep, Holds, OwnsCtx, Mended, Plug, Apart, Zone;
    var m := Mended(c, n, x);
    MendedFoot(c, n, x);
    PlugWhole(c.up, m);
  }

  lemma RootFoot(t: Tree)
    requires !t.Nil?
    ensures t.n in Foot(t)
  {
  }

  lemma MergeRoot(c: Ctx, x: Tree)
    requires c.C2? && Mergeable(c) && Apart(c.up, c.n, Merge(c, x))
    ensures var y := Merge(c, x);
      !y.Nil? && y.n == c.sib.n && y.n in Foot(y) && Sep(y) && c.n !in Foot(y) && c.n !in CFoot(c.up)
  {
  }

  lemma FixTopAny(c: Ctx, y: Tree)
    requires c.Top?
    ensures Erase(y) == S.DeleteUp(ErasePath(c), Erase(y)) && S.Thin(ErasePath(c)) && CFoot(c) == {}
  {
  }

  lemma FixTop(x: Tree)
    requires x.Nil?
    ensures Erase(Nil) == S.DeleteUp(ErasePath(Top), Erase(x)) && S.Thin(ErasePath(Top))
    ensures Foot(Nil) == {} && Sep(Nil) && Holds(Nil) && CFoot(Top) == {} && Foot(x) == {}
  {
  }
}
