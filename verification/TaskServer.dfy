/** The task server of the thread pool: a linked queue of packages and a linked list of recycled ones.
    Each method runs under the handle's write lock. */
module TaskServer {
  import opened Entries

  datatype Code = Ok | NoTask

  class Package {
    var task: int
    var size: int
    var output: int
    var next: Package?

    constructor ()
    {
      task, size, output, next := 0, 0, 0, null;
    }
  }

  ghost function After(s: seq<Package>, i: nat): Package? { if i + 1 < |s| then s[i + 1] else null }

  // The packages s in the order in which they are linked.
  ghost predicate Chain(head: Package?, s: seq<Package>)
    reads Elems(s)`next
  {
    && head == (if s == [] then null else s[0])
    && (forall i :: 0 <= i < |s| ==> s[i].next == After(s, i))
    && (forall i, j :: 0 <= i < j < |s| ==> s[i] != s[j])
  }

  lemma Rest(head: Package?, s: seq<Package>)
    requires Chain(head, s) && s != []
    ensures head == s[0] && Chain(head.next, s[1..]) && head !in s[1..] && Elems(s[1..]) <= Elems(s)
  {
    var t := s[1..];
    forall i | 0 <= i < |t| ensures t[i].next == After(t, i) && t[i] != head {
      assert t[i] == s[i + 1];
    }
    assert head.next == if t == [] then null else t[0];
  }

  // The walk along `next` to the last package, which is the n-th.
  method WalkToLast(head: Package, ghost s: seq<Package>) returns (node: Package, n: nat)
    requires Chain(head, s)
    ensures n == |s| && node == s[n - 1]
  {
    node := head;
    n := 1;
    while node.next != null
      invariant 1 <= n <= |s| && node == s[n - 1]
      decreases |s| - n
    {
      assert node.next == After(s, n - 1);
      node := node.next;
      n := n + 1;
    }
    assert node.next == After(s, n - 1);
  }

  // A package is linked behind the last one.
  method LinkLast(node: Package, package: Package, ghost head: Package?, ghost s: seq<Package>)
    requires Chain(head, s) && s != [] && node == s[|s| - 1] && package !in s
    modifies node`next, package`next
    ensures Chain(head, s + [package]) && package.next == null
  {
    ghost var t := s + [package];
    assert forall i :: 0 <= i < |s| - 1 ==> s[i].next == After(s, i) == After(t, i);
    node.next := package;
    package.next := null;
    assert forall i :: 0 <= i < |t| - 2 ==> t[i] == s[i] && t[i] != node && t[i] != package;
  }

  lemma FirstOf(head: Package?, s: seq<Package>)
    requires Chain(head, s)
    ensures head == null <==> s == []
    ensures s != [] ==> head == s[0]
  {
  }

  lemma OnlyOne(p: Package)
    ensures Chain(p, [] + [p]) <==> p.next == null
  {
    assert ([] + [p])[0] == p && After([] + [p], 0) == null;
  }

  // What the server does to its two lists; P stands for packages.
  datatype Lists<!P(==)> = Lists(queue: seq<P>, pool: seq<P>)
  {
    ghost function Pushed(p: P): Lists<P> { this.(queue := queue + [p]) }

    ghost function Popped(): Lists<P> { if queue == [] then this else this.(queue := queue[1..]) }

    // A recycled package is taken before a new one is allocated.
    ghost function Taken(): Lists<P> { if pool == [] then this else this.(pool := pool[1..]) }

    ghost function Recollected(p: P): Lists<P> { this.(pool := pool + [p]) }
  }

  class Server {
    var packages: Package?
    var packagePool: Package?
    var taskCount: nat
    ghost var lists: Lists<Package>

    ghost predicate Valid()
      reads this, lists.queue, lists.pool
    {
      && Chain(packages, lists.queue) && Chain(packagePool, lists.pool)
      && (forall p <- lists.queue :: p !in lists.pool) && taskCount == |lists.queue|
    }

    ghost predicate Has(p: Package)
      reads this
    {
      p in lists.queue || p in lists.pool
    }

    constructor ()
      ensures Valid() && lists == Lists([], [])
    {
      packages, packagePool, taskCount, lists := null, null, 0, Lists([], []);
    }

    // thp_prepare_task_package
    method Prepare(task: int, size: int, output: int) returns (out: Package)
      requires Valid()
      modifies this`packagePool, this`lists, if packagePool == null then {} else {packagePool}
      ensures Valid() && lists == old(lists).Taken()
      ensures if old(lists).pool == [] then fresh(out) else out == old(lists).pool[0]
      ensures !Has(out) && out.next == null && out.task == task && out.size == size && out.output == output
    {
      hide Chain;
      assert allocated(Elems(lists.queue)) && allocated(Elems(lists.pool));
      FirstOf(packagePool, lists.pool);
      if packagePool == null {
        out := new Package();
      } else {
        Rest(packagePool, lists.pool);
        assert packagePool in lists.pool;
        out := packagePool;
        packagePool := out.next;
        lists := lists.Taken();
      }
      out.next := null;
      out.output := output;
      out.task := task;
      out.size := size;
    }

    // thp_package_push_tail; i counts the packages.  A package that opens the list keeps its own link.
    method PushTail(package: Package) returns (i: nat)
      requires Valid() && !Has(package)
      modifies this`packages, Elems(lists.queue)`next, package`next
      ensures package.next == if old(lists).queue == [] then old(package.next) else null
      ensures i == |old(lists).queue| + 1 && Chain(packagePool, lists.pool)
      ensures Chain(packages, old(lists).queue + [package]) <==> package.next == null
    {
      hide Chain;
      assert allocated(Elems(lists.queue)) && allocated(Elems(lists.pool));
      FirstOf(packages, lists.queue);
      if packages == null {
        packages := package;
        OnlyOne(package);
        return 1;
      }
      var node;
      node, i := WalkToLast(packages, lists.queue);
      i := i + 1;
      assert node in lists.queue;
      LinkLast(node, package, packages, lists.queue);
    }

    // thp_push_task
    method Push(package: Package)
      requires Valid() && !Has(package)
      modifies this`packages, this`taskCount, this`lists, Elems(lists.queue)`next, package`next
      ensures lists == old(lists).Pushed(package) && taskCount == |lists.queue|
      ensures Valid() <==> old(lists).queue != [] || old(package.next) == null
    {
      hide Chain;
      var i := PushTail(package);
      taskCount := taskCount + 1;
      lists := lists.Pushed(package);
    }

    // thp_pop_task
    method Pop() returns (rc: Code, package: Package?)
      requires Valid()
      modifies this`packages, this`taskCount, this`lists, Elems(lists.queue)`next
      ensures Valid() && lists == old(lists).Popped()
      ensures rc == (if old(lists).queue == [] then NoTask else Ok)
      ensures rc == NoTask ==> package == null
      ensures rc == Ok ==>
        package == old(lists).queue[0] && !Has(package) && package.next == null
    {
      hide Chain;
      assert allocated(Elems(lists.queue)) && allocated(Elems(lists.pool));
      FirstOf(packages, lists.queue);
      var p := packages;
      if p != null {
        Rest(packages, lists.queue);
        assert packages in lists.queue;
        packages := p.next;
        taskCount := taskCount - 1;
        p.next := null;
        lists := lists.Popped();
      }
      package := p;
      rc := if p != null then Ok else NoTask;
    }

    // thp_recollect_task_package; left is what the caller's variable holds afterwards.  A package that
    // opens the list stays in that variable, with its task.
    method Recollect(package: Package) returns (left: Package?)
      requires Valid() && !Has(package)
      modifies this`packagePool, this`lists, Elems(lists.pool)`next, package
      ensures lists == old(lists).Recollected(package)
      ensures Valid() <==> old(lists).pool != [] || old(package.next) == null
      ensures old(lists).pool == [] ==> left == package && package.task == old(package.task)
      ensures old(lists).pool != [] ==> left == null && package.task == 0 && package.size == 0 && package.output == 0
    {
      hide Chain;
      assert allocated(Elems(lists.queue)) && allocated(Elems(lists.pool));
      FirstOf(packagePool, lists.pool);
      left := package;
      var node := packagePool;
      if node == null {
        packagePool := package;
        OnlyOne(package);
      } else {
        var n;
        node, n := WalkToLast(node, lists.pool);
        assert node in lists.pool;
        LinkLast(node, package, packagePool, lists.pool);
        package.output := 0;
        package.size := 0;
        package.task := 0;
        left := null;
      }
      lists := lists.Recollected(package);
    }
  }
}
