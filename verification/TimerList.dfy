/** The timers of the event engine: one doubly linked cycle, and the sweep with its moving first timer. */
module TimerList {
  import opened Entries

  const MAX_ONE_ROUND: nat := 20

  class Timer {
    const tick: nat
    var expired: nat
    var id: nat
    var prev: Timer?
    var next: Timer?

    // ee_new_timer_node; now is the tick count.
    constructor (tick: nat, id: nat, now: nat)
      ensures this.tick == tick && expired == (now + tick) % TWO_32 && this.id == id && prev == null && next == null
    {
      this.tick, expired, this.id, prev, next := tick, (now + tick) % TWO_32, id, null, null;
    }
  }

  ghost predicate Distinct(q: seq<Timer>) { forall i, j :: 0 <= i < j < |q| ==> q[i] != q[j] }

  // The neighbours of entry i on the cycle.
  ghost function Succ(q: seq<Timer>, i: nat): Timer requires i < |q| { if i + 1 < |q| then q[i + 1] else q[0] }

  ghost function Pred(q: seq<Timer>, i: nat): Timer requires i < |q| { if i > 0 then q[i - 1] else q[|q| - 1] }

  // The timers q form one cycle in both directions.
  ghost predicate Cycle(q: seq<Timer>)
    reads Elems(q)`next, Elems(q)`prev
  {
    Distinct(q) && forall i :: 0 <= i < |q| ==> q[i].next == Succ(q, i) && q[i].prev == Pred(q, i)
  }

  lemma RotatedOne(q: seq<Timer>)
    requires Cycle(q) && q != []
    ensures Cycle(q[1..] + [q[0]])
  {
    var r := q[1..] + [q[0]];
    forall i | 0 <= i < |r| ensures r[i].next == Succ(r, i) && r[i].prev == Pred(r, i) {
      var k := if i + 1 < |q| then i + 1 else 0;
      assert r[i] == q[k] && q[k].next == Succ(q, k) && q[k].prev == Pred(q, k);
    }
  }

  // It does not matter where the cycle is opened.
  lemma {:induction false} Rotated(a: seq<Timer>, b: seq<Timer>)
    requires Cycle(a + b)
    ensures Cycle(b + a)
    decreases |a|
  {
    if a == [] {
      assert a + b == b + a;
    } else {
      RotatedOne(a + b);
      assert (a + b)[1..] + [(a + b)[0]] == a[1..] + (b + [a[0]]);
      Rotated(a[1..], b + [a[0]]);
      assert b + [a[0]] + a[1..] == b + a;
    }
  }

  lemma Neighbours(q: seq<Timer>, i: nat)
    requires Cycle(q) && i < |q|
    ensures q[i].next == Succ(q, i) && q[i].prev == Pred(q, i)
    ensures forall k :: 0 <= k < |q| && k != i ==> q[k] != q[i]
  {
  }

  lemma Empty()
    ensures Cycle([])
  {
  }

  lemma Alone(t: Timer)
    requires t.next == t && t.prev == t
    ensures Cycle([t])
  {
  }

  // ee_insert_timer_node_nl: a timer is linked in behind the first one.
  method Link(first: Timer, node: Timer, ghost q: seq<Timer>)
    requires Cycle(q) && q != [] && q[0] == first && node !in q
    modifies Elems(q)`next, Elems(q)`prev, node`next, node`prev
    ensures Cycle([first, node] + q[1..])
  {
    ghost var r := [first, node] + q[1..];
    assert first in q && Succ(q, 0) in q;
    var next := first.next;
    node.prev := first;
    first.next := node;
    next.prev := node;
    node.next := next;
    forall i | 0 <= i < |r| ensures r[i].next == Succ(r, i) && r[i].prev == Pred(r, i) {
      if i >= 2 {
        assert r[i] == q[i - 1];
        assert old(q[i - 1].next) == Succ(q, i - 1) && old(q[i - 1].prev) == Pred(q, i - 1);
      }
    }
  }

  // A timer that is not alone is linked out.
  method UnlinkFirst(node: Timer, ghost q: seq<Timer>)
    requires Cycle(q) && |q| > 1 && q[0] == node
    modifies Elems(q)`next, Elems(q)`prev
    ensures Cycle(q[1..]) && node.next == old(node.next) && node.prev == old(node.prev)
  {
    ghost var r := q[1..];
    assert q[1] in q && q[|q| - 1] in q && node == q[0];
    assert node.next == Succ(q, 0) && node.prev == Pred(q, 0);
    node.prev.next := node.next;
    node.next.prev := node.prev;
    forall i | 0 <= i < |r| ensures r[i].next == Succ(r, i) && r[i].prev == Pred(r, i) {
      assert r[i] == q[i + 1] && old(q[i + 1].next) == Succ(q, i + 1) && old(q[i + 1].prev) == Pred(q, i + 1);
    }
  }

  lemma SameElems(a: seq<Timer>, b: seq<Timer>)
    ensures Elems(a + b) == Elems(b + a)
  {
  }

  method Unlink(node: Timer, ghost a: seq<Timer>, ghost b: seq<Timer>)
    requires Cycle(a + [node] + b) && |a + b| > 0
    modifies Elems(a + [node] + b)`next, Elems(a + [node] + b)`prev
    ensures Cycle(a + b) && node.next == old(node.next) && node.prev == old(node.prev)
  {
    hide Cycle, Elems;
    assert a + [node] + b == a + ([node] + b);
    Rotated(a, [node] + b);
    ghost var q := [node] + b + a;
    SameElems(a, [node] + b);
    UnlinkFirst(node, q);
    assert q[1..] == b + a;
    Rotated(b, a);
  }

  // ---------- the timer list ----------

  // A new timer comes second.
  ghost function Started(q: seq<Timer>, t: Timer): seq<Timer>
  {
    if q == [] then [t] else [q[0], t] + q[1..]
  }

  // The timers of q that are not in gone, in order.
  ghost function Without(q: seq<Timer>, gone: set<Timer>): seq<Timer>
  {
    if q == [] then []
    else
      var r := Without(q[..|q| - 1], gone);
      if q[|q| - 1] in gone then r else r + [q[|q| - 1]]
  }

  lemma {:induction false} WithoutNew(q: seq<Timer>, gone: set<Timer>, t: Timer)
    requires t !in q
    ensures Without(q, gone + {t}) == Without(q, gone)
    decreases |q|
  {
    if q != [] {
      WithoutNew(q[..|q| - 1], gone, t);
    }
  }

  lemma WithoutStep(q: seq<Timer>, j: nat, gone: set<Timer>)
    requires Distinct(q) && j < |q| && gone <= Elems(q[..j])
    ensures Without(q[..j + 1], gone + {q[j]}) == Without(q[..j], gone)
    ensures Without(q[..j + 1], gone) == Without(q[..j], gone) + [q[j]]
    ensures gone <= Elems(q[..j + 1]) && gone + {q[j]} <= Elems(q[..j + 1]) && q[j] !in gone
    ensures j > 0 ==> q[j] != q[0]
  {
    assert q[..j + 1][..j] == q[..j] && q[j] !in q[..j];
    WithoutNew(q[..j], gone, q[j]);
  }

  lemma {:induction false} WithoutFirst(q: seq<Timer>, gone: set<Timer>)
    requires q != [] && q[0] !in gone
    ensures Without(q, gone) != [] && Without(q, gone)[0] == q[0]
    decreases |q|
  {
    if |q| > 1 {
      WithoutFirst(q[..|q| - 1], gone);
    }
  }

  lemma WithoutNone(q: seq<Timer>, gone: set<Timer>)
    ensures Without(q[..0], gone) == []
  {
  }

  lemma ElemsConcat(a: seq<Timer>, b: seq<Timer>)
    ensures Elems(a + b) == Elems(a) + Elems(b)
  {
  }

  // The timers that stay are those examined and not deleted.
  lemma {:induction false} WithoutElems(q: seq<Timer>, gone: set<Timer>)
    ensures Elems(Without(q, gone)) == Elems(q) - gone
    decreases |q|
  {
    if q != [] {
      var t := q[|q| - 1];
      WithoutElems(q[..|q| - 1], gone);
      ElemsConcat(Without(q[..|q| - 1], gone), [t]);
      ElemsConcat(q[..|q| - 1], [t]);
      assert q == q[..|q| - 1] + [t];
    }
  }

  lemma OthersDiffer(q: seq<Timer>, j: nat)
    requires Distinct(q) && j < |q|
    ensures forall i :: 0 <= i < |q| && i != j ==> q[i] != q[j]
  {
  }

  lemma KeptIn(q: seq<Timer>, j: nat, gone: set<Timer>)
    requires j <= |q|
    ensures Elems(Without(q[..j], gone) + q[j..]) <= Elems(q)
  {
    hide Elems, Without;
    WithoutElems(q[..j], gone);
    ElemsConcat(Without(q[..j], gone), q[j..]);
    ElemsConcat(q[..j], q[j..]);
    assert q == q[..j] + q[j..];
  }

  // The lists around the j-th timer of q before and after it is examined.
  lemma TurnShapes(q: seq<Timer>, j: nat, gone: set<Timer>, goes: bool)
    requires Distinct(q) && j < |q| && gone <= Elems(q[..j]) && (j > 0 ==> q[0] !in gone)
    ensures var a, b, t := Without(q[..j], gone), q[j + 1..], q[j];
      var gone' := if goes then gone + {t} else gone;
      && Without(q[..j + 1], gone') == (if goes then a else a + [t])
      && (a == [] <==> j == 0) && (b == [] <==> j + 1 == |q|) && (b != [] ==> b[0] == q[j + 1])
      && a + q[j..] == a + [t] + b && t in Elems(a + q[j..])
      && gone' <= Elems(q[..j + 1]) && (q[0] in gone' <==> j == 0 && goes)
  {
    hide Elems, Without, Distinct;
    var a, b := Without(q[..j], gone), q[j + 1..];
    WithoutStep(q, j, gone);
    WithoutNone(q, gone);
    if j > 0 {
      WithoutFirst(q[..j], gone);
    }
    assert q[j..] == [q[j]] + b;
    ElemsHas(a + q[j..], |a|);
  }

  lemma ElemsHas(q: seq<Timer>, i: nat)
    requires i < |q|
    ensures q[i] in Elems(q)
  {
  }

  function Min(x: nat, y: nat): nat { if x < y then x else y }

  // When the timers expire.
  ghost function Times(q: seq<Timer>): (d: seq<nat>)
    reads q
    ensures |d| == |q|
  {
    seq(|q|, i requires 0 <= i < |q| reads q => q[i].expired)
  }

  // Of the first j timers those that were due and reset expire later, at a time counted from the tick
  // count after their callback; all others still expire when they did.
  ghost predicate Settled(q: seq<Timer>, j: nat, times: seq<nat>, tick: nat, resets: seq<bool>, clock: seq<nat>)
    reads Elems(q)`expired
  {
    && |times| == |q| && j <= |resets| == |clock|
    && forall i :: 0 <= i < |q| ==>
      q[i].expired == if i < j && times[i] <= tick && resets[i] then (clock[i] + q[i].tick) % TWO_32 else times[i]
  }

  // Of the first j timers those are gone that were due and not reset.
  ghost predicate Judged(q: seq<Timer>, j: nat, gone: set<Timer>, times: seq<nat>, tick: nat, resets: seq<bool>)
  {
    && j <= |q| && j <= |resets| && |times| == |q|
    && forall i :: 0 <= i < j ==> (q[i] in gone <==> times[i] <= tick && !resets[i])
  }

  lemma PrefixDistinct(q: seq<Timer>, j: nat)
    requires Distinct(q) && j <= |q|
    ensures Distinct(q[..j])
  {
  }

  lemma NothingJudged(q: seq<Timer>, times: seq<nat>, tick: nat, resets: seq<bool>, clock: seq<nat>)
    requires times == Times(q) && |resets| == |clock|
    ensures Settled(q, 0, times, tick, resets, clock) && Judged(q, 0, {}, times, tick, resets)
  {
  }

  class Timers {
    var first: Timer?
    var maxCount: nat
    // The timers from the first one on.
    ghost var ring: seq<Timer>

    ghost predicate Valid()
      reads this, Elems(ring)`next, Elems(ring)`prev
    {
      Cycle(ring) && first == (if ring == [] then null else ring[0]) && maxCount == MAX_ONE_ROUND
    }

    constructor ()
      ensures Valid() && ring == []
    {
      first, maxCount, ring := null, MAX_ONE_ROUND, [];
    }

    // ee_timer, ee_insert_timer_node_nl
    method Insert(tick: nat, id: nat, now: nat) returns (node: Timer)
      requires Valid()
      modifies this`first, this`ring, Elems(ring)`next, Elems(ring)`prev
      ensures Valid() && fresh(node) && node.tick == tick && node.id == id && node.expired == (now + tick) % TWO_32
      ensures node !in old(ring) && ring == Started(old(ring), node)
    {
      hide Cycle, Elems;
      assert allocated(Elems(ring));
      node := new Timer(tick, id, now);
      if first == null {
        first := node;
        node.prev := node;
        node.next := node;
        ring := [node];
        Alone(node);
      } else {
        Link(first, node, ring);
        ring := [first, node] + ring[1..];
      }
    }

    // ee_delete_timer_node_nl; the result is where the sweep goes on from.
    method Delete(node: Timer, ghost a: seq<Timer>, ghost b: seq<Timer>) returns (iterate: Timer?)
      requires Cycle(ring) && ring == a + [node] + b && first == ring[0]
      modifies this`first, this`ring, Elems(ring)`next, Elems(ring)`prev
      ensures ring == a + b && Cycle(ring) && first == if ring == [] then null else ring[0]
      ensures iterate == if a + b == [] then null else if a == [] then b[|b| - 1] else a[|a| - 1]
    {
      hide Cycle, Elems;
      Neighbours(ring, |a|);
      if node.prev == node {
        assert a == [] && b == [];
        first := null;
        ring := [];
        Empty();
        return null;
      }
      Unlink(node, a, b);
      if node == first {
        first := node.next;
      }
      ring := a + b;
      iterate := node.prev;
    }

    // One timer of a sweep; reset is the answer of its callback, now the tick count after it.
    method Examine(node: Timer, tick: nat, reset: bool, now: nat, ghost a: seq<Timer>, ghost b: seq<Timer>)
      returns (left: Timer?)
      requires Cycle(ring) && ring == a + [node] + b && first == ring[0]
      modifies this`first, this`ring, Elems(ring)`next, Elems(ring)`prev, node`expired
      ensures var gone := old(node.expired) <= tick && !reset;
        && ring == (if gone then a + b else old(ring)) && Cycle(ring)
        && first == (if ring == [] then null else ring[0])
        && left == (if !gone then node else if ring == [] then null else if a == [] then b[|b| - 1] else a[|a| - 1])
        && node.expired == if old(node.expired) <= tick && reset then (now + node.tick) % TWO_32 else old(node.expired)
    {
      left := node;
      if node.expired <= tick {
        if reset {
          node.expired := (now + node.tick) % TWO_32;
        } else {
          left := Delete(node, a, b);
        }
      }
    }

    // The sweep has reached the j-th timer of q, and gone are those it has deleted.
    ghost predicate Reached(q: seq<Timer>, j: nat, gone: set<Timer>, node: Timer?)
      reads this, Elems(ring)`next, Elems(ring)`prev
    {
      && j < |q| && j < MAX_ONE_ROUND && node == q[j] && Distinct(q) && Cycle(ring)
      && ring == Without(q[..j], gone) + q[j..] && first == ring[0] && maxCount == MAX_ONE_ROUND - j
      && (j > 0 ==> q[0] !in gone) && gone <= Elems(q[..j])
    }

    // The sweep has ended after m timers of q; the first one not examined is now the first.
    ghost predicate Over(q: seq<Timer>, m: nat, gone: set<Timer>)
      reads this, Elems(ring)`next, Elems(ring)`prev
    {
      && 0 < m <= |q| && m <= MAX_ONE_ROUND && Valid() && ring == q[m..] + Without(q[..m], gone)
      && (m == |q| || m == MAX_ONE_ROUND || m == 1) && (m < |q| && m < MAX_ONE_ROUND ==> q[0] in gone)
      && (q[0] in gone ==> m == 1)
    }

    // The next timer, and the end of the round.
    method Advance(left: Timer, ghost a: seq<Timer>, ghost b: seq<Timer>) returns (node: Timer, done: bool)
      requires Cycle(ring) && ring == a + b && ring != [] && first == ring[0] && 0 < maxCount <= MAX_ONE_ROUND
      requires left == if a == [] then b[|b| - 1] else a[|a| - 1]
      modifies this
      ensures node == (if a == [] || b == [] then (if a == [] then b[0] else a[0]) else b[0])
      ensures done <==> old(maxCount) == 1 || a == [] || b == []
      ensures done ==> Valid() && ring == b + a
      ensures !done ==> ring == old(ring) && first == old(first) && maxCount == old(maxCount) - 1 && Cycle(ring)
    {
      ghost var k := if a == [] then |b| - 1 else |a| - 1;
      assert ring[k] == left && left.next == Succ(ring, k);
      node := left.next;
      maxCount := maxCount - 1;
      done := maxCount == 0 || node == first;
      if done {
        first := node;
        maxCount := MAX_ONE_ROUND;
        Rotated(a, b);
        ring := b + a;
      }
    }

    // One turn of the loop.
    method Turn(node: Timer, tick: nat, reset: bool, now: nat,
                ghost q: seq<Timer>, ghost j: nat, ghost gone: set<Timer>)
      returns (node': Timer?, done: bool, ghost gone': set<Timer>)
      requires Reached(q, j, gone, node)
      modifies this, Elems(ring)`next, Elems(ring)`prev, node`expired
      ensures gone' == if old(node.expired) <= tick && !reset then gone + {node} else gone
      ensures node.expired ==
        if old(node.expired) <= tick && reset then (now + node.tick) % TWO_32 else old(node.expired)
      ensures done ==> Over(q, j + 1, gone') && Valid()
      ensures !done ==> Reached(q, j + 1, gone', node')
    {
      hide Cycle, Distinct, Without, Elems;
      ghost var a, b := Without(q[..j], gone), q[j + 1..];
      ghost var goes := node.expired <= tick && !reset;
      gone' := if goes then gone + {node} else gone;
      ghost var a' := Without(q[..j + 1], gone');
      TurnShapes(q, j, gone, goes);
      var left := Examine(node, tick, reset, now, a, b);
      if left == null {
        return null, true, gone';
      }
      node', done := Advance(left, a', b);
    }

    // One round of ee_timer_event.  The callbacks' answers and the tick counts are parameters.
    method Sweep(tick: nat, resets: seq<bool>, clock: seq<nat>)
      returns (ghost examined: seq<Timer>, ghost gone: set<Timer>)
      requires Valid() && |resets| == |clock| == MAX_ONE_ROUND
      modifies this, Elems(ring)
      ensures Valid()
      ensures old(ring) == [] ==> examined == [] && ring == []
      ensures old(ring) != [] ==> Over(old(ring), |examined|, gone)
      ensures examined <= old(ring) && Distinct(examined)
      ensures Judged(old(ring), |examined|, gone, old(Times(ring)), tick, resets)
      ensures Settled(old(ring), |examined|, old(Times(ring)), tick, resets, clock)
      ensures Elems(ring) <= old(Elems(ring))
      ensures old(ring) != [] ==>
        (|examined| == Min(|old(ring)|, MAX_ONE_ROUND) <==>
          |old(ring)| == 1 || old(ring[0].expired) > tick || resets[0])
    {
      hide Cycle, Without, Elems, Over, Distinct, Valid, Reached;
      RoundStarts();
      ghost var q := ring;
      ghost var times := Times(q);
      ghost var j := 0;
      examined, gone := [], {};
      var node := first;
      var done := node == null;
      hide Judged, Settled, Times;
      NothingJudged(q, times, tick, resets, clock);
      while !done
        invariant done ==> Valid() && (if q == [] then ring == [] else Over(q, j, gone))
        invariant !done ==> Reached(q, j, gone, node)
        invariant j <= |q| && Settled(q, j, times, tick, resets, clock) && Judged(q, j, gone, times, tick, resets)
        decreases |q| - j, !done
      {
        ReachedFacts(q, j, gone, node);
        var k := MAX_ONE_ROUND - maxCount;
        node, done, gone := JudgedTurn(node, tick, resets, clock, k, q, j, gone, times);
        j := j + 1;
      }
      examined := q[..j];
      PrefixDistinct(q, j);
      if q != [] {
        OverFacts(q, j, gone, times, tick, resets);
      }
    }

    method JudgedTurn(node: Timer, tick: nat, resets: seq<bool>, clock: seq<nat>, k: nat,
                      ghost q: seq<Timer>, ghost j: nat, ghost gone: set<Timer>, ghost times: seq<nat>)
      returns (node': Timer?, done: bool, ghost gone': set<Timer>)
      requires Reached(q, j, gone, node) && k == j < |resets| == |clock|
      requires Settled(q, j, times, tick, resets, clock) && Judged(q, j, gone, times, tick, resets)
      modifies this, Elems(ring)`next, Elems(ring)`prev, node`expired
      ensures done ==> Over(q, j + 1, gone') && Valid()
      ensures !done ==> Reached(q, j + 1, gone', node')
      ensures Settled(q, j + 1, times, tick, resets, clock) && Judged(q, j + 1, gone', times, tick, resets)
    {
      hide Cycle, Without, Elems, Over, Distinct, Valid, Reached;
      ReachedFacts(q, j, gone, node);
      node', done, gone' := Turn(node, tick, resets[k], clock[k], q, j, gone);
    }

    lemma OverFacts(q: seq<Timer>, m: nat, gone: set<Timer>, times: seq<nat>, tick: nat, resets: seq<bool>)
      requires q != [] && |resets| == MAX_ONE_ROUND && Over(q, m, gone) && Judged(q, m, gone, times, tick, resets)
      ensures Elems(ring) <= Elems(q)
      ensures m == Min(|q|, MAX_ONE_ROUND) <==> |q| == 1 || times[0] > tick || resets[0]
    {
      hide Cycle, Without;
      WithoutElems(q[..m], gone);
      ElemsConcat(q[m..], Without(q[..m], gone));
    }

    lemma OnlyFirst(a: Timer, b: Timer, gone: set<Timer>, times: seq<nat>, no: seq<bool>, clock: seq<nat>, m: nat)
      requires Over([a, b], m, gone) && times == [5, 5] && |no| == |clock| == MAX_ONE_ROUND && !no[0]
      requires Judged([a, b], m, gone, times, 5, no) && Settled([a, b], m, times, 5, no, clock)
      ensures m == 1 && ring == [b] && b.expired == 5
    {
      hide Cycle, Distinct, Without;
      assert [a, b][..1] == [a] && [a, b][1..] == [b] && [a, b][1] == b;
      OnlyGone(a, gone);
    }

    lemma RoundStarts()
      requires Valid()
      ensures first == null <==> ring == []
      ensures ring != [] ==> Reached(ring, 0, {}, first)
      ensures Distinct(ring)
    {
      WithoutNone(ring, {});
      assert [] + ring[0..] == ring;
    }

    lemma ReachedFacts(q: seq<Timer>, j: nat, gone: set<Timer>, node: Timer?)
      requires Reached(q, j, gone, node)
      ensures j < |q| && j < MAX_ONE_ROUND && node == q[j] && maxCount == MAX_ONE_ROUND - j && q[j] !in gone
      ensures q[j] in Elems(q) && Elems(ring) <= Elems(q) && forall i :: 0 <= i < |q| && i != j ==> q[i] != q[j]
    {
      hide Cycle, Without;
      KeptIn(q, j, gone);
      WithoutStep(q, j, gone);
      OthersDiffer(q, j);
    }
  }

  // ---------- many sweeps ----------

  // What changes the list: a timer is started, or a sweep, with the answers of its callbacks.
  datatype Op = Start(tick: nat, id: nat, now: nat) | Round(tick: nat, resets: seq<bool>, clock: seq<nat>)

  // From list a to list b; a sweep examines the first n timers of a, and the others come first in b.
  ghost predicate Step(op: Op, a: seq<Timer>, n: nat, b: seq<Timer>)
  {
    match op
    case Start(_, _, _) => n == 0 && exists t :: t in b && t !in a && b == Started(a, t)
    case Round(_, _, _) => n <= |a| && n <= MAX_ONE_ROUND && (a != [] ==> n > 0) && a[n..] <= b && Elems(b) <= Elems(a)
  }

  ghost predicate History(ops: seq<Op>, lists: seq<seq<Timer>>, sizes: seq<nat>)
  {
    && |lists| == |ops| + 1 && |sizes| == |ops|
    && forall i :: 0 <= i < |ops| ==> sizes[i] <= |lists[i]| && Step(ops[i], lists[i], sizes[i], lists[i + 1])
  }

  ghost function Rounds(ops: seq<Op>): nat
  {
    if ops == [] then 0 else (if ops[0].Round? then 1 else 0) + Rounds(ops[1..])
  }

  ghost function Starts(ops: seq<Op>): nat
  {
    if ops == [] then 0 else (if ops[0].Start? then 1 else 0) + Starts(ops[1..])
  }

  ghost predicate Examined(t: Timer, ops: seq<Op>, lists: seq<seq<Timer>>, sizes: seq<nat>, k: nat)
    requires History(ops, lists, sizes)
  {
    exists i :: k <= i < |ops| && ops[i].Round? && t in lists[i][..sizes[i]]
  }

  // The timer at position p is examined within p + 1 sweeps, and one more for every timer started.
  lemma {:induction false} ExaminedInTime(ops: seq<Op>, lists: seq<seq<Timer>>, sizes: seq<nat>, k: nat, p: nat)
    requires History(ops, lists, sizes) && k <= |ops| && p < |lists[k]|
    requires Rounds(ops[k..]) >= p + 1 + Starts(ops[k..])
    ensures Examined(lists[k][p], ops, lists, sizes, k)
    decreases |ops| - k
  {
    var a, b, n := lists[k], lists[k + 1], sizes[k];
    assert ops[k..][1..] == ops[k + 1..] && Step(ops[k], a, n, b);
    if ops[k].Start? {
      assert a[p] == b[if p == 0 then 0 else p + 1];
      ExaminedInTime(ops, lists, sizes, k + 1, if p == 0 then 0 else p + 1);
    } else if p < n {
      assert a[p] == a[..n][p];
    } else {
      assert a[p] == a[n..][p - n] == b[p - n];
      ExaminedInTime(ops, lists, sizes, k + 1, p - n);
    }
  }

  // Every one of n timers is examined within n sweeps, and one more for every timer started meanwhile.
  lemma AllExamined(ops: seq<Op>, lists: seq<seq<Timer>>, sizes: seq<nat>)
    requires History(ops, lists, sizes) && Rounds(ops) >= |lists[0]| + Starts(ops)
    ensures forall t <- lists[0] :: Examined(t, ops, lists, sizes, 0)
  {
    forall t | t in lists[0] ensures Examined(t, ops, lists, sizes, 0) {
      var p :| 0 <= p < |lists[0]| && lists[0][p] == t;
      assert ops[0..] == ops;
      ExaminedInTime(ops, lists, sizes, 0, p);
    }
  }

  // Any series of starts and sweeps; lists[i] are the timers before operation i, and sizes[i] says how
  // many of them it examined.
  method Play(timers: Timers, ops: seq<Op>) returns (ghost lists: seq<seq<Timer>>, ghost sizes: seq<nat>)
    requires timers.Valid()
    requires forall op <- ops :: op.Round? ==> |op.resets| == |op.clock| == MAX_ONE_ROUND
    modifies timers, Elems(timers.ring)
    ensures timers.Valid() && History(ops, lists, sizes) && lists[0] == old(timers.ring) && lists[|ops|] == timers.ring
    ensures Rounds(ops) >= |old(timers.ring)| + Starts(ops) ==>
      forall t <- old(timers.ring) :: Examined(t, ops, lists, sizes, 0)
  {
    hide Step, Timers.Valid, Cycle;
    lists, sizes := [timers.ring], [];
    for i := 0 to |ops|
      invariant timers.Valid() && History(ops[..i], lists, sizes)
      invariant lists[0] == old(timers.ring) && lists[i] == timers.ring
      invariant forall t <- timers.ring :: t in old(timers.ring) || fresh(t)
    {
      var n := PlayOne(timers, ops[i]);
      HistoryLonger(ops[..i], lists, sizes, ops[i], n, timers.ring);
      assert ops[..i + 1] == ops[..i] + [ops[i]];
      lists, sizes := lists + [timers.ring], sizes + [n];
    }
    assert ops[..|ops|] == ops;
    if Rounds(ops) >= |lists[0]| + Starts(ops) {
      AllExamined(ops, lists, sizes);
    }
  }

  method PlayOne(timers: Timers, op: Op) returns (ghost n: nat)
    requires timers.Valid() && (op.Round? ==> |op.resets| == |op.clock| == MAX_ONE_ROUND)
    modifies timers, Elems(timers.ring)
    ensures timers.Valid() && n <= |old(timers.ring)| && Step(op, old(timers.ring), n, timers.ring)
    ensures forall t <- timers.ring :: t in old(timers.ring) || fresh(t)
  {
    match op
    case Start(tick, id, now) =>
      var node := timers.Insert(tick, id, now);
      n := 0;
    case Round(tick, resets, clock) =>
      ghost var was := timers.ring;
      ghost var examined, gone := timers.Sweep(tick, resets, clock);
      n := |examined|;
      assert forall t <- timers.ring :: t in Elems(timers.ring) && t in Elems(was);
  }

  lemma HistoryLonger(ops: seq<Op>, lists: seq<seq<Timer>>, sizes: seq<nat>, op: Op, n: nat, q: seq<Timer>)
    requires History(ops, lists, sizes) && n <= |lists[|ops|]| && Step(op, lists[|ops|], n, q)
    ensures History(ops + [op], lists + [q], sizes + [n])
  {
    hide Step;
  }

  method TwoDue() returns (timers: Timers, a: Timer, b: Timer)
    ensures fresh(timers) && fresh(a) && fresh(b)
    ensures timers.Valid() && timers.ring == [a, b] && a.expired == b.expired == 5
  {
    hide Cycle, Distinct, Timers.Valid, Elems;
    timers := new Timers();
    ElemsNone();
    a := timers.Insert(0, 1, 5);
    ElemsPair(a, a);
    assert timers.ring == [a];
    b := timers.Insert(0, 2, 5);
    ElemsPair(a, b);
    assert timers.ring == [a, b];
  }

  // Two timers are due and not to be reset: the first one goes, the second has to wait.
  method SecondWaits() returns (timers: Timers, a: Timer, b: Timer, ghost examined: seq<Timer>)
    ensures timers.Valid() && examined == [a] && timers.ring == [b] && b.expired <= 5
  {
    hide Cycle, Distinct, Timers.Valid, Without, Elems, Timers.Over, Judged, Settled, Times;
    timers, a, b := TwoDue();
    ElemsPair(a, b);
    var no, clock := seq(MAX_ONE_ROUND, _ => false), seq(MAX_ONE_ROUND, _ => 5);
    ghost var q, times := timers.ring, Times(timers.ring);
    TimesOfTwo(a, b);
    ghost var gone;
    examined, gone := timers.Sweep(5, no, clock);
    timers.OnlyFirst(a, b, gone, times, no, clock, |examined|);
  }

  lemma TimesOfTwo(a: Timer, b: Timer)
    ensures Times([a, b]) == [a.expired, b.expired]
  {
  }

  lemma ElemsPair(a: Timer, b: Timer)
    ensures Elems([a, b]) == {a, b} && Elems([a]) == {a}
  {
  }

  lemma ElemsNone()
    ensures Elems<Timer>([]) == {}
  {
  }

  lemma OnlyGone(t: Timer, gone: set<Timer>)
    requires t in gone
    ensures Without([t], gone) == []
  {
    assert Without([], gone) == [];
  }
}
