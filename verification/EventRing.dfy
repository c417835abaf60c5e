/** The event ring of easenet and of the event engine.  The tail stays put when an event is posted to
    an empty ring, and the head when the last one is popped. */
module EventRing {
  import opened Entries

  datatype Code = Ok | InvalidParam | InternalError

  const NOPE: int := 0
  const ENET_DB_SIZE: nat := 1000

  datatype Event = Event(owner: int, param1: int, param2: int, id: int)

  // Slot i of a ring of n slots, counted from head.
  ghost function Slot(head: nat, i: nat, n: nat): (k: nat)
    requires head < n && i < n
    ensures k < n
  {
    if head + i < n then head + i else head + i - n
  }

  class Ring {
    const db: array<Event>
    var head: nat
    var tail: nat
    var count: nat
    var totalHandler: nat

    ghost predicate Valid()
      reads this
    {
      && 0 < db.Length && head < db.Length && tail < db.Length && count <= db.Length
      && (count <= 1 ==> head == tail)
      && (count >= 1 ==> tail == Slot(head, count - 1, db.Length))
    }

    // The pending events, the oldest first.
    ghost function Pending(): (q: seq<Event>)
      requires Valid()
      reads this, db
      ensures |q| == count
    {
      seq(count, i requires 0 <= i < count && Valid() reads this, db => db[Slot(head, i, db.Length)])
    }

    constructor (size: nat)
      requires size > 0
      ensures Valid() && Pending() == [] && db.Length == size && fresh(db)
    {
      db := new Event[size](_ => Event(0, 0, 0, NOPE));
      head, tail, count, totalHandler := 0, 0, 0, 0;
    }

    // enet_post_event, ee_post_event
    method Post(owner: int, param1: int, param2: int, id: int) returns (st: Code)
      requires Valid()
      modifies this`tail, this`count, this`totalHandler, db
      ensures Valid()
      ensures st == (if owner == 0 || id == NOPE then InvalidParam
                     else if old(count) == db.Length then InternalError else Ok)
      ensures Pending() == Posted(old(Pending()), Event(owner, param1, param2, id), db.Length)
      ensures st == Ok <==> Pending() == old(Pending()) + [Event(owner, param1, param2, id)]
      ensures old(count) == 0 ==> tail == old(tail)
      ensures totalHandler == old(totalHandler) + if st == Ok then 1 else 0
    {
      if owner == 0 || id == NOPE {
        return InvalidParam;
      }
      if count == db.Length {
        return InternalError;
      }
      ghost var q := Pending();
      if count != 0 {
        tail := if tail < db.Length - 1 then tail + 1 else 0;
      }
      db[tail] := Event(owner, param1, param2, id);
      count := count + 1;
      totalHandler := totalHandler + 1;
      st := Ok;
      assert Pending()[..count - 1] == q;
    }

    // One round of the loop of enet_pop_event and pop_event.
    method Pop() returns (e: Option<Event>)
      requires Valid()
      modifies this`head, this`count, db
      ensures Valid()
      ensures Pending() == Popped(old(Pending()))
      ensures e == if old(count) == 0 then None else Some(old(Pending())[0])
      ensures old(count) == 1 ==> head == old(head) == tail
      ensures old(count) > 0 ==> db[old(head)] == old(db[head]).(id := NOPE)
    {
      if count == 0 {
        return None;
      }
      ghost var q := Pending();
      e := Some(db[head]);
      db[head] := db[head].(id := NOPE);
      if count > 1 {
        head := if head < db.Length - 1 then head + 1 else 0;
      }
      count := count - 1;
      assert Pending() == q[1..];
    }
  }

  // ---------- the bounded queue ----------

  ghost function Appended<E>(q: seq<E>, e: E, n: nat): (r: seq<E>)
    ensures q <= r
  {
    if |q| >= n then q else q + [e]
  }

  ghost function Posted(q: seq<Event>, e: Event, n: nat): (r: seq<Event>)
    ensures q <= r
  {
    if e.owner == 0 || e.id == NOPE then q else Appended(q, e, n)
  }

  ghost function Popped<E>(q: seq<E>): seq<E> { if q == [] then q else q[1..] }

  datatype Op = Post(e: Event) | Pop

  // What a series of operations leaves in the queue, accepts and hands out; each operation changes the
  // queue as the ring's contract says.
  datatype Trace = Trace(queue: seq<Event>, accepted: seq<Event>, taken: seq<Event>)

  ghost function Do(t: Trace, op: Op, n: nat): Trace
  {
    match op
    case Post(e) =>
      var q := Posted(t.queue, e, n);
      Trace(q, t.accepted + q[|t.queue|..], t.taken)
    case Pop =>
      Trace(Popped(t.queue), t.accepted, t.taken + if t.queue == [] then [] else [t.queue[0]])
  }

  ghost function DoAll(t: Trace, ops: seq<Op>, n: nat): Trace
    decreases |ops|
  {
    if ops == [] then t else DoAll(Do(t, ops[0], n), ops[1..], n)
  }

  // Over any series of operations the accepted events come out in order, each once, and never more
  // than n wait.
  lemma {:induction false} FirstInFirstOut(t: Trace, ops: seq<Op>, n: nat)
    requires t.accepted == t.taken + t.queue && |t.queue| <= n
    ensures var u := DoAll(t, ops, n); u.accepted == u.taken + u.queue && |u.queue| <= n
    decreases |ops|
  {
    if ops != [] {
      var u := Do(t, ops[0], n);
      if ops[0].Pop? && t.queue != [] {
        assert t.queue == [t.queue[0]] + t.queue[1..];
      }
      assert u.accepted == u.taken + u.queue;
      FirstInFirstOut(u, ops[1..], n);
    }
  }

  lemma {:induction false} DoOneMore(t: Trace, ops: seq<Op>, op: Op, n: nat)
    ensures DoAll(t, ops + [op], n) == Do(DoAll(t, ops, n), op, n)
    decreases |ops|
  {
    if ops == [] {
      assert DoAll(Do(t, op, n), [], n) == Do(t, op, n);
    } else {
      assert (ops + [op])[0] == ops[0] && (ops + [op])[1..] == ops[1..] + [op];
      DoOneMore(Do(t, ops[0], n), ops[1..], op, n);
    }
  }

  // A series of operations on a ring: what is handed out and what is left are the accepted events, in
  // order, after those that waited before.
  method Play(ring: Ring, ops: seq<Op>) returns (taken: seq<Event>)
    requires ring.Valid()
    modifies ring, ring.db
    ensures ring.Valid() && |ring.Pending()| <= ring.db.Length
    ensures var waiting := old(ring.Pending()); var u := DoAll(Trace(waiting, waiting, []), ops, ring.db.Length);
      && ring.Pending() == u.queue && taken == u.taken
      && taken + ring.Pending() == u.accepted && waiting <= u.accepted
  {
    ghost var t := Trace(ring.Pending(), ring.Pending(), []);
    ghost var n := ring.db.Length;
    taken := [];
    for i := 0 to |ops|
      invariant ring.Valid() && ring.Pending() == DoAll(t, ops[..i], n).queue
      invariant taken == DoAll(t, ops[..i], n).taken && t.accepted <= DoAll(t, ops[..i], n).accepted
    {
      DoOneMore(t, ops[..i], ops[i], n);
      assert ops[..i + 1] == ops[..i] + [ops[i]];
      match ops[i]
      case Post(e) =>
        var st := ring.Post(e.owner, e.param1, e.param2, e.id);
      case Pop =>
        var e := ring.Pop();
        if e.Some? {
          taken := taken + [e.value];
        }
    }
    assert ops[..|ops|] == ops;
    FirstInFirstOut(t, ops, n);
  }
}
