/** The packet units of the easenet server: the free list, and the steps of the socket workers and the
    event handler that pass the units on. */
module ServerPath {
  import opened Entries
  import EventRing

  const POOL_SIZE: nat := 100
  const RING_SIZE: nat := EventRing.ENET_DB_SIZE

  // ---------- the allocator ----------

  // enet_alloc_packet_unit and enet_free_packet_unit on the live prefix of the free list.
  ghost function Taken(free: seq<nat>): seq<nat> { if free == [] then free else free[..|free| - 1] }

  ghost function Returned(free: seq<nat>, unit: nat): seq<nat> { free + [unit] }

  class PacketPool {
    const freeList: array<nat>
    const state: array<bool>
    // The index of the last free entry, -1 when there is none.
    var last: int

    ghost predicate Valid()
      reads this, freeList, state
    {
      && freeList.Length == state.Length && -1 <= last < freeList.Length && NoDup(Free())
      && (forall u <- Free() :: u < state.Length)
      && (forall u :: 0 <= u < state.Length ==> (state[u] <==> u !in Free()))
    }

    // The live prefix of the list.
    ghost function Free(): seq<nat>
      requires -1 <= last < freeList.Length
      reads this, freeList
    {
      freeList[..last + 1]
    }

    // enet_init_packet_pool
    constructor (size: nat)
      ensures Valid() && freeList.Length == size && fresh(freeList) && fresh(state)
      ensures forall u: nat :: u < size ==> u in Free()
    {
      freeList := new nat[size](i => i);
      state := new bool[size](_ => false);
      last := size - 1;
      new;
      forall u: nat | u < size ensures u in Free() { assert Free()[u] == u; }
    }

    method Alloc() returns (unit: Option<nat>)
      requires Valid()
      modifies this`last, state
      ensures Valid() && Free() == Taken(old(Free()))
      ensures unit == if old(Free()) == [] then None else Some(old(Free())[|old(Free())| - 1])
      ensures unit.Some? ==> unit.value < state.Length && unit.value !in Free()
    {
      if last == -1 {
        return None;
      }
      assert Free()[last] == freeList[last] && Free()[last] in Free();
      ghost var was := Free();
      LastOut(was);
      unit := Some(freeList[last]);
      state[freeList[last]] := true;
      last := last - 1;
      assert Free() == Taken(was);
    }

    // The unit, if any, is one that is out.
    method Return(unit: Option<nat>)
      requires Valid() && (unit.Some? ==> unit.value < state.Length && unit.value !in Free())
      modifies this`last, state, freeList
      ensures Valid() && Free() == if unit.None? then old(Free()) else Returned(old(Free()), unit.value)
    {
      if unit == None {
        return;
      }
      RoomLeft(Free(), unit.value, freeList.Length);
      ghost var was := Free();
      last := last + 1;
      state[unit.value] := false;
      freeList[last] := unit.value;
      assert Free() == was + [unit.value];
    }
  }

  lemma LastOut(q: seq<nat>)
    requires NoDup(q) && q != []
    ensures NoDup(Taken(q)) && forall u :: u in Taken(q) <==> u in q && u != q[|q| - 1]
  {
    assert q == Taken(q) + [q[|q| - 1]];
  }

  // Different numbers below n are at most n, and fewer when one below n is missing.
  lemma {:induction false} Pigeons(q: seq<nat>, n: nat)
    requires NoDup(q) && forall u <- q :: u < n
    ensures |q| <= n
    decreases n
  {
    if n == 0 {
      assert forall i :: 0 <= i < |q| ==> q[i] !in q;
    } else if n - 1 in q {
      var i :| 0 <= i < |q| && q[i] == n - 1;
      var r := q[..i] + q[i + 1..];
      forall u | u in r ensures u < n - 1 {
        var j :| 0 <= j < |r| && r[j] == u;
        var k := if j < i then j else j + 1;
        assert u == q[k] && q[k] in q && q[k] != q[i];
      }
      assert forall j, k :: 0 <= j < k < |r| ==>
        r[j] == q[if j < i then j else j + 1] && r[k] == q[if k < i then k else k + 1];
      Pigeons(r, n - 1);
    } else {
      Pigeons(q, n - 1);
    }
  }

  lemma RoomLeft(q: seq<nat>, u: nat, n: nat)
    requires NoDup(q) && (forall v <- q :: v < n) && u < n && u !in q
    ensures |q| < n
  {
    Pigeons(q + [u], n);
  }

  // ---------- workers, event ring and handler ----------

  type Tid = nat
  type Unit = nat

  // Data of a client, the end of a client's connection, and events of other kinds.
  datatype Event = Received(unit: Unit) | Lost | Other

  // A worker between two sockets, waiting for a unit, before the receive, before posting the
  // disconnection, before posting the data, and before giving the unit back.
  datatype Worker = Idle | Waiting | Holding(unit: Unit) | Failed(unit: Unit) | Filled(unit: Unit) | Giving(unit: Unit)

  datatype Handler = Resting | Handling(e: Event)

  datatype Place = InFree | AtWorker(w: Tid) | InRing | AtHandler

  // A unit and the number of bytes in it.
  type Chunk = (Unit, nat)

  // `busy` are the units whose state flag is set, `sizes` their size fields; `place` follows the units,
  // `posted` and `handed` are the data that went into the ring and those the handler has processed.
  datatype State = State(
    free: seq<nat>, busy: set<nat>, ring: seq<Event>, workers: map<Tid, Worker>, handler: Handler,
    sizes: map<Unit, nat>, place: map<Unit, Place>, posted: seq<Chunk>, handed: seq<Chunk>)

  datatype Action =
    | NextSocket(w: Tid) | Alloc(w: Tid) | Receive(w: Tid, result: int) | PostLost(w: Tid) | PostData(w: Tid)
    | GiveBack(w: Tid) | PostOther | PopEvent | Handled

  ghost predicate Init(s: State)
  {
    && s.free == seq(POOL_SIZE, i => i) && s.busy == {} && s.ring == [] && s.handler == Resting
    && (forall w <- s.workers :: s.workers[w] == Idle)
    && (forall u: Unit :: u in s.place <==> u < POOL_SIZE) && (forall u <- s.place :: s.place[u] == InFree)
    && s.posted == [] && s.handed == []
  }

  // enet_tcp_socket_recv: what recv returned is an error, the end of the connection, or a number of
  // bytes.
  ghost predicate ReceiveFails(result: int) { result == -1 || result == 0 }

  ghost predicate Is(s: State, w: Tid) { w in s.workers }

  ghost predicate CanMove(s: State, a: Action)
  {
    match a
    case NextSocket(w) => Is(s, w) && s.workers[w] == Idle
    case Alloc(w) => Is(s, w) && s.workers[w] == Waiting
    case Receive(w, result) => Is(s, w) && s.workers[w].Holding? && result >= -1
    case PostLost(w) => Is(s, w) && s.workers[w].Failed?
    case PostData(w) => Is(s, w) && s.workers[w].Filled?
    case GiveBack(w) => Is(s, w) && s.workers[w].Giving?
    case PostOther => true
    case PopEvent => s.handler == Resting && s.ring != []
    case Handled => s.handler.Handling?
  }

  ghost function SetWorker(s: State, w: Tid, x: Worker): State { s.(workers := s.workers[w := x]) }

  ghost predicate RingFull(s: State) { |s.ring| >= RING_SIZE }

  ghost function Freed(s: State, u: Unit): State
  {
    s.(free := Returned(s.free, u), busy := s.busy - {u}, place := s.place[u := InFree])
  }

  ghost function ChunkOf(s: State, u: Unit): Chunk { (u, if u in s.sizes then s.sizes[u] else 0) }

  ghost function Move(s: State, a: Action): State
    requires CanMove(s, a)
  {
    match a
    case NextSocket(w) => SetWorker(s, w, Waiting)
    case Alloc(w) =>
      if s.free == [] then s
      else
        var u := s.free[|s.free| - 1];
        SetWorker(s, w, Holding(u)).(free := Taken(s.free), busy := s.busy + {u}, place := s.place[u := AtWorker(w)])
    case Receive(w, result) =>
      var u := s.workers[w].unit;
      if ReceiveFails(result) then SetWorker(s, w, Failed(u))
      else SetWorker(s, w, Filled(u)).(sizes := s.sizes[u := result])
    case PostLost(w) =>
      // A full ring loses the event; the unit is given back in any case.
      SetWorker(s, w, Giving(s.workers[w].unit)).(ring := EventRing.Appended(s.ring, Lost, RING_SIZE))
    case PostData(w) =>
      var u := s.workers[w].unit;
      if RingFull(s) then SetWorker(s, w, Giving(u))
      else
        SetWorker(s, w, Idle).(
          ring := EventRing.Appended(s.ring, Received(u), RING_SIZE), place := s.place[u := InRing],
          posted := s.posted + [ChunkOf(s, u)])
    case GiveBack(w) => SetWorker(Freed(s, s.workers[w].unit), w, Idle)
    case PostOther => s.(ring := EventRing.Appended(s.ring, Other, RING_SIZE))
    case PopEvent =>
      var e := s.ring[0];
      s.(ring := EventRing.Popped(s.ring), handler := Handling(e),
         place := if e.Received? then s.place[e.unit := AtHandler] else s.place)
    case Handled =>
      var e := s.handler.e;
      if e.Received? then Freed(s, e.unit).(handler := Resting, handed := s.handed + [ChunkOf(s, e.unit)])
      else s.(handler := Resting)
  }

  // ---------- the invariant ----------

  ghost predicate Has(x: Worker, u: Unit) { !x.Idle? && !x.Waiting? && x.unit == u }

  // Where a unit is, read off the free list, the threads and the ring.
  ghost predicate Lies(s: State, u: Unit, at: Place)
  {
    match at
    case InFree => u in s.free
    case AtWorker(w) => w in s.workers && Has(s.workers[w], u)
    case InRing => Received(u) in s.ring
    case AtHandler => s.handler == Handling(Received(u))
  }

  ghost function UnitOf(e: Event): seq<Unit> { if e.Received? then [e.unit] else [] }

  // The units of the pending data events.
  ghost function Units(q: seq<Event>): seq<Unit>
  {
    if q == [] then [] else UnitOf(q[0]) + Units(q[1..])
  }

  ghost predicate Inv(s: State)
  {
    && NoDup(s.free) && NoDup(Units(s.ring))
    && (forall u: Unit :: u in s.place <==> u < POOL_SIZE)
    && (forall u <- s.place :: Lies(s, u, s.place[u]))
    && (forall u: Unit, at: Place :: Lies(s, u, at) ==> u in s.place && s.place[u] == at)
    && (forall u: Unit :: u in s.busy <==> u < POOL_SIZE && u !in s.free)
    && |s.ring| <= RING_SIZE
  }

  lemma InitInv(s: State)
    requires Init(s)
    ensures Inv(s)
  {
    forall u: Unit | u < POOL_SIZE ensures u in s.free { assert s.free[u] == u; }
  }

  lemma {:induction false} UnitsAppend(q: seq<Event>, e: Event)
    ensures Units(q + [e]) == Units(q) + UnitOf(e)
    decreases |q|
  {
    hide UnitOf;
    if q == [] {
      assert [] + [e] == [e] && [e][1..] == [];
    } else {
      assert (q + [e])[0] == q[0] && (q + [e])[1..] == q[1..] + [e];
      UnitsAppend(q[1..], e);
      assert UnitOf(q[0]) + (Units(q[1..]) + UnitOf(e)) == UnitOf(q[0]) + Units(q[1..]) + UnitOf(e);
    }
  }

  lemma {:induction false} UnitsHold(q: seq<Event>, u: Unit)
    ensures u in Units(q) <==> Received(u) in q
    decreases |q|
  {
    if q != [] {
      UnitsHold(q[1..], u);
      assert q == [q[0]] + q[1..];
    }
  }

  lemma RingRest(q: seq<Event>)
    requires NoDup(Units(q)) && q != []
    ensures NoDup(Units(q[1..]))
    ensures forall u: Unit :: Received(u) in q[1..] <==> Received(u) in q && q[0] != Received(u)
  {
    var r := Units(q[1..]);
    assert q == [q[0]] + q[1..];
    if q[0].Received? {
      assert Units(q) == [q[0].unit] + r;
      NoDupRest(Units(q));
      assert Units(q)[1..] == r;
    } else {
      assert Units(q) == r;
    }
    forall u: Unit ensures Received(u) in q[1..] <==> Received(u) in q && q[0] != Received(u) {
      UnitsHold(q[1..], u);
      UnitsHold(q, u);
    }
  }

  lemma RingMore(q: seq<Event>, e: Event)
    requires NoDup(Units(q)) && (e.Received? ==> e !in q)
    ensures NoDup(Units(q + [e]))
  {
    UnitsAppend(q, e);
    if e.Received? {
      UnitsHold(q, e.unit);
      NoDupAppend(Units(q), e.unit);
    } else {
      assert Units(q) + [] == Units(q);
    }
  }

  // One unit goes to another place.
  lemma Relocate(s: State, s': State, u: Unit, to: Place)
    requires Inv(s) && u in s.place && s'.place == s.place[u := to] && NoDup(s'.free) && NoDup(Units(s'.ring))
    requires |s'.ring| <= RING_SIZE && s'.busy == (if to == InFree then s.busy - {u} else s.busy + {u})
    requires forall v: Unit, at: Place :: Lies(s', v, at) <==> (if v == u then at == to else Lies(s, v, at))
    ensures Inv(s')
  {
    forall v: Unit ensures v in s'.free <==> (if v == u then to == InFree else v in s.free) {
      assert Lies(s', v, InFree) <==> (if v == u then InFree == to else Lies(s, v, InFree));
    }
  }

  // No unit moves.
  lemma Stay(s: State, s': State)
    requires Inv(s) && s'.place == s.place && s'.free == s.free && s'.busy == s.busy && NoDup(Units(s'.ring))
    requires |s'.ring| <= RING_SIZE
    requires forall v: Unit, at: Place :: Lies(s', v, at) <==> Lies(s, v, at)
    ensures Inv(s')
  {
  }

  lemma KeepSocket(s: State, a: Action)
    requires Inv(s) && CanMove(s, a) && (a.NextSocket? || a.Receive? || (a.PostData? && RingFull(s)))
    ensures Inv(Move(s, a))
  {
    var s' := Move(s, a);
    forall v: Unit, at: Place ensures Lies(s', v, at) <==> Lies(s, v, at) { }
    Stay(s, s');
  }

  lemma KeepLost(s: State, a: Action)
    requires Inv(s) && CanMove(s, a) && (a.PostLost? || a.PostOther?)
    ensures Inv(Move(s, a))
  {
    var s' := Move(s, a);
    RingMore(s.ring, if a.PostLost? then Lost else Other);
    forall v: Unit, at: Place ensures Lies(s', v, at) <==> Lies(s, v, at) { }
    Stay(s, s');
  }

  lemma KeepAlloc(s: State, a: Action)
    requires Inv(s) && CanMove(s, a) && a.Alloc? && s.free != []
    ensures Inv(Move(s, a))
  {
    var s' := Move(s, a);
    var u := s.free[|s.free| - 1];
    assert Lies(s, u, InFree);
    LastOut(s.free);
    forall v: Unit, at: Place ensures Lies(s', v, at) <==> (if v == u then at == AtWorker(a.w) else Lies(s, v, at)) {
      assert Lies(s, v, at) ==> v in s.place && s.place[v] == at;
    }
    Relocate(s, s', u, AtWorker(a.w));
  }

  lemma KeepPost(s: State, a: Action)
    requires Inv(s) && CanMove(s, a) && a.PostData? && !RingFull(s)
    ensures Inv(Move(s, a))
  {
    var s' := Move(s, a);
    var u := s.workers[a.w].unit;
    assert Lies(s, u, AtWorker(a.w));
    assert !Lies(s, u, InRing) && !Lies(s, u, InFree) && s.busy + {u} == s.busy;
    RingMore(s.ring, Received(u));
    forall v: Unit, at: Place ensures Lies(s', v, at) <==> (if v == u then at == InRing else Lies(s, v, at)) {
      assert Lies(s, v, at) ==> v in s.place && s.place[v] == at;
    }
    Relocate(s, s', u, InRing);
  }

  lemma KeepGiveBack(s: State, a: Action)
    requires Inv(s) && CanMove(s, a) && a.GiveBack?
    ensures Inv(Move(s, a))
  {
    var s' := Move(s, a);
    var u := s.workers[a.w].unit;
    assert Lies(s, u, AtWorker(a.w));
    assert !Lies(s, u, InFree);
    NoDupAppend(s.free, u);
    forall v: Unit, at: Place ensures Lies(s', v, at) <==> (if v == u then at == InFree else Lies(s, v, at)) {
      assert Lies(s, v, at) ==> v in s.place && s.place[v] == at;
    }
    Relocate(s, s', u, InFree);
  }

  lemma KeepPop(s: State, a: Action)
    requires Inv(s) && CanMove(s, a) && a.PopEvent? && s.ring[0].Received?
    ensures Inv(Move(s, a))
  {
    var s' := Move(s, a);
    var u := s.ring[0].unit;
    assert Lies(s, u, InRing);
    assert !Lies(s, u, InFree) && s.busy + {u} == s.busy;
    RingRest(s.ring);
    forall v: Unit, at: Place ensures Lies(s', v, at) <==> (if v == u then at == AtHandler else Lies(s, v, at)) {
      assert Lies(s, v, at) ==> v in s.place && s.place[v] == at;
    }
    Relocate(s, s', u, AtHandler);
  }

  lemma KeepPopOther(s: State, a: Action)
    requires Inv(s) && CanMove(s, a) && a.PopEvent? && !s.ring[0].Received?
    ensures Inv(Move(s, a))
  {
    var s' := Move(s, a);
    RingRest(s.ring);
    forall v: Unit, at: Place ensures Lies(s', v, at) <==> Lies(s, v, at) { }
    Stay(s, s');
  }

  lemma KeepHandled(s: State, a: Action)
    requires Inv(s) && CanMove(s, a) && a.Handled? && s.handler.e.Received?
    ensures Inv(Move(s, a))
  {
    var s' := Move(s, a);
    var u := s.handler.e.unit;
    assert Lies(s, u, AtHandler);
    assert !Lies(s, u, InFree);
    NoDupAppend(s.free, u);
    forall v: Unit, at: Place ensures Lies(s', v, at) <==> (if v == u then at == InFree else Lies(s, v, at)) {
      assert Lies(s, v, at) ==> v in s.place && s.place[v] == at;
    }
    Relocate(s, s', u, InFree);
  }

  lemma KeepHandledOther(s: State, a: Action)
    requires Inv(s) && CanMove(s, a) && a.Handled? && !s.handler.e.Received?
    ensures Inv(Move(s, a))
  {
    var s' := Move(s, a);
    forall v: Unit, at: Place ensures Lies(s', v, at) <==> Lies(s, v, at) { }
    Stay(s, s');
  }

  lemma MoveInv(s: State, a: Action)
    requires Inv(s) && CanMove(s, a)
    ensures Inv(Move(s, a))
  {
    hide Inv, Lies;
    match a
    case NextSocket(_) => KeepSocket(s, a);
    case Receive(_, _) => KeepSocket(s, a);
    case PostLost(_) => KeepLost(s, a);
    case PostOther => KeepLost(s, a);
    case Alloc(_) => if s.free != [] { KeepAlloc(s, a); }
    case PostData(_) => if RingFull(s) { KeepSocket(s, a); } else { KeepPost(s, a); }
    case GiveBack(_) => KeepGiveBack(s, a);
    case PopEvent => if s.ring[0].Received? { KeepPop(s, a); } else { KeepPopOther(s, a); }
    case Handled => if s.handler.e.Received? { KeepHandled(s, a); } else { KeepHandledOther(s, a); }
  }

  // ---------- runs ----------

  ghost predicate Run(ss: seq<State>, actions: seq<Action>)
  {
    && |ss| == |actions| + 1 && Init(ss[0])
    && forall i :: 0 <= i < |actions| ==> CanMove(ss[i], actions[i]) && ss[i + 1] == Move(ss[i], actions[i])
  }

  lemma {:induction false} RunInv(ss: seq<State>, actions: seq<Action>, i: nat)
    requires Run(ss, actions) && i < |ss|
    ensures Inv(ss[i])
    decreases i
  {
    hide Inv, Move, CanMove, Init;
    if i == 0 {
      InitInv(ss[0]);
    } else {
      RunInv(ss, actions, i - 1);
      MoveInv(ss[i - 1], actions[i - 1]);
    }
  }

  // At every moment every unit is in exactly one place, the free list has no duplicates and agrees
  // with the state flags, and the pending data events are never more than the units.
  lemma UnitsConserved(ss: seq<State>, actions: seq<Action>, i: nat, u: Unit)
    requires Run(ss, actions) && i < |ss|
    ensures var s := ss[i];
      && (u < POOL_SIZE <==> exists at: Place :: Lies(s, u, at))
      && (forall at, at' :: Lies(s, u, at) && Lies(s, u, at') ==> at == at')
      && NoDup(s.free) && (u in s.busy <==> u < POOL_SIZE && u !in s.free)
      && NoDup(Units(s.ring)) && |Units(s.ring)| <= POOL_SIZE
  {
    RunInv(ss, actions, i);
    var s := ss[i];
    if u < POOL_SIZE { assert Lies(s, u, s.place[u]); }
    forall v | v in Units(s.ring) ensures v < POOL_SIZE {
      UnitsHold(s.ring, v);
      assert Lies(s, v, InRing);
    }
    Pigeons(Units(s.ring), POOL_SIZE);
  }

  // ---------- what becomes of the data ----------

  ghost function HandlerUnit(h: Handler): seq<Unit> { if h.Handling? then UnitOf(h.e) else [] }

  // The units with data on their way to the handler's end, the oldest first.
  ghost function InFlight(s: State): seq<Unit> { HandlerUnit(s.handler) + Units(s.ring) }

  ghost function Chunks(s: State, us: seq<Unit>): seq<Chunk>
  {
    seq(|us|, i requires 0 <= i < |us| => ChunkOf(s, us[i]))
  }

  ghost predicate Delivered(s: State) { s.posted == s.handed + Chunks(s, InFlight(s)) }

  lemma NotInFlight(s: State, u: Unit, at: Place)
    requires Inv(s) && Lies(s, u, at) && (at.AtWorker? || at.InFree?)
    ensures u !in InFlight(s)
  {
    UnitsHold(s.ring, u);
    assert !Lies(s, u, InRing) && !Lies(s, u, AtHandler);
  }

  lemma SameChunks(s: State, s': State, us: seq<Unit>)
    requires forall u <- us :: ChunkOf(s', u) == ChunkOf(s, u)
    ensures Chunks(s', us) == Chunks(s, us)
  {
  }

  lemma ReceiveDelivered(s: State, a: Action)
    requires Inv(s) && CanMove(s, a) && Delivered(s) && a.Receive?
    ensures Delivered(Move(s, a))
  {
    var u := s.workers[a.w].unit;
    assert Lies(s, u, AtWorker(a.w));
    NotInFlight(s, u, AtWorker(a.w));
    SameChunks(s, Move(s, a), InFlight(s));
  }

  lemma ChunksAppend(s: State, a: seq<Unit>, b: seq<Unit>)
    ensures Chunks(s, a + b) == Chunks(s, a) + Chunks(s, b)
  {
  }

  lemma ChunksOne(s: State, u: Unit)
    ensures Chunks(s, [u]) == [ChunkOf(s, u)]
  {
  }

  lemma DataDelivered(s: State, a: Action)
    requires CanMove(s, a) && Delivered(s) && a.PostData? && !RingFull(s)
    ensures Delivered(Move(s, a))
  {
    hide Chunks, Units, ChunkOf;
    var s', u := Move(s, a), s.workers[a.w].unit;
    UnitsAppend(s.ring, Received(u));
    assert InFlight(s') == InFlight(s) + [u];
    ChunksAppend(s, InFlight(s), [u]);
    ChunksOne(s, u);
    SameSizes(s, s', InFlight(s'));
  }

  lemma SameSizes(s: State, s': State, us: seq<Unit>)
    requires s'.sizes == s.sizes
    ensures Chunks(s', us) == Chunks(s, us)
  {
  }

  lemma PostDelivered(s: State, a: Action)
    requires CanMove(s, a) && Delivered(s) && ((a.PostData? && RingFull(s)) || a.PostLost? || a.PostOther?)
    ensures Delivered(Move(s, a))
  {
    hide Chunks, Units, ChunkOf;
    var s' := Move(s, a);
    UnitsAppend(s.ring, if a.PostLost? then Lost else Other);
    assert Units(s.ring) + [] == Units(s.ring);
    SameSizes(s, s', InFlight(s));
  }

  lemma PopDelivered(s: State, a: Action)
    requires CanMove(s, a) && Delivered(s) && a.PopEvent?
    ensures Delivered(Move(s, a))
  {
    var s' := Move(s, a);
    assert InFlight(s') == InFlight(s);
    hide Chunks;
    SameSizes(s, s', InFlight(s));
  }

  lemma HandledDelivered(s: State, a: Action)
    requires CanMove(s, a) && Delivered(s) && a.Handled?
    ensures Delivered(Move(s, a))
  {
    hide Chunks, Units, ChunkOf;
    var s', us := Move(s, a), Units(s.ring);
    assert InFlight(s') == us by { assert [] + us == us; }
    SameSizes(s, s', us);
    if s.handler.e.Received? {
      ChunksAppend(s, [s.handler.e.unit], us);
      ChunksOne(s, s.handler.e.unit);
    } else {
      assert [] + us == us;
    }
  }

  lemma MoveDelivered(s: State, a: Action)
    requires Inv(s) && CanMove(s, a) && Delivered(s)
    ensures Delivered(Move(s, a))
  {
    match a
    case Receive(_, _) => ReceiveDelivered(s, a);
    case PostData(_) => if RingFull(s) { PostDelivered(s, a); } else { DataDelivered(s, a); }
    case PostLost(_) => PostDelivered(s, a);
    case PostOther => PostDelivered(s, a);
    case PopEvent => PopDelivered(s, a);
    case Handled => HandledDelivered(s, a);
    case NextSocket(_) => SameChunks(s, Move(s, a), InFlight(s));
    case Alloc(_) => SameChunks(s, Move(s, a), InFlight(s));
    case GiveBack(_) => SameChunks(s, Move(s, a), InFlight(s));
  }

  // At every moment the data posted are those the handler has processed, in order and with their sizes,
  // followed by those on the way.
  lemma {:induction false} DataInOrder(ss: seq<State>, actions: seq<Action>, i: nat)
    requires Run(ss, actions) && i < |ss|
    ensures ss[i].posted == ss[i].handed + Chunks(ss[i], InFlight(ss[i]))
    decreases i
  {
    hide Inv, Move, CanMove, InFlight;
    if i == 0 {
      NothingInFlight(ss[0]);
    } else {
      DataInOrder(ss, actions, i - 1);
      RunInv(ss, actions, i - 1);
      MoveDelivered(ss[i - 1], actions[i - 1]);
    }
  }

  lemma NothingInFlight(s: State)
    requires Init(s)
    ensures Delivered(s)
  {
  }

  // The worker whose step it is.
  ghost function By(a: Action): Option<Tid>
  {
    match a
    case NextSocket(w) => Some(w)
    case Alloc(w) => Some(w)
    case Receive(w, _) => Some(w)
    case PostLost(w) => Some(w)
    case PostData(w) => Some(w)
    case GiveBack(w) => Some(w)
    case _ => None
  }

  // Between states i and j the worker makes no step.
  ghost predicate Rests(actions: seq<Action>, i: nat, j: nat, w: Tid)
  {
    j <= |actions| && forall k :: i <= k < j ==> By(actions[k]) != Some(w)
  }

  lemma OthersLeave(s: State, a: Action, w: Tid)
    requires Inv(s) && CanMove(s, a) && By(a) != Some(w) && w in s.workers
    ensures var s' := Move(s, a);
      && w in s'.workers && s'.workers[w] == s.workers[w]
      && (!s.workers[w].Idle? && !s.workers[w].Waiting? ==>
            ChunkOf(s', s.workers[w].unit) == ChunkOf(s, s.workers[w].unit))
  {
    if a.Receive? && !s.workers[w].Idle? && !s.workers[w].Waiting? {
      assert Lies(s, s.workers[a.w].unit, AtWorker(a.w));
      assert Lies(s, s.workers[w].unit, AtWorker(w));
    }
  }

  // Whatever the others do, a worker finds its unit as it left it.
  lemma {:induction false} Undisturbed(ss: seq<State>, actions: seq<Action>, i: nat, j: nat, w: Tid)
    requires Run(ss, actions) && i <= j < |ss| && Rests(actions, i, j, w) && w in ss[i].workers
    ensures w in ss[j].workers && ss[j].workers[w] == ss[i].workers[w]
    ensures !ss[i].workers[w].Idle? && !ss[i].workers[w].Waiting? ==>
      ChunkOf(ss[j], ss[i].workers[w].unit) == ChunkOf(ss[i], ss[i].workers[w].unit)
    decreases j
  {
    hide Inv, Move, CanMove, Init, ChunkOf;
    if i < j {
      Undisturbed(ss, actions, i, j - 1, w);
      RunInv(ss, actions, j - 1);
      OthersLeave(ss[j - 1], actions[j - 1], w);
    }
  }

  // After a receive of bytes the worker's next step posts that unit's data event with the number of
  // bytes, unless the ring is full; after an error or the end of the connection it posts the loss, if
  // there is room.  A unit whose event is not posted is given back with the step after that.
  lemma AfterReceive(ss: seq<State>, actions: seq<Action>, i: nat, j: nat)
    requires Run(ss, actions) && i < j < |actions| && actions[i].Receive?
    requires Rests(actions, i + 1, j, actions[i].w) && By(actions[j]) == Some(actions[i].w)
    ensures var w, result := actions[i].w, actions[i].result; var u := ss[i].workers[w].unit;
      var s, s' := ss[j], ss[j + 1]; var room := |s.ring| < RING_SIZE;
      if result > 0 then
        && actions[j] == PostData(w)
        && s'.ring == (if room then s.ring + [Received(u)] else s.ring)
        && s'.posted == (if room then s.posted + [(u, result)] else s.posted)
        && s'.workers[w] == if room then Idle else Giving(u)
      else
        && actions[j] == PostLost(w) && s'.posted == s.posted
        && s'.ring == (if room then s.ring + [Lost] else s.ring) && s'.workers[w] == Giving(u)
  {
    var w := actions[i].w;
    Undisturbed(ss, actions, i + 1, j, w);
  }

  lemma AfterPost(ss: seq<State>, actions: seq<Action>, i: nat, j: nat, w: Tid)
    requires Run(ss, actions) && i <= j < |actions| && w in ss[i].workers && ss[i].workers[w].Giving?
    requires Rests(actions, i, j, w) && By(actions[j]) == Some(w)
    ensures var u := ss[i].workers[w].unit;
      && actions[j] == GiveBack(w) && ss[j + 1].free == ss[j].free + [u] && u !in ss[j + 1].busy
      && ss[j + 1].workers[w] == Idle && ss[j + 1].ring == ss[j].ring
  {
    Undisturbed(ss, actions, i, j, w);
  }

  // A data event comes from a receive of bytes into its unit, the posting worker's last step before.
  lemma {:induction false} BeforePost(ss: seq<State>, actions: seq<Action>, j: nat, w: Tid) returns (i: nat)
    requires Run(ss, actions) && j < |ss| && w in ss[j].workers && ss[j].workers[w].Filled?
    ensures i < j && actions[i].Receive? && actions[i].w == w && actions[i].result > 0
    ensures Rests(actions, i + 1, j, w)
    ensures w in ss[i].workers && ss[i].workers[w] == Holding(ss[j].workers[w].unit)
    ensures ChunkOf(ss[j], ss[j].workers[w].unit) == (ss[j].workers[w].unit, actions[i].result)
    decreases j
  {
    hide Inv, Init, Move, CanMove, ChunkOf;
    assert j > 0 by { FirstIdle(ss[0]); }
    RunInv(ss, actions, j - 1);
    SameWorkers(ss[j - 1], actions[j - 1]);
    if By(actions[j - 1]) == Some(w) {
      i := j - 1;
      FilledNow(ss[i], actions[i], w);
    } else {
      OthersLeave(ss[j - 1], actions[j - 1], w);
      i := BeforePost(ss, actions, j - 1, w);
    }
  }

  lemma SameWorkers(s: State, a: Action)
    requires CanMove(s, a)
    ensures Move(s, a).workers.Keys == s.workers.Keys
  {
  }

  lemma FilledNow(s: State, a: Action, w: Tid)
    requires CanMove(s, a) && By(a) == Some(w) && w in s.workers
    requires var s' := Move(s, a); w in s'.workers && s'.workers[w].Filled?
    ensures var s' := Move(s, a); var u := s'.workers[w].unit;
      && a.Receive? && a.w == w && a.result > 0 && s.workers[w] == Holding(u) && ChunkOf(s', u) == (u, a.result)
  {
  }

  lemma FirstIdle(s: State)
    requires Init(s)
    ensures forall w <- s.workers :: s.workers[w] == Idle
  {
  }

  // Only the posting of a filled unit brings a data event into the ring.
  lemma DataEventPosted(s: State, a: Action, u: Unit)
    requires Inv(s) && CanMove(s, a) && Received(u) in Move(s, a).ring && Received(u) !in s.ring
    ensures a.PostData? && s.workers[a.w] == Filled(u)
  {
  }

  // A worker that has a socket to serve waits for a unit, and takes the last free one.
  lemma UnitForSocket(s: State, a: Action)
    requires Inv(s) && CanMove(s, a) && (a.NextSocket? || a.Alloc?)
    ensures var s' := Move(s, a);
      if a.NextSocket? || s.free == [] then s'.workers[a.w] == Waiting && s'.free == s.free
      else s'.workers[a.w] == Holding(s.free[|s.free| - 1]) && s'.free == s.free[..|s.free| - 1]
  {
  }

  // The handler takes the oldest event; a unit with data is freed when it has been processed.
  lemma OneEvent(s: State)
    requires Inv(s) && s.handler == Resting && s.ring != []
    ensures var e := s.ring[0]; var s1 := Move(s, PopEvent);
      CanMove(s, PopEvent) && CanMove(s1, Handled)
      && var s2 := Move(s1, Handled);
      && s2.ring == s.ring[1..] && s2.handler == Resting && s2.workers == s.workers && s2.sizes == s.sizes
      && s2.handed == s.handed + (if e.Received? then [ChunkOf(s, e.unit)] else [])
      && s2.free == s.free + UnitOf(e) && s2.busy == s.busy - (if e.Received? then {e.unit} else {})
  {
  }
}
