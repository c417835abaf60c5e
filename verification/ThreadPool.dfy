/** The worker loop and the delivery of tasks as steps of any number of threads over the task server.
    A step is a section under the server's lock, or a call of the real worker. */
module ThreadPool {
  import opened Entries
  import opened TaskServer

  type Tid = nat
  type Pkg = nat
  // One delivery of a task.
  type Ticket = nat

  datatype Mode = Normal | CallWithTask

  datatype Status = WorkerOk | TaskRefused | Terminated | WorkerIdle

  // Before the pop, before the call of the real worker, before the push of a refused package, before
  // the recollection, and after the worker has returned for good.
  datatype Pc = Top | Called | Refusing | Finishing | Ended

  datatype Worker = Worker(pc: Pc, package: Option<Pkg>)

  // A client has prepared a package and has still to push it.
  datatype Client = Idle | Holding(p: Pkg)

  datatype Place = InQueue | InPool | AtWorker(w: Tid) | AtClient(c: Tid)

  // `tickets` are the tasks the packages carry.  `place` and `home` follow the packages and the open
  // tickets; `entered` and `left` are the tickets that went through the queue, `results` those whose
  // call did not refuse.
  datatype State = State(
    mode: Mode, lists: Lists<Pkg>, taskCount: int, tickets: map<Pkg, Ticket>,
    workers: map<Tid, Worker>, clients: map<Tid, Client>,
    packageCount: nat, ticketCount: nat,
    place: map<Pkg, Place>, home: map<Ticket, Pkg>,
    entered: seq<Ticket>, left: seq<Ticket>, results: seq<Ticket>)

  datatype Action =
    | Prepare(c: Tid) | Push(c: Tid)
    | Pop(w: Tid) | Work(w: Tid, status: Status) | PushBack(w: Tid) | Recollect(w: Tid)

  ghost predicate Init(s: State)
  {
    && s.lists == Lists([], []) && s.taskCount == 0 && s.packageCount == 0 && s.ticketCount == 0
    && (forall w <- s.workers :: s.workers[w] == Worker(Top, None))
    && (forall c <- s.clients :: s.clients[c] == Idle)
    && s.place == map[] && s.home == map[] && s.tickets == map[]
    && s.entered == [] && s.left == [] && s.results == []
  }

  ghost predicate At(s: State, w: Tid, pc: Pc) { w in s.workers && s.workers[w].pc == pc }

  // A worker refuses only a task it was given, and is called without one in normal mode only.
  ghost predicate CanMove(s: State, a: Action)
  {
    match a
    case Prepare(c) => c in s.clients && s.clients[c] == Idle
    case Push(c) => c in s.clients && s.clients[c].Holding? && s.clients[c].p in s.tickets
    case Pop(w) => At(s, w, Top) && (s.lists.queue != [] ==> s.lists.queue[0] in s.tickets)
    case Work(w, status) =>
      && At(s, w, Called)
      && var p := s.workers[w].package;
      && (p.Some? ==> p.value in s.tickets)
      && (p.None? ==> status != TaskRefused && (s.mode == CallWithTask ==> status == WorkerOk))
    case PushBack(w) => At(s, w, Refusing) && s.workers[w].package.Some? && s.workers[w].package.value in s.tickets
    case Recollect(w) => At(s, w, Finishing) && s.workers[w].package.Some?
  }

  // thp_prepare_task_package hands out a recycled package, or a new one.
  ghost function Fresh(s: State): Pkg { if s.lists.pool == [] then s.packageCount else s.lists.pool[0] }

  ghost function SetWorker(s: State, w: Tid, pc: Pc, package: Option<Pkg>): State
  {
    s.(workers := s.workers[w := Worker(pc, package)])
  }

  // thp_push_task
  ghost function Enqueued(s: State, p: Pkg): State
    requires p in s.tickets
  {
    s.(lists := s.lists.Pushed(p), taskCount := s.taskCount + 1,
       place := s.place[p := InQueue], entered := s.entered + [s.tickets[p]])
  }

  ghost function Move(s: State, a: Action): State
    requires CanMove(s, a)
  {
    match a
    case Prepare(c) =>
      var p := Fresh(s);
      s.(lists := s.lists.Taken(), clients := s.clients[c := Holding(p)],
         tickets := s.tickets[p := s.ticketCount], ticketCount := s.ticketCount + 1,
         packageCount := s.packageCount + (if s.lists.pool == [] then 1 else 0),
         place := s.place[p := AtClient(c)], home := s.home[s.ticketCount := p])
    case Push(c) => Enqueued(s, s.clients[c].p).(clients := s.clients[c := Idle])
    case Pop(w) =>
      if s.lists.queue == [] then SetWorker(s, w, Called, None)
      else
        var p := s.lists.queue[0];
        SetWorker(s, w, Called, Some(p)).(
          lists := s.lists.Popped(), taskCount := (if s.taskCount - 1 < 0 then 0 else s.taskCount - 1),
          place := s.place[p := AtWorker(w)], left := s.left + [s.tickets[p]])
    case Work(w, status) =>
      var p := s.workers[w].package;
      var results := if p.Some? && status != TaskRefused then s.results + [s.tickets[p.value]] else s.results;
      var pc := if status == TaskRefused then Refusing else if status == Terminated then Ended
                else if p.Some? then Finishing else Top;
      SetWorker(s, w, pc, p).(results := results)
    case PushBack(w) => SetWorker(Enqueued(s, s.workers[w].package.value), w, Top, None)
    case Recollect(w) =>
      // A package that opens the pool stays in the worker's variable until the next pop.
      var p := s.workers[w].package.value;
      SetWorker(s, w, Top, if s.lists.pool == [] then Some(p) else None).(
        lists := s.lists.Recollected(p), place := s.place[p := InPool])
  }

  // ---------- the invariant ----------

  // The package is in that place, read off the lists and the variables of the threads.
  ghost predicate Lies(s: State, p: Pkg, at: Place)
  {
    match at
    case InQueue => p in s.lists.queue
    case InPool => p in s.lists.pool
    case AtWorker(w) => w in s.workers && s.workers[w].pc != Top && s.workers[w].package == Some(p)
    case AtClient(c) => c in s.clients && s.clients[c] == Holding(p)
  }

  ghost predicate Placed(s: State)
  {
    && NoDup(s.lists.queue) && NoDup(s.lists.pool)
    && (forall p: Pkg :: p in s.place <==> p < s.packageCount)
    && (forall p <- s.place :: Lies(s, p, s.place[p]))
    && (forall p: Pkg, at :: Lies(s, p, at) ==> p in s.place && s.place[p] == at)
  }

  // The package carries a task that has not had its result.
  ghost predicate Open(s: State, p: Pkg)
  {
    && p in s.place && s.place[p] != InPool
    && (s.place[p].AtWorker? ==>
          s.place[p].w in s.workers && (s.workers[s.place[p].w].pc == Called || s.workers[s.place[p].w].pc == Refusing))
  }

  ghost predicate Ticketed(s: State)
  {
    && (forall p <- s.place :: p in s.tickets)
    && (forall p: Pkg :: Open(s, p) ==> s.tickets[p] < s.ticketCount && s.tickets[p] !in s.results)
    && (forall p: Pkg :: Open(s, p) ==> s.tickets[p] in s.home && s.home[s.tickets[p]] == p)
    && (forall k: Ticket :: k < s.ticketCount ==>
          k in s.home && (k in s.results || (Open(s, s.home[k]) && s.tickets[s.home[k]] == k)))
    && NoDup(s.results) && (forall k <- s.results :: k < s.ticketCount)
  }

  ghost function TicketsOf(s: State): seq<Ticket>
    requires forall p <- s.lists.queue :: p in s.tickets
  {
    seq(|s.lists.queue|, i requires 0 <= i < |s.lists.queue| => s.tickets[s.lists.queue[i]])
  }

  ghost predicate InOrder(s: State)
  {
    && s.taskCount == |s.lists.queue|
    && (forall p <- s.lists.queue :: p in s.tickets)
    && s.entered == s.left + TicketsOf(s)
  }

  ghost predicate PcsOk(s: State)
  {
    forall w <- s.workers :: s.workers[w].pc == Refusing || s.workers[w].pc == Finishing ==> s.workers[w].package.Some?
  }

  ghost predicate Inv(s: State) { Placed(s) && Ticketed(s) && InOrder(s) && PcsOk(s) }

  // What a step waits for: the thread is at its place, and a worker does as it should when called.
  ghost predicate Enabled(s: State, a: Action)
  {
    match a
    case Prepare(c) => c in s.clients && s.clients[c] == Idle
    case Push(c) => c in s.clients && s.clients[c].Holding?
    case Pop(w) => At(s, w, Top)
    case Work(w, status) =>
      && At(s, w, Called)
      && (s.workers[w].package.None? ==> status != TaskRefused && (s.mode == CallWithTask ==> status == WorkerOk))
    case PushBack(w) => At(s, w, Refusing)
    case Recollect(w) => At(s, w, Finishing)
  }

  // The other conditions of CanMove shut out no step.
  lemma NothingElseAwaited(s: State, a: Action)
    requires Inv(s)
    ensures CanMove(s, a) <==> Enabled(s, a)
  {
    match a
    case Push(c) => assert Enabled(s, a) ==> Lies(s, s.clients[c].p, AtClient(c));
    case Work(w, _) =>
      assert Enabled(s, a) && s.workers[w].package.Some? ==> Lies(s, s.workers[w].package.value, AtWorker(w));
    case PushBack(w) => assert Enabled(s, a) ==> Lies(s, s.workers[w].package.value, AtWorker(w));
    case Pop(_) =>
    case Prepare(_) =>
    case Recollect(_) =>
  }

  lemma InitInv(s: State)
    requires Init(s)
    ensures Inv(s)
  {
  }

  // ---------- packages keep to one place ----------

  // One package goes to another place, or is new there.
  lemma Relocate(s: State, s': State, p: Pkg, to: Place)
    requires Placed(s) && s'.place == s.place[p := to] && NoDup(s'.lists.queue) && NoDup(s'.lists.pool)
    requires s'.packageCount == s.packageCount + if p in s.place then 0 else 1
    requires p == s.packageCount || p in s.place
    requires forall q: Pkg, at: Place :: Lies(s', q, at) <==> (if q == p then at == to else Lies(s, q, at))
    ensures Placed(s')
  {
  }

  lemma PreparePlaced(s: State, a: Action)
    requires Placed(s) && CanMove(s, a) && a.Prepare?
    ensures Placed(Move(s, a))
  {
    var p, s' := Fresh(s), Move(s, a);
    if s.lists.pool == [] {
      assert p !in s.place;
      forall at: Place ensures !Lies(s, p, at) { }
    } else {
      NoDupRest(s.lists.pool);
      assert Lies(s, p, InPool);
    }
    forall q: Pkg, at: Place ensures Lies(s', q, at) <==> (if q == p then at == AtClient(a.c) else Lies(s, q, at)) {
      assert Lies(s, q, at) ==> q in s.place && s.place[q] == at;
    }
    Relocate(s, s', p, AtClient(a.c));
  }

  lemma PushPlaced(s: State, a: Action)
    requires Placed(s) && CanMove(s, a) && a.Push?
    ensures Placed(Move(s, a))
  {
    var p, s' := s.clients[a.c].p, Move(s, a);
    assert Lies(s, p, AtClient(a.c)) && !Lies(s, p, InQueue);
    NoDupAppend(s.lists.queue, p);
    forall q: Pkg, at: Place ensures Lies(s', q, at) <==> (if q == p then at == InQueue else Lies(s, q, at)) {
      assert Lies(s, q, at) ==> q in s.place && s.place[q] == at;
    }
    Relocate(s, s', p, InQueue);
  }

  lemma PopPlaced(s: State, a: Action)
    requires Placed(s) && CanMove(s, a) && a.Pop?
    ensures Placed(Move(s, a))
  {
    var s' := Move(s, a);
    if s.lists.queue == [] {
      forall q: Pkg, at: Place ensures Lies(s', q, at) <==> Lies(s, q, at) { }
    } else {
      var p := s.lists.queue[0];
      assert Lies(s, p, InQueue);
      NoDupRest(s.lists.queue);
      forall q: Pkg, at: Place ensures Lies(s', q, at) <==> (if q == p then at == AtWorker(a.w) else Lies(s, q, at)) {
      assert Lies(s, q, at) ==> q in s.place && s.place[q] == at;
    }
      Relocate(s, s', p, AtWorker(a.w));
    }
  }

  lemma WorkPlaced(s: State, a: Action)
    requires Placed(s) && CanMove(s, a) && a.Work?
    ensures Placed(Move(s, a))
  {
    var s' := Move(s, a);
    forall q: Pkg, at: Place ensures Lies(s', q, at) <==> Lies(s, q, at) { }
  }

  lemma PushBackPlaced(s: State, a: Action)
    requires Placed(s) && CanMove(s, a) && a.PushBack?
    ensures Placed(Move(s, a))
  {
    var p, s' := s.workers[a.w].package.value, Move(s, a);
    assert Lies(s, p, AtWorker(a.w)) && !Lies(s, p, InQueue);
    NoDupAppend(s.lists.queue, p);
    forall q: Pkg, at: Place ensures Lies(s', q, at) <==> (if q == p then at == InQueue else Lies(s, q, at)) {
      assert Lies(s, q, at) ==> q in s.place && s.place[q] == at;
    }
    Relocate(s, s', p, InQueue);
  }

  lemma RecollectPlaced(s: State, a: Action)
    requires Placed(s) && CanMove(s, a) && a.Recollect?
    ensures Placed(Move(s, a))
  {
    var p, s' := s.workers[a.w].package.value, Move(s, a);
    assert Lies(s, p, AtWorker(a.w)) && !Lies(s, p, InPool);
    NoDupAppend(s.lists.pool, p);
    forall q: Pkg, at: Place ensures Lies(s', q, at) <==> (if q == p then at == InPool else Lies(s, q, at)) {
      assert Lies(s, q, at) ==> q in s.place && s.place[q] == at;
    }
    Relocate(s, s', p, InPool);
  }

  // ---------- every task gets one result ----------

  lemma SameTickets(s: State, s': State)
    requires Ticketed(s) && s'.tickets == s.tickets && s'.home == s.home && s'.results == s.results
    requires s'.ticketCount == s.ticketCount && s'.place.Keys == s.place.Keys
    requires forall q: Pkg :: Open(s', q) <==> Open(s, q)
    ensures Ticketed(s')
  {
    forall q: Pkg | Open(s', q)
      ensures s'.tickets[q] < s'.ticketCount && s'.tickets[q] !in s'.results
      ensures s'.tickets[q] in s'.home && s'.home[s'.tickets[q]] == q
    {
      assert Open(s, q);
    }
  }

  // A package that changes hands stays open, or stays done with.
  lemma EnterTicketed(s: State, a: Action)
    requires Placed(s) && Ticketed(s) && CanMove(s, a) && (a.Push? || a.PushBack?)
    ensures Ticketed(Move(s, a))
  {
    var s' := Move(s, a);
    if a.Push? {
      assert Lies(s, s.clients[a.c].p, AtClient(a.c));
    } else {
      assert Lies(s, s.workers[a.w].package.value, AtWorker(a.w));
    }
    forall q: Pkg ensures Open(s', q) <==> Open(s, q) {
      if q in s.place && s.place[q].AtWorker? { assert Lies(s, q, s.place[q]); }
    }
    SameTickets(s, s');
  }

  lemma PopTicketed(s: State, a: Action)
    requires Placed(s) && Ticketed(s) && CanMove(s, a) && a.Pop?
    ensures Ticketed(Move(s, a))
  {
    var s' := Move(s, a);
    if s.lists.queue != [] { assert Lies(s, s.lists.queue[0], InQueue); }
    forall q: Pkg ensures Open(s', q) <==> Open(s, q) {
      if q in s.place && s.place[q].AtWorker? { assert Lies(s, q, s.place[q]); }
    }
    SameTickets(s, s');
  }

  lemma RecollectTicketed(s: State, a: Action)
    requires Placed(s) && Ticketed(s) && CanMove(s, a) && a.Recollect?
    ensures Ticketed(Move(s, a))
  {
    var s' := Move(s, a);
    assert Lies(s, s.workers[a.w].package.value, AtWorker(a.w));
    forall q: Pkg ensures Open(s', q) <==> Open(s, q) {
      if q in s.place && s.place[q].AtWorker? { assert Lies(s, q, s.place[q]); }
    }
    SameTickets(s, s');
  }

  lemma WorkTicketed(s: State, a: Action)
    requires Placed(s) && Ticketed(s) && CanMove(s, a) && a.Work?
    ensures Ticketed(Move(s, a))
  {
    var s', package := Move(s, a), s.workers[a.w].package;
    if package.Some? { assert Lies(s, package.value, AtWorker(a.w)); }
    forall q: Pkg
      ensures Open(s', q) <==> Open(s, q) && (package == Some(q) ==> a.status == TaskRefused)
    {
      if q in s.place && s.place[q] == AtWorker(a.w) { assert Lies(s, q, AtWorker(a.w)); }
    }
    if package.None? || a.status == TaskRefused {
      SameTickets(s, s');
    } else {
      ResultTicketed(s, s', package.value);
    }
  }

  // The task of an open package gets its result.
  lemma ResultTicketed(s: State, s': State, p: Pkg)
    requires Ticketed(s) && Open(s, p) && s'.tickets == s.tickets && s'.home == s.home
    requires s'.ticketCount == s.ticketCount && s'.place == s.place && s'.results == s.results + [s.tickets[p]]
    requires forall q: Pkg :: Open(s', q) <==> Open(s, q) && q != p
    ensures Ticketed(s')
  {
    NoDupAppend(s.results, s.tickets[p]);
    forall q: Pkg | Open(s', q)
      ensures s'.tickets[q] < s'.ticketCount && s'.tickets[q] !in s'.results
      ensures s'.tickets[q] in s'.home && s'.home[s'.tickets[q]] == q
    {
      assert Open(s, q);
    }
  }

  lemma PrepareTicketed(s: State, a: Action)
    requires Placed(s) && Ticketed(s) && CanMove(s, a) && a.Prepare?
    ensures Ticketed(Move(s, a))
  {
    var s', p := Move(s, a), Fresh(s);
    if s.lists.pool != [] { assert Lies(s, p, InPool); }
    forall q: Pkg ensures Open(s', q) <==> Open(s, q) || q == p { }
    assert !Open(s, p);
    forall q: Pkg | Open(s', q)
      ensures s'.tickets[q] < s'.ticketCount && s'.tickets[q] !in s'.results
      ensures s'.tickets[q] in s'.home && s'.home[s'.tickets[q]] == q
    {
      if q != p { assert Open(s, q); }
    }
    forall k: Ticket | k < s'.ticketCount
      ensures k in s'.home && (k in s'.results || (Open(s', s'.home[k]) && s'.tickets[s'.home[k]] == k))
    {
      if k < s.ticketCount && k !in s.results { assert Open(s, s.home[k]); }
    }
  }

  // ---------- first in, first out ----------

  lemma PrepareInOrder(s: State, a: Action)
    requires Placed(s) && InOrder(s) && CanMove(s, a) && a.Prepare?
    ensures InOrder(Move(s, a))
  {
    var p := Fresh(s);
    if s.lists.pool != [] { assert Lies(s, p, InPool); }
    forall i | 0 <= i < |s.lists.queue| ensures s.lists.queue[i] != p { assert Lies(s, s.lists.queue[i], InQueue); }
    assert TicketsOf(Move(s, a)) == TicketsOf(s);
  }

  lemma EnterInOrder(s: State, a: Action)
    requires InOrder(s) && CanMove(s, a) && (a.Push? || a.PushBack?)
    ensures InOrder(Move(s, a))
  {
    var p := if a.Push? then s.clients[a.c].p else s.workers[a.w].package.value;
    assert TicketsOf(Move(s, a)) == TicketsOf(s) + [s.tickets[p]];
  }

  lemma PopInOrder(s: State, a: Action)
    requires InOrder(s) && CanMove(s, a) && a.Pop?
    ensures InOrder(Move(s, a))
  {
    var s' := Move(s, a);
    if s.lists.queue == [] {
      assert TicketsOf(s') == TicketsOf(s);
    } else {
      assert TicketsOf(s) == [s.tickets[s.lists.queue[0]]] + TicketsOf(s');
    }
  }

  lemma StayInOrder(s: State, a: Action)
    requires InOrder(s) && CanMove(s, a) && (a.Work? || a.Recollect?)
    ensures InOrder(Move(s, a))
  {
    assert TicketsOf(Move(s, a)) == TicketsOf(s);
  }

  lemma MovePlaced(s: State, a: Action)
    requires Placed(s) && CanMove(s, a)
    ensures Placed(Move(s, a))
  {
    hide Placed, Move, CanMove;
    match a
    case Prepare(_) => PreparePlaced(s, a);
    case Push(_) => PushPlaced(s, a);
    case Pop(_) => PopPlaced(s, a);
    case Work(_, _) => WorkPlaced(s, a);
    case PushBack(_) => PushBackPlaced(s, a);
    case Recollect(_) => RecollectPlaced(s, a);
  }

  lemma MovePcs(s: State, a: Action)
    requires PcsOk(s) && CanMove(s, a)
    ensures PcsOk(Move(s, a))
  {
  }

  lemma MoveInv(s: State, a: Action)
    requires Inv(s) && CanMove(s, a)
    ensures Inv(Move(s, a))
  {
    hide Placed, Ticketed, InOrder, PcsOk, Move, CanMove;
    MovePlaced(s, a);
    MovePcs(s, a);
    match a
    case Prepare(_) => PrepareTicketed(s, a); PrepareInOrder(s, a);
    case Push(_) => EnterTicketed(s, a); EnterInOrder(s, a);
    case Pop(_) => PopTicketed(s, a); PopInOrder(s, a);
    case Work(_, _) => WorkTicketed(s, a); StayInOrder(s, a);
    case PushBack(_) => EnterTicketed(s, a); EnterInOrder(s, a);
    case Recollect(_) => RecollectTicketed(s, a); StayInOrder(s, a);
  }

  // ---------- runs ----------

  ghost predicate Run(ss: seq<State>, actions: seq<Action>)
  {
    && |ss| == |actions| + 1 && Init(ss[0])
    && forall i :: 0 <= i < |actions| ==> CanMove(ss[i], actions[i]) && ss[i + 1] == Move(ss[i], actions[i])
  }

  lemma {:induction false} RunInv(ss: seq<State>, actions: seq<Action>, i: nat)
    requires Run(ss, actions) && i < |ss|
    ensures Inv(ss[i])
    decreases i
  {
    hide Inv, Move, CanMove, Init;
    if i == 0 {
      InitInv(ss[0]);
    } else {
      RunInv(ss, actions, i - 1);
      MoveInv(ss[i - 1], actions[i - 1]);
    }
  }

  // At every moment every package is in exactly one place, and the counter counts the queue.
  lemma PackagesConserved(ss: seq<State>, actions: seq<Action>, i: nat, p: Pkg)
    requires Run(ss, actions) && i < |ss|
    ensures var s := ss[i];
      && NoDup(s.lists.queue) && NoDup(s.lists.pool) && s.taskCount == |s.lists.queue|
      && (p < s.packageCount <==> exists at: Place :: Lies(s, p, at))
      && (forall at, at' :: Lies(s, p, at) && Lies(s, p, at') ==> at == at')
  {
    RunInv(ss, actions, i);
    var s := ss[i];
    if p < s.packageCount { assert Lies(s, p, s.place[p]); }
  }

  // At every moment every delivered task has had one result, or its package is on the way: in a
  // client's hands, in the queue, or with a worker before the result; never both and never twice.
  lemma OneResultPerTask(ss: seq<State>, actions: seq<Action>, i: nat, k: Ticket)
    requires Run(ss, actions) && i < |ss| && k < ss[i].ticketCount
    ensures var s := ss[i];
      && NoDup(s.results)
      && (k in s.results <==> !exists p: Pkg :: Open(s, p) && p in s.tickets && s.tickets[p] == k)
      && (forall p, q: Pkg ::
            Open(s, p) && Open(s, q) && p in s.tickets && q in s.tickets && s.tickets[p] == s.tickets[q] ==> p == q)
  {
    RunInv(ss, actions, i);
    var s := ss[i];
    if k !in s.results { assert Open(s, s.home[k]) && s.tickets[s.home[k]] == k; }
  }

  // Tasks leave the queue in the order in which they entered it; a refused one enters again at the end.
  lemma FirstInFirstOut(ss: seq<State>, actions: seq<Action>, i: nat)
    requires Run(ss, actions) && i < |ss|
    ensures ss[i].left <= ss[i].entered && |ss[i].entered| - |ss[i].left| == |ss[i].lists.queue|
    ensures i < |actions| && actions[i].PushBack? ==>
      var s, s' := ss[i], ss[i + 1]; var p := s.workers[actions[i].w].package.value;
      s'.entered == s.entered + [s.tickets[p]] && s'.lists.queue == s.lists.queue + [p]
  {
    RunInv(ss, actions, i);
  }

  // ---------- one round of a worker ----------

  ghost function By(a: Action): Option<Tid>
  {
    match a
    case Pop(w) => Some(w)
    case Work(w, _) => Some(w)
    case PushBack(w) => Some(w)
    case Recollect(w) => Some(w)
    case _ => None
  }

  // Between states i and j the worker makes no step.
  ghost predicate Rests(actions: seq<Action>, i: nat, j: nat, w: Tid)
  {
    j <= |actions| && forall k :: i <= k < j ==> By(actions[k]) != Some(w)
  }

  // The ticket of the package the worker holds.
  ghost function Held(s: State, w: Tid): Option<Ticket>
  {
    if w in s.workers && s.workers[w].pc != Top && s.workers[w].package.Some? && s.workers[w].package.value in s.tickets
    then Some(s.tickets[s.workers[w].package.value]) else None
  }

  lemma OthersLeave(s: State, a: Action, w: Tid)
    requires Inv(s) && CanMove(s, a) && By(a) != Some(w) && w in s.workers
    ensures var s' := Move(s, a); w in s'.workers && s'.workers[w] == s.workers[w] && Held(s', w) == Held(s, w)
  {
    if a.Prepare? && s.workers[w].pc != Top && s.workers[w].package.Some? {
      var p := s.workers[w].package.value;
      assert Lies(s, p, AtWorker(w));
      assert s.lists.pool != [] ==> Lies(s, s.lists.pool[0], InPool);
    }
  }

  // Whatever the others do, a worker finds its package and the task in it as it left them.
  lemma {:induction false} Undisturbed(ss: seq<State>, actions: seq<Action>, i: nat, j: nat, w: Tid)
    requires Run(ss, actions) && i <= j < |ss| && Rests(actions, i, j, w) && w in ss[i].workers
    ensures w in ss[j].workers && ss[j].workers[w] == ss[i].workers[w] && Held(ss[j], w) == Held(ss[i], w)
    decreases j
  {
    hide Inv, Move, CanMove, Init, Held;
    if i < j {
      Undisturbed(ss, actions, i, j - 1, w);
      RunInv(ss, actions, j - 1);
      OthersLeave(ss[j - 1], actions[j - 1], w);
    }
  }

  // After a pop the worker calls the real worker with the first task of the queue, or with none.
  lemma AfterPop(ss: seq<State>, actions: seq<Action>, i: nat, j: nat, w: Tid)
    requires Run(ss, actions) && i < j < |actions| && actions[i] == Pop(w)
    requires Rests(actions, i + 1, j, w) && By(actions[j]) == Some(w)
    ensures var q := ss[i].lists.queue;
      && actions[j].Work? && ss[i + 1].lists.queue == (if q == [] then [] else q[1..])
      && Held(ss[j], w) == (if q == [] then None else Some(ss[i].tickets[q[0]]))
      && ss[i + 1].left == ss[i].left + if q == [] then [] else [ss[i].tickets[q[0]]]
  {
    RunInv(ss, actions, i);
    PopTakes(ss[i], w);
    hide Move, Held;
    Undisturbed(ss, actions, i + 1, j, w);
  }

  lemma PopTakes(s: State, w: Tid)
    requires CanMove(s, Pop(w))
    ensures var s', q := Move(s, Pop(w)), s.lists.queue;
      && w in s'.workers && s'.workers[w].pc == Called && s'.lists.queue == (if q == [] then [] else q[1..])
      && Held(s', w) == (if q == [] then None else Some(s.tickets[q[0]]))
      && s'.left == s.left + if q == [] then [] else [s.tickets[q[0]]]
  {
  }

  // A refused task is pushed again by the worker's next step.  A package whose task is done, or left by
  // an idle worker, is recollected, and then the worker pops; without a package it pops at once.  One
  // that has terminated makes no step any more.
  lemma AfterWork(ss: seq<State>, actions: seq<Action>, i: nat, j: nat, w: Tid)
    requires Run(ss, actions) && i < j < |actions| && actions[i].Work? && actions[i].w == w
    requires Rests(actions, i + 1, j, w) && By(actions[j]) == Some(w)
    ensures var status, package := actions[i].status, ss[i].workers[w].package; var s, s' := ss[j], ss[j + 1];
      && status != Terminated
      && (status == TaskRefused ==>
            && actions[j] == PushBack(w) && package.Some?
            && s'.lists == s.lists.(queue := s.lists.queue + [package.value])
            && s'.taskCount == s.taskCount + 1 && s'.entered == s.entered + [ss[i].tickets[package.value]]
            && At(s', w, Top))
      && (status != TaskRefused && package.Some? ==>
            && actions[j] == Recollect(w) && s'.lists == s.lists.(pool := s.lists.pool + [package.value])
            && At(s', w, Top))
      && (package.None? ==> actions[j] == Pop(w))
  {
    RunInv(ss, actions, i);
    WorkLeaves(ss[i], actions[i]);
    hide Move, Inv;
    Undisturbed(ss, actions, i + 1, j, w);
    AfterStep(ss[j], actions[j], w);
  }

  lemma WorkLeaves(s: State, a: Action)
    requires Inv(s) && CanMove(s, a) && a.Work?
    ensures var s', w, package := Move(s, a), a.w, s.workers[a.w].package;
      && w in s'.workers && s'.workers[w].package == package
      && s'.workers[w].pc == (match a.status
                              case TaskRefused => Refusing
                              case Terminated => Ended
                              case _ => if package.Some? then Finishing else Top)
      && (package.Some? ==> package.value in s.tickets)
      && Held(s', w) == (if s'.workers[w].pc == Top || package.None? then None else Some(s.tickets[package.value]))
      && s'.results == s.results
                       + (if package.Some? && a.status != TaskRefused then [s.tickets[package.value]] else [])
  {
  }

  lemma AfterStep(s: State, a: Action, w: Tid)
    requires CanMove(s, a) && By(a) == Some(w)
    ensures a.PushBack? ==> var s', p := Move(s, a), s.workers[w].package.value;
      && At(s', w, Top) && s'.lists == s.lists.(queue := s.lists.queue + [p]) && s'.taskCount == s.taskCount + 1
      && p in s.tickets && s'.entered == s.entered + [s.tickets[p]]
    ensures a.Recollect? ==> var s', p := Move(s, a), s.workers[w].package.value;
      At(s', w, Top) && s'.lists == s.lists.(pool := s.lists.pool + [p])
  {
  }

  // A client's task is carried by a recycled package, or a new one, and waits at the end of the queue.
  lemma Delivery(s: State, c: Tid)
    requires Inv(s) && c in s.clients && s.clients[c] == Idle
    ensures var p := if s.lists.pool == [] then s.packageCount else s.lists.pool[0];
      CanMove(s, Prepare(c)) && var s1 := Move(s, Prepare(c));
      CanMove(s1, Push(c)) && var s2 := Move(s1, Push(c));
      && s2.lists.queue == s.lists.queue + [p]
      && s2.lists.pool == (if s.lists.pool == [] then [] else s.lists.pool[1..])
      && s2.taskCount == s.taskCount + 1 && s2.clients == s.clients && s2.workers == s.workers
      && p in s2.tickets && s2.tickets[p] == s.ticketCount && s2.entered == s.entered + [s.ticketCount]
  {
  }
}
