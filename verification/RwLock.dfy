/** The read/write lock as steps of any number of threads over a recursive critical section. */
module RwLock {

  type Tid = nat

  datatype Owner = Nobody | Thread(t: Tid)

  // Where a thread stands.  In lbs_rwlock_rlock: before entering the section, before the test of
  // `writer`, before the increment, before leaving.  In lbs_rwlock_wlock: before entering, before the
  // test of `writer`, in the loop, after the loop saw no reader.  In lbs_rwlock_unlock: before the test
  // of `writer`, before the decrement, before the test of the recursion count, before clearing
  // `writer`, before leaving.
  datatype Pc =
    | Outside
    | ReadEnter | ReadTest | ReadAdd | ReadLeave(code: int)
    | WriteEnter | WriteTest | WriteWait | WriteTake
    | UnlockTest | UnlockSub | UnlockCount | UnlockClear | UnlockLeave

  datatype Call = Rlock | Wlock | Unlock

  // `readHolds` and `writeHolds` are the holds the threads have been granted and not yet given back.
  datatype State = State(
    owner: Owner, depth: nat, reader: int, writer: int,
    pcs: map<Tid, Pc>, codes: map<Tid, int>,
    readHolds: multiset<Tid>, writeHolds: multiset<Tid>)

  ghost predicate Init(s: State)
  {
    && s.owner == Nobody && s.depth == 0 && s.reader == 0 && s.writer == 0
    && (forall t <- s.pcs :: s.pcs[t] == Outside)
    && s.readHolds == multiset{} && s.writeHolds == multiset{}
  }

  // EnterCriticalSection blocks while another thread owns the section.
  ghost predicate Entering(pc: Pc) { pc == ReadEnter || pc == WriteEnter }

  ghost predicate CanEnter(s: State, t: Tid) { s.owner == Nobody || s.owner == Thread(t) }

  ghost function Enter(s: State, t: Tid): State
  {
    s.(owner := Thread(t), depth := s.depth + 1)
  }

  ghost function Leave(s: State): State
  {
    if s.depth <= 1 then s.(owner := Nobody, depth := 0) else s.(depth := s.depth - 1)
  }

  ghost function Goto(s: State, t: Tid, pc: Pc): State { s.(pcs := s.pcs[t := pc]) }

  ghost function Return(s: State, t: Tid, code: int): State
  {
    s.(pcs := s.pcs[t := Outside], codes := s.codes[t := code])
  }

  // Threads unlock only what they hold.
  ghost predicate CanMove(s: State, t: Tid, call: Call)
  {
    && t in s.pcs
    && (s.pcs[t] == Outside && call == Unlock ==> s.readHolds[t] > 0 || s.writeHolds[t] > 0)
    && (Entering(s.pcs[t]) ==> CanEnter(s, t))
  }

  // The next step of thread t; call matters only when t starts one.
  ghost function Move(s: State, t: Tid, call: Call): State
    requires CanMove(s, t, call)
  {
    match s.pcs[t]
    case Outside => (
      match call
      case Rlock => Goto(s, t, ReadEnter)
      case Wlock => Goto(s, t, WriteEnter)
      case Unlock => Goto(s, t, UnlockTest))
    case ReadEnter => Goto(Enter(s, t), t, ReadTest)
    case ReadTest => if s.writer != 0 then Goto(s, t, ReadLeave(1)) else Goto(s, t, ReadAdd)
    case ReadAdd =>
      Goto(s.(reader := s.reader + 1, readHolds := s.readHolds + multiset{t}), t, ReadLeave(0))
    case ReadLeave(code) => Return(Leave(s), t, code)
    case WriteEnter => Goto(Enter(s, t), t, WriteTest)
    case WriteTest =>
      if s.writer != 0 then Return(s.(writeHolds := s.writeHolds + multiset{t}), t, 0) else Goto(s, t, WriteWait)
    case WriteWait => if s.reader == 0 then Goto(s, t, WriteTake) else s
    case WriteTake => Return(s.(writer := 1, writeHolds := s.writeHolds + multiset{t}), t, 0)
    case UnlockTest => if s.writer == 0 then Goto(s, t, UnlockSub) else Goto(s, t, UnlockCount)
    case UnlockSub => Return(s.(reader := s.reader - 1, readHolds := s.readHolds - multiset{t}), t, 0)
    case UnlockCount => if s.depth == 1 then Goto(s, t, UnlockClear) else Goto(s, t, UnlockLeave)
    case UnlockClear => Goto(s.(writer := 0), t, UnlockLeave)
    case UnlockLeave => Return(Leave(s).(writeHolds := s.writeHolds - multiset{t}), t, 0)
  }

  // ---------- the invariant ----------

  // The thread has entered the section in the call it is in.
  ghost predicate Entered(pc: Pc)
  {
    pc.ReadTest? || pc.ReadAdd? || pc.ReadLeave? || pc.WriteTest? || pc.WriteWait? || pc.WriteTake?
  }

  ghost predicate PcOk(s: State, t: Tid)
    requires t in s.pcs
  {
    match s.pcs[t]
    case Outside => true
    case ReadEnter => true
    case WriteEnter => true
    case ReadTest => true
    case ReadAdd => s.writer == 0 && s.writeHolds[t] == 0
    case ReadLeave(_) => true
    case WriteTest => true
    case WriteWait => s.writer == 0 && s.writeHolds[t] == 0
    case WriteTake => s.writer == 0 && s.writeHolds[t] == 0 && s.reader == 0
    case UnlockTest => s.readHolds[t] > 0 || s.writeHolds[t] > 0
    case UnlockSub => s.readHolds[t] > 0
    case UnlockCount => s.writeHolds[t] > 0
    case UnlockClear => s.writeHolds[t] == 1 && s.depth == 1
    case UnlockLeave => s.writeHolds[t] > 0
  }

  // The last write hold is being given back: the flag is already clear.
  ghost predicate Cleared(s: State, t: Tid)
    requires t in s.pcs
  {
    s.pcs[t] == UnlockLeave && s.depth == 1
  }

  ghost predicate Inv(s: State)
  {
    && (s.writer == 0 || s.writer == 1)
    && s.reader == |s.readHolds|
    && (s.owner == Nobody <==> s.depth == 0)
    && (forall t <- s.readHolds :: t in s.pcs)
    && (forall t <- s.writeHolds :: t in s.pcs && s.owner == Thread(t))
    && (s.writeHolds != multiset{} ==> s.reader == 0)
    && (forall t <- s.pcs :: PcOk(s, t) && (Entered(s.pcs[t]) ==> s.owner == Thread(t)))
    && (s.owner.Thread? ==>
          var o := s.owner.t;
          && o in s.pcs && s.depth == s.writeHolds[o] + (if Entered(s.pcs[o]) then 1 else 0)
          && (s.writer == 1 <==> s.writeHolds[o] > 0 && !Cleared(s, o)))
    && (s.owner == Nobody ==> s.writer == 0)
  }

  lemma InitInv(s: State)
    requires Init(s)
    ensures Inv(s)
  {
  }

  // A step that changes the place of one thread only.
  lemma KeepPlace(s: State, t: Tid, pc: Pc)
    requires Inv(s) && t in s.pcs && PcOk(Goto(s, t, pc), t) && (Entered(s.pcs[t]) <==> Entered(pc))
    requires pc == UnlockLeave || s.pcs[t] == UnlockLeave ==> s.depth != 1
    ensures Inv(Goto(s, t, pc))
  {
    hide PcOk, Entered;
    var s' := Goto(s, t, pc);
    forall u | u in s'.pcs ensures PcOk(s', u) && (Entered(s'.pcs[u]) ==> s'.owner == Thread(u)) {
      if u != t {
        PlaceOk(s, t, pc, u);
      }
    }
  }

  lemma PlaceOk(s: State, t: Tid, pc: Pc, u: Tid)
    requires u in s.pcs && u != t && PcOk(s, u)
    ensures PcOk(Goto(s, t, pc), u)
  {
  }

  lemma EnterOk(s: State, t: Tid, call: Call, u: Tid)
    requires Inv(s) && CanMove(s, t, call) && Entering(s.pcs[t]) && u in s.pcs
    ensures PcOk(Move(s, t, call), u) && (u != t ==> !Entered(s.pcs[u]))
  {
    assert PcOk(s, u);
    assert s.writeHolds[u] > 0 <==> u in s.writeHolds;
  }

  lemma KeepEnter(s: State, t: Tid, call: Call)
    requires Inv(s) && CanMove(s, t, call) && Entering(s.pcs[t])
    ensures Inv(Move(s, t, call))
  {
    hide PcOk;
    forall u | u in s.pcs ensures PcOk(Move(s, t, call), u) && (u != t ==> !Entered(s.pcs[u])) {
      EnterOk(s, t, call, u);
    }
  }

  lemma KeepCall(s: State, t: Tid, call: Call)
    requires Inv(s) && CanMove(s, t, call) && s.pcs[t].Outside?
    ensures Inv(Move(s, t, call))
  {
    assert PcOk(s, t);
    KeepPlace(s, t, Move(s, t, call).pcs[t]);
  }

  lemma KeepReadTest(s: State, t: Tid, call: Call)
    requires Inv(s) && CanMove(s, t, call) && s.pcs[t].ReadTest?
    ensures Inv(Move(s, t, call))
  {
    assert PcOk(s, t);
    KeepPlace(s, t, Move(s, t, call).pcs[t]);
  }

  lemma KeepReadAdd(s: State, t: Tid, call: Call)
    requires Inv(s) && CanMove(s, t, call) && s.pcs[t].ReadAdd?
    ensures Inv(Move(s, t, call))
  {
    assert PcOk(s, t);
  }

  lemma KeepReadLeave(s: State, t: Tid, call: Call)
    requires Inv(s) && CanMove(s, t, call) && s.pcs[t].ReadLeave?
    ensures Inv(Move(s, t, call))
  {
    assert PcOk(s, t);
  }

  lemma KeepWriteTest(s: State, t: Tid, call: Call)
    requires Inv(s) && CanMove(s, t, call) && s.pcs[t].WriteTest?
    ensures Inv(Move(s, t, call))
  {
    assert PcOk(s, t);
  }

  lemma KeepWriteWait(s: State, t: Tid, call: Call)
    requires Inv(s) && CanMove(s, t, call) && s.pcs[t].WriteWait?
    ensures Inv(Move(s, t, call))
  {
    assert PcOk(s, t);
  }

  lemma KeepWriteTake(s: State, t: Tid, call: Call)
    requires Inv(s) && CanMove(s, t, call) && s.pcs[t].WriteTake?
    ensures Inv(Move(s, t, call))
  {
    assert PcOk(s, t);
  }

  // The flag tells a holder which kind of hold it has.
  lemma HoldKinds(s: State, t: Tid)
    requires Inv(s) && t in s.pcs && s.pcs[t] == UnlockTest
    ensures s.writer == 0 ==> s.readHolds[t] > 0
    ensures s.writer == 1 ==> s.writeHolds[t] > 0
  {
    assert PcOk(s, t);
    if s.readHolds[t] > 0 {
      assert t in s.readHolds;
      assert s.reader > 0;
      assert s.writeHolds == multiset{};
    } else {
      assert t in s.writeHolds;
    }
  }

  lemma KeepUnlockTest(s: State, t: Tid, call: Call)
    requires Inv(s) && CanMove(s, t, call) && s.pcs[t].UnlockTest?
    ensures Inv(Move(s, t, call))
  {
    HoldKinds(s, t);
    KeepPlace(s, t, Move(s, t, call).pcs[t]);
  }

  lemma KeepUnlockSub(s: State, t: Tid, call: Call)
    requires Inv(s) && CanMove(s, t, call) && s.pcs[t].UnlockSub?
    ensures Inv(Move(s, t, call))
  {
    assert PcOk(s, t);
  }

  lemma KeepUnlockCount(s: State, t: Tid, call: Call)
    requires Inv(s) && CanMove(s, t, call) && s.pcs[t].UnlockCount?
    ensures Inv(Move(s, t, call))
  {
    assert PcOk(s, t);
    KeepPlace(s, t, Move(s, t, call).pcs[t]);
  }

  lemma KeepUnlockClear(s: State, t: Tid, call: Call)
    requires Inv(s) && CanMove(s, t, call) && s.pcs[t].UnlockClear?
    ensures Inv(Move(s, t, call))
  {
    assert PcOk(s, t);
  }

  // While a thread has a write hold, the others are outside or wait to enter.
  lemma WriterAlone(s: State, t: Tid)
    requires Inv(s) && t in s.pcs && s.writeHolds[t] > 0
    ensures s.owner == Thread(t) && s.readHolds == multiset{} && s.reader == 0
    ensures s.depth == s.writeHolds[t] + if Entered(s.pcs[t]) then 1 else 0
    ensures forall u <- s.writeHolds :: u == t
    ensures forall u <- s.pcs :: u != t ==> s.pcs[u] == Outside || Entering(s.pcs[u])
  {
    assert t in s.writeHolds;
    forall u | u in s.pcs && u != t ensures s.pcs[u] == Outside || Entering(s.pcs[u]) {
      assert PcOk(s, u) && u !in s.writeHolds && u !in s.readHolds;
    }
  }

  lemma KeepUnlockLeave(s: State, t: Tid, call: Call)
    requires Inv(s) && CanMove(s, t, call) && s.pcs[t].UnlockLeave?
    ensures Inv(Move(s, t, call))
  {
    assert PcOk(s, t);
    WriterAlone(s, t);
    AfterUnlockLeave(s, Move(s, t, call), t);
  }

  lemma AfterUnlockLeave(s: State, s': State, t: Tid)
    requires t in s.pcs && s'.pcs == s.pcs[t := Outside] && s.writeHolds[t] > 0 && s.depth == s.writeHolds[t]
    requires s.readHolds == s'.readHolds == multiset{} && s.reader == s'.reader == 0
    requires s'.writer == s.writer == if s.depth == 1 then 0 else 1
    requires s'.writeHolds == s.writeHolds - multiset{t} && (forall u <- s.writeHolds :: u == t)
    requires s'.owner == (if s.depth == 1 then Nobody else Thread(t)) && s'.depth == s.depth - 1
    requires forall u <- s.pcs :: u != t ==> s.pcs[u] == Outside || Entering(s.pcs[u])
    ensures Inv(s')
  {
  }

  lemma MoveInv(s: State, t: Tid, call: Call)
    requires Inv(s) && CanMove(s, t, call)
    ensures Inv(Move(s, t, call))
  {
    hide Inv, Move;
    match s.pcs[t]
    case Outside => KeepCall(s, t, call);
    case ReadEnter => KeepEnter(s, t, call);
    case WriteEnter => KeepEnter(s, t, call);
    case ReadTest => KeepReadTest(s, t, call);
    case ReadAdd => KeepReadAdd(s, t, call);
    case ReadLeave(_) => KeepReadLeave(s, t, call);
    case WriteTest => KeepWriteTest(s, t, call);
    case WriteWait => KeepWriteWait(s, t, call);
    case WriteTake => KeepWriteTake(s, t, call);
    case UnlockTest => KeepUnlockTest(s, t, call);
    case UnlockSub => KeepUnlockSub(s, t, call);
    case UnlockCount => KeepUnlockCount(s, t, call);
    case UnlockClear => KeepUnlockClear(s, t, call);
    case UnlockLeave => KeepUnlockLeave(s, t, call);
  }

  // ---------- runs ----------

  datatype Turn = Turn(t: Tid, call: Call)

  ghost predicate Path(ss: seq<State>, turns: seq<Turn>)
  {
    && |ss| == |turns| + 1
    && forall i :: 0 <= i < |turns| ==>
      CanMove(ss[i], turns[i].t, turns[i].call) && ss[i + 1] == Move(ss[i], turns[i].t, turns[i].call)
  }

  ghost predicate Run(ss: seq<State>, turns: seq<Turn>) { Path(ss, turns) && Init(ss[0]) }

  lemma {:induction false} RunInv(ss: seq<State>, turns: seq<Turn>, i: nat)
    requires Run(ss, turns) && i < |ss|
    ensures Inv(ss[i])
    decreases i
  {
    hide Inv, Move, CanMove, Init;
    if i == 0 {
      InitInv(ss[0]);
    } else {
      RunInv(ss, turns, i - 1);
      MoveInv(ss[i - 1], turns[i - 1].t, turns[i - 1].call);
    }
  }

  // At every moment of every run: the counter counts the read holds, the flag excludes them, and
  // all write holds are those of one thread, which owns the section.
  lemma Safety(ss: seq<State>, turns: seq<Turn>, i: nat)
    requires Run(ss, turns) && i < |ss|
    ensures var s := ss[i];
      && s.reader == |s.readHolds|
      && (s.writer == 1 ==> s.reader == 0 && s.owner.Thread? && s.writeHolds[s.owner.t] > 0)
      && (forall t, u :: t in s.readHolds ==> u !in s.writeHolds)
      && (forall t, u :: t in s.writeHolds && u in s.writeHolds ==> t == u)
  {
    RunInv(ss, turns, i);
    var s := ss[i];
    forall t, u | t in s.readHolds ensures u !in s.writeHolds {
      assert |s.readHolds| > 0;
    }
  }

  // The flag is cleared by the owner alone, and only when one of its holds is left; a hold given
  // back earlier leaves it set.
  lemma LastUnlockReleases(s: State, t: Tid, call: Call)
    requires Inv(s) && CanMove(s, t, call)
    ensures var s' := Move(s, t, call);
      && (s.writer == 1 && s'.writer == 0 ==> s.owner == Thread(t) && s.writeHolds[t] == 1)
      && (s'.writeHolds[t] < s.writeHolds[t] ==> (s'.writer == 0 <==> s.writeHolds[t] == 1))
      && (s'.owner == Nobody && s.writeHolds[t] > 0 ==> s.writeHolds[t] == 1 && s'.writeHolds[t] == 0)
  {
    assert PcOk(s, t);
    if s.writeHolds[t] > 0 {
      assert t in s.writeHolds;
    }
  }

  ghost predicate Waits(s: State, w: Tid) { w in s.pcs && (s.pcs[w] == WriteWait || s.pcs[w] == WriteTake) }

  lemma WaitStep(s: State, t: Tid, call: Call, w: Tid)
    requires Inv(s) && CanMove(s, t, call) && Waits(s, w)
    ensures Move(s, t, call).reader <= s.reader
  {
    assert PcOk(s, w);
    assert Entered(s.pcs[w]) && s.owner == Thread(w);
  }

  // While a writer waits, the number of readers never rises.
  lemma {:induction false} WaitingWriter(ss: seq<State>, turns: seq<Turn>, i: nat, j: nat, w: Tid)
    requires Run(ss, turns) && i <= j < |ss|
    requires forall k :: i <= k <= j ==> Waits(ss[k], w)
    ensures ss[j].reader <= ss[i].reader
    decreases j
  {
    hide Inv, Move, CanMove, Init, Waits;
    if i < j {
      WaitingWriter(ss, turns, i, j - 1, w);
      RunInv(ss, turns, j - 1);
      WaitStep(ss[j - 1], turns[j - 1].t, turns[j - 1].call, w);
    }
  }

  // ---------- who gets the write lock ----------

  // The thread has called lbs_rwlock_wlock and has not got the lock yet.
  ghost predicate Asks(pc: Pc) { pc == WriteEnter || pc == WriteTest || pc == WriteWait || pc == WriteTake }

  // The owner of the section is in the loop, or will be with its next step.
  ghost predicate Closed(s: State)
  {
    s.owner.Thread? && s.owner.t in s.pcs && (s.pcs[s.owner.t] == WriteTest || s.pcs[s.owner.t] == WriteWait)
  }

  // A reader asks for the write lock, or asks for another read lock and is shut out by a writer.
  ghost predicate Doomed(s: State)
  {
    exists u :: u in s.readHolds && u in s.pcs && (Asks(s.pcs[u]) || (s.pcs[u] == ReadEnter && Closed(s)))
  }

  // Some continuation gives thread w one more write hold.
  ghost predicate GetsIn(s: State, w: Tid)
  {
    exists ss: seq<State>, turns: seq<Turn> ::
      Path(ss, turns) && ss[0] == s && ss[|ss| - 1].writeHolds[w] > s.writeHolds[w]
  }

  // ---------- a doomed state stays one ----------

  lemma NoWriter(s: State)
    requires Inv(s) && s.readHolds != multiset{}
    ensures s.reader > 0 && s.writer == 0 && s.writeHolds == multiset{}
    ensures forall u <- s.pcs :: s.pcs[u] != WriteTake
  {
    forall u | u in s.pcs ensures s.pcs[u] != WriteTake { assert PcOk(s, u); }
  }

  lemma DoomedStep(s: State, t: Tid, call: Call)
    requires Inv(s) && CanMove(s, t, call) && Doomed(s)
    ensures Doomed(Move(s, t, call)) && s.writeHolds == multiset{}
  {
    hide Inv;
    var u :| u in s.readHolds && u in s.pcs && (Asks(s.pcs[u]) || (s.pcs[u] == ReadEnter && Closed(s)));
    NoWriter(s);
    MoverInside(s, t);
    if t == u {
      AskerStays(s, t, call);
    } else {
      OtherStays(s, t, call, u);
    }
  }

  lemma AskerStays(s: State, t: Tid, call: Call)
    requires CanMove(s, t, call) && t in s.readHolds && s.reader > 0 && s.writer == 0 && s.pcs[t] != WriteTake
    requires Asks(s.pcs[t]) || (s.pcs[t] == ReadEnter && Closed(s))
    ensures Doomed(Move(s, t, call))
  {
    var s' := Move(s, t, call);
    assert t in s'.readHolds && t in s'.pcs && Asks(s'.pcs[t]);
  }

  lemma OtherStays(s: State, t: Tid, call: Call, u: Tid)
    requires CanMove(s, t, call) && u in s.readHolds && u in s.pcs && u != t && s.reader > 0 && s.writer == 0
    requires Asks(s.pcs[u]) || (s.pcs[u] == ReadEnter && Closed(s))
    requires Entered(s.pcs[t]) ==> s.owner == Thread(t)
    requires s.pcs[t] != UnlockCount && s.pcs[t] != UnlockClear && s.pcs[t] != UnlockLeave
    ensures Doomed(Move(s, t, call))
  {
    hide Doomed;
    var s' := Move(s, t, call);
    assert u in s'.readHolds && u in s'.pcs && s'.pcs[u] == s.pcs[u];
    if s.pcs[u] == ReadEnter {
      assert Closed(s');
    }
    DoomedBy(s', u);
  }

  lemma DoomedBy(s: State, u: Tid)
    requires u in s.readHolds && u in s.pcs && (Asks(s.pcs[u]) || (s.pcs[u] == ReadEnter && Closed(s)))
    ensures Doomed(s)
  {
  }

  // Only the owner is inside the section.
  lemma MoverInside(s: State, t: Tid)
    requires Inv(s) && t in s.pcs
    ensures Entered(s.pcs[t]) ==> s.owner == Thread(t)
    ensures s.pcs[t] == UnlockCount || s.pcs[t] == UnlockClear || s.pcs[t] == UnlockLeave ==> s.writeHolds[t] > 0
    ensures s.pcs[t] == UnlockTest && s.writeHolds[t] == 0 ==> s.readHolds[t] > 0
  {
    assert PcOk(s, t);
  }

  lemma {:induction false} StaysDoomed(ss: seq<State>, turns: seq<Turn>, i: nat)
    requires Path(ss, turns) && i < |ss| && Inv(ss[0]) && Doomed(ss[0])
    ensures Inv(ss[i]) && Doomed(ss[i]) && ss[i].writeHolds == multiset{}
    decreases i
  {
    hide Inv, Move, CanMove, Doomed;
    if i > 0 {
      var s, turn := ss[i - 1], turns[i - 1];
      StaysDoomed(ss, turns, i - 1);
      MoveInv(s, turn.t, turn.call);
      DoomedStep(s, turn.t, turn.call);
    }
    DoomedHolds(ss[i]);
  }

  lemma DoomedHolds(s: State)
    requires Inv(s) && Doomed(s)
    ensures s.readHolds != multiset{} && s.writeHolds == multiset{}
  {
    hide Inv;
    var u :| u in s.readHolds;
    NoWriter(s);
  }

  // In a doomed state the loop goes on, and who waits to enter the section goes on waiting.
  lemma LoopStep(s: State, t: Tid, call: Call, w: Tid)
    requires Inv(s) && CanMove(s, t, call) && Doomed(s) && w in s.pcs && s.pcs[w] == WriteWait
    ensures var s' := Move(s, t, call);
      && w in s'.pcs && s'.pcs[w] == WriteWait
      && forall v <- s.pcs :: Entering(s.pcs[v]) ==> v in s'.pcs && s'.pcs[v] == s.pcs[v]
  {
    hide Inv;
    DoomedHolds(s);
    NoWriter(s);
    MoverInside(s, w);
  }

  lemma {:induction false} StaysInLoop(ss: seq<State>, turns: seq<Turn>, i: nat, w: Tid)
    requires Path(ss, turns) && i < |ss| && Inv(ss[0]) && Doomed(ss[0])
    requires w in ss[0].pcs && ss[0].pcs[w] == WriteWait
    ensures w in ss[i].pcs && ss[i].pcs[w] == WriteWait
    ensures forall v <- ss[0].pcs :: Entering(ss[0].pcs[v]) ==> v in ss[i].pcs && ss[i].pcs[v] == ss[0].pcs[v]
    decreases i
  {
    hide Inv, Move, CanMove, Doomed;
    if i > 0 {
      var s, turn := ss[i - 1], turns[i - 1];
      StaysInLoop(ss, turns, i - 1, w);
      StaysDoomed(ss, turns, i - 1);
      LoopStep(s, turn.t, turn.call, w);
    }
  }

  // ---------- in any other state there is a way in ----------

  // How far the owner of the section is from leaving it for good.
  ghost function Rank(pc: Pc, holds: nat): nat
  {
    6 * holds + match pc
      case UnlockSub => 0
      case UnlockLeave => 0
      case UnlockClear => 1
      case UnlockCount => 2
      case UnlockTest => 3
      case Outside => 4
      case ReadLeave(_) => 5
      case ReadAdd => 6
      case ReadTest => 7
      case ReadEnter => 8
      case WriteTake => 11
      case WriteWait => 12
      case WriteTest => 13
      case WriteEnter => 14
  }

  ghost function OwnerRank(s: State): nat
  {
    if s.owner.Thread? && s.owner.t in s.pcs then Rank(s.pcs[s.owner.t], s.writeHolds[s.owner.t]) else 0
  }

  // The readers that ask for another read lock.
  ghost function Asking(s: State): set<Tid>
  {
    set t | t in s.pcs && s.pcs[t] == ReadEnter && t in s.readHolds
  }

  // A reader that does not ask is one, two or three steps away from giving a hold back.
  ghost function Distance(s: State, u: Tid): nat
  {
    if u !in s.pcs then 0 else if s.pcs[u] == UnlockSub then 1 else if s.pcs[u] == UnlockTest then 2 else 3
  }

  ghost function Before(s: State, w: Tid): nat { if w in s.pcs && s.pcs[w] == WriteEnter then 1 else 0 }

  lemma OwnerPlace(s: State, o: Tid)
    requires Inv(s) && s.owner == Thread(o)
    ensures o in s.pcs && PcOk(s, o) && s.depth == s.writeHolds[o] + (if Entered(s.pcs[o]) then 1 else 0)
    ensures !Entered(s.pcs[o]) ==> s.writeHolds[o] > 0
    ensures s.writer == 1 <==> s.writeHolds[o] > 0 && !Cleared(s, o)
    ensures s.writer == 0 || s.writer == 1
    ensures s.writeHolds[o] > 0 ==> s.readHolds == multiset{}
    ensures s.readHolds != multiset{} ==> s.reader > 0
  {
    assert s.writeHolds[o] > 0 ==> o in s.writeHolds;
  }

  // The owner can go on unless it waits for readers, and comes nearer to leaving.
  lemma OwnerMoves(s: State, o: Tid)
    requires Inv(s) && s.owner == Thread(o) && (o in s.pcs && s.pcs[o] == WriteWait ==> s.reader == 0)
    ensures CanMove(s, o, Unlock)
    ensures OwnerRank(Move(s, o, Unlock)) < OwnerRank(s)
  {
    hide Inv;
    OwnerPlace(s, o);
  }

  lemma OwnerKeeps(s: State, o: Tid)
    requires Inv(s) && s.owner == Thread(o) && CanMove(s, o, Unlock)
    ensures Asking(Move(s, o, Unlock)) == Asking(s)
  {
    hide Inv;
    OwnerPlace(s, o);
    var s' := Move(s, o, Unlock);
    forall t ensures t in Asking(s') <==> t in Asking(s) {
      if t != o {
        assert t in s'.readHolds <==> t in s.readHolds;
      }
    }
  }

  lemma OwnerEffect(s: State, o: Tid)
    requires Inv(s) && s.owner == Thread(o) && CanMove(s, o, Unlock)
    ensures o in s.pcs
    ensures var s' := Move(s, o, Unlock);
      && o in s'.pcs && s'.pcs[o] != ReadEnter && (Asks(s'.pcs[o]) ==> Asks(s.pcs[o]))
      && (s'.readHolds == s.readHolds || (s'.readHolds == s.readHolds + multiset{o} && !Asks(s'.pcs[o])))
  {
    hide Inv;
    OwnerPlace(s, o);
  }

  lemma OnlyMover(s: State, t: Tid, call: Call)
    requires CanMove(s, t, call)
    ensures var s' := Move(s, t, call); forall u <- s'.pcs :: u != t ==> u in s.pcs && s'.pcs[u] == s.pcs[u]
  {
  }

  lemma OwnerCloses(s: State, o: Tid)
    requires Inv(s) && s.owner == Thread(o) && CanMove(s, o, Unlock)
    ensures var s' := Move(s, o, Unlock); Closed(s') && s'.readHolds != multiset{} ==> Closed(s)
  {
    hide Inv;
    OwnerPlace(s, o);
  }

  lemma OwnerNotDoomed(s: State, o: Tid)
    requires Inv(s) && s.owner == Thread(o) && CanMove(s, o, Unlock) && !Doomed(s)
    ensures !Doomed(Move(s, o, Unlock))
  {
    OwnerEffect(s, o);
    OnlyMover(s, o, Unlock);
    OwnerCloses(s, o);
    hide Inv, Move, CanMove, Closed;
    var s' := Move(s, o, Unlock);
    forall u | u in s'.readHolds && u in s'.pcs
      ensures !Asks(s'.pcs[u]) && !(s'.pcs[u] == ReadEnter && Closed(s'))
    {
      if u in s.readHolds {
        assert !Asks(s.pcs[u]) && !(s.pcs[u] == ReadEnter && Closed(s));
      }
    }
  }

  // What the owner's step does to a thread that asks for the write lock.
  lemma OwnerAndWriter(s: State, o: Tid, w: Tid)
    requires Inv(s) && s.owner == Thread(o) && CanMove(s, o, Unlock) && w in s.pcs && Asks(s.pcs[w])
    ensures var s' := Move(s, o, Unlock);
      && w in s'.pcs
      && (s'.writeHolds[w] > s.writeHolds[w]
          || (s'.writeHolds[w] == s.writeHolds[w] && Asks(s'.pcs[w]) && Before(s', w) <= Before(s, w)))
  {
    hide Inv;
    OwnerPlace(s, o);
  }

  lemma InLoop(s: State, o: Tid)
    requires Inv(s) && o in s.pcs && s.pcs[o] == WriteWait
    ensures s.writer == 0 && s.writeHolds == multiset{} && s.owner == Thread(o)
    ensures s.reader == |s.readHolds| && forall u <- s.readHolds :: u in s.pcs
  {
    assert PcOk(s, o) && Entered(s.pcs[o]);
    assert forall u <- s.writeHolds :: u == o;
    assert s.writeHolds == multiset{};
  }

  lemma ReaderPlace(s: State, o: Tid, u: Tid)
    requires Inv(s) && o in s.pcs && s.pcs[o] == WriteWait && !Doomed(s) && u in s.readHolds
    ensures u in s.pcs && (s.pcs[u] == Outside || s.pcs[u] == UnlockTest || s.pcs[u] == UnlockSub)
  {
    InLoop(s, o);
    assert PcOk(s, u);
    assert !Asks(s.pcs[u]) && s.pcs[u] != ReadEnter;
  }

  // While the owner is in the loop, a reader comes nearer to giving its hold back.
  lemma ReaderStep(s: State, o: Tid, u: Tid)
    requires Inv(s) && o in s.pcs && s.pcs[o] == WriteWait && !Doomed(s) && u in s.readHolds
    ensures CanMove(s, u, Unlock) && u in s.pcs && !Asks(s.pcs[u])
    ensures var s' := Move(s, u, Unlock);
      && !Doomed(s') && s'.pcs == s.pcs[u := s'.pcs[u]] && s'.writeHolds == s.writeHolds && s'.owner == s.owner
      && Asking(s') == Asking(s) && OwnerRank(s') == OwnerRank(s)
      && (forall w <- s.pcs :: Asks(s.pcs[w]) ==> w in s'.pcs && s'.pcs[w] == s.pcs[w] && Before(s', w) == Before(s, w))
      && (s'.readHolds == s.readHolds - multiset{u}
          || (s'.readHolds == s.readHolds && Distance(s', u) < Distance(s, u)))
  {
    hide Inv;
    InLoop(s, o);
    ReaderPlace(s, o, u);
    ReaderNotDoomed(s, o, u);
    hide Doomed;
    ReaderElsewhere(s, Move(s, u, Unlock), u, o);
  }

  lemma ReaderElsewhere(s: State, s': State, u: Tid, o: Tid)
    requires u in s.pcs && u in s'.pcs && s'.pcs == s.pcs[u := s'.pcs[u]] && u != o
    requires s'.writeHolds == s.writeHolds && s'.owner == s.owner == Thread(o)
    requires s.pcs[u] != ReadEnter && s'.pcs[u] != ReadEnter && !Asks(s.pcs[u])
    requires forall t :: t != u ==> (t in s'.readHolds <==> t in s.readHolds)
    ensures Asking(s') == Asking(s) && OwnerRank(s') == OwnerRank(s)
    ensures forall w <- s.pcs :: Asks(s.pcs[w]) ==> Before(s', w) == Before(s, w)
  {
  }

  lemma ReaderNotDoomed(s: State, o: Tid, u: Tid)
    requires o in s.pcs && s.pcs[o] == WriteWait && s.owner == Thread(o) && !Doomed(s) && u in s.readHolds
    requires u in s.pcs && (s.pcs[u] == Outside || s.pcs[u] == UnlockTest || s.pcs[u] == UnlockSub)
    ensures CanMove(s, u, Unlock) && !Doomed(Move(s, u, Unlock))
  {
    var s' := Move(s, u, Unlock);
    forall v | v in s'.readHolds && v in s'.pcs
      ensures !Asks(s'.pcs[v]) && !(s'.pcs[v] == ReadEnter && Closed(s'))
    {
      assert v in s.readHolds && !Asks(s.pcs[v]) && !(s.pcs[v] == ReadEnter && Closed(s));
    }
  }

  // Nobody is in the section: a reader that asks for another lock enters first.
  lemma ReaderEnters(s: State, u: Tid)
    requires Inv(s) && s.owner == Nobody && !Doomed(s) && u in Asking(s)
    ensures CanMove(s, u, Rlock)
    ensures var s' := Move(s, u, Rlock);
      && !Doomed(s') && s'.pcs == s.pcs[u := ReadTest] && s'.writeHolds == s.writeHolds
      && s'.readHolds == s.readHolds && Asking(s') == Asking(s) - {u} && |Asking(s')| < |Asking(s)|
      && (forall w <- s.pcs :: Asks(s.pcs[w]) ==> w in s'.pcs && s'.pcs[w] == s.pcs[w])
  {
    hide Inv;
    var s' := Move(s, u, Rlock);
    forall v | v in s'.readHolds && v in s'.pcs
      ensures !Asks(s'.pcs[v]) && !(s'.pcs[v] == ReadEnter && Closed(s'))
    {
      assert !Asks(s.pcs[v]);
    }
    assert Asking(s') == Asking(s) - {u};
  }

  // When there is none, the writer enters.
  lemma WriterEnters(s: State, w: Tid)
    requires Inv(s) && s.owner == Nobody && !Doomed(s) && Asking(s) == {} && w in s.pcs && Asks(s.pcs[w])
    ensures CanMove(s, w, Wlock) && s.pcs[w] == WriteEnter
    ensures var s' := Move(s, w, Wlock);
      && !Doomed(s') && s'.pcs == s.pcs[w := WriteTest] && s'.writeHolds == s.writeHolds
      && s'.readHolds == s.readHolds && Asking(s') == {} && Before(s', w) < Before(s, w) && Asks(s'.pcs[w])
  {
    var s' := Move(s, w, Wlock);
    hide Inv;
    MoverInside(s, w);
    forall v | v in s'.readHolds && v in s'.pcs
      ensures !Asks(s'.pcs[v]) && !(s'.pcs[v] == ReadEnter && Closed(s'))
    {
      assert !Asks(s.pcs[v]) && v !in Asking(s);
    }
    assert Asking(s') == {};
  }

  // ---------- putting the steps together ----------

  lemma Prepend(s: State, turn: Turn, ss: seq<State>, turns: seq<Turn>)
    requires CanMove(s, turn.t, turn.call) && Path(ss, turns) && ss[0] == Move(s, turn.t, turn.call)
    ensures Path([s] + ss, [turn] + turns)
  {
    hide Move, CanMove;
  }

  lemma GetsInLater(s: State, turn: Turn, w: Tid)
    requires CanMove(s, turn.t, turn.call)
    requires var s' := Move(s, turn.t, turn.call); s'.writeHolds[w] == s.writeHolds[w] && GetsIn(s', w)
    ensures GetsIn(s, w)
  {
    hide Move, CanMove;
    var s' := Move(s, turn.t, turn.call);
    var ss: seq<State>, turns: seq<Turn> :|
      Path(ss, turns) && ss[0] == s' && ss[|ss| - 1].writeHolds[w] > s'.writeHolds[w];
    Prepend(s, turn, ss, turns);
    assert ([s] + ss)[|ss|] == ss[|ss| - 1];
  }

  lemma GetsInNow(s: State, turn: Turn, w: Tid)
    requires CanMove(s, turn.t, turn.call) && Move(s, turn.t, turn.call).writeHolds[w] > s.writeHolds[w]
    ensures GetsIn(s, w)
  {
    hide Move, CanMove;
    var s' := Move(s, turn.t, turn.call);
    assert Path([s, s'], [turn]) && [s, s'][1] == s';
  }

  // u is the reader that gives its hold back next.
  lemma {:induction false} WayIn(s: State, w: Tid, u: Tid)
    requires Inv(s) && w in s.pcs && Asks(s.pcs[w]) && !Doomed(s)
    requires s.readHolds != multiset{} ==> u in s.readHolds
    ensures GetsIn(s, w)
    decreases |Asking(s)|, Before(s, w), OwnerRank(s), |s.readHolds|, Distance(s, u)
  {
    hide Inv, Move, CanMove, Doomed, GetsIn, Distance, OwnerRank, Asking, Before, Asks;
    var turn := Turn(w, Wlock);
    if s.owner == Nobody && Asking(s) == {} {
      WriterEnters(s, w);
    } else if s.owner == Nobody {
      var v :| v in Asking(s);
      AskingIn(s, v);
      ReaderEnters(s, v);
      turn := Turn(v, Rlock);
    } else {
      var o := s.owner.t;
      OwnerPlace(s, o);
      if s.pcs[o] == WriteWait && s.readHolds != multiset{} {
        ReaderStep(s, o, u);
        turn := Turn(u, Unlock);
      } else {
        NoReaders(s);
        OwnerMoves(s, o);
        OwnerKeeps(s, o);
        OwnerNotDoomed(s, o);
        OwnerAndWriter(s, o, w);
        turn := Turn(o, Unlock);
      }
    }
    var s' := Move(s, turn.t, turn.call);
    if s'.writeHolds[w] > s.writeHolds[w] {
      GetsInNow(s, turn, w);
    } else {
      MoveInv(s, turn.t, turn.call);
      var v := SomeReader(s', u);
      WayIn(s', w, v);
      GetsInLater(s, turn, w);
    }
  }

  // A reader of s, u if it is one.
  ghost function SomeReader(s: State, u: Tid): (v: Tid)
    ensures s.readHolds != multiset{} ==> v in s.readHolds
    ensures u in s.readHolds ==> v == u
  {
    if u in s.readHolds then u else if s.readHolds == multiset{} then u else var v :| v in s.readHolds; v
  }

  lemma NoReaders(s: State)
    requires Inv(s)
    ensures s.readHolds == multiset{} ==> s.reader == 0
  {
  }

  lemma AskingIn(s: State, v: Tid)
    requires v in Asking(s)
    ensures v in s.pcs
  {
  }

  // A thread that has called lbs_rwlock_wlock gets the lock in some continuation exactly when no reader
  // asks for the write lock, and none that asks for another read lock is shut out by a writer.  In any
  // other state no thread gets the write lock any more; a thread in the loop stays there, and those that
  // wait to enter the section stay outside.
  lemma UpgradeHangs(ss: seq<State>, turns: seq<Turn>, i: nat, w: Tid)
    requires Run(ss, turns) && i < |ss| && w in ss[i].pcs && Asks(ss[i].pcs[w])
    ensures GetsIn(ss[i], w) <==> !Doomed(ss[i])
    ensures Doomed(ss[i]) ==> forall j :: i <= j < |ss| ==>
      && ss[j].writeHolds == multiset{}
      && (ss[i].pcs[w] == WriteWait ==>
            && w in ss[j].pcs && ss[j].pcs[w] == WriteWait
            && forall v <- ss[i].pcs :: Entering(ss[i].pcs[v]) ==> v in ss[j].pcs && ss[j].pcs[v] == ss[i].pcs[v])
  {
    hide Inv, Move, CanMove, Doomed, Init;
    RunInv(ss, turns, i);
    var s := ss[i];
    if Doomed(s) {
      forall on: seq<State>, more: seq<Turn> | Path(on, more) && on[0] == s
        ensures on[|on| - 1].writeHolds == multiset{}
      {
        StaysDoomed(on, more, |on| - 1);
      }
      assert Path(ss[i..], turns[i..]);
      forall j | i <= j < |ss|
        ensures ss[j].writeHolds == multiset{}
        ensures s.pcs[w] == WriteWait ==>
          && w in ss[j].pcs && ss[j].pcs[w] == WriteWait
          && forall v <- s.pcs :: Entering(s.pcs[v]) ==> v in ss[j].pcs && ss[j].pcs[v] == s.pcs[v]
      {
        assert ss[i..][j - i] == ss[j];
        StaysDoomed(ss[i..], turns[i..], j - i);
        if s.pcs[w] == WriteWait {
          StaysInLoop(ss[i..], turns[i..], j - i, w);
        }
      }
    } else {
      WayIn(s, w, SomeReader(s, 0));
    }
  }

  // For a thread in the loop: it holds a read lock, or one that waits to enter the section does.
  lemma DoomedInLoop(s: State, w: Tid)
    requires Inv(s) && w in s.pcs && s.pcs[w] == WriteWait
    ensures Doomed(s) <==> exists u :: u in s.readHolds && u in s.pcs && (u == w || Entering(s.pcs[u]))
  {
    InLoop(s, w);
    forall u | u in s.readHolds && u in s.pcs && Asks(s.pcs[u]) ensures u == w || Entering(s.pcs[u]) {
      assert PcOk(s, u);
    }
  }

  // One more step of a run.
  lemma Extend(ss: seq<State>, turns: seq<Turn>, turn: Turn)
    requires Run(ss, turns) && CanMove(ss[|ss| - 1], turn.t, turn.call)
    ensures Run(ss + [Move(ss[|ss| - 1], turn.t, turn.call)], turns + [turn])
  {
    hide Move, CanMove, Init;
  }

  ghost predicate Reached(s: State) { exists ss: seq<State>, turns: seq<Turn> :: Run(ss, turns) && ss[|ss| - 1] == s }

  lemma ReachedStep(s: State, t: Tid, call: Call)
    requires Reached(s) && CanMove(s, t, call)
    ensures Reached(Move(s, t, call))
  {
    hide Move, CanMove, Init;
    var ss: seq<State>, turns: seq<Turn> :| Run(ss, turns) && ss[|ss| - 1] == s;
    Extend(ss, turns, Turn(t, call));
    var on := ss + [Move(s, t, call)];
    assert on[|on| - 1] == Move(s, t, call);
  }

  // Thread 0 holds a read lock.
  lemma OneReader() returns (s: State)
    ensures Reached(s)
    ensures s == State(Nobody, 0, 1, 0, map[0 := Outside, 1 := Outside], map[0 := 0], multiset{0}, multiset{})
  {
    hide Reached;
    s := State(Nobody, 0, 0, 0, map[0 := Outside, 1 := Outside], map[], multiset{}, multiset{});
    StartReached(s);
    s := Next(s, 0, Rlock);
    s := Next(s, 0, Rlock);
    s := Next(s, 0, Rlock);
    s := Next(s, 0, Rlock);
    s := Next(s, 0, Rlock);
  }

  // Thread w is in the loop besides.
  lemma ReaderAndWaiter(w: Tid) returns (s: State)
    requires w <= 1
    ensures Reached(s) && s.readHolds == multiset{0} && s.writeHolds == multiset{} && s.owner == Thread(w)
    ensures s.pcs == map[0 := Outside, 1 := Outside][w := WriteWait]
  {
    hide Reached;
    s := OneReader();
    s := Next(s, w, Wlock);
    s := Next(s, w, Wlock);
    s := Next(s, w, Wlock);
  }

  lemma Next(s: State, t: Tid, call: Call) returns (s': State)
    requires Reached(s) && CanMove(s, t, call)
    ensures Reached(s') && s' == Move(s, t, call)
  {
    hide Reached, Move, CanMove;
    ReachedStep(s, t, call);
    s' := Move(s, t, call);
  }

  lemma StartReached(s: State)
    requires Init(s)
    ensures Reached(s)
  {
    assert Run([s], []) && [s][0] == s;
  }

  // A thread that asks for the write lock while it holds a read lock.
  lemma OwnReadHold() returns (s: State)
    ensures Reached(s) && 0 in s.pcs && s.pcs[0] == WriteWait && s.readHolds[0] > 0 && Doomed(s)
  {
    hide Reached;
    s := ReaderAndWaiter(0);
    assert 0 in s.readHolds && Asks(s.pcs[0]);
  }

  // A reader that locks again, for reading or for writing, while a writer waits for it: neither of them
  // gets any further.
  lemma BlockedReader(call: Call) returns (s: State)
    requires call != Unlock
    ensures Reached(s) && 1 in s.pcs && s.pcs[1] == WriteWait && s.readHolds[1] == 0 && Doomed(s)
    ensures 0 in s.pcs && s.readHolds[0] > 0 && s.pcs[0] == if call == Rlock then ReadEnter else WriteEnter
    ensures forall ss: seq<State>, turns: seq<Turn>, i: nat :: Path(ss, turns) && ss[0] == s && i < |ss| ==>
      && 0 in ss[i].pcs && ss[i].pcs[0] == s.pcs[0] && 1 in ss[i].pcs && ss[i].pcs[1] == WriteWait
  {
    hide Reached;
    s := ReaderAndWaiter(1);
    s := Next(s, 0, call);
    assert 0 in s.readHolds && (Asks(s.pcs[0]) || (s.pcs[0] == ReadEnter && Closed(s)));
    ReachedInv(s);
    forall ss: seq<State>, turns: seq<Turn>, i: nat | Path(ss, turns) && ss[0] == s && i < |ss|
      ensures 0 in ss[i].pcs && ss[i].pcs[0] == s.pcs[0] && 1 in ss[i].pcs && ss[i].pcs[1] == WriteWait
    {
      StaysInLoop(ss, turns, i, 1);
    }
  }

  lemma ReachedInv(s: State)
    requires Reached(s)
    ensures Inv(s)
  {
    hide Inv, Init, Move, CanMove;
    var ss: seq<State>, turns: seq<Turn> :| Run(ss, turns) && ss[|ss| - 1] == s;
    RunInv(ss, turns, |ss| - 1);
  }

  // ---------- whole calls ----------

  // Steps of thread t alone.
  ghost predicate Solo(ss: seq<State>, turns: seq<Turn>, t: Tid)
  {
    Path(ss, turns) && forall turn <- turns :: turn.t == t
  }

  lemma SoloOne(s: State, turn: Turn)
    requires CanMove(s, turn.t, turn.call)
    ensures Solo([s, Move(s, turn.t, turn.call)], [turn], turn.t)
  {
    hide Move, CanMove;
  }

  lemma SoloMore(ss: seq<State>, turns: seq<Turn>, turn: Turn)
    requires Solo(ss, turns, turn.t) && CanMove(ss[|ss| - 1], turn.t, turn.call)
    ensures Solo(ss + [Move(ss[|ss| - 1], turn.t, turn.call)], turns + [turn], turn.t)
  {
    hide Move, CanMove;
  }

  // Some steps of thread t alone lead from s to s'.
  ghost predicate Leads(s: State, t: Tid, s': State)
  {
    exists ss: seq<State>, turns: seq<Turn> :: Solo(ss, turns, t) && ss[0] == s && ss[|ss| - 1] == s'
  }

  lemma LeadsOne(s: State, t: Tid, call: Call)
    requires CanMove(s, t, call)
    ensures Leads(s, t, Move(s, t, call))
  {
    hide Move, CanMove, Solo;
    SoloOne(s, Turn(t, call));
    var ss := [s, Move(s, t, call)];
    assert ss[|ss| - 1] == Move(s, t, call);
  }

  lemma LeadsMore(s: State, t: Tid, s': State, call: Call)
    requires Leads(s, t, s') && CanMove(s', t, call)
    ensures Leads(s, t, Move(s', t, call))
  {
    hide Move, CanMove;
    var ss: seq<State>, turns: seq<Turn> :| Solo(ss, turns, t) && ss[0] == s && ss[|ss| - 1] == s';
    SoloMore(ss, turns, Turn(t, call));
    var on := ss + [Move(s', t, call)];
    assert on[|on| - 1] == Move(s', t, call);
  }

  // The thread is outside again, with the code.
  ghost function Back(s: State, t: Tid, code: int): State
  {
    s.(pcs := s.pcs[t := Outside], codes := s.codes[t := code])
  }

  // lbs_rwlock_rlock: a reader is let in whatever the other threads hold for reading, and refused while
  // the flag is set.
  lemma ReadCall(s: State, t: Tid)
    requires Inv(s) && t in s.pcs && s.pcs[t] == ReadEnter && CanEnter(s, t)
    ensures s.writer == 0 ==>
      Leads(s, t, Back(s.(reader := s.reader + 1, readHolds := s.readHolds + multiset{t}), t, 0))
    ensures s.writer != 0 ==> Leads(s, t, Back(s, t, 1))
  {
    hide Leads, Inv;
    CallStarts(s, t);
    LeadsOne(s, t, Rlock);
    var s1 := Move(s, t, Rlock);
    LeadsMore(s, t, s1, Rlock);
    var s2 := Move(s1, t, Rlock);
    LeadsMore(s, t, s2, Rlock);
    var s3 := Move(s2, t, Rlock);
    if s.writer == 0 {
      LeadsMore(s, t, s3, Rlock);
      assert Move(s3, t, Rlock)
        == Back(s.(reader := s.reader + 1, readHolds := s.readHolds + multiset{t}), t, 0);
    } else {
      assert s3 == Back(s, t, 1);
    }
  }

  // What entering and leaving the section leave behind.
  lemma CallStarts(s: State, t: Tid)
    requires Inv(s) && t in s.pcs && !Entered(s.pcs[t]) && CanEnter(s, t)
    ensures Leave(Enter(s, t)) == s && s.depth == s.writeHolds[t]
    ensures s.writer == 0 ==> s.owner == Nobody || s.depth == 1
    ensures s.owner == Nobody <==> s.depth == 0
    ensures Entering(s.pcs[t]) && s.writer == 0 ==> s.owner == Nobody
    ensures Entering(s.pcs[t]) && s.writer != 0 ==> s.owner == Thread(t)
  {
    assert s.writeHolds[t] > 0 ==> t in s.writeHolds;
  }

  // lbs_rwlock_wlock: a writer gets another hold, or the first one when there is no reader; with readers
  // about it comes to the loop and stays there.
  lemma WriteCall(s: State, t: Tid)
    requires Inv(s) && t in s.pcs && s.pcs[t] == WriteEnter && CanEnter(s, t)
    ensures var in1 := s.(owner := Thread(t), depth := s.depth + 1);
      if s.writer != 0 || s.reader == 0 then
        Leads(s, t, Back(in1.(writer := 1, writeHolds := s.writeHolds + multiset{t}), t, 0))
      else
        var loop := in1.(pcs := s.pcs[t := WriteWait]);
        Leads(s, t, loop) && forall call :: CanMove(loop, t, call) && Move(loop, t, call) == loop
  {
    hide Leads, Inv;
    CallStarts(s, t);
    FlagValues(s);
    var in1 := s.(owner := Thread(t), depth := s.depth + 1);
    LeadsOne(s, t, Wlock);
    var s1 := Move(s, t, Wlock);
    LeadsMore(s, t, s1, Wlock);
    var s2 := Move(s1, t, Wlock);
    if s.writer != 0 {
      assert s2 == Back(in1.(writer := 1, writeHolds := s.writeHolds + multiset{t}), t, 0);
    } else if s.reader == 0 {
      LeadsMore(s, t, s2, Wlock);
      var s3 := Move(s2, t, Wlock);
      LeadsMore(s, t, s3, Wlock);
      assert Move(s3, t, Wlock) == Back(in1.(writer := 1, writeHolds := s.writeHolds + multiset{t}), t, 0);
    } else {
      assert s2 == in1.(pcs := s.pcs[t := WriteWait]);
    }
  }

  lemma FlagValues(s: State)
    requires Inv(s)
    ensures s.writer == 0 || s.writer == 1
  {
  }

  // lbs_rwlock_unlock: one hold is given back, a read hold when the flag is clear; the last write hold
  // clears the flag and frees the section.
  lemma UnlockCall(s: State, t: Tid)
    requires Inv(s) && t in s.pcs && s.pcs[t] == Outside && (s.readHolds[t] > 0 || s.writeHolds[t] > 0)
    ensures s.readHolds[t] > 0 ==>
      Leads(s, t, Back(s.(reader := s.reader - 1, readHolds := s.readHolds - multiset{t}), t, 0))
    ensures s.writeHolds[t] == 1 ==>
      Leads(s, t, Back(s.(owner := Nobody, depth := 0, writer := 0, writeHolds := s.writeHolds - multiset{t}), t, 0))
    ensures s.writeHolds[t] > 1 ==>
      Leads(s, t, Back(s.(depth := s.depth - 1, writeHolds := s.writeHolds - multiset{t}), t, 0))
  {
    hide Leads, Inv;
    HolderFlag(s, t);
    hide Move, CanMove, Back;
    if s.readHolds[t] > 0 {
      UnlockRead(s, t);
    } else {
      UnlockWrite(s, t);
    }
  }

  lemma UnlockRead(s: State, t: Tid)
    requires t in s.pcs && s.pcs[t] == Outside && s.readHolds[t] > 0 && s.writer == 0
    ensures Leads(s, t, Back(s.(reader := s.reader - 1, readHolds := s.readHolds - multiset{t}), t, 0))
  {
    hide Leads;
    LeadsOne(s, t, Unlock);
    var s1 := Move(s, t, Unlock);
    LeadsMore(s, t, s1, Unlock);
    var s2 := Move(s1, t, Unlock);
    LeadsMore(s, t, s2, Unlock);
    assert Move(s2, t, Unlock) == Back(s.(reader := s.reader - 1, readHolds := s.readHolds - multiset{t}), t, 0);
  }

  lemma UnlockWrite(s: State, t: Tid)
    requires t in s.pcs && s.pcs[t] == Outside && s.writeHolds[t] > 0 && s.writer == 1
    requires s.depth == s.writeHolds[t] && s.owner == Thread(t)
    ensures s.depth == 1 ==>
      Leads(s, t, Back(s.(owner := Nobody, depth := 0, writer := 0, writeHolds := s.writeHolds - multiset{t}), t, 0))
    ensures s.depth > 1 ==>
      Leads(s, t, Back(s.(depth := s.depth - 1, writeHolds := s.writeHolds - multiset{t}), t, 0))
  {
    hide Leads;
    LeadsOne(s, t, Unlock);
    var s1 := Move(s, t, Unlock);
    LeadsMore(s, t, s1, Unlock);
    assert Move(s1, t, Unlock) == Goto(s, t, UnlockCount);
    LeadsMore(s, t, Goto(s, t, UnlockCount), Unlock);
    if s.depth == 1 {
      assert Move(Goto(s, t, UnlockCount), t, Unlock) == Goto(s, t, UnlockClear);
      UnlockLast(s, t);
    } else {
      assert Move(Goto(s, t, UnlockCount), t, Unlock) == Goto(s, t, UnlockLeave);
      UnlockInner(s, t);
    }
  }

  lemma UnlockLast(s: State, t: Tid)
    requires t in s.pcs && s.depth == 1 && Leads(s, t, Goto(s, t, UnlockClear))
    ensures
      Leads(s, t, Back(s.(owner := Nobody, depth := 0, writer := 0, writeHolds := s.writeHolds - multiset{t}), t, 0))
  {
    hide Leads;
    LeadsMore(s, t, Goto(s, t, UnlockClear), Unlock);
    var s1 := Move(Goto(s, t, UnlockClear), t, Unlock);
    LeadsMore(s, t, s1, Unlock);
    assert Move(s1, t, Unlock)
      == Back(s.(owner := Nobody, depth := 0, writer := 0, writeHolds := s.writeHolds - multiset{t}), t, 0);
  }

  lemma UnlockInner(s: State, t: Tid)
    requires t in s.pcs && s.depth > 1 && Leads(s, t, Goto(s, t, UnlockLeave))
    ensures Leads(s, t, Back(s.(depth := s.depth - 1, writeHolds := s.writeHolds - multiset{t}), t, 0))
  {
    hide Leads;
    LeadsMore(s, t, Goto(s, t, UnlockLeave), Unlock);
    assert Move(Goto(s, t, UnlockLeave), t, Unlock)
      == Back(s.(depth := s.depth - 1, writeHolds := s.writeHolds - multiset{t}), t, 0);
  }

  lemma HolderFlag(s: State, t: Tid)
    requires Inv(s) && t in s.pcs && s.pcs[t] == Outside && (s.readHolds[t] > 0 || s.writeHolds[t] > 0)
    ensures s.readHolds[t] > 0 ==> s.writer == 0 && s.writeHolds[t] == 0
    ensures s.writeHolds[t] > 0 ==> s.writer == 1 && s.depth == s.writeHolds[t] && s.owner == Thread(t)
  {
    assert s.readHolds[t] > 0 ==> t in s.readHolds;
    assert s.writeHolds[t] > 0 ==> t in s.writeHolds;
  }

  // Where a call for a read lock stands that began its test in state a.
  ghost predicate Answering(a: State, s: State, t: Tid)
  {
    && t in a.pcs && t in s.pcs && s.writer == a.writer && s.owner == Thread(t)
    && var more := if a.writer == 0 then multiset{t} else multiset{};
    match s.pcs[t]
    case ReadTest => s.readHolds[t] == a.readHolds[t]
    case ReadAdd => a.writer == 0 && s.readHolds[t] == a.readHolds[t]
    case ReadLeave(code) => s.readHolds[t] == a.readHolds[t] + more[t] && code == if a.writer == 0 then 0 else 1
    case _ => false
  }

  ghost predicate Answered(a: State, s: State, t: Tid)
  {
    && t in s.pcs && s.pcs[t] == Outside && t in s.codes
    && s.codes[t] == (if a.writer == 0 then 0 else 1)
    && s.readHolds[t] == a.readHolds[t] + if a.writer == 0 then 1 else 0
  }

  lemma AnswerStep(a: State, s: State, t: Tid, u: Tid, call: Call)
    requires Inv(s) && CanMove(s, u, call) && Answering(a, s, t)
    ensures var s' := Move(s, u, call); Answering(a, s', t) || (t == u && Answered(a, s', t))
  {
    hide Inv;
    if t == u {
      OwnAnswer(a, s, t, call);
    } else {
      WriterAlso(s, u);
      MoverInside(s, u);
      OthersKeep(s, u, call, t);
    }
  }

  lemma OwnAnswer(a: State, s: State, t: Tid, call: Call)
    requires CanMove(s, t, call) && Answering(a, s, t)
    ensures var s' := Move(s, t, call); Answering(a, s', t) || Answered(a, s', t)
  {
  }

  // While t owns the section, no other thread changes the flag, the owner, or the holds of t.
  lemma OthersKeep(s: State, u: Tid, call: Call, t: Tid)
    requires CanMove(s, u, call) && s.owner == Thread(t) && t != u && t in s.pcs && !Entered(s.pcs[u])
    requires s.pcs[u] != UnlockCount && s.pcs[u] != UnlockClear && s.pcs[u] != UnlockLeave
    ensures var s' := Move(s, u, call);
      && t in s'.pcs && s'.pcs[t] == s.pcs[t] && s'.writer == s.writer && s'.owner == s.owner
      && s'.readHolds[t] == s.readHolds[t]
  {
  }

  lemma WriterAlso(s: State, u: Tid)
    requires Inv(s) && u in s.pcs
    ensures s.writeHolds[u] > 0 ==> s.owner == Thread(u)
  {
    assert s.writeHolds[u] > 0 ==> u in s.writeHolds;
  }

  // Whatever the other threads do meanwhile, the flag at the test decides about a read lock.
  lemma {:induction false} ReadAnswer(ss: seq<State>, turns: seq<Turn>, i: nat, j: nat, t: Tid)
    requires Run(ss, turns) && i < j < |ss| && t in ss[i].pcs && ss[i].pcs[t] == ReadTest
    requires forall k :: i < k < j ==> t in ss[k].pcs && ss[k].pcs[t] != Outside
    ensures Answering(ss[i], ss[j], t) || Answered(ss[i], ss[j], t)
    decreases j
  {
    hide Inv, Move, CanMove, Init;
    RunInv(ss, turns, j - 1);
    if j == i + 1 {
      MoverInside(ss[i], t);
    } else {
      ReadAnswer(ss, turns, i, j - 1, t);
    }
    hide Answering, Answered;
    AnswerStep(ss[i], ss[j - 1], t, turns[j - 1].t, turns[j - 1].call);
  }

  // Two threads can hold the lock for reading.
  lemma TwoReaders() returns (s: State)
    ensures Reached(s) && s.reader == 2 && s.readHolds == multiset{0, 1} && s.codes == map[0 := 0, 1 := 0]
  {
    hide Reached;
    s := OneReader();
    s := Next(s, 1, Rlock);
    s := Next(s, 1, Rlock);
    s := Next(s, 1, Rlock);
    s := Next(s, 1, Rlock);
    s := Next(s, 1, Rlock);
  }

  // A writer that locks again gets another hold at once, and is refused a read lock.
  lemma WriterReenters(s: State, t: Tid, call: Call)
    requires Inv(s) && t in s.pcs && s.writeHolds[t] > 0
    ensures s.writer == 1 || s.pcs[t] == UnlockLeave
    ensures s.pcs[t] == WriteTest ==>
      var s' := Move(s, t, call);
      && s'.pcs[t] == Outside && s'.codes[t] == 0
      && s'.writeHolds[t] == s.writeHolds[t] + 1 && s'.depth == s'.writeHolds[t]
    ensures s.pcs[t] == ReadTest ==> Move(s, t, call).pcs[t] == ReadLeave(1)
  {
    assert t in s.writeHolds;
  }

  // The loop ends at the first look after the last reader is gone.
  lemma WriterGetsIn(s: State, t: Tid, c: Call, d: Call)
    requires Inv(s) && t in s.pcs && s.pcs[t] == WriteWait
    ensures var s1 := Move(s, t, c);
      && (s.reader == 0 <==> s1.pcs[t] == WriteTake)
      && (s.reader == 0 ==>
            var s2 := Move(s1, t, d); s2.writer == 1 && s2.writeHolds == multiset{t} && s2.readHolds == multiset{})
  {
    assert PcOk(s, t);
    assert forall u <- s.writeHolds :: s.owner == Thread(u);
    assert s.writeHolds == multiset{};
  }
}
