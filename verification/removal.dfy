/** The dispatch and removal protocol of `EventQueue` (src/eventqueue.cpp) as a transition
    system: `m_mutexObservers`, `m_mutexDispatches`, `m_activeDispatches`, `m_cvDispatches`
    and the thread-local `tl_inDispatch`. Any number of threads call `Dispatch`,
    `AddObserver`, `RemoveObserver`, `RemoveObserverById` and `Post`; a running handler may
    call all of them but `Dispatch`. Each lock, unlock and shared access is one step. */
module Removal {
  import opened Observers

  datatype Lock = Free | HeldBy(t: nat)

  /** Where a thread is in `Dispatch`; `snap` is its copy of the descriptors. */
  datatype Disp =
    | NoDispatch
    | DLockObservers(topic: int)
    | DSnapshot(topic: int)
    | DLockActive(snap: seq<Descriptor>)
    | DIncrement(snap: seq<Descriptor>)
    | DUnlockActive(snap: seq<Descriptor>)
    | DSetFlag(snap: seq<Descriptor>)
    | DUnlockObservers(snap: seq<Descriptor>)
    | DLoop(snap: seq<Descriptor>, k: nat)
    | DHandler(snap: seq<Descriptor>, k: nat)
    | DClearFlag
    | DLockDone
    | DDecrement
    | DNotify
    | DUnlockDone
    | DCleanup

  /** Where a thread is in another call, made from outside or from a running handler.
      `erased` are the ids this removal took out. */
  datatype Op =
    | NoOp
    | AddFetchId(topic: int, observer: Descriptor)
    | AddLock(topic: int, observer: Descriptor)
    | AddPush(topic: int, observer: Descriptor)
    | AddUnlock
    | RemLock(topic: int, m: Match)
    | RemErase(topic: int, m: Match)
    | RemUnlock(erased: set<nat>)
    | RemCheckFlag(erased: set<nat>)
    | RemLockWait(erased: set<nat>)
    | RemTest(erased: set<nat>)
    | RemParked(erased: set<nat>)
    | RemUnlockWait(erased: set<nat>)
    | PostPush(message: int)

  datatype Thread = Thread(disp: Disp, op: Op, inDispatch: bool)

  /** What became of an observer id. */
  datatype Fate = Pending(t: nat) | Registered(topic: int) | Gone

  /** `parked` are the threads waiting un-notified on the condition variable. History:
      `counted` are the threads between activation and completion, `fate` says what became of
      each id, `retired` are the ids whose removal returned after its wait. */
  datatype State = State(
    observers: map<int, seq<Descriptor>>,
    nextId: nat,
    obsLock: Lock,
    dispLock: Lock,
    active: int,
    parked: set<nat>,
    messages: seq<int>,
    threads: map<nat, Thread>,
    fate: map<nat, Fate>,
    counted: set<nat>,
    retired: set<nat>)

  datatype Call =
    | Dispatch(topic: int)
    | Add(topic: int, observer: Descriptor)
    | Remove(topic: int, m: Match)
    | Post(message: int)

  /** `spurious` lets a parked thread wake up without a notification. */
  datatype Action = Begin(t: nat, call: Call) | Step(t: nat, spurious: bool)

  // ----- the steps -----

  function Put(s: State, t: nat, th: Thread): State {
    s.(threads := s.threads[t := th])
  }

  function At(s: State, t: nat, d: Disp): State
    requires t in s.threads
  {
    Put(s, t, s.threads[t].(disp := d))
  }

  function SetOp(s: State, t: nat, o: Op): State
    requires t in s.threads
  {
    Put(s, t, s.threads[t].(op := o))
  }

  function ObserversOf(s: State, topic: int): seq<Descriptor> {
    if topic in s.observers then s.observers[topic] else []
  }

  function DispatchStep(s: State, t: nat, d: Disp): (s': State)
    requires t in s.threads
    ensures t in s'.threads
  {
    match d
    case NoDispatch => s
    case DLockObservers(topic) => if s.obsLock == Free then At(s, t, DSnapshot(topic)).(obsLock := HeldBy(t)) else s
    case DSnapshot(topic) => At(s, t, DLockActive(ObserversOf(s, topic)))
    case DLockActive(snap) => if s.dispLock == Free then At(s, t, DIncrement(snap)).(dispLock := HeldBy(t)) else s
    case DIncrement(snap) =>
      At(s, t, DUnlockActive(snap)).(active := s.active + 1, counted := s.counted + {t})
    case DUnlockActive(snap) => At(s, t, DSetFlag(snap)).(dispLock := Free)
    case DSetFlag(snap) => Put(s, t, s.threads[t].(disp := DUnlockObservers(snap), inDispatch := true))
    case DUnlockObservers(snap) => At(s, t, DLoop(snap, 0)).(obsLock := Free)
    case DLoop(snap, k) => At(s, t, if k < |snap| then DHandler(snap, k) else DClearFlag)
    case DHandler(snap, k) => At(s, t, DLoop(snap, k + 1))
    case DClearFlag => Put(s, t, s.threads[t].(disp := DLockDone, inDispatch := false))
    case DLockDone => if s.dispLock == Free then At(s, t, DDecrement).(dispLock := HeldBy(t)) else s
    case DDecrement =>
      At(s, t, if s.active - 1 == 0 then DNotify else DUnlockDone).(
        active := s.active - 1, counted := s.counted - {t})
    case DNotify => At(s, t, DUnlockDone).(parked := {})
    case DUnlockDone => At(s, t, DCleanup).(dispLock := Free)
    case DCleanup => At(s, t, NoDispatch)
  }

  /** The ids taken out of a vector by the removal loop. */
  function ErasedIds(ds: seq<Descriptor>, m: Match): set<nat> {
    Ids(ds) - Ids(Erase(ds, m))
  }

  function EraseAt(s: State, t: nat, topic: int, m: Match): State
    requires t in s.threads
  {
    var ds := ObserversOf(s, topic);
    var gone := ErasedIds(ds, m);
    SetOp(s, t, RemUnlock(gone)).(
      observers := if topic in s.observers then s.observers[topic := Erase(ds, m)] else s.observers,
      fate := map id | id in s.fate :: if id in gone then Gone else s.fate[id])
  }

  function PushAt(s: State, t: nat, topic: int, d: Descriptor): State
    requires t in s.threads
  {
    SetOp(s, t, AddUnlock).(
      observers := s.observers[topic := ObserversOf(s, topic) + [d]], fate := s.fate[d.id := Registered(topic)])
  }

  function OpStep(s: State, t: nat, o: Op, spurious: bool): (s': State)
    requires t in s.threads
    ensures t in s'.threads
  {
    match o
    case NoOp => s
    case AddFetchId(topic, d) =>
      if topic < 0 then SetOp(s, t, NoOp)
      else SetOp(s, t, AddLock(topic, d.(id := s.nextId))).(
             nextId := s.nextId + 1, fate := s.fate[s.nextId := Pending(t)])
    case AddLock(topic, d) => if s.obsLock == Free then SetOp(s, t, AddPush(topic, d)).(obsLock := HeldBy(t)) else s
    case AddPush(topic, d) => PushAt(s, t, topic, d)
    case AddUnlock => SetOp(s, t, NoOp).(obsLock := Free)
    case RemLock(topic, m) =>
      if m == ById(0) then SetOp(s, t, NoOp)
      else if s.obsLock == Free then SetOp(s, t, RemErase(topic, m)).(obsLock := HeldBy(t)) else s
    case RemErase(topic, m) => EraseAt(s, t, topic, m)
    case RemUnlock(e) => SetOp(s, t, RemCheckFlag(e)).(obsLock := Free)
    case RemCheckFlag(e) =>
      if s.threads[t].inDispatch then SetOp(s, t, NoOp) else SetOp(s, t, RemLockWait(e))
    case RemLockWait(e) => if s.dispLock == Free then SetOp(s, t, RemTest(e)).(dispLock := HeldBy(t)) else s
    case RemTest(e) =>
      if s.active == 0 then SetOp(s, t, RemUnlockWait(e))
      else SetOp(s, t, RemParked(e)).(dispLock := Free, parked := s.parked + {t})
    case RemParked(e) =>
      if (t !in s.parked || spurious) && s.dispLock == Free then
        SetOp(s, t, RemTest(e)).(dispLock := HeldBy(t), parked := s.parked - {t})
      else s
    case RemUnlockWait(e) => SetOp(s, t, NoOp).(dispLock := Free, retired := s.retired + e)
    case PostPush(m) => SetOp(s, t, NoOp).(messages := s.messages + [m])
  }

  function Begun(s: State, t: nat, call: Call): State
    requires t in s.threads
  {
    match call
    case Dispatch(topic) => At(s, t, DLockObservers(topic))
    case Add(topic, d) => SetOp(s, t, AddFetchId(topic, d))
    case Remove(topic, m) => SetOp(s, t, RemLock(topic, m))
    case Post(m) => SetOp(s, t, PostPush(m))
  }

  /** A thread may begin a call when it is in none, or in a handler (no nested `Dispatch`). */
  predicate MayBegin(th: Thread, call: Call) {
    th.op == NoOp && (th.disp == NoDispatch || (th.disp.DHandler? && !call.Dispatch?))
  }

  /** One action; an action that is not enabled changes nothing. A thread at `DHandler`
      with no other call running returns from that handler. */
  function Exec(s: State, a: Action): State {
    if a.t !in s.threads then s else
    var th := s.threads[a.t];
    match a
    case Begin(t, call) => if MayBegin(th, call) then Begun(s, t, call) else s
    case Step(t, spurious) => if th.op != NoOp then OpStep(s, t, th.op, spurious) else DispatchStep(s, t, th.disp)
  }

  function Run(s: State, acts: seq<Action>): State
    decreases |acts|
  {
    if acts == [] then s else Exec(Run(s, acts[..|acts| - 1]), acts[|acts| - 1])
  }

  function Init(tids: set<nat>): State {
    State(map[], 1, Free, Free, 0, {}, [], map t | t in tids :: Thread(NoDispatch, NoOp, false), map[], {}, {})
  }

  function After(tids: set<nat>, acts: seq<Action>): State {
    Run(Init(tids), acts)
  }

  // ----- the invariant -----

  predicate HoldsObservers(th: Thread) {
    || th.disp.DSnapshot? || th.disp.DLockActive? || th.disp.DIncrement? || th.disp.DUnlockActive?
    || th.disp.DSetFlag? || th.disp.DUnlockObservers?
    || th.op.AddPush? || th.op.AddUnlock? || th.op.RemErase? || th.op.RemUnlock?
  }

  predicate HoldsDispatches(th: Thread) {
    || th.disp.DIncrement? || th.disp.DUnlockActive? || th.disp.DDecrement? || th.disp.DNotify? || th.disp.DUnlockDone?
    || th.op.RemTest? || th.op.RemUnlockWait?
  }

  /** Between activation and completion. */
  predicate Counted(d: Disp) {
    || d.DUnlockActive? || d.DSetFlag? || d.DUnlockObservers? || d.DLoop? || d.DHandler?
    || d.DClearFlag? || d.DLockDone? || d.DDecrement?
  }

  predicate InLoop(d: Disp) {
    d.DUnlockObservers? || d.DLoop? || d.DHandler? || d.DClearFlag?
  }

  predicate Waits(o: Op) {
    o.RemLockWait? || o.RemTest? || o.RemParked? || o.RemUnlockWait?
  }

  predicate HasSnapshot(d: Disp) {
    || d.DLockActive? || d.DIncrement? || d.DUnlockActive? || d.DSetFlag? || d.DUnlockObservers?
    || d.DLoop? || d.DHandler?
  }

  predicate HasErased(o: Op) {
    o.RemUnlock? || o.RemCheckFlag? || Waits(o)
  }

  /** The lock discipline, the counter and the flag, for one thread. */
  predicate ControlOk(s: State, t: nat, th: Thread) {
    && (HoldsObservers(th) <==> s.obsLock == HeldBy(t))
    && (HoldsDispatches(th) <==> s.dispLock == HeldBy(t))
    && (Counted(th.disp) <==> t in s.counted)
    && (th.inDispatch <==> InLoop(th.disp))
    && (th.op != NoOp ==> th.disp == NoDispatch || th.disp.DHandler?)
    && (Waits(th.op) ==> !th.inDispatch)
    && (t in s.parked ==> th.op.RemParked?)
    && (th.op.RemUnlockWait? ==> s.active == 0)
    && (th.disp.DNotify? ==> s.active == 0)
    && (th.disp.DLoop? ==> th.disp.k <= |th.disp.snap|)
    && (th.disp.DHandler? ==> th.disp.k < |th.disp.snap|)
  }

  predicate IsGone(fate: map<nat, Fate>, id: nat) {
    id in fate && fate[id] == Gone
  }

  predicate IsRegistered(fate: map<nat, Fate>, id: nat) {
    id in fate && fate[id].Registered?
  }

  ghost predicate AllGone(fate: map<nat, Fate>, ids: set<nat>) {
    forall id :: id in ids ==> IsGone(fate, id)
  }

  ghost predicate AllRegistered(fate: map<nat, Fate>, snap: seq<Descriptor>) {
    forall i :: 0 <= i < |snap| ==> IsRegistered(fate, snap[i].id)
  }

  ghost predicate NoneOf(ids: set<nat>, snap: seq<Descriptor>) {
    forall i :: 0 <= i < |snap| ==> snap[i].id !in ids
  }

  /** The ids a thread works with. A snapshot that is not activated yet is still wholly
      registered: that is what taking it and activating it under one lock buys. */
  ghost predicate IdsOk(fate: map<nat, Fate>, retired: set<nat>, t: nat, th: Thread) {
    && (HasErased(th.op) ==> AllGone(fate, th.op.erased))
    && (HasSnapshot(th.disp) ==> NoneOf(retired, th.disp.snap))
    && (th.disp.DLockActive? || th.disp.DIncrement? ==> AllRegistered(fate, th.disp.snap))
    && (th.op.AddLock? || th.op.AddPush? ==> th.op.observer.id in fate && fate[th.op.observer.id] == Pending(t))
  }

  /** One topic's vector: registered ids, no duplicates. */
  ghost predicate VectorOk(fate: map<nat, Fate>, topic: int, ds: seq<Descriptor>) {
    && DistinctIds(ds)
    && forall i :: 0 <= i < |ds| ==> ds[i].id in fate && fate[ds[i].id] == Registered(topic)
  }

  ghost predicate Registry(s: State) {
    && (forall topic :: topic in s.observers ==> VectorOk(s.fate, topic, s.observers[topic]))
    && (forall id :: id in s.fate ==> id < s.nextId)
    && AllGone(s.fate, s.retired)
  }

  /** Each lock is held by one of the threads, and the counter is the number of threads
      between activation and completion; a parked thread waits for one of them. */
  predicate Shared(s: State) {
    && (s.obsLock.HeldBy? ==> s.obsLock.t in s.threads)
    && (s.dispLock.HeldBy? ==> s.dispLock.t in s.threads)
    && s.active == |s.counted|
    && (forall t :: t in s.counted ==> t in s.threads)
    && (forall t :: t in s.parked ==> t in s.threads)
    && (s.parked != {} ==> s.active > 0 || (s.dispLock.HeldBy? && s.threads[s.dispLock.t].disp.DNotify?))
  }

  ghost predicate Control(s: State) {
    forall t :: t in s.threads ==> ControlOk(s, t, s.threads[t])
  }

  ghost predicate AllIds(s: State) {
    forall t :: t in s.threads ==> IdsOk(s.fate, s.retired, t, s.threads[t])
  }

  ghost predicate Inv(s: State) {
    Shared(s) && Control(s) && AllIds(s) && Registry(s)
  }

  // ----- preservation: locks, counter, flag -----

  predicate LockMoves(l: Lock, l': Lock, t: nat) {
    l' == l || (l == Free && l' == HeldBy(t)) || (l == HeldBy(t) && l' == Free)
  }

  /** What a step of thread t may do to the shared state the other threads look at. */
  predicate ControlFrame(s: State, s': State, t: nat) {
    && t in s.threads && t in s'.threads && s'.threads == s.threads[t := s'.threads[t]]
    && LockMoves(s.obsLock, s'.obsLock, t) && LockMoves(s.dispLock, s'.dispLock, t)
    && s'.counted - {t} == s.counted - {t} && s'.parked <= s.parked + {t}
    && (s'.active == s.active || s.dispLock == HeldBy(t))
  }

  lemma OthersControl(s: State, s': State, t: nat, u: nat, th: Thread)
    requires ControlFrame(s, s', t) && u != t && ControlOk(s, u, th)
    ensures ControlOk(s', u, th)
  {
    assert u in s.counted <==> u in s.counted - {t};
    assert u in s'.counted <==> u in s'.counted - {t};
  }

  lemma ControlAfter(s: State, s': State, t: nat)
    requires Control(s) && ControlFrame(s, s', t) && ControlOk(s', t, s'.threads[t])
    ensures Control(s')
  {
    forall u | u in s'.threads ensures ControlOk(s', u, s'.threads[u]) {
      if u != t { OthersControl(s, s', t, u, s.threads[u]); }
    }
  }

  /** The locking steps, the counting steps and the rest of `Dispatch`. */
  predicate EntersOrLeaves(d: Disp) {
    d.DLockObservers? || d.DLockActive? || d.DUnlockActive? || d.DUnlockObservers? || d.DLockDone? || d.DUnlockDone?
  }

  predicate Counts(d: Disp) {
    d.DIncrement? || d.DDecrement? || d.DNotify?
  }

  lemma LockStepFrame(s: State, t: nat, d: Disp)
    requires t in s.threads && s.threads[t].op == NoOp && s.threads[t].disp == d && ControlOk(s, t, s.threads[t])
    requires EntersOrLeaves(d) && DispatchStep(s, t, d) != s
    ensures var s' := DispatchStep(s, t, d); ControlFrame(s, s', t) && ControlOk(s', t, s'.threads[t])
  {
  }

  lemma CountStepFrame(s: State, t: nat, d: Disp)
    requires t in s.threads && s.threads[t].op == NoOp && s.threads[t].disp == d && ControlOk(s, t, s.threads[t])
    requires Counts(d)
    ensures var s' := DispatchStep(s, t, d); ControlFrame(s, s', t) && ControlOk(s', t, s'.threads[t])
  {
  }

  lemma LocalStepFrame(s: State, t: nat, d: Disp)
    requires t in s.threads && s.threads[t].op == NoOp && s.threads[t].disp == d && ControlOk(s, t, s.threads[t])
    requires !EntersOrLeaves(d) && !Counts(d)
    ensures var s' := DispatchStep(s, t, d); ControlFrame(s, s', t) && ControlOk(s', t, s'.threads[t])
  {
  }

  lemma DispatchStepControl(s: State, t: nat)
    requires Control(s) && t in s.threads && s.threads[t].op == NoOp
    ensures Control(DispatchStep(s, t, s.threads[t].disp))
  {
    var d := s.threads[t].disp;
    if DispatchStep(s, t, d) != s {
      if EntersOrLeaves(d) {
        LockStepFrame(s, t, d);
      } else if Counts(d) {
        CountStepFrame(s, t, d);
      } else {
        LocalStepFrame(s, t, d);
      }
      ControlAfter(s, DispatchStep(s, t, d), t);
    }
  }

  predicate Adds(o: Op) {
    o.AddFetchId? || o.AddLock? || o.AddPush? || o.AddUnlock? || o.PostPush?
  }

  predicate Removes(o: Op) {
    o.RemLock? || o.RemErase? || o.RemUnlock? || o.RemCheckFlag?
  }

  lemma AddStepFrame(s: State, t: nat, o: Op)
    requires t in s.threads && s.threads[t].op == o && ControlOk(s, t, s.threads[t])
    requires Adds(o) && OpStep(s, t, o, false) != s
    ensures var s' := OpStep(s, t, o, false); ControlFrame(s, s', t) && ControlOk(s', t, s'.threads[t])
  {
  }

  lemma RemoveStepFrame(s: State, t: nat, o: Op)
    requires t in s.threads && s.threads[t].op == o && ControlOk(s, t, s.threads[t])
    requires Removes(o) && OpStep(s, t, o, false) != s
    ensures var s' := OpStep(s, t, o, false); ControlFrame(s, s', t) && ControlOk(s', t, s'.threads[t])
  {
  }

  lemma WaitStepFrame(s: State, t: nat, o: Op, spurious: bool)
    requires t in s.threads && s.threads[t].op == o && ControlOk(s, t, s.threads[t])
    requires Waits(o) && OpStep(s, t, o, spurious) != s
    ensures var s' := OpStep(s, t, o, spurious); ControlFrame(s, s', t) && ControlOk(s', t, s'.threads[t])
  {
  }

  lemma OpStepControl(s: State, t: nat, spurious: bool)
    requires Control(s) && t in s.threads && s.threads[t].op != NoOp
    ensures Control(OpStep(s, t, s.threads[t].op, spurious))
  {
    var o := s.threads[t].op;
    if OpStep(s, t, o, spurious) != s {
      if Adds(o) {
        AddStepFrame(s, t, o);
      } else if Removes(o) {
        RemoveStepFrame(s, t, o);
      } else {
        WaitStepFrame(s, t, o, spurious);
      }
      ControlAfter(s, OpStep(s, t, o, spurious), t);
    }
  }

  /** Steps that leave the counter and the parked threads alone. */
  lemma SharedFrame(s: State, s': State, t: nat)
    requires Shared(s) && ControlFrame(s, s', t)
    requires s'.active == s.active && s'.counted == s.counted && s'.parked == s.parked
    requires !s.threads[t].disp.DNotify?
    ensures Shared(s')
  {
  }

  lemma IncrementShared(s: State, t: nat, snap: seq<Descriptor>)
    requires Shared(s) && t in s.threads && s.threads[t].disp == DIncrement(snap) && ControlOk(s, t, s.threads[t])
    ensures Shared(DispatchStep(s, t, DIncrement(snap)))
  {
    assert |s.counted + {t}| == |s.counted| + 1;
  }

  lemma DecrementShared(s: State, t: nat)
    requires Shared(s) && t in s.threads && s.threads[t].disp == DDecrement && ControlOk(s, t, s.threads[t])
    ensures Shared(DispatchStep(s, t, DDecrement))
  {
    assert s.counted == (s.counted - {t}) + {t};
    assert |s.counted - {t}| == |s.counted| - 1;
  }

  lemma NotifyShared(s: State, t: nat)
    requires Shared(s) && t in s.threads && s.threads[t].disp == DNotify
    ensures Shared(DispatchStep(s, t, DNotify))
  {
  }

  lemma DispatchStepShared(s: State, t: nat)
    requires Shared(s) && t in s.threads && s.threads[t].op == NoOp && ControlOk(s, t, s.threads[t])
    ensures Shared(DispatchStep(s, t, s.threads[t].disp))
  {
    var d := s.threads[t].disp;
    if d.DIncrement? {
      IncrementShared(s, t, d.snap);
    } else if d.DDecrement? {
      DecrementShared(s, t);
    } else if d.DNotify? {
      NotifyShared(s, t);
    } else if DispatchStep(s, t, d) != s {
      PlainDispatchShared(s, t, d);
    }
  }

  lemma PlainDispatchShared(s: State, t: nat, d: Disp)
    requires Shared(s) && t in s.threads && s.threads[t].op == NoOp && ControlOk(s, t, s.threads[t])
    requires s.threads[t].disp == d && !Counts(d) && DispatchStep(s, t, d) != s
    ensures Shared(DispatchStep(s, t, d))
  {
    if EntersOrLeaves(d) { LockStepFrame(s, t, d); } else { LocalStepFrame(s, t, d); }
    var s' := DispatchStep(s, t, d);
    assert s'.active == s.active && s'.counted == s.counted && s'.parked == s.parked;
    SharedFrame(s, s', t);
  }

  lemma ParkShared(s: State, t: nat, e: set<nat>)
    requires Shared(s) && t in s.threads && s.threads[t].op == RemTest(e) && s.active != 0
    ensures Shared(OpStep(s, t, RemTest(e), false))
  {
  }

  lemma WaitStepShared(s: State, t: nat, o: Op, spurious: bool)
    requires Shared(s) && t in s.threads && s.threads[t].op == o && ControlOk(s, t, s.threads[t])
    requires Waits(o) && !o.RemParked? && !(o.RemTest? && s.active != 0) && OpStep(s, t, o, spurious) != s
    ensures Shared(OpStep(s, t, o, spurious))
  {
    WaitStepFrame(s, t, o, spurious);
    SharedFrame(s, OpStep(s, t, o, spurious), t);
  }

  lemma OpStepShared(s: State, t: nat, spurious: bool)
    requires Shared(s) && t in s.threads && s.threads[t].op != NoOp && ControlOk(s, t, s.threads[t])
    ensures Shared(OpStep(s, t, s.threads[t].op, spurious))
  {
    var o := s.threads[t].op;
    var s' := OpStep(s, t, o, spurious);
    if s' != s {
      if Adds(o) {
        AddStepFrame(s, t, o);
        SharedFrame(s, s', t);
      } else if Removes(o) {
        RemoveStepFrame(s, t, o);
        SharedFrame(s, s', t);
      } else if o.RemTest? && s.active != 0 {
        ParkShared(s, t, o.erased);
      } else if o.RemParked? {
        WakeShared(s, t, o.erased, spurious);
      } else {
        WaitStepShared(s, t, o, spurious);
      }
    }
  }

  lemma WakeShared(s: State, t: nat, e: set<nat>, spurious: bool)
    requires Shared(s) && t in s.threads && s.threads[t].op == RemParked(e)
    ensures Shared(OpStep(s, t, RemParked(e), spurious))
  {
  }

  // ----- preservation: observer ids -----

  /** The step leaves the registry alone. */
  predicate SameIds(s: State, s': State) {
    s'.observers == s.observers && s'.nextId == s.nextId && s'.fate == s.fate && s'.retired == s.retired
  }

  lemma IdsAfter(s: State, s': State, t: nat)
    requires AllIds(s) && Registry(s) && SameIds(s, s')
    requires t in s.threads && t in s'.threads && s'.threads == s.threads[t := s'.threads[t]]
    requires IdsOk(s'.fate, s'.retired, t, s'.threads[t])
    ensures AllIds(s') && Registry(s')
  {
    forall u | u in s'.threads ensures IdsOk(s'.fate, s'.retired, u, s'.threads[u]) {
      assert u != t ==> IdsOk(s.fate, s.retired, u, s.threads[u]);
    }
  }

  lemma DispatchStepIds(s: State, t: nat, d: Disp)
    requires t in s.threads && s.threads[t].op == NoOp && s.threads[t].disp == d
    requires IdsOk(s.fate, s.retired, t, s.threads[t]) && !d.DSnapshot?
    ensures var s' := DispatchStep(s, t, d);
            && SameIds(s, s') && t in s'.threads && s'.threads == s.threads[t := s'.threads[t]]
            && IdsOk(s'.fate, s'.retired, t, s'.threads[t])
  {
    if HasSnapshot(d) { SnapshotStepIds(s, t, d); }
  }

  lemma SnapshotStepIds(s: State, t: nat, d: Disp)
    requires t in s.threads && s.threads[t].op == NoOp && s.threads[t].disp == d
    requires IdsOk(s.fate, s.retired, t, s.threads[t]) && HasSnapshot(d)
    ensures var s' := DispatchStep(s, t, d);
            && SameIds(s, s') && t in s'.threads && s'.threads == s.threads[t := s'.threads[t]]
            && IdsOk(s'.fate, s'.retired, t, s'.threads[t])
  {
  }

  /** A vector's ids are registered, so none of them is retired. */
  lemma SnapshotIds(s: State, t: nat, topic: int)
    requires AllIds(s) && Registry(s) && t in s.threads && s.threads[t] == Thread(DSnapshot(topic), NoOp, false)
    ensures var s' := DispatchStep(s, t, DSnapshot(topic)); AllIds(s') && Registry(s')
  {
    var snap := ObserversOf(s, topic);
    var s' := DispatchStep(s, t, DSnapshot(topic));
    assert VectorOk(s.fate, topic, snap);
    forall i | 0 <= i < |snap| ensures snap[i].id !in s.retired {
      assert snap[i].id in s.retired ==> IsGone(s.fate, snap[i].id);
    }
    IdsAfter(s, s', t);
  }

  predicate ChangesIds(o: Op) {
    o.AddFetchId? || o.AddPush? || o.RemErase? || o.RemUnlockWait?
  }

  lemma OpStepIds(s: State, t: nat, o: Op, spurious: bool)
    requires t in s.threads && s.threads[t].op == o && o != NoOp && !ChangesIds(o)
    requires IdsOk(s.fate, s.retired, t, s.threads[t])
    ensures var s' := OpStep(s, t, o, spurious);
            && SameIds(s, s') && t in s'.threads && s'.threads == s.threads[t := s'.threads[t]]
            && IdsOk(s'.fate, s'.retired, t, s'.threads[t])
  {
    if HasErased(o) { ErasedStepIds(s, t, o, spurious); }
  }

  lemma ErasedStepIds(s: State, t: nat, o: Op, spurious: bool)
    requires t in s.threads && s.threads[t].op == o && HasErased(o) && !ChangesIds(o)
    requires IdsOk(s.fate, s.retired, t, s.threads[t])
    ensures var s' := OpStep(s, t, o, spurious);
            && SameIds(s, s') && t in s'.threads && s'.threads == s.threads[t := s'.threads[t]]
            && IdsOk(s'.fate, s'.retired, t, s'.threads[t])
  {
  }

  /** What happens to the ids of the other threads when the fates of some ids move on:
      gone stays gone, and nothing a thread is pending on or has just copied is touched. */
  predicate FateMoves(fate: map<nat, Fate>, fate': map<nat, Fate>, t: nat, erasing: bool) {
    forall id :: id in fate ==>
      id in fate' &&
      (fate'[id] == fate[id] || fate[id] == Pending(t) || (erasing && fate[id].Registered? && fate'[id] == Gone))
  }

  lemma OthersIds(fate: map<nat, Fate>, fate': map<nat, Fate>, retired: set<nat>, t: nat, erasing: bool,
                  u: nat, th: Thread)
    requires FateMoves(fate, fate', t, erasing) && u != t && IdsOk(fate, retired, u, th)
    requires erasing ==> !th.disp.DLockActive? && !th.disp.DIncrement?
    ensures IdsOk(fate', retired, u, th)
  {
    if HasErased(th.op) {
      forall id | id in th.op.erased ensures IsGone(fate', id) { assert IsGone(fate, id); }
    }
    if th.disp.DLockActive? || th.disp.DIncrement? {
      forall i | 0 <= i < |th.disp.snap| ensures IsRegistered(fate', th.disp.snap[i].id) {
        assert IsRegistered(fate, th.disp.snap[i].id);
      }
    }
  }

  lemma FetchIds(s: State, t: nat, topic: int, d: Descriptor)
    requires AllIds(s) && Registry(s) && t in s.threads && s.threads[t].op == AddFetchId(topic, d)
    requires s.threads[t].disp == NoDispatch || s.threads[t].disp.DHandler?
    ensures var s' := OpStep(s, t, AddFetchId(topic, d), false); AllIds(s') && Registry(s')
  {
    var s' := OpStep(s, t, AddFetchId(topic, d), false);
    assert s.nextId !in s.fate;
    assert FateMoves(s.fate, s'.fate, t, false);
    forall u | u in s'.threads ensures IdsOk(s'.fate, s'.retired, u, s'.threads[u]) {
      assert IdsOk(s.fate, s.retired, u, s.threads[u]);
      if u != t { OthersIds(s.fate, s'.fate, s.retired, t, false, u, s.threads[u]); }
    }
    forall q | q in s'.observers ensures VectorOk(s'.fate, q, s'.observers[q]) {
      assert VectorOk(s.fate, q, s.observers[q]);
    }
    forall id | id in s'.retired ensures IsGone(s'.fate, id) { assert IsGone(s.fate, id); }
  }

  lemma PushIds(s: State, t: nat, topic: int, d: Descriptor)
    requires AllIds(s) && Registry(s) && t in s.threads && s.threads[t].op == AddPush(topic, d)
    requires s.threads[t].disp == NoDispatch || s.threads[t].disp.DHandler?
    ensures var s' := PushAt(s, t, topic, d); AllIds(s') && Registry(s')
  {
    var s' := PushAt(s, t, topic, d);
    assert IdsOk(s.fate, s.retired, t, s.threads[t]);
    assert FateMoves(s.fate, s'.fate, t, false);
    forall u | u in s'.threads ensures IdsOk(s'.fate, s'.retired, u, s'.threads[u]) {
      assert IdsOk(s.fate, s.retired, u, s.threads[u]);
      if u != t { OthersIds(s.fate, s'.fate, s.retired, t, false, u, s.threads[u]); }
    }
    forall q | q in s'.observers ensures VectorOk(s'.fate, q, s'.observers[q]) {
      assert q in s.observers ==> VectorOk(s.fate, q, s.observers[q]);
    }
    forall id | id in s'.retired ensures IsGone(s'.fate, id) { assert IsGone(s.fate, id); }
  }

  lemma EraseVector(s: State, t: nat, topic: int, m: Match)
    requires Registry(s) && t in s.threads && topic in s.observers
    ensures var ds := s.observers[topic];
            var s' := EraseAt(s, t, topic, m);
            && FateMoves(s.fate, s'.fate, t, true) && AllGone(s'.fate, ErasedIds(ds, m))
            && VectorOk(s'.fate, topic, Erase(ds, m))
  {
    var ds := s.observers[topic];
    var e := Erase(ds, m);
    var s' := EraseAt(s, t, topic, m);
    assert VectorOk(s.fate, topic, ds);
    EraseKeepsTheRest(ds, m);
    forall i | 0 <= i < |e| ensures e[i].id in s'.fate && s'.fate[e[i].id] == Registered(topic) {
      assert e[i] in ds && e[i].id in Ids(e);
    }
  }

  lemma EraseIds(s: State, t: nat, topic: int, m: Match)
    requires AllIds(s) && Registry(s) && t in s.threads && s.threads[t].op == RemErase(topic, m)
    requires s.threads[t].disp == NoDispatch || s.threads[t].disp.DHandler?
    requires forall u :: u in s.threads && u != t ==> !HoldsObservers(s.threads[u])
    ensures var s' := EraseAt(s, t, topic, m); AllIds(s') && Registry(s')
  {
    var s' := EraseAt(s, t, topic, m);
    if topic in s.observers { EraseVector(s, t, topic, m); }
    assert FateMoves(s.fate, s'.fate, t, true);
    forall u | u in s'.threads ensures IdsOk(s'.fate, s'.retired, u, s'.threads[u]) {
      assert IdsOk(s.fate, s.retired, u, s.threads[u]);
      if u != t { OthersIds(s.fate, s'.fate, s.retired, t, true, u, s.threads[u]); }
    }
    forall q | q in s'.observers && q != topic ensures VectorOk(s'.fate, q, s'.observers[q]) {
      assert VectorOk(s.fate, q, s.observers[q]);
      EraseSparesOtherTopics(s, t, topic, m, q);
    }
    forall id | id in s'.retired ensures IsGone(s'.fate, id) { assert IsGone(s.fate, id); }
  }

  lemma EraseSparesOtherTopics(s: State, t: nat, topic: int, m: Match, q: int)
    requires Registry(s) && t in s.threads && q in s.observers && q != topic
    ensures VectorOk(EraseAt(s, t, topic, m).fate, q, s.observers[q])
  {
    var es := s.observers[q];
    assert VectorOk(s.fate, q, es);
    var ds := ObserversOf(s, topic);
    assert topic in s.observers ==> VectorOk(s.fate, topic, ds);
    forall i | 0 <= i < |es| ensures es[i].id !in ErasedIds(ds, m) {
    }
  }

  /** The heart of the removal contract: when the wait ends, no activated snapshot is left,
      and a snapshot not yet activated cannot contain an erased id. */
  lemma RetireIds(s: State, t: nat, e: set<nat>)
    requires Inv(s) && t in s.threads && s.threads[t].op == RemUnlockWait(e)
    ensures var s' := OpStep(s, t, RemUnlockWait(e), false); AllIds(s') && Registry(s')
  {
    var s' := OpStep(s, t, RemUnlockWait(e), false);
    assert ControlOk(s, t, s.threads[t]) && IdsOk(s.fate, s.retired, t, s.threads[t]);
    assert s.counted == {};
    forall u | u in s'.threads ensures IdsOk(s'.fate, s'.retired, u, s'.threads[u]) {
      var th := s.threads[u];
      assert ControlOk(s, u, th) && IdsOk(s.fate, s.retired, u, th);
      if u != t && HasSnapshot(th.disp) {
        assert !Counted(th.disp);
        forall i | 0 <= i < |th.disp.snap| ensures th.disp.snap[i].id !in e {
          assert IsRegistered(s.fate, th.disp.snap[i].id);
          assert th.disp.snap[i].id in e ==> IsGone(s.fate, th.disp.snap[i].id);
        }
      }
    }
  }

  // ----- every reachable state -----

  lemma DispatchStepKeepsInv(s: State, t: nat)
    requires Inv(s) && t in s.threads && s.threads[t].op == NoOp
    ensures Inv(DispatchStep(s, t, s.threads[t].disp))
  {
    var d := s.threads[t].disp;
    assert ControlOk(s, t, s.threads[t]) && IdsOk(s.fate, s.retired, t, s.threads[t]);
    DispatchStepControl(s, t);
    DispatchStepShared(s, t);
    if d.DSnapshot? {
      SnapshotIds(s, t, d.topic);
    } else {
      DispatchStepIds(s, t, d);
      IdsAfter(s, DispatchStep(s, t, d), t);
    }
  }

  lemma ChangedIds(s: State, t: nat, o: Op)
    requires Inv(s) && t in s.threads && s.threads[t].op == o && ChangesIds(o)
    ensures var s' := OpStep(s, t, o, false); AllIds(s') && Registry(s')
  {
    assert ControlOk(s, t, s.threads[t]);
    match o
    case AddFetchId(topic, d) => FetchIds(s, t, topic, d);
    case AddPush(topic, d) => PushIds(s, t, topic, d);
    case RemErase(topic, m) =>
      forall u | u in s.threads && u != t ensures !HoldsObservers(s.threads[u]) {
        assert ControlOk(s, u, s.threads[u]);
      }
      EraseIds(s, t, topic, m);
    case RemUnlockWait(e) => RetireIds(s, t, e);
  }

  lemma OpStepKeepsInv(s: State, t: nat, spurious: bool)
    requires Inv(s) && t in s.threads && s.threads[t].op != NoOp
    ensures Inv(OpStep(s, t, s.threads[t].op, spurious))
  {
    var o := s.threads[t].op;
    assert ControlOk(s, t, s.threads[t]) && IdsOk(s.fate, s.retired, t, s.threads[t]);
    OpStepControl(s, t, spurious);
    OpStepShared(s, t, spurious);
    if ChangesIds(o) {
      ChangedIds(s, t, o);
      assert OpStep(s, t, o, spurious) == OpStep(s, t, o, false);
    } else {
      OpStepIds(s, t, o, spurious);
      IdsAfter(s, OpStep(s, t, o, spurious), t);
    }
  }

  lemma BeginFrame(s: State, t: nat, call: Call)
    requires t in s.threads && MayBegin(s.threads[t], call) && ControlOk(s, t, s.threads[t])
    ensures var s' := Begun(s, t, call); ControlFrame(s, s', t) && ControlOk(s', t, s'.threads[t])
  {
  }

  lemma BeginIds(s: State, t: nat, call: Call)
    requires t in s.threads && MayBegin(s.threads[t], call) && IdsOk(s.fate, s.retired, t, s.threads[t])
    ensures var s' := Begun(s, t, call); SameIds(s, s') && IdsOk(s'.fate, s'.retired, t, s'.threads[t])
  {
  }

  lemma BeginKeepsInv(s: State, t: nat, call: Call)
    requires Inv(s) && t in s.threads && MayBegin(s.threads[t], call)
    ensures Inv(Begun(s, t, call))
  {
    var s' := Begun(s, t, call);
    assert ControlOk(s, t, s.threads[t]) && IdsOk(s.fate, s.retired, t, s.threads[t]);
    BeginFrame(s, t, call);
    BeginIds(s, t, call);
    ControlAfter(s, s', t);
    SharedFrame(s, s', t);
    IdsAfter(s, s', t);
  }

  lemma ExecKeepsInv(s: State, a: Action)
    requires Inv(s)
    ensures Inv(Exec(s, a))
  {
    if a.t in s.threads {
      if a.Begin? {
        if MayBegin(s.threads[a.t], a.call) { BeginKeepsInv(s, a.t, a.call); }
      } else if s.threads[a.t].op != NoOp {
        OpStepKeepsInv(s, a.t, a.spurious);
      } else {
        DispatchStepKeepsInv(s, a.t);
      }
    }
  }

  lemma {:induction false} RunKeepsInv(s: State, acts: seq<Action>)
    requires Inv(s)
    ensures Inv(Run(s, acts))
    decreases |acts|
  {
    if acts != [] {
      RunKeepsInv(s, acts[..|acts| - 1]);
      ExecKeepsInv(Run(s, acts[..|acts| - 1]), acts[|acts| - 1]);
    }
  }

  lemma AfterInv(tids: set<nat>, acts: seq<Action>)
    ensures Inv(After(tids, acts))
  {
    var s := Init(tids);
    assert Shared(s) && Control(s) && AllIds(s) && Registry(s);
    RunKeepsInv(s, acts);
  }
}
