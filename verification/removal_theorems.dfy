/** The removal contract, the wait and its wake-up, and progress, over all runs of module Removal. */
module RemovalTheorems {
  import opened Sequences
  import opened Observers
  import opened Removal

  // ----- safety -----

  /** The handlers of a dispatch that are running or may still start. */
  function Unfinished(d: Disp): seq<Descriptor> {
    match d
    case DLockActive(snap) => snap
    case DIncrement(snap) => snap
    case DUnlockActive(snap) => snap
    case DSetFlag(snap) => snap
    case DUnlockObservers(snap) => snap
    case DLoop(snap, k) => if k <= |snap| then snap[k..] else []
    case DHandler(snap, k) => if k <= |snap| then snap[k..] else []
    case _ => []
  }

  /** No handler with one of these ids is running or may still start. */
  ghost predicate NotInFlight(s: State, ids: set<nat>) {
    forall t, i :: t in s.threads && 0 <= i < |Unfinished(s.threads[t].disp)| ==>
      Unfinished(s.threads[t].disp)[i].id !in ids
  }

  lemma RetiredIsNotInFlight(s: State)
    requires Inv(s)
    ensures NotInFlight(s, s.retired)
  {
    forall t, i | t in s.threads && 0 <= i < |Unfinished(s.threads[t].disp)|
      ensures Unfinished(s.threads[t].disp)[i].id !in s.retired
    {
      var d := s.threads[t].disp;
      assert IdsOk(s.fate, s.retired, t, s.threads[t]);
      assert exists j :: 0 <= j < |d.snap| && d.snap[j] == Unfinished(d)[i] by {
        var j := if d.DLoop? || d.DHandler? then d.k + i else i;
        assert d.snap[j] == Unfinished(d)[i];
      }
    }
  }

  lemma {:induction false} RetiredGrows(s: State, acts: seq<Action>)
    ensures s.retired <= Run(s, acts).retired
    decreases |acts|
  {
    if acts != [] {
      RetiredGrows(s, acts[..|acts| - 1]);
      RetiredGrowsOnce(Run(s, acts[..|acts| - 1]), acts[|acts| - 1]);
    }
  }

  lemma RetiredGrowsOnce(s: State, a: Action)
    ensures s.retired <= Exec(s, a).retired
  {
  }

  lemma {:induction false} RunAppend(s: State, a: seq<Action>, b: seq<Action>)
    ensures Run(s, a + b) == Run(Run(s, a), b)
    decreases |b|
  {
    if b == [] {
      assert a + b == a;
    } else {
      var n := |b| - 1;
      assert (a + b)[..|a| + n] == a + b[..n];
      RunAppend(s, a, b[..n]);
    }
  }

  /** At the end of `acts`, a removal that erased `ids` takes its last step in thread t. */
  predicate RemovalReturns(tids: set<nat>, acts: seq<Action>, t: nat, spurious: bool, ids: set<nat>, inside: bool) {
    var s := After(tids, acts);
    && t in s.threads && HasErased(s.threads[t].op) && s.threads[t].op.erased == ids
    && s.threads[t].inDispatch == inside
    && Exec(s, Step(t, spurious)).threads[t].op == NoOp
  }

  /** The removal contract. Once a removal issued outside a dispatch has returned, no handler
      it removed is running, none starts in any continuation of the run, and none is
      registered again. */
  lemma RemovalContract(
    tids: set<nat>, acts: seq<Action>, t: nat, spurious: bool, ids: set<nat>, more: seq<Action>)
    requires RemovalReturns(tids, acts, t, spurious, ids, false)
    ensures var s := After(tids, acts + [Step(t, spurious)] + more);
            && NotInFlight(s, ids)
            && (forall topic :: topic in s.observers ==> Ids(s.observers[topic]) !! ids)
  {
    var s0, a := After(tids, acts), Step(t, spurious);
    var s := After(tids, acts + [a] + more);
    ReturnRetires(s0, t, spurious);
    RunOne(s0, a);
    RunThree(Init(tids), acts, [a], more);
    RetiredGrows(Exec(s0, a), more);
    AfterInv(tids, acts + [a] + more);
    RetiredIsNotInFlight(s);
    RetiredIsNotRegistered(s);
  }

  lemma ReturnRetires(s: State, t: nat, spurious: bool)
    requires t in s.threads && HasErased(s.threads[t].op) && !s.threads[t].inDispatch
    requires Exec(s, Step(t, spurious)).threads[t].op == NoOp
    ensures s.threads[t].op.erased <= Exec(s, Step(t, spurious)).retired
  {
  }

  lemma RetiredIsNotRegistered(s: State)
    requires Inv(s)
    ensures forall topic :: topic in s.observers ==> Ids(s.observers[topic]) !! s.retired
  {
    forall topic | topic in s.observers ensures Ids(s.observers[topic]) !! s.retired {
      assert VectorOk(s.fate, topic, s.observers[topic]);
      assert forall id :: id in s.retired ==> IsGone(s.fate, id);
    }
  }

  /** What a removal is about: at its erase step every matching descriptor of the topic, and
      nothing else, leaves the vector and enters the removal's set of erased ids; that set is
      retired when the removal returns after its wait. */
  lemma RemovalTakesTheMatches(tids: set<nat>, acts: seq<Action>, t: nat, topic: int, m: Match)
    requires var s := After(tids, acts); t in s.threads && s.threads[t].op == RemErase(topic, m)
    ensures var s := After(tids, acts);
            var s' := Exec(s, Step(t, false));
            && s'.threads[t].op.RemUnlock?
            && (m.ByCallback? ==>
                  ObserversOf(s', topic) == Filter(ObserversOf(s, topic), (d: Descriptor) => d.callback != m.callback))
            && (m.ByMethod? ==>
                  ObserversOf(s', topic) == Filter(ObserversOf(s, topic), (d: Descriptor) =>
                    d.instance != m.instance || d.classMethod != m.classMethod))
            && (m.ById? ==> ObserversOf(s', topic) == Filter(ObserversOf(s, topic), (d: Descriptor) => d.id != m.id))
            && (forall id :: id in s'.threads[t].op.erased <==>
                  exists d :: d in ObserversOf(s, topic) && d !in ObserversOf(s', topic) && d.id == id)
            && (forall q :: q != topic ==> ObserversOf(s', q) == ObserversOf(s, q))
  {
    var s := After(tids, acts);
    AfterInv(tids, acts);
    var ds := ObserversOf(s, topic);
    assert topic in s.observers ==> VectorOk(s.fate, topic, ds);
    EraseKeepsTheRest(ds, m);
    EraseByFields(ds, m);
    IdsMembers(ds);
    IdsMembers(Erase(ds, m));
    DistinctLookup(ds);
  }

  // ----- the counter and the wait -----

  function Active(s: State): set<nat> {
    set t | t in s.threads && Counted(s.threads[t].disp)
  }

  /** `m_activeDispatches` is the number of threads between activation and completion. */
  lemma CounterIsExact(tids: set<nat>, acts: seq<Action>)
    ensures var s := After(tids, acts); s.active == |Active(s)|
  {
    AfterInv(tids, acts);
    var s := After(tids, acts);
    forall t ensures t in s.counted <==> t in Active(s) {
      assert t in s.threads ==> ControlOk(s, t, s.threads[t]);
    }
    assert s.counted == Active(s);
  }

  /** No lost wake-up: a remover that is parked and not notified waits for a dispatch that is
      still active, or the last one is notifying right now, holding the mutex. */
  lemma NoLostWakeup(tids: set<nat>, acts: seq<Action>, t: nat)
    requires t in After(tids, acts).parked
    ensures var s := After(tids, acts);
            && t in s.threads && s.threads[t].op.RemParked?
            && (s.active > 0 || exists u :: u in s.threads && s.threads[u].disp.DNotify? && s.dispLock == HeldBy(u))
  {
    AfterInv(tids, acts);
    var s := After(tids, acts);
    assert ControlOk(s, t, s.threads[t]);
  }

  // ----- no deadlock -----

  /** The thread is in some call. */
  predicate Busy(th: Thread) {
    th.disp != NoDispatch || th.op != NoOp
  }

  /** Its next step is enabled, without a spurious wake-up. */
  predicate CanStep(s: State, t: nat) {
    t in s.threads && Exec(s, Step(t, false)) != s
  }

  lemma DispatchHolderRuns(s: State, t: nat)
    requires t in s.threads && ControlOk(s, t, s.threads[t]) && HoldsDispatches(s.threads[t])
    ensures CanStep(s, t)
  {
    var th := s.threads[t];
    assert Exec(s, Step(t, false)).threads[t] != th;
  }

  lemma ObserverHolderRuns(s: State, t: nat)
    requires t in s.threads && ControlOk(s, t, s.threads[t]) && HoldsObservers(s.threads[t])
    requires s.dispLock == Free
    ensures CanStep(s, t)
  {
    var th := s.threads[t];
    assert Exec(s, Step(t, false)).threads[t] != th;
  }

  lemma FreeThreadRuns(s: State, t: nat)
    requires t in s.threads && ControlOk(s, t, s.threads[t]) && Busy(s.threads[t])
    requires s.dispLock == Free && s.obsLock == Free && t !in s.parked
    ensures CanStep(s, t)
  {
    var th := s.threads[t];
    if th.op != NoOp {
      assert OpStep(s, t, th.op, false).threads[t] != th;
    } else {
      assert DispatchStep(s, t, th.disp).threads[t] != th;
    }
  }

  /** An activated thread is not parked: a handler that removes does not wait. */
  lemma CountedIsNotParked(s: State, t: nat)
    requires t in s.threads && ControlOk(s, t, s.threads[t]) && t in s.counted
    ensures t !in s.parked && Busy(s.threads[t])
  {
  }

  lemma SomeThreadRuns(s: State, t: nat)
    requires Inv(s) && t in s.threads && Busy(s.threads[t])
    ensures exists u :: CanStep(s, u)
  {
    if s.dispLock.HeldBy? {
      var u := s.dispLock.t;
      assert ControlOk(s, u, s.threads[u]);
      DispatchHolderRuns(s, u);
    } else if s.obsLock.HeldBy? {
      var u := s.obsLock.t;
      assert ControlOk(s, u, s.threads[u]);
      ObserverHolderRuns(s, u);
    } else if t !in s.parked {
      assert ControlOk(s, t, s.threads[t]);
      FreeThreadRuns(s, t);
    } else {
      assert s.counted != {};
      var u :| u in s.counted;
      assert ControlOk(s, u, s.threads[u]);
      CountedIsNotParked(s, u);
      FreeThreadRuns(s, u);
    }
  }

  /** No deadlock: in every reachable state with an unfinished call, some thread can go on,
      although removals wait for dispatches and handlers may remove observers. */
  lemma NoDeadlock(tids: set<nat>, acts: seq<Action>, t: nat)
    requires var s := After(tids, acts); t in s.threads && Busy(s.threads[t])
    ensures exists u :: CanStep(After(tids, acts), u)
  {
    AfterInv(tids, acts);
    SomeThreadRuns(After(tids, acts), t);
  }

  // ----- removal from inside a handler -----

  /** The contract, for all removals that return with the dispatch flag at `inside`. */
  ghost predicate ContractHolds(tids: set<nat>, inside: bool) {
    forall acts, t, spurious, ids, more :: RemovalReturns(tids, acts, t, spurious, ids, inside) ==>
      NotInFlight(After(tids, acts + [Step(t, spurious)] + more), ids)
  }

  function StepActs(t: nat, n: nat): seq<Action> {
    if n == 0 then [] else StepActs(t, n - 1) + [Step(t, false)]
  }

  lemma RunOne(s: State, a: Action)
    ensures Run(s, [a]) == Exec(s, a)
  {
    assert [a][..0] == [];
  }

  /** Run one step more. */
  lemma RunStep(s: State, a: Action, t: nat, n: nat)
    ensures Run(s, [a] + StepActs(t, n + 1)) == Exec(Run(s, [a] + StepActs(t, n)), Step(t, false))
    ensures Run(s, [a] + StepActs(t, 0)) == Exec(s, a)
  {
    var acts := [a] + StepActs(t, n + 1);
    assert acts == ([a] + StepActs(t, n)) + [Step(t, false)];
    assert acts[..|acts| - 1] == [a] + StepActs(t, n);
    assert [a] + StepActs(t, 0) == [a];
    RunOne(s, a);
  }

  /** Who holds the locks, what is registered, and where thread t is. */
  predicate Solo(s: State, t: nat, o: Lock, d: Lock, obs: map<int, seq<Descriptor>>, next: nat, th: Thread) {
    && s.obsLock == o && s.dispLock == d && s.observers == obs && s.nextId == next
    && t in s.threads && s.threads[t] == th
  }

  const IDLE := Thread(NoDispatch, NoOp, false)

  function Adding(o: Op): Thread {
    Thread(NoDispatch, o, false)
  }

  function Pushed(obs: map<int, seq<Descriptor>>, topic: int, d: Descriptor): map<int, seq<Descriptor>> {
    obs[topic := (if topic in obs then obs[topic] else []) + [d]]
  }

  lemma AddStarts(s: State, t: nat, obs: map<int, seq<Descriptor>>, n: nat, topic: nat, d: Descriptor)
    requires Solo(s, t, Free, Free, obs, n, IDLE)
    ensures var s1 := Exec(s, Begin(t, Add(topic, d)));
            Solo(Exec(s1, Step(t, false)), t, Free, Free, obs, n + 1, Adding(AddLock(topic, d.(id := n))))
  {
    assert Solo(Exec(s, Begin(t, Add(topic, d))), t, Free, Free, obs, n, Adding(AddFetchId(topic, d)));
  }

  lemma AddEnds(s: State, t: nat, obs: map<int, seq<Descriptor>>, n: nat, topic: nat, d: Descriptor)
    requires Solo(s, t, Free, Free, obs, n, Adding(AddLock(topic, d)))
    ensures var s2 := Exec(Exec(s, Step(t, false)), Step(t, false));
            Solo(Exec(s2, Step(t, false)), t, Free, Free, Pushed(obs, topic, d), n, IDLE)
  {
    var s1 := Exec(s, Step(t, false));
    assert Solo(s1, t, HeldBy(t), Free, obs, n, Adding(AddPush(topic, d)));
    assert Solo(Exec(s1, Step(t, false)), t, HeldBy(t), Free, Pushed(obs, topic, d), n, Adding(AddUnlock));
  }

  lemma SoloAdd(s: State, t: nat, obs: map<int, seq<Descriptor>>, n: nat, topic: nat, d: Descriptor)
    requires Solo(s, t, Free, Free, obs, n, IDLE)
    ensures Solo(Run(s, [Begin(t, Add(topic, d))] + StepActs(t, 4)), t, Free, Free,
                 Pushed(obs, topic, d.(id := n)), n + 1, IDLE)
  {
    var a := Begin(t, Add(topic, d));
    AddStarts(s, t, obs, n, topic, d);
    RunStep(s, a, t, 0);
    AddEnds(Run(s, [a] + StepActs(t, 1)), t, obs, n + 1, topic, d.(id := n));
    RunStep(s, a, t, 1);
    RunStep(s, a, t, 2);
    RunStep(s, a, t, 3);
  }

  function Dispatching(d: Disp): Thread {
    Thread(d, NoOp, false)
  }

  lemma DispatchStarts(s: State, t: nat, obs: map<int, seq<Descriptor>>, n: nat, topic: int)
    requires Solo(s, t, Free, Free, obs, n, IDLE) && topic in obs
    ensures var s2 := Exec(Exec(s, Begin(t, Dispatch(topic))), Step(t, false));
            Solo(Exec(s2, Step(t, false)), t, HeldBy(t), Free, obs, n, Dispatching(DLockActive(obs[topic])))
  {
    var s1 := Exec(s, Begin(t, Dispatch(topic)));
    assert Solo(s1, t, Free, Free, obs, n, Dispatching(DLockObservers(topic)));
    assert Solo(Exec(s1, Step(t, false)), t, HeldBy(t), Free, obs, n, Dispatching(DSnapshot(topic)));
  }

  lemma DispatchActivates(s: State, t: nat, obs: map<int, seq<Descriptor>>, n: nat, snap: seq<Descriptor>)
    requires Solo(s, t, HeldBy(t), Free, obs, n, Dispatching(DLockActive(snap)))
    ensures var s2 := Exec(Exec(s, Step(t, false)), Step(t, false));
            Solo(Exec(s2, Step(t, false)), t, HeldBy(t), Free, obs, n, Dispatching(DSetFlag(snap)))
  {
    var s1 := Exec(s, Step(t, false));
    assert Solo(s1, t, HeldBy(t), HeldBy(t), obs, n, Dispatching(DIncrement(snap)));
    assert Solo(Exec(s1, Step(t, false)), t, HeldBy(t), HeldBy(t), obs, n, Dispatching(DUnlockActive(snap)));
  }

  lemma DispatchReachesHandler(s: State, t: nat, obs: map<int, seq<Descriptor>>, n: nat, snap: seq<Descriptor>)
    requires Solo(s, t, HeldBy(t), Free, obs, n, Dispatching(DSetFlag(snap))) && snap != []
    ensures var s2 := Exec(Exec(s, Step(t, false)), Step(t, false));
            Solo(Exec(s2, Step(t, false)), t, Free, Free, obs, n, Thread(DHandler(snap, 0), NoOp, true))
  {
    var s1 := Exec(s, Step(t, false));
    assert Solo(s1, t, HeldBy(t), Free, obs, n, Thread(DUnlockObservers(snap), NoOp, true));
    assert Solo(Exec(s1, Step(t, false)), t, Free, Free, obs, n, Thread(DLoop(snap, 0), NoOp, true));
  }

  lemma SoloDispatch(s: State, t: nat, obs: map<int, seq<Descriptor>>, n: nat, topic: int)
    requires Solo(s, t, Free, Free, obs, n, IDLE) && topic in obs && obs[topic] != []
    ensures Solo(Run(s, [Begin(t, Dispatch(topic))] + StepActs(t, 8)), t, Free, Free, obs, n,
                 Thread(DHandler(obs[topic], 0), NoOp, true))
  {
    var a := Begin(t, Dispatch(topic));
    DispatchStarts(s, t, obs, n, topic);
    RunStep(s, a, t, 0);
    RunStep(s, a, t, 1);
    DispatchActivates(Run(s, [a] + StepActs(t, 2)), t, obs, n, obs[topic]);
    RunStep(s, a, t, 2);
    RunStep(s, a, t, 3);
    RunStep(s, a, t, 4);
    DispatchReachesHandler(Run(s, [a] + StepActs(t, 5)), t, obs, n, obs[topic]);
    RunStep(s, a, t, 5);
    RunStep(s, a, t, 6);
    RunStep(s, a, t, 7);
  }

  function Handling(snap: seq<Descriptor>, k: nat, o: Op): Thread {
    Thread(DHandler(snap, k), o, true)
  }

  lemma RemoveStarts(s: State, t: nat, obs: map<int, seq<Descriptor>>, n: nat, snap: seq<Descriptor>,
                     topic: int, m: Match)
    requires Solo(s, t, Free, Free, obs, n, Handling(snap, 0, NoOp)) && m != ById(0)
    ensures var s1 := Exec(s, Begin(t, Remove(topic, m)));
            Solo(Exec(s1, Step(t, false)), t, HeldBy(t), Free, obs, n, Handling(snap, 0, RemErase(topic, m)))
  {
    assert Solo(Exec(s, Begin(t, Remove(topic, m))), t, Free, Free, obs, n, Handling(snap, 0, RemLock(topic, m)));
  }

  lemma RemoveErases(s: State, t: nat, obs: map<int, seq<Descriptor>>, n: nat, snap: seq<Descriptor>,
                     topic: int, m: Match)
    requires Solo(s, t, HeldBy(t), Free, obs, n, Handling(snap, 0, RemErase(topic, m))) && topic in obs
    ensures var s2 := Exec(Exec(s, Step(t, false)), Step(t, false));
            t in s2.threads && s2.threads[t] == Handling(snap, 0, RemCheckFlag(ErasedIds(obs[topic], m)))
  {
    var s1 := Exec(s, Step(t, false));
    assert t in s1.threads && s1.threads[t] == Handling(snap, 0, RemUnlock(ErasedIds(obs[topic], m)));
  }

  lemma SoloRemove(s: State, t: nat, obs: map<int, seq<Descriptor>>, n: nat, snap: seq<Descriptor>,
                   topic: int, m: Match)
    requires Solo(s, t, Free, Free, obs, n, Handling(snap, 0, NoOp)) && m != ById(0) && topic in obs
    ensures var s' := Run(s, [Begin(t, Remove(topic, m))] + StepActs(t, 3));
            t in s'.threads && s'.threads[t] == Handling(snap, 0, RemCheckFlag(ErasedIds(obs[topic], m)))
  {
    var a := Begin(t, Remove(topic, m));
    RemoveStarts(s, t, obs, n, snap, topic, m);
    RunStep(s, a, t, 0);
    RemoveErases(Run(s, [a] + StepActs(t, 1)), t, obs, n, snap, topic, m);
    RunStep(s, a, t, 1);
    RunStep(s, a, t, 2);
  }

  const FIRST := Descriptor(1, 11, 0, 0, 0)
  const SECOND := Descriptor(2, 12, 0, 0, 0)

  lemma ErasedSecond()
    ensures ErasedIds([FIRST, SECOND], ByCallback(12)) == {2}
  {
    var snap := [FIRST, SECOND];
    assert Erase(snap[1..][1..], ByCallback(12)) == [];
    assert Erase(snap[1..], ByCallback(12)) == [];
    assert Erase(snap, ByCallback(12)) == [FIRST];
    assert [FIRST][0].id == 1 && snap[0].id == 1 && snap[1].id == 2;
    assert Ids([FIRST]) == {1};
    assert Ids(snap) == {1, 2};
  }

  /** Thread t, alone, registers two observers, dispatches, and lets the first handler
      remove the second observer, up to that removal's last step. */
  lemma SoloScenario(tids: set<nat>, t: nat) returns (acts: seq<Action>)
    requires t in tids
    ensures var s := After(tids, acts);
            t in s.threads && s.threads[t] == Handling([FIRST, SECOND], 0, RemCheckFlag({2}))
  {
    var s0 := Init(tids);
    var snap := [FIRST, SECOND];
    var add1, add2 := [Begin(t, Add(0, FIRST))] + StepActs(t, 4), [Begin(t, Add(0, SECOND))] + StepActs(t, 4);
    var obs1 := Pushed(map[], 0, FIRST);
    var obs2 := Pushed(obs1, 0, SECOND);
    SoloAdd(s0, t, map[], 1, 0, FIRST);
    var s1 := Run(s0, add1);
    SoloAdd(s1, t, obs1, 2, 0, SECOND);
    var s2 := Run(s1, add2);
    assert obs2[0] == snap;
    var enter := [Begin(t, Dispatch(0))] + StepActs(t, 8);
    SoloDispatch(s2, t, obs2, 3, 0);
    var s3 := Run(s2, enter);
    var remove := [Begin(t, Remove(0, ByCallback(12)))] + StepActs(t, 3);
    SoloRemove(s3, t, obs2, 3, snap, 0, ByCallback(12));
    ErasedSecond();
    RunThree(s0, add1, add2, enter);
    RunAppend(s0, add1 + add2 + enter, remove);
    acts := add1 + add2 + enter + remove;
  }

  lemma RunThree(s: State, a: seq<Action>, b: seq<Action>, c: seq<Action>)
    ensures Run(s, a + b + c) == Run(Run(Run(s, a), b), c)
  {
    RunAppend(s, a, b);
    RunAppend(s, a + b, c);
  }

  lemma NextHandler(s: State, t: nat, snap: seq<Descriptor>, e: set<nat>)
    requires |snap| == 2 && t in s.threads && s.threads[t] == Handling(snap, 0, RemCheckFlag(e))
    ensures var s1 := Exec(s, Step(t, false));
            var s2 := Exec(s1, Step(t, false));
            var s3 := Exec(s2, Step(t, false));
            && t in s1.threads && s1.threads[t] == Handling(snap, 0, NoOp)
            && t in s3.threads && s3.threads[t].disp == DHandler(snap, 1)
  {
    var s1 := Exec(s, Step(t, false));
    assert t in s1.threads && s1.threads[t] == Handling(snap, 0, NoOp);
    var s2 := Exec(s1, Step(t, false));
    assert t in s2.threads && s2.threads[t] == Thread(DLoop(snap, 1), NoOp, true);
  }

  /** The first handler of a dispatch removes the second observer of its topic: the removal
      returns at once, and the removed handler is still called afterwards. */
  lemma RemovalInsideHandler(tids: set<nat>, t: nat) returns (acts: seq<Action>, more: seq<Action>)
    requires t in tids
    ensures RemovalReturns(tids, acts, t, false, {2}, true)
    ensures var s := After(tids, acts + [Step(t, false)] + more);
            t in s.threads && s.threads[t].disp == DHandler([FIRST, SECOND], 1)
  {
    acts := SoloScenario(tids, t);
    var s, step := After(tids, acts), Step(t, false);
    NextHandler(s, t, [FIRST, SECOND], {2});
    more := [step] + [step];
    RunOne(s, step);
    RunOne(Exec(s, step), step);
    RunOne(Exec(Exec(s, step), step), step);
    RunAppend(Exec(s, step), [step], [step]);
    RunThree(Init(tids), acts, [step], more);
  }

  /** Exact condition: the contract holds for a removal if and only if it is not issued from
      inside a dispatch of its own thread. */
  lemma ContractIffOutside(tids: set<nat>, t: nat, inside: bool)
    requires t in tids
    ensures ContractHolds(tids, inside) <==> !inside
  {
    if inside {
      var acts, more := RemovalInsideHandler(tids, t);
      var s := After(tids, acts + [Step(t, false)] + more);
      assert Unfinished(s.threads[t].disp)[0] == SECOND;
    } else {
      forall acts, u, spurious, ids, more | RemovalReturns(tids, acts, u, spurious, ids, false)
        ensures NotInFlight(After(tids, acts + [Step(u, spurious)] + more), ids)
      {
        RemovalContract(tids, acts, u, spurious, ids, more);
      }
    }
  }
}
