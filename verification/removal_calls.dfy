/** The dispatches and removals of `EventQueue` as their callers see them
    (src/eventqueue.cpp:107-253 and 404-515): which handlers a call of `Dispatch` runs, and what
    a call of `RemoveObserver` takes out, read off the calls and the observer vectors. */
module RemovalCalls {
  import opened Sequences
  import opened Observers
  import opened Removal
  import opened RemovalTheorems

  datatype Option<T> = None | Some(value: T)

  /** What an observer writes down about a thread. Of its latest dispatch: the topic, the
      topic's vector when it was copied, and the descriptors whose handlers have started. Of
      its latest other call: whether it was made outside a dispatch, whether it has touched
      the vector or the message queue, and the ids of the descriptors it asked to remove. */
  datatype Record = Record(
    topic: int, expected: seq<Descriptor>, called: seq<Descriptor>,
    call: Option<Call>, outside: bool, effect: bool, taken: set<nat>)

  function NoRecord(): Record {
    Record(0, [], [], None, false, false, {})
  }

  function RecordOf(h: map<nat, Record>, t: nat): Record {
    if t in h then h[t] else NoRecord()
  }

  /** The ids of the vector's descriptors with the given callback, instance and method, or id. */
  function Asked(ds: seq<Descriptor>, m: Match): set<nat> {
    set d | d in ds && (match m
                        case ByCallback(callback) => d.callback == callback
                        case ByMethod(instance, classMethod) => d.instance == instance && d.classMethod == classMethod
                        case ById(id) => d.id == id) :: d.id
  }

  function Begins(r: Record, th: Thread, call: Call): Record {
    if call.Dispatch? then r.(topic := call.topic, expected := [], called := [])
    else r.(call := Some(call), outside := th.disp == NoDispatch, effect := false, taken := {})
  }

  /** A step of the thread in state s leads it to th'. */
  function Steps(r: Record, s: State, th: Thread, th': Thread): Record {
    if th.op != NoOp then
      if th.op.RemErase? && th' != th && r.call.Some? && r.call.value.Remove? then
        r.(effect := true, taken := Asked(ObserversOf(s, r.call.value.topic), r.call.value.m))
      else if (th.op.AddPush? || th.op.PostPush?) && th' != th then r.(effect := true)
      else r
    else if th.disp.DSnapshot? && !th'.disp.DSnapshot? then r.(expected := ObserversOf(s, r.topic))
    else if th.disp.DLoop? && th'.disp.DHandler? && th'.disp.k < |th'.disp.snap| then
      r.(called := r.called + [th'.disp.snap[th'.disp.k]])
    else r
  }

  function Noted(h: map<nat, Record>, s: State, a: Action, s': State): map<nat, Record> {
    if a.t !in s.threads || a.t !in s'.threads then h
    else if a.Begin? then
      if MayBegin(s.threads[a.t], a.call) then h[a.t := Begins(RecordOf(h, a.t), s.threads[a.t], a.call)] else h
    else h[a.t := Steps(RecordOf(h, a.t), s, s.threads[a.t], s'.threads[a.t])]
  }

  function HistoryOf(s: State, acts: seq<Action>): map<nat, Record>
    decreases |acts|
  {
    if acts == [] then map[] else
    var n := |acts| - 1;
    Noted(HistoryOf(s, acts[..n]), Run(s, acts[..n]), acts[n], Run(s, acts))
  }

  // ----- the invariant -----

  /** The handlers started are the expected ones so far. */
  predicate DispatchFollows(r: Record, d: Disp) {
    match d
    case NoDispatch => r.called == r.expected
    case DLockObservers(topic) => topic == r.topic && r.called == []
    case DSnapshot(topic) => topic == r.topic && r.called == []
    case DLockActive(snap) => snap == r.expected && r.called == []
    case DIncrement(snap) => snap == r.expected && r.called == []
    case DUnlockActive(snap) => snap == r.expected && r.called == []
    case DSetFlag(snap) => snap == r.expected && r.called == []
    case DUnlockObservers(snap) => snap == r.expected && r.called == []
    case DLoop(snap, k) => snap == r.expected && k <= |snap| && r.called == snap[..k]
    case DHandler(snap, k) => snap == r.expected && k < |snap| && r.called == snap[..k + 1]
    case _ => r.called == r.expected
  }

  /** The call asks for something: a valid topic to add to, or an id to remove. */
  predicate Asks(c: Call) {
    (c.Add? ==> c.topic >= 0) && (c.Remove? ==> c.m != ById(0))
  }

  predicate OpFollows(r: Record, o: Op, retired: set<nat>) {
    match o
    case NoOp =>
      r.call.Some? ==>
        && (r.effect <==> Asks(r.call.value))
        && (r.call.value.Remove? && r.effect && r.outside ==> r.taken <= retired)
    case AddFetchId(topic, d) => r.call == Some(Add(topic, d)) && !r.effect
    case AddLock(topic, d) => AddFollows(r, topic, d) && !r.effect
    case AddPush(topic, d) => AddFollows(r, topic, d) && !r.effect
    case AddUnlock => r.call.Some? && r.call.value.Add? && r.effect && Asks(r.call.value)
    case RemLock(topic, m) => r.call == Some(Remove(topic, m)) && !r.effect
    case RemErase(topic, m) => r.call == Some(Remove(topic, m)) && !r.effect && m != ById(0)
    case PostPush(m) => r.call == Some(Post(m)) && !r.effect
    case _ => r.call.Some? && r.call.value.Remove? && r.effect && Asks(r.call.value) && r.taken == o.erased
  }

  /** The descriptor on its way into the vector is the one passed, with an id. */
  predicate AddFollows(r: Record, topic: int, d: Descriptor) {
    && r.call.Some? && r.call.value.Add? && r.call.value.topic == topic >= 0
    && d == r.call.value.observer.(id := d.id)
  }

  predicate Follows(r: Record, th: Thread, retired: set<nat>) {
    && DispatchFollows(r, th.disp) && OpFollows(r, th.op, retired)
    && (th.op != NoOp && r.outside ==> th.disp == NoDispatch)
  }

  ghost predicate Told(h: map<nat, Record>, s: State) {
    Inv(s) && forall t :: t in s.threads ==> Follows(RecordOf(h, t), s.threads[t], s.retired)
  }

  // ----- preservation -----

  predicate SameCall(r: Record, r': Record) {
    r'.call == r.call && r'.outside == r.outside && r'.effect == r.effect && r'.taken == r.taken
  }

  predicate SameDispatch(r: Record, r': Record) {
    r'.topic == r.topic && r'.expected == r.expected && r'.called == r.called
  }

  /** A record looks at a dispatch and at another call independently. */
  lemma Independent(r: Record, r': Record, d: Disp, o: Op, retired: set<nat>)
    ensures SameCall(r, r') ==> OpFollows(r', o, retired) == OpFollows(r, o, retired)
    ensures SameDispatch(r, r') ==> DispatchFollows(r', d) == DispatchFollows(r, d)
  {
  }

  /** Only thread t has moved, in its dispatch, and the record agrees with it. */
  predicate Dispatched(r: Record, s: State, t: nat, s': State)
    requires t in s.threads && t in s'.threads
  {
    var r' := Steps(r, s, s.threads[t], s'.threads[t]);
    && s'.retired == s.retired && s'.threads == s.threads[t := s'.threads[t]]
    && s'.threads[t].op == s.threads[t].op && (s.threads[t].disp == NoDispatch ==> s'.threads[t].disp == NoDispatch)
    && SameCall(r, r') && DispatchFollows(r', s'.threads[t].disp)
  }

  predicate Registering(d: Disp) {
    d.DLockObservers? || d.DSnapshot? || d.DLockActive? || d.DIncrement? || d.DUnlockActive? || d.DSetFlag?
  }

  predicate Calling(d: Disp) {
    d.DUnlockObservers? || d.DLoop? || d.DHandler?
  }

  lemma RegistrationFollows(r: Record, s: State, t: nat)
    requires t in s.threads && s.threads[t].op == NoOp && DispatchFollows(r, s.threads[t].disp)
    requires Registering(s.threads[t].disp)
    ensures Dispatched(r, s, t, DispatchStep(s, t, s.threads[t].disp))
  {
    assert s.threads == s.threads[t := s.threads[t]];
  }

  lemma LoopFollows(r: Record, s: State, t: nat)
    requires t in s.threads && s.threads[t].op == NoOp && DispatchFollows(r, s.threads[t].disp)
    requires Calling(s.threads[t].disp)
    ensures Dispatched(r, s, t, DispatchStep(s, t, s.threads[t].disp))
  {
    var d := s.threads[t].disp;
    if d.DLoop? && d.k < |d.snap| {
      assert d.snap[..d.k + 1] == d.snap[..d.k] + [d.snap[d.k]];
    }
  }

  /** The record stays as it is. */
  lemma Unrecorded(r: Record, s: State, th: Thread, th': Thread)
    requires th.op == NoOp && !th.disp.DSnapshot? && !th.disp.DLoop?
    ensures Steps(r, s, th, th') == r
  {
  }

  lemma CompletionFollows(r: Record, s: State, t: nat)
    requires t in s.threads && s.threads[t].op == NoOp && DispatchFollows(r, s.threads[t].disp)
    requires var d := s.threads[t].disp; d.DClearFlag? || d.DLockDone? || d.DDecrement?
    ensures Dispatched(r, s, t, DispatchStep(s, t, s.threads[t].disp))
  {
    hide Steps;
    var s' := DispatchStep(s, t, s.threads[t].disp);
    Unrecorded(r, s, s.threads[t], s'.threads[t]);
    assert s.threads == s.threads[t := s.threads[t]];
  }

  lemma EndFollows(r: Record, s: State, t: nat)
    requires t in s.threads && s.threads[t].op == NoOp && DispatchFollows(r, s.threads[t].disp)
    requires var d := s.threads[t].disp; d.DNotify? || d.DUnlockDone? || d.DCleanup? || d.NoDispatch?
    ensures Dispatched(r, s, t, DispatchStep(s, t, s.threads[t].disp))
  {
    hide Steps;
    var s' := DispatchStep(s, t, s.threads[t].disp);
    Unrecorded(r, s, s.threads[t], s'.threads[t]);
    assert s.threads == s.threads[t := s.threads[t]];
  }

  lemma DispatchStepFollows(r: Record, s: State, t: nat)
    requires t in s.threads && s.threads[t].op == NoOp && Follows(r, s.threads[t], s.retired)
    ensures var s' := DispatchStep(s, t, s.threads[t].disp);
            && s'.retired == s.retired && s'.threads == s.threads[t := s'.threads[t]]
            && Follows(Steps(r, s, s.threads[t], s'.threads[t]), s'.threads[t], s'.retired)
  {
    hide DispatchStep, DispatchFollows, OpFollows, Steps;
    var s', d := DispatchStep(s, t, s.threads[t].disp), s.threads[t].disp;
    if Registering(d) {
      RegistrationFollows(r, s, t);
    } else if Calling(d) {
      LoopFollows(r, s, t);
    } else if d.DClearFlag? || d.DLockDone? || d.DDecrement? {
      CompletionFollows(r, s, t);
    } else {
      EndFollows(r, s, t);
    }
    Independent(r, Steps(r, s, s.threads[t], s'.threads[t]), d, NoOp, s.retired);
  }

  lemma AskedIsErased(ds: seq<Descriptor>, m: Match)
    requires DistinctIds(ds)
    ensures Asked(ds, m) == ErasedIds(ds, m)
  {
    EraseKeepsTheRest(ds, m);
    IdsMembers(ds);
    IdsMembers(Erase(ds, m));
    DistinctLookup(ds);
    forall id ensures id in Asked(ds, m) <==> id in ErasedIds(ds, m) {
    }
  }

  lemma EraseStepFollows(r: Record, s: State, t: nat)
    requires t in s.threads && s.threads[t].op.RemErase? && Follows(r, s.threads[t], s.retired)
    requires DistinctIds(ObserversOf(s, s.threads[t].op.topic))
    ensures var s' := OpStep(s, t, s.threads[t].op, false);
            && s.retired == s'.retired && s'.threads == s.threads[t := s'.threads[t]]
            && Follows(Steps(r, s, s.threads[t], s'.threads[t]), s'.threads[t], s'.retired)
  {
    hide Asked, DispatchFollows, ErasedIds;
    AskedIsErased(ObserversOf(s, s.threads[t].op.topic), s.threads[t].op.m);
    var s' := OpStep(s, t, s.threads[t].op, false);
    Independent(r, Steps(r, s, s.threads[t], s'.threads[t]), s.threads[t].disp, NoOp, s.retired);
  }

  lemma OpMoves(s: State, t: nat, spurious: bool)
    requires t in s.threads && s.threads[t].op != NoOp
    ensures var s' := OpStep(s, t, s.threads[t].op, spurious);
            && s.retired <= s'.retired && s'.threads == s.threads[t := s'.threads[t]]
            && s'.threads[t].disp == s.threads[t].disp
  {
    hide ObserversOf, ErasedIds;
    assert s.threads == s.threads[t := s.threads[t]];
  }

  lemma AddStepFollows(r: Record, s: State, t: nat, spurious: bool)
    requires t in s.threads && OpFollows(r, s.threads[t].op, s.retired)
    requires var o := s.threads[t].op; o.AddFetchId? || o.AddLock? || o.AddPush? || o.AddUnlock? || o.PostPush?
    ensures var s' := OpStep(s, t, s.threads[t].op, spurious);
            var r' := Steps(r, s, s.threads[t], s'.threads[t]);
            SameDispatch(r, r') && r'.outside == r.outside && OpFollows(r', s'.threads[t].op, s'.retired)
  {
    hide ObserversOf;
  }

  lemma RemoveStepFollows(r: Record, s: State, t: nat, spurious: bool)
    requires t in s.threads && OpFollows(r, s.threads[t].op, s.retired)
    requires s.threads[t].inDispatch ==> !r.outside
    requires var o := s.threads[t].op; o.RemLock? || HasErased(o)
    ensures var s' := OpStep(s, t, s.threads[t].op, spurious);
            var r' := Steps(r, s, s.threads[t], s'.threads[t]);
            SameDispatch(r, r') && r'.outside == r.outside && OpFollows(r', s'.threads[t].op, s'.retired)
  {
    hide ObserversOf, Asked;
  }

  lemma OpStepFollows(r: Record, s: State, t: nat, spurious: bool)
    requires t in s.threads && s.threads[t].op != NoOp && !s.threads[t].op.RemErase?
    requires Follows(r, s.threads[t], s.retired)
    requires s.threads[t].disp == NoDispatch ==> !s.threads[t].inDispatch
    ensures var s' := OpStep(s, t, s.threads[t].op, spurious);
            && s.retired <= s'.retired && s'.threads == s.threads[t := s'.threads[t]]
            && Follows(Steps(r, s, s.threads[t], s'.threads[t]), s'.threads[t], s'.retired)
  {
    hide OpStep, Steps, DispatchFollows, OpFollows, Asked;
    var o, s' := s.threads[t].op, OpStep(s, t, s.threads[t].op, spurious);
    OpMoves(s, t, spurious);
    if o.RemLock? || HasErased(o) { RemoveStepFollows(r, s, t, spurious); } else { AddStepFollows(r, s, t, spurious); }
    Independent(r, Steps(r, s, s.threads[t], s'.threads[t]), s.threads[t].disp, o, s.retired);
  }

  lemma BeginFollows(r: Record, s: State, t: nat, call: Call)
    requires t in s.threads && MayBegin(s.threads[t], call) && Follows(r, s.threads[t], s.retired)
    ensures var s' := Begun(s, t, call);
            && s'.retired == s.retired && s'.threads == s.threads[t := s'.threads[t]]
            && Follows(Begins(r, s.threads[t], call), s'.threads[t], s'.retired)
  {
  }

  lemma OwnFollows(h: map<nat, Record>, s: State, a: Action)
    requires Told(h, s) && a.t in s.threads
    ensures var s' := Exec(s, a);
            && a.t in s'.threads && s'.threads == s.threads[a.t := s'.threads[a.t]] && s.retired <= s'.retired
            && Follows(RecordOf(Noted(h, s, a, s'), a.t), s'.threads[a.t], s'.retired)
  {
    hide Inv, Begun, DispatchStep, OpStep, Follows, Begins, Steps;
    var t, r := a.t, RecordOf(h, a.t);
    ThreadControl(s, t);
    match a
    case Begin(_, call) =>
      if MayBegin(s.threads[t], call) {
        BeginFollows(r, s, t, call);
      } else {
        assert s.threads == s.threads[t := s.threads[t]];
      }
    case Step(_, spurious) =>
      if s.threads[t].op == NoOp {
        DispatchStepFollows(r, s, t);
      } else if s.threads[t].op.RemErase? {
        ErasesAlways(s, t, spurious);
        EraseStepFollows(r, s, t);
      } else {
        OpStepFollows(r, s, t, spurious);
      }
  }

  lemma ErasesAlways(s: State, t: nat, spurious: bool)
    requires t in s.threads && s.threads[t].op.RemErase?
    ensures OpStep(s, t, s.threads[t].op, spurious) == OpStep(s, t, s.threads[t].op, false)
  {
  }

  lemma ThreadControl(s: State, t: nat)
    requires Inv(s) && t in s.threads
    ensures s.threads[t].disp == NoDispatch ==> !s.threads[t].inDispatch
    ensures s.threads[t].op.RemErase? ==> DistinctIds(ObserversOf(s, s.threads[t].op.topic))
  {
    assert ControlOk(s, t, s.threads[t]);
    if s.threads[t].op.RemErase? && s.threads[t].op.topic in s.observers {
      assert VectorOk(s.fate, s.threads[t].op.topic, s.observers[s.threads[t].op.topic]);
    }
  }

  /** What is retired stays retired. */
  lemma StillFollows(r: Record, th: Thread, retired: set<nat>, retired': set<nat>)
    requires Follows(r, th, retired) && retired <= retired'
    ensures Follows(r, th, retired')
  {
  }

  lemma ToldFollows(h: map<nat, Record>, s: State, a: Action)
    requires Told(h, s)
    ensures Told(Noted(h, s, a, Exec(s, a)), Exec(s, a))
  {
    hide Inv, Exec, Noted, Follows;
    var s' := Exec(s, a);
    ExecKeepsInv(s, a);
    if a.t in s.threads {
      OwnFollows(h, s, a);
      forall u | u in s'.threads ensures Follows(RecordOf(Noted(h, s, a, s'), u), s'.threads[u], s'.retired) {
        OtherRecord(h, s, a, s', u);
        if u != a.t { StillFollows(RecordOf(h, u), s.threads[u], s.retired, s'.retired); }
      }
    } else {
      NobodyNoted(h, s, a);
    }
  }

  lemma OtherRecord(h: map<nat, Record>, s: State, a: Action, s': State, u: nat)
    ensures u != a.t ==> RecordOf(Noted(h, s, a, s'), u) == RecordOf(h, u)
  {
    hide Steps, Begins;
  }

  lemma NobodyNoted(h: map<nat, Record>, s: State, a: Action)
    requires a.t !in s.threads
    ensures Exec(s, a) == s && Noted(h, s, a, s) == h
  {
  }

  lemma {:induction false} RunTold(tids: set<nat>, acts: seq<Action>)
    ensures Told(HistoryOf(Init(tids), acts), After(tids, acts))
    decreases |acts|
  {
    hide Exec, Noted, Told, Inv;
    if acts == [] {
      AfterInv(tids, []);
      NothingBegun(tids);
    } else {
      var n := |acts| - 1;
      RunTold(tids, acts[..n]);
      ToldFollows(HistoryOf(Init(tids), acts[..n]), After(tids, acts[..n]), acts[n]);
    }
  }

  lemma NothingBegun(tids: set<nat>)
    requires Inv(Init(tids))
    ensures Told(map[], Init(tids))
  {
    hide Inv;
  }

  // ----- the results -----

  /** A dispatch runs the handlers of the observers that were in the requested topic's vector
      when it was copied, each once and in order: those that have started are the first of
      them, the running one is the last that has started, and at the end all have. */
  lemma DispatchRunsTheRegistered(tids: set<nat>, acts: seq<Action>, t: nat)
    requires t in After(tids, acts).threads
    ensures var s, r := After(tids, acts), RecordOf(HistoryOf(Init(tids), acts), t);
            var d := s.threads[t].disp;
            && r.called <= r.expected
            && (d.DHandler? ==>
                  d.k < |d.snap| && r.called != [] && r.called[|r.called| - 1] == d.snap[d.k] && |r.called| == d.k + 1)
            && (!Registering(d) && !Calling(d) ==> r.called == r.expected)
  {
    hide Inv, Follows, Registering, Calling;
    RunTold(tids, acts);
    CalledSoFar(RecordOf(HistoryOf(Init(tids), acts), t), After(tids, acts).threads[t], After(tids, acts).retired);
  }

  lemma CalledSoFar(r: Record, th: Thread, retired: set<nat>)
    requires Follows(r, th, retired)
    ensures var d := th.disp;
            && r.called <= r.expected
            && (d.DHandler? ==>
                  d.k < |d.snap| && r.called != [] && r.called[|r.called| - 1] == d.snap[d.k] && |r.called| == d.k + 1)
            && (!Registering(d) && !Calling(d) ==> r.called == r.expected)
  {
    hide OpFollows;
  }

  /** A call that has returned has done what it was asked for, unless it asked for nothing. */
  lemma CallsTakeEffect(tids: set<nat>, acts: seq<Action>, t: nat)
    requires t in After(tids, acts).threads && After(tids, acts).threads[t].op == NoOp
    ensures var r := RecordOf(HistoryOf(Init(tids), acts), t);
            r.call.Some? ==>
              (r.effect <==> match r.call.value
                             case Add(topic, _) => topic >= 0
                             case Remove(_, m) => m != ById(0)
                             case _ => true)
  {
    hide Inv, DispatchFollows;
    RunTold(tids, acts);
    var s, r := After(tids, acts), RecordOf(HistoryOf(Init(tids), acts), t);
    assert Follows(r, s.threads[t], s.retired);
    if r.call.Some? { CallIsNoDispatch(tids, acts, t); }
  }

  lemma {:induction false} CallIsNoDispatch(tids: set<nat>, acts: seq<Action>, t: nat)
    ensures var r := RecordOf(HistoryOf(Init(tids), acts), t); r.call.Some? ==> !r.call.value.Dispatch?
    decreases |acts|
  {
    hide Exec;
    if acts != [] { CallIsNoDispatch(tids, acts[..|acts| - 1], t); }
  }

  /** The removal contract, for calls. Once a call `Remove(topic, m)` made outside a dispatch
      has returned, no handler of a descriptor that matched m, in the topic's vector as the call
      found it, is running; none starts in any continuation, and none is registered again. */
  lemma RemovalContractForCalls(tids: set<nat>, acts: seq<Action>, t: nat, topic: int, m: Match, more: seq<Action>)
    requires t in After(tids, acts).threads && After(tids, acts).threads[t].op == NoOp && m != ById(0)
    requires var r := RecordOf(HistoryOf(Init(tids), acts), t); r.call == Some(Remove(topic, m)) && r.outside
    ensures var r, s := RecordOf(HistoryOf(Init(tids), acts), t), After(tids, acts + more);
            && r.effect && NotInFlight(s, r.taken)
            && (forall q :: q in s.observers ==> Ids(s.observers[q]) !! r.taken)
  {
    hide Inv, DispatchFollows, Exec, Noted;
    RunTold(tids, acts);
    var s, r := After(tids, acts), RecordOf(HistoryOf(Init(tids), acts), t);
    assert Follows(r, s.threads[t], s.retired);
    RunAppend(Init(tids), acts, more);
    RetiredGrows(s, more);
    AfterInv(tids, acts + more);
    RetiredIsNotInFlight(After(tids, acts + more));
    RetiredIsNotRegistered(After(tids, acts + more));
  }

  /** The step by which a call of `Remove` takes effect: of the requested topic's vector the
      descriptors with another callback, instance or method, or id stay, in order. */
  lemma RemovalTakesEffect(tids: set<nat>, acts: seq<Action>, t: nat)
    requires t in After(tids, acts).threads && After(tids, acts).threads[t].op.RemErase?
    ensures var s, s' := After(tids, acts), After(tids, acts + [Step(t, false)]);
            var r := RecordOf(HistoryOf(Init(tids), acts), t);
            var r' := RecordOf(HistoryOf(Init(tids), acts + [Step(t, false)]), t);
            && r.call.Some? && r.call.value.Remove? && r'.effect
            && (var topic, m := r.call.value.topic, r.call.value.m;
                && (m.ByCallback? ==>
                      ObserversOf(s', topic) ==
                      Filter(ObserversOf(s, topic), (d: Descriptor) => d.callback != m.callback))
                && (m.ByMethod? ==>
                      ObserversOf(s', topic) == Filter(ObserversOf(s, topic), (d: Descriptor) =>
                        d.instance != m.instance || d.classMethod != m.classMethod))
                && (m.ById? ==>
                      ObserversOf(s', topic) == Filter(ObserversOf(s, topic), (d: Descriptor) => d.id != m.id))
                && r'.taken == Asked(ObserversOf(s, topic), m)
                && (forall q :: q != topic ==> ObserversOf(s', q) == ObserversOf(s, q)))
  {
    hide Inv, DispatchFollows, Exec, Asked, Steps, Begins;
    RunTold(tids, acts);
    var s, r := After(tids, acts), RecordOf(HistoryOf(Init(tids), acts), t);
    assert Follows(r, s.threads[t], s.retired);
    var acts' := acts + [Step(t, false)];
    assert acts'[..|acts|] == acts;
    RemovalTakesTheMatches(tids, acts, t, r.call.value.topic, r.call.value.m);
    StillThere(s, t);
    EraseNoted(r, s, s.threads[t], Exec(s, Step(t, false)).threads[t]);
  }

  lemma StillThere(s: State, t: nat)
    requires t in s.threads
    ensures t in Exec(s, Step(t, false)).threads
  {
  }

  lemma EraseNoted(r: Record, s: State, th: Thread, th': Thread)
    requires th.op.RemErase? && !th'.op.RemErase? && r.call.Some? && r.call.value.Remove?
    ensures var r' := Steps(r, s, th, th');
            r'.effect && r'.taken == Asked(ObserversOf(s, r.call.value.topic), r.call.value.m)
  {
  }

  /** The step by which a call of `Add` takes effect: the observer passed is the last of the
      requested topic's vector, under an id no vector holds. */
  lemma AddTakesEffect(tids: set<nat>, acts: seq<Action>, t: nat)
    requires t in After(tids, acts).threads && After(tids, acts).threads[t].op.AddPush?
    ensures var s, s' := After(tids, acts), After(tids, acts + [Step(t, false)]);
            var r := RecordOf(HistoryOf(Init(tids), acts), t);
            && r.call.Some? && r.call.value.Add?
            && (var topic, before := r.call.value.topic, ObserversOf(s, r.call.value.topic);
                && |ObserversOf(s', topic)| == |before| + 1 && before <= ObserversOf(s', topic)
                && (var d := ObserversOf(s', topic)[|before|];
                    && d == r.call.value.observer.(id := d.id)
                    && (forall q, i :: q in s.observers && 0 <= i < |s.observers[q]| ==> s.observers[q][i].id != d.id))
                && (forall q :: q != topic ==> ObserversOf(s', q) == ObserversOf(s, q)))
  {
    hide Inv, DispatchFollows, Noted;
    RunTold(tids, acts);
    var s, r := After(tids, acts), RecordOf(HistoryOf(Init(tids), acts), t);
    assert Follows(r, s.threads[t], s.retired);
    var acts' := acts + [Step(t, false)];
    assert acts'[..|acts|] == acts;
    FreshId(s, t);
  }

  /** The step by which a call of `Post` takes effect. */
  lemma PostTakesEffect(tids: set<nat>, acts: seq<Action>, t: nat)
    requires t in After(tids, acts).threads && After(tids, acts).threads[t].op.PostPush?
    ensures var s, s' := After(tids, acts), After(tids, acts + [Step(t, false)]);
            var r := RecordOf(HistoryOf(Init(tids), acts), t);
            && r.call.Some? && r.call.value.Post? && s'.messages == s.messages + [r.call.value.message]
            && s'.observers == s.observers
  {
    hide Inv, DispatchFollows, Noted;
    RunTold(tids, acts);
    var s, r := After(tids, acts), RecordOf(HistoryOf(Init(tids), acts), t);
    assert Follows(r, s.threads[t], s.retired);
    var acts' := acts + [Step(t, false)];
    assert acts'[..|acts|] == acts;
  }

  lemma FreshId(s: State, t: nat)
    requires Inv(s) && t in s.threads && s.threads[t].op.AddPush?
    ensures forall q, i :: q in s.observers && 0 <= i < |s.observers[q]| ==>
              s.observers[q][i].id != s.threads[t].op.observer.id
  {
    assert IdsOk(s.fate, s.retired, t, s.threads[t]);
    forall q, i | q in s.observers && 0 <= i < |s.observers[q]|
      ensures s.observers[q][i].id != s.threads[t].op.observer.id
    {
      assert VectorOk(s.fate, q, s.observers[q]);
    }
  }
}
