/** `stop` of `MessageCenterFast` returns (src/messagecenter_fast.h:117-132): once its flag is
    stored, the dispatch thread leaves its loop within a bounded number of its own steps, the
    bound depending only on the messages queued then and accepted since. */
module MessageCenterStop {
  import opened Bits
  import Ring
  import RingTheorems
  import opened MessageCenter

  // ----- the measure -----

  /** Steps the dispatch thread takes for one queued message: those of `try_pop`, the
      callbacks, the counter. */
  const ROUND := 7

  /** The steps left outside the messages still queued, from where the dispatch thread is. */
  function Phase(l: Loop, rl: Ring.Local<Message>): nat {
    match l
    case DrainPop =>
      if rl.PopRead? then 6 else if rl.PopRelease? then 5
      else if rl.PopLoadHead? then 2 else if rl.PopLoadSeq? then 1 else 0
    case DrainCall(_) => 4
    case DrainCount => 3
    case CheckStop => 3
    case Wait => 4
    case LoopCount => 4
    case LoopCall(_) => 5
    case LoopPop =>
      if rl.PopRead? then 7 else if rl.PopRelease? then 6
      else if rl.PopLoadHead? then 6 else if rl.PopLoadSeq? then 5 else 4
    case NotStarted => 0
    case Exited => 0
  }

  function Measure(s: State): int
    requires DISPATCHER in s.ring.threads
  {
    ROUND * (s.ring.tail - s.ring.head) + Phase(s.loop, s.ring.threads[DISPATCHER])
  }

  /** The dispatch thread has been told to stop and has not stopped yet. */
  predicate Ending(s: State) {
    s.stopping && !s.loop.NotStarted?
  }

  lemma MeasureIsPositive(s: State)
    requires Inv(s) && Ending(s) && !s.loop.Exited?
    ensures Measure(s) >= 1
  {
    Ring.InvAt(s.ring, DISPATCHER);
  }

  // ----- steps of the dispatch thread -----

  /** Inside `try_pop`: on to the next place, unless a compare-exchange fails spuriously. */
  predicate Onward(r: Ring.State<Message>, spurious: bool, r': Ring.State<Message>)
    requires DISPATCHER in r.threads && DISPATCHER in r'.threads
  {
    var rl' := r'.threads[DISPATCHER];
    match r.threads[DISPATCHER]
    case PopLoadHead => r'.head == r.head && rl'.PopLoadSeq?
    case PopLoadSeq(_, _) => r'.head == r.head && (rl'.PopCas? || rl' == Ring.Idle(Ring.Popped(Ring.None)))
    case PopCas(_, _) =>
      if spurious then r'.head == r.head && rl'.PopLoadSeq? else r'.head == r.head + 1 && rl'.PopRead?
    case PopRead(_) => r'.head == r.head && rl'.PopRelease?
    case PopRelease(_, v) => r'.head == r.head && rl' == Ring.Idle(Ring.Popped(Ring.Some(v)))
    case _ => false
  }

  /** The dispatch thread is the only one to pop, so its position is never overtaken. */
  lemma AloneInPop(s: State)
    requires Inv(s) && (s.loop.LoopPop? || s.loop.DrainPop?)
    ensures var r, rl := s.ring, s.ring.threads[DISPATCHER];
            && Ring.Popping(rl) && !rl.PopReload?
            && (rl.PopLoadSeq? ==> r.seqs[Slot(rl.pos, r.cap)] <= rl.pos + 1)
            && (rl.PopCas? ==> rl.pos == r.head)
  {
    hide Ring.Inv, Ring.HeadPublished, Posters, ControlOk;
    var rl := s.ring.threads[DISPATCHER];
    DispatcherPops(s);
    Ring.InvAt(s.ring, DISPATCHER);
    if rl.PopLoadSeq? { Ring.PopObserves(s.ring, rl.pos); }
  }

  lemma PopGoesOn(r: Ring.State<Message>, spurious: bool)
    requires Ring.Shape(r) && DISPATCHER in r.threads
    requires var rl := r.threads[DISPATCHER];
             && Ring.Popping(rl) && !rl.PopReload?
             && (rl.PopLoadSeq? ==> r.seqs[Slot(rl.pos, r.cap)] <= rl.pos + 1)
             && (rl.PopCas? ==> rl.pos == r.head)
    ensures var r' := Ring.Exec(r, Ring.Step(DISPATCHER, spurious));
            DISPATCHER in r'.threads && r'.tail == r.tail && Onward(r, spurious, r')
  {
    hide Ring.PushStep, Ring.SizeStep;
  }

  lemma OnwardLowers(s: State, spurious: bool, r': Ring.State<Message>)
    requires Ending(s) && (s.loop.LoopPop? || s.loop.DrainPop?)
    requires DISPATCHER in s.ring.threads && DISPATCHER in r'.threads
    requires r'.tail == s.ring.tail && Onward(s.ring, spurious, r')
    ensures var s' := PopReturn(s, r');
            && Ending(s')
            && s'.ring.tail == s.ring.tail && Measure(s') < Measure(s) + if spurious then 2 else 0
  {
  }

  lemma PopLowers(s: State, spurious: bool)
    requires Inv(s) && Ending(s) && (s.loop.LoopPop? || s.loop.DrainPop?)
    ensures var s' := PopStep(s, spurious);
            && DISPATCHER in s'.ring.threads && Ending(s')
            && s'.ring.tail == s.ring.tail && Measure(s') < Measure(s) + if spurious then 2 else 0
  {
    hide Ring.Inv, Ring.Exec, Posters, ControlOk, DispatcherOk, Onward, PopReturn, Phase;
    AloneInPop(s);
    PopGoesOn(s.ring, spurious);
    OnwardLowers(s, spurious, Ring.Exec(s.ring, Ring.Step(DISPATCHER, spurious)));
    ReturnsRing(s, Ring.Exec(s.ring, Ring.Step(DISPATCHER, spurious)));
  }

  lemma CallsPop(s: State, l: Loop)
    requires Shape(s) && s.ring.threads[DISPATCHER].Idle?
    ensures var s' := CallPop(s, l);
            && DISPATCHER in s'.ring.threads && s'.ring.threads[DISPATCHER].PopLoadHead?
            && s'.ring.tail == s.ring.tail && s'.ring.head == s.ring.head && s'.loop == l && s'.stopping == s.stopping
  {
  }

  lemma LoopLowers(s: State, spurious: bool)
    requires Inv(s) && Ending(s) && !s.loop.Exited?
    ensures var s' := Advance(s, spurious);
            && DISPATCHER in s'.ring.threads && Ending(s')
            && s'.ring.tail == s.ring.tail && Measure(s') < Measure(s) + if spurious then 2 else 0
  {
    hide Ring.Inv, Posters, CallPop, PopStep;
    match s.loop
    case LoopPop => PopLowers(s, spurious);
    case DrainPop => PopLowers(s, spurious);
    case CheckStop => CallsPop(s, DrainPop);
    case DrainCount => CallsPop(s.(dispatched := s.dispatched + 1), DrainPop);
    case _ =>
  }

  // ----- steps of the others -----

  /** The dispatch thread does not notice; the ring may have got longer. */
  predicate Unnoticed(s: State, s': State) {
    && DISPATCHER in s.ring.threads && DISPATCHER in s'.ring.threads
    && s'.ring.threads[DISPATCHER] == s.ring.threads[DISPATCHER]
    && s'.ring.head == s.ring.head && s.ring.tail <= s'.ring.tail
    && s'.loop == s.loop && s'.stopping == s.stopping
  }

  lemma PosterUnnoticed(s: State, t: nat, spurious: bool)
    requires Inv(s) && t in s.threads
    ensures Unnoticed(s, Exec(s, PostStep(t, spurious)))
  {
    hide Ring.Inv, Ring.Exec, Posters, DispatcherOk, ControlOk;
    PosterAt(s, t);
    RingTheorems.OthersUntouched(s.ring, Ring.Step(t, spurious), DISPATCHER);
    RingSteps(s.ring, Ring.Step(t, spurious));
    match s.threads[t]
    case Pushing(m) => TryingMoves(s.ring, t, m, spurious);
    case Claimed(_, _) => ClaimedMoves(s.ring, t, spurious);
    case _ =>
  }

  lemma BeginUnnoticed(s: State, t: nat, m: Message)
    requires Inv(s) && t in s.threads && s.threads[t].Idle?
    ensures Unnoticed(s, StartPost(s, t, m))
  {
    hide Ring.Inv, Ring.Exec, Posters, DispatcherOk, ControlOk;
    PosterAt(s, t);
    Ring.Entered(s.ring, t, Ring.TryPush(m));
  }

  lemma OthersUnnoticed(s: State, a: Action)
    requires Inv(s) && !a.LoopStep? && !a.BeginStart? && Ending(s)
    ensures Unnoticed(s, Exec(s, a)) && Ending(Exec(s, a))
  {
    hide Ring.Inv, Ring.Exec, Posters, DispatcherOk, ControlOk, StartPost;
    match a
    case BeginPost(t, topic, data) =>
      if t in s.threads && s.threads[t].Idle? { BeginUnnoticed(s, t, Message(topic, data)); }
    case PostStep(t, spurious) => if t in s.threads { PosterUnnoticed(s, t, spurious); }
    case _ =>
  }

  // ----- the countdown -----

  function LoopSteps(acts: seq<Action>): nat
    decreases |acts|
  {
    if acts == [] then 0
    else LoopSteps(acts[..|acts| - 1]) + if acts[|acts| - 1].LoopStep? then 1 else 0
  }

  /** Steps of the dispatch thread at which a compare-exchange may fail spuriously. */
  function SpuriousSteps(acts: seq<Action>): nat
    decreases |acts|
  {
    if acts == [] then 0
    else SpuriousSteps(acts[..|acts| - 1]) + if acts[|acts| - 1].LoopStep? && acts[|acts| - 1].spurious then 1 else 0
  }

  ghost predicate Counted(s: State, acts: seq<Action>, s': State)
    requires DISPATCHER in s.ring.threads
  {
    && Inv(s') && Ending(s') && s.ring.tail <= s'.ring.tail
    && (s'.loop.Exited? ||
        Measure(s') + LoopSteps(acts) <= Measure(s) + 2 * SpuriousSteps(acts) + ROUND * (s'.ring.tail - s.ring.tail))
  }

  lemma CountedStep(s: State, acts: seq<Action>, s1: State, a: Action)
    requires Inv(s) && Counted(s, acts, s1) && !a.BeginStart?
    ensures Shape(s1) && Counted(s, acts + [a], Exec(s1, a))
  {
    hide Ring.Inv, Posters, DispatcherOk, ControlOk, Exec, Phase;
    assert (acts + [a])[..|acts|] == acts;
    ExecKeepsInv(s1, a);
    if !a.LoopStep? {
      OthersUnnoticed(s1, a);
    } else {
      LoopIs(s1, a.spurious);
      if !s1.loop.Exited? { LoopLowers(s1, a.spurious); }
    }
  }

  lemma LoopIs(s: State, spurious: bool)
    requires Shape(s)
    ensures Exec(s, LoopStep(spurious)) == Advance(s, spurious)
    ensures s.loop.Exited? ==> Advance(s, spurious) == s
  {
  }

  lemma {:induction false} Countdown(s: State, acts: seq<Action>)
    requires Inv(s) && Ending(s) && forall i :: 0 <= i < |acts| ==> !acts[i].BeginStart?
    ensures Counted(s, acts, Run(s, acts))
    decreases |acts|
  {
    hide Inv, Exec, Ending;
    InvShape(s);
    if acts != [] {
      var n := |acts| - 1;
      Countdown(s, acts[..n]);
      InvShape(Run(s, acts[..n]));
      assert acts[..n] + [acts[n]] == acts;
      CountedStep(s, acts[..n], Run(s, acts[..n]), acts[n]);
    }
  }

  // ----- stop returns -----

  lemma JoinReturns(s: State)
    requires Inv(s) && s.loop.Exited? && s.stopping
    ensures !Run(s, [StopStep, StopStep]).running
  {
    hide Ring.Inv, Posters, DispatcherOk, Exec;
    StopIs(s);
    StopIs(StopAdvance(s));
    RunTwo(s, StopStep, StopStep);
  }

  lemma StopIs(s: State)
    requires Shape(s)
    ensures Exec(s, StopStep) == StopAdvance(s)
  {
  }

  lemma RunTwo(s: State, a: Action, b: Action)
    requires Shape(s) && Shape(Exec(s, a))
    ensures Run(s, [a, b]) == Exec(Exec(s, a), b)
  {
    hide Exec;
    assert [a, b][..1] == [a] && [a][..0] == [];
    assert Run(s, []) == s;
    assert Run(s, [a]) == Exec(s, a);
  }

  /** From any reachable state in which `stop` has stored its flag, and however posting goes
      on: once the dispatch thread has taken seven steps for each message then queued or
      accepted since, seven more, and two for each spurious failure, it has left its loop, and
      two more steps of `stop` end the call. */
  lemma StopReturns(cap: nat, junk: seq<Message>, tids: set<nat>, before: seq<Action>, during: seq<Action>)
    requires cap >= 2 && IsPowerOfTwo(cap) && |junk| == cap && DISPATCHER !in tids
    requires var s := After(cap, junk, tids, before); s.running && s.stopping
    requires forall i :: 0 <= i < |during| ==> !during[i].BeginStart?
    ensures var s := After(cap, junk, tids, before);
            && Shape(s) && Shape(Run(s, during))
            && var s' := Run(s, during);
               LoopSteps(during) >= ROUND * (s.ring.tail - s.ring.head) + ROUND + 2 * SpuriousSteps(during)
                                    + ROUND * (s'.ring.tail - s.ring.tail) ==>
                 s'.loop.Exited? && !Run(s', [StopStep, StopStep]).running
  {
    hide Ring.Inv, Posters, DispatcherOk, Run;
    AfterInv(cap, junk, tids, before);
    var s := After(cap, junk, tids, before);
    Countdown(s, during);
    var s' := Run(s, during);
    if s'.loop.Exited? {
      JoinReturns(s');
    } else {
      MeasureIsPositive(s');
    }
  }

  /** With every post returned before `stop` begins and none beginning before it returns: after
      that many steps of the dispatch thread `stop` has returned, the queue is empty, the
      observers have been given every accepted message once, in order, and the two counters
      agree. */
  lemma StopReturnsDrained(cap: nat, junk: seq<Message>, tids: set<nat>, before: seq<Action>, during: seq<Action>)
    requires cap >= 2 && IsPowerOfTwo(cap) && |junk| == cap && DISPATCHER !in tids
    requires var s := After(cap, junk, tids, before); s.running && s.control.Outside? && NoPosts(s)
    requires forall i :: 0 <= i < |during| ==> !during[i].BeginPost? && !during[i].BeginStart?
    requires var s := After(cap, junk, tids, before);
             LoopSteps(during) >= ROUND * (s.ring.tail - s.ring.head) + ROUND + 2 * SpuriousSteps(during)
    ensures var s' := After(cap, junk, tids, before + [BeginStop, StopStep] + during + [StopStep, StopStep]);
            && !s'.running && s'.ring.inserted == After(cap, junk, tids, before).ring.inserted
            && s'.ring.head == s'.ring.tail && s'.delivered == s'.ring.inserted
            && s'.posted == s'.dispatched == |s'.ring.inserted|
  {
    hide Inv, Exec, Run;
    AfterInv(cap, junk, tids, before);
    var s, stop := After(cap, junk, tids, before), [BeginStop, StopStep];
    InvShape(s);
    Ring.InitInv(cap, junk, tids + {DISPATCHER});
    InitInv(cap, junk, tids);
    RunAppend(Init(cap, junk, tids), before, stop);
    FlagStored(s);
    AfterInv(cap, junk, tids, before + stop);
    var s1 := After(cap, junk, tids, before + stop);
    InvShape(s1);
    QuietRun(s1, during);
    TailIsInserted(s1);
    TailIsInserted(Run(s1, during));
    StopReturns(cap, junk, tids, before + stop, during);
    RunAppend(Init(cap, junk, tids), before + stop, during);
    RunAppend(Init(cap, junk, tids), before + stop + during, [StopStep, StopStep]);
    AfterInv(cap, junk, tids, before + stop + during);
    QuietRun(Run(s1, during), [StopStep, StopStep]);
    Drained(Run(Run(s1, during), [StopStep, StopStep]));
  }

  lemma TailIsInserted(s: State)
    requires Inv(s)
    ensures |s.ring.inserted| == s.ring.tail
  {
    Counters(s.ring);
  }

  /** `stop` has begun and stored its flag. */
  lemma FlagStored(s: State)
    requires Inv(s) && s.running && s.control.Outside? && NoPosts(s)
    ensures Shape(s) && Run(s, [BeginStop, StopStep]) == s.(control := StopJoin, quiet := true, stopping := true)
  {
    hide Ring.Inv, Posters, DispatcherOk;
    RunTwo(s, BeginStop, StopStep);
  }
}
