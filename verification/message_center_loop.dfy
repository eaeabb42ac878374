/** The dispatch thread of `MessageCenterFast` delivers (src/messagecenter_fast.h:226-258): while
    the oldest message is published it is given to the observers within a bounded number of
    the thread's own steps, whatever the posting threads do. */
module MessageCenterLoop {
  import opened Bits
  import Ring
  import RingTheorems
  import opened MessageCenter
  import opened MessageCenterStop

  /** Steps left until the next message is given to the observers. */
  function ToDelivery(l: Loop, rl: Ring.Local<Message>): nat {
    match l
    case LoopCall(_) => 1
    case DrainCall(_) => 1
    case LoopPop => PopLeft(rl)
    case DrainPop => PopLeft(rl)
    case CheckStop => 7
    case DrainCount => 7
    case Wait => 8
    case LoopCount => 8
    case NotStarted => 0
    case Exited => 0
  }

  function PopLeft(rl: Ring.Local<Message>): nat {
    if rl.PopRelease? then 2 else if rl.PopRead? then 3 else if rl.PopCas? then 4 else if rl.PopLoadSeq? then 5 else 6
  }

  /** The dispatch thread is at work, and there is a message for it. */
  ghost predicate Working(s: State) {
    && Inv(s) && !s.loop.NotStarted? && !s.loop.Exited?
    && (Ring.HeadPublished(s.ring) || (DISPATCHER in s.ring.threads && Taken(s.ring, s.loop)))
  }

  // ----- steps of the dispatch thread -----

  /** It goes on with the same message to come, nearer to it. */
  ghost predicate Nearer(s: State, spurious: bool, s': State) {
    && DISPATCHER in s.ring.threads && DISPATCHER in s'.ring.threads
    && !s'.loop.NotStarted? && !s'.loop.Exited? && (Ring.HeadPublished(s'.ring) || Taken(s'.ring, s'.loop))
    && s'.delivered == s.delivered
    && ToDelivery(s'.loop, s'.ring.threads[DISPATCHER]) <
       ToDelivery(s.loop, s.ring.threads[DISPATCHER]) + if spurious then 2 else 0
  }

  /** A published head is not refused. */
  lemma NotRefused(s: State, spurious: bool)
    requires Working(s) && (s.loop.LoopPop? || s.loop.DrainPop?)
    ensures Shape(s)
    ensures var r' := Ring.Exec(s.ring, Ring.Step(DISPATCHER, spurious));
            DISPATCHER in r'.threads && r'.threads[DISPATCHER] != Ring.Idle(Ring.Popped(Ring.None))
  {
    hide Ring.Inv, Posters, ControlOk;
    DispatcherPops(s);
    AloneInPop(s);
    var rl := s.ring.threads[DISPATCHER];
    if rl.PopLoadSeq? {
      Ring.InvAt(s.ring, DISPATCHER);
      Ring.PopObserves(s.ring, rl.pos);
      LoadDecides(s.ring, DISPATCHER, spurious);
    } else {
      PopGoesOn(s.ring, spurious);
    }
  }

  /** The head stays published until it is taken. */
  lemma PopKeepsHead(s: State, spurious: bool)
    requires Working(s) && (s.loop.LoopPop? || s.loop.DrainPop?)
    ensures Shape(s)
    ensures var r' := Ring.Exec(s.ring, Ring.Step(DISPATCHER, spurious));
            Ring.HeadPublished(s.ring) && r'.head == s.ring.head ==> Ring.HeadPublished(r')
  {
    hide Ring.Inv, Posters, ControlOk, DispatcherOk, Ring.HeadPublished, Ring.Exec;
    RingTheorems.PublishedStays(s.ring, Ring.Step(DISPATCHER, spurious));
  }

  lemma OnwardNears(s: State, spurious: bool, r': Ring.State<Message>)
    requires (s.loop.LoopPop? || s.loop.DrainPop?) && DISPATCHER in s.ring.threads && DISPATCHER in r'.threads
    requires Onward(s.ring, spurious, r') && r'.threads[DISPATCHER] != Ring.Idle(Ring.Popped(Ring.None))
    requires Ring.HeadPublished(s.ring) || Taken(s.ring, s.loop)
    requires Ring.HeadPublished(s.ring) && r'.head == s.ring.head ==> Ring.HeadPublished(r')
    ensures Nearer(s, spurious, PopReturn(s, r'))
  {
    hide Ring.HeadPublished;
  }

  lemma PopNears(s: State, spurious: bool)
    requires Working(s) && (s.loop.LoopPop? || s.loop.DrainPop?)
    ensures Shape(s) && Nearer(s, spurious, PopStep(s, spurious))
  {
    hide Ring.Inv, Ring.Exec, Posters, ControlOk, DispatcherOk, Ring.HeadPublished, Onward, Nearer, PopReturn;
    AloneInPop(s);
    PopGoesOn(s.ring, spurious);
    NotRefused(s, spurious);
    PopKeepsHead(s, spurious);
    OnwardNears(s, spurious, Ring.Exec(s.ring, Ring.Step(DISPATCHER, spurious)));
  }

  lemma CallNears(s: State, l: Loop)
    requires Shape(s) && Ring.HeadPublished(s.ring) && s.ring.threads[DISPATCHER].Idle?
    ensures var s' := CallPop(s, l);
            && DISPATCHER in s'.ring.threads && s'.ring.threads[DISPATCHER].PopLoadHead? && s'.loop == l
            && Ring.HeadPublished(s'.ring) && s'.delivered == s.delivered
  {
    Ring.Entered(s.ring, DISPATCHER, Ring.TryPop);
  }

  lemma BetweenPops(s: State)
    requires Working(s) && (s.loop.CheckStop? || s.loop.DrainCount?)
    ensures Shape(s) && s.ring.threads[DISPATCHER].Idle? && Ring.HeadPublished(s.ring)
  {
    hide Ring.Inv, Posters, ControlOk, Ring.HeadPublished;
  }

  /** A step delivers the message, or brings it nearer. */
  lemma LoopNears(s: State, spurious: bool)
    requires Working(s)
    ensures Shape(s)
    ensures var s' := Advance(s, spurious); s.delivered < s'.delivered || Nearer(s, spurious, s')
  {
    hide Inv, CallPop, PopStep, Ring.HeadPublished;
    InvShape(s);
    match s.loop
    case CheckStop =>
      BetweenPops(s);
      CallNears(s, if s.stopping then DrainPop else LoopPop);
    case DrainCount =>
      BetweenPops(s);
      CallNears(s.(dispatched := s.dispatched + 1), DrainPop);
    case LoopPop => PopNears(s, spurious);
    case DrainPop => PopNears(s, spurious);
    case _ =>
  }

  // ----- steps of the others -----

  /** They do not take the message, and leave the dispatch thread where it is. */
  lemma OthersKeepWorking(s: State, a: Action)
    requires Working(s) && !a.LoopStep?
    ensures Shape(s)
    ensures var s' := Exec(s, a);
            && Working(s') && s'.delivered == s.delivered && s'.loop == s.loop
            && DISPATCHER in s.ring.threads && DISPATCHER in s'.ring.threads
            && s'.ring.threads[DISPATCHER] == s.ring.threads[DISPATCHER]
  {
    hide Inv, Exec, Ring.HeadPublished;
    InvShape(s);
    ExecKeepsInv(s, a);
    match a
    case BeginPost(t, topic, data) => BeginKeeps(s, t, Message(topic, data));
    case PostStep(t, spurious) => PostKeeps(s, t, spurious);
    case _ => ControlKeeps(s, a);
  }

  /** What the dispatch thread can tell. */
  predicate SameForLoop(s: State, s': State) {
    && DISPATCHER in s.ring.threads && DISPATCHER in s'.ring.threads
    && s'.ring.threads[DISPATCHER] == s.ring.threads[DISPATCHER]
    && s'.delivered == s.delivered && s'.loop == s.loop
    && (Ring.HeadPublished(s.ring) ==> Ring.HeadPublished(s'.ring))
  }

  lemma ControlKeeps(s: State, a: Action)
    requires Working(s) && (a.BeginStart? || a.BeginStop? || a.StopStep?)
    ensures Shape(s) && SameForLoop(s, Exec(s, a))
  {
    hide Ring.Inv, Posters, DispatcherOk, Ring.HeadPublished;
  }

  lemma StartFrame(s: State, t: nat, m: Message)
    requires Shape(s)
    ensures var s' := StartPost(s, t, m);
            && s'.delivered == s.delivered && s'.loop == s.loop
            && (s'.ring == s.ring || s'.ring == Ring.Exec(s.ring, Ring.Start(t, Ring.TryPush(m))))
  {
    hide Ring.Exec;
  }

  lemma BeginKeeps(s: State, t: nat, m: Message)
    requires Working(s)
    ensures Shape(s) && SameForLoop(s, Exec(s, BeginPost(t, m.topicId, m.data)))
  {
    hide Ring.Inv, Ring.Exec, Posters, ControlOk, DispatcherOk, Ring.HeadPublished, StartPost;
    if t in s.threads && s.threads[t].Idle? {
      PosterAt(s, t);
      StartFrame(s, t, m);
      RingTheorems.PublishedStays(s.ring, Ring.Start(t, Ring.TryPush(m)));
      Ring.Entered(s.ring, t, Ring.TryPush(m));
    }
  }

  lemma PostKeeps(s: State, t: nat, spurious: bool)
    requires Working(s)
    ensures Shape(s) && SameForLoop(s, Exec(s, PostStep(t, spurious)))
  {
    hide Ring.Inv, Ring.Exec, Posters, ControlOk, DispatcherOk, Ring.HeadPublished;
    if t in s.threads && !s.threads[t].Idle? {
      PosterAt(s, t);
      RingTheorems.PublishedStays(s.ring, Ring.Step(t, spurious));
      RingTheorems.OthersUntouched(s.ring, Ring.Step(t, spurious), DISPATCHER);
      match s.threads[t]
      case Pushing(m) => TryingMoves(s.ring, t, m, spurious);
      case Claimed(_, _) => ClaimedMoves(s.ring, t, spurious);
      case _ =>
    }
  }

  // ----- runs -----

  lemma DeliveredGrows(s: State, a: Action)
    requires Inv(s)
    ensures s.delivered <= Exec(s, a).delivered
  {
    hide Inv, StartPost, PushStep, ClaimedStep, CountPost, Advance;
    InvShape(s);
    match a
    case BeginPost(t, topic, data) => StartFrame(s, t, Message(topic, data));
    case PostStep(t, spurious) => if t in s.threads { PostFrame(s, t, spurious); }
    case LoopStep(spurious) => AdvanceGrows(s, spurious);
    case _ =>
  }

  lemma PostFrame(s: State, t: nat, spurious: bool)
    requires Shape(s) && t in s.threads
    ensures forall m :: PushStep(s, t, m, spurious).delivered == s.delivered
    ensures forall m, p :: ClaimedStep(s, t, m, p, spurious).delivered == s.delivered
    ensures forall p :: CountPost(s, t, p).delivered == s.delivered
  {
    hide Ring.Exec;
  }

  lemma AdvanceGrows(s: State, spurious: bool)
    requires Shape(s)
    ensures s.delivered <= Advance(s, spurious).delivered
  {
    hide CallPop, PopStep;
    CallFrame(s, LoopPop);
    CallFrame(s, DrainPop);
    CallFrame(s.(dispatched := s.dispatched + 1), DrainPop);
    PopFrameDelivered(s, spurious);
  }

  lemma CallFrame(s: State, l: Loop)
    requires Shape(s)
    ensures CallPop(s, l).delivered == s.delivered
  {
    hide Ring.Exec;
  }

  lemma PopFrameDelivered(s: State, spurious: bool)
    requires Shape(s)
    ensures PopStep(s, spurious).delivered == s.delivered
  {
    hide Ring.Exec, AfterPop;
  }

  ghost predicate Expected(s: State, acts: seq<Action>, s': State)
    requires DISPATCHER in s.ring.threads
  {
    && Inv(s') && s.delivered <= s'.delivered
    && (s'.delivered == s.delivered ==>
          && Working(s') && DISPATCHER in s'.ring.threads
          && ToDelivery(s'.loop, s'.ring.threads[DISPATCHER]) + LoopSteps(acts) <=
             ToDelivery(s.loop, s.ring.threads[DISPATCHER]) + 2 * SpuriousSteps(acts))
  }

  lemma ExpectedNext(s: State, acts: seq<Action>, s1: State, a: Action)
    requires DISPATCHER in s.ring.threads && Expected(s, acts, s1)
    ensures Shape(s1) && Expected(s, acts + [a], Exec(s1, a))
  {
    hide Inv, Exec, Ring.HeadPublished, ToDelivery;
    InvShape(s1);
    assert (acts + [a])[..|acts|] == acts;
    ExecKeepsInv(s1, a);
    DeliveredGrows(s1, a);
    if s1.delivered == s.delivered {
      if a.LoopStep? {
        LoopNears(s1, a.spurious);
        LoopIs(s1, a.spurious);
      } else {
        OthersKeepWorking(s1, a);
      }
    }
  }

  lemma {:induction false} RunExpected(s: State, acts: seq<Action>)
    requires Working(s)
    ensures Shape(s) && Expected(s, acts, Run(s, acts))
    decreases |acts|
  {
    hide Inv, Exec, Ring.HeadPublished, ToDelivery;
    InvShape(s);
    if acts != [] {
      var n := |acts| - 1;
      RunExpected(s, acts[..n]);
      InvShape(Run(s, acts[..n]));
      assert acts[..n] + [acts[n]] == acts;
      ExpectedNext(s, acts[..n], Run(s, acts[..n]), acts[n]);
    }
  }

  lemma ToDeliveryIsSmall(s: State)
    requires Working(s)
    ensures DISPATCHER in s.ring.threads && 1 <= ToDelivery(s.loop, s.ring.threads[DISPATCHER]) <= 8
  {
    hide Ring.Inv, Posters, DispatcherOk, Ring.HeadPublished;
  }

  /** From any reachable state in which the dispatch thread is in one of its loops and the
      oldest message is published, or in its hands: after eight of its own steps, and two for
      each spurious failure, it has given the observers a further message. */
  lemma PublishedIsDelivered(cap: nat, junk: seq<Message>, tids: set<nat>, before: seq<Action>, during: seq<Action>)
    requires cap >= 2 && IsPowerOfTwo(cap) && |junk| == cap && DISPATCHER !in tids
    requires var s := After(cap, junk, tids, before);
             && !s.loop.NotStarted? && !s.loop.Exited? && DISPATCHER in s.ring.threads
             && (Ring.HeadPublished(s.ring) || Taken(s.ring, s.loop))
    ensures var s := After(cap, junk, tids, before);
            && Shape(s)
            && var s' := Run(s, during);
               LoopSteps(during) >= 8 + 2 * SpuriousSteps(during) ==> s.delivered < s'.delivered <= s'.ring.inserted
  {
    hide Ring.Inv, Posters, ControlOk, DispatcherOk, Run, ToDelivery, Ring.HeadPublished;
    AfterInv(cap, junk, tids, before);
    var s := After(cap, junk, tids, before);
    RunExpected(s, during);
    ToDeliveryIsSmall(s);
    if Run(s, during).delivered == s.delivered { ToDeliveryIsSmall(Run(s, during)); }
    DeliveredIsInserted(Run(s, during));
  }

  lemma DeliveredIsInserted(s: State)
    requires Inv(s)
    ensures s.delivered <= s.ring.inserted
  {
    hide Ring.Inv, Posters, ControlOk;
  }

  /** `start` sets the dispatch thread to work, whenever no center is running. */
  lemma StartRuns(cap: nat, junk: seq<Message>, tids: set<nat>, acts: seq<Action>)
    requires cap >= 2 && IsPowerOfTwo(cap) && |junk| == cap && DISPATCHER !in tids
    requires var s := After(cap, junk, tids, acts); s.control.Outside?
    ensures var s' := After(cap, junk, tids, acts + [BeginStart]);
            s'.running && !s'.stopping && !s'.loop.NotStarted? && !s'.loop.Exited?
  {
    hide Ring.Inv, Posters, DispatcherOk;
    AfterInv(cap, junk, tids, acts);
    assert (acts + [BeginStart])[..|acts|] == acts;
  }
}
