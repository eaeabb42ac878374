/** `MessageCenterFast` (src/messagecenter_fast.h): any number of posting threads, the
    dispatch thread, and one thread calling `start` and `stop`, over the ring of module Ring.
    Every ring step, counter update and flag access is one step. The observer loop of a
    message runs under the observer mutex and is one step. Pool calls are left to modules Pool
    and Lifecycle. */
module MessageCenter {
  import opened Bits
  import Ring
  import RingTheorems

  const MAX_TOPICS := 1024
  const DISPATCHER: nat := 0

  datatype Message = Message(topicId: nat, data: seq<nat>)

  /** A posting thread: `Pushing` until it owns position `pos`, then still in `try_push`, then
      about to count its message. `result` is what its last `post` returned. */
  datatype Local =
    | Idle(result: Ring.Option<bool>)
    | Pushing(message: Message)
    | Claimed(message: Message, pos: nat)
    | Counting(message: Message, pos: nat)

  datatype Loop =
    | NotStarted
    | CheckStop
    | LoopPop
    | Wait
    | LoopCall(message: Message)
    | LoopCount
    | DrainPop
    | DrainCall(message: Message)
    | DrainCount
    | Exited

  datatype Control = Outside | StopStore | StopJoin | StopClear

  /** The shared state, and history: `open` maps each accepted position that is not counted
      yet to its poster; `delivered` lists the messages given to the observers; `quiet` says
      that the latest `stop` began with no post in progress and none has begun since. */
  datatype State = State(
    ring: Ring.State<Message>,
    threads: map<nat, Local>,
    loop: Loop,
    control: Control,
    running: bool,
    stopping: bool,
    posted: nat,
    dispatched: nat,
    open: map<nat, nat>,
    delivered: seq<Message>,
    quiet: bool)

  datatype Action =
    | BeginPost(t: nat, topic: nat, data: seq<nat>)
    | PostStep(t: nat, spurious: bool)
    | LoopStep(spurious: bool)
    | BeginStart
    | BeginStop
    | StopStep

  predicate Shape(s: State) {
    Ring.Shape(s.ring) && DISPATCHER in s.ring.threads && forall t :: t in s.threads ==> t in s.ring.threads
  }

  function Set(s: State, t: nat, l: Local): State {
    s.(threads := s.threads[t := l])
  }

  // ----- post -----

  function StartPost(s: State, t: nat, m: Message): State
    requires Shape(s)
  {
    if m.topicId >= MAX_TOPICS then Set(s, t, Idle(Ring.Some(false)))
    else Set(s, t, Pushing(m)).(ring := Ring.Exec(s.ring, Ring.Start(t, Ring.TryPush(m))), quiet := false)
  }

  /** A step inside `try_push`; a refused message goes back to the pool. */
  function PushStep(s: State, t: nat, m: Message, spurious: bool): State
    requires Shape(s) && t in s.threads
  {
    var r := Ring.Exec(s.ring, Ring.Step(t, spurious));
    var s1 := s.(ring := r);
    if t !in r.threads then s
    else if r.tail > s.ring.tail then Set(s1, t, Claimed(m, s.ring.tail)).(open := s.open[s.ring.tail := t])
    else if r.threads[t].Idle? then Set(s1, t, Idle(Ring.Some(false)))
    else s1
  }

  function ClaimedStep(s: State, t: nat, m: Message, p: nat, spurious: bool): State
    requires Shape(s) && t in s.threads
  {
    var r := Ring.Exec(s.ring, Ring.Step(t, spurious));
    var s1 := s.(ring := r);
    if t in r.threads && r.threads[t].Idle? then Set(s1, t, Counting(m, p)) else s1
  }

  function CountPost(s: State, t: nat, p: nat): State {
    Set(s, t, Idle(Ring.Some(true))).(posted := s.posted + 1, open := s.open - {p})
  }

  // ----- the dispatch thread -----

  function CallPop(s: State, l: Loop): State
    requires Shape(s)
  {
    s.(ring := Ring.Exec(s.ring, Ring.Start(DISPATCHER, Ring.TryPop)), loop := l)
  }

  function PopStep(s: State, spurious: bool): State
    requires Shape(s)
  {
    PopReturn(s, Ring.Exec(s.ring, Ring.Step(DISPATCHER, spurious)))
  }

  /** The dispatch thread after a ring step that led to r. */
  function PopReturn(s: State, r: Ring.State<Message>): State {
    s.(ring := r, loop := AfterPop(s.loop, r))
  }

  function AfterPop(l: Loop, r: Ring.State<Message>): Loop {
    if DISPATCHER in r.threads && r.threads[DISPATCHER].Idle? && r.threads[DISPATCHER].result.Popped? then
      match r.threads[DISPATCHER].result.item
      case Some(m) => if l.LoopPop? then LoopCall(m) else DrainCall(m)
      case None => if l.LoopPop? then Wait else Exited
    else l
  }

  function Advance(s: State, spurious: bool): State
    requires Shape(s)
  {
    match s.loop
    case CheckStop => CallPop(s, if s.stopping then DrainPop else LoopPop)
    case LoopPop => PopStep(s, spurious)
    case Wait => s.(loop := CheckStop)
    case LoopCall(m) => s.(delivered := s.delivered + [m], loop := LoopCount)
    case LoopCount => s.(dispatched := s.dispatched + 1, loop := CheckStop)
    case DrainPop => PopStep(s, spurious)
    case DrainCall(m) => s.(delivered := s.delivered + [m], loop := DrainCount)
    case DrainCount => CallPop(s.(dispatched := s.dispatched + 1), DrainPop)
    case NotStarted => s
    case Exited => s
  }

  // ----- start and stop -----

  predicate NoPosts(s: State) {
    forall t :: t in s.threads ==> s.threads[t].Idle?
  }

  function StopAdvance(s: State): State {
    match s.control
    case Outside => s
    case StopStore => s.(stopping := true, control := StopJoin)
    case StopJoin => if s.loop.Exited? then s.(control := StopClear) else s
    case StopClear => s.(running := false, control := Outside)
  }

  function Exec(s: State, a: Action): State
    requires Shape(s)
  {
    match a
    case BeginPost(t, topic, data) =>
      if t in s.threads && s.threads[t].Idle? then StartPost(s, t, Message(topic, data)) else s
    case PostStep(t, spurious) =>
      if t !in s.threads then s else
      (match s.threads[t]
       case Idle(_) => s
       case Pushing(m) => PushStep(s, t, m, spurious)
       case Claimed(m, p) => ClaimedStep(s, t, m, p, spurious)
       case Counting(_, p) => CountPost(s, t, p))
    case LoopStep(spurious) => Advance(s, spurious)
    case BeginStart =>
      if s.control.Outside? && !s.running then s.(stopping := false, running := true, loop := CheckStop, quiet := false)
      else s
    case BeginStop => if s.control.Outside? && s.running then s.(control := StopStore, quiet := NoPosts(s)) else s
    case StopStep => StopAdvance(s)
  }

  // ----- the invariant -----

  /** The dispatcher has taken a message that is not delivered yet, or not counted yet. */
  predicate Taken(r: Ring.State<Message>, l: Loop)
    requires DISPATCHER in r.threads
  {
    l.LoopCall? || l.DrainCall? || r.threads[DISPATCHER].PopRead? || r.threads[DISPATCHER].PopRelease?
  }

  predicate Uncounted(l: Loop) {
    l.LoopCount? || l.DrainCount?
  }

  /** A poster's own state agrees with its place in the ring. */
  predicate PosterOk(s: State, t: nat)
    requires t in s.threads && t in s.ring.threads
  {
    var rl := s.ring.threads[t];
    match s.threads[t]
    case Idle(_) => rl.Idle?
    case Pushing(m) => (rl.PushLoadTail? || rl.PushLoadSeq? || rl.PushCas? || rl.PushReload?) && rl.item == m
    case Claimed(m, p) =>
      && (rl.PushWrite? || rl.PushPublish?) && rl.pos == p && rl.item == m
      && p in s.open && s.open[p] == t && p < |s.ring.inserted| && s.ring.inserted[p] == m
    case Counting(m, p) =>
      && rl == Ring.Idle(Ring.Pushed(true))
      && p in s.open && s.open[p] == t && p < |s.ring.inserted| && s.ring.inserted[p] == m
  }

  /** An accepted, uncounted position belongs to a poster at work on it. */
  predicate OpenOk(s: State, p: nat)
    requires p in s.open
  {
    && p < s.ring.tail && s.open[p] in s.threads
    && var l := s.threads[s.open[p]]; (l.Claimed? || l.Counting?) && l.pos == p
  }

  ghost predicate Posters(s: State) {
    && (forall t :: t in s.ring.threads ==> t == DISPATCHER || t in s.threads)
    && DISPATCHER !in s.threads
    && (forall t :: t in s.threads ==> t in s.ring.threads)
    && (forall t :: t in s.threads ==> t in s.ring.threads && PosterOk(s, t))
    && (forall p :: p in s.open ==> OpenOk(s, p))
  }

  /** Inside `try_pop`, with the head loaded and no message claimed. */
  predicate Reaching(rl: Ring.Local<Message>) {
    rl.PopLoadSeq? || rl.PopCas? || rl.PopReload?
  }

  /** The dispatcher delivers the accepted messages in order. */
  predicate DispatcherOk(s: State)
    requires DISPATCHER in s.ring.threads
  {
    var rl := s.ring.threads[DISPATCHER];
    && (if s.loop.LoopPop? || s.loop.DrainPop? then Ring.Popping(rl) else rl.Idle?)
    && s.ring.head == |s.delivered| + (if Taken(s.ring, s.loop) then 1 else 0)
    && s.ring.head <= |s.ring.inserted|
    && s.delivered == s.ring.inserted[..|s.delivered|]
    && ((rl.PopRead? || rl.PopRelease?) ==> rl.pos + 1 == s.ring.head)
    && (Reaching(rl) ==> rl.pos == s.ring.head)
    && (s.loop.LoopCall? || s.loop.DrainCall? ==> s.ring.head > 0 && s.loop.message == s.ring.inserted[s.ring.head - 1])
    && s.dispatched + (if Uncounted(s.loop) then 1 else 0) == |s.delivered|
  }

  predicate Draining(l: Loop) {
    l.DrainPop? || l.DrainCall? || l.DrainCount? || l.Exited?
  }

  predicate ControlOk(s: State) {
    && (s.loop.NotStarted? ==> !s.running)
    && (!s.running ==> s.loop.NotStarted? || s.loop.Exited?)
    && (!s.control.Outside? ==> s.running)
    && (Draining(s.loop) ==> s.stopping)
    && (s.running && (s.control.Outside? || s.control.StopStore?) ==> !s.stopping)
    && (s.control.StopClear? ==> s.loop.Exited?)
    && (s.quiet ==> NoPosts(s) && !s.loop.NotStarted?)
    && (s.quiet && s.loop.Exited? ==> s.ring.head == s.ring.tail)
  }

  ghost predicate Inv(s: State) {
    && Ring.Inv(s.ring) && Shape(s)
    && Posters(s) && DispatcherOk(s) && ControlOk(s)
    && s.posted + |s.open| == s.ring.tail
  }

  // ----- the ring under a poster and under the dispatcher -----

  predicate Trying(rl: Ring.Local<Message>, m: Message) {
    (rl.PushLoadTail? || rl.PushLoadSeq? || rl.PushCas? || rl.PushReload?) && rl.item == m
  }

  /** The threads of the ring stay the same, and only thread t moves. */
  ghost predicate OnlyMoves(r: Ring.State<Message>, r': Ring.State<Message>, t: nat) {
    forall u: nat ::
      (u in r'.threads <==> u in r.threads) && (u in r.threads && u != t ==> r'.threads[u] == r.threads[u])
  }

  lemma RingSteps(r: Ring.State<Message>, a: Ring.Action<Message>)
    requires Ring.Inv(r) && a.t in r.threads
    ensures Ring.Shape(r) && Ring.Inv(Ring.Exec(r, a)) && OnlyMoves(r, Ring.Exec(r, a), a.t)
  {
    hide Ring.Exec;
    Ring.ExecKeepsInv(r, a);
    StillThere(r, a);
    var r' := Ring.Exec(r, a);
    forall u: nat
      ensures (u in r'.threads <==> u in r.threads) && (u in r.threads && u != a.t ==> r'.threads[u] == r.threads[u])
    {
      if u != a.t { RingTheorems.OthersUntouched(r, a, u); }
    }
  }

  lemma Counters(r: Ring.State<Message>)
    requires Ring.Inv(r)
    ensures |r.inserted| == r.tail && r.head <= r.tail
  {
  }

  lemma StillThere(r: Ring.State<Message>, a: Ring.Action<Message>)
    requires Ring.Shape(r) && a.t in r.threads
    ensures a.t in Ring.Exec(r, a).threads
  {
    hide Ring.PushStep, Ring.PopStep;
    if a.Step? {
      PushStillThere(r, a.t, a.spurious);
      PopStillThere(r, a.t, a.spurious);
    }
  }

  lemma PushStillThere(r: Ring.State<Message>, t: nat, spurious: bool)
    requires Ring.Shape(r) && t in r.threads
    ensures t in Ring.PushStep(r, t, r.threads[t], spurious).threads
  {
  }

  lemma PopStillThere(r: Ring.State<Message>, t: nat, spurious: bool)
    requires Ring.Shape(r) && t in r.threads
    ensures t in Ring.PopStep(r, t, r.threads[t], spurious).threads
  {
  }

  lemma TryingMoves(r: Ring.State<Message>, t: nat, m: Message, spurious: bool)
    requires Ring.Shape(r) && t in r.threads && Trying(r.threads[t], m)
    ensures var r' := Ring.Exec(r, Ring.Step(t, spurious));
            && t in r'.threads && r'.head == r.head
            && (r'.tail > r.tail ==>
                  && r'.tail == r.tail + 1 && r'.inserted == r.inserted + [m]
                  && r'.threads[t] == Ring.PushWrite(m, r.tail))
            && (r'.tail <= r.tail ==>
                  r'.tail == r.tail && r'.inserted == r.inserted && (r'.threads[t].Idle? || Trying(r'.threads[t], m)))
  {
    hide Ring.PopStep, Ring.SizeStep;
  }

  lemma ClaimedMoves(r: Ring.State<Message>, t: nat, spurious: bool)
    requires Ring.Shape(r) && t in r.threads && (r.threads[t].PushWrite? || r.threads[t].PushPublish?)
    ensures var r' := Ring.Exec(r, Ring.Step(t, spurious));
            && t in r'.threads && r'.head == r.head && r'.tail == r.tail && r'.inserted == r.inserted
            && (r'.threads[t] == Ring.Idle(Ring.Pushed(true)) ||
                (&& r'.threads[t].PushPublish?
                 && r'.threads[t].pos == r.threads[t].pos && r'.threads[t].item == r.threads[t].item))
  {
    hide Ring.PopStep, Ring.SizeStep;
  }

  predicate Holding(rl: Ring.Local<Message>) {
    rl.PopRead? || rl.PopRelease?
  }

  lemma PoppingMoves(r: Ring.State<Message>, t: nat, spurious: bool)
    requires Ring.Shape(r) && t in r.threads && Ring.Popping(r.threads[t])
    ensures var r' := Ring.Exec(r, Ring.Step(t, spurious));
            && t in r'.threads && r'.tail == r.tail && r'.inserted == r.inserted
            && PopMoves(r, r.threads[t], r', r'.threads[t])
  {
    hide PopMoves;
    assert Ring.Exec(r, Ring.Step(t, spurious)) == Ring.PopStep(r, t, r.threads[t], spurious);
    if Holding(r.threads[t]) { HoldingMoves(r, t, spurious); } else { ReachingMoves(r, t, spurious); }
  }

  /** What one step inside `try_pop` can do to the head and to the thread. */
  predicate PopMoves(r: Ring.State<Message>, rl: Ring.Local<Message>,
                     r': Ring.State<Message>, rl': Ring.Local<Message>) {
    if rl.PopRead? then r'.head == r.head && rl'.PopRelease? && rl'.pos == rl.pos
    else if rl.PopRelease? then r'.head == r.head && rl' == Ring.Idle(Ring.Popped(Ring.Some(rl.value)))
    else
      || (r'.head == r.head + 1 && rl' == Ring.PopRead(r.head))
      || (r'.head == r.head && Ring.Popping(rl') && !Holding(rl') &&
          (Reaching(rl') ==> rl'.pos == r.head || (Reaching(rl) && rl'.pos == rl.pos)))
      || (r'.head == r.head && rl' == Ring.Idle(Ring.Popped(Ring.None)))
  }

  lemma HoldingMoves(r: Ring.State<Message>, t: nat, spurious: bool)
    requires Ring.Shape(r) && t in r.threads && Holding(r.threads[t])
    ensures var r' := Ring.PopStep(r, t, r.threads[t], spurious);
            && t in r'.threads && r'.tail == r.tail && r'.inserted == r.inserted
            && PopMoves(r, r.threads[t], r', r'.threads[t])
  {
  }

  lemma ReachingMoves(r: Ring.State<Message>, t: nat, spurious: bool)
    requires Ring.Shape(r) && t in r.threads && Ring.Popping(r.threads[t]) && !Holding(r.threads[t])
    ensures var r' := Ring.PopStep(r, t, r.threads[t], spurious);
            && t in r'.threads && r'.tail == r.tail && r'.inserted == r.inserted
            && PopMoves(r, r.threads[t], r', r'.threads[t])
  {
  }

  /** The value about to be returned is the one of the claimed position. */
  lemma ReleasedValue(r: Ring.State<Message>, t: nat)
    requires Ring.Inv(r) && t in r.threads && r.threads[t].PopRelease?
    ensures r.threads[t].pos < |r.inserted| && r.threads[t].value == r.inserted[r.threads[t].pos]
  {
    Ring.InvAt(r, t);
  }

  /** With no post in progress an unpublished head means an empty ring. */
  lemma NothingPublished(s: State)
    requires Ring.Inv(s.ring) && Posters(s) && NoPosts(s) && !Ring.HeadPublished(s.ring)
    requires DISPATCHER in s.ring.threads && s.ring.threads[DISPATCHER].Idle?
    ensures s.ring.head == s.ring.tail
  {
    forall t | t in s.ring.threads ensures s.ring.threads[t].Idle? {
      assert t in s.threads ==> PosterOk(s, t);
    }
    NoWriters(s.ring);
  }

  lemma NoWriters(r: Ring.State<Message>)
    requires Ring.Inv(r) && (forall t :: t in r.threads ==> r.threads[t].Idle?) && !Ring.HeadPublished(r)
    ensures r.head == r.tail
  {
  }

  // ----- preservation -----

  /** Only thread t and its positions changed. */
  ghost predicate PostersFrame(s: State, s': State, t: nat) {
    && s'.threads.Keys == s.threads.Keys
    && OnlyMoves(s.ring, s'.ring, t)
    && (forall u :: u in s.threads && u != t ==> s'.threads[u] == s.threads[u])
    && s.ring.inserted <= s'.ring.inserted && s.ring.tail <= s'.ring.tail
    && (forall p :: p in s.open && s.open[p] != t ==> p in s'.open && s'.open[p] == s.open[p])
    && (forall p :: p in s'.open && s'.open[p] != t ==> p in s.open && s'.open[p] == s.open[p])
  }

  /** Nothing but the ring, thread t, the counter and the open positions changed. */
  predicate PosterMoved(s: State, s': State, t: nat) {
    && t in s.threads && t in s'.threads && s'.threads == s.threads[t := s'.threads[t]]
    && s'.loop == s.loop && s'.delivered == s.delivered && s'.dispatched == s.dispatched
    && s'.control == s.control && s'.running == s.running && s'.stopping == s.stopping
  }

  lemma FrameOf(s: State, s': State, t: nat)
    requires PosterMoved(s, s', t) && OnlyMoves(s.ring, s'.ring, t)
    requires s.ring.inserted <= s'.ring.inserted && s.ring.tail <= s'.ring.tail
    requires s'.open == s.open || (s.ring.tail !in s.open && s'.open == s.open[s.ring.tail := t])
    ensures PostersFrame(s, s', t)
  {
  }

  lemma PostersStay(s: State, s': State, t: nat)
    requires Posters(s) && PostersFrame(s, s', t)
    requires t in s.threads ==> t in s'.ring.threads && PosterOk(s', t)
    requires forall p :: p in s'.open && s'.open[p] == t ==> OpenOk(s', p)
    ensures Posters(s')
  {
    forall u | u in s'.threads ensures u in s'.ring.threads && PosterOk(s', u) {
      assert PosterOk(s, u);
    }
    forall p | p in s'.open ensures OpenOk(s', p) {
      if s'.open[p] != t { assert OpenOk(s, p); }
    }
  }

  /** A poster, and the positions it has open: the one it is at work on, if any. */
  lemma PosterAt(s: State, t: nat)
    requires Posters(s) && t in s.threads
    ensures t != DISPATCHER && t in s.ring.threads && PosterOk(s, t)
    ensures s.threads[t].Idle? || s.threads[t].Pushing? ==> forall p :: p in s.open ==> s.open[p] != t
    ensures s.threads[t].Claimed? || s.threads[t].Counting? ==>
              forall p :: p in s.open && s.open[p] == t ==> p == s.threads[t].pos
  {
    assert PosterOk(s, t);
    forall p | p in s.open && s.open[p] == t
      ensures (s.threads[t].Claimed? || s.threads[t].Counting?) && p == s.threads[t].pos
    {
      assert OpenOk(s, p);
    }
  }

  lemma TailNotOpen(s: State)
    requires Posters(s)
    ensures s.ring.tail !in s.open
  {
    assert forall p :: p in s.open ==> OpenOk(s, p);
  }

  lemma DispatcherStays(s: State, s': State)
    requires DISPATCHER in s.ring.threads && DispatcherOk(s)
    requires DISPATCHER in s'.ring.threads && s'.ring.threads[DISPATCHER] == s.ring.threads[DISPATCHER]
    requires s'.ring.head == s.ring.head && s.ring.inserted <= s'.ring.inserted
    requires s'.loop == s.loop && s'.delivered == s.delivered && s'.dispatched == s.dispatched
    ensures DispatcherOk(s')
  {
    assert s'.ring.inserted[..|s.delivered|] == s.ring.inserted[..|s.delivered|];
  }

  /** What a poster's step leaves to check. */
  lemma PosterKeepsInv(s: State, s': State, t: nat)
    requires Inv(s) && t in s.threads && Ring.Inv(s'.ring)
    requires PostersFrame(s, s', t) && t in s'.ring.threads && PosterOk(s', t)
    requires forall p :: p in s'.open && s'.open[p] == t ==> OpenOk(s', p)
    requires s'.ring.head == s.ring.head && s'.posted + |s'.open| == s'.ring.tail
    requires s'.loop == s.loop && s'.delivered == s.delivered && s'.dispatched == s.dispatched
    requires s'.control == s.control && s'.running == s.running && s'.stopping == s.stopping
    requires s'.quiet ==> s.quiet && s'.threads[t].Idle? && s'.ring.tail == s.ring.tail
    ensures Inv(s')
  {
    hide Ring.Inv, PosterOk, OpenOk, DispatcherOk, Posters;
    Ring.InvBounds(s'.ring);
    PosterAt(s, t);
    PostersStay(s, s', t);
    DispatcherStays(s, s');
    ShapeStays(s, s', t);
  }

  lemma ShapeStays(s: State, s': State, t: nat)
    requires Shape(s) && PostersFrame(s, s', t) && Ring.Shape(s'.ring)
    ensures Shape(s')
  {
  }

  lemma StartPostKeepsInv(s: State, t: nat, m: Message)
    requires Inv(s) && t in s.threads && s.threads[t].Idle?
    ensures Inv(StartPost(s, t, m))
  {
    hide Ring.Inv, Ring.Exec, Posters, OpenOk, DispatcherOk, ControlOk;
    PosterAt(s, t);
    if m.topicId < MAX_TOPICS {
      RingSteps(s.ring, Ring.Start(t, Ring.TryPush(m)));
      Ring.Entered(s.ring, t, Ring.TryPush(m));
    }
    PosterKeepsInv(s, StartPost(s, t, m), t);
  }

  lemma PushStepPoster(s: State, t: nat, m: Message, spurious: bool)
    requires Shape(s) && t in s.threads && s.threads[t] == Pushing(m) && PosterOk(s, t)
    requires |s.ring.inserted| == s.ring.tail && forall p :: p in s.open ==> s.open[p] != t
    ensures var s' := PushStep(s, t, m, spurious);
            && s'.ring == Ring.Exec(s.ring, Ring.Step(t, spurious)) && PosterMoved(s, s', t)
            && s'.posted == s.posted && s'.quiet == s.quiet
            && t in s'.ring.threads && PosterOk(s', t)
            && (forall p :: p in s'.open && s'.open[p] == t ==> OpenOk(s', p))
            && s'.ring.head == s.ring.head && s.ring.inserted <= s'.ring.inserted && s.ring.tail <= s'.ring.tail
            && (if s'.ring.tail == s.ring.tail then s'.open == s.open
                else s'.ring.tail == s.ring.tail + 1 && s'.open == s.open[s.ring.tail := t])
  {
    hide Ring.Exec;
    TryingMoves(s.ring, t, m, spurious);
  }

  lemma PushStepKeepsInv(s: State, t: nat, m: Message, spurious: bool)
    requires Inv(s) && t in s.threads && s.threads[t] == Pushing(m)
    ensures Inv(PushStep(s, t, m, spurious))
  {
    hide Ring.Inv, Ring.Exec, Posters, DispatcherOk, ControlOk, PosterOk, OpenOk, PushStep, PostersFrame, OnlyMoves;
    PosterAt(s, t);
    TailNotOpen(s);
    NotQuiet(s, t);
    RingSteps(s.ring, Ring.Step(t, spurious));
    Counters(s.ring);
    PushStepPoster(s, t, m, spurious);
    var s' := PushStep(s, t, m, spurious);
    GrownBy(s.open, s'.open, s.ring.tail, t);
    FrameOf(s, s', t);
    PosterKeepsInv(s, s', t);
  }

  lemma GrownBy(m: map<nat, nat>, m': map<nat, nat>, p: nat, t: nat)
    requires p !in m
    ensures m' == m[p := t] ==> |m'| == |m| + 1
  {
    if m' == m[p := t] {
      assert m'.Keys == m.Keys + {p};
    }
  }

  lemma NotQuiet(s: State, t: nat)
    requires ControlOk(s) && t in s.threads && !s.threads[t].Idle?
    ensures !s.quiet
  {
  }

  lemma ClaimedStepKeepsInv(s: State, t: nat, m: Message, p: nat, spurious: bool)
    requires Inv(s) && t in s.threads && s.threads[t] == Claimed(m, p)
    ensures Inv(ClaimedStep(s, t, m, p, spurious))
  {
    hide Ring.Inv, Ring.Exec, Posters, DispatcherOk, ControlOk;
    PosterAt(s, t);
    OpenAt(s, p);
    NotQuiet(s, t);
    RingSteps(s.ring, Ring.Step(t, spurious));
    ClaimedMoves(s.ring, t, spurious);
    PosterKeepsInv(s, ClaimedStep(s, t, m, p, spurious), t);
  }

  lemma OpenAt(s: State, p: nat)
    requires Posters(s) && p in s.open
    ensures OpenOk(s, p)
  {
  }

  lemma CountPostKeepsInv(s: State, t: nat, m: Message, p: nat)
    requires Inv(s) && t in s.threads && s.threads[t] == Counting(m, p)
    ensures Inv(CountPost(s, t, p))
  {
    hide Ring.Inv, Ring.Exec, Posters, DispatcherOk, ControlOk;
    PosterAt(s, t);
    NotQuiet(s, t);
    var s' := CountPost(s, t, p);
    assert s.open == s'.open[p := t];
    GrownBy(s'.open, s.open, p, t);
    PosterKeepsInv(s, s', t);
  }

  /** The dispatch thread moved: the posters did not. */
  lemma LoopKeepsPosters(s: State, s': State)
    requires Posters(s) && Shape(s) && s'.threads == s.threads && s'.open == s.open
    requires s'.ring.inserted == s.ring.inserted
    requires s'.ring.tail == s.ring.tail && OnlyMoves(s.ring, s'.ring, DISPATCHER) && Ring.Shape(s'.ring)
    ensures Posters(s') && Shape(s')
  {
    PostersStay(s, s', DISPATCHER);
  }

  lemma SamePosters(s: State, s': State)
    requires Posters(s) && Shape(s) && s'.threads == s.threads && s'.open == s.open && s'.ring == s.ring
    ensures Posters(s') && Shape(s')
  {
    LoopKeepsPosters(s, s');
  }

  lemma CallPopKeepsInv(s: State, l: Loop)
    requires Inv(s) && s.ring.threads[DISPATCHER].Idle? && (l.LoopPop? || l.DrainPop?)
    requires !Taken(s.ring, s.loop) && !Uncounted(s.loop) && s.running
    requires l.DrainPop? ==> s.stopping
    requires !s.loop.NotStarted? && !s.loop.Exited?
    ensures Inv(CallPop(s, l))
  {
    hide Ring.Inv, Ring.Exec, Posters;
    RingSteps(s.ring, Ring.Start(DISPATCHER, Ring.TryPop));
    Ring.Entered(s.ring, DISPATCHER, Ring.TryPop);
    Ring.InvBounds(CallPop(s, l).ring);
    LoopKeepsPosters(s, CallPop(s, l));
  }

  /** What the dispatch thread does with the outcome of its ring step. */
  lemma PopDispatcher(s: State, spurious: bool)
    requires Shape(s) && DispatcherOk(s) && (s.loop.LoopPop? || s.loop.DrainPop?)
    requires var rl := s.ring.threads[DISPATCHER];
             rl.PopRelease? ==> rl.pos < |s.ring.inserted| && rl.value == s.ring.inserted[rl.pos]
    requires |s.ring.inserted| == s.ring.tail && Ring.Exec(s.ring, Ring.Step(DISPATCHER, spurious)).head <= s.ring.tail
    ensures DISPATCHER in PopStep(s, spurious).ring.threads && DispatcherOk(PopStep(s, spurious))
  {
    hide DispatcherOk, PopReturn, Ring.Exec, PopMoves;
    var rl, r := s.ring.threads[DISPATCHER], Ring.Exec(s.ring, Ring.Step(DISPATCHER, spurious));
    DispatcherPops(s);
    PoppingMoves(s.ring, DISPATCHER, spurious);
    ReturnsRing(s, r);
    if rl.PopRelease? {
      ReleaseDispatcher(s, r);
    } else if rl.PopRead? {
      ReadDispatcher(s, r);
    } else {
      ClaimDispatcher(s, r);
    }
  }

  lemma ReturnsRing(s: State, r: Ring.State<Message>)
    ensures var s' := PopReturn(s, r);
            s'.ring == r && s'.threads == s.threads && s'.open == s.open && s'.posted == s.posted
  {
  }

  lemma ReleaseDispatcher(s: State, r: Ring.State<Message>)
    requires DISPATCHER in s.ring.threads && DispatcherOk(s) && (s.loop.LoopPop? || s.loop.DrainPop?)
    requires var rl := s.ring.threads[DISPATCHER];
             rl.PopRelease? && rl.pos < |s.ring.inserted| && rl.value == s.ring.inserted[rl.pos]
    requires DISPATCHER in r.threads && r.inserted == s.ring.inserted
    requires PopMoves(s.ring, s.ring.threads[DISPATCHER], r, r.threads[DISPATCHER])
    ensures DispatcherOk(PopReturn(s, r))
  {
  }

  lemma ReadDispatcher(s: State, r: Ring.State<Message>)
    requires DISPATCHER in s.ring.threads && DispatcherOk(s) && (s.loop.LoopPop? || s.loop.DrainPop?)
    requires s.ring.threads[DISPATCHER].PopRead?
    requires DISPATCHER in r.threads && r.inserted == s.ring.inserted
    requires PopMoves(s.ring, s.ring.threads[DISPATCHER], r, r.threads[DISPATCHER])
    ensures DispatcherOk(PopReturn(s, r))
  {
  }

  lemma ClaimDispatcher(s: State, r: Ring.State<Message>)
    requires DISPATCHER in s.ring.threads && DispatcherOk(s) && (s.loop.LoopPop? || s.loop.DrainPop?)
    requires !Holding(s.ring.threads[DISPATCHER]) && r.head <= |s.ring.inserted|
    requires DISPATCHER in r.threads && r.inserted == s.ring.inserted
    requires PopMoves(s.ring, s.ring.threads[DISPATCHER], r, r.threads[DISPATCHER])
    ensures DispatcherOk(PopReturn(s, r))
  {
  }

  lemma PopFrame(s: State, spurious: bool)
    requires Shape(s) && Ring.Popping(s.ring.threads[DISPATCHER])
    ensures var s' := PopStep(s, spurious);
            && s'.ring == Ring.Exec(s.ring, Ring.Step(DISPATCHER, spurious))
            && s'.ring.inserted == s.ring.inserted && s'.ring.tail == s.ring.tail
            && s'.threads == s.threads && s'.open == s.open && s'.posted == s.posted
  {
    hide Ring.Exec, PopReturn, PopMoves;
    PoppingMoves(s.ring, DISPATCHER, spurious);
    ReturnsRing(s, Ring.Exec(s.ring, Ring.Step(DISPATCHER, spurious)));
  }

  lemma PopStepKeepsInv(s: State, spurious: bool)
    requires Inv(s) && (s.loop.LoopPop? || s.loop.DrainPop?)
    ensures Inv(PopStep(s, spurious))
  {
    hide Ring.Inv, Ring.Exec, Ring.HeadPublished, Posters, DispatcherOk, ControlOk, PopStep, OnlyMoves;
    var s' := PopStep(s, spurious);
    DispatcherPops(s);
    RingSteps(s.ring, Ring.Step(DISPATCHER, spurious));
    PopFrame(s, spurious);
    Counters(s.ring);
    Counters(s'.ring);
    if s.ring.threads[DISPATCHER].PopRelease? { ReleasedValue(s.ring, DISPATCHER); }
    PopDispatcher(s, spurious);
    Ring.InvBounds(s'.ring);
    LoopKeepsPosters(s, s');
    PopControl(s, spurious);
  }

  /** The drain loop ends, with no post in progress, only on an empty ring. */
  lemma PopControl(s: State, spurious: bool)
    requires Inv(s) && (s.loop.LoopPop? || s.loop.DrainPop?)
    requires Ring.Inv(PopStep(s, spurious).ring) && Posters(PopStep(s, spurious))
    ensures ControlOk(PopStep(s, spurious))
  {
    hide Ring.Inv, Ring.Exec, Ring.HeadPublished, Posters, DispatcherOk;
    var s' := PopStep(s, spurious);
    DispatcherPops(s);
    PoppingMoves(s.ring, DISPATCHER, spurious);
    if s'.loop.Exited? && s.quiet {
      RingTheorems.RefusedMeansUnpublished(s.ring, DISPATCHER, spurious);
      NothingPublished(s');
    }
  }

  lemma DispatcherPops(s: State)
    requires DISPATCHER in s.ring.threads && DispatcherOk(s) && (s.loop.LoopPop? || s.loop.DrainPop?)
    ensures Ring.Popping(s.ring.threads[DISPATCHER])
  {
  }

  lemma PlainLoopKeepsInv(s: State, spurious: bool)
    requires Inv(s) && (s.loop.Wait? || s.loop.LoopCall? || s.loop.LoopCount? || s.loop.DrainCall?)
    ensures Inv(Advance(s, spurious))
  {
    hide Ring.Inv, Posters;
    SamePosters(s, Advance(s, spurious));
    if s.loop.LoopCall? || s.loop.DrainCall? {
      NextDelivered(s.ring.inserted, s.ring.head);
    }
  }

  lemma NextDelivered(inserted: seq<Message>, n: nat)
    requires 0 < n <= |inserted|
    ensures inserted[..n - 1] + [inserted[n - 1]] == inserted[..n]
  {
  }

  lemma DrainCountKeepsInv(s: State)
    requires Inv(s) && s.loop.DrainCount?
    ensures Inv(Advance(s, false))
  {
    hide Ring.Inv, Ring.Exec, Posters;
    var s1 := s.(dispatched := s.dispatched + 1, loop := Wait);
    SamePosters(s, s1);
    CallPopKeepsInv(s1, DrainPop);
    assert CallPop(s1, DrainPop) == CallPop(s.(dispatched := s.dispatched + 1), DrainPop);
  }

  lemma AdvanceKeepsInv(s: State, spurious: bool)
    requires Inv(s)
    ensures Inv(Advance(s, spurious))
  {
    hide Ring.Inv, Ring.Exec, CallPop, PopStep, Posters;
    match s.loop
    case CheckStop => CallPopKeepsInv(s, if s.stopping then DrainPop else LoopPop);
    case LoopPop => PopStepKeepsInv(s, spurious);
    case DrainPop => PopStepKeepsInv(s, spurious);
    case DrainCount => DrainCountKeepsInv(s);
    case NotStarted =>
    case Exited =>
    case _ => PlainLoopKeepsInv(s, spurious);
  }

  lemma ControlKeepsInv(s: State, a: Action)
    requires Inv(s) && (a.BeginStart? || a.BeginStop? || a.StopStep?)
    ensures Inv(Exec(s, a))
  {
    hide Ring.Inv, Posters;
    SamePosters(s, Exec(s, a));
  }

  lemma ExecKeepsInv(s: State, a: Action)
    requires Inv(s)
    ensures Inv(Exec(s, a))
  {
    hide Ring.Inv, Posters, DispatcherOk, ControlOk, StartPost, PushStep, ClaimedStep, CountPost, Advance;
    match a
    case BeginPost(t, topic, data) =>
      if t in s.threads && s.threads[t].Idle? { StartPostKeepsInv(s, t, Message(topic, data)); }
    case PostStep(t, spurious) =>
      if t in s.threads {
        match s.threads[t]
        case Idle(_) =>
        case Pushing(m) => PushStepKeepsInv(s, t, m, spurious);
        case Claimed(m, p) => ClaimedStepKeepsInv(s, t, m, p, spurious);
        case Counting(m, p) => CountPostKeepsInv(s, t, m, p);
      }
    case LoopStep(spurious) => AdvanceKeepsInv(s, spurious);
    case _ => ControlKeepsInv(s, a);
  }

  // ----- runs -----

  function Run(s: State, acts: seq<Action>): State
    requires Shape(s)
    decreases |acts|
  {
    if acts == [] then s else
    var before := Run(s, acts[..|acts| - 1]);
    if Shape(before) then Exec(before, acts[|acts| - 1]) else before
  }

  /** A new center: posters `tids`, the dispatch thread not started. */
  function Init(cap: nat, junk: seq<Message>, tids: set<nat>): (s: State)
    requires cap > 0 && |junk| == cap
    ensures Shape(s)
  {
    State(Ring.Init(cap, junk, tids + {DISPATCHER}), map t | t in tids :: Idle(Ring.None),
          NotStarted, Outside, false, false, 0, 0, map[], [], false)
  }

  function After(cap: nat, junk: seq<Message>, tids: set<nat>, acts: seq<Action>): State
    requires cap > 0 && |junk| == cap
  {
    Run(Init(cap, junk, tids), acts)
  }

  lemma {:induction false} RunKeepsInv(s: State, acts: seq<Action>)
    requires Inv(s)
    ensures Inv(Run(s, acts))
    decreases |acts|
  {
    if acts != [] {
      RunKeepsInv(s, acts[..|acts| - 1]);
      ExecKeepsInv(Run(s, acts[..|acts| - 1]), acts[|acts| - 1]);
    }
  }

  lemma {:induction false} RunAppend(s: State, p: seq<Action>, q: seq<Action>)
    requires Inv(s)
    ensures Shape(s) && Shape(Run(s, p)) && Run(s, p + q) == Run(Run(s, p), q)
    decreases |q|
  {
    hide Exec, Inv;
    InvShape(s);
    RunKeepsInv(s, p);
    InvShape(Run(s, p));
    if q == [] {
      assert p + q == p;
    } else {
      var n := |q| - 1;
      assert (p + q)[..|p| + n] == p + q[..n];
      RunAppend(s, p, q[..n]);
    }
  }

  lemma AfterInv(cap: nat, junk: seq<Message>, tids: set<nat>, acts: seq<Action>)
    requires cap >= 2 && IsPowerOfTwo(cap) && |junk| == cap && DISPATCHER !in tids
    ensures Inv(After(cap, junk, tids, acts))
  {
    Ring.InitInv(cap, junk, tids + {DISPATCHER});
    InitInv(cap, junk, tids);
    RunKeepsInv(Init(cap, junk, tids), acts);
  }

  lemma InitInv(cap: nat, junk: seq<Message>, tids: set<nat>)
    requires cap > 0 && |junk| == cap && DISPATCHER !in tids && Ring.Inv(Ring.Init(cap, junk, tids + {DISPATCHER}))
    ensures Inv(Init(cap, junk, tids))
  {
    hide Ring.Inv;
  }

  // ----- conservation -----

  /** Messages popped by the dispatch thread and not counted yet. */
  function InHand(s: State): nat
    requires DISPATCHER in s.ring.threads
  {
    if Taken(s.ring, s.loop) || Uncounted(s.loop) then 1 else 0
  }

  /** In every reachable state: accepted posts not yet counted, plus `m_posted`, equal
      `m_dispatched` plus the queued messages plus the one popped but not counted; and the
      observers were given exactly the accepted messages, in order of acceptance, up to the
      head of the ring. */
  lemma Conservation(cap: nat, junk: seq<Message>, tids: set<nat>, acts: seq<Action>)
    requires cap >= 2 && IsPowerOfTwo(cap) && |junk| == cap && DISPATCHER !in tids
    ensures var s := After(cap, junk, tids, acts);
            && DISPATCHER in s.ring.threads && s.ring.head <= s.ring.tail == |s.ring.inserted|
            && |s.open| + s.posted == s.dispatched + (s.ring.tail - s.ring.head) + InHand(s)
            && s.delivered <= s.ring.inserted
            && s.dispatched <= |s.delivered| <= s.dispatched + 1
  {
    hide Ring.Inv, Posters, ControlOk;
    AfterInv(cap, junk, tids, acts);
    Counters(After(cap, junk, tids, acts).ring);
  }

  /** A post about to return true owns a position that holds its message; nobody else's
      success is counted for that position. */
  lemma AcceptedMeansInserted(cap: nat, junk: seq<Message>, tids: set<nat>, acts: seq<Action>, t: nat, u: nat)
    requires cap >= 2 && IsPowerOfTwo(cap) && |junk| == cap && DISPATCHER !in tids
    requires var s := After(cap, junk, tids, acts);
             t in s.threads && u in s.threads && t != u && s.threads[t].Counting?
    ensures var s := After(cap, junk, tids, acts);
            && s.threads[t].pos < |s.ring.inserted| && s.ring.inserted[s.threads[t].pos] == s.threads[t].message
            && (s.threads[u].Claimed? || s.threads[u].Counting? ==> s.threads[u].pos != s.threads[t].pos)
  {
    AfterInv(cap, junk, tids, acts);
    PosterAt(After(cap, junk, tids, acts), t);
    PosterAt(After(cap, junk, tids, acts), u);
  }

  // ----- what a drain leaves -----

  /** A position is claimed and unpublished in the ring exactly while its post is in `try_push`. */
  lemma WritersAreClaimed(s: State, p: nat)
    requires Ring.Inv(s.ring) && Posters(s) && DISPATCHER in s.ring.threads && !Ring.Pushing(s.ring.threads[DISPATCHER])
    ensures p in s.ring.writers <==> p in s.open && s.open[p] in s.threads && s.threads[s.open[p]].Claimed?
  {
    if p in s.ring.writers {
      assert Ring.WriterOk(s.ring, p);
      PosterAt(s, s.ring.writers[p]);
    }
    if p in s.open && s.open[p] in s.threads && s.threads[s.open[p]].Claimed? {
      OpenAt(s, p);
      PosterAt(s, s.open[p]);
      Ring.InvAt(s.ring, s.open[p]);
    }
  }

  /** The drain loop of `stop` ends, at its sequence load, if and only if the queue is empty or
      the post of the oldest accepted message is still in progress: then that message, and
      those accepted after it, stay behind. */
  lemma DrainEndsIff(cap: nat, junk: seq<Message>, tids: set<nat>, acts: seq<Action>, spurious: bool)
    requires cap >= 2 && IsPowerOfTwo(cap) && |junk| == cap && DISPATCHER !in tids
    requires var s := After(cap, junk, tids, acts);
             s.loop.DrainPop? && DISPATCHER in s.ring.threads && s.ring.threads[DISPATCHER].PopLoadSeq?
    ensures var s := After(cap, junk, tids, acts);
            && Shape(s)
            && (Exec(s, LoopStep(spurious)).loop.Exited? <==>
                  || s.ring.head == s.ring.tail
                  || (&& s.ring.head in s.open && s.open[s.ring.head] in s.threads
                      && s.threads[s.open[s.ring.head]].Claimed?))
  {
    hide Ring.Inv, Posters, ControlOk;
    AfterInv(cap, junk, tids, acts);
    var s := After(cap, junk, tids, acts);
    Counters(s.ring);
    WritersAreClaimed(s, s.ring.head);
    Ring.PopObserves(s.ring, s.ring.head);
    LoadDecides(s.ring, DISPATCHER, spurious);
  }

  lemma LoadDecides(r: Ring.State<Message>, t: nat, spurious: bool)
    requires Ring.Shape(r) && t in r.threads && r.threads[t].PopLoadSeq?
    ensures var r' := Ring.Exec(r, Ring.Step(t, spurious)); var q := r.seqs[Slot(r.threads[t].pos, r.cap)];
            && t in r'.threads
            && (r'.threads[t] == Ring.Idle(Ring.Popped(Ring.None)) || !r'.threads[t].Idle?)
            && (r'.threads[t].Idle? <==> q < r.threads[t].pos + 1)
  {
    hide Ring.PushStep, Ring.SizeStep;
  }

  // ----- stop drains -----

  lemma QuietStays(s: State, a: Action)
    requires Inv(s) && s.quiet && !a.BeginPost? && !a.BeginStart?
    ensures Exec(s, a).quiet && Exec(s, a).ring.inserted == s.ring.inserted
  {
    hide Ring.Inv, Posters, Ring.Exec;
    if a.LoopStep? {
      CallPopFrame(s);
      if s.loop.LoopPop? || s.loop.DrainPop? {
        DispatcherPops(s);
        PopFrame(s, a.spurious);
      }
    }
  }

  lemma CallPopFrame(s: State)
    requires Shape(s)
    ensures Ring.Exec(s.ring, Ring.Start(DISPATCHER, Ring.TryPop)).inserted == s.ring.inserted
  {
  }

  lemma {:induction false} QuietRun(s: State, acts: seq<Action>)
    requires Inv(s) && s.quiet && forall i :: 0 <= i < |acts| ==> !acts[i].BeginPost? && !acts[i].BeginStart?
    ensures Inv(Run(s, acts)) && Run(s, acts).quiet && Run(s, acts).ring.inserted == s.ring.inserted
    decreases |acts|
  {
    hide Exec, Inv;
    InvShape(s);
    RunKeepsInv(s, acts);
    if acts != [] {
      QuietRun(s, acts[..|acts| - 1]);
      InvShape(Run(s, acts[..|acts| - 1]));
      QuietStays(Run(s, acts[..|acts| - 1]), acts[|acts| - 1]);
    }
  }

  lemma InvShape(s: State)
    requires Inv(s)
    ensures Shape(s)
  {
  }

  lemma NothingOpen(s: State)
    requires Posters(s) && NoPosts(s)
    ensures s.open == map[]
  {
    forall p: nat ensures p !in s.open {
      if p in s.open { OpenAt(s, p); }
    }
  }

  /** If every post has returned before `stop` begins and none begins before it returns, then
      when it has returned the queue is empty, the observers have been given every accepted
      message exactly once, in order, and the two counters agree. */
  lemma StopDrains(cap: nat, junk: seq<Message>, tids: set<nat>, before: seq<Action>, during: seq<Action>)
    requires cap >= 2 && IsPowerOfTwo(cap) && |junk| == cap && DISPATCHER !in tids
    requires var s := After(cap, junk, tids, before); s.running && s.control.Outside? && NoPosts(s)
    requires forall i :: 0 <= i < |during| ==> !during[i].BeginPost? && !during[i].BeginStart?
    ensures var s := After(cap, junk, tids, before);
            && Shape(s) && Shape(Exec(s, BeginStop))
            && var s' := Run(Exec(s, BeginStop), during);
               !s'.running ==>
                 && s'.ring.inserted == s.ring.inserted && s'.ring.head == s'.ring.tail
                 && s'.delivered == s'.ring.inserted
                 && s'.posted == s'.dispatched == |s'.ring.inserted|
  {
    hide Ring.Inv;
    AfterInv(cap, junk, tids, before);
    var s := After(cap, junk, tids, before);
    ExecKeepsInv(s, BeginStop);
    QuietRun(Exec(s, BeginStop), during);
    var s' := Run(Exec(s, BeginStop), during);
    Counters(s'.ring);
    if !s'.running {
      Drained(s');
    }
  }

  lemma Drained(s: State)
    requires Inv(s) && s.quiet && !s.running
    ensures s.ring.head == s.ring.tail && s.delivered == s.ring.inserted
    ensures s.posted == s.dispatched == |s.ring.inserted|
  {
    hide Ring.Inv;
    Counters(s.ring);
    NothingOpen(s);
  }
}
