/** The whole message path: the message life cycle of module Lifecycle over the lock-free
    ring of module Ring (src/eventqueue_fast.h over src/mpmc_queue.h). `post` spins on
    `try_push`, `dispatchOne` calls `try_pop`; all their steps interleave freely. */
module Delivery {
  import opened Bits
  import Ring
  import RingTheorems
  import Life = Lifecycle

  /** The ring of message pointers, and everything else. Each thread is in both: inside a ring
      call, or between ring calls. */
  datatype State = State(ring: Ring.State<nat>, life: Life.State)

  datatype Action =
    | BeginPost(t: nat, topic: nat, data: seq<nat>)
    | BeginDispatch(t: nat)
    | Step(t: nat, spurious: bool, choice: Life.Choice)

  /** The ring call the thread is about to make, if any. */
  function RingCall(l: Life.Local): Ring.Option<Ring.Call<nat>> {
    match l
    case PostPush(node) => Ring.Some(Ring.TryPush(node))
    case DispPop => Ring.Some(Ring.TryPop)
    case _ => Ring.None
  }

  /** What the caller does with the value the ring call returned: `dispatchOne` goes on with
      the popped pointer, or returns; `post` is done, or spins. */
  function Continue(s: Life.State, t: nat, r: Ring.Result<nat>): Life.State
    requires t in s.threads
  {
    match r
    case Popped(Some(node)) => Life.Set(s, t, Life.DispLoop(node, 0))
    case Popped(None) => Life.Exec(s, Life.Step(t, Life.Choice(0, false, true)))
    case _ => s
  }

  /** A step inside a ring call. The message changes hands at the compare-exchange. */
  function RingStep(s: State, t: nat, spurious: bool): (s': State)
    requires Ring.Shape(s.ring)
    ensures Ring.Shape(s'.ring)
  {
    var a: Ring.Action<nat> := Ring.Step(t, spurious);
    var ring' := Ring.Exec(s.ring, a);
    var life1 := if RingTheorems.Effect(s.ring, a) == [] then s.life
                 else Life.Exec(s.life, Life.Step(t, Life.Choice(0, false, false)));
    var returned := t in ring'.threads && ring'.threads[t].Idle? && t in life1.threads;
    State(ring', if returned then Continue(life1, t, ring'.threads[t].result) else life1)
  }

  function Exec(s: State, a: Action): (s': State)
    requires Ring.Shape(s.ring)
    ensures Ring.Shape(s'.ring)
  {
    if a.t !in s.ring.threads || a.t !in s.life.threads then s else
    var idle := s.ring.threads[a.t].Idle?;
    match a
    case BeginPost(t, topic, data) => if idle then s.(life := Life.Exec(s.life, Life.BeginPost(t, topic, data))) else s
    case BeginDispatch(t) => if idle then s.(life := Life.Exec(s.life, Life.BeginDispatch(t))) else s
    case Step(t, spurious, choice) =>
      if !idle then RingStep(s, t, spurious)
      else match RingCall(s.life.threads[t])
        case Some(call) => s.(ring := Ring.Exec(s.ring, Ring.Start(t, call)))
        case None => s.(life := Life.Exec(s.life, Life.Step(t, choice)))
  }

  function Run(s: State, acts: seq<Action>): (s': State)
    requires Ring.Shape(s.ring)
    ensures Ring.Shape(s'.ring)
    decreases |acts|
  {
    if acts == [] then s else Exec(Run(s, acts[..|acts| - 1]), acts[|acts| - 1])
  }

  function After(topics: seq<seq<Life.Observer>>, cap: nat, junk: seq<nat>, tids: set<nat>, acts: seq<Action>): State
    requires cap > 0 && |junk| == cap
  {
    Run(State(Ring.Init(cap, junk, tids), Life.Init(topics, cap, tids)), acts)
  }

  // ----- the coupling -----

  /** Where a thread is in the ring determines where it is outside. After its successful
      compare-exchange a push has handed its node over, and a pop has been given one. */
  predicate Coupled(inserted: seq<nat>, rl: Ring.Local<nat>, ll: Life.Local) {
    match rl
    case Idle(_) => true
    case PushLoadTail(x) => ll == Life.PostPush(x)
    case PushLoadSeq(x, _, _) => ll == Life.PostPush(x)
    case PushCas(x, _, _) => ll == Life.PostPush(x)
    case PushReload(x, _, _) => ll == Life.PostPush(x)
    case PushWrite(_, _) => ll == Life.Idle
    case PushPublish(_, _) => ll == Life.Idle
    case PopLoadHead => ll == Life.DispPop
    case PopLoadSeq(_, _) => ll == Life.DispPop
    case PopCas(_, _) => ll == Life.DispPop
    case PopReload(_, _) => ll == Life.DispPop
    case PopRead(p) => p < |inserted| && ll == Life.DispLoop(inserted[p], 0)
    case PopRelease(p, _) => p < |inserted| && ll == Life.DispLoop(inserted[p], 0)
    case SizeLoadTail => false
    case SizeLoadHead(_) => false
  }

  ghost predicate Linked(inserted: seq<nat>, rts: map<nat, Ring.Local<nat>>, lts: map<nat, Life.Local>) {
    rts.Keys == lts.Keys && forall t :: t in rts ==> Coupled(inserted, rts[t], lts[t])
  }

  ghost predicate Inv(s: State) {
    && Ring.Inv(s.ring) && Life.Inv(s.life)
    && s.ring.cap == s.life.cap && s.life.queue == RingTheorems.Contents(s.ring)
    && Linked(s.ring.inserted, s.ring.threads, s.life.threads)
  }

  /** Only thread t has moved on both sides, and it is still coupled. */
  lemma Relink(inserted: seq<nat>, rts: map<nat, Ring.Local<nat>>, lts: map<nat, Life.Local>,
               inserted': seq<nat>, rts': map<nat, Ring.Local<nat>>, lts': map<nat, Life.Local>, t: nat)
    requires Linked(inserted, rts, lts) && inserted <= inserted'
    requires rts'.Keys == rts.Keys && lts'.Keys == lts.Keys
    requires forall u :: u in rts && u != t ==> rts'[u] == rts[u]
    requires forall u :: u in lts && u != t ==> lts'[u] == lts[u]
    requires t in rts && Coupled(inserted', rts'[t], lts'[t])
    ensures Linked(inserted', rts', lts')
  {
    forall u | u in rts' ensures Coupled(inserted', rts'[u], lts'[u]) {
      assert Coupled(inserted, rts[u], lts[u]);
    }
  }

  // ----- the ring's side of a step -----

  lemma RingKeys(s: Ring.State<nat>, t: nat, spurious: bool)
    requires Ring.Shape(s) && t in s.threads
    ensures Ring.Exec(s, Ring.Step(t, spurious)).threads.Keys == s.threads.Keys
  {
    forall u: nat ensures u in Ring.Exec(s, Ring.Step(t, spurious)).threads <==> u in s.threads {
      PushKeys(s, t, spurious, u);
      PopKeys(s, t, spurious, u);
    }
  }

  lemma PushKeys(s: Ring.State<nat>, t: nat, spurious: bool, u: nat)
    requires Ring.Shape(s) && t in s.threads
    ensures u in Ring.PushStep(s, t, s.threads[t], spurious).threads <==> u in s.threads
  {
  }

  lemma PopKeys(s: Ring.State<nat>, t: nat, spurious: bool, u: nat)
    requires Ring.Shape(s) && t in s.threads
    ensures u in Ring.PopStep(s, t, s.threads[t], spurious).threads <==> u in s.threads
  {
  }

  lemma RingMoves(s: Ring.State<nat>, t: nat, spurious: bool)
    requires Ring.Inv(s) && t in s.threads
    ensures var a: Ring.Action<nat> := Ring.Step(t, spurious);
            var s' := Ring.Exec(s, a);
            && Ring.Inv(s') && s'.cap == s.cap && s'.threads.Keys == s.threads.Keys
            && (forall u :: u in s.threads && u != t ==> s'.threads[u] == s.threads[u])
            && RingTheorems.Refines(s, RingTheorems.Effect(s, a), s')
  {
    var a: Ring.Action<nat> := Ring.Step(t, spurious);
    Ring.ExecKeepsInv(s, a);
    RingTheorems.StepRefines(s, a);
    forall u | u in s.threads && u != t ensures Ring.Exec(s, a).threads[u] == s.threads[u] {
      RingTheorems.OthersUntouched(s, a, u);
    }
    RingKeys(s, t, spurious);
  }

  /** What an effect does to the contents and to the list of inserted messages. */
  lemma ContentsMove(s: Ring.State<nat>, e: seq<RingTheorems.Op<nat>>, s': Ring.State<nat>)
    requires Ring.Bounds(s) && Ring.Bounds(s') && RingTheorems.Refines(s, e, s')
    ensures s.inserted <= s'.inserted
    ensures RingTheorems.Contents(s') ==
            if e == [] then RingTheorems.Contents(s)
            else if e[0].Enq? then RingTheorems.Contents(s) + [e[0].item]
            else RingTheorems.Contents(s)[1..]
  {
  }

  /** Where the ring step leaves the thread. */
  predicate Stays(l: Ring.Local<nat>, l': Ring.Local<nat>) {
    match l
    case PushLoadTail(x) => l'.PushLoadSeq? && l'.item == x
    case PushLoadSeq(x, _, _) =>
      l' == Ring.Idle(Ring.Pushed(false)) || ((l'.PushCas? || l'.PushReload?) && l'.item == x)
    case PushCas(x, _, _) => l'.PushLoadSeq? && l'.item == x
    case PushReload(x, _, _) => l'.PushLoadSeq? && l'.item == x
    case PushWrite(_, _) => l'.PushPublish?
    case PushPublish(_, _) => l' == Ring.Idle(Ring.Pushed(true))
    case PopLoadHead => l'.PopLoadSeq?
    case PopLoadSeq(_, _) => l' == Ring.Idle(Ring.Popped(Ring.None)) || l'.PopCas? || l'.PopReload?
    case PopCas(_, _) => l'.PopLoadSeq?
    case PopReload(_, _) => l'.PopLoadSeq?
    case PopRead(p) => l'.PopRelease? && l'.pos == p
    case PopRelease(_, v) => l' == Ring.Idle(Ring.Popped(Ring.Some(v)))
    case _ => false
  }

  lemma PushStays(s: Ring.State<nat>, t: nat, spurious: bool)
    requires Ring.Shape(s) && t in s.threads && Ring.Pushing(s.threads[t])
    requires RingTheorems.Effect(s, Ring.Step(t, spurious)) == []
    ensures var s' := Ring.Exec(s, Ring.Step(t, spurious)); t in s'.threads && Stays(s.threads[t], s'.threads[t])
  {
  }

  lemma PopStays(s: Ring.State<nat>, t: nat, spurious: bool)
    requires Ring.Shape(s) && t in s.threads && Ring.Popping(s.threads[t])
    requires s.threads[t].PopCas? && s.threads[t].pos == s.head ==> s.head < |s.inserted|
    requires RingTheorems.Effect(s, Ring.Step(t, spurious)) == []
    ensures var s' := Ring.Exec(s, Ring.Step(t, spurious)); t in s'.threads && Stays(s.threads[t], s'.threads[t])
  {
  }

  // ----- the other side of a ring step -----

  /** `dispatchOne` returns without a message. */
  lemma GiveUp(s: Life.State, t: nat)
    requires t in s.threads && s.threads[t] == Life.DispPop
    ensures Life.Exec(s, Life.Step(t, Life.Choice(0, false, true))) == Life.Set(s, t, Life.Idle)
  {
  }

  lemma TakeEffect(s: Life.State, t: nat, c: Life.Choice)
    requires t in s.threads && !c.giveUp
    ensures s.threads[t].PostPush? && |s.queue| < s.cap ==>
              Life.Exec(s, Life.Step(t, c)) == Life.Enqueue(s, t, s.threads[t].node)
    ensures s.threads[t].DispPop? && s.queue != [] ==>
              Life.Exec(s, Life.Step(t, c)) == Life.Dequeue(s, t)
  {
  }

  /** What a returning ring call makes of the rest. */
  lemma Returns(life: Life.State, t: nat, inserted: seq<nat>, l: Ring.Local<nat>, l': Ring.Local<nat>)
    requires t in life.threads && Stays(l, l') && l'.Idle? && Coupled(inserted, l, life.threads[t])
    requires l.PopRelease? && l.pos < |inserted| ==> l.value == inserted[l.pos]
    ensures Continue(life, t, l'.result) == if l.PopLoadSeq? then Life.Set(life, t, Life.Idle) else life
  {
    if l.PopLoadSeq? {
      GiveUp(life, t);
    }
    if l.PopRelease? {
      assert life.threads[t := life.threads[t]] == life.threads;
    }
  }

  lemma StaysCoupled(inserted: seq<nat>, l: Ring.Local<nat>, l': Ring.Local<nat>, ll: Life.Local)
    requires Stays(l, l') && !l'.Idle? && Coupled(inserted, l, ll)
    ensures Coupled(inserted, l', ll)
  {
  }

  // ----- preservation -----

  lemma RingLocal(s: Ring.State<nat>, t: nat)
    requires Ring.Inv(s) && t in s.threads
    ensures Ring.Bounds(s)
    ensures var l := s.threads[t];
            && (l.PopCas? && l.pos == s.head ==> s.head < |s.inserted|)
            && (l.PopRelease? ==> l.pos < |s.inserted| && l.value == s.inserted[l.pos])
            && (l.PushCas? && l.pos == s.tail ==> |RingTheorems.Contents(s)| < s.cap)
            && (l.PopCas? && l.pos == s.head ==> RingTheorems.Contents(s) != [])
  {
    Ring.InvAt(s, t);
  }

  lemma GiveUpKeepsInv(s: Life.State, t: nat)
    requires Life.Inv(s) && t in s.threads && s.threads[t] == Life.DispPop
    ensures Life.Inv(Life.Set(s, t, Life.Idle))
  {
    hide Life.Inv;
    GiveUp(s, t);
    Life.ExecKeepsInv(s, Life.Step(t, Life.Choice(0, false, true)));
  }

  /** The steps of a ring call that are not its successful compare-exchange. */
  lemma SilentKeepsInv(s: State, t: nat, spurious: bool)
    requires Inv(s) && t in s.ring.threads && !s.ring.threads[t].Idle?
    requires RingTheorems.Effect(s.ring, Ring.Step(t, spurious)) == []
    ensures Inv(RingStep(s, t, spurious))
  {
    hide Ring.Inv, Life.Inv, Ring.Exec, RingTheorems.Effect, Continue, RingTheorems.Contents, RingTheorems.Refines;
    RingLocal(s.ring, t);
    var a: Ring.Action<nat> := Ring.Step(t, spurious);
    var l, ring' := s.ring.threads[t], Ring.Exec(s.ring, a);
    assert Coupled(s.ring.inserted, l, s.life.threads[t]);
    RingMoves(s.ring, t, spurious);
    RingLocal(ring', t);
    ContentsMove(s.ring, [], ring');
    if Ring.Pushing(l) { PushStays(s.ring, t, spurious); } else { PopStays(s.ring, t, spurious); }
    var l' := ring'.threads[t];
    if l'.Idle? {
      Returns(s.life, t, s.ring.inserted, l, l');
      if l.PopLoadSeq? { GiveUpKeepsInv(s.life, t); }
    } else {
      StaysCoupled(s.ring.inserted, l, l', s.life.threads[t]);
      StaysCoupled(ring'.inserted, l, l', s.life.threads[t]);
    }
    var s' := RingStep(s, t, spurious);
    Relink(s.ring.inserted, s.ring.threads, s.life.threads, ring'.inserted, ring'.threads, s'.life.threads, t);
  }

  /** The successful compare-exchange of a push hands the node to the queue. */
  lemma PushTakesEffect(s: Ring.State<nat>, t: nat, x: nat, p: nat, r: Ring.Retry)
    requires Ring.Inv(s) && t in s.threads && s.threads[t] == Ring.PushCas(x, p, r) && s.tail == p
    ensures Ring.Bounds(s) && |RingTheorems.Contents(s)| < s.cap
    ensures RingTheorems.Effect(s, Ring.Step(t, false)) == [RingTheorems.Enq(t, x)]
    ensures Ring.Exec(s, Ring.Step(t, false)) == Ring.ClaimTail(s, t, x)
  {
    Ring.InvAt(s, t);
  }

  /** The successful compare-exchange of a pop is given the oldest node. */
  lemma PopTakesEffect(s: Ring.State<nat>, t: nat, p: nat, r: Ring.Retry)
    requires Ring.Inv(s) && t in s.threads && s.threads[t] == Ring.PopCas(p, r) && s.head == p
    ensures Ring.Bounds(s) && p < |s.inserted|
    ensures RingTheorems.Contents(s) != [] && RingTheorems.Contents(s)[0] == s.inserted[p]
    ensures RingTheorems.Effect(s, Ring.Step(t, false)) == [RingTheorems.Deq(t, s.inserted[p])]
    ensures Ring.Exec(s, Ring.Step(t, false)) == Ring.ClaimHead(s, t)
  {
    Ring.InvAt(s, t);
  }

  lemma PushKeepsInv(s: State, t: nat, x: nat, p: nat, r: Ring.Retry)
    requires Inv(s) && t in s.ring.threads && s.ring.threads[t] == Ring.PushCas(x, p, r) && s.ring.tail == p
    ensures Inv(RingStep(s, t, false))
  {
    hide Ring.Inv, Life.Inv, Life.Exec, Ring.Exec, RingTheorems.Effect, Continue,
      RingTheorems.Contents, RingTheorems.Refines;
    PushTakesEffect(s.ring, t, x, p, r);
    assert Coupled(s.ring.inserted, s.ring.threads[t], s.life.threads[t]);
    var ring', life' := Ring.ClaimTail(s.ring, t, x), Life.Enqueue(s.life, t, x);
    TakeEffect(s.life, t, Life.Choice(0, false, false));
    assert RingStep(s, t, false) == State(ring', life');
    RingMoves(s.ring, t, false);
    RingLocal(ring', t);
    ContentsMove(s.ring, [RingTheorems.Enq(t, x)], ring');
    Life.EnqueueKeepsInv(s.life, t, x);
    Relink(s.ring.inserted, s.ring.threads, s.life.threads, ring'.inserted, ring'.threads, life'.threads, t);
  }

  lemma PopKeepsInv(s: State, t: nat, p: nat, r: Ring.Retry)
    requires Inv(s) && t in s.ring.threads && s.ring.threads[t] == Ring.PopCas(p, r) && s.ring.head == p
    ensures Inv(RingStep(s, t, false))
  {
    hide Ring.Inv, Life.Inv, Life.Exec, Ring.Exec, RingTheorems.Effect, Continue,
      RingTheorems.Contents, RingTheorems.Refines;
    PopTakesEffect(s.ring, t, p, r);
    assert Coupled(s.ring.inserted, s.ring.threads[t], s.life.threads[t]);
    var ring', life' := Ring.ClaimHead(s.ring, t), Life.Dequeue(s.life, t);
    TakeEffect(s.life, t, Life.Choice(0, false, false));
    assert RingStep(s, t, false) == State(ring', life');
    RingMoves(s.ring, t, false);
    RingLocal(ring', t);
    ContentsMove(s.ring, [RingTheorems.Deq(t, s.ring.inserted[p])], ring');
    Life.DequeueKeepsInv(s.life, t);
    Relink(s.ring.inserted, s.ring.threads, s.life.threads, ring'.inserted, ring'.threads, life'.threads, t);
  }

  lemma RingStepKeepsInv(s: State, t: nat, spurious: bool)
    requires Inv(s) && t in s.ring.threads && !s.ring.threads[t].Idle?
    ensures Ring.Shape(s.ring) && Inv(RingStep(s, t, spurious))
  {
    hide Ring.Inv, Life.Inv, RingStep, RingTheorems.Contents;
    RingLocal(s.ring, t);
    if RingTheorems.Effect(s.ring, Ring.Step(t, spurious)) == [] {
      SilentKeepsInv(s, t, spurious);
    } else {
      match s.ring.threads[t]
      case PushCas(x, p, r) => PushKeepsInv(s, t, x, p, r);
      case PopCas(p, r) => PopKeepsInv(s, t, p, r);
    }
  }

  /** Only thread t has moved, and the queue is the same. */
  predicate OneMoved(s: Life.State, s': Life.State, t: nat, u: nat) {
    && s'.queue == s.queue && s'.cap == s.cap && (u in s'.threads <==> u in s.threads)
    && (u in s.threads && u != t ==> s'.threads[u] == s.threads[u])
  }

  /** Outside ring calls a step leaves the queue and the other threads alone. */
  lemma PostFrame(s: Life.State, t: nat, l: Life.Local, addr: nat, u: nat)
    requires t in s.threads
    ensures OneMoved(s, Life.PostStep(s, t, l, addr), t, u)
  {
  }

  lemma CallbackFrame(s: Life.State, t: nat, n: nat, i: nat, u: nat)
    requires t in s.threads && n in s.nodes
    ensures i < |s.nodes[n].observers| ==> OneMoved(s, Life.Invoke(s, t, n, i), t, u)
    ensures OneMoved(s, Life.Set(s, t, Life.DispReturn(n)), t, u)
  {
  }

  lemma ReleaseFrame(s: Life.State, t: nat, n: nat, i: nat, p: nat, u: nat)
    requires t in s.threads && p in s.payloads
    ensures OneMoved(s, Life.ReleaseRef(s, t, n, i, p), t, u)
  {
  }

  lemma ReturnFrame(s: Life.State, t: nat, n: nat, delete: bool, u: nat)
    requires t in s.threads
    ensures OneMoved(s, Life.ReturnNode(s, t, n, delete), t, u)
  {
  }

  lemma DispFrame(s: Life.State, t: nat, l: Life.Local, delete: bool, u: nat)
    requires t in s.threads
    ensures OneMoved(s, Life.DispStep(s, t, l, delete), t, u)
  {
    hide Life.Invoke, Life.ReleaseRef, Life.ReturnNode, Life.Set;
    if (l.DispLoop? || l.DispRelease? || l.DispReturn?) && l.node in s.nodes {
      match l
      case DispLoop(n, i) => CallbackFrame(s, t, n, i, u);
      case DispRelease(n, i) =>
        if s.nodes[n].body.Managed? && s.nodes[n].body.payload in s.payloads {
          ReleaseFrame(s, t, n, i, s.nodes[n].body.payload, u);
        }
      case DispReturn(n) => ReturnFrame(s, t, n, delete, u);
    }
  }

  lemma LifeFrame(s: Life.State, a: Life.Action, u: nat)
    requires a.t in s.threads && (a.Step? ==> RingCall(s.threads[a.t]) == Ring.None)
    ensures OneMoved(s, Life.Exec(s, a), a.t, u)
  {
    hide Life.PostStep, Life.DispStep;
    if a.Step? {
      PostFrame(s, a.t, s.threads[a.t], a.choice.addr, u);
      DispFrame(s, a.t, s.threads[a.t], a.choice.delete, u);
    }
  }

  lemma LifeStepKeepsInv(s: State, a: Life.Action)
    requires Inv(s) && a.t in s.ring.threads && s.ring.threads[a.t].Idle?
    requires a.Step? ==> RingCall(s.life.threads[a.t]) == Ring.None
    ensures Inv(s.(life := Life.Exec(s.life, a)))
  {
    hide Ring.Inv, Life.Inv, Life.Exec, RingTheorems.Contents;
    Life.ExecKeepsInv(s.life, a);
    var life' := Life.Exec(s.life, a);
    forall u: nat
      ensures u in life'.threads <==> u in s.life.threads
      ensures u in s.life.threads && u != a.t ==> life'.threads[u] == s.life.threads[u]
    {
      LifeFrame(s.life, a, u);
    }
    LifeFrame(s.life, a, a.t);
    Relink(s.ring.inserted, s.ring.threads, s.life.threads, s.ring.inserted, s.ring.threads, life'.threads, a.t);
  }

  /** The thread enters `try_push` or `try_pop`. */
  lemma CallKeepsInv(s: State, t: nat)
    requires Inv(s) && t in s.ring.threads && s.ring.threads[t].Idle?
    requires RingCall(s.life.threads[t]).Some?
    ensures Ring.Shape(s.ring)
    ensures Inv(s.(ring := Ring.Exec(s.ring, Ring.Start(t, RingCall(s.life.threads[t]).value))))
  {
    hide Ring.Inv, Life.Inv, RingTheorems.Contents;
    RingLocal(s.ring, t);
    var call := RingCall(s.life.threads[t]).value;
    Ring.ExecKeepsInv(s.ring, Ring.Start(t, call));
    var ring' := Ring.Set(s.ring, t, Ring.Enter(call));
    assert Ring.Exec(s.ring, Ring.Start(t, call)) == ring';
    RingLocal(ring', t);
    ContentsMove(s.ring, [], ring');
    Relink(s.ring.inserted, s.ring.threads, s.life.threads, ring'.inserted, ring'.threads, s.life.threads, t);
  }

  lemma ExecKeepsInv(s: State, a: Action)
    requires Inv(s)
    ensures Ring.Shape(s.ring) && Inv(Exec(s, a))
  {
    hide Ring.Inv, Life.Inv, RingStep, Life.Exec, Ring.Exec, RingTheorems.Contents, Coupled;
    Ring.InvBounds(s.ring);
    if a.t in s.ring.threads {
      if !s.ring.threads[a.t].Idle? {
        if a.Step? { RingStepKeepsInv(s, a.t, a.spurious); }
      } else {
        match a
        case BeginPost(t, topic, data) => LifeStepKeepsInv(s, Life.BeginPost(t, topic, data));
        case BeginDispatch(t) => LifeStepKeepsInv(s, Life.BeginDispatch(t));
        case Step(t, _, choice) =>
          match RingCall(s.life.threads[t])
          case Some(call) => CallKeepsInv(s, t);
          case None => LifeStepKeepsInv(s, Life.Step(t, choice));
      }
    }
  }

  lemma {:induction false} AfterInv(
    topics: seq<seq<Life.Observer>>, cap: nat, junk: seq<nat>, tids: set<nat>, acts: seq<Action>)
    requires cap >= 2 && IsPowerOfTwo(cap) && |junk| == cap
    requires forall i :: 0 <= i < |topics| ==> |topics[i]| <= Life.MAX_OBSERVERS
    ensures Inv(After(topics, cap, junk, tids, acts))
    decreases |acts|
  {
    if acts == [] {
      Ring.InitInv(cap, junk, tids);
      Life.InitInv(topics, cap, tids);
    } else {
      AfterInv(topics, cap, junk, tids, acts[..|acts| - 1]);
      ExecKeepsInv(After(topics, cap, junk, tids, acts[..|acts| - 1]), acts[|acts| - 1]);
    }
  }
}
