/** Two posting threads over the real pool (src/eventqueue_fast.h:118, with
    src/objectpool_lockfree.h:85-96): the run in which one post is delivered twice and another
    never, and the exact condition for end-to-end delivery. */
module PooledClash {
  import opened Bits
  import Ring
  import RingTheorems
  import RingSolo
  import Life = Lifecycle
  import D = Delivery
  import DeliveryTheorems
  import Pool
  import opened PoolTheorems
  import opened PooledDelivery

  /** The next step of thread t, no compare-exchange failing. */
  function Next(t: nat): D.Action {
    D.Step(t, false, Life.Choice(0, false, false))
  }

  function Steps(t: nat, n: nat): (acts: seq<D.Action>)
    ensures |acts| == n
  {
    if n == 0 then [] else Steps(t, n - 1) + [Next(t)]
  }

  function WithLife(s: State, life: Life.State): State {
    s.(delivery := s.delivery.(life := life))
  }

  lemma StepsNext(s: State, t: nat, n: nat)
    requires Ring.Shape(s.delivery.ring)
    ensures Run(s, Steps(t, n + 1)) == Exec(Run(s, Steps(t, n)), Next(t))
    ensures Run(s, Steps(t, 0)) == s
  {
    hide Exec;
    assert Steps(t, n + 1)[..n] == Steps(t, n);
  }

  lemma RunOne(s: State, a: D.Action)
    requires Ring.Shape(s.delivery.ring)
    ensures Run(s, [a]) == Exec(s, a)
  {
    hide Exec;
    assert [a][..0] == [];
  }

  lemma {:induction false} RunAppend(s: State, p: seq<D.Action>, q: seq<D.Action>)
    requires Ring.Shape(s.delivery.ring)
    ensures Run(s, p + q) == Run(Run(s, p), q)
    decreases |q|
  {
    hide Exec;
    if q == [] {
      assert p + q == p;
    } else {
      var n := |q| - 1;
      assert (p + q)[..|p| + n] == p + q[..n];
      RunAppend(s, p, q[..n]);
    }
  }

  /** A step outside the pool and the ring. */
  lemma LifeStep(s: State, t: nat)
    requires Ring.Shape(s.delivery.ring) && Known(s, t) && s.pool.threads[t] == Pool.Idle
    requires s.delivery.ring.threads[t].Idle? && !NeedsPool(s.delivery.life.threads[t])
    requires D.RingCall(s.delivery.life.threads[t]) == Ring.None
    ensures Exec(s, Next(t)) == WithLife(s, Life.Exec(s.delivery.life, Life.Step(t, Life.Choice(0, false, false))))
  {
    hide Life.Exec, Pool.Exec, D.RingStep, Ring.Exec;
  }

  // ----- the two threads between macro steps -----

  /** Both threads are outside the ring, nothing is in flight on it, and the queue of the
      message path is its contents; the pool is not over its limit. */
  ghost predicate Base(s: State, topics: seq<seq<Life.Observer>>, a: nat, b: nat) {
    && a != b && Known(s, a) && Known(s, b)
    && RingSolo.Ready(s.delivery.ring, a) && RingSolo.Ready(s.delivery.ring, b)
    && s.delivery.life.topics == topics && s.delivery.life.cap == s.delivery.ring.cap
    && s.delivery.life.queue == RingTheorems.Contents(s.delivery.ring)
    && a in s.pool.acquirers && b in s.pool.acquirers && !TooMany(s.pool)
  }

  lemma BaseShape(s: State, topics: seq<seq<Life.Observer>>, a: nat, b: nat)
    requires Base(s, topics, a, b)
    ensures Ring.Bounds(s.delivery.ring) && Base(s, topics, b, a)
  {
    hide RingTheorems.NothingInFlight;
    RingSolo.SlotsDecide(s.delivery.ring);
  }

  // ----- acquire -----

  /** A step inside a pool call. */
  lemma PoolStep(s: State, t: nat)
    requires Ring.Shape(s.delivery.ring) && Known(s, t) && s.pool.threads[t] != Pool.Idle
    ensures Exec(s, Next(t)) ==
            WithLife(s, AfterPool(s.delivery.life, s.pool, t, false))
            .(pool := Pool.Exec(s.pool, Pool.Step(t, false, 0)))
  {
    hide Pool.Exec, AfterPool;
  }

  /** Thread t has loaded the observer count, and calls `acquire` next. */
  function Loaded(life: Life.State, t: nat, topic: nat): Life.State {
    Life.Set(life, t, Life.PostAcquire(topic, [], |Life.ObserversOf(life, topic)|))
  }

  lemma BeginsPost(s: State, t: nat, topic: nat)
    requires Ring.Shape(s.delivery.ring) && Known(s, t) && t in s.pool.acquirers && s.delivery.ring.threads[t].Idle?
    requires s.pool.threads[t] == Pool.Idle && s.delivery.life.threads[t] == Life.Idle
    requires Life.ObserversOf(s.delivery.life, topic) != []
    ensures Run(s, [D.BeginPost(t, topic, [])] + Steps(t, 1)) == WithLife(s, Loaded(s.delivery.life, t, topic))
  {
    hide Pool.Exec, D.RingStep, Ring.Exec;
    var begin := D.BeginPost(t, topic, []);
    var s1 := WithLife(s, Life.Set(s.delivery.life, t, Life.PostLoad(topic, [])));
    RunOne(s, begin);
    assert Exec(s, begin) == s1;
    RunAppend(s, [begin], Steps(t, 1));
    StepsNext(s1, t, 0);
    LifeStep(s1, t);
    assert s1.delivery.life.threads[t := Loaded(s.delivery.life, t, topic).threads[t]] ==
           Loaded(s.delivery.life, t, topic).threads;
  }

  lemma PopFreeReads(p: Pool.State, t: nat, x: nat, link: Pool.Ptr)
    requires t in p.threads && p.threads[t] == Pool.Idle && t in p.acquirers
    requires p.freeList == Pool.At(x) && NextIs(p, x, link)
    ensures Pool.Exec(p, Pool.Acquire(t)) == Pool.Set(p, t, Pool.AcqLoad)
    ensures Pool.Exec(Pool.Set(p, t, Pool.AcqLoad), Pool.Step(t, false, 0)) == Pool.Set(p, t, Pool.AcqReadNext(x))
    ensures Pool.Exec(Pool.Set(p, t, Pool.AcqReadNext(x)), Pool.Step(t, false, 0)) ==
            Pool.Set(p, t, Pool.AcqCas(x, link))
  {
    SetTwice(p, t, Pool.AcqLoad, Pool.AcqReadNext(x));
    SetTwice(p, t, Pool.AcqReadNext(x), Pool.AcqCas(x, link));
  }

  lemma SetTwice(p: Pool.State, t: nat, l: Pool.Local, m: Pool.Local)
    ensures Pool.Set(Pool.Set(p, t, l), t, m) == Pool.Set(p, t, m)
  {
    assert p.threads[t := l][t := m] == p.threads[t := m];
  }

  /** `popFree` up to its compare-exchange. */
  lemma AcquireReads(s: State, t: nat, x: nat, link: Pool.Ptr)
    requires Ring.Shape(s.delivery.ring) && Known(s, t) && t in s.pool.acquirers && s.delivery.ring.threads[t].Idle?
    requires s.pool.threads[t] == Pool.Idle && s.delivery.life.threads[t].PostAcquire?
    requires s.pool.freeList == Pool.At(x) && NextIs(s.pool, x, link)
    ensures Run(s, Steps(t, 3)) == s.(pool := Pool.Set(s.pool, t, Pool.AcqCas(x, link)))
  {
    hide Pool.Exec, D.Exec;
    PopFreeReads(s.pool, t, x, link);
    var s1, s2 := s.(pool := Pool.Set(s.pool, t, Pool.AcqLoad)), s.(pool := Pool.Set(s.pool, t, Pool.AcqReadNext(x)));
    StepsNext(s, t, 0);
    assert Exec(s, Next(t)) == s1;
    StepsNext(s, t, 1);
    PoolStep(s1, t);
    StepsNext(s, t, 2);
    PoolStep(s2, t);
  }

  /** Thread t begins to post, and stops before the compare-exchange of `popFree`. */
  lemma ReadsAhead(s: State, t: nat, topic: nat, x: nat, link: Pool.Ptr) returns (acts: seq<D.Action>)
    requires Ring.Shape(s.delivery.ring) && Known(s, t) && t in s.pool.acquirers && s.delivery.ring.threads[t].Idle?
    requires s.pool.threads[t] == Pool.Idle && s.delivery.life.threads[t] == Life.Idle
    requires s.pool.freeList == Pool.At(x) && NextIs(s.pool, x, link)
    requires Life.ObserversOf(s.delivery.life, topic) != []
    ensures Run(s, acts) ==
            WithLife(s, Loaded(s.delivery.life, t, topic)).(pool := Pool.Set(s.pool, t, Pool.AcqCas(x, link)))
  {
    hide Exec;
    var p := [D.BeginPost(t, topic, [])] + Steps(t, 1);
    acts := p + Steps(t, 3);
    BeginsPost(s, t, topic);
    RunAppend(s, p, Steps(t, 3));
    AcquireReads(WithLife(s, Loaded(s.delivery.life, t, topic)), t, x, link);
  }

  /** The compare-exchange succeeds whenever the head is the node that was read, wherever that
      node has been meanwhile. */
  lemma Takes(s: State, t: nat, x: nat, link: Pool.Ptr)
    requires Ring.Shape(s.delivery.ring) && Known(s, t)
    requires s.pool.threads[t] == Pool.AcqCas(x, link) && s.pool.freeList == Pool.At(x)
    requires s.delivery.life.threads[t].PostAcquire?
    ensures Run(s, Steps(t, 1)) ==
            WithLife(s, Life.Take(s.delivery.life, t, s.delivery.life.threads[t], x))
            .(pool := Pool.TakeHead(s.pool, t, x, link))
  {
    StepsNext(s, t, 0);
    PoolStep(s, t);
  }

  // ----- fill and push -----

  predicate Whole(m: Life.Message, count: nat) {
    m.observerCount == count && |m.observers| == Life.MAX_OBSERVERS && m.body.Inline?
  }

  function Choice(): Life.Choice {
    Life.Choice(0, false, false)
  }

  /** The message after each of the three writes. */
  function Written(life: Life.State, n: nat, topic: nat, i: nat): Life.Message
    requires n in life.nodes && |life.nodes[n].observers| == Life.MAX_OBSERVERS
    requires |Life.ObserversOf(life, topic)| <= Life.MAX_OBSERVERS
  {
    var obs := Life.ObserversOf(life, topic);
    var m1 := life.nodes[n].(topicId := topic, observerCount := |obs|, size := 0);
    var m2 := m1.(observers := Life.Overwrite(m1.observers, obs, |obs|));
    if i == 0 then life.nodes[n] else if i == 1 then m1 else if i == 2 then m2 else m2.(body := Life.Inline([]))
  }

  function FillAt(life: Life.State, t: nat, n: nat, topic: nat, i: nat): Life.State
    requires n in life.nodes && |life.nodes[n].observers| == Life.MAX_OBSERVERS
    requires |Life.ObserversOf(life, topic)| <= Life.MAX_OBSERVERS
  {
    var count := |Life.ObserversOf(life, topic)|;
    var l := if i == 0 then Life.PostHeader(n, topic, [], count)
             else if i == 1 then Life.PostSnapshot(n, topic, [], count)
             else if i == 2 then Life.PostBody(n, [], count) else Life.PostPush(n);
    Life.SetNode(Life.Set(life, t, l), n, Written(life, n, topic, i))
  }

  lemma FillNext(life: Life.State, t: nat, n: nat, topic: nat, i: nat)
    requires t in life.threads && n in life.nodes && |life.nodes[n].observers| == Life.MAX_OBSERVERS
    requires |Life.ObserversOf(life, topic)| <= Life.MAX_OBSERVERS && i < 3
    ensures Life.Exec(FillAt(life, t, n, topic, i), Life.Step(t, Choice())) == FillAt(life, t, n, topic, i + 1)
  {
    hide Life.DispStep;
    var at, next := FillAt(life, t, n, topic, i), FillAt(life, t, n, topic, i + 1);
    assert Life.ObserversOf(at, topic) == Life.ObserversOf(life, topic);
    assert at.nodes[n := next.nodes[n]] == next.nodes;
    assert at.threads[t := next.threads[t]] == next.threads;
    assert Life.Exec(at, Life.Step(t, Choice())) == Life.PostStep(at, t, at.threads[t], 0);
  }

  lemma FillPlace(life: Life.State, t: nat, n: nat, topic: nat, i: nat)
    requires t in life.threads && n in life.nodes && |life.nodes[n].observers| == Life.MAX_OBSERVERS
    requires |Life.ObserversOf(life, topic)| <= Life.MAX_OBSERVERS && i <= 3
    ensures t in FillAt(life, t, n, topic, i).threads
    ensures i < 3 ==> var l := FillAt(life, t, n, topic, i).threads[t]; !NeedsPool(l) && D.RingCall(l) == Ring.None
    ensures life.threads[t] == Life.PostHeader(n, topic, [], |Life.ObserversOf(life, topic)|) ==>
              FillAt(life, t, n, topic, 0) == life
  {
    assert life.threads[t := life.threads[t]] == life.threads;
    assert life.nodes[n := life.nodes[n]] == life.nodes;
  }

  /** Thread t has just acquired node n. */
  predicate MayFill(s: State, t: nat, n: nat, topic: nat) {
    && Ring.Shape(s.delivery.ring) && Known(s, t) && s.pool.threads[t] == Pool.Idle && s.delivery.ring.threads[t].Idle?
    && n in s.delivery.life.nodes && |s.delivery.life.nodes[n].observers| == Life.MAX_OBSERVERS
    && |Life.ObserversOf(s.delivery.life, topic)| <= Life.MAX_OBSERVERS
    && s.delivery.life.threads[t] == Life.PostHeader(n, topic, [], |Life.ObserversOf(s.delivery.life, topic)|)
  }

  lemma FillStep(s: State, t: nat, n: nat, topic: nat, i: nat)
    requires MayFill(s, t, n, topic) && i < 3
    ensures Exec(WithLife(s, FillAt(s.delivery.life, t, n, topic, i)), Next(t)) ==
            WithLife(s, FillAt(s.delivery.life, t, n, topic, i + 1))
  {
    hide Exec, Life.Exec, FillAt;
    FillPlace(s.delivery.life, t, n, topic, i);
    LifeStep(WithLife(s, FillAt(s.delivery.life, t, n, topic, i)), t);
    FillNext(s.delivery.life, t, n, topic, i);
  }

  /** Header, snapshot and (no) bytes are written. */
  lemma {:induction false} Fills(s: State, t: nat, n: nat, topic: nat, i: nat)
    requires MayFill(s, t, n, topic) && i <= 3
    ensures Run(s, Steps(t, i)) == WithLife(s, FillAt(s.delivery.life, t, n, topic, i))
    decreases i
  {
    hide Exec, FillAt;
    if i == 0 {
      StepsNext(s, t, 0);
      FillPlace(s.delivery.life, t, n, topic, 0);
    } else {
      Fills(s, t, n, topic, i - 1);
      StepsNext(s, t, i - 1);
      FillStep(s, t, n, topic, i - 1);
    }
  }

  /** The ring call of a push; the node changes hands at its compare-exchange. */
  function PushedAt(s: State, t: nat, n: nat, i: nat): State
    requires Ring.Shape(s.delivery.ring)
  {
    State(D.State(RingSolo.PushAt(s.delivery.ring, t, n, i),
                  if i < 4 then s.delivery.life else Life.Enqueue(s.delivery.life, t, n)), s.pool)
  }

  /** Thread t stands before the push of node n onto a ring with room. */
  ghost predicate MayPush(s: State, t: nat, n: nat) {
    && RingSolo.Ready(s.delivery.ring, t) && Known(s, t) && s.pool.threads[t] == Pool.Idle
    && |RingTheorems.Contents(s.delivery.ring)| < s.delivery.ring.cap
    && s.delivery.life.threads[t] == Life.PostPush(n) && |s.delivery.life.queue| < s.delivery.life.cap
  }

  lemma PushEffect(r: Ring.State<nat>, t: nat, n: nat, i: nat)
    requires Ring.Shape(r) && t in r.threads && r.threads[t].Idle? && i <= 6
    ensures var r' := RingSolo.PushAt(r, t, n, i);
            && t in r'.threads && (r'.threads[t].Idle? <==> i == 0 || i == 6)
            && (i == 6 ==> r'.threads[t] == Ring.Idle(Ring.Pushed(true)))
            && (1 <= i ==> RingTheorems.Effect(r', Ring.Step(t, false)) ==
                           if i == 3 then [RingTheorems.Enq(t, n)] else [])
  {
  }

  /** A ring step of module Delivery, by its effect. */
  lemma RingStepIs(d: D.State, t: nat, ring': Ring.State<nat>, life': Life.State)
    requires Ring.Shape(d.ring) && t in d.ring.threads && t in d.life.threads && !d.ring.threads[t].Idle?
    requires Ring.Exec(d.ring, Ring.Step(t, false)) == ring' && t in ring'.threads
    requires life' == if RingTheorems.Effect(d.ring, Ring.Step(t, false)) == [] then d.life
                      else Life.Exec(d.life, Life.Step(t, Choice()))
    requires ring'.threads[t].Idle? ==> t in life'.threads && D.Continue(life', t, ring'.threads[t].result) == life'
    ensures D.Exec(d, Next(t)) == D.State(ring', life')
  {
    hide Ring.Exec, Life.Exec, D.Continue, RingTheorems.Effect;
  }

  /** Outside pool calls a step is one of module Delivery. */
  lemma DeliveryStep(s: State, t: nat)
    requires Ring.Shape(s.delivery.ring) && Known(s, t) && s.pool.threads[t] == Pool.Idle
    requires !NeedsPool(s.delivery.life.threads[t])
    ensures Exec(s, Next(t)) == s.(delivery := D.Exec(s.delivery, Next(t)))
  {
    hide D.Exec, Pool.Exec;
  }

  lemma PushNext(s: State, t: nat, n: nat, i: nat)
    requires MayPush(s, t, n) && i < 6
    ensures Ring.Shape(s.delivery.ring)
    ensures Exec(PushedAt(s, t, n, i), Next(t)) == PushedAt(s, t, n, i + 1)
  {
    hide Ring.Inv, Ring.Exec, Life.Exec, RingTheorems.NothingInFlight, RingTheorems.Contents, RingSolo.PushAt,
      RingTheorems.Effect, Exec, D.Exec;
    RingSolo.SlotsDecide(s.delivery.ring);
    var at, next := PushedAt(s, t, n, i), PushedAt(s, t, n, i + 1);
    RingSolo.PushStart(s.delivery.ring, t, n);
    RingSolo.PushNext(s.delivery.ring, t, n, i);
    PushEffect(s.delivery.ring, t, n, i);
    PushEffect(s.delivery.ring, t, n, i + 1);
    D.TakeEffect(s.delivery.life, t, Choice());
    DeliveryStep(at, t);
    if i == 0 {
      CallIs(at.delivery, t, n);
    } else {
      RingStepIs(at.delivery, t, next.delivery.ring, next.delivery.life);
    }
  }

  lemma CallIs(d: D.State, t: nat, n: nat)
    requires Ring.Shape(d.ring) && t in d.ring.threads && t in d.life.threads && d.ring.threads[t].Idle?
    requires d.life.threads[t] == Life.PostPush(n)
    ensures D.Exec(d, Next(t)) == d.(ring := Ring.Exec(d.ring, Ring.Start(t, Ring.TryPush(n))))
  {
    hide Ring.Exec, Life.Exec;
  }

  lemma {:induction false} Pushes(s: State, t: nat, n: nat, i: nat)
    requires MayPush(s, t, n) && i <= 6
    ensures Ring.Shape(s.delivery.ring) && Run(s, Steps(t, i)) == PushedAt(s, t, n, i)
    decreases i
  {
    hide Exec, Ring.Inv, RingTheorems.NothingInFlight;
    RingSolo.SlotsDecide(s.delivery.ring);
    if i == 0 {
      StepsNext(s, t, 0);
    } else {
      Pushes(s, t, n, i - 1);
      StepsNext(s, t, i - 1);
      PushNext(s, t, n, i - 1);
    }
  }

  // ----- pop -----

  function PoppedAt(s: State, t: nat, i: nat): State
    requires Ring.Shape(s.delivery.ring) && s.delivery.life.queue != []
  {
    State(D.State(RingSolo.PopAt(s.delivery.ring, t, i),
                  if i < 4 then s.delivery.life else Life.Dequeue(s.delivery.life, t)), s.pool)
  }

  /** Thread t stands before the pop from a ring that holds something. */
  ghost predicate MayPop(s: State, t: nat) {
    && RingSolo.Ready(s.delivery.ring, t) && Known(s, t) && s.pool.threads[t] == Pool.Idle
    && s.delivery.life.threads[t] == Life.DispPop
    && s.delivery.life.queue == RingTheorems.Contents(s.delivery.ring) != []
  }

  lemma PopEffect(r: Ring.State<nat>, t: nat, i: nat)
    requires Ring.Shape(r) && t in r.threads && r.threads[t].Idle? && i <= 6
    requires r.head < |r.inserted| && r.data[Slot(r.head, r.cap)] == r.inserted[r.head]
    ensures var r' := RingSolo.PopAt(r, t, i);
            && t in r'.threads && (r'.threads[t].Idle? <==> i == 0 || i == 6)
            && (i == 6 ==> r'.threads[t] == Ring.Idle(Ring.Popped(Ring.Some(r.inserted[r.head]))))
            && (1 <= i ==> RingTheorems.Effect(r', Ring.Step(t, false)) ==
                           if i == 3 then [RingTheorems.Deq(t, r.inserted[r.head])] else [])
  {
  }

  lemma PopCallIs(d: D.State, t: nat)
    requires Ring.Shape(d.ring) && t in d.ring.threads && t in d.life.threads && d.ring.threads[t].Idle?
    requires d.life.threads[t] == Life.DispPop
    ensures D.Exec(d, Next(t)) == d.(ring := Ring.Exec(d.ring, Ring.Start(t, Ring.TryPop)))
  {
    hide Ring.Exec, Life.Exec;
  }

  /** The pointer returned is the node already handed over. */
  lemma GoesOn(life: Life.State, t: nat)
    requires life.queue != [] && t in life.threads
    ensures var life' := Life.Dequeue(life, t);
            t in life'.threads && D.Continue(life', t, Ring.Popped(Ring.Some(life.queue[0]))) == life'
  {
    var life' := Life.Dequeue(life, t);
    assert life'.threads[t := life'.threads[t]] == life'.threads;
  }

  lemma PopNext(s: State, t: nat, i: nat)
    requires MayPop(s, t) && i < 6
    ensures Ring.Shape(s.delivery.ring)
    ensures Exec(PoppedAt(s, t, i), Next(t)) == PoppedAt(s, t, i + 1)
  {
    hide Ring.Inv, Ring.Exec, Life.Exec, RingTheorems.NothingInFlight, RingSolo.PopAt,
      RingTheorems.Effect, Exec, D.Exec, D.Continue;
    RingSolo.SlotsDecide(s.delivery.ring);
    var at, next := PoppedAt(s, t, i), PoppedAt(s, t, i + 1);
    RingSolo.PopStart(s.delivery.ring, t);
    RingSolo.PopNext(s.delivery.ring, t, i);
    PopEffect(s.delivery.ring, t, i);
    PopEffect(s.delivery.ring, t, i + 1);
    D.TakeEffect(s.delivery.life, t, Choice());
    GoesOn(s.delivery.life, t);
    DeliveryStep(at, t);
    if i == 0 {
      PopCallIs(at.delivery, t);
    } else {
      RingStepIs(at.delivery, t, next.delivery.ring, next.delivery.life);
    }
  }

  lemma {:induction false} Pops(s: State, t: nat, i: nat)
    requires MayPop(s, t) && i <= 6
    ensures Ring.Shape(s.delivery.ring) && Run(s, Steps(t, i)) == PoppedAt(s, t, i)
    decreases i
  {
    hide Exec, Ring.Inv, RingTheorems.NothingInFlight, RingTheorems.Contents;
    RingSolo.SlotsDecide(s.delivery.ring);
    if i == 0 {
      StepsNext(s, t, 0);
      RingSolo.PopStart(s.delivery.ring, t);
    } else {
      Pops(s, t, i - 1);
      StepsNext(s, t, i - 1);
      PopNext(s, t, i - 1);
    }
  }

  lemma BeginsDispatch(s: State, t: nat)
    requires Ring.Shape(s.delivery.ring) && Known(s, t) && s.delivery.ring.threads[t].Idle?
    requires s.pool.threads[t] == Pool.Idle && s.delivery.life.threads[t] == Life.Idle
    ensures Run(s, [D.BeginDispatch(t)]) == WithLife(s, Life.Set(s.delivery.life, t, Life.DispPop))
  {
    hide Pool.Exec, D.RingStep, Ring.Exec;
    RunOne(s, D.BeginDispatch(t));
  }

  // ----- callbacks -----

  /** Thread t has called i of the observers of the message in node n. */
  predicate MayCall(s: State, t: nat, n: nat, i: nat) {
    && Ring.Shape(s.delivery.ring) && Known(s, t) && s.pool.threads[t] == Pool.Idle && s.delivery.ring.threads[t].Idle?
    && s.delivery.life.threads[t] == Life.DispLoop(n, i)
    && n in s.delivery.life.nodes && s.delivery.life.nodes[n].body.Inline?
    && |s.delivery.life.nodes[n].observers| == Life.MAX_OBSERVERS
    && s.delivery.life.nodes[n].observerCount <= Life.MAX_OBSERVERS
  }

  /** Only thread t and the history of the posts have changed, and post k has n more deliveries. */
  predicate OnlyDelivered(life: Life.State, life': Life.State, t: nat, l: Life.Local, k: nat, n: nat) {
    && life' == life.(threads := life.threads[t := l], posts := life'.posts)
    && |life'.posts| == |life.posts| && k < |life.posts|
    && |life'.posts[k].delivered| == |life.posts[k].delivered| + n
    && life'.posts[k].snapshot == life.posts[k].snapshot
  }

  lemma CallNext(s: State, t: nat, n: nat, i: nat, k: nat)
    requires MayCall(s, t, n, i) && i < s.delivery.life.nodes[n].observerCount
    requires n in s.delivery.life.carries && s.delivery.life.carries[n] == k < |s.delivery.life.posts|
    ensures var s' := Exec(s, Next(t));
            && s' == WithLife(s, s'.delivery.life) && MayCall(s', t, n, i + 1)
            && OnlyDelivered(s.delivery.life, s'.delivery.life, t, Life.DispLoop(n, i + 1), k, 1)
  {
    hide Exec, Life.PostStep;
    LifeStep(s, t);
    assert Life.Exec(s.delivery.life, Life.Step(t, Choice())) == Life.Invoke(s.delivery.life, t, n, i);
  }

  lemma StillCarried(life: Life.State, life': Life.State, t: nat, l: Life.Local, k: nat, n: nat)
    requires OnlyDelivered(life, life', t, l, k, n)
    ensures life'.carries == life.carries && life'.nodes == life.nodes && |life'.posts| == |life.posts|
  {
  }

  lemma DeliveredTwice(life: Life.State, life1: Life.State, life2: Life.State, t: nat, l1: Life.Local, l2: Life.Local,
                       k: nat, n1: nat, n2: nat)
    requires OnlyDelivered(life, life1, t, l1, k, n1) && OnlyDelivered(life1, life2, t, l2, k, n2)
    ensures OnlyDelivered(life, life2, t, l2, k, n1 + n2)
  {
    assert life.threads[t := l1][t := l2] == life.threads[t := l2];
  }

  lemma {:induction false} Calls(s: State, t: nat, n: nat, j: nat, k: nat)
    requires MayCall(s, t, n, 0) && j <= s.delivery.life.nodes[n].observerCount
    requires n in s.delivery.life.carries && s.delivery.life.carries[n] == k < |s.delivery.life.posts|
    ensures var s' := Run(s, Steps(t, j));
            && s' == WithLife(s, s'.delivery.life) && MayCall(s', t, n, j)
            && OnlyDelivered(s.delivery.life, s'.delivery.life, t, Life.DispLoop(n, j), k, j)
    decreases j
  {
    hide Exec;
    StepsNext(s, t, 0);
    if j == 0 {
      assert s.delivery.life.threads[t := Life.DispLoop(n, 0)] == s.delivery.life.threads;
    } else {
      hide OnlyDelivered;
      Calls(s, t, n, j - 1, k);
      StepsNext(s, t, j - 1);
      var s1 := Run(s, Steps(t, j - 1));
      StillCarried(s.delivery.life, s1.delivery.life, t, Life.DispLoop(n, j - 1), k, j - 1);
      CallNext(s1, t, n, j - 1, k);
      DeliveredTwice(s.delivery.life, s1.delivery.life, Run(s, Steps(t, j)).delivery.life, t,
                     Life.DispLoop(n, j - 1), Life.DispLoop(n, j), k, j - 1, 1);
    }
  }

  // ----- release -----

  /** The states of `release`, for a node that is put back. */
  function ReleaseAt(s: State, t: nat, n: nat, i: nat): State {
    var life := Life.ReturnNode(s.delivery.life, t, n, false);
    if i == 0 then s
    else if i == 1 then s.(pool := Pool.BeginRelease(s.pool, t, n))
    else WithLife(s, life).(pool := PutBackAt(Pool.BeginRelease(s.pool, t, n), t, n, i - 2))
  }

  /** The states of `pushFree`. */
  function PutBackAt(p: Pool.State, t: nat, n: nat, i: nat): Pool.State {
    if i == 0 then Pool.Set(p, t, Pool.RelLoad(n))
    else if i == 1 then Pool.Set(p, t, Pool.RelLink(n, p.freeList))
    else if i == 2 then Pool.Link(p, t, n, p.freeList)
    else Pool.PutHead(Pool.Link(p, t, n, p.freeList), t, n)
  }

  predicate MayRelease(s: State, t: nat, n: nat) {
    && Ring.Shape(s.delivery.ring) && Known(s, t) && s.pool.threads[t] == Pool.Idle && s.delivery.ring.threads[t].Idle?
    && s.delivery.life.threads[t] == Life.DispReturn(n) && !TooMany(s.pool)
  }

  lemma ReleaseChecks(s: State, t: nat, n: nat)
    requires MayRelease(s, t, n)
    ensures Exec(s, Next(t)) == ReleaseAt(s, t, n, 1)
    ensures Exec(ReleaseAt(s, t, n, 1), Next(t)) == ReleaseAt(s, t, n, 2)
  {
    hide Life.ReturnNode, D.Exec;
    PoolStep(ReleaseAt(s, t, n, 1), t);
    SetTwice(s.pool.(owner := s.pool.owner[n := Pool.Thread(t)]), t, Pool.RelCheck(n), Pool.RelLoad(n));
  }

  lemma PutBackNext(p: Pool.State, t: nat, n: nat, i: nat)
    requires t in p.threads && i < 3
    ensures Pool.Exec(PutBackAt(p, t, n, i), Pool.Step(t, false, 0)) == PutBackAt(p, t, n, i + 1)
  {
    SetTwice(p, t, Pool.RelLoad(n), Pool.RelLink(n, p.freeList));
    SetTwice(p, t, Pool.RelLink(n, p.freeList), Pool.RelCas(n, p.freeList));
  }

  lemma PutBackIsSilent(life: Life.State, p: Pool.State, t: nat, n: nat, i: nat)
    requires t in p.threads && i < 3
    ensures var p' := PutBackAt(p, t, n, i);
            t in p'.threads && p'.threads[t] != Pool.Idle && AfterPool(life, p', t, false) == life
  {
  }

  lemma ReleasePushes(s: State, t: nat, n: nat, i: nat)
    requires MayRelease(s, t, n) && 2 <= i < 5
    ensures Exec(ReleaseAt(s, t, n, i), Next(t)) == ReleaseAt(s, t, n, i + 1)
  {
    hide Exec, Pool.Exec, PutBackAt, AfterPool, Life.ReturnNode, Pool.BeginRelease;
    var p := Pool.BeginRelease(s.pool, t, n);
    BeginKeys(s.pool, t, n);
    ReturnKeys(s.delivery.life, t, n);
    PutBackNext(p, t, n, i - 2);
    PutBackIsSilent(ReleaseAt(s, t, n, i).delivery.life, p, t, n, i - 2);
    PoolStep(ReleaseAt(s, t, n, i), t);
  }

  lemma BeginKeys(p: Pool.State, t: nat, n: nat)
    requires t in p.threads
    ensures t in Pool.BeginRelease(p, t, n).threads
  {
  }

  lemma ReturnKeys(life: Life.State, t: nat, n: nat)
    requires t in life.threads
    ensures t in Life.ReturnNode(life, t, n, false).threads
  {
  }

  lemma {:induction false} Releases(s: State, t: nat, n: nat, i: nat)
    requires MayRelease(s, t, n) && i <= 5
    ensures Run(s, Steps(t, i)) == ReleaseAt(s, t, n, i)
    decreases i
  {
    hide Exec, ReleaseAt;
    StepsNext(s, t, 0);
    if i == 0 {
      ReleaseStart(s, t, n);
    } else {
      Releases(s, t, n, i - 1);
      StepsNext(s, t, i - 1);
      ReleaseStart(s, t, n);
      if i <= 2 { ReleaseChecks(s, t, n); } else { ReleasePushes(s, t, n, i - 1); }
    }
  }

  lemma ReleaseStart(s: State, t: nat, n: nat)
    ensures ReleaseAt(s, t, n, 0) == s
  {
  }

  lemma LoopEndIs(life: Life.State, t: nat, n: nat, m: nat)
    requires t in life.threads && life.threads[t] == Life.DispLoop(n, m)
    requires n in life.nodes && life.nodes[n].observerCount == m
    ensures Life.Exec(life, Life.Step(t, Choice())) == Life.Set(life, t, Life.DispReturn(n))
  {
    hide Life.PostStep;
    assert Life.Exec(life, Life.Step(t, Choice())) == Life.DispStep(life, t, Life.DispLoop(n, m), false);
  }

  lemma LoopPlace(n: nat, i: nat)
    ensures !NeedsPool(Life.DispLoop(n, i)) && D.RingCall(Life.DispLoop(n, i)) == Ring.None
  {
  }

  lemma LoopEnds(s: State, t: nat, n: nat, m: nat)
    requires MayCall(s, t, n, m) && s.delivery.life.nodes[n].observerCount == m
    ensures Run(s, Steps(t, 1)) == WithLife(s, Life.Set(s.delivery.life, t, Life.DispReturn(n)))
  {
    hide Exec, Life.Exec;
    StepsNext(s, t, 0);
    LoopPlace(n, m);
    LifeStep(s, t);
    LoopEndIs(s.delivery.life, t, n, m);
  }

  // ----- whole calls, while the other thread pauses -----

  /** The other thread stays where it is. */
  predicate Paused(s: State, s': State, u: nat) {
    && u in s.pool.threads && u in s'.pool.threads && s'.pool.threads[u] == s.pool.threads[u]
    && u in s.delivery.life.threads && u in s'.delivery.life.threads
    && s'.delivery.life.threads[u] == s.delivery.life.threads[u]
  }

  predicate IdleThread(s: State, t: nat) {
    && t in s.pool.threads && s.pool.threads[t] == Pool.Idle
    && t in s.delivery.life.threads && s.delivery.life.threads[t] == Life.Idle
  }

  lemma ReadyStays(r: Ring.State<nat>, r': Ring.State<nat>, t: nat, u: nat)
    requires RingSolo.Ready(r, u) && RingSolo.Ready(r', t) && t in r.threads && t != u
    requires r'.threads == r.threads[t := r'.threads[t]]
    ensures RingSolo.Ready(r', u)
  {
  }

  /** From the acquired node to the end of `post`. */
  lemma FinishesPost(s: State, topics: seq<seq<Life.Observer>>, t: nat, u: nat, n: nat, topic: nat)
    requires Base(s, topics, t, u) && MayFill(s, t, n, topic) && |s.delivery.life.queue| < s.delivery.life.cap
    ensures Ring.Shape(s.delivery.ring)
    ensures var s' := Run(s, Steps(t, 3) + Steps(t, 6));
            var life, life' := s.delivery.life, s'.delivery.life;
            && Base(s', topics, t, u) && Paused(s, s', u) && s'.pool == s.pool
            && life'.queue == life.queue + [n] && life'.threads == life.threads[t := Life.Idle]
            && n in life'.nodes && Whole(life'.nodes[n], |Life.ObserversOf(life, topic)|)
            && life'.nodes == life.nodes[n := life'.nodes[n]]
            && life'.carries == life.carries && life'.posts == life.posts && life'.cap == life.cap
  {
    hide Exec, RingSolo.Ready, RingTheorems.Contents, FillAt;
    BaseShape(s, topics, t, u);
    Fills(s, t, n, topic, 3);
    Filled(s.delivery.life, t, n, topic);
    var s1 := WithLife(s, FillAt(s.delivery.life, t, n, topic, 3));
    PushesWhole(s1, topics, t, u, n);
    RunAppend(s, Steps(t, 3), Steps(t, 6));
    assert s1.delivery.life.threads[t := Life.Idle] == s.delivery.life.threads[t := Life.Idle];
  }

  lemma Filled(life: Life.State, t: nat, n: nat, topic: nat)
    requires t in life.threads && n in life.nodes && |life.nodes[n].observers| == Life.MAX_OBSERVERS
    requires |Life.ObserversOf(life, topic)| <= Life.MAX_OBSERVERS
    ensures var life' := FillAt(life, t, n, topic, 3);
            && life' == life.(threads := life.threads[t := Life.PostPush(n)], nodes := life.nodes[n := life'.nodes[n]])
            && Whole(life'.nodes[n], |Life.ObserversOf(life, topic)|)
  {
  }

  /** A whole undisturbed `push` of the filled node. */
  lemma PushesWhole(s: State, topics: seq<seq<Life.Observer>>, t: nat, u: nat, n: nat)
    requires Base(s, topics, t, u) && s.pool.threads[t] == Pool.Idle && s.delivery.life.threads[t] == Life.PostPush(n)
    requires |s.delivery.life.queue| < s.delivery.life.cap
    ensures Ring.Shape(s.delivery.ring)
    ensures var s' := Run(s, Steps(t, 6));
            var life, life' := s.delivery.life, s'.delivery.life;
            && Base(s', topics, t, u) && Paused(s, s', u) && s'.pool == s.pool
            && life'.queue == life.queue + [n] && life'.threads == life.threads[t := Life.Idle]
            && life'.nodes == life.nodes
            && life'.carries == life.carries && life'.posts == life.posts && life'.cap == life.cap
  {
    hide Exec, Ring.Inv, RingTheorems.NothingInFlight, RingTheorems.Contents;
    BaseShape(s, topics, t, u);
    Pushes(s, t, n, 6);
    RingSolo.PushDone(s.delivery.ring, t, n);
    ReadyStays(s.delivery.ring, RingSolo.PushAt(s.delivery.ring, t, n, 6), t, u);
  }

  /** `post` up to the end of `acquire`, which hands out the node on top of the list. */
  lemma AcquiresWhole(s: State, topics: seq<seq<Life.Observer>>, t: nat, u: nat, topic: nat, n: nat, link: Pool.Ptr)
    returns (acts: seq<D.Action>)
    requires Base(s, topics, t, u) && IdleThread(s, t)
    requires s.pool.freeList == Pool.At(n) && NextIs(s.pool, n, link)
    requires topic < |topics| && 0 < |topics[topic]| <= Life.MAX_OBSERVERS
    ensures Ring.Shape(s.delivery.ring)
    ensures Run(s, acts) == HasTaken(WithLife(s, Loaded(s.delivery.life, t, topic))
                                     .(pool := Pool.Set(s.pool, t, Pool.AcqCas(n, link))), t, n, link)
  {
    hide Exec, RingTheorems.NothingInFlight, RingTheorems.Contents, Ring.Inv;
    BaseShape(s, topics, t, u);
    var p := ReadsAhead(s, t, topic, n, link);
    Takes(Run(s, p), t, n, link);
    RunAppend(s, p, Steps(t, 1));
    acts := p + Steps(t, 1);
  }

  /** The state after the compare-exchange of `popFree`. */
  function HasTaken(s: State, t: nat, x: nat, link: Pool.Ptr): State
    requires t in s.delivery.life.threads && s.delivery.life.threads[t].PostAcquire?
  {
    WithLife(s, Life.Take(s.delivery.life, t, s.delivery.life.threads[t], x))
    .(pool := Pool.TakeHead(s.pool, t, x, link))
  }

  /** What the taking thread finds. */
  lemma TakenFacts(s: State, topics: seq<seq<Life.Observer>>, t: nat, u: nat, topic: nat, x: nat, link: Pool.Ptr)
    requires Base(s, topics, t, u) && s.pool.threads[t] == Pool.AcqCas(x, link)
    requires topic < |topics| && 0 < |topics[topic]| <= Life.MAX_OBSERVERS
    requires s.delivery.life.threads[t] == Life.PostAcquire(topic, [], |topics[topic]|)
    requires x in s.delivery.life.nodes ==> |s.delivery.life.nodes[x].observers| == Life.MAX_OBSERVERS
    ensures var s' := HasTaken(s, t, x, link);
            var life, life' := s.delivery.life, s'.delivery.life;
            && Base(s', topics, t, u) && Paused(s, s', u) && MayFill(s', t, x, topic)
            && s'.pool.freeList == link && s'.pool.next == s.pool.next
            && life'.queue == life.queue && life'.cap == life.cap
            && life'.nodes == life.nodes[x := life'.nodes[x]] && life'.carries == life.carries[x := |life.posts|]
            && |life'.posts| == |life.posts| + 1 && life'.posts == life.posts + [life'.posts[|life.posts|]]
            && life'.posts[|life.posts|].delivered == [] && life'.posts[|life.posts|].snapshot == topics[topic]
  {
    hide Ring.Inv, RingTheorems.NothingInFlight, RingTheorems.Contents;
    BaseShape(s, topics, t, u);
    var life := s.delivery.life;
    assert x in life.nodes ==> life.nodes[x := life.nodes[x]] == life.nodes;
  }

  lemma LoadedFacts(s: State, topics: seq<seq<Life.Observer>>, t: nat, u: nat, topic: nat, x: nat, link: Pool.Ptr)
    requires Base(s, topics, t, u) && topic < |topics|
    ensures var s' := WithLife(s, Loaded(s.delivery.life, t, topic))
                      .(pool := Pool.Set(s.pool, t, Pool.AcqCas(x, link)));
            && Base(s', topics, t, u) && Paused(s, s', u)
            && s'.pool.threads[t] == Pool.AcqCas(x, link)
            && s'.delivery.life.threads[t] == Life.PostAcquire(topic, [], |topics[topic]|)
  {
    hide RingSolo.Ready, RingTheorems.Contents;
  }

  /** A whole undisturbed post of no bytes, with the node on top of the free list. */
  lemma PostsWhole(s: State, topics: seq<seq<Life.Observer>>, t: nat, u: nat, topic: nat, n: nat, link: Pool.Ptr)
    returns (acts: seq<D.Action>)
    requires Base(s, topics, t, u) && IdleThread(s, t) && |s.delivery.life.queue| < s.delivery.life.cap
    requires s.pool.freeList == Pool.At(n) && NextIs(s.pool, n, link)
    requires topic < |topics| && 0 < |topics[topic]| <= Life.MAX_OBSERVERS
    requires n in s.delivery.life.nodes ==> |s.delivery.life.nodes[n].observers| == Life.MAX_OBSERVERS
    ensures Ring.Shape(s.delivery.ring)
    ensures var s' := Run(s, acts);
            var life, life' := s.delivery.life, s'.delivery.life;
            && Base(s', topics, t, u) && Paused(s, s', u) && IdleThread(s', t)
            && s'.pool.freeList == link && s'.pool.next == s.pool.next
            && life'.queue == life.queue + [n] && life'.cap == life.cap
            && n in life'.nodes && Whole(life'.nodes[n], |topics[topic]|)
            && life'.nodes == life.nodes[n := life'.nodes[n]]
            && life'.carries == life.carries[n := |life.posts|]
            && |life'.posts| == |life.posts| + 1 && life'.posts == life.posts + [life'.posts[|life.posts|]]
            && life'.posts[|life.posts|].delivered == [] && life'.posts[|life.posts|].snapshot == topics[topic]
  {
    hide Exec, RingSolo.Ready, RingTheorems.Contents, HasTaken;
    var p := AcquiresWhole(s, topics, t, u, topic, n, link);
    LoadedFacts(s, topics, t, u, topic, n, link);
    TakenFacts(WithLife(s, Loaded(s.delivery.life, t, topic)).(pool := Pool.Set(s.pool, t, Pool.AcqCas(n, link))),
               topics, t, u, topic, n, link);
    var s2 := Run(s, p);
    var q := Steps(t, 3) + Steps(t, 6);
    FinishesPost(s2, topics, t, u, n, topic);
    RunAppend(s, p, q);
    acts := p + q;
  }

  /** A whole undisturbed `try_pop`. */
  lemma PopsWhole(s: State, topics: seq<seq<Life.Observer>>, t: nat, u: nat) returns (acts: seq<D.Action>)
    requires Base(s, topics, t, u) && IdleThread(s, t) && s.delivery.life.queue != []
    ensures Ring.Shape(s.delivery.ring)
    ensures var s' := Run(s, acts);
            var life, life' := s.delivery.life, s'.delivery.life;
            && Base(s', topics, t, u) && Paused(s, s', u) && s'.pool == s.pool
            && life'.queue == life.queue[1..] && life'.threads == life.threads[t := Life.DispLoop(life.queue[0], 0)]
            && life'.nodes == life.nodes && life'.carries == life.carries && life'.posts == life.posts
            && life'.cap == life.cap
  {
    hide Exec, Ring.Inv, RingTheorems.NothingInFlight, RingTheorems.Contents;
    BaseShape(s, topics, t, u);
    acts := [D.BeginDispatch(t)] + Steps(t, 6);
    BeginsDispatch(s, t);
    var s1 := WithLife(s, Life.Set(s.delivery.life, t, Life.DispPop));
    Pops(s1, t, 6);
    RunAppend(s, [D.BeginDispatch(t)], Steps(t, 6));
    RingSolo.PopDone(s.delivery.ring, t);
    ReadyStays(s.delivery.ring, RingSolo.PopAt(s.delivery.ring, t, 6), t, u);
    var l := Life.DispLoop(s.delivery.life.queue[0], 0);
    assert s1.delivery.life.threads[t := l] == s.delivery.life.threads[t := l];
  }

  /** `release` of the dispatched node, which goes back on top of the list. */
  lemma ReturnsWhole(s: State, topics: seq<seq<Life.Observer>>, t: nat, u: nat, n: nat, m: nat)
    requires Base(s, topics, t, u) && MayCall(s, t, n, m) && s.delivery.life.nodes[n].observerCount == m
    ensures Ring.Shape(s.delivery.ring)
    ensures var s' := Run(s, Steps(t, 1) + Steps(t, 5));
            var life, life' := s.delivery.life, s'.delivery.life;
            && Base(s', topics, t, u) && Paused(s, s', u) && IdleThread(s', t)
            && s'.pool.freeList == Pool.At(n) && s'.pool.next == s.pool.next[n := s.pool.freeList]
            && life'.queue == life.queue && life'.cap == life.cap && life'.nodes == life.nodes
  {
    hide Exec, Ring.Inv, RingTheorems.NothingInFlight, RingTheorems.Contents, Life.ReturnNode;
    BaseShape(s, topics, t, u);
    LoopEnds(s, t, n, m);
    var s1 := WithLife(s, Life.Set(s.delivery.life, t, Life.DispReturn(n)));
    Releases(s1, t, n, 5);
    RunAppend(s, Steps(t, 1), Steps(t, 5));
    Returned(s1.delivery.life, t, n);
  }

  /** The rest of `dispatchOne`: all callbacks, and the node goes back. */
  lemma Finishes(s: State, topics: seq<seq<Life.Observer>>, t: nat, u: nat, n: nat, m: nat)
    returns (acts: seq<D.Action>)
    requires Base(s, topics, t, u) && MayCall(s, t, n, 0) && Whole(s.delivery.life.nodes[n], m)
    requires n in s.delivery.life.carries && s.delivery.life.carries[n] < |s.delivery.life.posts|
    ensures Ring.Shape(s.delivery.ring)
    ensures var s' := Run(s, acts);
            var life, life' := s.delivery.life, s'.delivery.life;
            && Base(s', topics, t, u) && Paused(s, s', u) && IdleThread(s', t)
            && s'.pool.freeList == Pool.At(n) && s'.pool.next == s.pool.next[n := s.pool.freeList]
            && life'.queue == life.queue && life'.cap == life.cap && life'.nodes == life.nodes
  {
    hide Exec, RingSolo.Ready, RingTheorems.Contents;
    Calls(s, t, n, m, s.delivery.life.carries[n]);
    var s1, q := Run(s, Steps(t, m)), Steps(t, 1) + Steps(t, 5);
    ReturnsWhole(s1, topics, t, u, n, m);
    RunAppend(s, Steps(t, m), q);
    acts := Steps(t, m) + q;
  }

  lemma Returned(life: Life.State, t: nat, n: nat)
    ensures var life' := Life.ReturnNode(life, t, n, false);
            && life'.topics == life.topics && life'.cap == life.cap && life'.queue == life.queue
            && life'.nodes == life.nodes && life'.threads == life.threads[t := Life.Idle]
  {
  }

  // ----- the run -----

  /** Thread a has read head x and its link y, and waits; x and y have been posted by b since. */
  ghost predicate BothPosted(s: State, topics: seq<seq<Life.Observer>>, a: nat, b: nat, topic: nat,
                             x: nat, y: nat, z: Pool.Ptr) {
    && Base(s, topics, a, b) && IdleThread(s, b) && x != y
    && topic < |topics| && 0 < |topics[topic]| <= Life.MAX_OBSERVERS && s.delivery.life.cap >= 2
    && s.pool.threads[a] == Pool.AcqCas(x, Pool.At(y))
    && s.delivery.life.threads[a] == Life.PostAcquire(topic, [], |topics[topic]|)
    && s.pool.freeList == z && NextIs(s.pool, y, z) && x in s.pool.next
    && s.delivery.life.queue == [x, y]
    && x in s.delivery.life.nodes && Whole(s.delivery.life.nodes[x], |topics[topic]|)
    && y in s.delivery.life.nodes && Whole(s.delivery.life.nodes[y], |topics[topic]|)
    && x in s.delivery.life.carries && s.delivery.life.carries[x] < |s.delivery.life.posts|
  }

  /** Thread a has read head x and its link y, and waits; nothing has been posted yet. */
  ghost predicate Waiting(s: State, topics: seq<seq<Life.Observer>>, a: nat, b: nat, topic: nat,
                          x: nat, y: nat, z: Pool.Ptr) {
    && Base(s, topics, b, a) && IdleThread(s, b) && x != y
    && topic < |topics| && 0 < |topics[topic]| <= Life.MAX_OBSERVERS && s.delivery.life.cap >= 2
    && s.pool.threads[a] == Pool.AcqCas(x, Pool.At(y))
    && s.delivery.life.threads[a] == Life.PostAcquire(topic, [], |topics[topic]|)
    && s.pool.freeList == Pool.At(x) && NextIs(s.pool, x, Pool.At(y)) && NextIs(s.pool, y, z)
    && s.delivery.life.queue == [] && s.delivery.life.nodes == map[]
  }

  lemma Waits(s: State, topics: seq<seq<Life.Observer>>, a: nat, b: nat, topic: nat, x: nat, y: nat, z: Pool.Ptr)
    returns (acts: seq<D.Action>)
    requires Base(s, topics, a, b) && IdleThread(s, a) && IdleThread(s, b) && x != y
    requires topic < |topics| && 0 < |topics[topic]| <= Life.MAX_OBSERVERS && s.delivery.life.cap >= 2
    requires s.pool.freeList == Pool.At(x) && NextIs(s.pool, x, Pool.At(y)) && NextIs(s.pool, y, z)
    requires s.delivery.life.queue == [] && s.delivery.life.nodes == map[]
    ensures Ring.Shape(s.delivery.ring) && Waiting(Run(s, acts), topics, a, b, topic, x, y, z)
  {
    hide Exec, RingSolo.Ready, RingTheorems.Contents;
    BaseShape(s, topics, a, b);
    RingIdle(s, a);
    acts := ReadsAhead(s, a, topic, x, Pool.At(y));
    LoadedFacts(s, topics, a, b, topic, x, Pool.At(y));
    BaseShape(Run(s, acts), topics, a, b);
  }

  lemma PostsBoth(s: State, topics: seq<seq<Life.Observer>>, a: nat, b: nat, topic: nat, x: nat, y: nat, z: Pool.Ptr)
    returns (acts: seq<D.Action>)
    requires Waiting(s, topics, a, b, topic, x, y, z)
    ensures Ring.Shape(s.delivery.ring) && BothPosted(Run(s, acts), topics, a, b, topic, x, y, z)
  {
    hide Exec, RingSolo.Ready, RingTheorems.Contents;
    BaseShape(s, topics, b, a);
    var p := PostsWhole(s, topics, b, a, topic, x, Pool.At(y));
    var s1 := Run(s, p);
    var q := PostsWhole(s1, topics, b, a, topic, y, z);
    BaseShape(Run(s1, q), topics, b, a);
    RunAppend(s, p, q);
    acts := p + q;
  }

  /** b dispatches x, which is the head again, with another link. */
  lemma DispatchesFirst(s: State, topics: seq<seq<Life.Observer>>, a: nat, b: nat, topic: nat,
                        x: nat, y: nat, z: Pool.Ptr)
    returns (acts: seq<D.Action>)
    requires BothPosted(s, topics, a, b, topic, x, y, z)
    ensures Ring.Shape(s.delivery.ring)
    ensures var s' := Run(s, acts);
            && Base(s', topics, b, a) && Paused(s, s', a) && IdleThread(s', b)
            && s'.pool.freeList == Pool.At(x) && NextIs(s'.pool, y, z)
            && s'.delivery.life.queue == [y] && s'.delivery.life.cap >= 2
            && s'.delivery.life.nodes == s.delivery.life.nodes
  {
    hide Exec, RingSolo.Ready, RingTheorems.Contents;
    BaseShape(s, topics, a, b);
    var p := PopsWhole(s, topics, b, a);
    var s1 := Run(s, p);
    BaseShape(s1, topics, b, a);
    RingIdle(s1, b);
    var q := Finishes(s1, topics, b, a, x, |topics[topic]|);
    RunAppend(s, p, q);
    acts := p + q;
  }

  lemma RingIdle(s: State, t: nat)
    requires RingSolo.Ready(s.delivery.ring, t)
    ensures Ring.Shape(s.delivery.ring) && s.delivery.ring.threads[t].Idle?
  {
  }

  /** a has taken x, with the stale link y; b has posted y a second time while it is queued. */
  ghost predicate TwiceQueued(s: State, topics: seq<seq<Life.Observer>>, a: nat, b: nat, topic: nat,
                              x: nat, y: nat, k: nat) {
    && Base(s, topics, a, b) && IdleThread(s, b) && MayFill(s, a, x, topic) && x != y
    && topic < |topics| && 0 < |topics[topic]| <= Life.MAX_OBSERVERS && s.delivery.life.cap >= 2
    && s.delivery.life.queue == [y, y]
    && y in s.delivery.life.nodes && Whole(s.delivery.life.nodes[y], |topics[topic]|)
    && y in s.delivery.life.carries && s.delivery.life.carries[y] == k < |s.delivery.life.posts|
    && s.delivery.life.posts[k].delivered == [] && s.delivery.life.posts[k].snapshot == topics[topic]
  }

  lemma QueuesTwice(s: State, topics: seq<seq<Life.Observer>>, a: nat, b: nat, topic: nat, x: nat, y: nat, z: Pool.Ptr)
    returns (acts: seq<D.Action>, k: nat)
    requires Base(s, topics, b, a) && IdleThread(s, b) && x != y
    requires topic < |topics| && 0 < |topics[topic]| <= Life.MAX_OBSERVERS && s.delivery.life.cap >= 2
    requires s.pool.threads[a] == Pool.AcqCas(x, Pool.At(y)) && s.pool.freeList == Pool.At(x) && NextIs(s.pool, y, z)
    requires s.delivery.life.threads[a] == Life.PostAcquire(topic, [], |topics[topic]|)
    requires s.delivery.life.queue == [y]
    requires x in s.delivery.life.nodes && Whole(s.delivery.life.nodes[x], |topics[topic]|)
    requires y in s.delivery.life.nodes && Whole(s.delivery.life.nodes[y], |topics[topic]|)
    ensures Ring.Shape(s.delivery.ring) && TwiceQueued(Run(s, acts), topics, a, b, topic, x, y, k)
  {
    hide Exec, RingSolo.Ready, RingTheorems.Contents, HasTaken;
    BaseShape(s, topics, b, a);
    Takes(s, a, x, Pool.At(y));
    TakenFacts(s, topics, a, b, topic, x, Pool.At(y));
    var s1 := Run(s, Steps(a, 1));
    assert s1 == HasTaken(s, a, x, Pool.At(y)) by { TakesIs(s, a, x, Pool.At(y)); }
    BaseShape(s1, topics, a, b);
    k := |s1.delivery.life.posts|;
    var q := PostsWhole(s1, topics, b, a, topic, y, z);
    var s2 := Run(s1, q);
    BaseShape(s2, topics, b, a);
    RingIdle(s2, a);
    RunAppend(s, Steps(a, 1), q);
    acts := Steps(a, 1) + q;
  }

  lemma TakesIs(s: State, t: nat, x: nat, link: Pool.Ptr)
    requires Ring.Shape(s.delivery.ring) && Known(s, t)
    requires s.pool.threads[t] == Pool.AcqCas(x, link) && s.pool.freeList == Pool.At(x)
    requires s.delivery.life.threads[t].PostAcquire?
    ensures Run(s, Steps(t, 1)) == HasTaken(s, t, x, link)
  {
    hide Exec;
    Takes(s, t, x, link);
  }

  /** Both copies of y are dispatched: b makes all its calls, then a makes one more. */
  lemma DeliversTwice(s: State, topics: seq<seq<Life.Observer>>, a: nat, b: nat, topic: nat, x: nat, y: nat, k: nat)
    returns (acts: seq<D.Action>)
    requires TwiceQueued(s, topics, a, b, topic, x, y, k)
    ensures Ring.Shape(s.delivery.ring)
    ensures var life' := Run(s, acts).delivery.life;
            && k < |life'.posts| && life'.posts[k].snapshot == topics[topic]
            && |life'.posts[k].delivered| == |topics[topic]| + 1
  {
    hide Exec, RingSolo.Ready, RingTheorems.Contents, Life.ReturnNode;
    var m := |topics[topic]|;
    BaseShape(s, topics, a, b);
    var p := PopsWhole(s, topics, b, a);
    var s1 := Run(s, p);
    RingIdle(s1, b);
    Calls(s1, b, y, m, k);
    var s2 := Run(s1, Steps(b, m));
    CalledBase(s1, s2, topics, b, a, Life.DispLoop(y, m), k, m);
    RingIdle(s2, a);
    FinishesPost(s2, topics, a, b, x, topic);
    var s3 := Run(s2, Steps(a, 3) + Steps(a, 6));
    var q := PopsWhole(s3, topics, a, b);
    var s4 := Run(s3, q);
    RingIdle(s4, a);
    Calls(s4, a, y, 1, k);
    RunAppend(s, p, Steps(b, m));
    RunAppend(s, p + Steps(b, m), Steps(a, 3) + Steps(a, 6));
    RunAppend(s, p + Steps(b, m) + (Steps(a, 3) + Steps(a, 6)), q);
    RunAppend(s, p + Steps(b, m) + (Steps(a, 3) + Steps(a, 6)) + q, Steps(a, 1));
    acts := p + Steps(b, m) + (Steps(a, 3) + Steps(a, 6)) + q + Steps(a, 1);
  }

  /** Callbacks leave the ground as it is. */
  lemma CalledBase(s: State, s': State, topics: seq<seq<Life.Observer>>, t: nat, u: nat, l: Life.Local, k: nat, n: nat)
    requires Base(s, topics, t, u) && s' == WithLife(s, s'.delivery.life)
    requires OnlyDelivered(s.delivery.life, s'.delivery.life, t, l, k, n)
    ensures Base(s', topics, u, t) && Paused(s, s', u)
  {
    hide RingSolo.Ready, RingTheorems.Contents;
  }

  /** The initial state. */
  lemma StartBase(topics: seq<seq<Life.Observer>>, cap: nat, junk: seq<nat>, tids: set<nat>,
                  initial: nat, maxSize: nat, posters: set<nat>, a: nat, b: nat)
    requires cap >= 2 && IsPowerOfTwo(cap) && |junk| == cap
    requires initial >= 2 && (maxSize == 0 || initial <= maxSize)
    requires a != b && a in tids && b in tids && a in posters && b in posters
    ensures var s := Start(topics, cap, junk, tids, initial, maxSize, posters);
            && Base(s, topics, a, b) && IdleThread(s, a) && IdleThread(s, b) && s.delivery.life.cap == cap
            && s.pool.freeList == Pool.At(initial - 1)
            && NextIs(s.pool, initial - 1, Pool.At(initial - 2))
            && NextIs(s.pool, initial - 2, if initial == 2 then Pool.Null else Pool.At(initial - 3))
            && s.delivery.life.queue == [] && s.delivery.life.nodes == map[]
  {
    hide Ring.Inv;
    Ring.InitInv(cap, junk, tids);
  }

  /** With two posters: a run in which some observers are called again for a post all of whose
      observers have been called, with another post still undelivered in the same node. */
  lemma TwoPostersClash(topics: seq<seq<Life.Observer>>, cap: nat, junk: seq<nat>, tids: set<nat>,
                        initial: nat, maxSize: nat, posters: set<nat>, a: nat, b: nat, topic: nat)
    returns (acts: seq<D.Action>, k: nat)
    requires cap >= 2 && IsPowerOfTwo(cap) && |junk| == cap
    requires initial >= 2 && (maxSize == 0 || initial <= maxSize)
    requires a != b && a in tids && b in tids && a in posters && b in posters
    requires topic < |topics| && 0 < |topics[topic]| <= Life.MAX_OBSERVERS
    ensures var life := Run(Start(topics, cap, junk, tids, initial, maxSize, posters), acts).delivery.life;
            && k < |life.posts| && |life.posts[k].delivered| > |life.posts[k].snapshot|
            && !DeliveryTheorems.Faithful(life.posts[k])
  {
    hide Exec, RingSolo.Ready, RingTheorems.Contents;
    var s0 := Start(topics, cap, junk, tids, initial, maxSize, posters);
    var x, y := initial - 1, initial - 2;
    var z := if initial == 2 then Pool.Null else Pool.At(initial - 3);
    StartBase(topics, cap, junk, tids, initial, maxSize, posters, a, b);
    var p0 := Waits(s0, topics, a, b, topic, x, y, z);
    var p1 := PostsBoth(Run(s0, p0), topics, a, b, topic, x, y, z);
    var s1 := Run(Run(s0, p0), p1);
    var p2 := DispatchesFirst(s1, topics, a, b, topic, x, y, z);
    var s2 := Run(s1, p2);
    var p3;
    p3, k := QueuesTwice(s2, topics, a, b, topic, x, y, z);
    var s3 := Run(s2, p3);
    var p4 := DeliversTwice(s3, topics, a, b, topic, x, y, k);
    RunAppend(s0, p0, p1);
    RunAppend(s0, p0 + p1, p2);
    RunAppend(s0, p0 + p1 + p2, p3);
    RunAppend(s0, p0 + p1 + p2 + p3, p4);
    acts := p0 + p1 + p2 + p3 + p4;
  }

  ghost predicate AlwaysDelivered(topics: seq<seq<Life.Observer>>, cap: nat, tids: set<nat>,
                                  initial: nat, maxSize: nat, posters: set<nat>)
    requires cap > 0
  {
    forall junk: seq<nat>, acts: seq<D.Action> :: |junk| == cap ==>
      Delivered(Run(Start(topics, cap, junk, tids, initial, maxSize, posters), acts).delivery)
  }

  /** Exact condition, for a pool built as the queues build theirs and a topic somebody listens
      to: every post of every run is delivered exactly once over the real pool if and only if
      at most one of the threads posts. */
  lemma DeliveredIffOnePoster(topics: seq<seq<Life.Observer>>, cap: nat, tids: set<nat>,
                              initial: nat, maxSize: nat, posters: set<nat>, topic: nat)
    requires cap >= 2 && IsPowerOfTwo(cap) && initial >= 2 && (maxSize == 0 || initial <= maxSize)
    requires forall i :: 0 <= i < |topics| ==> |topics[i]| <= Life.MAX_OBSERVERS
    requires topic < |topics| && topics[topic] != []
    ensures AlwaysDelivered(topics, cap, tids, initial, maxSize, posters) <==> SingleAcquirer(tids, posters)
  {
    hide Exec, Delivered;
    if SingleAcquirer(tids, posters) {
      forall junk: seq<nat>, acts: seq<D.Action> | |junk| == cap
        ensures Delivered(Run(Start(topics, cap, junk, tids, initial, maxSize, posters), acts).delivery)
      {
        EveryPostIsDelivered(topics, cap, junk, tids, initial, maxSize, posters, acts);
      }
    } else {
      var a, b :| a in posters && b in posters && a in tids && b in tids && a != b;
      var junk := seq(cap, _ => 0);
      var acts, k := TwoPostersClash(topics, cap, junk, tids, initial, maxSize, posters, a, b, topic);
      NotDelivered(Run(Start(topics, cap, junk, tids, initial, maxSize, posters), acts).delivery, k);
    }
  }

  lemma NotDelivered(d: D.State, k: nat)
    requires k < |d.life.posts| && !DeliveryTheorems.Faithful(d.life.posts[k])
    ensures !Delivered(d)
  {
  }
}
