/** The message path over the real pool: module Delivery with its `acquire` and `release`
    carried out by the Treiber list of module Pool (src/eventqueue_fast.h over
    src/mpmc_queue.h and src/objectpool_lockfree.h). Any threads may post and dispatch; every
    step of the ring, of the pool and of the rest interleaves freely. What the pool hands out
    is taken as it is; that the node is free is a theorem, for one poster. */
module PooledDelivery {
  import opened Bits
  import Ring
  import RingTheorems
  import Life = Lifecycle
  import D = Delivery
  import DeliveryTheorems
  import opened DeliveryFrames
  import Pool
  import opened PoolTheorems

  datatype State = State(delivery: D.State, pool: Pool.State)

  /** The next step of the thread is a pool call. */
  predicate NeedsPool(l: Life.Local) {
    l.PostAcquire? || l.DispReturn?
  }

  predicate Known(s: State, t: nat) {
    t in s.pool.threads && t in s.delivery.life.threads && t in s.delivery.ring.threads
  }

  /** `acquire` returns to `post` with a node; `release` decides about its node. */
  function Took(life: Life.State, t: nat, node: nat): Life.State {
    if t in life.threads && life.threads[t].PostAcquire? then Life.Take(life, t, life.threads[t], node) else life
  }

  function Dropped(life: Life.State, t: nat, node: nat, delete: bool): Life.State {
    if t in life.threads && life.threads[t].DispReturn? then Life.ReturnNode(life, t, node, delete) else life
  }

  function TooMany(p: Pool.State): bool {
    p.maxSize > 0 && p.nodeCount > p.maxSize
  }

  /** What the pool step of thread t does to the message path. */
  function AfterPool(life: Life.State, p: Pool.State, t: nat, spurious: bool): Life.State {
    if t !in p.threads then life
    else match p.threads[t]
      case AcqCas(top, _) => if p.freeList == Pool.At(top) && !spurious then Took(life, t, top) else life
      case AcqCount(node) => Took(life, t, node)
      case RelCheck(node) => Dropped(life, t, node, TooMany(p))
      case _ => life
  }

  /** One action: a step inside a pool call, the call itself, or a step of module Delivery.
      Only the threads that may acquire post. */
  function Exec(s: State, a: D.Action): (s': State)
    requires Ring.Shape(s.delivery.ring)
    ensures Ring.Shape(s'.delivery.ring)
  {
    if !Known(s, a.t) then s
    else if s.pool.threads[a.t] != Pool.Idle then
      if !a.Step? then s
      else State(s.delivery.(life := AfterPool(s.delivery.life, s.pool, a.t, a.spurious)),
                 Pool.Exec(s.pool, Pool.Step(a.t, a.spurious, a.choice.addr)))
    else if a.BeginPost? && a.t !in s.pool.acquirers then s
    else if a.Step? && NeedsPool(s.delivery.life.threads[a.t]) then
      s.(pool := PoolCall(s.pool, a.t, s.delivery.life.threads[a.t]))
    else s.(delivery := D.Exec(s.delivery, a))
  }

  function PoolCall(p: Pool.State, t: nat, l: Life.Local): Pool.State {
    match l
    case PostAcquire(_, _, _) => Pool.Exec(p, Pool.Acquire(t))
    case DispReturn(node) => Pool.BeginRelease(p, t, node)
    case _ => p
  }

  function Run(s: State, acts: seq<D.Action>): (s': State)
    requires Ring.Shape(s.delivery.ring)
    ensures Ring.Shape(s'.delivery.ring)
    decreases |acts|
  {
    if acts == [] then s else Exec(Run(s, acts[..|acts| - 1]), acts[|acts| - 1])
  }

  /** A fresh queue whose pool starts with `initial` nodes and keeps at most `maxSize`; of its
      threads, those in `posters` post. */
  function Start(topics: seq<seq<Life.Observer>>, cap: nat, junk: seq<nat>, tids: set<nat>,
                 initial: nat, maxSize: nat, posters: set<nat>): (s: State)
    requires cap > 0 && |junk| == cap
    ensures Ring.Shape(s.delivery.ring)
  {
    State(D.State(Ring.Init(cap, junk, tids), Life.Init(topics, cap, tids)), Pool.Init(initial, maxSize, tids, posters))
  }

  // ----- the coupling -----

  /** A thread inside a pool call is at the matching place of the message path. */
  predicate ThreadCoupled(pl: Pool.Local, ll: Life.Local, rl: Ring.Local<nat>) {
    && (pl != Pool.Idle ==> rl.Idle?)
    && (Pool.Acquiring(pl) ==> ll.PostAcquire?)
    && (pl.RelCheck? ==> ll == Life.DispReturn(pl.node))
    && (pl.RelDelete? || pl.RelUncount? || pl.RelLoad? || pl.RelLink? || pl.RelCas? ==> ll.Idle?)
  }

  predicate InUse(place: map<nat, Life.Place>, n: nat) {
    n in place && place[n] != Life.InPool
  }

  /** The pool's owner of a node agrees with where the message path has it. */
  predicate NodeCoupled(p: Pool.State, place: map<nat, Life.Place>, n: nat) {
    if n !in p.owner then n !in place
    else match p.owner[n]
      case FreeList => !InUse(place, n)
      case Caller => InUse(place, n)
      case Thread(t) =>
        t in p.threads &&
        match p.threads[t]
        case AcqCount(_) => n !in place
        case RelCheck(_) => n in place && place[n] == Life.With(t)
        case RelDelete(_) => n !in place
        case _ => n in place && place[n] == Life.InPool
  }

  ghost predicate Threads(s: State) {
    && s.pool.threads.Keys == s.delivery.life.threads.Keys == s.delivery.ring.threads.Keys
    && forall t :: t in s.pool.threads ==>
         ThreadCoupled(s.pool.threads[t], s.delivery.life.threads[t], s.delivery.ring.threads[t])
  }

  ghost predicate Nodes(s: State) {
    forall n: nat :: NodeCoupled(s.pool, s.delivery.life.place, n)
  }

  ghost predicate Inv(s: State) {
    D.Inv(s.delivery) && Pool.Inv(s.pool) && Threads(s) && Nodes(s)
  }

  // ----- the same over the atomic pool -----

  function TakeNode(t: nat, node: nat): D.Action {
    D.Step(t, false, Life.Choice(node, false, false))
  }

  function DropNode(t: nat, delete: bool): D.Action {
    D.Step(t, false, Life.Choice(0, delete, false))
  }

  /** What the pool step would be over the atomic pool. */
  function PoolEffect(p: Pool.State, t: nat, spurious: bool): seq<D.Action> {
    if t !in p.threads then []
    else match p.threads[t]
      case AcqCas(top, _) => if p.freeList == Pool.At(top) && !spurious then [TakeNode(t, top)] else []
      case AcqCount(node) => [TakeNode(t, node)]
      case RelCheck(_) => [DropNode(t, TooMany(p))]
      case _ => []
  }

  /** The actions of module Delivery, at most one, that an action here stands for. */
  function DeliveryPart(s: State, a: D.Action): (es: seq<D.Action>)
    ensures |es| <= 1
  {
    if !Known(s, a.t) then []
    else if s.pool.threads[a.t] != Pool.Idle then if a.Step? then PoolEffect(s.pool, a.t, a.spurious) else []
    else if a.BeginPost? then if a.t in s.pool.acquirers then [a] else []
    else if a.Step? && NeedsPool(s.delivery.life.threads[a.t]) then []
    else [a]
  }

  function Apply(d: D.State, es: seq<D.Action>): (d': D.State)
    requires Ring.Shape(d.ring)
    ensures Ring.Shape(d'.ring)
  {
    if es == [] then d else D.Exec(d, es[0])
  }

  // ----- what a step of module Delivery changes -----

  /** Where a node is may change only between queue and caller, and only for nodes of thread t
      or of the queue. */
  predicate PlaceMoved(place: map<nat, Life.Place>, place': map<nat, Life.Place>, t: nat, n: nat) {
    && (n in place' <==> n in place)
    && (n in place ==> (place'[n] == Life.InPool <==> place[n] == Life.InPool))
    && (n in place && place[n].With? && place[n].t != t ==> place'[n] == place[n])
  }

  lemma OutcomePlaces(life: Life.State, life': Life.State, t: nat, n: nat)
    requires Life.Inv(life) && RingOutcome(life, life', t)
    ensures PlaceMoved(life.place, life'.place, t, n)
  {
    assert Life.LocalOk(life, t, life.threads[t]);
    assert life.queue != [] ==> Life.QueuedOk(life, 0);
  }

  lemma LifePlaces(life: Life.State, a: Life.Action)
    requires a.t in life.threads
    requires a.Step? ==> !NeedsPool(life.threads[a.t]) && D.RingCall(life.threads[a.t]) == Ring.None
    ensures Life.Exec(life, a).place == life.place
  {
    hide Life.PostStep, Life.DispStep;
    if a.Step? {
      PostPlaces(life, a.t, life.threads[a.t], a.choice.addr);
      DispPlaces(life, a.t, life.threads[a.t], a.choice.delete);
    }
  }

  lemma PostPlaces(life: Life.State, t: nat, l: Life.Local, addr: nat)
    ensures !l.PostAcquire? ==> Life.PostStep(life, t, l, addr).place == life.place
  {
  }

  lemma DispPlaces(life: Life.State, t: nat, l: Life.Local, delete: bool)
    ensures !l.DispReturn? ==> Life.DispStep(life, t, l, delete).place == life.place
  {
  }

  lemma DeliveryPlaces(s: D.State, a: D.Action, n: nat)
    requires D.Inv(s) && a.t in s.ring.threads && a.t in s.life.threads
    requires a.Step? ==> !NeedsPool(s.life.threads[a.t])
    ensures Ring.Shape(s.ring) && PlaceMoved(s.life.place, D.Exec(s, a).life.place, a.t, n)
  {
    hide Ring.Inv, Life.Inv, RingTheorems.Contents, D.RingStep, Ring.Exec, Life.Exec, RingOutcome;
    Ring.InvBounds(s.ring);
    if !s.ring.threads[a.t].Idle? {
      if a.Step? {
        RingStepOutcome(s, a.t, a.spurious);
        OutcomePlaces(s.life, D.RingStep(s, a.t, a.spurious).life, a.t, n);
      }
    } else {
      match a
      case BeginPost(t, topic, data) => LifePlaces(s.life, Life.BeginPost(t, topic, data));
      case BeginDispatch(t) => LifePlaces(s.life, Life.BeginDispatch(t));
      case Step(t, _, choice) => if D.RingCall(s.life.threads[t]).None? { LifePlaces(s.life, Life.Step(t, choice)); }
    }
  }

  // ----- what a pool call changes -----

  lemma PoolThreads(p: Pool.State, a: Pool.Action, u: nat)
    ensures u in Pool.Exec(p, a).threads <==> u in p.threads
    ensures u in p.threads && u != a.t ==> Pool.Exec(p, a).threads[u] == p.threads[u]
    ensures Pool.Exec(p, a).acquirers == p.acquirers
  {
    hide Pool.Proceed;
    if a.Step? && a.t in p.threads {
      if Pool.Acquiring(p.threads[a.t]) {
        AcquireThreads(p, a.t, a.spurious, a.addr, u);
      } else {
        ReleaseThreads(p, a.t, a.spurious, a.addr, u);
      }
    }
  }

  lemma AcquireThreads(p: Pool.State, t: nat, spurious: bool, addr: nat, u: nat)
    requires t in p.threads && Pool.Acquiring(p.threads[t])
    ensures var p' := Pool.Proceed(p, t, p.threads[t], spurious, addr);
            && (u in p'.threads <==> u in p.threads) && p'.acquirers == p.acquirers
            && (u in p.threads && u != t ==> p'.threads[u] == p.threads[u])
  {
  }

  lemma ReleaseThreads(p: Pool.State, t: nat, spurious: bool, addr: nat, u: nat)
    requires t in p.threads && !Pool.Acquiring(p.threads[t])
    ensures var p' := Pool.Proceed(p, t, p.threads[t], spurious, addr);
            && (u in p'.threads <==> u in p.threads) && p'.acquirers == p.acquirers
            && (u in p.threads && u != t ==> p'.threads[u] == p.threads[u])
  {
  }

  /** Where the pool's choice leads the message path. */
  function PlaceAfter(place: map<nat, Life.Place>, p: Pool.State, t: nat, spurious: bool): map<nat, Life.Place> {
    if t !in p.threads then place
    else match p.threads[t]
      case AcqCas(top, _) => if p.freeList == Pool.At(top) && !spurious then place[top := Life.With(t)] else place
      case AcqCount(node) => place[node := Life.With(t)]
      case RelCheck(node) =>
        if p.maxSize > 0 && p.nodeCount > p.maxSize then place - {node} else place[node := Life.InPool]
      case _ => place
  }

  lemma AcquireNodes(p: Pool.State, t: nat, spurious: bool, addr: nat, place: map<nat, Life.Place>, n: nat)
    requires t in p.threads && Pool.Acquiring(p.threads[t]) && Pool.LocalOk(p, t, p.threads[t]) && Pool.OwnerOk(p, n)
    requires NodeCoupled(p, place, n) && (addr in p.owner <==> addr in p.next)
    ensures NodeCoupled(Pool.Exec(p, Pool.Step(t, spurious, addr)), PlaceAfter(place, p, t, spurious), n)
  {
  }

  lemma ReleaseNodes(p: Pool.State, t: nat, spurious: bool, addr: nat, place: map<nat, Life.Place>, n: nat)
    requires t in p.threads && !Pool.Acquiring(p.threads[t]) && Pool.LocalOk(p, t, p.threads[t]) && Pool.OwnerOk(p, n)
    requires NodeCoupled(p, place, n)
    ensures NodeCoupled(Pool.Exec(p, Pool.Step(t, spurious, addr)), PlaceAfter(place, p, t, spurious), n)
  {
  }

  /** The node `acquire` hands out is not in use. */
  lemma HandedNodeIsFree(s: State, t: nat, spurious: bool)
    requires Pool.Inv(s.pool) && Nodes(s) && t in s.pool.threads && Pool.Acquiring(s.pool.threads[t])
    requires PoolEffect(s.pool, t, spurious) != []
    ensures var l := s.pool.threads[t];
            && (l.AcqCas? ==> !InUse(s.delivery.life.place, l.top))
            && (l.AcqCount? ==> !InUse(s.delivery.life.place, l.node))
  {
    assert Pool.LocalOk(s.pool, t, s.pool.threads[t]);
    var l := s.pool.threads[t];
    if l.AcqCas? { assert NodeCoupled(s.pool, s.delivery.life.place, l.top); }
    if l.AcqCount? { assert NodeCoupled(s.pool, s.delivery.life.place, l.node); }
  }

  /** A free node is taken as from the atomic pool. */
  lemma TakeEffect(d: D.State, t: nat, node: nat)
    requires Ring.Shape(d.ring) && t in d.ring.threads && t in d.life.threads
    requires d.ring.threads[t].Idle? && d.life.threads[t].PostAcquire? && !InUse(d.life.place, node)
    ensures D.Exec(d, TakeNode(t, node)) == d.(life := Took(d.life, t, node))
    ensures var l, life' := d.life.threads[t], Took(d.life, t, node);
            && life'.place == d.life.place[node := Life.With(t)]
            && life'.threads == d.life.threads[t := Life.PostHeader(node, l.topic, l.data, l.count)]
  {
    assert Life.Exec(d.life, Life.Step(t, Life.Choice(node, false, false))) ==
           Life.Acquire(d.life, t, d.life.threads[t], node);
  }

  lemma DropEffect(d: D.State, t: nat, node: nat, delete: bool)
    requires Ring.Shape(d.ring) && t in d.ring.threads && t in d.life.threads
    requires d.ring.threads[t].Idle? && d.life.threads[t] == Life.DispReturn(node)
    requires Life.LocalOk(d.life, t, d.life.threads[t])
    ensures D.Exec(d, DropNode(t, delete)) == d.(life := Dropped(d.life, t, node, delete))
    ensures var life' := Dropped(d.life, t, node, delete);
            && life'.threads == d.life.threads[t := Life.Idle]
            && life'.place == if delete then d.life.place - {node} else d.life.place[node := Life.InPool]
  {
    assert Life.Exec(d.life, Life.Step(t, Life.Choice(0, delete, false))) == Life.ReturnNode(d.life, t, node, delete);
  }

  // ----- preservation -----

  /** Only thread t has moved, and it is still coupled. */
  lemma ThreadsStay(s: State, s': State, t: nat)
    requires Threads(s) && t in s.pool.threads
    requires forall u: nat ::
               && (u in s'.pool.threads <==> u in s.pool.threads)
               && (u in s.pool.threads && u != t ==> s'.pool.threads[u] == s.pool.threads[u])
    requires forall u: nat ::
               && (u in s'.delivery.life.threads <==> u in s.delivery.life.threads)
               && (u in s.delivery.life.threads && u != t ==> s'.delivery.life.threads[u] == s.delivery.life.threads[u])
    requires forall u: nat ::
               && (u in s'.delivery.ring.threads <==> u in s.delivery.ring.threads)
               && (u in s.delivery.ring.threads && u != t ==> s'.delivery.ring.threads[u] == s.delivery.ring.threads[u])
    requires ThreadCoupled(s'.pool.threads[t], s'.delivery.life.threads[t], s'.delivery.ring.threads[t])
    ensures Threads(s')
  {
    forall u | u in s'.pool.threads
      ensures ThreadCoupled(s'.pool.threads[u], s'.delivery.life.threads[u], s'.delivery.ring.threads[u])
    {
      assert ThreadCoupled(s.pool.threads[u], s.delivery.life.threads[u], s.delivery.ring.threads[u]);
    }
  }

  lemma ThreadAt(s: State, t: nat)
    requires Threads(s) && t in s.pool.threads
    ensures Known(s, t) && ThreadCoupled(s.pool.threads[t], s.delivery.life.threads[t], s.delivery.ring.threads[t])
  {
  }

  /** A step of module Delivery by a thread that is in no pool call. */
  lemma DeliveryStepKeepsInv(s: State, a: D.Action)
    requires Inv(s) && a.t in s.pool.threads && s.pool.threads[a.t] == Pool.Idle && Known(s, a.t)
    requires a.Step? ==> !NeedsPool(s.delivery.life.threads[a.t])
    ensures Ring.Shape(s.delivery.ring) && Inv(s.(delivery := D.Exec(s.delivery, a)))
  {
    hide D.Inv, Pool.Inv, D.Exec, NodeCoupled, ThreadCoupled;
    D.ExecKeepsInv(s.delivery, a);
    var s' := s.(delivery := D.Exec(s.delivery, a));
    forall u: nat
      ensures (u in s'.delivery.life.threads <==> u in s.delivery.life.threads)
      ensures (u in s.delivery.life.threads && u != a.t ==> s'.delivery.life.threads[u] == s.delivery.life.threads[u])
    {
      DeliveryLifeThreads(s.delivery, a, u);
    }
    forall u: nat
      ensures (u in s'.delivery.ring.threads <==> u in s.delivery.ring.threads)
      ensures (u in s.delivery.ring.threads && u != a.t ==> s'.delivery.ring.threads[u] == s.delivery.ring.threads[u])
    {
      DeliveryRingThreads(s.delivery, a, u);
    }
    OutsidePool(s'.delivery.life.threads[a.t], s'.delivery.ring.threads[a.t]);
    ThreadsStay(s, s', a.t);
    forall n: nat ensures NodeCoupled(s'.pool, s'.delivery.life.place, n) {
      DeliveryPlaces(s.delivery, a, n);
      PlaceMoves(s.pool, s.delivery.life.place, s'.delivery.life.place, a.t, n);
    }
  }

  lemma OutsidePool(ll: Life.Local, rl: Ring.Local<nat>)
    ensures ThreadCoupled(Pool.Idle, ll, rl)
  {
  }

  lemma PlaceMoves(p: Pool.State, place: map<nat, Life.Place>, place': map<nat, Life.Place>, t: nat, n: nat)
    requires NodeCoupled(p, place, n) && t in p.threads && p.threads[t] == Pool.Idle && PlaceMoved(place, place', t, n)
    ensures NodeCoupled(p, place', n)
  {
  }

  /** The thread enters `acquire` or `release`. */
  lemma PoolCallKeepsInv(s: State, t: nat)
    requires Inv(s) && t in s.pool.threads && s.pool.threads[t] == Pool.Idle && Known(s, t)
    requires NeedsPool(s.delivery.life.threads[t]) && s.delivery.ring.threads[t].Idle?
    ensures Inv(s.(pool := PoolCall(s.pool, t, s.delivery.life.threads[t])))
  {
    hide D.Inv, Pool.Inv, Pool.Exec, NodeCoupled, ThreadCoupled;
    var pa := match s.delivery.life.threads[t]
      case PostAcquire(_, _, _) => Pool.Acquire(t)
      case DispReturn(node) => Pool.Release(t, node);
    var s' := s.(pool := Pool.Exec(s.pool, pa));
    CallIsAllowed(s, t);
    Pool.ExecKeepsInv(s.pool, pa);
    forall u: nat
      ensures (u in s'.pool.threads <==> u in s.pool.threads)
      ensures (u in s.pool.threads && u != t ==> s'.pool.threads[u] == s.pool.threads[u])
    {
      PoolThreads(s.pool, pa, u);
    }
    CallCoupled(s, t, pa);
    ThreadsStay(s, s', t);
    forall n: nat ensures NodeCoupled(s'.pool, s'.delivery.life.place, n) {
      CallNodes(s, t, pa, n);
    }
  }

  /** A node about to be released is one the pool handed out. */
  lemma ReturnedIsHandedOut(s: State, t: nat, node: nat)
    requires D.Inv(s.delivery) && Pool.Inv(s.pool) && Nodes(s) && Known(s, t)
    requires s.pool.threads[t] == Pool.Idle && s.delivery.life.threads[t] == Life.DispReturn(node)
    ensures Pool.Owned(s.pool, node, Pool.Caller)
    ensures node in s.delivery.life.place && s.delivery.life.place[node] == Life.With(t)
  {
    assert Life.LocalOk(s.delivery.life, t, s.delivery.life.threads[t]);
    assert NodeCoupled(s.pool, s.delivery.life.place, node);
  }

  /** So the release is one the pool expects. */
  lemma CallIsAllowed(s: State, t: nat)
    requires D.Inv(s.delivery) && Pool.Inv(s.pool) && Nodes(s) && Known(s, t) && s.pool.threads[t] == Pool.Idle
    ensures s.delivery.life.threads[t].DispReturn? ==>
              PoolCall(s.pool, t, s.delivery.life.threads[t]) ==
              Pool.Exec(s.pool, Pool.Release(t, s.delivery.life.threads[t].node))
  {
    hide D.Inv, Pool.Inv, Nodes;
    if s.delivery.life.threads[t].DispReturn? {
      ReturnedIsHandedOut(s, t, s.delivery.life.threads[t].node);
    }
  }

  lemma CallCoupled(s: State, t: nat, pa: Pool.Action)
    requires D.Inv(s.delivery) && Pool.Inv(s.pool) && Nodes(s) && Known(s, t)
    requires s.pool.threads[t] == Pool.Idle && s.delivery.ring.threads[t].Idle?
    requires (s.delivery.life.threads[t].PostAcquire? && pa == Pool.Acquire(t)) ||
             (s.delivery.life.threads[t].DispReturn? && pa == Pool.Release(t, s.delivery.life.threads[t].node))
    ensures t in Pool.Exec(s.pool, pa).threads
    ensures ThreadCoupled(Pool.Exec(s.pool, pa).threads[t], s.delivery.life.threads[t], s.delivery.ring.threads[t])
  {
  }

  lemma CallNodes(s: State, t: nat, pa: Pool.Action, n: nat)
    requires D.Inv(s.delivery) && Pool.Inv(s.pool) && Nodes(s) && Known(s, t)
    requires s.pool.threads[t] == Pool.Idle
    requires (s.delivery.life.threads[t].PostAcquire? && pa == Pool.Acquire(t)) ||
             (s.delivery.life.threads[t].DispReturn? && pa == Pool.Release(t, s.delivery.life.threads[t].node))
    ensures NodeCoupled(Pool.Exec(s.pool, pa), s.delivery.life.place, n)
  {
    hide D.Inv, Pool.Inv;
    if pa.Release? { ReturnedIsHandedOut(s, t, pa.node); }
    PoolOwner(s.pool, n);
    assert NodeCoupled(s.pool, s.delivery.life.place, n);
  }

  lemma PoolOwner(p: Pool.State, n: nat)
    requires Pool.Inv(p)
    ensures Pool.OwnerOk(p, n)
  {
  }

  lemma PoolLocal(p: Pool.State, t: nat)
    requires Pool.Inv(p) && t in p.threads
    ensures Pool.LocalOk(p, t, p.threads[t])
  {
  }

  /** How a step moves a thread inside a pool call. */
  predicate PoolMoves(pl: Pool.Local, pl': Pool.Local, took: bool) {
    && (Pool.Acquiring(pl) ==> if took then pl' == Pool.Idle else Pool.Acquiring(pl'))
    && (!Pool.Acquiring(pl) ==>
          pl' == Pool.Idle || pl'.RelDelete? || pl'.RelUncount? || pl'.RelLoad? || pl'.RelLink? || pl'.RelCas?)
  }

  lemma PoolStepMoves(p: Pool.State, t: nat, spurious: bool, addr: nat)
    requires t in p.threads && p.threads[t] != Pool.Idle
    ensures t in Pool.Exec(p, Pool.Step(t, spurious, addr)).threads
    ensures PoolMoves(p.threads[t], Pool.Exec(p, Pool.Step(t, spurious, addr)).threads[t],
                      PoolEffect(p, t, spurious) != [])
  {
  }

  /** The message path's side of a pool step: its place agrees with the pool's choice. */
  predicate DeliveryFollows(s: State, d': D.State, t: nat, spurious: bool, pl': Pool.Local)
    requires t in s.delivery.ring.threads
  {
    var d := s.delivery;
    && d' == d.(life := AfterPool(d.life, s.pool, t, spurious))
    && d'.life.place == PlaceAfter(d.life.place, s.pool, t, spurious)
    && t in d'.life.threads && d'.life.threads == d.life.threads[t := d'.life.threads[t]]
    && ThreadCoupled(pl', d'.life.threads[t], d.ring.threads[t])
  }

  lemma TakeFollows(s: State, t: nat, spurious: bool, pl': Pool.Local)
    requires Pool.Inv(s.pool) && Nodes(s) && Ring.Shape(s.delivery.ring) && Known(s, t)
    requires ThreadCoupled(s.pool.threads[t], s.delivery.life.threads[t], s.delivery.ring.threads[t])
    requires Pool.Acquiring(s.pool.threads[t]) && PoolEffect(s.pool, t, spurious) != [] && pl' == Pool.Idle
    ensures DeliveryFollows(s, Apply(s.delivery, PoolEffect(s.pool, t, spurious)), t, spurious, pl')
  {
    hide Pool.Inv, Nodes, D.Exec;
    HandedNodeIsFree(s, t, spurious);
    TakeEffect(s.delivery, t, PoolEffect(s.pool, t, spurious)[0].choice.addr);
  }

  lemma DropFollows(s: State, t: nat, spurious: bool, pl': Pool.Local)
    requires Ring.Shape(s.delivery.ring) && Known(s, t) && s.pool.threads[t].RelCheck?
    requires ThreadCoupled(s.pool.threads[t], s.delivery.life.threads[t], s.delivery.ring.threads[t])
    requires Life.LocalOk(s.delivery.life, t, s.delivery.life.threads[t])
    requires PoolMoves(s.pool.threads[t], pl', true)
    ensures DeliveryFollows(s, Apply(s.delivery, PoolEffect(s.pool, t, spurious)), t, spurious, pl')
  {
    hide D.Exec, Life.LocalOk;
    DropEffect(s.delivery, t, s.pool.threads[t].node, PoolEffect(s.pool, t, spurious)[0].choice.delete);
  }

  lemma NothingFollows(s: State, t: nat, spurious: bool, pl': Pool.Local)
    requires Known(s, t) && s.pool.threads[t] != Pool.Idle && PoolEffect(s.pool, t, spurious) == []
    requires ThreadCoupled(s.pool.threads[t], s.delivery.life.threads[t], s.delivery.ring.threads[t])
    requires PoolMoves(s.pool.threads[t], pl', false)
    ensures DeliveryFollows(s, s.delivery, t, spurious, pl')
  {
    assert s.delivery.life.threads[t := s.delivery.life.threads[t]] == s.delivery.life.threads;
  }

  lemma EffectOnDelivery(s: State, t: nat, spurious: bool, pl': Pool.Local)
    requires Inv(s) && t in s.pool.threads && s.pool.threads[t] != Pool.Idle
    requires PoolMoves(s.pool.threads[t], pl', PoolEffect(s.pool, t, spurious) != [])
    ensures Ring.Shape(s.delivery.ring) && Known(s, t)
    ensures DeliveryFollows(s, Apply(s.delivery, PoolEffect(s.pool, t, spurious)), t, spurious, pl')
  {
    hide D.Inv, Pool.Inv, D.Exec, Nodes, ThreadCoupled, DeliveryFollows;
    RingShape(s.delivery);
    ThreadAt(s, t);
    if PoolEffect(s.pool, t, spurious) == [] {
      NothingFollows(s, t, spurious, pl');
    } else if Pool.Acquiring(s.pool.threads[t]) {
      TakeFollows(s, t, spurious, pl');
    } else {
      LifeLocal(s.delivery, t);
      DropFollows(s, t, spurious, pl');
    }
  }

  lemma RingShape(d: D.State)
    requires D.Inv(d)
    ensures Ring.Shape(d.ring)
  {
  }

  lemma LifeLocal(d: D.State, t: nat)
    requires D.Inv(d) && t in d.life.threads
    ensures Life.LocalOk(d.life, t, d.life.threads[t])
  {
  }

  lemma PoolNodes(p: Pool.State, t: nat, spurious: bool, addr: nat, place: map<nat, Life.Place>, n: nat)
    requires Pool.Inv(p) && t in p.threads && NodeCoupled(p, place, n)
    ensures NodeCoupled(Pool.Exec(p, Pool.Step(t, spurious, addr)), PlaceAfter(place, p, t, spurious), n)
  {
    hide Pool.Inv, NodeCoupled, PlaceAfter, Pool.Exec;
    PoolOwner(p, n);
    PoolOwner(p, addr);
    PoolLocal(p, t);
    if Pool.Acquiring(p.threads[t]) {
      AcquireNodes(p, t, spurious, addr, place, n);
    } else {
      ReleaseNodes(p, t, spurious, addr, place, n);
    }
  }

  lemma PoolStepKeepsInv(s: State, t: nat, spurious: bool, addr: nat)
    requires Inv(s) && t in s.pool.threads && s.pool.threads[t] != Pool.Idle
    ensures Ring.Shape(s.delivery.ring)
    ensures Apply(s.delivery, PoolEffect(s.pool, t, spurious)) ==
            s.delivery.(life := AfterPool(s.delivery.life, s.pool, t, spurious))
    ensures Inv(State(Apply(s.delivery, PoolEffect(s.pool, t, spurious)),
                      Pool.Exec(s.pool, Pool.Step(t, spurious, addr))))
  {
    hide D.Inv, Pool.Inv, D.Exec, Pool.Exec, NodeCoupled, ThreadCoupled, PoolEffect, PlaceAfter, PoolMoves, AfterPool;
    RingShape(s.delivery);
    var a, e := Pool.Step(t, spurious, addr), PoolEffect(s.pool, t, spurious);
    var s' := State(Apply(s.delivery, e), Pool.Exec(s.pool, a));
    Pool.ExecKeepsInv(s.pool, a);
    if e != [] { D.ExecKeepsInv(s.delivery, e[0]); }
    PoolStepMoves(s.pool, t, spurious, addr);
    EffectOnDelivery(s, t, spurious, s'.pool.threads[t]);
    forall u: nat
      ensures (u in s'.pool.threads <==> u in s.pool.threads)
      ensures (u in s.pool.threads && u != t ==> s'.pool.threads[u] == s.pool.threads[u])
    {
      PoolThreads(s.pool, a, u);
    }
    ThreadsStay(s, s', t);
    forall n: nat ensures NodeCoupled(s'.pool, s'.delivery.life.place, n) {
      PoolNodes(s.pool, t, spurious, addr, s.delivery.life.place, n);
    }
  }

  /** A thread about to make a pool call is in no ring call. */
  lemma NoRingCall(d: D.State, t: nat)
    requires D.Inv(d) && t in d.life.threads && t in d.ring.threads && NeedsPool(d.life.threads[t])
    ensures d.ring.threads[t].Idle?
  {
    assert D.Coupled(d.ring.inserted, d.ring.threads[t], d.life.threads[t]);
  }

  /** Every step keeps the invariant, and is what it would be over the atomic pool: a node the
      pool hands out is free, and a node given back was handed out. */
  lemma ExecKeepsInv(s: State, a: D.Action)
    requires Inv(s)
    ensures Ring.Shape(s.delivery.ring) && Inv(Exec(s, a))
    ensures Exec(s, a).delivery == Apply(s.delivery, DeliveryPart(s, a))
  {
    hide D.Inv, Pool.Inv, Nodes, Threads, D.Exec, Pool.Exec, PoolEffect, AfterPool, PoolCall;
    RingShape(s.delivery);
    if Known(s, a.t) {
      if s.pool.threads[a.t] != Pool.Idle {
        if a.Step? { PoolStepKeepsInv(s, a.t, a.spurious, a.choice.addr); }
      } else if a.Step? && NeedsPool(s.delivery.life.threads[a.t]) {
        NoRingCall(s.delivery, a.t);
        PoolCallKeepsInv(s, a.t);
      } else if !a.BeginPost? || a.t in s.pool.acquirers {
        DeliveryStepKeepsInv(s, a);
      }
    }
  }

  lemma StartInv(topics: seq<seq<Life.Observer>>, cap: nat, junk: seq<nat>, tids: set<nat>,
                 initial: nat, maxSize: nat, posters: set<nat>)
    requires cap >= 2 && IsPowerOfTwo(cap) && |junk| == cap && SingleAcquirer(tids, posters)
    requires forall i :: 0 <= i < |topics| ==> |topics[i]| <= Life.MAX_OBSERVERS
    ensures Inv(Start(topics, cap, junk, tids, initial, maxSize, posters))
  {
    hide Pool.Inv, D.Inv, Ring.Inv, Life.Inv;
    Pool.InitInv(initial, maxSize, tids, posters);
    D.AfterInv(topics, cap, junk, tids, []);
    assert D.After(topics, cap, junk, tids, []) == D.State(Ring.Init(cap, junk, tids), Life.Init(topics, cap, tids));
  }

  lemma {:induction false} RunKeepsInv(s: State, acts: seq<D.Action>)
    requires Inv(s)
    ensures Ring.Shape(s.delivery.ring) && Inv(Run(s, acts))
    decreases |acts|
  {
    hide Inv, Exec;
    StateShape(s);
    if acts != [] {
      RunKeepsInv(s, acts[..|acts| - 1]);
      ExecKeepsInv(Run(s, acts[..|acts| - 1]), acts[|acts| - 1]);
    }
  }

  lemma StateShape(s: State)
    requires Inv(s)
    ensures Ring.Shape(s.delivery.ring)
  {
  }

  // ----- refinement -----

  /** The run of module Delivery that a run here stands for. */
  function Projected(s: State, acts: seq<D.Action>): seq<D.Action>
    requires Ring.Shape(s.delivery.ring)
    decreases |acts|
  {
    if acts == [] then [] else
    var last := |acts| - 1;
    Projected(s, acts[..last]) + DeliveryPart(Run(s, acts[..last]), acts[last])
  }

  /** With one poster the message path over the real pool does what it does over the atomic
      pool: no node handed out is in use. */
  lemma {:induction false} RunRefinesDelivery(s: State, acts: seq<D.Action>)
    requires Inv(s)
    ensures Ring.Shape(s.delivery.ring)
    ensures Run(s, acts).delivery == D.Run(s.delivery, Projected(s, acts))
    decreases |acts|
  {
    hide Inv, Exec, D.Exec, DeliveryPart;
    StateShape(s);
    if acts != [] {
      var last := |acts| - 1;
      RunRefinesDelivery(s, acts[..last]);
      RunKeepsInv(s, acts[..last]);
      ExecKeepsInv(Run(s, acts[..last]), acts[last]);
      var es, e := Projected(s, acts[..last]), DeliveryPart(Run(s, acts[..last]), acts[last]);
      if e == [] {
        assert es + e == es;
      } else {
        assert (es + e)[..|es|] == es && (es + e)[|es|] == e[0];
      }
    }
  }

  /** Every accepted post has called a prefix of its snapshot, each observer once, with the
      posted bytes; and once nobody is at work and the ring is empty every post is complete,
      its payload deleted exactly once. */
  predicate Delivered(d: D.State) {
    && (forall k :: 0 <= k < |d.life.posts| ==> DeliveryTheorems.Faithful(d.life.posts[k]))
    && (d.ring.head == d.ring.tail && (forall t :: t in d.life.threads ==> !Life.HasNode(d.life.threads[t])) ==>
          && (forall k :: 0 <= k < |d.life.posts| ==> DeliveryTheorems.Complete(d.life.posts[k]))
          && d.life.payloads == map[])
  }

  /** End to end over the real pool, in every run, if at most one of the threads posts. */
  lemma EveryPostIsDelivered(
    topics: seq<seq<Life.Observer>>, cap: nat, junk: seq<nat>, tids: set<nat>,
    initial: nat, maxSize: nat, posters: set<nat>, acts: seq<D.Action>)
    requires cap >= 2 && IsPowerOfTwo(cap) && |junk| == cap && SingleAcquirer(tids, posters)
    requires forall i :: 0 <= i < |topics| ==> |topics[i]| <= Life.MAX_OBSERVERS
    ensures Delivered(Run(Start(topics, cap, junk, tids, initial, maxSize, posters), acts).delivery)
  {
    hide Inv, Exec, DeliveryTheorems.Faithful, DeliveryTheorems.Complete;
    var start := Start(topics, cap, junk, tids, initial, maxSize, posters);
    StartInv(topics, cap, junk, tids, initial, maxSize, posters);
    RunRefinesDelivery(start, acts);
    DeliveryTheorems.EveryPostIsDelivered(topics, cap, junk, tids, Projected(start, acts));
  }

  /** The next step of thread t, if it is no spurious failure, completes `acquire` with node n. */
  predicate HandsOut(p: Pool.State, t: nat, n: nat)
    requires t in p.threads
  {
    p.threads[t] == Pool.AcqCount(n) || (p.threads[t].AcqCas? && p.threads[t].top == n && p.freeList == Pool.At(n))
  }

  lemma PoolTakes(p: Pool.State, t: nat, n: nat)
    requires t in p.threads && HandsOut(p, t, n)
    ensures PoolEffect(p, t, false) == [TakeNode(t, n)]
  {
  }

  lemma UsedNode(p: Pool.State, place: map<nat, Life.Place>, n: nat)
    requires NodeCoupled(p, place, n) && InUse(place, n)
    ensures n in p.owner && (p.owner[n] == Pool.Caller || (p.owner[n].Thread? && place[n] == Life.With(p.owner[n].t)))
  {
  }

  /** In every run no node is in use twice: a node the message path has, queued or with a
      call, is neither on the free list nor in the hands of another thread's `release`; and
      the node `acquire` is about to hand out is not in use. */
  lemma NodesInUseAreNotPooled(
    topics: seq<seq<Life.Observer>>, cap: nat, junk: seq<nat>, tids: set<nat>,
    initial: nat, maxSize: nat, posters: set<nat>, acts: seq<D.Action>, n: nat)
    requires cap >= 2 && IsPowerOfTwo(cap) && |junk| == cap && SingleAcquirer(tids, posters)
    requires forall i :: 0 <= i < |topics| ==> |topics[i]| <= Life.MAX_OBSERVERS
    ensures var s := Run(Start(topics, cap, junk, tids, initial, maxSize, posters), acts);
            && (InUse(s.delivery.life.place, n) ==>
                  && n in s.pool.next && n in s.pool.owner
                  && (s.pool.owner[n] == Pool.Caller ||
                      (s.pool.owner[n].Thread? && s.delivery.life.place[n] == Life.With(s.pool.owner[n].t))))
            && (forall t :: t in s.pool.threads && HandsOut(s.pool, t, n) ==> !InUse(s.delivery.life.place, n))
  {
    hide D.Inv, Pool.Inv, NodeCoupled, PoolEffect, Exec;
    StartInv(topics, cap, junk, tids, initial, maxSize, posters);
    RunKeepsInv(Start(topics, cap, junk, tids, initial, maxSize, posters), acts);
    var s := Run(Start(topics, cap, junk, tids, initial, maxSize, posters), acts);
    assert NodeCoupled(s.pool, s.delivery.life.place, n);
    PoolOwner(s.pool, n);
    if InUse(s.delivery.life.place, n) { UsedNode(s.pool, s.delivery.life.place, n); }
    forall t | t in s.pool.threads && HandsOut(s.pool, t, n) ensures !InUse(s.delivery.life.place, n) {
      PoolTakes(s.pool, t, n);
      HandedNodeIsFree(s, t, false);
    }
  }
}
