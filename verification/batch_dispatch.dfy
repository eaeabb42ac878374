/** `dispatchOne` and `dispatchBatch` of `EventQueueBroadcastFastBatch`
    (src/eventqueue_batch.h) for one dispatching thread, with the payload counts
    (src/payload_refcounted.h) and the free list (src/objectpool_lockfree.h) they touch.
    Handlers do not use the queue. */
module BatchDispatch {
  import opened Sequences

  const BATCH_SIZE := 32
  const MAX_POOLED := 16384

  datatype Observer = Observer(callback: nat, userData: nat)

  datatype Body = Inline(data: seq<nat>) | Managed(payload: nat)

  datatype Message = Message(topicId: nat, observers: seq<Observer>, body: Body)

  datatype Payload = Payload(refCount: int, data: seq<nat>)

  /** What the outside sees: callbacks with their bytes, and payload and node deletions. */
  datatype Event =
    | Called(observer: Observer, topic: nat, data: seq<nat>)
    | PayloadFreed(payload: nat)

  /** Everything dispatching touches. */
  datatype World = World(
    queue: seq<nat>,
    nodes: map<nat, Message>,
    payloads: map<nat, Payload>,
    freeList: seq<nat>,
    total: nat,
    trace: seq<Event>)

  // ----- what one message does -----

  function DataOf(w: World, m: Message): seq<nat> {
    match m.body
    case Inline(data) => data
    case Managed(p) => if p in w.payloads then w.payloads[p].data else []
  }

  /** `release` of a payload: deletes it when the count was one. */
  function ReleaseRef(w: World, p: nat): World {
    if p !in w.payloads then w
    else if w.payloads[p].refCount == 1 then w.(payloads := w.payloads - {p}, trace := w.trace + [PayloadFreed(p)])
    else w.(payloads := w.payloads[p := w.payloads[p].(refCount := w.payloads[p].refCount - 1)])
  }

  /** One callback, and the reference it gives up. */
  function CallOne(w: World, m: Message, i: nat): World
    requires i < |m.observers|
  {
    var w1 := w.(trace := w.trace + [Called(m.observers[i], m.topicId, DataOf(w, m))]);
    if m.body.Managed? then ReleaseRef(w1, m.body.payload) else w1
  }

  /** The first i callbacks of a message. */
  function CallUpTo(w: World, m: Message, i: nat): World
    requires i <= |m.observers|
  {
    if i == 0 then w else CallOne(CallUpTo(w, m, i - 1), m, i - 1)
  }

  function Deliver(w: World, n: nat): World {
    if n in w.nodes then CallUpTo(w, w.nodes[n], |w.nodes[n].observers|) else w
  }

  /** `release` of a node: back to the free list, or deleted when too many are allocated. */
  function ReleaseNode(w: World, n: nat): World {
    if w.total > MAX_POOLED then w.(nodes := w.nodes - {n}, total := w.total - 1)
    else w.(freeList := [n] + w.freeList)
  }

  // ----- one at a time, and in a batch -----

  function One(w: World): World {
    if w.queue == [] then w
    else ReleaseNode(Deliver(w.(queue := w.queue[1..]), w.queue[0]), w.queue[0])
  }

  function Ones(w: World, k: nat): World
    decreases k
  {
    if k == 0 then w else Ones(One(w), k - 1)
  }

  function DeliverAll(w: World, ns: seq<nat>): World
    decreases |ns|
  {
    if ns == [] then w else DeliverAll(Deliver(w, ns[0]), ns[1..])
  }

  function ReleaseAll(w: World, ns: seq<nat>): World
    decreases |ns|
  {
    if ns == [] then w else ReleaseAll(ReleaseNode(w, ns[0]), ns[1..])
  }

  /** Pop k messages, then deliver them all, then release them all. */
  function Batch(w: World, k: nat): World
    requires k <= |w.queue|
  {
    var ns := w.queue[..k];
    ReleaseAll(DeliverAll(w.(queue := w.queue[k..]), ns), ns)
  }

  // ----- they agree -----

  predicate Distinct(ns: seq<nat>) {
    forall i, j :: 0 <= i < j < |ns| ==> ns[i] != ns[j]
  }

  /** Every queued node exists, and is queued once. */
  predicate QueueOk(w: World) {
    Distinct(w.queue) && forall i :: 0 <= i < |w.queue| ==> w.queue[i] in w.nodes
  }

  /** Callbacks ignore the queue, the nodes, the free list and the allocation count. */
  lemma {:induction false} CallsIgnoreThePool(w: World, w': World, m: Message, i: nat)
    requires i <= |m.observers| && w'.payloads == w.payloads && w'.trace == w.trace
    ensures CallUpTo(w', m, i) == w'.(payloads := CallUpTo(w, m, i).payloads, trace := CallUpTo(w, m, i).trace)
    ensures CallUpTo(w, m, i) == w.(payloads := CallUpTo(w, m, i).payloads, trace := CallUpTo(w, m, i).trace)
  {
    if i > 0 {
      CallsIgnoreThePool(w, w', m, i - 1);
    }
  }

  /** Returning one node and delivering another commute. */
  lemma ReleaseThenDeliver(w: World, a: nat, b: nat)
    requires a != b
    ensures Deliver(ReleaseNode(w, a), b) == ReleaseNode(Deliver(w, b), a)
  {
    if b in w.nodes {
      var m := w.nodes[b];
      CallsIgnoreThePool(w, ReleaseNode(w, a), m, |m.observers|);
    }
  }

  lemma {:induction false} ReleaseThenDeliverAll(w: World, a: nat, ns: seq<nat>)
    requires a !in ns
    ensures DeliverAll(ReleaseNode(w, a), ns) == ReleaseNode(DeliverAll(w, ns), a)
    decreases |ns|
  {
    if ns != [] {
      ReleaseThenDeliver(w, a, ns[0]);
      ReleaseThenDeliverAll(Deliver(w, ns[0]), a, ns[1..]);
    }
  }

  lemma DeliverSetsQueue(w: World, n: nat, queue: seq<nat>)
    ensures Deliver(w.(queue := queue), n) == Deliver(w, n).(queue := queue)
    ensures Deliver(w, n).nodes == w.nodes && Deliver(w, n).queue == w.queue
    ensures Deliver(w, n).freeList == w.freeList && Deliver(w, n).total == w.total
  {
    if n in w.nodes {
      CallsIgnoreThePool(w, w.(queue := queue), w.nodes[n], |w.nodes[n].observers|);
    }
  }

  lemma OneOfMany(w: World, k: nat)
    requires 0 < k <= |w.queue|
    ensures One(w).queue == w.queue[1..]
    ensures One(w).(queue := w.queue[k..]) ==
            ReleaseNode(Deliver(w.(queue := w.queue[k..]), w.queue[0]), w.queue[0])
  {
    DeliverSetsQueue(w, w.queue[0], w.queue[1..]);
    DeliverSetsQueue(w, w.queue[0], w.queue[k..]);
  }

  /** A batch of k is the same as k single dispatches: same callbacks and payload deletions in
      the same order, same payload counts, queue, free list order and allocation count. */
  lemma {:induction false} BatchRefinesOnes(w: World, k: nat)
    requires k <= |w.queue| && Distinct(w.queue)
    ensures Batch(w, k) == Ones(w, k)
    decreases k
  {
    if k == 0 {
      assert w.queue[0..] == w.queue;
    } else {
      var a, ns := w.queue[0], w.queue[1..k];
      var start := w.(queue := w.queue[k..]);
      OneOfMany(w, k);
      BatchRefinesOnes(One(w), k - 1);
      assert One(w).queue[..k - 1] == ns && One(w).queue[k - 1..] == w.queue[k..];
      ReleaseThenDeliverAll(Deliver(start, a), a, ns);
      assert w.queue[..k][1..] == ns && w.queue[..k][0] == a;
    }
  }

  lemma OneIs(w: World)
    ensures One(w) == if w.queue == [] then w
                      else ReleaseNode(Deliver(w.(queue := w.queue[1..]), w.queue[0]), w.queue[0])
  {
  }

  lemma OneKeepsQueue(w: World)
    requires QueueOk(w)
    ensures QueueOk(One(w))
  {
    if w.queue != [] {
      DeliverSetsQueue(w.(queue := w.queue[1..]), w.queue[0], []);
    }
  }

  lemma {:induction false} OnesKeepQueue(w: World, k: nat)
    requires QueueOk(w)
    ensures QueueOk(Ones(w, k))
    decreases k
  {
    if k > 0 {
      OneKeepsQueue(w);
      OnesKeepQueue(One(w), k - 1);
    }
  }

  // ----- what it comes to -----

  /** A payload of the message is alive, with one reference for each observer. */
  predicate Counted(m: Message, payloads: map<nat, Payload>) {
    m.body.Managed? ==>
      m.body.payload in payloads && payloads[m.body.payload].refCount == |m.observers| && |m.observers| > 0
  }

  predicate Unshared(a: Message, b: Message) {
    a.body.Managed? && b.body.Managed? ==> a.body.payload != b.body.payload
  }

  /** Every queued message is counted, and no two share a payload. */
  predicate PayloadsOk(w: World) {
    && (forall i :: 0 <= i < |w.queue| ==> w.queue[i] in w.nodes && Counted(w.nodes[w.queue[i]], w.payloads))
    && (forall i, j :: 0 <= i < j < |w.queue| ==>
          w.queue[i] in w.nodes && w.queue[j] in w.nodes && Unshared(w.nodes[w.queue[i]], w.nodes[w.queue[j]]))
  }

  /** How many events a message makes. */
  function Size(m: Message): nat {
    |m.observers| + if m.body.Managed? then 1 else 0
  }

  /** From position `from` the trace has the events of the message: each observer of the
      snapshot called once, in order, with the posted bytes, then its payload deleted. */
  predicate TellsOf(trace: seq<Event>, from: nat, m: Message, payloads: map<nat, Payload>)
    requires Counted(m, payloads)
  {
    var n := |m.observers|;
    && from + Size(m) <= |trace|
    && (forall k :: 0 <= k < n ==>
          trace[from + k] == Called(m.observers[k], m.topicId,
                                    if m.body.Inline? then m.body.data else payloads[m.body.payload].data))
    && (m.body.Managed? ==> trace[from + n] == PayloadFreed(m.body.payload))
  }

  function WithoutPayload(payloads: map<nat, Payload>, m: Message): map<nat, Payload> {
    if m.body.Managed? then payloads - {m.body.payload} else payloads
  }

  /** Part of the way through the callbacks of a counted message. */
  lemma {:induction false} CallsInOrder(w: World, m: Message, i: nat)
    requires Counted(m, w.payloads) && i <= |m.observers|
    ensures var w', n := CallUpTo(w, m, i), |m.observers|;
            && w' == w.(payloads := w'.payloads, trace := w'.trace)
            && w.trace <= w'.trace && |w'.trace| == |w.trace| + (if i == n then Size(m) else i)
            && (forall k :: 0 <= k < i ==>
                  w'.trace[|w.trace| + k] ==
                  Called(m.observers[k], m.topicId,
                         if m.body.Inline? then m.body.data else w.payloads[m.body.payload].data))
            && (m.body.Managed? && i == n ==> w'.trace[|w.trace| + n] == PayloadFreed(m.body.payload))
            && w'.payloads == if m.body.Inline? then w.payloads
                              else if i == n then w.payloads - {m.body.payload}
                              else w.payloads[m.body.payload := Payload(n - i, w.payloads[m.body.payload].data)]
    decreases i
  {
    if i > 0 { CallsInOrder(w, m, i - 1); }
  }

  lemma OneTells(w: World)
    requires QueueOk(w) && PayloadsOk(w) && w.queue != []
    ensures var w', n := One(w), w.queue[0]; var m := w.nodes[n];
            && w'.queue == w.queue[1..]
            && w.trace <= w'.trace && |w'.trace| == |w.trace| + Size(m) && TellsOf(w'.trace, |w.trace|, m, w.payloads)
            && w'.payloads == WithoutPayload(w.payloads, m)
            && (if w.total > MAX_POOLED
                then w'.nodes == w.nodes - {n} && w'.total == w.total - 1 && w'.freeList == w.freeList
                else w'.nodes == w.nodes && w'.total == w.total && w'.freeList == [n] + w.freeList)
            && PayloadsOk(w')
  {
    var start, m := w.(queue := w.queue[1..]), w.nodes[w.queue[0]];
    CallsInOrder(start, m, |m.observers|);
    OthersUnshared(w);
  }

  /** The other messages keep their payloads. */
  lemma OthersUnshared(w: World)
    requires QueueOk(w) && PayloadsOk(w) && w.queue != []
    ensures var m := w.nodes[w.queue[0]];
            forall i :: 0 < i < |w.queue| ==>
              w.queue[i] != w.queue[0] && Counted(w.nodes[w.queue[i]], WithoutPayload(w.payloads, m))
  {
  }

  /** The events of the first k queued messages. */
  function SizeOf(w: World, k: nat): nat
    requires k <= |w.queue| && QueueOk(w)
  {
    if k == 0 then 0 else SizeOf(w, k - 1) + Size(w.nodes[w.queue[k - 1]])
  }

  /** How many of k returned nodes are deleted: those returned while too many are allocated. */
  function Deleted(total: nat, k: nat): nat {
    if total > MAX_POOLED then Min(k, total - MAX_POOLED) else 0
  }

  /** The first k messages have been handled: their events one message after the other, their
      payloads deleted and no others, the first nodes deleted while too many are allocated and
      the others on the free list, the last one on top. */
  ghost predicate HandledFirst(w: World, w': World, k: nat)
    requires QueueOk(w) && PayloadsOk(w) && k <= |w.queue|
  {
    w'.queue == w.queue[k..] && Told(w, w', k) && Freed(w, w', k) && Pooled(w, w', k)
  }

  predicate Told(w: World, w': World, k: nat)
    requires QueueOk(w) && PayloadsOk(w) && k <= |w.queue|
  {
    && w.trace <= w'.trace && |w'.trace| == |w.trace| + SizeOf(w, k)
    && (forall j :: 0 <= j < k ==> TellsOf(w'.trace, |w.trace| + SizeOf(w, j), w.nodes[w.queue[j]], w.payloads))
  }

  ghost predicate Freed(w: World, w': World, k: nat)
    requires QueueOk(w) && k <= |w.queue|
  {
    && (forall p :: p in w'.payloads <==>
          p in w.payloads && forall j :: 0 <= j < k ==> w.nodes[w.queue[j]].body != Managed(p))
    && (forall p :: p in w'.payloads ==> w'.payloads[p] == w.payloads[p])
  }

  predicate Pooled(w: World, w': World, k: nat)
    requires k <= |w.queue|
  {
    var d := Deleted(w.total, k);
    && w'.total == w.total - d && w'.nodes == w.nodes - (set j | 0 <= j < d :: w.queue[j])
    && |w'.freeList| == |w.freeList| + (k - d) && w'.freeList[k - d..] == w.freeList
    && (forall i :: 0 <= i < k - d ==> w'.freeList[i] == w.queue[k - 1 - i])
  }

  lemma {:induction false} OnesNext(w: World, k: nat)
    ensures Ones(w, k + 1) == One(Ones(w, k))
    decreases k
  {
    hide One;
    if k > 0 { OnesNext(One(w), k - 1); }
  }

  lemma {:induction false} OnesTell(w: World, k: nat)
    requires QueueOk(w) && PayloadsOk(w) && k <= |w.queue|
    ensures HandledFirst(w, Ones(w, k), k) && PayloadsOk(Ones(w, k))
    decreases k
  {
    hide PayloadsOk, HandledFirst, One, TellsOf;
    if k == 0 {
      NothingHandled(w);
    } else {
      OnesTell(w, k - 1);
      OnesNext(w, k - 1);
      OnesKeepQueue(w, k - 1);
      SameMessage(w, Ones(w, k - 1), k - 1);
      OneTells(Ones(w, k - 1));
      HandledNext(w, Ones(w, k - 1), k - 1);
    }
  }

  lemma NothingHandled(w: World)
    requires QueueOk(w) && PayloadsOk(w)
    ensures HandledFirst(w, w, 0)
  {
    assert w.queue[0..] == w.queue;
  }

  lemma HandledNext(w: World, s: World, k: nat)
    requires QueueOk(w) && PayloadsOk(w) && k < |w.queue| && HandledFirst(w, s, k)
    requires QueueOk(s) && PayloadsOk(s) && s.queue != []
    ensures HandledFirst(w, One(s), k + 1)
  {
    hide PayloadsOk, TellsOf, One, Counted, Unshared, SizeOf, Told, Freed, Pooled, WithoutPayload, Size;
    var s', m := One(s), w.nodes[w.queue[k]];
    OneTells(s);
    SameMessage(w, s, k);
    ToldNext(w, s, s', k);
    FreedNext(w, s, s', k);
    PooledNext(w, s, s', k);
  }

  /** The next message is as it was at first, and so is its payload. */
  lemma SameMessage(w: World, s: World, k: nat)
    requires QueueOk(w) && PayloadsOk(w) && k < |w.queue| && HandledFirst(w, s, k)
    ensures var n := w.queue[k];
            && s.queue != [] && s.queue[0] == n && n in s.nodes && s.nodes[n] == w.nodes[n]
            && Counted(w.nodes[n], w.payloads) && Counted(w.nodes[n], s.payloads)
            && (w.nodes[n].body.Managed? ==>
                  s.payloads[w.nodes[n].body.payload] == w.payloads[w.nodes[n].body.payload])
  {
    hide Told, TellsOf;
    var n := w.queue[k];
    assert n in w.nodes && Counted(w.nodes[n], w.payloads);
    forall j | 0 <= j < k ensures Unshared(w.nodes[w.queue[j]], w.nodes[n]) && w.queue[j] != n {
    }
  }

  lemma ToldNext(w: World, s: World, s': World, k: nat)
    requires QueueOk(w) && PayloadsOk(w) && k < |w.queue| && Told(w, s, k)
    requires var m := w.nodes[w.queue[k]];
             && Counted(m, w.payloads) && Counted(m, s.payloads)
             && (m.body.Managed? ==> s.payloads[m.body.payload] == w.payloads[m.body.payload])
             && s.trace <= s'.trace && |s'.trace| == |s.trace| + Size(m) && TellsOf(s'.trace, |s.trace|, m, s.payloads)
    ensures Told(w, s', k + 1)
  {
    hide PayloadsOk, Counted, TellsOf, Size, SizeOf;
    SizeNext(w, k);
    forall j: nat | j <= k
      ensures Counted(w.nodes[w.queue[j]], w.payloads)
      ensures TellsOf(s'.trace, |w.trace| + SizeOf(w, j), w.nodes[w.queue[j]], w.payloads)
    {
      CountedAt(w, j);
      if j < k {
        StillTold(s.trace, s'.trace, |w.trace| + SizeOf(w, j), w.nodes[w.queue[j]], w.payloads);
      } else {
        ToldAlike(s'.trace, |s.trace|, w.nodes[w.queue[k]], s.payloads, w.payloads);
      }
    }
  }

  lemma SizeNext(w: World, k: nat)
    requires k < |w.queue| && QueueOk(w)
    ensures SizeOf(w, k + 1) == SizeOf(w, k) + Size(w.nodes[w.queue[k]])
  {
  }

  lemma StillTold(trace: seq<Event>, trace': seq<Event>, from: nat, m: Message, payloads: map<nat, Payload>)
    requires Counted(m, payloads) && TellsOf(trace, from, m, payloads) && trace <= trace'
    ensures TellsOf(trace', from, m, payloads)
  {
  }

  lemma ToldAlike(trace: seq<Event>, from: nat, m: Message, payloads: map<nat, Payload>, payloads': map<nat, Payload>)
    requires Counted(m, payloads) && Counted(m, payloads') && TellsOf(trace, from, m, payloads)
    requires m.body.Managed? ==> payloads'[m.body.payload] == payloads[m.body.payload]
    ensures TellsOf(trace, from, m, payloads')
  {
  }

  lemma CountedAt(w: World, j: nat)
    requires QueueOk(w) && PayloadsOk(w) && j < |w.queue|
    ensures Counted(w.nodes[w.queue[j]], w.payloads)
  {
  }

  lemma FreedNext(w: World, s: World, s': World, k: nat)
    requires QueueOk(w) && k < |w.queue| && Freed(w, s, k)
    requires s'.payloads == WithoutPayload(s.payloads, w.nodes[w.queue[k]])
    ensures Freed(w, s', k + 1)
  {
  }

  lemma PooledNext(w: World, s: World, s': World, k: nat)
    requires k < |w.queue| && Pooled(w, s, k)
    requires var n := w.queue[k];
             if s.total > MAX_POOLED
             then s'.nodes == s.nodes - {n} && s'.total == s.total - 1 && s'.freeList == s.freeList
             else s'.nodes == s.nodes && s'.total == s.total && s'.freeList == [n] + s.freeList
    ensures Pooled(w, s', k + 1)
  {
    var d := Deleted(w.total, k + 1);
    if s.total > MAX_POOLED {
      assert d == k + 1;
      assert (set j | 0 <= j < k + 1 :: w.queue[j]) == (set j | 0 <= j < k :: w.queue[j]) + {w.queue[k]};
    }
  }

  // ----- the methods -----

  class BatchQueue {
    var queue: seq<nat>
    var nodes: map<nat, Message>
    var payloads: map<nat, Payload>
    var freeList: seq<nat>
    var total: nat
    var trace: seq<Event>

    function Now(): World
      reads this
    {
      World(queue, nodes, payloads, freeList, total, trace)
    }

    predicate Valid()
      reads this
    {
      QueueOk(Now())
    }

    method TryPop() returns (ok: bool, n: nat)
      modifies this`queue
      ensures ok <==> old(queue) != []
      ensures ok ==> n == old(queue)[0] && queue == old(queue)[1..]
      ensures !ok ==> queue == []
    {
      if queue == [] { return false, 0; }
      ok, n := true, queue[0];
      queue := queue[1..];
    }

    /** The callback loop: calls every observer, and releases the payload after each call. */
    method CallObservers(n: nat)
      requires n in nodes
      modifies this`payloads, this`trace
      ensures Now() == Deliver(old(Now()), n)
    {
      var m := nodes[n];
      for i := 0 to |m.observers|
        invariant Now() == CallUpTo(old(Now()), m, i)
      {
        ghost var was := Now();
        var data := DataOf(Now(), m);
        trace := trace + [Called(m.observers[i], m.topicId, data)];
        if m.body.Managed? {
          Unref(m.body.payload);
        }
        assert Now() == CallOne(was, m, i);
      }
    }

    method Unref(p: nat)
      modifies this`payloads, this`trace
      ensures Now() == ReleaseRef(old(Now()), p)
    {
      if p !in payloads { return; }
      var was := payloads[p].refCount;
      payloads := payloads[p := payloads[p].(refCount := was - 1)];
      if was == 1 {
        payloads := payloads - {p};
        trace := trace + [PayloadFreed(p)];
      }
    }

    method ReturnNode(n: nat)
      modifies this`nodes, this`freeList, this`total
      ensures Now() == ReleaseNode(old(Now()), n)
    {
      if total > MAX_POOLED {
        nodes := nodes - {n};
        total := total - 1;
      } else {
        freeList := [n] + freeList;
      }
    }

    method DispatchOne() returns (did: bool)
      requires Valid()
      modifies this
      ensures did <==> old(queue) != []
      ensures Now() == One(old(Now())) && Valid()
      ensures did && old(PayloadsOk(Now())) ==>
                var n := old(queue)[0]; var m := old(nodes)[n];
                && queue == old(queue)[1..]
                && old(trace) <= trace && |trace| == |old(trace)| + Size(m)
                && TellsOf(trace, |old(trace)|, m, old(payloads))
                && payloads == WithoutPayload(old(payloads), m)
                && (if old(total) > MAX_POOLED
                    then nodes == old(nodes) - {n} && total == old(total) - 1 && freeList == old(freeList)
                    else nodes == old(nodes) && total == old(total) && freeList == [n] + old(freeList))
                && PayloadsOk(Now())
      ensures !did ==> Now() == old(Now())
    {
      hide PayloadsOk, TellsOf, One, Deliver, ReleaseNode;
      var n: nat;
      OneIs(Now());
      did, n := TryPop();
      if !did { return; }
      CallObservers(n);
      ReturnNode(n);
      OneKeepsQueue(old(Now()));
      if old(PayloadsOk(Now())) { OneTells(old(Now())); }
    }

    /** Fills the local buffer from the queue. */
    method Prefetch(batch: array<nat>, limit: nat) returns (count: nat)
      requires limit <= batch.Length
      modifies this`queue, batch
      ensures count == Min(limit, old(|queue|))
      ensures batch[..count] == old(queue)[..count] && queue == old(queue)[count..]
    {
      count := 0;
      while count < limit
        invariant count <= Min(limit, old(|queue|))
        invariant batch[..count] == old(queue)[..count] && queue == old(queue)[count..]
      {
        var ok, n := TryPop();
        if !ok { break; }
        batch[count] := n;
        count := count + 1;
      }
    }

    method Process(batch: array<nat>, count: nat)
      requires count <= batch.Length && forall i :: 0 <= i < count ==> batch[i] in nodes
      modifies this`payloads, this`trace
      ensures Now() == DeliverAll(old(Now()), batch[..count])
    {
      hide Deliver;
      ghost var ns := batch[..count];
      for i := 0 to count
        invariant DeliverAll(Now(), ns[i..]) == DeliverAll(old(Now()), ns)
      {
        assert ns[i..][0] == batch[i] && ns[i..][1..] == ns[i + 1..];
        CallObservers(batch[i]);
      }
    }

    method ReturnAll(batch: array<nat>, count: nat)
      requires count <= batch.Length
      modifies this`nodes, this`freeList, this`total
      ensures Now() == ReleaseAll(old(Now()), batch[..count])
    {
      hide ReleaseNode;
      ghost var ns := batch[..count];
      for i := 0 to count
        invariant ReleaseAll(Now(), ns[i..]) == ReleaseAll(old(Now()), ns)
      {
        assert ns[i..][0] == batch[i] && ns[i..][1..] == ns[i + 1..];
        ReturnNode(batch[i]);
      }
    }

    /** Pops up to min(maxCount, 32) messages into a local buffer, processes them, then
        returns their nodes: all in all as many single dispatches. */
    method DispatchBatch(maxCount: nat) returns (count: nat)
      requires Valid()
      modifies this
      ensures count == Min(Min(maxCount, BATCH_SIZE), old(|queue|))
      ensures Now() == Ones(old(Now()), count) && Valid()
      ensures old(PayloadsOk(Now())) ==> HandledFirst(old(Now()), Now(), count) && PayloadsOk(Now())
    {
      hide Ones, DeliverAll, ReleaseAll, PayloadsOk, HandledFirst;
      var batch := new nat[BATCH_SIZE];
      count := Prefetch(batch, Min(maxCount, BATCH_SIZE));
      Process(batch, count);
      ReturnAll(batch, count);
      BatchRefinesOnes(old(Now()), count);
      if old(PayloadsOk(Now())) { OnesTell(old(Now()), count); }
      OnesKeepQueue(old(Now()), count);
    }
  }
}
