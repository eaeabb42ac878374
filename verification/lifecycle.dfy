/** The life of a message in `EventQueueBroadcastFast` (src/eventqueue_fast.h) with its
    reference-counted payload (src/payload_refcounted.h), as a transition system.

    Any number of threads post and dispatch. Observers are registered before posting, as the
    header demands. Queue and pool operations are atomic here; module Delivery puts the ring
    underneath and runs the whole, and module Pool treats the free list. Loads, plain accesses, reference-count
    updates, callbacks, allocation and deletion are one step each. A new payload may get the
    address of a deleted one. */
module Lifecycle {

  const INLINE_MAX := 48
  const MAX_OBSERVERS := 16

  datatype Observer = Observer(callback: nat, userData: nat)

  /** A callback invocation. */
  datatype Delivery = Delivery(observer: Observer, topic: nat, data: seq<nat>)

  datatype Body = Inline(data: seq<nat>) | Managed(payload: nat)

  datatype Message = Message(topicId: nat, observerCount: nat, size: nat, observers: seq<Observer>, body: Body)

  datatype Payload = Payload(refCount: int, data: seq<nat>)

  /** Where a message node is: in the pool, in the queue, or with a running call. */
  datatype Place = InPool | Queued | With(t: nat)

  /** History of an accepted post: what it was given and whom it found registered, the node
      that carries it, what has been delivered, how often its payload was deleted, and
      whether its node has gone back to the pool. */
  datatype Post = Post(
    topic: nat, data: seq<nat>, snapshot: seq<Observer>, node: nat,
    delivered: seq<Delivery>, frees: nat, done: bool)

  datatype Local =
    | Idle
    | PostLoad(topic: nat, data: seq<nat>)
    | PostAcquire(topic: nat, data: seq<nat>, count: nat)
    | PostHeader(node: nat, topic: nat, data: seq<nat>, count: nat)
    | PostSnapshot(node: nat, topic: nat, data: seq<nat>, count: nat)
    | PostBody(node: nat, data: seq<nat>, count: nat)
    | PostAddRefs(node: nat, count: nat)
    | PostPush(node: nat)
    | DispPop
    | DispLoop(node: nat, i: nat)
    | DispRelease(node: nat, i: nat)
    | DispReturn(node: nat)

  datatype State = State(
    topics: seq<seq<Observer>>,
    cap: nat,
    nodes: map<nat, Message>,
    payloads: map<nat, Payload>,
    queue: seq<nat>,
    threads: map<nat, Local>,
    place: map<nat, Place>,
    carries: map<nat, nat>,
    home: map<nat, nat>,
    posts: seq<Post>)

  /** What a step leaves open: the address of a new or pooled object, whether the pool keeps
      or deletes a returned node, and whether a pop gives up although the queue is not empty
      (the ring may, while a push is still being published). */
  datatype Choice = Choice(addr: nat, delete: bool, giveUp: bool)

  datatype Action =
    | BeginPost(t: nat, topic: nat, data: seq<nat>)
    | BeginDispatch(t: nat)
    | Step(t: nat, choice: Choice)

  // ----- the steps -----

  function Set(s: State, t: nat, l: Local): State {
    s.(threads := s.threads[t := l])
  }

  function SetNode(s: State, n: nat, m: Message): State {
    s.(nodes := s.nodes[n := m])
  }

  function SetPost(s: State, k: nat, p: Post): State
    requires k < |s.posts|
  {
    s.(posts := s.posts[k := p])
  }

  function BlankMessage(): Message {
    Message(0, 0, 0, seq(MAX_OBSERVERS, _ => Observer(0, 0)), Inline([]))
  }

  function ObserversOf(s: State, topic: nat): seq<Observer> {
    if topic < |s.topics| then s.topics[topic] else []
  }

  /** `memcpy` of the first `count` observers over the message's array. */
  function Overwrite(target: seq<Observer>, source: seq<Observer>, count: nat): seq<Observer>
    requires count <= |source| && count <= |target|
  {
    source[..count] + target[count..]
  }

  /** `acquire` has returned node `addr`, whatever it was used for before. */
  function Take(s: State, t: nat, l: Local, addr: nat): State
    requires l.PostAcquire?
  {
    var post := Post(l.topic, l.data, ObserversOf(s, l.topic), addr, [], 0, false);
    Set(s, t, PostHeader(addr, l.topic, l.data, l.count)).(
      nodes := if addr in s.nodes then s.nodes else s.nodes[addr := BlankMessage()],
      place := s.place[addr := With(t)],
      carries := s.carries[addr := |s.posts|],
      posts := s.posts + [post])
  }

  /** The atomic pool hands out a pooled node, or a new one at a free address. */
  function Acquire(s: State, t: nat, l: Local, addr: nat): State
    requires l.PostAcquire?
  {
    if addr in s.place && s.place[addr] != InPool then s else Take(s, t, l, addr)
  }

  function CreatePayload(s: State, t: nat, node: nat, data: seq<nat>, count: nat, addr: nat): State
    requires node in s.nodes
  {
    if addr in s.payloads then s else
    Set(SetNode(s, node, s.nodes[node].(body := Managed(addr))), t,
        if count > 1 then PostAddRefs(node, count) else PostPush(node)).(
      payloads := s.payloads[addr := Payload(1, data)], home := s.home[addr := node])
  }

  /** The step that puts the node into the queue, and the one that takes the oldest. */
  function Enqueue(s: State, t: nat, node: nat): State {
    Set(s, t, Idle).(queue := s.queue + [node], place := s.place[node := Queued])
  }

  function Dequeue(s: State, t: nat): State
    requires s.queue != []
  {
    Set(s, t, DispLoop(s.queue[0], 0)).(queue := s.queue[1..], place := s.place[s.queue[0] := With(t)])
  }

  /** The bytes handed to a callback; deleted payloads have none. */
  function DataOf(s: State, m: Message): seq<nat> {
    match m.body
    case Inline(data) => data
    case Managed(p) => if p in s.payloads then s.payloads[p].data else []
  }

  predicate Carried(s: State, n: nat) {
    n in s.carries && s.carries[n] < |s.posts|
  }

  // History only; what the code does next never depends on it.

  function NoteDelivery(s: State, n: nat, d: Delivery): State {
    if !Carried(s, n) then s else
    var k := s.carries[n];
    SetPost(s, k, s.posts[k].(delivered := s.posts[k].delivered + [d]))
  }

  function NoteFree(s: State, n: nat): State {
    if !Carried(s, n) then s else
    var k := s.carries[n];
    SetPost(s, k, s.posts[k].(frees := s.posts[k].frees + 1))
  }

  function NoteDone(s: State, n: nat): State {
    if !Carried(s, n) then s else
    var k := s.carries[n];
    SetPost(s, k, s.posts[k].(done := true))
  }

  function Invoke(s: State, t: nat, node: nat, i: nat): State
    requires node in s.nodes && i < |s.nodes[node].observers|
  {
    var m := s.nodes[node];
    NoteDelivery(Set(s, t, if m.body.Inline? then DispLoop(node, i + 1) else DispRelease(node, i)), node,
                 Delivery(m.observers[i], m.topicId, DataOf(s, m)))
  }

  function DropRef(s: State, t: nat, node: nat, i: nat, p: nat): State
    requires p in s.payloads
  {
    Set(s, t, DispLoop(node, i + 1)).(
      payloads := s.payloads[p := s.payloads[p].(refCount := s.payloads[p].refCount - 1)])
  }

  function DeletePayload(s: State, t: nat, node: nat, i: nat, p: nat): State {
    NoteFree(Set(s, t, DispLoop(node, i + 1)), node).(payloads := s.payloads - {p}, home := s.home - {p})
  }

  /** `fetch_sub(1) == 1` deletes the payload. */
  function ReleaseRef(s: State, t: nat, node: nat, i: nat, p: nat): State
    requires p in s.payloads
  {
    if s.payloads[p].refCount == 1 then DeletePayload(s, t, node, i, p) else DropRef(s, t, node, i, p)
  }

  function ReturnNode(s: State, t: nat, node: nat, delete: bool): State {
    NoteDone(Set(s, t, Idle), node).(
      carries := s.carries - {node},
      place := if delete then s.place - {node} else s.place[node := InPool],
      nodes := if delete then s.nodes - {node} else s.nodes)
  }

  /** A step of `post` outside the queue and the pool. */
  function PostStep(s: State, t: nat, l: Local, addr: nat): State {
    match l
    case PostLoad(topic, data) =>
      var count := |ObserversOf(s, topic)|;
      Set(s, t, if count == 0 then Idle else PostAcquire(topic, data, count))
    case PostAcquire(_, _, _) => Acquire(s, t, l, addr)
    case PostHeader(node, topic, data, count) =>
      if node !in s.nodes then s else
      SetNode(Set(s, t, PostSnapshot(node, topic, data, count)), node,
              s.nodes[node].(topicId := topic, observerCount := count, size := |data|))
    case PostSnapshot(node, topic, data, count) =>
      if node !in s.nodes || count > |ObserversOf(s, topic)| || count > |s.nodes[node].observers| then s else
      SetNode(Set(s, t, PostBody(node, data, count)), node,
              s.nodes[node].(observers := Overwrite(s.nodes[node].observers, ObserversOf(s, topic), count)))
    case PostBody(node, data, count) =>
      if node !in s.nodes then s
      else if |data| <= INLINE_MAX then
        SetNode(Set(s, t, PostPush(node)), node, s.nodes[node].(body := Inline(data)))
      else CreatePayload(s, t, node, data, count, addr)
    case PostAddRefs(node, count) =>
      if node !in s.nodes || !s.nodes[node].body.Managed? || s.nodes[node].body.payload !in s.payloads then s else
      var p := s.nodes[node].body.payload;
      Set(s, t, PostPush(node)).(
        payloads := s.payloads[p := s.payloads[p].(refCount := s.payloads[p].refCount + (count - 1))])
    case _ => s
  }

  /** A step of `dispatchOne` outside the queue. */
  function DispStep(s: State, t: nat, l: Local, delete: bool): State {
    if !l.DispLoop? && !l.DispRelease? && !l.DispReturn? then s
    else if l.node !in s.nodes then s
    else match l
      case DispLoop(node, i) =>
        if i < s.nodes[node].observerCount && i < |s.nodes[node].observers| then Invoke(s, t, node, i)
        else Set(s, t, DispReturn(node))
      case DispRelease(node, i) =>
        if s.nodes[node].body.Managed? && s.nodes[node].body.payload in s.payloads
        then ReleaseRef(s, t, node, i, s.nodes[node].body.payload) else s
      case DispReturn(node) => ReturnNode(s, t, node, delete)
  }

  /** One action on the message path. A full queue makes `post` spin; an empty one makes
      `dispatchOne` return. */
  function Exec(s: State, a: Action): State {
    if a.t !in s.threads then s else
    match a
    case BeginPost(t, topic, data) => if s.threads[t].Idle? then Set(s, t, PostLoad(topic, data)) else s
    case BeginDispatch(t) => if s.threads[t].Idle? then Set(s, t, DispPop) else s
    case Step(t, c) =>
      match s.threads[t]
      case PostPush(node) => if |s.queue| < s.cap then Enqueue(s, t, node) else s
      case DispPop => if s.queue == [] || c.giveUp then Set(s, t, Idle) else Dequeue(s, t)
      case l =>
        if l.DispLoop? || l.DispRelease? || l.DispReturn? then DispStep(s, t, l, c.delete)
        else PostStep(s, t, l, c.addr)
  }

  function Init(topics: seq<seq<Observer>>, cap: nat, tids: set<nat>): State {
    State(topics, cap, map[], map[], [], map t | t in tids :: Idle, map[], map[], map[], [])
  }

  // ----- the invariant -----

  /** The deliveries a post stands for. */
  function Expected(p: Post): (ds: seq<Delivery>)
    ensures |ds| == |p.snapshot|
  {
    seq(|p.snapshot|, i requires 0 <= i < |p.snapshot| => Delivery(p.snapshot[i], p.topic, p.data))
  }

  predicate IsManaged(p: Post) {
    |p.data| > INLINE_MAX
  }

  /** Node n belongs to a running call of t and carries a post that is not done. */
  predicate Busy(s: State, t: nat, n: nat) {
    && n in s.nodes && n in s.place && s.place[n] == With(t)
    && n in s.carries && s.carries[n] < |s.posts| && s.posts[s.carries[n]].node == n && !s.posts[s.carries[n]].done
    && |s.nodes[n].observers| == MAX_OBSERVERS
  }

  predicate Untouched(p: Post) {
    p.delivered == [] && p.frees == 0
  }

  /** Header and snapshot of the message are those of the post. */
  predicate HeaderOk(m: Message, p: Post) {
    m.topicId == p.topic && m.observerCount == |p.snapshot| && m.size == |p.data|
  }

  predicate SnapshotOk(m: Message, p: Post) {
    |p.snapshot| <= |m.observers| && m.observers[..|p.snapshot|] == p.snapshot
  }

  /** The body holds the posted bytes, and a managed one has `refs` references and this node
      as its only home. */
  predicate BodyOk(s: State, n: nat, m: Message, p: Post, refs: int) {
    if !IsManaged(p) then m.body == Inline(p.data)
    else
      && m.body.Managed? && m.body.payload in s.payloads
      && s.payloads[m.body.payload] == Payload(refs, p.data)
      && m.body.payload in s.home && s.home[m.body.payload] == n
  }

  /** No live payload belongs to the node; what its body says is a leftover. */
  predicate Homeless(s: State, n: nat)
    requires n in s.nodes
  {
    s.nodes[n].body.Managed? && s.nodes[n].body.payload in s.home ==> s.home[s.nodes[n].body.payload] != n
  }

  /** The message is complete, and the first i of its observers have been called. */
  predicate Ready(s: State, n: nat, i: nat, refs: int)
    requires n in s.nodes && n in s.carries && s.carries[n] < |s.posts|
  {
    var m, p := s.nodes[n], s.posts[s.carries[n]];
    && HeaderOk(m, p) && SnapshotOk(m, p) && |p.snapshot| > 0
    && i <= |p.snapshot| && p.delivered == Expected(p)[..i]
    && (if IsManaged(p) && refs == 0 then m.body.Managed? && Homeless(s, n) && p.frees == 1
        else BodyOk(s, n, m, p, refs) && p.frees == 0)
  }

  predicate LocalOk(s: State, t: nat, l: Local) {
    match l
    case PostAcquire(topic, _, count) => count == |ObserversOf(s, topic)| && 0 < count
    case PostHeader(n, topic, data, count) =>
      Busy(s, t, n) &&
      var p := s.posts[s.carries[n]];
      && Homeless(s, n)
      && Untouched(p) && p.topic == topic && p.data == data && p.snapshot == ObserversOf(s, topic)
      && count == |p.snapshot| > 0
    case PostSnapshot(n, topic, data, count) =>
      Busy(s, t, n) &&
      var p := s.posts[s.carries[n]];
      && Untouched(p) && p.topic == topic && p.data == data && p.snapshot == ObserversOf(s, topic)
      && count == |p.snapshot| > 0 && HeaderOk(s.nodes[n], p) && Homeless(s, n)
    case PostBody(n, data, count) =>
      Busy(s, t, n) &&
      var p := s.posts[s.carries[n]];
      && Untouched(p) && p.data == data && count == |p.snapshot| > 0
      && HeaderOk(s.nodes[n], p) && SnapshotOk(s.nodes[n], p) && Homeless(s, n)
    case PostAddRefs(n, count) =>
      Busy(s, t, n) && IsManaged(s.posts[s.carries[n]]) && count == |s.posts[s.carries[n]].snapshot| &&
      Ready(s, n, 0, 1)
    case PostPush(n) => Busy(s, t, n) && Ready(s, n, 0, |s.posts[s.carries[n]].snapshot|)
    case DispLoop(n, i) =>
      Busy(s, t, n) && Ready(s, n, i, |s.posts[s.carries[n]].snapshot| - i)
    case DispRelease(n, i) =>
      Busy(s, t, n) && IsManaged(s.posts[s.carries[n]]) && i < |s.posts[s.carries[n]].snapshot| &&
      Ready(s, n, i + 1, |s.posts[s.carries[n]].snapshot| - i)
    case DispReturn(n) =>
      Busy(s, t, n) && Ready(s, n, |s.posts[s.carries[n]].snapshot|, 0)
    case _ => true
  }

  predicate HasNode(l: Local) {
    || l.PostHeader? || l.PostSnapshot? || l.PostBody? || l.PostAddRefs? || l.PostPush?
    || l.DispLoop? || l.DispRelease? || l.DispReturn?
  }

  /** The i-th node of the queue carries a complete message that nobody has been given yet. */
  predicate QueuedOk(s: State, i: nat)
    requires i < |s.queue|
  {
    var n := s.queue[i];
    && n in s.nodes && n in s.place && s.place[n] == Queued
    && n in s.carries && s.carries[n] < |s.posts| && s.posts[s.carries[n]].node == n && !s.posts[s.carries[n]].done
    && |s.nodes[n].observers| == MAX_OBSERVERS && Ready(s, n, 0, |s.posts[s.carries[n]].snapshot|)
  }

  /** Where a node is agrees with who has it. */
  predicate PlaceOk(s: State, n: nat) {
    && (n in s.nodes <==> n in s.place)
    && (n in s.nodes ==> |s.nodes[n].observers| == MAX_OBSERVERS)
    && (n in s.place && s.place[n] == Queued ==> n in s.queue)
    && (n in s.place && s.place[n].With? ==>
          var t := s.place[n].t; t in s.threads && HasNode(s.threads[t]) && s.threads[t].node == n)
    && (n in s.carries ==>
          n in s.place && s.place[n] != InPool && s.carries[n] < |s.posts| && s.posts[s.carries[n]].node == n)
  }

  /** A post is on its way in exactly one node, or it is done: delivered in full, its payload
      deleted exactly once. */
  predicate PostOk(s: State, k: nat)
    requires k < |s.posts|
  {
    var p := s.posts[k];
    && 0 < |p.snapshot| <= MAX_OBSERVERS
    && (!p.done ==> p.node in s.carries && s.carries[p.node] == k)
    && (p.done ==> p.delivered == Expected(p) && p.frees == if IsManaged(p) then 1 else 0)
  }

  /** Every live payload is the body of the node that is its home, with its post under way. */
  predicate PayloadOk(s: State, a: nat) {
    && (a in s.home <==> a in s.payloads)
    && (a in s.home ==> s.home[a] in s.carries && s.home[a] in s.nodes && s.nodes[s.home[a]].body == Managed(a))
  }

  predicate TopicsOk(s: State) {
    forall i :: 0 <= i < |s.topics| ==> |s.topics[i]| <= MAX_OBSERVERS
  }

  ghost predicate QueueOk(s: State) {
    && (forall i, j | 0 <= i < j < |s.queue| :: s.queue[i] != s.queue[j])
    && (forall i :: 0 <= i < |s.queue| ==> QueuedOk(s, i))
  }

  ghost predicate Locals(s: State) {
    forall t :: t in s.threads ==> LocalOk(s, t, s.threads[t])
  }

  ghost predicate Places(s: State) {
    forall n: nat :: PlaceOk(s, n)
  }

  ghost predicate Posts(s: State) {
    forall k :: 0 <= k < |s.posts| ==> PostOk(s, k)
  }

  ghost predicate Payloads(s: State) {
    forall a: nat :: PayloadOk(s, a)
  }

  ghost predicate Inv(s: State) {
    TopicsOk(s) && QueueOk(s) && Locals(s) && Places(s) && Posts(s) && Payloads(s)
  }

  // ----- preservation -----

  predicate SameAt<V(==)>(m: map<nat, V>, m': map<nat, V>, n: nat) {
    (n in m <==> n in m') && (n in m ==> m[n] == m'[n])
  }

  /** The step of thread t changes only node n, its post k and the payloads homed at n. */
  ghost predicate Confined(s: State, s': State, t: nat, n: nat, k: nat) {
    && s'.topics == s.topics && s'.cap == s.cap
    && t in s.threads && t in s'.threads && s'.threads == s.threads[t := s'.threads[t]]
    && (forall m: nat :: m != n ==>
          SameAt(s.nodes, s'.nodes, m) && SameAt(s.place, s'.place, m) && SameAt(s.carries, s'.carries, m))
    && (|s'.posts| == |s.posts| || (|s'.posts| == |s.posts| + 1 && k == |s.posts|))
    && (forall j :: 0 <= j < |s.posts| && j != k ==> s'.posts[j] == s.posts[j])
    && (k < |s.posts| ==> s.posts[k].node == n)
    && (forall a: nat :: NotAt(s, a, n) && NotAt(s', a, n) ==>
          SameAt(s.home, s'.home, a) && SameAt(s.payloads, s'.payloads, a))
    && (forall a: nat :: a in s.home && s.home[a] != n ==> NotAt(s', a, n))
    && (forall a: nat :: a in s.home && s.home[a] == n && a in s'.home ==> s'.home[a] == n)
  }

  predicate NotAt(s: State, a: nat, n: nat) {
    a in s.home ==> s.home[a] != n
  }

  lemma OtherReady(s: State, s': State, t: nat, n: nat, k: nat, m: nat, i: nat, refs: int)
    requires Confined(s, s', t, n, k) && m != n
    requires m in s.nodes && m in s.carries && s.carries[m] < |s.posts| && s.posts[s.carries[m]].node == m
    requires Ready(s, m, i, refs)
    ensures m in s'.nodes && m in s'.carries && s'.carries[m] == s.carries[m] < |s'.posts|
    ensures s'.posts[s.carries[m]] == s.posts[s.carries[m]] && s'.nodes[m] == s.nodes[m]
    ensures Ready(s', m, i, refs)
  {
    assert SameAt(s.nodes, s'.nodes, m) && SameAt(s.carries, s'.carries, m);
    OtherHomeless(s, s', t, n, k, m);
  }

  lemma OtherHomeless(s: State, s': State, t: nat, n: nat, k: nat, m: nat)
    requires Confined(s, s', t, n, k) && m != n && m in s.nodes
    ensures m in s'.nodes && s'.nodes[m] == s.nodes[m]
    ensures Homeless(s, m) ==> Homeless(s', m)
    ensures s.nodes[m].body.Managed? && s.nodes[m].body.payload in s.home && s.home[s.nodes[m].body.payload] == m ==>
              var a := s.nodes[m].body.payload;
              SameAt(s.home, s'.home, a) && SameAt(s.payloads, s'.payloads, a)
  {
    assert SameAt(s.nodes, s'.nodes, m);
    if s.nodes[m].body.Managed? {
      var a := s.nodes[m].body.payload;
      assert NotAt(s, a, n) && NotAt(s', a, n) ==> SameAt(s.home, s'.home, a);
      assert !NotAt(s, a, n) && a in s'.home ==> s'.home[a] == n;
    }
  }

  lemma OtherBuilding(s: State, s': State, t: nat, n: nat, k: nat, u: nat, l: Local)
    requires Confined(s, s', t, n, k) && LocalOk(s, u, l) && HasNode(l) && l.node != n
    requires l.PostHeader? || l.PostSnapshot? || l.PostBody?
    ensures LocalOk(s', u, l)
  {
    var m := l.node;
    assert SameAt(s.nodes, s'.nodes, m) && SameAt(s.place, s'.place, m) && SameAt(s.carries, s'.carries, m);
    OtherHomeless(s, s', t, n, k, m);
  }

  lemma OtherComplete(s: State, s': State, t: nat, n: nat, k: nat, u: nat, l: Local)
    requires Confined(s, s', t, n, k) && LocalOk(s, u, l) && HasNode(l) && l.node != n
    requires !(l.PostHeader? || l.PostSnapshot? || l.PostBody?)
    ensures LocalOk(s', u, l)
  {
    var m := l.node;
    assert SameAt(s.place, s'.place, m);
    var size := |s.posts[s.carries[m]].snapshot|;
    match l
    case PostAddRefs(_, _) => OtherReady(s, s', t, n, k, m, 0, 1);
    case PostPush(_) => OtherReady(s, s', t, n, k, m, 0, size);
    case DispLoop(_, i) => OtherReady(s, s', t, n, k, m, i, size - i);
    case DispRelease(_, i) => OtherReady(s, s', t, n, k, m, i + 1, size - i);
    case DispReturn(_) => OtherReady(s, s', t, n, k, m, size, 0);
  }

  lemma OtherLocal(s: State, s': State, t: nat, n: nat, k: nat, u: nat, l: Local)
    requires Confined(s, s', t, n, k) && u != t && LocalOk(s, u, l)
    requires n in s.place ==> s.place[n] == InPool || s.place[n] == With(t)
    ensures LocalOk(s', u, l)
  {
    if HasNode(l) {
      if l.PostHeader? || l.PostSnapshot? || l.PostBody? {
        OtherBuilding(s, s', t, n, k, u, l);
      } else {
        OtherComplete(s, s', t, n, k, u, l);
      }
    }
  }

  lemma OtherQueued(s: State, s': State, t: nat, n: nat, k: nat, i: nat, j: nat)
    requires Confined(s, s', t, n, k) && i < |s.queue| && QueuedOk(s, i) && s.queue[i] != n
    requires j < |s'.queue| && s'.queue[j] == s.queue[i]
    ensures QueuedOk(s', j)
  {
    var m := s.queue[i];
    assert SameAt(s.nodes, s'.nodes, m) && SameAt(s.place, s'.place, m) && SameAt(s.carries, s'.carries, m);
    OtherReady(s, s', t, n, k, m, 0, |s.posts[s.carries[m]].snapshot|);
  }

  lemma OtherPlace(s: State, s': State, t: nat, n: nat, k: nat, m: nat)
    requires Confined(s, s', t, n, k) && m != n && PlaceOk(s, m)
    requires m in s.place ==> s.place[m] != With(t)
    requires m in s.queue ==> m in s'.queue
    ensures PlaceOk(s', m)
  {
    assert SameAt(s.nodes, s'.nodes, m) && SameAt(s.place, s'.place, m) && SameAt(s.carries, s'.carries, m);
  }

  lemma OtherPost(s: State, s': State, t: nat, n: nat, k: nat, j: nat)
    requires Confined(s, s', t, n, k) && j < |s.posts| && j != k && PostOk(s, j)
    requires n in s.carries ==> s.carries[n] == k
    ensures j < |s'.posts| && PostOk(s', j)
  {
    var m := s.posts[j].node;
    assert m != n ==> SameAt(s.carries, s'.carries, m);
  }

  lemma OtherPayload(s: State, s': State, t: nat, n: nat, k: nat, a: nat)
    requires Confined(s, s', t, n, k) && PayloadOk(s, a) && NotAt(s, a, n) && NotAt(s', a, n)
    ensures PayloadOk(s', a)
  {
    assert SameAt(s.home, s'.home, a) && SameAt(s.payloads, s'.payloads, a);
    if a in s.home {
      var m := s.home[a];
      assert SameAt(s.nodes, s'.nodes, m) && SameAt(s.carries, s'.carries, m);
    }
  }

  /** What is left to check of a confined step: thread t, node n, post k, the payloads of n. */
  ghost predicate Checked(s: State, s': State, t: nat, n: nat, k: nat) {
    && Confined(s, s', t, n, k) && s'.queue == s.queue
    && (n in s.place ==> s.place[n] == InPool || s.place[n] == With(t))
    && (HasNode(s.threads[t]) ==> s.threads[t].node == n)
    && (n in s.carries ==> s.carries[n] == k)
    && LocalOk(s', t, s'.threads[t]) && PlaceOk(s', n)
    && k < |s'.posts| && PostOk(s', k)
    && (forall a: nat :: !NotAt(s, a, n) || !NotAt(s', a, n) ==> PayloadOk(s', a))
  }

  lemma CheckedQueue(s: State, s': State, t: nat, n: nat, k: nat)
    requires QueueOk(s) && Checked(s, s', t, n, k)
    ensures QueueOk(s')
  {
    forall i | 0 <= i < |s'.queue| ensures QueuedOk(s', i) {
      assert QueuedOk(s, i);
      OtherQueued(s, s', t, n, k, i, i);
    }
  }

  lemma CheckedLocals(s: State, s': State, t: nat, n: nat, k: nat)
    requires Locals(s) && Checked(s, s', t, n, k)
    ensures Locals(s')
  {
    forall u | u in s'.threads ensures LocalOk(s', u, s'.threads[u]) {
      if u != t { OtherLocal(s, s', t, n, k, u, s.threads[u]); }
    }
  }

  lemma CheckedPlaces(s: State, s': State, t: nat, n: nat, k: nat)
    requires Places(s) && Checked(s, s', t, n, k)
    ensures Places(s')
  {
    forall m: nat ensures PlaceOk(s', m) {
      assert PlaceOk(s, m);
      if m != n { OtherPlace(s, s', t, n, k, m); }
    }
  }

  lemma CheckedPosts(s: State, s': State, t: nat, n: nat, k: nat)
    requires Posts(s) && Checked(s, s', t, n, k)
    ensures Posts(s')
  {
    forall j | 0 <= j < |s'.posts| ensures PostOk(s', j) {
      if j != k {
        assert PostOk(s, j);
        OtherPost(s, s', t, n, k, j);
      }
    }
  }

  lemma CheckedPayloads(s: State, s': State, t: nat, n: nat, k: nat)
    requires Payloads(s) && Checked(s, s', t, n, k)
    ensures Payloads(s')
  {
    forall a: nat ensures PayloadOk(s', a) {
      assert PayloadOk(s, a);
      if NotAt(s, a, n) && NotAt(s', a, n) { OtherPayload(s, s', t, n, k, a); }
    }
  }

  lemma CheckedKeepsInv(s: State, s': State, t: nat, n: nat, k: nat)
    requires Inv(s) && Checked(s, s', t, n, k)
    ensures Inv(s')
  {
    CheckedQueue(s, s', t, n, k);
    CheckedLocals(s, s', t, n, k);
    CheckedPlaces(s, s', t, n, k);
    CheckedPosts(s, s', t, n, k);
    CheckedPayloads(s, s', t, n, k);
  }

  // Steps of a thread that has no node, before and after.

  lemma PlainKeepsInv(s: State, t: nat, l: Local)
    requires Inv(s) && t in s.threads && !HasNode(s.threads[t]) && !HasNode(l) && LocalOk(s, t, l)
    ensures Inv(Set(s, t, l))
  {
    var s' := Set(s, t, l);
    forall i | 0 <= i < |s'.queue| ensures QueuedOk(s', i) {
      assert QueuedOk(s, i);
    }
    forall u | u in s'.threads ensures LocalOk(s', u, s'.threads[u]) {
      IgnoresThreads(s, t, l, u, s'.threads[u]);
    }
    forall n: nat ensures PlaceOk(s', n) {
      assert PlaceOk(s, n);
    }
    forall k | 0 <= k < |s'.posts| ensures PostOk(s', k) {
      assert PostOk(s, k);
    }
    forall a: nat ensures PayloadOk(s', a) {
      assert PayloadOk(s, a);
    }
  }

  lemma IgnoresThreads(s: State, t: nat, l: Local, u: nat, m: Local)
    requires LocalOk(s, u, m)
    ensures LocalOk(Set(s, t, l), u, m)
  {
    if HasNode(m) {
      assert Homeless(Set(s, t, l), m.node) == Homeless(s, m.node);
    }
  }

  // Steps of `post`.

  /** No live payload belongs to a node without a post, or to one whose body is a leftover. */
  lemma NoHome(s: State, n: nat)
    requires Payloads(s) && (n in s.nodes && n in s.carries ==> Homeless(s, n))
    ensures forall a: nat :: NotAt(s, a, n)
  {
    forall a: nat ensures NotAt(s, a, n) {
      assert PayloadOk(s, a);
    }
  }

  lemma AcquireConfined(s: State, t: nat, l: Local, addr: nat)
    requires Inv(s) && t in s.threads && s.threads[t] == l && l.PostAcquire? && Acquire(s, t, l, addr) != s
    ensures Confined(s, Acquire(s, t, l, addr), t, addr, |s.posts|)
  {
    assert PlaceOk(s, addr);
    NoHome(s, addr);
  }

  lemma AcquiredHomeless(s: State, t: nat, l: Local, addr: nat)
    requires Inv(s) && t in s.threads && s.threads[t] == l && l.PostAcquire? && Acquire(s, t, l, addr) != s
    ensures var s' := Acquire(s, t, l, addr);
            addr in s'.nodes && |s'.nodes[addr].observers| == MAX_OBSERVERS && Homeless(s', addr)
  {
    assert PlaceOk(s, addr);
    NoHome(s, addr);
    var s' := Acquire(s, t, l, addr);
    var b := s'.nodes[addr].body;
    if b.Managed? { assert NotAt(s, b.payload, addr); }
  }

  lemma AcquireKeepsInv(s: State, t: nat, l: Local, addr: nat)
    requires Inv(s) && t in s.threads && s.threads[t] == l && l.PostAcquire?
    ensures Inv(Acquire(s, t, l, addr))
  {
    var s' := Acquire(s, t, l, addr);
    if s' != s {
      assert LocalOk(s, t, l) && PlaceOk(s, addr);
      NoHome(s, addr);
      assert |ObserversOf(s, l.topic)| <= MAX_OBSERVERS;
      AcquireConfined(s, t, l, addr);
      AcquiredHomeless(s, t, l, addr);
      assert PostOk(s', |s.posts|);
      assert PlaceOk(s', addr);
      assert LocalOk(s', t, s'.threads[t]);
      forall a: nat ensures NotAt(s, a, addr) && NotAt(s', a, addr) {
        NoHome(s, addr);
      }
      CheckedKeepsInv(s, s', t, addr, |s.posts|);
    }
  }

  /** The node is rewritten, nothing else but the thread moves. */
  lemma RewriteKeepsInv(s: State, t: nat, n: nat, m: Message, l: Local)
    requires Inv(s) && t in s.threads && HasNode(s.threads[t]) && s.threads[t].node == n && Busy(s, t, n)
    requires |m.observers| == MAX_OBSERVERS && HasNode(l) && l.node == n
    requires Homeless(s, n) || m.body == s.nodes[n].body
    requires LocalOk(SetNode(Set(s, t, l), n, m), t, l)
    ensures Inv(SetNode(Set(s, t, l), n, m))
  {
    var s' := SetNode(Set(s, t, l), n, m);
    var k := s.carries[n];
    assert Confined(s, s', t, n, k);
    assert PostOk(s, k) && PlaceOk(s, n);
    if Homeless(s, n) { NoHome(s, n); }
    forall a: nat | !NotAt(s, a, n) || !NotAt(s', a, n) ensures PayloadOk(s', a) {
      assert PayloadOk(s, a);
    }
    CheckedKeepsInv(s, s', t, n, k);
  }

  lemma HeaderKeepsInv(s: State, t: nat, n: nat, topic: nat, data: seq<nat>, count: nat)
    requires Inv(s) && t in s.threads && s.threads[t] == PostHeader(n, topic, data, count)
    ensures Inv(PostStep(s, t, s.threads[t], 0))
  {
    assert LocalOk(s, t, s.threads[t]);
    RewriteKeepsInv(s, t, n, s.nodes[n].(topicId := topic, observerCount := count, size := |data|),
                    PostSnapshot(n, topic, data, count));
  }

  lemma SnapshotKeepsInv(s: State, t: nat, n: nat, topic: nat, data: seq<nat>, count: nat)
    requires Inv(s) && t in s.threads && s.threads[t] == PostSnapshot(n, topic, data, count)
    ensures Inv(PostStep(s, t, s.threads[t], 0))
  {
    assert LocalOk(s, t, s.threads[t]);
    assert PostOk(s, s.carries[n]);
    var obs := ObserversOf(s, topic);
    var target := Overwrite(s.nodes[n].observers, obs, count);
    assert target[..count] == obs;
    RewriteKeepsInv(s, t, n, s.nodes[n].(observers := target), PostBody(n, data, count));
  }

  lemma InlineBodyKeepsInv(s: State, t: nat, n: nat, data: seq<nat>, count: nat)
    requires Inv(s) && t in s.threads && s.threads[t] == PostBody(n, data, count) && |data| <= INLINE_MAX
    ensures Inv(PostStep(s, t, s.threads[t], 0))
  {
    assert LocalOk(s, t, s.threads[t]);
    RewriteKeepsInv(s, t, n, s.nodes[n].(body := Inline(data)), PostPush(n));
  }

  lemma CreateConfined(s: State, t: nat, n: nat, data: seq<nat>, count: nat, addr: nat)
    requires Inv(s) && t in s.threads && s.threads[t] == PostBody(n, data, count) && addr !in s.payloads
    ensures n in s.nodes && n in s.carries
    ensures Confined(s, CreatePayload(s, t, n, data, count, addr), t, n, s.carries[n])
  {
    assert LocalOk(s, t, s.threads[t]) && PayloadOk(s, addr);
  }

  lemma CreateKeepsInv(s: State, t: nat, n: nat, data: seq<nat>, count: nat, addr: nat)
    requires Inv(s) && t in s.threads && s.threads[t] == PostBody(n, data, count) && |data| > INLINE_MAX
    requires n in s.nodes
    ensures Inv(CreatePayload(s, t, n, data, count, addr))
  {
    var s' := CreatePayload(s, t, n, data, count, addr);
    if addr !in s.payloads {
      assert LocalOk(s, t, s.threads[t]);
      var k := s.carries[n];
      CreateConfined(s, t, n, data, count, addr);
      NoHome(s, n);
      assert PostOk(s, k) && PlaceOk(s, n);
      assert LocalOk(s', t, s'.threads[t]);
      forall a: nat | !NotAt(s, a, n) || !NotAt(s', a, n) ensures PayloadOk(s', a) {
        assert PayloadOk(s, a);
      }
      CheckedKeepsInv(s, s', t, n, k);
    }
  }

  lemma AddRefsKeepsInv(s: State, t: nat, n: nat, count: nat)
    requires Inv(s) && t in s.threads && s.threads[t] == PostAddRefs(n, count)
    ensures Inv(PostStep(s, t, s.threads[t], 0))
  {
    var s' := PostStep(s, t, s.threads[t], 0);
    assert LocalOk(s, t, s.threads[t]);
    var k, p := s.carries[n], s.nodes[n].body.payload;
    assert Confined(s, s', t, n, k);
    assert PostOk(s, k) && PlaceOk(s, n);
    forall a: nat | !NotAt(s, a, n) || !NotAt(s', a, n) ensures PayloadOk(s', a) {
      assert PayloadOk(s, a);
    }
    CheckedKeepsInv(s, s', t, n, k);
  }

  // Steps of `dispatchOne`.

  /** The callback gets the posted bytes: its payload is alive. */
  lemma CallbackSeesData(s: State, t: nat, n: nat, i: nat)
    requires Inv(s) && t in s.threads && s.threads[t] == DispLoop(n, i)
    requires n in s.nodes && i < s.nodes[n].observerCount
    ensures n in s.carries && s.carries[n] < |s.posts|
    ensures var m, p := s.nodes[n], s.posts[s.carries[n]];
            && i < |p.snapshot| && i < |m.observers| && m.observers[i] == p.snapshot[i] && m.topicId == p.topic
            && (m.body.Managed? ==> m.body.payload in s.payloads) && DataOf(s, m) == p.data
  {
    assert LocalOk(s, t, s.threads[t]);
    var m, p := s.nodes[n], s.posts[s.carries[n]];
    assert m.observers[..|p.snapshot|][i] == p.snapshot[i];
  }

  lemma NextDelivered(p: Post, i: nat)
    requires i < |p.snapshot|
    ensures Expected(p)[..i] + [Delivery(p.snapshot[i], p.topic, p.data)] == Expected(p)[..i + 1]
  {
  }

  lemma InvokeKeepsInv(s: State, t: nat, n: nat, i: nat)
    requires Inv(s) && t in s.threads && s.threads[t] == DispLoop(n, i)
    requires n in s.nodes && i < s.nodes[n].observerCount && i < |s.nodes[n].observers|
    requires n in s.carries && s.carries[n] < |s.posts|
    ensures Inv(Invoke(s, t, n, i))
  {
    var s' := Invoke(s, t, n, i);
    CallbackSeesData(s, t, n, i);
    assert LocalOk(s, t, s.threads[t]);
    var k := s.carries[n];
    NextDelivered(s.posts[k], i);
    assert Expected(s'.posts[k]) == Expected(s.posts[k]);
    assert Confined(s, s', t, n, k);
    assert PostOk(s, k) && PlaceOk(s, n);
    forall a: nat | !NotAt(s, a, n) || !NotAt(s', a, n) ensures PayloadOk(s', a) {
      assert PayloadOk(s, a);
    }
    CheckedKeepsInv(s, s', t, n, k);
  }

  lemma DropRefKeepsInv(s: State, t: nat, n: nat, i: nat, p: nat)
    requires Inv(s) && t in s.threads && s.threads[t] == DispRelease(n, i)
    requires n in s.nodes && s.nodes[n].body == Managed(p) && p in s.payloads && s.payloads[p].refCount != 1
    ensures Inv(DropRef(s, t, n, i, p))
  {
    var s' := DropRef(s, t, n, i, p);
    assert LocalOk(s, t, s.threads[t]);
    var k := s.carries[n];
    assert Confined(s, s', t, n, k);
    assert PostOk(s, k) && PlaceOk(s, n);
    forall a: nat | !NotAt(s, a, n) || !NotAt(s', a, n) ensures PayloadOk(s', a) {
      assert PayloadOk(s, a);
    }
    CheckedKeepsInv(s, s', t, n, k);
  }

  lemma DeletePayloadKeepsInv(s: State, t: nat, n: nat, i: nat, p: nat)
    requires Inv(s) && t in s.threads && s.threads[t] == DispRelease(n, i)
    requires n in s.nodes && s.nodes[n].body == Managed(p) && p in s.payloads && s.payloads[p].refCount == 1
    requires n in s.carries && s.carries[n] < |s.posts|
    ensures Inv(DeletePayload(s, t, n, i, p))
  {
    var s' := DeletePayload(s, t, n, i, p);
    assert LocalOk(s, t, s.threads[t]);
    var k := s.carries[n];
    assert Expected(s'.posts[k]) == Expected(s.posts[k]);
    assert Confined(s, s', t, n, k);
    assert PostOk(s, k) && PlaceOk(s, n);
    forall a: nat | !NotAt(s, a, n) || !NotAt(s', a, n) ensures PayloadOk(s', a) {
      assert PayloadOk(s, a);
    }
    CheckedKeepsInv(s, s', t, n, k);
  }

  lemma ReleaseRefKeepsInv(s: State, t: nat, n: nat, i: nat, p: nat)
    requires Inv(s) && t in s.threads && s.threads[t] == DispRelease(n, i)
    requires n in s.nodes && s.nodes[n].body == Managed(p) && p in s.payloads
    requires n in s.carries && s.carries[n] < |s.posts|
    ensures Inv(ReleaseRef(s, t, n, i, p))
  {
    if s.payloads[p].refCount == 1 {
      DeletePayloadKeepsInv(s, t, n, i, p);
    } else {
      DropRefKeepsInv(s, t, n, i, p);
    }
  }

  lemma LoopEndKeepsInv(s: State, t: nat, n: nat, i: nat)
    requires Inv(s) && t in s.threads && s.threads[t] == DispLoop(n, i)
    requires n in s.nodes && !(i < s.nodes[n].observerCount && i < |s.nodes[n].observers|)
    ensures Inv(Set(s, t, DispReturn(n)))
  {
    assert LocalOk(s, t, s.threads[t]);
    assert PostOk(s, s.carries[n]);
    assert Set(s, t, DispReturn(n)) == SetNode(Set(s, t, DispReturn(n)), n, s.nodes[n]);
    assert Homeless(Set(s, t, DispReturn(n)), n) == Homeless(s, n);
    RewriteKeepsInv(s, t, n, s.nodes[n], DispReturn(n));
  }

  lemma ReturnKeepsInv(s: State, t: nat, n: nat, delete: bool)
    requires Inv(s) && t in s.threads && s.threads[t] == DispReturn(n)
    requires n in s.carries && s.carries[n] < |s.posts|
    ensures Inv(ReturnNode(s, t, n, delete))
  {
    var s' := ReturnNode(s, t, n, delete);
    assert LocalOk(s, t, s.threads[t]);
    var k := s.carries[n];
    assert Homeless(s, n);
    NoHome(s, n);
    assert Expected(s.posts[k])[..|s.posts[k].snapshot|] == Expected(s.posts[k]);
    assert Expected(s'.posts[k]) == Expected(s.posts[k]);
    assert Confined(s, s', t, n, k);
    assert PostOk(s, k) && PlaceOk(s, n);
    CheckedKeepsInv(s, s', t, n, k);
  }

  // The queue.

  lemma EnqueueQueue(s: State, t: nat, n: nat)
    requires Inv(s) && t in s.threads && s.threads[t] == PostPush(n)
    ensures n in s.carries && Confined(s, Enqueue(s, t, n), t, n, s.carries[n]) && QueueOk(Enqueue(s, t, n))
  {
    var s' := Enqueue(s, t, n);
    assert LocalOk(s, t, s.threads[t]);
    var k := s.carries[n];
    assert Confined(s, s', t, n, k);
    forall i | 0 <= i < |s.queue| ensures s.queue[i] != n && QueuedOk(s', i) {
      assert QueuedOk(s, i);
      OtherQueued(s, s', t, n, k, i, i);
    }
    assert Homeless(s', n) == Homeless(s, n);
    assert QueuedOk(s', |s.queue|);
    forall i | 0 <= i < |s'.queue| ensures QueuedOk(s', i) {
    }
  }

  /** Two threads never have the same node. */
  lemma EnqueueKeepsInv(s: State, t: nat, n: nat)
    requires Inv(s) && t in s.threads && s.threads[t] == PostPush(n)
    ensures Inv(Enqueue(s, t, n))
  {
    var s' := Enqueue(s, t, n);
    EnqueueQueue(s, t, n);
    assert LocalOk(s, t, s.threads[t]);
    var k := s.carries[n];
    forall u | u in s'.threads ensures LocalOk(s', u, s'.threads[u]) {
      if u != t { OtherLocal(s, s', t, n, k, u, s.threads[u]); }
    }
    forall m: nat ensures PlaceOk(s', m) {
      assert PlaceOk(s, m);
      if m != n { OtherPlace(s, s', t, n, k, m); } else { assert s'.queue[|s.queue|] == n; }
    }
    QueueStepPosts(s, s', t, n, k);
  }

  /** Queue steps touch no post and no payload. */
  lemma QueueStepPosts(s: State, s': State, t: nat, n: nat, k: nat)
    requires Posts(s) && Payloads(s) && s'.posts == s.posts && s'.carries == s.carries
    requires s'.nodes == s.nodes && s'.home == s.home && s'.payloads == s.payloads
    ensures Posts(s') && Payloads(s')
  {
    forall j | 0 <= j < |s'.posts| ensures PostOk(s', j) {
      assert PostOk(s, j);
    }
    forall a: nat ensures PayloadOk(s', a) {
      assert PayloadOk(s, a);
    }
  }

  lemma DequeueQueue(s: State, t: nat)
    requires Inv(s) && t in s.threads && s.threads[t] == DispPop && s.queue != []
    ensures var n := s.queue[0];
            && n in s.carries && QueuedOk(s, 0)
            && (forall u :: u in s.threads && HasNode(s.threads[u]) ==> s.threads[u].node != n)
            && QueueOk(Dequeue(s, t))
  {
    var s' := Dequeue(s, t);
    var n := s.queue[0];
    assert QueuedOk(s, 0);
    forall u | u in s.threads && HasNode(s.threads[u]) ensures s.threads[u].node != n {
      assert LocalOk(s, u, s.threads[u]);
    }
    forall i | 0 <= i < |s'.queue| ensures QueuedOk(s', i) {
      assert QueuedOk(s, i + 1);
      assert s'.queue[i] == s.queue[i + 1] != n;
      QueuedElsewhere(s, s', t, n, i + 1, i);
    }
  }

  lemma QueuedElsewhere(s: State, s': State, t: nat, n: nat, i: nat, j: nat)
    requires i < |s.queue| && j < |s'.queue| && s'.queue[j] == s.queue[i] != n && QueuedOk(s, i)
    requires s'.nodes == s.nodes && s'.carries == s.carries && s'.posts == s.posts
    requires s'.home == s.home && s'.payloads == s.payloads && s'.place == s.place[n := With(t)]
    ensures QueuedOk(s', j)
  {
    var m := s.queue[i];
    assert Homeless(s', m) == Homeless(s, m);
  }

  lemma LocalElsewhere(s: State, s': State, t: nat, n: nat, u: nat, l: Local)
    requires LocalOk(s, u, l) && (HasNode(l) ==> l.node != n)
    requires s'.topics == s.topics && s'.nodes == s.nodes && s'.carries == s.carries && s'.posts == s.posts
    requires s'.home == s.home && s'.payloads == s.payloads && s'.place == s.place[n := With(t)]
    ensures LocalOk(s', u, l)
  {
    if HasNode(l) { assert Homeless(s', l.node) == Homeless(s, l.node); }
  }

  lemma DequeuePlaces(s: State, t: nat)
    requires Places(s) && t in s.threads && s.threads[t] == DispPop && s.queue != [] && QueuedOk(s, 0)
    ensures Places(Dequeue(s, t))
  {
    var s', n := Dequeue(s, t), s.queue[0];
    forall m: nat ensures PlaceOk(s', m) {
      assert PlaceOk(s, m);
      if m in s.queue && m != n {
        var i :| 0 <= i < |s.queue| && s.queue[i] == m;
        assert s'.queue[i - 1] == m;
      }
    }
  }

  lemma DequeueKeepsInv(s: State, t: nat)
    requires Inv(s) && t in s.threads && s.threads[t] == DispPop && s.queue != []
    ensures Inv(Dequeue(s, t))
  {
    var s' := Dequeue(s, t);
    var n := s.queue[0];
    DequeueQueue(s, t);
    assert Homeless(s', n) == Homeless(s, n);
    assert LocalOk(s', t, s'.threads[t]);
    forall u | u in s'.threads ensures LocalOk(s', u, s'.threads[u]) {
      if u != t { LocalElsewhere(s, s', t, n, u, s.threads[u]); }
    }
    DequeuePlaces(s, t);
    QueueStepPosts(s, s', t, n, s.carries[n]);
  }

  lemma PostStepKeepsInv(s: State, t: nat, addr: nat)
    requires Inv(s) && t in s.threads
    ensures Inv(PostStep(s, t, s.threads[t], addr))
  {
    assert LocalOk(s, t, s.threads[t]);
    match s.threads[t]
    case PostLoad(topic, data) =>
      var count := |ObserversOf(s, topic)|;
      PlainKeepsInv(s, t, if count == 0 then Idle else PostAcquire(topic, data, count));
    case PostAcquire(_, _, _) => AcquireKeepsInv(s, t, s.threads[t], addr);
    case PostHeader(n, topic, data, count) => HeaderKeepsInv(s, t, n, topic, data, count);
    case PostSnapshot(n, topic, data, count) => SnapshotKeepsInv(s, t, n, topic, data, count);
    case PostBody(n, data, count) =>
      if |data| <= INLINE_MAX {
        InlineBodyKeepsInv(s, t, n, data, count);
      } else {
        CreateKeepsInv(s, t, n, data, count, addr);
      }
    case PostAddRefs(n, count) => AddRefsKeepsInv(s, t, n, count);
    case _ =>
  }

  lemma DispStepKeepsInv(s: State, t: nat, delete: bool)
    requires Inv(s) && t in s.threads
    ensures Inv(DispStep(s, t, s.threads[t], delete))
  {
    assert LocalOk(s, t, s.threads[t]);
    match s.threads[t]
    case DispLoop(n, i) =>
      if i < s.nodes[n].observerCount && i < |s.nodes[n].observers| {
        InvokeKeepsInv(s, t, n, i);
      } else {
        LoopEndKeepsInv(s, t, n, i);
      }
    case DispRelease(n, i) => ReleaseRefKeepsInv(s, t, n, i, s.nodes[n].body.payload);
    case DispReturn(n) => ReturnKeepsInv(s, t, n, delete);
    case _ =>
  }

  lemma ExecKeepsInv(s: State, a: Action)
    requires Inv(s)
    ensures Inv(Exec(s, a))
  {
    hide Inv, PostStep, DispStep;
    if a.t in s.threads {
      match a
      case BeginPost(t, topic, data) => if s.threads[t].Idle? { PlainKeepsInv(s, t, PostLoad(topic, data)); }
      case BeginDispatch(t) => if s.threads[t].Idle? { PlainKeepsInv(s, t, DispPop); }
      case Step(t, c) =>
        match s.threads[t]
        case PostPush(n) => if |s.queue| < s.cap { EnqueueKeepsInv(s, t, n); }
        case DispPop =>
          if s.queue == [] || c.giveUp { PlainKeepsInv(s, t, Idle); } else { DequeueKeepsInv(s, t); }
        case l =>
          PostStepKeepsInv(s, t, c.addr);
          DispStepKeepsInv(s, t, c.delete);
    }
  }

  lemma InitInv(topics: seq<seq<Observer>>, cap: nat, tids: set<nat>)
    requires forall i :: 0 <= i < |topics| ==> |topics[i]| <= MAX_OBSERVERS
    ensures Inv(Init(topics, cap, tids))
  {
  }
}
