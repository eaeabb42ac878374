/** Batched posting of `EventQueueBroadcastFastBatch` (src/eventqueue_batch.h): each thread
    accumulates messages in a buffer of 32 and flushes them to a queue, while other threads
    post. The buffer is a static thread-local: one per thread, shared by all queue instances.
    A queue here is the order of its successful pushes (module RingTheorems); a push may be
    refused any number of times, and the poster yields and tries again. */
module BatchPosting {
  import opened Sequences

  const BATCH_SIZE := 32
  const MAX_TOPICS := 4096

  /** A message, with the queue instance it was posted through. */
  datatype Entry = Entry(origin: nat, message: nat)

  /** A successful push by thread t into queue `dest`. */
  datatype Push = Push(t: nat, batched: bool, entry: Entry, dest: nat)

  datatype Buffer = Buffer(slots: seq<Entry>, count: nat)

  datatype Local =
    | Idle
    | Posting(entry: Entry)
    | Appending(entry: Entry)
    | Flushing(queue: nat, i: nat)

  /** `pushes` and `accepted` are history: all successful pushes in order, and the batched
      messages each thread has had accepted, in call order. `outOfBounds` says that a buffer
      was indexed past its end. */
  datatype State = State(
    threads: map<nat, Local>,
    buffers: map<nat, Buffer>,
    pushes: seq<Push>,
    accepted: map<nat, seq<Entry>>,
    outOfBounds: bool)

  /** `observers` is the observer count the call loads; a refused push is tried again. */
  datatype Action =
    | Post(t: nat, queue: nat, topic: nat, observers: nat, message: nat)
    | PostBatched(t: nat, queue: nat, topic: nat, observers: nat, message: nat)
    | FlushBatch(t: nat, queue: nat)
    | Step(t: nat, refused: bool)

  // ----- the steps -----

  function Set(s: State, t: nat, l: Local): State {
    s.(threads := s.threads[t := l])
  }

  predicate Heard(topic: nat, observers: nat) {
    topic < MAX_TOPICS && observers > 0
  }

  /** `t_batch.msgs[t_batch.count++] = msg`, and a flush when the buffer is full. */
  function Append(s: State, t: nat, e: Entry): State
    requires t in s.buffers && t in s.accepted
  {
    var b := s.buffers[t];
    if b.count >= |b.slots| then s.(outOfBounds := true) else
    s.(buffers := s.buffers[t := Buffer(b.slots[b.count := e], b.count + 1)],
       accepted := s.accepted[t := s.accepted[t] + [e]],
       threads := s.threads[t := if b.count + 1 >= BATCH_SIZE then Flushing(e.origin, 0) else Idle])
  }

  function FlushStep(s: State, t: nat, queue: nat, i: nat, refused: bool): State
    requires t in s.buffers
  {
    var b := s.buffers[t];
    if i >= b.count then Set(s, t, Idle).(buffers := s.buffers[t := Buffer(b.slots, 0)])
    else if i >= |b.slots| then s.(outOfBounds := true)
    else if refused then s
    else Set(s, t, Flushing(queue, i + 1)).(pushes := s.pushes + [Push(t, true, b.slots[i], queue)])
  }

  function Exec(s: State, a: Action): State {
    if a.t !in s.threads || a.t !in s.buffers || a.t !in s.accepted then s else
    var l := s.threads[a.t];
    match a
    case Post(t, queue, topic, observers, message) =>
      if l.Idle? && Heard(topic, observers) then Set(s, t, Posting(Entry(queue, message))) else s
    case PostBatched(t, queue, topic, observers, message) =>
      if l.Idle? && Heard(topic, observers) then Set(s, t, Appending(Entry(queue, message))) else s
    case FlushBatch(t, queue) => if l.Idle? then Set(s, t, Flushing(queue, 0)) else s
    case Step(t, refused) =>
      match l
      case Idle => s
      case Posting(e) =>
        if refused then s else Set(s, t, Idle).(pushes := s.pushes + [Push(t, false, e, e.origin)])
      case Appending(e) => Append(s, t, e)
      case Flushing(queue, i) => FlushStep(s, t, queue, i, refused)
  }

  function Run(s: State, acts: seq<Action>): State
    decreases |acts|
  {
    if acts == [] then s else Exec(Run(s, acts[..|acts| - 1]), acts[|acts| - 1])
  }

  /** Empty buffers; the slots hold whatever they hold. */
  function Init(tids: set<nat>, junk: seq<Entry>): State {
    State(map t | t in tids :: Idle, map t | t in tids :: Buffer(junk, 0), [], map t | t in tids :: [], false)
  }

  // ----- flushed, then buffered -----

  /** What thread t has flushed, in the order of its pushes. */
  function FlushedBy(pushes: seq<Push>, t: nat): seq<Push>
    decreases |pushes|
  {
    if pushes == [] then [] else
    var last := pushes[|pushes| - 1];
    FlushedBy(pushes[..|pushes| - 1], t) + if last.batched && last.t == t then [last] else []
  }

  function Entries(pushes: seq<Push>): (es: seq<Entry>)
    ensures |es| == |pushes|
  {
    seq(|pushes|, i requires 0 <= i < |pushes| => pushes[i].entry)
  }

  /** The pushes of messages es by a flush of thread t on `queue`. */
  function Flushes(t: nat, es: seq<Entry>, queue: nat): (ps: seq<Push>)
    ensures |ps| == |es|
  {
    seq(|es|, i requires 0 <= i < |es| => Push(t, true, es[i], queue))
  }

  /** How much of its buffer a thread in the middle of a flush has pushed already. */
  function Gone(l: Local): nat {
    if l.Flushing? then l.i else 0
  }

  predicate BufferOk(s: State, t: nat)
    requires t in s.buffers && t in s.threads
  {
    var b, l := s.buffers[t], s.threads[t];
    && |b.slots| == BATCH_SIZE && b.count <= BATCH_SIZE && Gone(l) <= b.count
    && (!l.Flushing? ==> b.count < BATCH_SIZE)
  }

  function Buffered(s: State, t: nat): seq<Entry>
    requires t in s.buffers && t in s.threads && BufferOk(s, t)
  {
    s.buffers[t].slots[Gone(s.threads[t])..s.buffers[t].count]
  }

  /** The flushed messages followed by the buffered ones are the accepted ones; and a flush in
      progress has pushed its first i slots to the queue it was called on. */
  predicate ThreadOk(s: State, t: nat)
    requires t in s.buffers && t in s.threads && t in s.accepted
  {
    && BufferOk(s, t)
    && var flushed := FlushedBy(s.pushes, t);
       && Entries(flushed) + Buffered(s, t) == s.accepted[t]
       && (s.threads[t].Flushing? ==>
             && s.threads[t].i <= |flushed|
             && flushed[|flushed| - s.threads[t].i..] ==
                Flushes(t, s.buffers[t].slots[..s.threads[t].i], s.threads[t].queue))
  }

  ghost predicate Inv(s: State) {
    && !s.outOfBounds && s.buffers.Keys == s.threads.Keys == s.accepted.Keys
    && forall t :: t in s.threads ==> ThreadOk(s, t)
  }

  lemma FlushedAppend(pushes: seq<Push>, p: Push, t: nat)
    ensures FlushedBy(pushes + [p], t) == FlushedBy(pushes, t) + if p.batched && p.t == t then [p] else []
  {
    assert (pushes + [p])[..|pushes|] == pushes;
  }

  /** The other threads do not notice. */
  lemma OtherThread(s: State, s': State, u: nat)
    requires u in s.threads && u in s.buffers && u in s.accepted && ThreadOk(s, u)
    requires u in s'.threads && u in s'.buffers && u in s'.accepted
    requires s'.threads[u] == s.threads[u] && s'.buffers[u] == s.buffers[u] && s'.accepted[u] == s.accepted[u]
    requires FlushedBy(s'.pushes, u) == FlushedBy(s.pushes, u)
    ensures ThreadOk(s', u)
  {
  }

  lemma AppendOk(s: State, t: nat, e: Entry)
    requires t in s.threads && t in s.buffers && t in s.accepted && ThreadOk(s, t) && s.threads[t] == Appending(e)
    ensures var s' := Append(s, t, e); s'.outOfBounds == s.outOfBounds && ThreadOk(s', t)
  {
    var s', b := Append(s, t, e), s.buffers[t];
    assert b.slots[b.count := e][..b.count + 1] == b.slots[..b.count] + [e];
    Associative(Entries(FlushedBy(s.pushes, t)), Buffered(s, t), [e]);
  }

  /** One more slot has been pushed. */
  lemma NextFlushed(flushed: seq<Push>, slots: seq<Entry>, t: nat, queue: nat, i: nat, count: nat)
    requires i < count <= |slots| && i <= |flushed| && flushed[|flushed| - i..] == Flushes(t, slots[..i], queue)
    ensures var p := Push(t, true, slots[i], queue);
            && (flushed + [p])[|flushed + [p]| - (i + 1)..] == Flushes(t, slots[..i + 1], queue)
            && Entries(flushed + [p]) + slots[i + 1..count] == Entries(flushed) + slots[i..count]
  {
    var p := Push(t, true, slots[i], queue);
    assert (flushed + [p])[|flushed| - i..] == flushed[|flushed| - i..] + [p];
    assert Flushes(t, slots[..i + 1], queue) == Flushes(t, slots[..i], queue) + [p];
    assert Entries(flushed + [p]) == Entries(flushed) + [slots[i]];
    assert slots[i..count] == [slots[i]] + slots[i + 1..count];
    Associative(Entries(flushed), [slots[i]], slots[i + 1..count]);
  }

  lemma FlushOk(s: State, t: nat, queue: nat, i: nat, refused: bool)
    requires t in s.threads && t in s.buffers && t in s.accepted && ThreadOk(s, t) && s.threads[t] == Flushing(queue, i)
    ensures var s' := FlushStep(s, t, queue, i, refused); s'.outOfBounds == s.outOfBounds && ThreadOk(s', t)
  {
    hide FlushedBy, Flushes, Entries;
    var b := s.buffers[t];
    if i < b.count {
      FlushedAppend(s.pushes, Push(t, true, b.slots[i], queue), t);
      NextFlushed(FlushedBy(s.pushes, t), b.slots, t, queue, i, b.count);
    } else {
      assert b.slots[i..b.count] == [] == b.slots[0..0];
    }
  }

  lemma BeginOk(s: State, t: nat, l: Local)
    requires t in s.threads && t in s.buffers && t in s.accepted && ThreadOk(s, t)
    requires s.threads[t].Idle? && (!l.Flushing? || l.i == 0)
    ensures ThreadOk(Set(s, t, l), t)
  {
    hide FlushedBy, Entries;
    assert Flushes(t, s.buffers[t].slots[..0], 0) == [];
    if l.Flushing? {
      var flushed := FlushedBy(s.pushes, t);
      assert flushed[|flushed|..] == [] == Flushes(t, s.buffers[t].slots[..0], l.queue);
    }
  }

  lemma PostOk(s: State, t: nat, e: Entry)
    requires t in s.threads && t in s.buffers && t in s.accepted && ThreadOk(s, t) && s.threads[t] == Posting(e)
    ensures ThreadOk(Set(s, t, Idle).(pushes := s.pushes + [Push(t, false, e, e.origin)]), t)
  {
    FlushedAppend(s.pushes, Push(t, false, e, e.origin), t);
  }

  lemma AppendFrame(s: State, t: nat, e: Entry)
    requires t in s.threads && t in s.buffers && t in s.accepted
    ensures var s' := Append(s, t, e);
            && s'.buffers.Keys == s.buffers.Keys && s'.threads.Keys == s.threads.Keys
            && s'.accepted.Keys == s.accepted.Keys
            && s'.pushes == s.pushes
            && forall u :: u in s.threads && u in s.buffers && u in s.accepted && u != t ==>
                 s'.threads[u] == s.threads[u] && s'.buffers[u] == s.buffers[u] && s'.accepted[u] == s.accepted[u]
  {
  }

  lemma FlushFrame(s: State, t: nat, queue: nat, i: nat, refused: bool)
    requires t in s.threads && t in s.buffers
    ensures var s' := FlushStep(s, t, queue, i, refused);
            && s'.buffers.Keys == s.buffers.Keys && s'.threads.Keys == s.threads.Keys && s'.accepted == s.accepted
            && (s'.pushes == s.pushes || exists p: Push :: p.t == t && s'.pushes == s.pushes + [p])
            && forall u :: u in s.threads && u in s.buffers && u != t ==>
                 s'.threads[u] == s.threads[u] && s'.buffers[u] == s.buffers[u]
  {
  }

  lemma OwnThread(s: State, a: Action)
    requires Inv(s) && a.t in s.threads
    ensures var s' := Exec(s, a);
            && !s'.outOfBounds && s'.buffers.Keys == s'.threads.Keys == s'.accepted.Keys == s.threads.Keys
            && ThreadOk(s', a.t)
  {
    hide ThreadOk, Append, FlushStep;
    var l := s.threads[a.t];
    assert ThreadOk(s, a.t);
    match a
    case Post(t, queue, topic, observers, message) => if l.Idle? { BeginOk(s, t, Posting(Entry(queue, message))); }
    case PostBatched(t, queue, topic, observers, message) =>
      if l.Idle? { BeginOk(s, t, Appending(Entry(queue, message))); }
    case FlushBatch(t, queue) => if l.Idle? { BeginOk(s, t, Flushing(queue, 0)); }
    case Step(t, refused) =>
      match l
      case Idle =>
      case Posting(e) => PostOk(s, t, e);
      case Appending(e) =>
        AppendOk(s, t, e);
        AppendFrame(s, t, e);
      case Flushing(queue, i) =>
        FlushOk(s, t, queue, i, refused);
        FlushFrame(s, t, queue, i, refused);
  }

  lemma OthersStay(s: State, a: Action, u: nat)
    requires Inv(s) && a.t in s.threads && u in s.threads && u != a.t
    ensures var s' := Exec(s, a);
            && u in s'.threads && u in s'.buffers && u in s'.accepted
            && s'.threads[u] == s.threads[u] && s'.buffers[u] == s.buffers[u] && s'.accepted[u] == s.accepted[u]
            && FlushedBy(s'.pushes, u) == FlushedBy(s.pushes, u)
  {
    hide ThreadOk, Append, FlushStep, FlushedBy;
    match a
    case Post(_, _, _, _, _) =>
    case PostBatched(_, _, _, _, _) =>
    case FlushBatch(_, _) =>
    case Step(t, refused) =>
      match s.threads[t]
      case Idle =>
      case Posting(e) => FlushedAppend(s.pushes, Push(t, false, e, e.origin), u);
      case Appending(e) => AppendFrame(s, t, e);
      case Flushing(queue, i) => FlushOthers(s, t, queue, i, refused, u);
  }

  lemma FlushOthers(s: State, t: nat, queue: nat, i: nat, refused: bool, u: nat)
    requires t in s.threads && t in s.buffers && u in s.threads && u in s.buffers && u != t
    ensures FlushedBy(FlushStep(s, t, queue, i, refused).pushes, u) == FlushedBy(s.pushes, u)
    ensures var s' := FlushStep(s, t, queue, i, refused);
            && s'.buffers.Keys == s.buffers.Keys && s'.threads.Keys == s.threads.Keys && s'.accepted == s.accepted
            && s'.threads[u] == s.threads[u] && s'.buffers[u] == s.buffers[u]
  {
    hide FlushStep, FlushedBy;
    FlushFrame(s, t, queue, i, refused);
    var s' := FlushStep(s, t, queue, i, refused);
    if s'.pushes != s.pushes {
      var p: Push :| p.t == t && s'.pushes == s.pushes + [p];
      FlushedAppend(s.pushes, p, u);
    }
  }

  lemma ExecKeepsInv(s: State, a: Action)
    requires Inv(s)
    ensures Inv(Exec(s, a))
  {
    hide Exec, ThreadOk;
    if a.t in s.threads {
      OwnThread(s, a);
      forall u | u in s.threads && u != a.t ensures u in Exec(s, a).threads && ThreadOk(Exec(s, a), u) {
        OthersStay(s, a, u);
        OtherThread(s, Exec(s, a), u);
      }
    } else {
      Nobody(s, a);
    }
  }

  lemma Nobody(s: State, a: Action)
    requires a.t !in s.threads
    ensures Exec(s, a) == s
  {
  }

  lemma {:induction false} AfterInv(tids: set<nat>, junk: seq<Entry>, acts: seq<Action>)
    requires |junk| == BATCH_SIZE
    ensures Inv(Run(Init(tids, junk), acts))
    decreases |acts|
  {
    if acts != [] {
      AfterInv(tids, junk, acts[..|acts| - 1]);
      ExecKeepsInv(Run(Init(tids, junk), acts[..|acts| - 1]), acts[|acts| - 1]);
    }
  }

  // ----- the properties -----

  /** In every run the buffers are never indexed past their 32 entries, and what a thread has
      flushed, followed by what is still in its buffer, is exactly what it has had accepted,
      in call order, however other threads' posts and flushes interleave. */
  lemma FlushedThenBuffered(tids: set<nat>, junk: seq<Entry>, acts: seq<Action>, t: nat)
    requires |junk| == BATCH_SIZE && t in tids
    ensures var s := Run(Init(tids, junk), acts);
            && !s.outOfBounds && t in s.threads && t in s.buffers && t in s.accepted && BufferOk(s, t)
            && Entries(FlushedBy(s.pushes, t)) + Buffered(s, t) == s.accepted[t]
  {
    hide Exec;
    AfterInv(tids, junk, acts);
    SameThreads(tids, junk, acts);
    assert ThreadOk(Run(Init(tids, junk), acts), t);
  }

  lemma {:induction false} SameThreads(tids: set<nat>, junk: seq<Entry>, acts: seq<Action>)
    requires |junk| == BATCH_SIZE
    ensures Run(Init(tids, junk), acts).threads.Keys == tids
    decreases |acts|
  {
    hide Exec, ThreadOk;
    if acts != [] {
      SameThreads(tids, junk, acts[..|acts| - 1]);
      AfterInv(tids, junk, acts[..|acts| - 1]);
      var s, a := Run(Init(tids, junk), acts[..|acts| - 1]), acts[|acts| - 1];
      if a.t in s.threads { OwnThread(s, a); } else { Nobody(s, a); }
    }
  }

  predicate Routed(p: Push) {
    p.dest == p.entry.origin
  }

  /** When a flush on `queue` has pushed its whole buffer, its messages are in the queues they
      were posted through if and only if they were all posted through `queue`. */
  lemma FlushRoutesIff(tids: set<nat>, junk: seq<Entry>, acts: seq<Action>, t: nat, queue: nat)
    requires |junk| == BATCH_SIZE && t in tids
    requires var s := Run(Init(tids, junk), acts);
             t in s.threads && t in s.buffers && s.threads[t] == Flushing(queue, s.buffers[t].count)
    ensures var s := Run(Init(tids, junk), acts);
            var n, flushed := s.buffers[t].count, FlushedBy(s.pushes, t);
            && n <= |flushed| && n <= |s.buffers[t].slots|
            && Entries(flushed[|flushed| - n..]) == s.buffers[t].slots[..n]
            && ((forall p :: p in flushed[|flushed| - n..] ==> Routed(p)) <==>
                (forall e :: e in s.buffers[t].slots[..n] ==> e.origin == queue))
  {
    hide Exec, Routed, Entries, FlushedBy;
    AfterInv(tids, junk, acts);
    var s := Run(Init(tids, junk), acts);
    assert ThreadOk(s, t);
    RoutedIff(t, s.buffers[t].slots[..s.buffers[t].count], queue);
  }

  lemma RoutedIff(t: nat, es: seq<Entry>, queue: nat)
    ensures Entries(Flushes(t, es, queue)) == es
    ensures (forall p :: p in Flushes(t, es, queue) ==> Routed(p)) <==> (forall e :: e in es ==> e.origin == queue)
  {
    var ps := Flushes(t, es, queue);
    if forall p :: p in ps ==> Routed(p) {
      forall e | e in es ensures e.origin == queue {
        var i :| 0 <= i < |es| && es[i] == e;
        assert ps[i] in ps;
      }
    }
  }

  /** It fails: a message posted through queue 0 and flushed through queue 1 by the same
      thread ends up in queue 1. */
  lemma SharedBufferMisroutes(junk: seq<Entry>)
    requires |junk| == BATCH_SIZE
    ensures var acts := [PostBatched(7, 0, 0, 1, 42), Step(7, false), FlushBatch(7, 1), Step(7, false)];
            var s := Run(Init({7}, junk), acts);
            s.pushes == [Push(7, true, Entry(0, 42), 1)] && !Routed(s.pushes[0])
  {
    var s0 := Init({7}, junk);
    var a1, a2, a3, a4 := PostBatched(7, 0, 0, 1, 42), Step(7, false), FlushBatch(7, 1), Step(7, false);
    var s1 := Exec(s0, a1);
    assert s1.threads[7] == Appending(Entry(0, 42));
    var s2 := Exec(s1, a2);
    assert s2.threads[7] == Idle && s2.buffers[7].count == 1 && s2.buffers[7].slots[0] == Entry(0, 42);
    var s3 := Exec(s2, a3);
    assert s3.threads[7] == Flushing(1, 0) && s3.buffers == s2.buffers;
    RunFour(s0, a1, a2, a3, a4);
  }

  lemma RunFour(s: State, a: Action, b: Action, c: Action, d: Action)
    ensures Run(s, [a, b, c, d]) == Exec(Exec(Exec(Exec(s, a), b), c), d)
  {
    hide Exec;
    assert [a, b, c, d][..3] == [a, b, c] && [a, b, c][..2] == [a, b] && [a, b][..1] == [a] && [a][..0] == [];
    assert Run(s, [a]) == Exec(Run(s, []), a);
    assert Run(s, [a, b]) == Exec(Run(s, [a]), b);
    assert Run(s, [a, b, c]) == Exec(Run(s, [a, b]), c);
  }
}
