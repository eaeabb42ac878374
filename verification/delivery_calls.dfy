/** What the callers of `post` passed is what the observers get (src/eventqueue_fast.h:108-174):
    the guarantees of module DeliveryTheorems, tied to the calls made in a run. */
module DeliveryCalls {
  import opened Bits
  import opened Sequences
  import Ring
  import RingTheorems
  import Life = Lifecycle
  import D = Delivery
  import DeliveryTheorems
  import opened DeliveryFrames
  import Pool
  import opened PoolTheorems
  import P = PooledDelivery

  /** A call of `post` on a topic somebody listens to. */
  datatype Call = Call(t: nat, topic: nat, data: seq<nat>)

  /** What an observer of the run writes down: those calls, and the thread that made each post
      record. */
  datatype History = History(begun: seq<Call>, authors: seq<nat>)

  predicate Heard(topics: seq<seq<Life.Observer>>, topic: nat) {
    topic < |topics| && topics[topic] != []
  }

  /** Action a leads from d to d'; `begins` says that it begins a call of `post`. */
  function Noted(h: History, begins: bool, a: D.Action, d: D.State, d': D.State): History {
    History(if begins && a.BeginPost? && Heard(d.life.topics, a.topic)
            then h.begun + [Call(a.t, a.topic, a.data)] else h.begun,
            if |d'.life.posts| > |d.life.posts| then h.authors + [a.t] else h.authors)
  }

  /** The thread is in no call. */
  predicate Free(d: D.State, t: nat) {
    && t in d.ring.threads && t in d.life.threads
    && d.ring.threads[t].Idle? && d.life.threads[t].Idle?
  }

  function HistoryOf(s: D.State, acts: seq<D.Action>): History
    requires Ring.Shape(s.ring)
    decreases |acts|
  {
    if acts == [] then History([], []) else
    var n := |acts| - 1;
    var d := D.Run(s, acts[..n]);
    Noted(HistoryOf(s, acts[..n]), acts[n].BeginPost? && Free(d, acts[n].t), acts[n], d, D.Run(s, acts))
  }

  /** Over the real pool a thread may post if it is a poster, and outside pool calls too. */
  predicate MayPost(s: P.State, a: D.Action) {
    a.BeginPost? && Free(s.delivery, a.t) && a.t in s.pool.acquirers && a.t in s.pool.threads
    && s.pool.threads[a.t] == Pool.Idle
  }

  function PooledHistoryOf(s: P.State, acts: seq<D.Action>): History
    requires Ring.Shape(s.delivery.ring)
    decreases |acts|
  {
    if acts == [] then History([], []) else
    var n := |acts| - 1;
    var s1 := P.Run(s, acts[..n]);
    Noted(PooledHistoryOf(s, acts[..n]), MayPost(s1, acts[n]), acts[n], s1.delivery, P.Run(s, acts).delivery)
  }

  /** Topic and bytes, by thread: what was passed, and what was recorded. */
  function PassedBy(cs: seq<Call>, t: nat): seq<(nat, seq<nat>)>
    decreases |cs|
  {
    if cs == [] then [] else
    PassedBy(cs[..|cs| - 1], t) + if cs[|cs| - 1].t == t then [(cs[|cs| - 1].topic, cs[|cs| - 1].data)] else []
  }

  function RecordedBy(posts: seq<Life.Post>, authors: seq<nat>, t: nat): seq<(nat, seq<nat>)>
    requires |authors| == |posts|
    decreases |posts|
  {
    if posts == [] then [] else
    var n := |posts| - 1;
    RecordedBy(posts[..n], authors[..n], t) + if authors[n] == t then [(posts[n].topic, posts[n].data)] else []
  }

  /** The call the thread is in, while it has no node yet. */
  function BeforeAcquire(topics: seq<seq<Life.Observer>>, l: Life.Local): seq<(nat, seq<nat>)> {
    match l
    case PostLoad(topic, data) => if Heard(topics, topic) then [(topic, data)] else []
    case PostAcquire(topic, data, _) => [(topic, data)]
    case _ => []
  }

  predicate RecordOk(topics: seq<seq<Life.Observer>>, p: Life.Post) {
    Heard(topics, p.topic) && p.snapshot == topics[p.topic]
  }

  predicate Follows(h: History, life: Life.State, t: nat)
    requires t in life.threads
  {
    && |h.authors| == |life.posts|
    && PassedBy(h.begun, t) == RecordedBy(life.posts, h.authors, t) + BeforeAcquire(life.topics, life.threads[t])
  }

  ghost predicate Tied(h: History, topics: seq<seq<Life.Observer>>, life: Life.State) {
    && life.topics == topics && |h.authors| == |life.posts|
    && (forall t :: t in life.threads ==> Follows(h, life, t))
    && (forall k :: 0 <= k < |life.posts| ==> RecordOk(topics, life.posts[k]))
  }

  // ----- one more -----

  lemma PassedNext(cs: seq<Call>, c: Call, t: nat)
    ensures PassedBy(cs + [c], t) == PassedBy(cs, t) + if c.t == t then [(c.topic, c.data)] else []
  {
    assert (cs + [c])[..|cs|] == cs;
  }

  lemma {:induction false} RecordedSame(ps: seq<Life.Post>, ps': seq<Life.Post>, authors: seq<nat>, t: nat)
    requires |ps| == |ps'| == |authors| && SamePosts(ps, ps')
    ensures RecordedBy(ps', authors, t) == RecordedBy(ps, authors, t)
    decreases |ps|
  {
    if ps != [] {
      var n := |ps| - 1;
      RecordedSame(ps[..n], ps'[..n], authors[..n], t);
    }
  }

  lemma RecordedNext(ps: seq<Life.Post>, ps': seq<Life.Post>, authors: seq<nat>, author: nat, t: nat)
    requires |ps| == |authors| && |ps'| == |ps| + 1 && SamePosts(ps, ps')
    ensures var p := ps'[|ps|];
            RecordedBy(ps', authors + [author], t) ==
            RecordedBy(ps, authors, t) + if author == t then [(p.topic, p.data)] else []
  {
    var n := |ps|;
    assert (authors + [author])[..n] == authors;
    RecordedSame(ps, ps'[..n], authors, t);
  }

  // ----- what a step does to the calls and the records -----

  /** Thread t has the call in hand it had before, and there is no new record. */
  predicate Keeps(life: Life.State, life': Life.State, t: nat)
    requires t in life.threads && t in life'.threads
  {
    |life'.posts| == |life.posts| &&
    BeforeAcquire(life'.topics, life'.threads[t]) == BeforeAcquire(life.topics, life.threads[t])
  }

  /** Its call has become a record: topic and bytes as passed, and the observers of the topic. */
  predicate Records(life: Life.State, life': Life.State, t: nat)
    requires t in life.threads && t in life'.threads
  {
    && |life'.posts| == |life.posts| + 1
    && var p := life'.posts[|life.posts|];
       && BeforeAcquire(life.topics, life.threads[t]) == [(p.topic, p.data)] && RecordOk(life.topics, p)
       && BeforeAcquire(life'.topics, life'.threads[t]) == []
  }

  predicate BeginsCall(life: Life.State, life': Life.State, a: D.Action)
    requires a.t in life.threads && a.t in life'.threads
  {
    && a.BeginPost? && |life'.posts| == |life.posts|
    && BeforeAcquire(life.topics, life.threads[a.t]) == []
    && BeforeAcquire(life'.topics, life'.threads[a.t]) ==
       if Heard(life.topics, a.topic) then [(a.topic, a.data)] else []
  }

  ghost predicate Effect(d: D.State, a: D.Action, d': D.State)
    requires a.t in d.life.threads && a.t in d'.life.threads
  {
    && d'.life.topics == d.life.topics && SamePosts(d.life.posts, d'.life.posts)
    && if a.BeginPost? && Free(d, a.t) then BeginsCall(d.life, d'.life, a)
       else Keeps(d.life, d'.life, a.t) || Records(d.life, d'.life, a.t)
  }

  lemma PostEffect(s: Life.State, t: nat, l: Life.Local, addr: nat)
    requires t in s.threads && s.threads[t] == l && Life.LocalOk(s, t, l)
    ensures var s' := Life.PostStep(s, t, l, addr);
            t in s'.threads && s'.topics == s.topics && (Keeps(s, s', t) || Records(s, s', t))
  {
  }

  lemma CallbackKeeps(s: Life.State, t: nat, n: nat, i: nat)
    requires t in s.threads && BeforeAcquire(s.topics, s.threads[t]) == [] && n in s.nodes
    ensures i < |s.nodes[n].observers| ==>
              var s' := Life.Invoke(s, t, n, i); t in s'.threads && s'.topics == s.topics && Keeps(s, s', t)
    ensures var s' := Life.Set(s, t, Life.DispReturn(n)); t in s'.threads && s'.topics == s.topics && Keeps(s, s', t)
  {
  }

  lemma ReleaseKeeps(s: Life.State, t: nat, n: nat, i: nat, p: nat)
    requires t in s.threads && BeforeAcquire(s.topics, s.threads[t]) == [] && p in s.payloads
    ensures var s' := Life.ReleaseRef(s, t, n, i, p); t in s'.threads && s'.topics == s.topics && Keeps(s, s', t)
  {
  }

  lemma ReturnKeeps(s: Life.State, t: nat, n: nat, delete: bool)
    requires t in s.threads && BeforeAcquire(s.topics, s.threads[t]) == []
    ensures var s' := Life.ReturnNode(s, t, n, delete); t in s'.threads && s'.topics == s.topics && Keeps(s, s', t)
  {
  }

  lemma DispEffect(s: Life.State, t: nat, l: Life.Local, delete: bool)
    requires t in s.threads && s.threads[t] == l && (l.DispLoop? || l.DispRelease? || l.DispReturn?)
    ensures var s' := Life.DispStep(s, t, l, delete); t in s'.threads && s'.topics == s.topics && Keeps(s, s', t)
  {
    hide Life.Invoke, Life.ReleaseRef, Life.ReturnNode, Life.Set;
    if l.node in s.nodes {
      match l
      case DispLoop(n, i) => CallbackKeeps(s, t, n, i);
      case DispRelease(n, i) =>
        if s.nodes[n].body.Managed? && s.nodes[n].body.payload in s.payloads {
          ReleaseKeeps(s, t, n, i, s.nodes[n].body.payload);
        }
      case DispReturn(n) => ReturnKeeps(s, t, n, delete);
    }
  }

  lemma RingKeeps(d: D.State, t: nat, spurious: bool)
    requires D.Inv(d) && t in d.ring.threads && t in d.life.threads && !d.ring.threads[t].Idle?
    ensures Ring.Shape(d.ring)
    ensures var d' := D.RingStep(d, t, spurious);
            && t in d'.life.threads && d'.life.topics == d.life.topics && Keeps(d.life, d'.life, t)
  {
    hide Ring.Inv, Life.Inv, RingTheorems.Contents, D.RingStep;
    Ring.InvBounds(d.ring);
    RingStepOutcome(d, t, spurious);
    assert D.Coupled(d.ring.inserted, d.ring.threads[t], d.life.threads[t]);
  }

  lemma LifeEffect(d: D.State, t: nat, c: Life.Choice)
    requires D.Inv(d) && t in d.life.threads && D.RingCall(d.life.threads[t]).None?
    ensures var life, life' := d.life, Life.Exec(d.life, Life.Step(t, c));
            t in life'.threads && life'.topics == life.topics && (Keeps(life, life', t) || Records(life, life', t))
  {
    hide Ring.Inv, RingTheorems.Contents, Life.PostStep, Life.DispStep;
    var l := d.life.threads[t];
    assert Life.LocalOk(d.life, t, l);
    if l.DispLoop? || l.DispRelease? || l.DispReturn? {
      DispEffect(d.life, t, l, c.delete);
    } else {
      PostEffect(d.life, t, l, c.addr);
    }
  }

  lemma StepEffect(d: D.State, a: D.Action)
    requires D.Inv(d) && a.t in d.life.threads
    ensures Ring.Shape(d.ring) && a.t in D.Exec(d, a).life.threads && Effect(d, a, D.Exec(d, a))
  {
    hide Ring.Inv, Life.Inv, RingTheorems.Contents, D.RingStep, SamePosts;
    Ring.InvBounds(d.ring);
    StepSamePosts(d, a);
    var t := a.t;
    assert t in d.ring.threads;
    if !d.ring.threads[t].Idle? {
      if a.Step? { RingKeeps(d, t, a.spurious); }
    } else if a.Step? && D.RingCall(d.life.threads[t]).None? {
      hide Life.Exec, Keeps, Records;
      LifeEffect(d, t, a.choice);
    }
  }

  // ----- preservation -----

  lemma OwnFollows(h: History, d: D.State, a: D.Action, d': D.State)
    requires a.t in d.life.threads && a.t in d'.life.threads
    requires Follows(h, d.life, a.t) && Effect(d, a, d')
    ensures Follows(Noted(h, a.BeginPost? && Free(d, a.t), a, d, d'), d'.life, a.t)
  {
    hide PassedBy, RecordedBy, SamePosts, Heard;
    if a.BeginPost? { PassedNext(h.begun, Call(a.t, a.topic, a.data), a.t); }
    if |d'.life.posts| == |d.life.posts| {
      RecordedSame(d.life.posts, d'.life.posts, h.authors, a.t);
    } else {
      RecordedNext(d.life.posts, d'.life.posts, h.authors, a.t, a.t);
    }
  }

  lemma OtherFollows(h: History, d: D.State, a: D.Action, d': D.State, u: nat)
    requires a.t in d.life.threads && a.t in d'.life.threads && u in d.life.threads && u in d'.life.threads && u != a.t
    requires d'.life.threads[u] == d.life.threads[u] && Follows(h, d.life, u) && Effect(d, a, d')
    ensures Follows(Noted(h, a.BeginPost? && Free(d, a.t), a, d, d'), d'.life, u)
  {
    hide PassedBy, RecordedBy, SamePosts, Heard;
    if a.BeginPost? { PassedNext(h.begun, Call(a.t, a.topic, a.data), u); }
    if |d'.life.posts| == |d.life.posts| {
      RecordedSame(d.life.posts, d'.life.posts, h.authors, u);
    } else {
      RecordedNext(d.life.posts, d'.life.posts, h.authors, a.t, u);
    }
  }

  lemma RecordsStay(topics: seq<seq<Life.Observer>>, d: D.State, a: D.Action, d': D.State)
    requires a.t in d.life.threads && a.t in d'.life.threads && Effect(d, a, d') && d.life.topics == topics
    requires forall k :: 0 <= k < |d.life.posts| ==> RecordOk(topics, d.life.posts[k])
    ensures forall k :: 0 <= k < |d'.life.posts| ==> RecordOk(topics, d'.life.posts[k])
  {
  }

  lemma TiedStep(h: History, topics: seq<seq<Life.Observer>>, d: D.State, a: D.Action)
    requires D.Inv(d) && Tied(h, topics, d.life)
    ensures Ring.Shape(d.ring)
    ensures var d' := D.Exec(d, a); Tied(Noted(h, a.BeginPost? && Free(d, a.t), a, d, d'), topics, d'.life)
  {
    hide D.Inv, D.Exec, Noted, Follows, RecordOk, Effect;
    StateShape(d);
    var d' := D.Exec(d, a);
    if a.t in d.life.threads {
      StepEffect(d, a);
      RecordsStay(topics, d, a, d');
      OwnFollows(h, d, a, d');
      KnownThreads(d);
      TopicsStay(d, a, d');
      var h' := Noted(h, a.BeginPost? && Free(d, a.t), a, d, d');
      AuthorsOf(h', d'.life, a.t);
      forall u | u in d'.life.threads ensures Follows(h', d'.life, u) {
        DeliveryLifeThreads(d, a, u);
        if u != a.t { OtherFollows(h, d, a, d', u); }
      }
    } else {
      NothingHappens(h, d, a);
    }
  }

  lemma KnownThreads(d: D.State)
    requires D.Inv(d)
    ensures d.ring.threads.Keys == d.life.threads.Keys
  {
  }

  lemma TopicsStay(d: D.State, a: D.Action, d': D.State)
    requires a.t in d.life.threads && a.t in d'.life.threads && Effect(d, a, d')
    ensures d'.life.topics == d.life.topics
  {
  }

  lemma AuthorsOf(h: History, life: Life.State, t: nat)
    requires t in life.threads && Follows(h, life, t)
    ensures |h.authors| == |life.posts|
  {
  }

  lemma NothingHappens(h: History, d: D.State, a: D.Action)
    requires Ring.Shape(d.ring) && a.t !in d.life.threads
    ensures D.Exec(d, a) == d && Noted(h, a.BeginPost? && Free(d, a.t), a, d, d) == h
  {
  }

  lemma {:induction false} RunTied(
    topics: seq<seq<Life.Observer>>, cap: nat, junk: seq<nat>, tids: set<nat>, acts: seq<D.Action>)
    requires cap >= 2 && IsPowerOfTwo(cap) && |junk| == cap
    requires forall i :: 0 <= i < |topics| ==> |topics[i]| <= Life.MAX_OBSERVERS
    ensures var s0 := D.State(Ring.Init(cap, junk, tids), Life.Init(topics, cap, tids));
            Tied(HistoryOf(s0, acts), topics, D.Run(s0, acts).life)
    decreases |acts|
  {
    hide D.Exec, Noted, Tied, D.Inv;
    if acts == [] {
      StartTied(topics, cap, tids);
    } else {
      var n := |acts| - 1;
      RunTied(topics, cap, junk, tids, acts[..n]);
      D.AfterInv(topics, cap, junk, tids, acts[..n]);
      var s0 := D.State(Ring.Init(cap, junk, tids), Life.Init(topics, cap, tids));
      TiedStep(HistoryOf(s0, acts[..n]), topics, D.Run(s0, acts[..n]), acts[n]);
    }
  }

  lemma StartTied(topics: seq<seq<Life.Observer>>, cap: nat, tids: set<nat>)
    ensures Tied(History([], []), topics, Life.Init(topics, cap, tids))
  {
  }

  // ----- over the real pool -----

  /** What an action does to the message path over the real pool is one action of module
      Delivery, by the same thread, or none; a call begins in both or in neither. */
  lemma PartNoted(h: History, s: P.State, a: D.Action)
    requires P.Inv(s)
    ensures Ring.Shape(s.delivery.ring)
    ensures var es, d := P.DeliveryPart(s, a), s.delivery;
            && (es == [] ==> Noted(h, MayPost(s, a), a, d, d) == h)
            && (es != [] ==> forall d' ::
                  Noted(h, MayPost(s, a), a, d, d') == Noted(h, es[0].BeginPost? && Free(d, es[0].t), es[0], d, d'))
  {
    hide P.Nodes, D.Inv, Pool.Inv;
    StateShape(s.delivery);
    KnownThreads(s.delivery);
  }

  lemma {:induction false} PooledRunTied(s: P.State, topics: seq<seq<Life.Observer>>, acts: seq<D.Action>)
    requires P.Inv(s) && Tied(History([], []), topics, s.delivery.life)
    ensures Ring.Shape(s.delivery.ring)
    ensures P.Inv(P.Run(s, acts)) && Tied(PooledHistoryOf(s, acts), topics, P.Run(s, acts).delivery.life)
    decreases |acts|
  {
    hide P.Inv, P.Exec, Noted, Tied, D.Exec, P.DeliveryPart, MayPost;
    P.StateShape(s);
    if acts != [] {
      var n := |acts| - 1;
      PooledRunTied(s, topics, acts[..n]);
      var s1, h1 := P.Run(s, acts[..n]), PooledHistoryOf(s, acts[..n]);
      P.ExecKeepsInv(s1, acts[n]);
      PartNoted(h1, s1, acts[n]);
      PooledInv(s1);
      var es := P.DeliveryPart(s1, acts[n]);
      if es != [] { TiedStep(h1, topics, s1.delivery, es[0]); }
    }
  }

  lemma PooledInv(s: P.State)
    requires P.Inv(s)
    ensures D.Inv(s.delivery)
  {
  }

  // ----- end to end -----

  /** Nothing is left to do. */
  predicate Done(d: D.State) {
    d.ring.head == d.ring.tail && forall t :: t in d.life.threads ==> !Life.HasNode(d.life.threads[t])
  }

  /** For every thread, the topics and bytes of its post records are those it passed to `post`,
      for topics with observers, in order, but for a call that has no node yet: no call ends
      without its record. Each record has called a prefix of the topic's observers, each once,
      in order, with that topic and those bytes; and all of them when nothing is left to do. */
  ghost predicate AsPassed(h: History, topics: seq<seq<Life.Observer>>, d: D.State) {
    && |h.authors| == |d.life.posts|
    && (forall t :: t in d.life.threads ==>
          PassedBy(h.begun, t) ==
          RecordedBy(d.life.posts, h.authors, t) + BeforeAcquire(topics, d.life.threads[t]))
    && (forall k :: 0 <= k < |d.life.posts| ==>
          var p := d.life.posts[k];
          && Heard(topics, p.topic) && |p.delivered| <= |topics[p.topic]|
          && (forall i :: 0 <= i < |p.delivered| ==>
                p.delivered[i] == Life.Delivery(topics[p.topic][i], p.topic, p.data))
          && (Done(d) ==>
                && |p.delivered| == |topics[p.topic]|
                && p.frees == if |p.data| > Life.INLINE_MAX then 1 else 0))
    && (Done(d) ==> d.life.payloads == map[])
  }

  lemma TiedIsPassed(h: History, topics: seq<seq<Life.Observer>>, d: D.State)
    requires Tied(h, topics, d.life) && P.Delivered(d)
    ensures AsPassed(h, topics, d)
  {
    forall k | 0 <= k < |d.life.posts|
      ensures var p := d.life.posts[k];
              && Heard(topics, p.topic) && |p.delivered| <= |topics[p.topic]|
              && (forall i :: 0 <= i < |p.delivered| ==>
                    p.delivered[i] == Life.Delivery(topics[p.topic][i], p.topic, p.data))
              && (Done(d) ==>
                    && |p.delivered| == |topics[p.topic]|
                    && p.frees == if |p.data| > Life.INLINE_MAX then 1 else 0)
    {
      RecordDelivered(topics, d.life.posts[k]);
    }
    forall t | t in d.life.threads
      ensures PassedBy(h.begun, t) ==
              RecordedBy(d.life.posts, h.authors, t) + BeforeAcquire(topics, d.life.threads[t])
    {
      assert Follows(h, d.life, t);
    }
  }

  lemma RecordDelivered(topics: seq<seq<Life.Observer>>, p: Life.Post)
    requires RecordOk(topics, p) && DeliveryTheorems.Faithful(p)
    ensures |p.delivered| <= |topics[p.topic]|
    ensures forall i :: 0 <= i < |p.delivered| ==>
              p.delivered[i] == Life.Delivery(topics[p.topic][i], p.topic, p.data)
    ensures DeliveryTheorems.Complete(p) ==>
              |p.delivered| == |topics[p.topic]| && p.frees == if |p.data| > Life.INLINE_MAX then 1 else 0
  {
    forall i | 0 <= i < |p.delivered| ensures p.delivered[i] == Life.Expected(p)[i] {
    }
  }

  /** Any posters and dispatchers, over the lock-free ring. */
  lemma EveryCallIsDelivered(
    topics: seq<seq<Life.Observer>>, cap: nat, junk: seq<nat>, tids: set<nat>, acts: seq<D.Action>)
    requires cap >= 2 && IsPowerOfTwo(cap) && |junk| == cap
    requires forall i :: 0 <= i < |topics| ==> |topics[i]| <= Life.MAX_OBSERVERS
    ensures AsPassed(HistoryOf(D.State(Ring.Init(cap, junk, tids), Life.Init(topics, cap, tids)), acts), topics,
                     D.After(topics, cap, junk, tids, acts))
  {
    hide Tied, AsPassed, HistoryOf, D.Run;
    RunTied(topics, cap, junk, tids, acts);
    DeliveryTheorems.EveryPostIsDelivered(topics, cap, junk, tids, acts);
    TiedIsPassed(HistoryOf(D.State(Ring.Init(cap, junk, tids), Life.Init(topics, cap, tids)), acts), topics,
                 D.After(topics, cap, junk, tids, acts));
  }

  /** Over the real pool as well, if at most one of the threads posts. */
  lemma EveryPooledCallIsDelivered(
    topics: seq<seq<Life.Observer>>, cap: nat, junk: seq<nat>, tids: set<nat>,
    initial: nat, maxSize: nat, posters: set<nat>, acts: seq<D.Action>)
    requires cap >= 2 && IsPowerOfTwo(cap) && |junk| == cap && SingleAcquirer(tids, posters)
    requires forall i :: 0 <= i < |topics| ==> |topics[i]| <= Life.MAX_OBSERVERS
    ensures var start := P.Start(topics, cap, junk, tids, initial, maxSize, posters);
            AsPassed(PooledHistoryOf(start, acts), topics, P.Run(start, acts).delivery)
  {
    hide Tied, AsPassed, PooledHistoryOf, P.Run, P.Delivered, P.Inv;
    var start := P.Start(topics, cap, junk, tids, initial, maxSize, posters);
    P.StartInv(topics, cap, junk, tids, initial, maxSize, posters);
    StartTied(topics, cap, tids);
    PooledRunTied(start, topics, acts);
    P.EveryPostIsDelivered(topics, cap, junk, tids, initial, maxSize, posters, acts);
    TiedIsPassed(PooledHistoryOf(start, acts), topics, P.Run(start, acts).delivery);
  }
}
