/** End-to-end guarantees of the message path, over all runs of module Delivery: every
    interleaving of any number of posting and dispatching threads over the lock-free ring. */
module DeliveryTheorems {
  import opened Bits
  import Ring
  import RingTheorems
  import Life = Lifecycle
  import opened Delivery

  // ----- what the invariant says about one post -----

  /** The post went to its snapshot, in order, with the posted topic and bytes, as far as it
      has got; its payload is deleted at most once, and only after the last callback. */
  predicate Faithful(p: Life.Post) {
    && p.delivered <= Life.Expected(p)
    && 0 <= p.frees <= (if Life.IsManaged(p) then 1 else 0)
    && (p.frees == 1 ==> p.delivered == Life.Expected(p))
  }

  predicate Complete(p: Life.Post) {
    p.done && p.delivered == Life.Expected(p) && p.frees == if Life.IsManaged(p) then 1 else 0
  }

  /** The node of an unfinished post is queued, or with a running call that knows it. */
  lemma WhereItIs(s: Life.State, k: nat)
    requires Life.Inv(s) && k < |s.posts| && !s.posts[k].done
    ensures var n := s.posts[k].node;
            && n in s.nodes && n in s.carries && s.carries[n] == k && n in s.place
            && (s.place[n] == Life.Queued ==> exists i: nat | i < |s.queue| :: s.queue[i] == n && Life.QueuedOk(s, i))
            && (s.place[n] != Life.Queued ==>
                  s.place[n].With? && var t := s.place[n].t;
                  && t in s.threads && Life.HasNode(s.threads[t]) && s.threads[t].node == n
                  && Life.LocalOk(s, t, s.threads[t]))
  {
    var n := s.posts[k].node;
    assert Life.PostOk(s, k) && Life.PlaceOk(s, n);
    if s.place[n] == Life.Queued {
      var i :| 0 <= i < |s.queue| && s.queue[i] == n;
      assert Life.QueuedOk(s, i);
    } else {
      assert Life.LocalOk(s, s.place[n].t, s.threads[s.place[n].t]);
    }
  }

  lemma ReadyIsFaithful(s: Life.State, n: nat, i: nat, refs: int)
    requires n in s.nodes && n in s.carries && s.carries[n] < |s.posts| && Life.Ready(s, n, i, refs)
    requires refs == 0 ==> i == |s.posts[s.carries[n]].snapshot|
    ensures Faithful(s.posts[s.carries[n]])
  {
    var p := s.posts[s.carries[n]];
    assert Life.Expected(p)[..|p.snapshot|] == Life.Expected(p);
  }

  lemma LocalIsFaithful(s: Life.State, t: nat, l: Life.Local)
    requires Life.LocalOk(s, t, l) && Life.HasNode(l)
    ensures l.node in s.carries && s.carries[l.node] < |s.posts| && Faithful(s.posts[s.carries[l.node]])
  {
    var n := l.node;
    var size := |s.posts[s.carries[n]].snapshot|;
    match l
    case PostAddRefs(_, _) => ReadyIsFaithful(s, n, 0, 1);
    case PostPush(_) => ReadyIsFaithful(s, n, 0, size);
    case DispLoop(_, i) => ReadyIsFaithful(s, n, i, size - i);
    case DispRelease(_, i) => ReadyIsFaithful(s, n, i + 1, size - i);
    case DispReturn(_) => ReadyIsFaithful(s, n, size, 0);
    case _ =>
  }

  lemma PostIsFaithful(s: Life.State, k: nat)
    requires Life.Inv(s) && k < |s.posts|
    ensures Faithful(s.posts[k]) && (s.posts[k].done ==> Complete(s.posts[k]))
  {
    hide Faithful, Life.LocalOk;
    assert Life.PostOk(s, k);
    if s.posts[k].done {
      DoneIsFaithful(s, k);
    } else {
      WhereItIs(s, k);
      var n := s.posts[k].node;
      if s.place[n] == Life.Queued {
        var i: nat :| i < |s.queue| && s.queue[i] == n && Life.QueuedOk(s, i);
        ReadyIsFaithful(s, n, 0, |s.posts[k].snapshot|);
      } else {
        LocalIsFaithful(s, s.place[n].t, s.threads[s.place[n].t]);
      }
    }
  }

  lemma DoneIsFaithful(s: Life.State, k: nat)
    requires k < |s.posts| && Life.PostOk(s, k) && s.posts[k].done
    ensures Faithful(s.posts[k]) && Complete(s.posts[k])
  {
  }

  /** The callbacks that still hold a reference to the payload of node n; before the extra
      references are added there is only the one the payload was created with. */
  function Owed(s: Life.State, n: nat): int
    requires n in s.carries && s.carries[n] < |s.posts|
  {
    var size := |s.posts[s.carries[n]].snapshot|;
    if n in s.place && s.place[n].With? && s.place[n].t in s.threads then
      match s.threads[s.place[n].t]
      case PostAddRefs(_, _) => 1
      case DispLoop(_, i) => size - i
      case DispRelease(_, i) => size - i
      case _ => size
    else size
  }

  /** A live payload: its count is the number of outstanding callbacks, at least one, and it
      holds the bytes of the post on its way in its home node. */
  lemma CountIsOutstanding(s: Life.State, a: nat)
    requires Life.Inv(s) && a in s.payloads
    ensures a in s.home && s.home[a] in s.nodes && s.nodes[s.home[a]].body == Life.Managed(a)
    ensures var n := s.home[a];
            && n in s.carries && s.carries[n] < |s.posts| && !s.posts[s.carries[n]].done
            && s.payloads[a] == Life.Payload(Owed(s, n), s.posts[s.carries[n]].data) && Owed(s, n) >= 1
  {
    hide Life.Inv;
    PayloadHome(s, a);
    var n := s.home[a];
    WhereItIs(s, s.carries[n]);
    if s.place[n] == Life.Queued {
      var i: nat :| i < |s.queue| && s.queue[i] == n && Life.QueuedOk(s, i);
    } else {
      LocalOwes(s, s.place[n].t, s.threads[s.place[n].t], a);
    }
  }

  lemma PayloadHome(s: Life.State, a: nat)
    requires Life.Inv(s) && a in s.payloads
    ensures a in s.home && s.home[a] in s.nodes && s.nodes[s.home[a]].body == Life.Managed(a)
    ensures var n := s.home[a];
            n in s.carries && s.carries[n] < |s.posts| && !s.posts[s.carries[n]].done && s.posts[s.carries[n]].node == n
  {
    assert Life.PayloadOk(s, a);
    var n := s.home[a];
    assert Life.PlaceOk(s, n);
    if s.place[n] == Life.Queued {
      var i :| 0 <= i < |s.queue| && s.queue[i] == n;
      assert Life.QueuedOk(s, i);
    } else {
      assert Life.LocalOk(s, s.place[n].t, s.threads[s.place[n].t]);
    }
  }

  lemma LocalOwes(s: Life.State, t: nat, l: Life.Local, a: nat)
    requires t in s.threads && s.threads[t] == l && Life.LocalOk(s, t, l) && Life.HasNode(l)
    requires a in s.home && s.home[a] == l.node && l.node in s.nodes && s.nodes[l.node].body == Life.Managed(a)
    ensures l.node in s.carries && s.carries[l.node] < |s.posts|
    ensures a in s.payloads && s.payloads[a] == Life.Payload(Owed(s, l.node), s.posts[s.carries[l.node]].data)
    ensures Owed(s, l.node) >= 1
  {
  }

  /** With nobody at work and nothing queued, every post is complete and no payload is left. */
  lemma NothingLeft(s: Life.State)
    requires Life.Inv(s) && s.queue == [] && forall t :: t in s.threads ==> !Life.HasNode(s.threads[t])
    ensures forall k :: 0 <= k < |s.posts| ==> Complete(s.posts[k])
    ensures s.payloads == map[] && s.carries == map[]
  {
    hide Life.Inv, Life.LocalOk;
    forall k | 0 <= k < |s.posts| ensures Complete(s.posts[k]) {
      PostIsFaithful(s, k);
      if !s.posts[k].done { WhereItIs(s, k); }
    }
    forall n: nat ensures n !in s.carries {
      CarriedIsHeld(s, n);
    }
    forall a: nat ensures a !in s.payloads {
      if a in s.payloads { PayloadHome(s, a); }
    }
  }

  lemma CarriedIsHeld(s: Life.State, n: nat)
    requires Life.Inv(s) && s.queue == [] && forall t :: t in s.threads ==> !Life.HasNode(s.threads[t])
    ensures n !in s.carries
  {
    assert Life.PlaceOk(s, n);
  }

  // ----- end to end -----

  /** In every reachable state each accepted post has called a prefix of the observers
      registered when it was made, each once, in order, with the posted topic and bytes.
      Once nobody is at work and the ring is empty, every accepted post has called all of
      them, its payload was deleted exactly once, and no payload is left over. */
  lemma EveryPostIsDelivered(
    topics: seq<seq<Life.Observer>>, cap: nat, junk: seq<nat>, tids: set<nat>, acts: seq<Action>)
    requires cap >= 2 && IsPowerOfTwo(cap) && |junk| == cap
    requires forall i :: 0 <= i < |topics| ==> |topics[i]| <= Life.MAX_OBSERVERS
    ensures var s := After(topics, cap, junk, tids, acts);
            && (forall k :: 0 <= k < |s.life.posts| ==> Faithful(s.life.posts[k]))
            && (s.ring.head == s.ring.tail && (forall t :: t in s.life.threads ==> !Life.HasNode(s.life.threads[t])) ==>
                  (forall k :: 0 <= k < |s.life.posts| ==> Complete(s.life.posts[k])) && s.life.payloads == map[])
  {
    hide Life.Inv, Ring.Inv, Faithful, Complete;
    AfterInv(topics, cap, junk, tids, acts);
    var s := After(topics, cap, junk, tids, acts);
    forall k | 0 <= k < |s.life.posts| ensures Faithful(s.life.posts[k]) {
      PostIsFaithful(s.life, k);
    }
    if s.ring.head == s.ring.tail && forall t :: t in s.life.threads ==> !Life.HasNode(s.life.threads[t]) {
      EmptyRing(s);
      NothingLeft(s.life);
    }
  }

  lemma EmptyRing(s: State)
    requires Inv(s) && s.ring.head == s.ring.tail
    ensures s.life.queue == []
  {
  }

  /** The pointer `try_pop` returns is a node that nobody else has, carrying a complete message
      no callback has seen yet, with one reference for each of its observers. */
  lemma PoppedMessageIsComplete(
    topics: seq<seq<Life.Observer>>, cap: nat, junk: seq<nat>, tids: set<nat>, acts: seq<Action>,
    t: nat, p: nat, v: nat)
    requires cap >= 2 && IsPowerOfTwo(cap) && |junk| == cap
    requires forall i :: 0 <= i < |topics| ==> |topics[i]| <= Life.MAX_OBSERVERS
    requires var s := After(topics, cap, junk, tids, acts);
             t in s.ring.threads && s.ring.threads[t] == Ring.PopRelease(p, v)
    ensures var s := After(topics, cap, junk, tids, acts).life;
            && t in s.threads && s.threads[t] == Life.DispLoop(v, 0)
            && v in s.carries && s.carries[v] < |s.posts| && v in s.nodes
            && (var post, m := s.posts[s.carries[v]], s.nodes[v];
                && post.node == v && !post.done && post.delivered == []
                && m.topicId == post.topic && m.observerCount == |post.snapshot| && m.observerCount <= |m.observers|
                && m.observers[..m.observerCount] == post.snapshot && Life.DataOf(s, m) == post.data
                && (m.body.Managed? ==>
                      m.body.payload in s.payloads && s.payloads[m.body.payload].refCount == |post.snapshot|))
            && (forall u :: u in s.threads && u != t && Life.HasNode(s.threads[u]) ==> s.threads[u].node != v)
  {
    hide Life.Inv;
    AfterInv(topics, cap, junk, tids, acts);
    var s := After(topics, cap, junk, tids, acts);
    RingLocal(s.ring, t);
    assert Coupled(s.ring.inserted, s.ring.threads[t], s.life.threads[t]);
    HandedOver(s.life, t, v);
  }

  lemma HandedOver(s: Life.State, t: nat, v: nat)
    requires Life.Inv(s) && t in s.threads && s.threads[t] == Life.DispLoop(v, 0)
    ensures && v in s.carries && s.carries[v] < |s.posts| && v in s.nodes
            && (var post, m := s.posts[s.carries[v]], s.nodes[v];
                && post.node == v && !post.done && post.delivered == []
                && m.topicId == post.topic && m.observerCount == |post.snapshot| && m.observerCount <= |m.observers|
                && m.observers[..m.observerCount] == post.snapshot && Life.DataOf(s, m) == post.data
                && (m.body.Managed? ==>
                      m.body.payload in s.payloads && s.payloads[m.body.payload].refCount == |post.snapshot|))
    ensures forall u :: u in s.threads && u != t && Life.HasNode(s.threads[u]) ==> s.threads[u].node != v
  {
    assert Life.LocalOk(s, t, s.threads[t]);
    forall u | u in s.threads && u != t && Life.HasNode(s.threads[u]) ensures s.threads[u].node != v {
      assert Life.LocalOk(s, u, s.threads[u]);
    }
  }

  /** At every callback of every run the payload is alive, holds the posted bytes, and counts
      exactly the callbacks that have not released it. */
  lemma PayloadOutlivesItsCallbacks(
    topics: seq<seq<Life.Observer>>, cap: nat, junk: seq<nat>, tids: set<nat>, acts: seq<Action>,
    t: nat, n: nat, i: nat)
    requires cap >= 2 && IsPowerOfTwo(cap) && |junk| == cap
    requires forall j :: 0 <= j < |topics| ==> |topics[j]| <= Life.MAX_OBSERVERS
    requires var s := After(topics, cap, junk, tids, acts).life;
             t in s.threads && s.threads[t] == Life.DispLoop(n, i) && n in s.nodes && i < s.nodes[n].observerCount
    ensures var s := After(topics, cap, junk, tids, acts).life;
            && n in s.carries && s.carries[n] < |s.posts|
            && var post, m := s.posts[s.carries[n]], s.nodes[n];
               && i < |post.snapshot| && i < |m.observers| && m.observers[i] == post.snapshot[i]
               && m.topicId == post.topic && Life.DataOf(s, m) == post.data
               && (m.body.Managed? ==>
                     && m.body.payload in s.payloads
                     && s.payloads[m.body.payload].refCount == |post.snapshot| - i)
  {
    hide Ring.Inv, Life.Inv;
    AfterInv(topics, cap, junk, tids, acts);
    var s := After(topics, cap, junk, tids, acts).life;
    Life.CallbackSeesData(s, t, n, i);
    if s.nodes[n].body.Managed? { CallbackCount(s, t, n, i); }
  }

  lemma CallbackCount(s: Life.State, t: nat, n: nat, i: nat)
    requires Life.Inv(s) && t in s.threads && s.threads[t] == Life.DispLoop(n, i)
    requires n in s.nodes && i < s.nodes[n].observerCount && s.nodes[n].body.Managed?
    ensures n in s.carries && s.carries[n] < |s.posts|
    ensures s.nodes[n].body.payload in s.payloads
    ensures s.payloads[s.nodes[n].body.payload].refCount == |s.posts[s.carries[n]].snapshot| - i
  {
    assert Life.LocalOk(s, t, s.threads[t]);
  }

  /** In every reachable state a live payload belongs to one unfinished post, holds its bytes,
      and its count is the number of callbacks that have not released it, at least one. */
  lemma LivePayloadsAreOwed(
    topics: seq<seq<Life.Observer>>, cap: nat, junk: seq<nat>, tids: set<nat>, acts: seq<Action>, a: nat)
    requires cap >= 2 && IsPowerOfTwo(cap) && |junk| == cap
    requires forall j :: 0 <= j < |topics| ==> |topics[j]| <= Life.MAX_OBSERVERS
    requires a in After(topics, cap, junk, tids, acts).life.payloads
    ensures var s := After(topics, cap, junk, tids, acts).life;
            && a in s.home && s.home[a] in s.carries && s.carries[s.home[a]] < |s.posts|
            && !s.posts[s.carries[s.home[a]]].done
            && s.payloads[a] == Life.Payload(Owed(s, s.home[a]), s.posts[s.carries[s.home[a]]].data)
            && Owed(s, s.home[a]) >= 1
  {
    hide Ring.Inv, Life.Inv;
    AfterInv(topics, cap, junk, tids, acts);
    CountIsOutstanding(After(topics, cap, junk, tids, acts).life, a);
  }
}
