/** `EventQueueBroadcastFast` (src/eventqueue_fast.h) as the object a single caller uses: a ring
    of pointers to pooled nodes, whose messages may share a counted payload. Modules Lifecycle,
    Delivery and PooledDelivery have the interleavings. */
module FastQueueClass {
  import opened Bits
  import Ring
  import opened MpmcQueueClass
  import opened ObjectPoolClass
  import opened Sequences

  const MAX_TOPICS := 4096
  const INLINE_MAX := 48
  const MAX_OBSERVERS := 16

  datatype Body = Inline(data: seq<nat>) | Managed(payload: Payload)

  /** Observers are numbers standing for a callback with its user data. */
  datatype Message = Message(topicId: nat, observers: seq<nat>, size: nat, body: Body)

  /** What was posted, and whom it found registered. */
  datatype Posted = Posted(topic: nat, data: seq<nat>, snapshot: seq<nat>)

  /** How a post ends; with a full queue it goes on trying. */
  datatype Outcome = Refused | Accepted | Spinning

  /** A callback: observer, topic, bytes. */
  type Called = (nat, nat, seq<nat>)

  function Calls(p: Posted): (cs: seq<Called>)
    ensures |cs| == |p.snapshot|
  {
    seq(|p.snapshot|, i requires 0 <= i < |p.snapshot| => (p.snapshot[i], p.topic, p.data))
  }

  /** The message holds the post: its header, its snapshot, and its bytes, inline or in a live
      payload with one reference for each observer. */
  ghost predicate Holds(m: Message, p: Posted)
    reads if m.body.Managed? then {m.body.payload} else {}
  {
    && m.topicId == p.topic && m.observers == p.snapshot != [] && m.size == |p.data|
    && (m.body.Managed? <==> |p.data| > INLINE_MAX)
    && (m.body.Inline? ==> m.body.data == p.data)
    && (m.body.Managed? ==>
          m.body.payload.alive && m.body.payload.refCount == |p.snapshot| && m.body.payload.data == p.data)
  }

  /** Two queued messages have neither their node nor their payload in common. */
  ghost predicate NotShared(a: Node<Message>, b: Node<Message>)
    reads a, b
  {
    && a != b
    && (a.data.body.Managed? && b.data.body.Managed? ==> a.data.body.payload != b.data.body.payload)
  }

  class FastQueue {
    const topics: array<seq<nat>>
    const queue: MpmcQueue<Node?<Message>>
    const pool: ObjectPool<Message>
    var trace: seq<Called>
    /** The queued nodes, their posts and their payloads. */
    ghost var nodes: seq<Node<Message>>
    ghost var pending: seq<Posted>
    ghost var payloads: set<Payload>

    ghost predicate NodeOk(i: nat)
      requires i < |nodes| == |pending|
      reads this`nodes, this`pending, this`payloads, pool`held, nodes, payloads
    {
      var m := nodes[i].data;
      && nodes[i] in pool.held
      && (m.body.Managed? ==> m.body.payload in payloads)
      && Holds(m, pending[i])
    }

    ghost predicate Distinct()
      reads this`nodes, nodes
    {
      forall i, j :: 0 <= i < j < |nodes| ==> NotShared(nodes[i], nodes[j])
    }

    ghost predicate Valid()
      reads this, topics, queue, queue.seqs, queue.data, pool, pool.spine, nodes, payloads
    {
      && topics.Length == MAX_TOPICS && (forall i :: 0 <= i < MAX_TOPICS ==> |topics[i]| <= MAX_OBSERVERS)
      && queue.Valid() && pool.Valid()
      && queue.Contents() == nodes && |pending| == |nodes|
      && (forall i :: 0 <= i < |nodes| ==> NodeOk(i))
      && Distinct()
    }

    constructor (capacity: nat, initialNodes: nat, maxNodes: nat)
      requires capacity >= 2 && IsPowerOfTwo(capacity)
      ensures Valid() && pending == [] && trace == []
      ensures fresh(topics) && fresh(queue) && fresh(queue.seqs) && fresh(queue.data) && fresh(pool)
    {
      topics := new seq<nat>[MAX_TOPICS](_ => []);
      queue := new MpmcQueue(capacity);
      pool := new ObjectPool(initialNodes, maxNodes);
      trace, nodes, pending, payloads := [], [], [], {};
    }

    method AddObserver(topicId: nat, observer: nat) returns (ok: bool)
      requires Valid()
      modifies topics
      ensures Valid()
      ensures ok <==> topicId < MAX_TOPICS && old(|topics[topicId]|) < MAX_OBSERVERS
      ensures topics[..] ==
                if ok then old(topics[..])[topicId := old(topics[topicId]) + [observer]] else old(topics[..])
    {
      if topicId >= MAX_TOPICS { return false; }
      if |topics[topicId]| >= MAX_OBSERVERS { return false; }
      topics[topicId] := topics[topicId] + [observer];
      return true;
    }

    /** Header, snapshot and bytes, in a counted payload when they are many. */
    method Compose(topicId: nat, data: seq<nat>, observers: seq<nat>) returns (m: Message)
      requires observers != []
      ensures Holds(m, Posted(topicId, data, observers))
      ensures m.body.Managed? ==> fresh(m.body.payload)
    {
      var body := Inline(data);
      if |data| > INLINE_MAX {
        var p := CreateFor(data, |observers|);
        body := Managed(p);
      }
      m := Message(topicId, observers, |data|, body);
    }

    /** A node of nobody's: not queued, and not free any more. */
    method AcquireNode() returns (node: Node<Message>)
      requires Valid()
      modifies pool
      ensures Valid() && node in pool.held && node !in nodes
      ensures fresh(node) || node in old(pool.spine)
    {
      hide MpmcQueue.Valid, MpmcQueue.Contents, ObjectPool.Valid, Holds, Distinct;
      forall i | 0 <= i < |nodes| ensures nodes[i] in pool.held {
        assert NodeOk(i);
      }
      node := pool.Acquire();
      forall i | 0 <= i < |nodes| ensures nodes[i] != node && NodeOk(i) {
        assert old(NodeOk(i));
      }
    }

    /** Acquires a node and fills it in. */
    method Prepare(topicId: nat, data: seq<nat>, observers: seq<nat>) returns (node: Node<Message>)
      requires Valid() && observers != []
      modifies pool, pool.spine
      ensures Valid() && node in pool.held && node !in nodes
      ensures Holds(node.data, Posted(topicId, data, observers))
      ensures node.data.body.Managed? ==> fresh(node.data.body.payload)
    {
      hide MpmcQueue.Valid, MpmcQueue.Contents, Holds, Distinct;
      node := AcquireNode();
      pool.HeldIsOffList(node);
      assert forall i :: 0 <= i < |nodes| ==> nodes[i] != node && NodeOk(i);
      var m := Compose(topicId, data, observers);
      node.data := m;
      assert forall i :: 0 <= i < |nodes| ==> nodes[i] != node && NodeOk(i);
    }

    /** `try_push` of a prepared node. */
    method Enqueue(node: Node<Message>, ghost post: Posted) returns (ok: bool)
      requires Valid() && node in pool.held && node !in nodes && Holds(node.data, post)
      requires node.data.body.Managed? ==> node.data.body.payload !in payloads
      modifies this`nodes, this`pending, this`payloads, queue, queue.seqs, queue.data
      ensures Valid() && (ok <==> old(|pending|) < queue.capacity)
      ensures pending == old(pending) + if ok then [post] else []
    {
      hide MpmcQueue.Valid, MpmcQueue.Contents, ObjectPool.Valid, Holds;
      assert forall i :: 0 <= i < |nodes| ==> NodeOk(i) && nodes[i] != node;
      var retries: nat := *;
      ok := queue.TryPush(node, retries);
      if ok {
        nodes, pending := nodes + [node], pending + [post];
        if node.data.body.Managed? { payloads := payloads + {node.data.body.payload}; }
        forall i | 0 <= i < |nodes| ensures NodeOk(i) {
          if i < |nodes| - 1 { assert old(NodeOk(i)) && nodes[i] == old(nodes)[i] && pending[i] == old(pending)[i]; }
        }
      }
    }

    method Post(topicId: nat, data: seq<nat>) returns (r: Outcome)
      requires Valid()
      modifies this, queue, queue.seqs, queue.data, pool, pool.spine
      ensures Valid() && trace == old(trace)
      ensures r == if topicId >= MAX_TOPICS then Refused
                   else if topics[topicId] != [] && old(|pending|) >= queue.capacity then Spinning
                   else Accepted
      ensures pending == old(pending) +
                if r.Accepted? && topics[topicId] != [] then [Posted(topicId, data, topics[topicId])] else []
    {
      if topicId >= MAX_TOPICS { return Refused; }
      var observers := topics[topicId];
      if |observers| == 0 { return Accepted; }
      hide MpmcQueue.Valid, MpmcQueue.Contents, Holds, NodeOk, Distinct;
      var node := Prepare(topicId, data, observers);
      var ok := Enqueue(node, Posted(topicId, data, observers));
      r := if ok then Accepted else Spinning;
    }

    /** The callback loop: the payload, if any, is alive at each call and deleted by the last. */
    method CallObservers(m: Message, ghost p: Posted)
      requires Holds(m, p)
      modifies this`trace, if m.body.Managed? then {m.body.payload} else {}
      ensures trace == old(trace) + Calls(p)
      ensures old(trace) <= trace && |trace| == |old(trace)| + |p.snapshot|
      ensures forall k :: 0 <= k < |p.snapshot| ==> trace[|old(trace)| + k] == (p.snapshot[k], p.topic, p.data)
      ensures m.body.Managed? ==> !m.body.payload.alive
    {
      for i := 0 to |m.observers|
        invariant trace == old(trace) + Calls(p)[..i]
        invariant m.body.Managed? ==>
                    m.body.payload.refCount == |m.observers| - i && (m.body.payload.alive <==> i < |m.observers|)
      {
        var data := match m.body case Inline(d) => d case Managed(payload) => payload.data;
        trace := trace + [(m.observers[i], m.topicId, data)];
        if m.body.Managed? {
          var deleted := m.body.payload.Release();
        }
      }
    }

    /** Node n, out of the queue, carries post p, and nobody else has it or its payload. */
    ghost predicate InHand(n: Node<Message>, p: Posted)
      reads this, pool, n, nodes, if n.data.body.Managed? then {n.data.body.payload} else {}
    {
      && n in pool.held && Holds(n.data, p)
      && (n.data.body.Managed? ==> n.data.body.payload in payloads)
      && forall i :: 0 <= i < |nodes| ==> NotShared(n, nodes[i])
    }

    /** `try_pop`: the oldest node, or null. */
    method TakeOldest() returns (node: Node?<Message>)
      requires Valid()
      modifies this`nodes, this`pending, queue, queue.seqs, queue.data
      ensures Valid() && (node == null <==> old(pending) == [])
      ensures node == null ==> pending == []
      ensures node != null ==> node == old(nodes)[0] && pending == old(pending)[1..] && InHand(node, old(pending)[0])
      ensures nodes == if node == null then [] else old(nodes)[1..]
    {
      hide MpmcQueue.Valid, MpmcQueue.Contents, ObjectPool.Valid, Holds;
      assert forall i :: 0 <= i < |nodes| ==> NodeOk(i);
      assert forall i :: 0 < i < |nodes| ==> NotShared(nodes[0], nodes[i]);
      var retries: nat := *;
      var item := queue.TryPop(retries);
      if item.None? { return null; }
      node := item.value;
      assert NodeOk(0) && node == nodes[0];
      nodes, pending := nodes[1..], pending[1..];
      forall i | 0 <= i < |nodes| ensures NodeOk(i) && NotShared(node, nodes[i]) {
        assert old(NodeOk(i + 1)) && nodes[i] == old(nodes)[i + 1] && pending[i] == old(pending)[i + 1];
      }
    }

    /** Calls the snapshot, drops the payload, returns the node. */
    method Deliver(node: Node<Message>, ghost p: Posted)
      requires Valid() && InHand(node, p)
      modifies this`trace, pool, node, payloads
      ensures Valid() && trace == old(trace) + Calls(p) && pool.held == old(pool.held) - {node}
      ensures old(trace) <= trace && |trace| == |old(trace)| + |p.snapshot|
      ensures forall k :: 0 <= k < |p.snapshot| ==> trace[|old(trace)| + k] == (p.snapshot[k], p.topic, p.data)
      ensures if pool.maxSize > 0 && old(pool.total) > pool.maxSize
              then pool.spine == old(pool.spine) && pool.total == old(pool.total) - 1
              else pool.spine == [node] + old(pool.spine) && pool.total == old(pool.total)
      ensures old(node.data.body.Managed?) ==> !old(node.data.body.payload).alive
    {
      hide MpmcQueue.Valid, MpmcQueue.Contents, ObjectPool.Valid, Holds, Calls, Distinct;
      CallObservers(node.data, p);
      forall i | 0 <= i < |nodes| ensures nodes[i] != node && NodeOk(i) {
        assert old(NodeOk(i)) && NotShared(node, nodes[i]);
      }
      pool.Release(node);
      assert forall i :: 0 <= i < |nodes| ==> NodeOk(i);
    }

    /** The oldest message: its snapshot is called, its payload deleted, and its node goes back
        on top of the pool's list, or is deleted while the pool is over its limit. */
    method DispatchOne() returns (did: bool)
      requires Valid()
      modifies this, queue, queue.seqs, queue.data, pool, nodes, payloads
      ensures Valid()
      ensures did <==> old(pending) != []
      ensures pending == if did then old(pending)[1..] else []
      ensures trace == old(trace) + if did then Calls(old(pending)[0]) else []
      ensures did ==>
                var p := old(pending)[0];
                && |trace| == |old(trace)| + |p.snapshot|
                && forall k :: 0 <= k < |p.snapshot| ==> trace[|old(trace)| + k] == (p.snapshot[k], p.topic, p.data)
      ensures did ==> pool.held == old(pool.held) - {old(nodes)[0]}
      ensures !did ==> pool.held == old(pool.held) && pool.spine == old(pool.spine) && pool.total == old(pool.total)
      ensures did ==> if pool.maxSize > 0 && old(pool.total) > pool.maxSize
                      then pool.spine == old(pool.spine) && pool.total == old(pool.total) - 1
                      else pool.spine == [old(nodes)[0]] + old(pool.spine) && pool.total == old(pool.total)
      ensures did && old(nodes[0].data.body.Managed?) ==> !old(nodes[0].data.body.payload).alive
      ensures payloads == old(payloads) && nodes == if did then old(nodes)[1..] else []
    {
      hide MpmcQueue.Valid, MpmcQueue.Contents, ObjectPool.Valid, Holds, InHand, NodeOk, Distinct, Calls;
      var node := TakeOldest();
      if node == null { return false; }
      Deliver(node, old(pending)[0]);
      return true;
    }

    /** Everything queued, oldest first: each post's callbacks, in order. */
    method DispatchAll() returns (count: nat)
      requires Valid()
      modifies this, queue, queue.seqs, queue.data, pool, nodes, payloads
      ensures Valid() && pending == [] && count == old(|pending|)
      ensures trace == old(trace) + AllCalls(old(pending))
    {
      hide MpmcQueue.Valid, MpmcQueue.Contents, ObjectPool.Valid, Holds, NodeOk, Distinct, Calls, AllCalls;
      count := 0;
      ghost var posts := pending;
      CallsMove(trace, pending);
      var more := DispatchOne();
      FirstGone(posts, pending, more);
      FirstGone(old(nodes), nodes, more);
      while more
        invariant Valid() && payloads == old(payloads)
        invariant DrainedTo(old(nodes), nodes, count + if more then 1 else 0)
        invariant DrainedTo(posts, pending, count + if more then 1 else 0)
        invariant !more ==> pending == []
        invariant trace + AllCalls(pending) == old(trace) + AllCalls(posts)
        decreases |pending|, more
      {
        count := count + 1;
        ghost var ps, ns := pending, nodes;
        CallsMove(trace, pending);
        more := DispatchOne();
        NextGone(posts, ps, pending, count, more);
        NextGone(old(nodes), ns, nodes, count, more);
      }
      NothingLeft(posts, pending, count);
      CallsMove(trace, pending);
    }
  }

  function AllCalls(ps: seq<Posted>): seq<Called> {
    if ps == [] then [] else Calls(ps[0]) + AllCalls(ps[1..])
  }

  lemma CallsMove(before: seq<Called>, ps: seq<Posted>)
    ensures ps != [] ==> (before + Calls(ps[0])) + AllCalls(ps[1..]) == before + AllCalls(ps)
    ensures ps == [] ==> before + AllCalls(ps) == before
  {
  }

  lemma FirstGone<T>(was: seq<T>, rest: seq<T>, more: bool)
    requires more <==> was != []
    requires rest == if more then was[1..] else []
    ensures DrainedTo(was, rest, if more then 1 else 0)
  {
  }

  lemma NextGone<T>(was: seq<T>, now: seq<T>, rest: seq<T>, n: nat, more: bool)
    requires DrainedTo(was, now, n) && (more <==> now != [])
    requires rest == if more then now[1..] else []
    ensures DrainedTo(was, rest, n + if more then 1 else 0)
  {
  }

  lemma NothingLeft<T>(was: seq<T>, rest: seq<T>, n: nat)
    requires DrainedTo(was, rest, n) && rest == []
    ensures n == |was|
  {
  }
}
