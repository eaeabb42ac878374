/** What the requests of handlers amount to: the messages they leave in the queue and the
    observers they leave registered (src/eventqueue.cpp:107-253 and 354-367, called from
    handlers). */
module EventQueueRequests {
  import opened Sequences
  import opened Observers
  import opened EventQueueClass

  /** Every valid post puts one new message behind the others, with what was posted, in the
      order of the posts; nothing else gets into the queue, and nothing leaves it. */
  lemma {:induction false} RequestsQueueInOrder(c: Contents, rs: seq<Request>)
    ensures var c' := ServedAll(c, rs);
            var posts := Filter(rs, (r: Request) => r.PostRequest? && r.topic >= 0);
            && c'.nextMessage == c.nextMessage + |posts|
            && c'.queue == c.queue + seq(|posts|, (i: nat) => c.nextMessage + i)
            && forall i :: 0 <= i < |posts| ==>
                 && posts[i].PostRequest? && c.nextMessage + i in c'.heap
                 && c'.heap[c.nextMessage + i] == Message(posts[i].topic, posts[i].obj, posts[i].cleanup)
    decreases |rs|
  {
    if rs != [] { RequestsQueueInOrder(c, rs[..|rs| - 1]); }
  }

  // ----- registrations -----

  function At(c: Contents, topic: int): seq<Descriptor> {
    if topic in c.observers then c.observers[topic] else []
  }

  ghost predicate Registry(c: Contents) {
    forall topic :: topic in c.observers ==>
      DistinctIds(c.observers[topic]) &&
      forall i :: 0 <= i < |c.observers[topic]| ==> c.observers[topic][i].id < c.nextId
  }

  /** The request removes descriptor d from the topic. */
  predicate Hits(r: Request, topic: int, d: Descriptor) {
    && r.RemoveRequest? && r.topic == topic
    && match r.what
       case ByCallback(callback) => d.callback == callback
       case ByMethod(instance, classMethod) => d.instance == instance && d.classMethod == classMethod
       case ById(id) => id != 0 && d.id == id
  }

  predicate Spared(rs: seq<Request>, from: nat, topic: int, d: Descriptor) {
    forall j :: from <= j < |rs| ==> !Hits(rs[j], topic, d)
  }

  /** Request i adds d to the topic; ids are given out in the order of the valid additions. */
  predicate AddedBy(c: Contents, rs: seq<Request>, i: nat, topic: int, d: Descriptor)
    requires i < |rs|
  {
    && rs[i].AddRequest? && rs[i].topic == topic >= 0
    && d == rs[i].observer.(id := c.nextId + |Filter(rs[..i], (r: Request) => r.AddRequest? && r.topic >= 0)|)
  }

  lemma ServedOne(c: Contents, r: Request, topic: int, d: Descriptor)
    requires Registry(c)
    ensures Registry(Served(c, r))
    ensures d in At(Served(c, r), topic) <==>
              || (d in At(c, topic) && !Hits(r, topic, d))
              || (r.AddRequest? && r.topic == topic >= 0 && d == r.observer.(id := c.nextId))
  {
    if r.RemoveRequest? && r.what != ById(0) && r.topic in c.observers {
      var ds := c.observers[r.topic];
      EraseKeepsTheRest(ds, r.what);
      EraseKeepsBound(ds, r.what, c.nextId);
    }
  }

  lemma SparedNext(rs: seq<Request>, r: Request, from: nat, topic: int, d: Descriptor)
    requires from <= |rs|
    ensures Spared(rs + [r], from, topic, d) <==> Spared(rs, from, topic, d) && !Hits(r, topic, d)
  {
    hide Hits;
    assert (rs + [r])[|rs|] == r;
    assert forall j :: from <= j < |rs| ==> (rs + [r])[j] == rs[j];
  }

  /** It was registered before or is added by some request, and is not removed afterwards. */
  ghost predicate Remains(c: Contents, rs: seq<Request>, topic: int, d: Descriptor) {
    || (d in At(c, topic) && Spared(rs, 0, topic, d))
    || exists i: nat | i < |rs| :: AddedBy(c, rs, i, topic, d) && Spared(rs, i + 1, topic, d)
  }

  lemma RemainsNext(c: Contents, rs: seq<Request>, r: Request, topic: int, d: Descriptor)
    requires r.AddRequest? ==> !Hits(r, topic, d)
    ensures Remains(c, rs + [r], topic, d) <==>
              (Remains(c, rs, topic, d) && !Hits(r, topic, d)) || AddedBy(c, rs + [r], |rs|, topic, d)
  {
    hide Hits, At;
    var all := rs + [r];
    forall from: nat | from <= |rs|
      ensures Spared(all, from, topic, d) <==> Spared(rs, from, topic, d) && !Hits(r, topic, d)
    {
      SparedNext(rs, r, from, topic, d);
    }
    forall i: nat | i < |rs| ensures AddedBy(c, all, i, topic, d) == AddedBy(c, rs, i, topic, d) {
      assert all[..i] == rs[..i];
    }
    if Remains(c, rs, topic, d) && !Hits(r, topic, d) && !(d in At(c, topic) && Spared(rs, 0, topic, d)) {
      var i: nat :| i < |rs| && AddedBy(c, rs, i, topic, d) && Spared(rs, i + 1, topic, d);
      assert AddedBy(c, all, i, topic, d) && Spared(all, i + 1, topic, d);
    }
    if AddedBy(c, all, |rs|, topic, d) { assert Spared(all, |rs| + 1, topic, d); }
  }

  /** After the requests an observer is registered under a topic if and only if it was, or one
      of them added it, and none of them removed it afterwards. */
  lemma {:induction false} RequestsDecideRegistration(c: Contents, rs: seq<Request>, topic: int, d: Descriptor)
    requires Registry(c)
    ensures var c' := ServedAll(c, rs);
            && Registry(c') && c'.nextId == c.nextId + |Filter(rs, (r: Request) => r.AddRequest? && r.topic >= 0)|
            && (d in At(c', topic) <==> Remains(c, rs, topic, d))
    decreases |rs|
  {
    hide Served, Registry, Hits, At, Spared;
    if rs == [] {
      NothingAsked(c, topic, d);
    } else {
      hide Remains;
      var n := |rs| - 1;
      var c1 := ServedAll(c, rs[..n]);
      RequestsDecideRegistration(c, rs[..n], topic, d);
      ServedOne(c1, rs[n], topic, d);
      NextIdAfter(c1, rs[n]);
      if rs[n].AddRequest? { AddHitsNothing(rs[n], topic, d); }
      RemainsNext(c, rs[..n], rs[n], topic, d);
      assert rs[..n] + [rs[n]] == rs;
    }
  }

  lemma NothingAsked(c: Contents, topic: int, d: Descriptor)
    ensures Spared([], 0, topic, d)
  {
  }

  lemma NextIdAfter(c: Contents, r: Request)
    ensures Served(c, r).nextId == c.nextId + if r.AddRequest? && r.topic >= 0 then 1 else 0
  {
  }

  lemma AddHitsNothing(r: Request, topic: int, d: Descriptor)
    requires r.AddRequest?
    ensures !Hits(r, topic, d)
  {
  }

  // ----- which requests are made -----

  /** The handlers' requests are made one handler after the other, in the order of the calls;
      handlers beyond the script ask for nothing. */
  lemma {:induction false} ScriptInOrder(script: seq<seq<Request>>, j: nat, k: nat)
    requires j < k
    ensures Requests(script, 0) == []
    ensures Requests(script, j) + (if j < |script| then script[j] else []) <= Requests(script, k)
    ensures k == j + 1 ==> Requests(script, k) == Requests(script, j) + if j < |script| then script[j] else []
    decreases k
  {
    if j + 1 < k { ScriptInOrder(script, j, k - 1); }
  }
}
