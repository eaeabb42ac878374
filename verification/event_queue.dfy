/** `EventQueue` as the object one thread uses (src/eventqueue.h, src/eventqueue.cpp): the
    observer vectors edited in place, the message queue, and `Dispatch` with handlers that
    call back into the queue. Module Removal covers what several threads do to each other. */
module EventQueueClass {
  import opened Observers
  import opened Sequences

  /** A queued message; `obj` 0 stands for a null payload. */
  datatype Message = Message(tid: int, obj: nat, cleanupPayload: bool)

  /** A pointer to a message on the heap. */
  datatype MessagePtr = Null | Ref(m: nat)

  /** What a running handler may ask of the queue. */
  datatype Request =
    | AddRequest(topic: int, observer: Descriptor)
    | RemoveRequest(topic: int, what: Match)
    | PostRequest(topic: int, obj: nat, cleanup: bool)

  /** Which function gets called. */
  datatype Target = Callback(f: nat) | Method(instance: nat, f: nat) | Function(f: nat)

  /** One invocation: the function, and the topic and message it is given. */
  datatype Invocation = Invocation(target: Target, topic: int, message: nat)

  /** The contents of the queue object: vectors, id counter, message queue, and the heap of
      messages and payloads that exist. */
  datatype Contents = Contents(
    observers: map<int, seq<Descriptor>>, nextId: nat,
    queue: seq<nat>, heap: map<nat, Message>, nextMessage: nat, payloads: set<nat>)

  function Added(c: Contents, topic: int, d: Descriptor): Contents {
    if topic < 0 then c else
    var ds := if topic in c.observers then c.observers[topic] else [];
    c.(observers := c.observers[topic := ds + [d.(id := c.nextId)]], nextId := c.nextId + 1)
  }

  function Removed(c: Contents, topic: int, m: Match): Contents {
    if m == ById(0) || topic !in c.observers then c
    else c.(observers := c.observers[topic := Erase(c.observers[topic], m)])
  }

  function Posted(c: Contents, topic: int, obj: nat, cleanup: bool): Contents {
    if topic < 0 then c else
    c.(queue := c.queue + [c.nextMessage], heap := c.heap[c.nextMessage := Message(topic, obj, cleanup)],
       nextMessage := c.nextMessage + 1)
  }

  function Served(c: Contents, r: Request): Contents {
    match r
    case AddRequest(topic, d) => Added(c, topic, d)
    case RemoveRequest(topic, m) => Removed(c, topic, m)
    case PostRequest(topic, obj, cleanup) => Posted(c, topic, obj, cleanup)
  }

  function ServedAll(c: Contents, rs: seq<Request>): Contents
    decreases |rs|
  {
    if rs == [] then c else Served(ServedAll(c, rs[..|rs| - 1]), rs[|rs| - 1])
  }

  /** What the k-th handler asks for; beyond the script, nothing. */
  function Asked(script: seq<seq<Request>>, k: nat): seq<Request> {
    if k < |script| then script[k] else []
  }

  /** The requests of the first `k` handler invocations, in order. */
  function Requests(script: seq<seq<Request>>, k: nat): seq<Request> {
    if k == 0 then [] else Requests(script, k - 1) + Asked(script, k - 1)
  }

  /** The call a descriptor stands for: callback, else method with instance, else function. */
  function Calls(d: Descriptor, topic: int, m: nat): seq<Invocation> {
    if d.callback != 0 then [Invocation(Callback(d.callback), topic, m)]
    else if d.classMethod != 0 && d.instance != 0 then [Invocation(Method(d.instance, d.classMethod), topic, m)]
    else if d.func != 0 then [Invocation(Function(d.func), topic, m)]
    else []
  }

  function CallsOf(ds: seq<Descriptor>, topic: int, m: nat): seq<Invocation>
    decreases |ds|
  {
    if ds == [] then [] else CallsOf(ds[..|ds| - 1], topic, m) + Calls(ds[|ds| - 1], topic, m)
  }

  lemma CallsOfNext(ds: seq<Descriptor>, topic: int, m: nat, k: nat)
    requires k < |ds|
    ensures CallsOf(ds[..k + 1], topic, m) == CallsOf(ds[..k], topic, m) + Calls(ds[k], topic, m)
  {
    assert ds[..k + 1][..k] == ds[..k];
  }

  /** The calls one by one: each descriptor that has something to call is called once, in
      order; its callback comes before its method, and that before its function object. */
  lemma {:induction false} CallsByIndex(ds: seq<Descriptor>, topic: int, m: nat)
    ensures var cs := CallsOf(ds, topic, m);
            var callable := Filter(ds, (d: Descriptor) =>
              d.callback != 0 || (d.instance != 0 && d.classMethod != 0) || d.func != 0);
            && |cs| == |callable|
            && forall k :: 0 <= k < |cs| ==>
                 && cs[k].topic == topic && cs[k].message == m
                 && cs[k].target == if callable[k].callback != 0 then Callback(callable[k].callback)
                                    else if callable[k].instance != 0 && callable[k].classMethod != 0
                                    then Method(callable[k].instance, callable[k].classMethod)
                                    else Function(callable[k].func)
    decreases |ds|
  {
    if ds != [] { CallsByIndex(ds[..|ds| - 1], topic, m); }
  }

  lemma AllCallable(ds: seq<Descriptor>)
    requires forall d :: d in ds ==> d.callback != 0 || (d.instance != 0 && d.classMethod != 0) || d.func != 0
    ensures Filter(ds, (d: Descriptor) =>
              d.callback != 0 || (d.instance != 0 && d.classMethod != 0) || d.func != 0) == ds
  {
    FilterAll(ds, (d: Descriptor) => d.callback != 0 || (d.instance != 0 && d.classMethod != 0) || d.func != 0);
  }

  lemma {:induction false} ServedAllAppend(c: Contents, a: seq<Request>, b: seq<Request>)
    ensures ServedAll(c, a + b) == ServedAll(ServedAll(c, a), b)
    decreases |b|
  {
    if b == [] {
      assert a + b == a;
    } else {
      assert (a + b)[..|a + b| - 1] == a + b[..|b| - 1];
      ServedAllAppend(c, a, b[..|b| - 1]);
    }
  }

  /** Handlers cannot reach the message being delivered: it stays on the heap as it was. */
  lemma {:induction false} RequestsKeepMessages(c: Contents, rs: seq<Request>)
    requires forall m :: m in c.heap ==> m < c.nextMessage
    ensures var c' := ServedAll(c, rs);
            && c.nextMessage <= c'.nextMessage && c'.payloads == c.payloads
            && (forall m :: m in c'.heap ==> m < c'.nextMessage)
            && (forall m :: m in c.heap ==> m in c'.heap && c'.heap[m] == c.heap[m])
    decreases |rs|
  {
    if rs != [] { RequestsKeepMessages(c, rs[..|rs| - 1]); }
  }

  /** The erase loop of the three removals: every match goes, or the first one for an id. */
  method EraseMatching(observers: seq<Descriptor>, m: Match) returns (ds: seq<Descriptor>)
    ensures ds == Erase(observers, m)
    ensures DistinctIds(observers) ==>
              && (m.ByCallback? ==> ds == Filter(observers, (d: Descriptor) => d.callback != m.callback))
              && (m.ByMethod? ==>
                    ds == Filter(observers, (d: Descriptor) =>
                      d.instance != m.instance || d.classMethod != m.classMethod))
              && (m.ById? ==> ds == Filter(observers, (d: Descriptor) => d.id != m.id))
  {
    if DistinctIds(observers) { EraseByFields(observers, m); }
    ds := observers;
    var i := 0;
    while i < |ds|
      invariant i <= |ds|
      invariant ds[..i] + Erase(ds[i..], m) == Erase(observers, m)
      decreases |ds| - i
    {
      EraseAtIndex(ds, i, m);
      if Matches(ds[i], m) {
        ds := ds[..i] + ds[i + 1..];
        if m.ById? {
          return;
        }
      } else {
        i := i + 1;
      }
    }
    assert ds[i..] == [] && ds[..i] == ds;
  }

  class EventQueue {
    var observers: map<int, seq<Descriptor>>
    var nextId: nat
    var queue: seq<nat>
    var heap: map<nat, Message>
    var nextMessage: nat
    var payloads: set<nat>
    var activeDispatches: int
    var inDispatch: bool

    function View(): Contents
      reads this
    {
      Contents(observers, nextId, queue, heap, nextMessage, payloads)
    }

    /** Vectors hold distinct ids below the counter, messages are allocated below theirs, and
        the only dispatch that can be active is this thread's. */
    ghost predicate Valid()
      reads this
    {
      && (forall topic :: topic in observers ==>
            DistinctIds(observers[topic]) &&
            forall i :: 0 <= i < |observers[topic]| ==> observers[topic][i].id < nextId)
      && (forall m :: m in heap ==> m < nextMessage)
      && (forall i :: 0 <= i < |queue| ==> queue[i] in heap)
      && activeDispatches == (if inDispatch then 1 else 0)
    }

    constructor ()
      ensures Valid() && View() == Contents(map[], 1, [], map[], 0, {}) && !inDispatch
    {
      observers, nextId, queue, heap, nextMessage, payloads := map[], 1, [], map[], 0, {};
      activeDispatches, inDispatch := 0, false;
    }

    /** Returns the new observer's id, or 0 for an invalid topic. */
    method AddObserver(topic: int, d: Descriptor) returns (id: nat)
      requires Valid()
      modifies this
      ensures Valid() && View() == Added(old(View()), topic, d) && inDispatch == old(inDispatch)
      ensures topic < 0 ==> id == 0 && View() == old(View())
      ensures topic >= 0 ==>
                && id == old(nextId) && View() == old(View()).(observers := observers, nextId := id + 1)
                && topic in observers
                && observers[topic] == (if topic in old(observers) then old(observers[topic]) else []) + [d.(id := id)]
                && observers == old(observers)[topic := observers[topic]]
    {
      if topic < 0 {
        return 0;
      }
      id := nextId;
      nextId := nextId + 1;
      if topic !in observers {
        observers := observers[topic := []];
      }
      observers := observers[topic := observers[topic] + [d.(id := id)]];
    }

    /** The erase loop on the topic's vector; then the wait, which inside a handler is skipped
        and outside finds no dispatch of this thread. */
    method RemoveObserver(topic: int, m: Match)
      requires Valid()
      modifies this
      ensures Valid() && View() == Removed(old(View()), topic, m) && inDispatch == old(inDispatch)
      ensures View() == old(View()).(observers := observers)
      ensures m == ById(0) || topic !in old(observers) ==> observers == old(observers)
      ensures m != ById(0) && topic in old(observers) ==>
                && topic in observers && observers == old(observers)[topic := observers[topic]]
                && (m.ByCallback? ==>
                      observers[topic] == Filter(old(observers[topic]), (d: Descriptor) => d.callback != m.callback))
                && (m.ByMethod? ==>
                      observers[topic] == Filter(old(observers[topic]), (d: Descriptor) =>
                        d.instance != m.instance || d.classMethod != m.classMethod))
                && (m.ById? ==> observers[topic] == Filter(old(observers[topic]), (d: Descriptor) => d.id != m.id))
    {
      if m == ById(0) {
        return;
      }
      if topic in observers {
        var rest := EraseMatching(observers[topic], m);
        EraseKeepsTheRest(observers[topic], m);
        EraseKeepsBound(observers[topic], m, nextId);
        EraseByFields(observers[topic], m);
        observers := observers[topic := rest];
      }
      if inDispatch {
        return;
      }
      assert activeDispatches == 0;
    }

    method Post(topic: int, obj: nat, cleanup: bool)
      requires Valid()
      modifies this
      ensures Valid() && View() == Posted(old(View()), topic, obj, cleanup) && inDispatch == old(inDispatch)
      ensures topic < 0 ==> View() == old(View())
      ensures topic >= 0 ==>
                var m := old(nextMessage);
                && View() == old(View()).(queue := queue, heap := heap, nextMessage := m + 1)
                && m !in old(heap) && heap == old(heap)[m := Message(topic, obj, cleanup)]
                && queue == old(queue) + [m]
    {
      if topic >= 0 {
        heap := heap[nextMessage := Message(topic, obj, cleanup)];
        queue := queue + [nextMessage];
        nextMessage := nextMessage + 1;
      }
    }

    /** The front of the message queue, or null. */
    method GetQueueMessage() returns (p: MessagePtr)
      requires Valid()
      modifies this
      ensures Valid() && inDispatch == old(inDispatch)
      ensures p == if old(queue) == [] then Null else Ref(old(queue)[0])
      ensures View() == old(View()).(queue := if old(queue) == [] then [] else old(queue)[1..])
    {
      if queue == [] {
        return Null;
      }
      p := Ref(queue[0]);
      queue := queue[1..];
    }

    method Serve(r: Request)
      requires Valid()
      modifies this
      ensures Valid() && View() == Served(old(View()), r) && inDispatch == old(inDispatch)
    {
      match r
      case AddRequest(topic, d) => var id := AddObserver(topic, d);
      case RemoveRequest(topic, m) => RemoveObserver(topic, m);
      case PostRequest(topic, obj, cleanup) => Post(topic, obj, cleanup);
    }

    /** One handler invocation makes its requests. */
    method RunHandler(rs: seq<Request>)
      requires Valid()
      modifies this
      ensures Valid() && View() == ServedAll(old(View()), rs) && inDispatch == old(inDispatch)
    {
      for i := 0 to |rs|
        invariant Valid() && View() == ServedAll(old(View()), rs[..i]) && inDispatch == old(inDispatch)
      {
        assert rs[..i + 1][..i] == rs[..i];
        Serve(rs[i]);
      }
      assert rs[..|rs|] == rs;
    }

    /** Delivers a message that has left the queue. `script[k]` is what the k-th handler asks
        of the queue. Whatever it is, the handlers called are those of the observers registered
        when `Dispatch` began, once each and in registration order; afterwards the message is
        deleted, and its payload exactly when it is to be cleaned up. */
    method Dispatch(topic: int, p: MessagePtr, script: seq<seq<Request>>) returns (trace: seq<Invocation>)
      requires Valid() && !inDispatch
      requires p.Ref? ==> p.m in heap && p.m !in queue
      modifies this
      ensures Valid() && !inDispatch
      ensures p == Null ==> trace == [] && View() == old(View())
      ensures p.Ref? ==>
        var before := old(View());
        var ds := if topic in before.observers then before.observers[topic] else [];
        var served := ServedAll(before, Requests(script, |ds|));
        && (var callable := Filter(ds, (d: Descriptor) =>
              d.callback != 0 || (d.instance != 0 && d.classMethod != 0) || d.func != 0);
            && ((forall d :: d in ds ==> d.callback != 0 || (d.instance != 0 && d.classMethod != 0) || d.func != 0) ==>
                  callable == ds)
            && |trace| == |callable|
            && forall k :: 0 <= k < |trace| ==>
                 && trace[k].topic == topic && trace[k].message == p.m
                 && trace[k].target == if callable[k].callback != 0 then Callback(callable[k].callback)
                                       else if callable[k].instance != 0 && callable[k].classMethod != 0
                                       then Method(callable[k].instance, callable[k].classMethod)
                                       else Function(callable[k].func))
        && View() == served.(
             heap := served.heap - {p.m},
             payloads := before.payloads - if before.heap[p.m].cleanupPayload && before.heap[p.m].obj != 0
                                           then {before.heap[p.m].obj} else {})
    {
      hide Filter, CallsOf, ServedAll, Requests;
      trace := [];
      if p == Null {
        return;
      }
      var snapshot := [];
      if topic in observers {
        snapshot := observers[topic];
      }
      activeDispatches, inDispatch := activeDispatches + 1, true;
      trace := InvokeAll(snapshot, topic, p.m, script);
      if forall d :: d in snapshot ==> d.callback != 0 || (d.instance != 0 && d.classMethod != 0) || d.func != 0 {
        AllCallable(snapshot);
      }
      CallsByIndex(snapshot, topic, p.m);
      inDispatch, activeDispatches := false, activeDispatches - 1;
      RequestsKeepMessages(old(View()), Requests(script, |snapshot|));
      RequestsQueueOthers(old(View()), Requests(script, |snapshot|), p.m);
      var message := heap[p.m];
      if message.cleanupPayload && message.obj != 0 {
        payloads := payloads - {message.obj};
      }
      heap := heap - {p.m};
    }

    /** The invocation loop over the snapshot. */
    method InvokeAll(snapshot: seq<Descriptor>, topic: int, m: nat, script: seq<seq<Request>>)
      returns (trace: seq<Invocation>)
      requires Valid() && inDispatch
      modifies this
      ensures Valid() && inDispatch
      ensures trace == CallsOf(snapshot, topic, m) && View() == ServedAll(old(View()), Requests(script, |snapshot|))
    {
      trace := [];
      for k := 0 to |snapshot|
        invariant Valid() && inDispatch
        invariant trace == CallsOf(snapshot[..k], topic, m)
        invariant View() == ServedAll(old(View()), Requests(script, k))
      {
        CallsOfNext(snapshot, topic, m, k);
        var call := Invoke(snapshot[k], topic, m);
        trace := trace + call;
        ServedAllAppend(old(View()), Requests(script, k), Asked(script, k));
        RunHandler(Asked(script, k));
      }
      assert snapshot[..|snapshot|] == snapshot;
    }

    /** Which function of a descriptor gets called. */
    method Invoke(d: Descriptor, topic: int, m: nat) returns (call: seq<Invocation>)
      ensures call == Calls(d, topic, m)
    {
      if d.callback != 0 {
        call := [Invocation(Callback(d.callback), topic, m)];
      } else if d.classMethod != 0 && d.instance != 0 {
        call := [Invocation(Method(d.instance, d.classMethod), topic, m)];
      } else if d.func != 0 {
        call := [Invocation(Function(d.func), topic, m)];
      } else {
        call := [];
      }
    }
  }

  lemma EraseAtIndex(ds: seq<Descriptor>, i: nat, m: Match)
    requires i < |ds|
    ensures Matches(ds[i], m) ==>
      var rest := ds[..i] + ds[i + 1..];
      && rest[..i] == ds[..i]
      && (if m.ById? then ds[..i] + Erase(ds[i..], m) == rest
          else ds[..i] + Erase(ds[i..], m) == rest[..i] + Erase(rest[i..], m))
    ensures !Matches(ds[i], m) ==> ds[..i] + Erase(ds[i..], m) == ds[..i + 1] + Erase(ds[i + 1..], m)
  {
    assert ds[i..][1..] == ds[i + 1..];
    assert (ds[..i] + ds[i + 1..])[i..] == ds[i + 1..];
  }

  lemma EraseKeepsBound(ds: seq<Descriptor>, m: Match, n: nat)
    requires DistinctIds(ds) && forall i :: 0 <= i < |ds| ==> ds[i].id < n
    ensures forall i :: 0 <= i < |Erase(ds, m)| ==> Erase(ds, m)[i].id < n
  {
    EraseKeepsTheRest(ds, m);
    forall i | 0 <= i < |Erase(ds, m)| ensures Erase(ds, m)[i].id < n {
      assert Erase(ds, m)[i] in ds;
    }
  }

  lemma {:induction false} RequestsQueueOthers(c: Contents, rs: seq<Request>, m: nat)
    requires m < c.nextMessage && m !in c.queue
    ensures m !in ServedAll(c, rs).queue && c.nextMessage <= ServedAll(c, rs).nextMessage
    decreases |rs|
  {
    if rs != [] { RequestsQueueOthers(c, rs[..|rs| - 1], m); }
  }
}
