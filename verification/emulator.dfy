/** `EventQueueEmulator` (src/eventqueue_emulator.h): topics with a priority, a fast and a
    bulk queue, and the loops that schedule between them. One caller at a time here, over two
    ring objects; module Fairness lets producers interleave. */
module EmulatorClass {
  import opened Bits
  import Ring
  import opened MpmcQueueClass
  import opened Schedules
  import opened Sequences

  const MAX_TOPICS := 256
  const INLINE_MAX := 48
  const MAX_OBSERVERS := 8
  const NO_TOPIC := 0xFFFF

  datatype Observer = Observer(callback: nat, userData: nat)

  datatype TopicInfo = TopicInfo(critical: bool, observers: seq<Observer>)

  datatype FastMessage = FastMessage(topicId: nat, observers: seq<Observer>, data: seq<nat>)

  /** The body of a bulk message: inline bytes, or its own counted payload. */
  datatype Body = Inline(data: seq<nat>) | Managed(data: seq<nat>, refCount: int)

  datatype BulkMessage = BulkMessage(topicId: nat, observers: seq<Observer>, body: Body)

  /** What the outside sees: callbacks, and payloads being deleted. */
  datatype Event = Called(observer: Observer, topic: nat, data: seq<nat>) | Freed(data: seq<nat>)

  /** The callbacks of one message: each observer of its snapshot once, in order. */
  function Calls(topic: nat, observers: seq<Observer>, data: seq<nat>): (es: seq<Event>)
    ensures |es| == |observers|
  {
    seq(|observers|, i requires 0 <= i < |observers| => Called(observers[i], topic, data))
  }

  /** The trace has grown by one callback for each observer, the k-th for observer k with the
      topic and the bytes, and by the deletion of the payload if it was counted. */
  predicate CallsAdded(
    before: seq<Event>, after: seq<Event>, topic: nat, observers: seq<Observer>, data: seq<nat>, freed: bool)
  {
    && before <= after && |after| == |before| + |observers| + (if freed then 1 else 0)
    && (forall k :: 0 <= k < |observers| ==> after[|before| + k] == Called(observers[k], topic, data))
    && (freed ==> after[|before| + |observers|] == Freed(data))
  }

  /** A managed payload is deleted once, after the last callback. */
  function EventsOf(m: Served<FastMessage, BulkMessage>): seq<Event> {
    match m
    case Fast(f) => Calls(f.topicId, f.observers, f.data)
    case Bulk(b) => Calls(b.topicId, b.observers, b.body.data) + if b.body.Managed? then [Freed(b.body.data)] else []
  }

  function AllEvents(ms: seq<Served<FastMessage, BulkMessage>>): seq<Event> {
    if ms == [] then [] else AllEvents(ms[..|ms| - 1]) + EventsOf(ms[|ms| - 1])
  }

  /** How a post ends. With a full queue it does not: it tries again until another thread takes
      a message. */
  datatype Outcome = Refused | Accepted | Spinning

  /** One reference per callback to come. */
  predicate Counted(b: BulkMessage) {
    b.body.Managed? ==> b.body.refCount == |b.observers| > 0
  }

  class Emulator {
    const topics: array<TopicInfo>
    var topicCount: nat
    const fastQueue: MpmcQueue<FastMessage>
    const bulkQueue: MpmcQueue<BulkMessage>
    /** Callbacks and deletions so far, and the messages they belong to. */
    var trace: seq<Event>
    ghost var served: seq<Served<FastMessage, BulkMessage>>

    ghost function FastRepr(): set<object> {
      {fastQueue, fastQueue.seqs, fastQueue.data}
    }

    ghost function BulkRepr(): set<object> {
      {bulkQueue, bulkQueue.seqs, bulkQueue.data}
    }

    ghost predicate Apart() {
      this !in FastRepr() + BulkRepr() && FastRepr() !! BulkRepr() && topics !in FastRepr() + BulkRepr() + {this}
    }

    ghost predicate Valid()
      reads this, topics, FastRepr(), BulkRepr()
    {
      && Apart() && topics.Length == MAX_TOPICS && topicCount <= MAX_TOPICS
      && fastQueue.Valid() && bulkQueue.Valid()
      && (forall i :: 0 <= i < MAX_TOPICS ==> |topics[i].observers| <= MAX_OBSERVERS)
      && (forall i :: 0 <= i < |bulkQueue.Contents()| ==> Counted(bulkQueue.Contents()[i]))
      && trace == AllEvents(served)
    }

    /** The queued messages, oldest first. */
    ghost function FastItems(): seq<FastMessage>
      reads this, topics, FastRepr(), BulkRepr()
      requires Valid()
    {
      fastQueue.Contents()
    }

    ghost function BulkItems(): seq<BulkMessage>
      reads this, topics, FastRepr(), BulkRepr()
      requires Valid()
    {
      bulkQueue.Contents()
    }

    /** `junk` is what the uninitialised priorities hold. */
    constructor (fastCapacity: nat, bulkCapacity: nat, junk: bool)
      requires fastCapacity >= 2 && IsPowerOfTwo(fastCapacity) && bulkCapacity >= 2 && IsPowerOfTwo(bulkCapacity)
      ensures Valid() && fresh(topics) && fresh(FastRepr()) && fresh(BulkRepr())
      ensures fastQueue.capacity == fastCapacity && bulkQueue.capacity == bulkCapacity
      ensures FastItems() == [] && BulkItems() == [] && topicCount == 0 && served == []
    {
      topics := new TopicInfo[MAX_TOPICS](_ => TopicInfo(junk, []));
      topicCount, trace, served := 0, [], [];
      fastQueue := new MpmcQueue(fastCapacity);
      bulkQueue := new MpmcQueue(bulkCapacity);
    }

    /** A new topic id; at 256 topics the count is rolled back and no id is given. */
    method RegisterTopic(critical: bool) returns (id: nat)
      requires Valid()
      modifies this`topicCount, topics
      ensures Valid()
      ensures old(topicCount) < MAX_TOPICS ==>
                id == old(topicCount) && topicCount == old(topicCount) + 1
                && topics[..] == old(topics[..])[id := old(topics[id]).(critical := critical)]
      ensures old(topicCount) >= MAX_TOPICS ==>
                id == NO_TOPIC && topicCount == old(topicCount) && topics[..] == old(topics[..])
    {
      id := topicCount;
      topicCount := topicCount + 1;
      if id >= MAX_TOPICS {
        topicCount := topicCount - 1;
        return NO_TOPIC;
      }
      topics[id] := topics[id].(critical := critical);
    }

    method AddObserver(topicId: nat, observer: Observer) returns (ok: bool)
      requires Valid()
      modifies topics
      ensures Valid()
      ensures ok <==> topicId < MAX_TOPICS && old(|topics[topicId].observers|) < MAX_OBSERVERS
      ensures topics[..] ==
              if ok then
                old(topics[..])[topicId :=
                  old(topics[topicId]).(observers := old(topics[topicId].observers) + [observer])]
              else old(topics[..])
    {
      if topicId >= MAX_TOPICS { return false; }
      var info := topics[topicId];
      if |info.observers| >= MAX_OBSERVERS { return false; }
      topics[topicId] := info.(observers := info.observers + [observer]);
      return true;
    }

    method PostFast(topicId: nat, data: seq<nat>) returns (r: Outcome)
      requires Valid()
      modifies FastRepr()
      ensures Valid()
      ensures r == if topicId >= MAX_TOPICS || |data| > INLINE_MAX then Refused
                   else if topics[topicId].observers != [] && old(|FastItems()|) >= fastQueue.capacity then Spinning
                   else Accepted
      ensures FastItems() == old(FastItems()) +
                if r.Accepted? && topics[topicId].observers != []
                then [FastMessage(topicId, topics[topicId].observers, data)] else []
    {
      if topicId >= MAX_TOPICS || |data| > INLINE_MAX { return Refused; }
      var observers := topics[topicId].observers;
      if |observers| == 0 { return Accepted; }
      var retries: nat := *;
      var ok := fastQueue.TryPush(FastMessage(topicId, observers, data), retries);
      r := if ok then Accepted else Spinning;
    }

    method PostBulk(topicId: nat, data: seq<nat>) returns (r: Outcome)
      requires Valid()
      modifies BulkRepr()
      ensures Valid()
      ensures r == if topicId >= MAX_TOPICS then Refused
                   else if topics[topicId].observers != [] && old(|BulkItems()|) >= bulkQueue.capacity then Spinning
                   else Accepted
      ensures BulkItems() == old(BulkItems()) +
                if r.Accepted? && topics[topicId].observers != []
                then [NewBulk(topicId, topics[topicId].observers, data)] else []
      ensures r.Accepted? && topics[topicId].observers != [] ==>
                var b := BulkItems()[|old(BulkItems())|];
                && b.topicId == topicId && b.observers == topics[topicId].observers
                && b.body == if |data| <= INLINE_MAX then Inline(data) else Managed(data, |topics[topicId].observers|)
    {
      if topicId >= MAX_TOPICS { return Refused; }
      var observers := topics[topicId].observers;
      if |observers| == 0 { return Accepted; }
      var body := Inline(data);
      if |data| > INLINE_MAX {
        body := Managed(data, 1);
        if |observers| > 1 {
          body := body.(refCount := body.refCount + (|observers| - 1));
        }
      }
      var retries: nat := *;
      var ok := bulkQueue.TryPush(BulkMessage(topicId, observers, body), retries);
      r := if ok then Accepted else Spinning;
    }

    /** Routed by the priority of the topic: a critical topic takes small payloads only. */
    method Post(topicId: nat, data: seq<nat>) returns (r: Outcome)
      requires Valid()
      modifies FastRepr(), BulkRepr()
      ensures Valid()
      ensures r.Refused? <==> topicId >= MAX_TOPICS || (topics[topicId].critical && |data| > INLINE_MAX)
      ensures !r.Refused? ==>
                (r.Spinning? <==>
                  && topics[topicId].observers != []
                  && (topics[topicId].critical ==> old(|FastItems()|) >= fastQueue.capacity)
                  && (!topics[topicId].critical ==> old(|BulkItems()|) >= bulkQueue.capacity))
      ensures FastItems() == old(FastItems()) +
                if r.Accepted? && topics[topicId].critical && topics[topicId].observers != []
                then [FastMessage(topicId, topics[topicId].observers, data)] else []
      ensures BulkItems() == old(BulkItems()) +
                if r.Accepted? && !topics[topicId].critical && topics[topicId].observers != []
                then [NewBulk(topicId, topics[topicId].observers, data)] else []
    {
      if topicId >= MAX_TOPICS { return Refused; }
      if topics[topicId].critical {
        if |data| <= INLINE_MAX {
          r := PostFast(topicId, data);
          return;
        }
        return Refused;
      }
      r := PostBulk(topicId, data);
    }

    /** The callback loop of one fast message. */
    method CallFast(m: FastMessage)
      modifies this`trace
      ensures trace == old(trace) + EventsOf(Fast(m))
      ensures CallsAdded(old(trace), trace, m.topicId, m.observers, m.data, false)
    {
      for i := 0 to |m.observers|
        modifies this`trace
        invariant trace == old(trace) + Calls(m.topicId, m.observers, m.data)[..i]
      {
        trace := trace + [Called(m.observers[i], m.topicId, m.data)];
      }
    }

    /** The callback loop of one bulk message; `release` deletes the payload at count zero. */
    method CallBulk(m: BulkMessage)
      requires Counted(m)
      modifies this`trace
      ensures trace == old(trace) + EventsOf(Bulk(m))
      ensures CallsAdded(old(trace), trace, m.topicId, m.observers, m.body.data, m.body.Managed?)
    {
      var refs := if m.body.Managed? then m.body.refCount else 0;
      var count := |m.observers|;
      for i := 0 to count
        modifies this`trace
        invariant m.body.Managed? ==> refs == count - i
        invariant trace == old(trace) + Calls(m.topicId, m.observers, m.body.data)[..i]
                           + if m.body.Managed? && i == count then [Freed(m.body.data)] else []
      {
        trace := trace + [Called(m.observers[i], m.topicId, m.body.data)];
        if m.body.Managed? {
          refs := refs - 1;
          if refs == 0 {
            trace := trace + [Freed(m.body.data)];
          }
        }
      }
    }

    /** The oldest fast message: every observer of its snapshot is called once, in order. */
    method DispatchFast() returns (did: bool)
      requires Valid()
      modifies this`trace, this`served, FastRepr()
      ensures Valid()
      ensures did <==> old(FastItems()) != []
      ensures FastItems() == (if did then old(FastItems())[1..] else []) && BulkItems() == old(BulkItems())
      ensures served == old(served) + if did then [Fast(old(FastItems())[0])] else []
      ensures !did ==> trace == old(trace)
      ensures did ==>
                var m := old(FastItems())[0]; CallsAdded(old(trace), trace, m.topicId, m.observers, m.data, false)
    {
      hide CallsAdded, AllEvents, EventsOf, MpmcQueue.Valid, MpmcQueue.Contents;
      var retries: nat := *;
      var item := fastQueue.TryPop(retries);
      if item.None? { return false; }
      CallFast(item.value);
      OneMore(served, Fast(item.value));
      served := served + [Fast(item.value)];
      return true;
    }

    /** The oldest bulk message: likewise, and its payload lives until the last callback. */
    method DispatchBulk() returns (did: bool)
      requires Valid()
      modifies this`trace, this`served, BulkRepr()
      ensures Valid()
      ensures did <==> old(BulkItems()) != []
      ensures BulkItems() == (if did then old(BulkItems())[1..] else []) && FastItems() == old(FastItems())
      ensures served == old(served) + if did then [Bulk(old(BulkItems())[0])] else []
      ensures !did ==> trace == old(trace)
      ensures did ==>
                var m := old(BulkItems())[0];
                CallsAdded(old(trace), trace, m.topicId, m.observers, m.body.data, m.body.Managed?)
    {
      hide CallsAdded, AllEvents, EventsOf, MpmcQueue.Valid, MpmcQueue.Contents;
      var retries: nat := *;
      var item := bulkQueue.TryPop(retries);
      if item.None? { return false; }
      CallBulk(item.value);
      OneMore(served, Bulk(item.value));
      served := served + [Bulk(item.value)];
      return true;
    }

    /** `while (dispatchFast()) ++count`. */
    method DrainFast() returns (count: nat)
      requires Valid()
      modifies this`trace, this`served, FastRepr()
      ensures Valid() && FastItems() == [] && BulkItems() == old(BulkItems())
      ensures served == old(served) + AllFast(old(FastItems()))
      ensures count == old(|FastItems()|)
    {
      hide CallsAdded, Valid, FastItems, BulkItems, AllEvents, EventsOf;
      count := 0;
      ghost var fast := FastItems();
      var more := DispatchFast();
      while more
        invariant Valid() && BulkItems() == old(BulkItems())
        invariant DrainedTo(fast, FastItems(), count + if more then 1 else 0)
        invariant !more ==> FastItems() == []
        invariant served == old(served) + AllFast(fast)[..count + if more then 1 else 0]
        decreases |fast| - count
      {
        count := count + 1;
        more := DispatchFast();
        NextServed(old(served), AllFast<FastMessage, BulkMessage>(fast), count, more);
      }
    }

    method DrainBulk() returns (count: nat)
      requires Valid()
      modifies this`trace, this`served, BulkRepr()
      ensures Valid() && BulkItems() == [] && FastItems() == old(FastItems())
      ensures served == old(served) + AllBulk(old(BulkItems()))
      ensures count == old(|BulkItems()|)
    {
      hide CallsAdded, Valid, FastItems, BulkItems, AllEvents, EventsOf;
      count := 0;
      ghost var bulk := BulkItems();
      var more := DispatchBulk();
      while more
        invariant Valid() && FastItems() == old(FastItems())
        invariant DrainedTo(bulk, BulkItems(), count + if more then 1 else 0)
        invariant !more ==> BulkItems() == []
        invariant served == old(served) + AllBulk(bulk)[..count + if more then 1 else 0]
        decreases |bulk| - count
      {
        count := count + 1;
        more := DispatchBulk();
        NextServed(old(served), AllBulk<FastMessage, BulkMessage>(bulk), count, more);
      }
    }

    /** All fast messages, then at most one bulk message. */
    method DispatchPriority() returns (count: nat)
      requires Valid()
      modifies this`trace, this`served, FastRepr(), BulkRepr()
      ensures Valid() && FastItems() == []
      ensures var bulk := old(BulkItems());
              && BulkItems() == (if bulk == [] then [] else bulk[1..])
              && served == old(served) + AllFast(old(FastItems())) + (if bulk == [] then [] else [Bulk(bulk[0])])
              && count == old(|FastItems()|) + if bulk == [] then 0 else 1
    {
      hide CallsAdded, Valid, FastItems, BulkItems, AllEvents, EventsOf;
      count := DrainFast();
      var one := DispatchBulk();
      if one {
        count := count + 1;
      }
    }

    method DispatchAll() returns (count: nat)
      requires Valid()
      modifies this`trace, this`served, FastRepr(), BulkRepr()
      ensures Valid() && FastItems() == [] && BulkItems() == []
      ensures served == old(served) + AllFast(old(FastItems())) + AllBulk(old(BulkItems()))
      ensures count == old(|FastItems()| + |BulkItems()|)
    {
      hide CallsAdded, Valid, FastItems, BulkItems, AllEvents, EventsOf;
      count := DrainFast();
      var more := DrainBulk();
      count := count + more;
    }

    /** Serves both queues completely, in the order of the ratio schedule. */
    method DispatchRatio(fastPerBulk: nat) returns (count: nat)
      requires Valid()
      modifies this`trace, this`served, FastRepr(), BulkRepr()
      ensures Valid() && FastItems() == [] && BulkItems() == []
      ensures served == old(served) + Schedule(old(FastItems()), old(BulkItems()), fastPerBulk)
      ensures count == old(|FastItems()| + |BulkItems()|)
    {
      hide CallsAdded, Valid, FastItems, BulkItems, AllEvents, EventsOf, Schedule, Rest;
      count := 0;
      var fastCount := 0;
      WholeRest(FastItems(), BulkItems(), fastPerBulk);
      while true
        invariant Valid()
        invariant count + |FastItems()| + |BulkItems()| == old(|FastItems()| + |BulkItems()|)
        invariant served + Rest(FastItems(), BulkItems(), fastPerBulk, fastCount) ==
                  old(served) + Schedule(old(FastItems()), old(BulkItems()), fastPerBulk)
        decreases |FastItems()| + |BulkItems()|
      {
        ghost var fast, bulk, before := FastItems(), BulkItems(), served;
        if fastCount < fastPerBulk {
          var did := DispatchFast();
          if did {
            ServeFast(fast, bulk, fastPerBulk, fastCount);
            Associative(before, [Fast(fast[0])], Rest(FastItems(), BulkItems(), fastPerBulk, fastCount + 1));
            count, fastCount := count + 1, fastCount + 1;
            continue;
          }
        }
        var did := DispatchBulk();
        if did {
          ServeBulk(fast, bulk, fastPerBulk, fastCount);
          Associative(before, [Bulk(bulk[0])], Rest(FastItems(), BulkItems(), fastPerBulk, 0));
          count, fastCount := count + 1, 0;
          continue;
        }
        did := DispatchFast();
        if did {
          ServeFast(fast, bulk, fastPerBulk, fastCount);
          Associative(before, [Fast(fast[0])], Rest(FastItems(), BulkItems(), fastPerBulk, fastCount + 1));
          count, fastCount := count + 1, fastCount + 1;
          continue;
        }
        NothingToServe<FastMessage, BulkMessage>(fastPerBulk, fastCount);
        break;
      }
    }
  }

  lemma OneMore(ms: seq<Served<FastMessage, BulkMessage>>, m: Served<FastMessage, BulkMessage>)
    ensures AllEvents(ms + [m]) == AllEvents(ms) + EventsOf(m)
  {
    assert (ms + [m])[..|ms|] == ms;
  }

  lemma NextServed<T>(base: seq<T>, all: seq<T>, n: nat, more: bool)
    requires n <= |all| && (more ==> n < |all|)
    ensures more ==> base + all[..n] + [all[n]] == base + all[..n + 1]
  {
  }

  /** What `PostBulk` builds: inline up to 48 bytes, else a payload with one reference for
      each observer. */
  function NewBulk(topicId: nat, observers: seq<Observer>, data: seq<nat>): (b: BulkMessage)
    requires observers != []
    ensures Counted(b) && b.topicId == topicId && b.observers == observers && b.body.data == data
    ensures b.body.Managed? <==> |data| > INLINE_MAX
  {
    BulkMessage(topicId, observers, if |data| <= INLINE_MAX then Inline(data) else Managed(data, |observers|))
  }
}
