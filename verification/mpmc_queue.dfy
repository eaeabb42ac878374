/** The ring as the object a single caller uses: the methods of `MPMCQueue`
    (src/mpmc_queue.h) over its slot arrays, between the concurrent moments that
    module Ring covers. Each method performs the steps of module Ring. */
module MpmcQueueClass {
  import opened Bits
  import Ring
  import RingTheorems

  /** A state of module Ring with nothing in flight and no threads listed. */
  ghost predicate Quiet<T>(s: Ring.State<T>) {
    Ring.Inv(s) && s.writers == map[] && s.readers == map[] && s.threads == map[]
  }

  ghost function Pushed<T>(s: Ring.State<T>, x: T): Ring.State<T>
    requires Ring.Shape(s)
  {
    s.(tail := s.tail + 1, inserted := s.inserted + [x],
       data := s.data[Slot(s.tail, s.cap) := x], seqs := s.seqs[Slot(s.tail, s.cap) := s.tail + 1])
  }

  ghost function Popped<T>(s: Ring.State<T>): Ring.State<T>
    requires Ring.Shape(s)
  {
    s.(head := s.head + 1, seqs := s.seqs[Slot(s.head, s.cap) := s.head + s.cap])
  }

  lemma ThreadsChange<T>(s: Ring.State<T>, threads: map<nat, Ring.Local<T>>)
    requires Ring.Inv(s) && s.writers == map[] && s.readers == map[]
    requires forall t :: t in threads ==> Ring.LocalOk(s, t, threads[t])
    ensures Ring.Inv(s.(threads := threads))
  {
    var s' := s.(threads := threads);
    forall p | s'.head <= p < s'.head + s'.cap ensures Ring.SlotOk(s', p) {
      assert Ring.SlotOk(s, p);
    }
    forall t | t in threads ensures Ring.LocalOk(s', t, threads[t]) {
      assert Ring.LocalOk(s, t, threads[t]);
    }
  }

  /** Claim, write, publish: the three producer steps end in a quiet state again. */
  lemma PushSteps<T>(s: Ring.State<T>, x: T)
    requires Quiet(s) && s.seqs[Slot(s.tail, s.cap)] == s.tail
    ensures s.tail < s.head + s.cap && Quiet(Pushed(s, x))
  {
    Ring.PushObserves(s, s.tail);
    var r := Ring.Retry(s.tail, 0, 0);
    ThreadsChange(s, map[0 := Ring.PushCas(x, s.tail, r)]);
    var s1 := s.(threads := map[0 := Ring.PushCas(x, s.tail, r)]);
    Ring.ClaimTailKeepsInv(s1, 0, x, r);
    var s2 := Ring.ClaimTail(s1, 0, x);
    Ring.WriteSlotKeepsInv(s2, 0, x, s.tail);
    var s3 := Ring.WriteSlot(s2, 0, x, s.tail);
    Ring.PublishKeepsInv(s3, 0, x, s.tail);
    var s4 := Ring.Publish(s3, 0, s.tail);
    assert s4.writers == map[];
    ThreadsChange(s4, map[]);
    assert s4.(threads := map[]) == Pushed(s, x);
  }

  /** Claim, read, release: the item read is the oldest one. */
  lemma PopSteps<T>(s: Ring.State<T>)
    requires Quiet(s) && s.seqs[Slot(s.head, s.cap)] == s.head + 1
    ensures s.head < s.tail && Quiet(Popped(s)) && s.data[Slot(s.head, s.cap)] == s.inserted[s.head]
  {
    Ring.PopObserves(s, s.head);
    var r := Ring.Retry(s.head, 0, 0);
    ThreadsChange(s, map[0 := Ring.PopCas(s.head, r)]);
    var s1 := s.(threads := map[0 := Ring.PopCas(s.head, r)]);
    Ring.ClaimHeadKeepsInv(s1, 0, r);
    var s2 := Ring.ClaimHead(s1, 0);
    Ring.ReaderSeesItem(s2, 0, s.head);
    Ring.ReadKeepsInv(s2, 0, s.head);
    var v := s.data[Slot(s.head, s.cap)];
    var s3 := Ring.Set(s2, 0, Ring.PopRelease(s.head, v));
    Ring.ReleaseKeepsInv(s3, 0, s.head, v);
    var s4 := Ring.Release(s3, 0, s.head, v);
    assert s4.readers == map[];
    ThreadsChange(s4, map[]);
    assert s4.(threads := map[]) == Popped(s);
  }

  /** The concurrent ring hands over to this object whenever nothing is in flight. */
  lemma RestingRingIsQuiet<T>(cap: nat, junk: seq<T>, tids: set<nat>, acts: seq<Ring.Action<T>>)
    requires cap >= 2 && IsPowerOfTwo(cap) && |junk| == cap
    requires RingTheorems.NothingInFlight(Ring.After(cap, junk, tids, acts))
    ensures var s := Ring.After(cap, junk, tids, acts);
            s.writers == map[] && s.readers == map[] && Quiet(s.(threads := map[]))
  {
    var s := Ring.After(cap, junk, tids, acts);
    Ring.AfterInv(cap, junk, tids, acts);
    assert forall p :: p in s.writers ==> !RingTheorems.NothingInFlight(s);
    assert forall p :: p in s.readers ==> !RingTheorems.NothingInFlight(s);
    ThreadsChange(s, map[]);
  }

  class MpmcQueue<T(0)> {
    const capacity: nat
    const seqs: array<nat>
    const data: array<T>
    var head: nat
    var tail: nat
    /** All items ever pushed, by position. */
    ghost var inserted: seq<T>

    ghost function Snapshot(): Ring.State<T>
      reads this, seqs, data
    {
      Ring.State(capacity, seqs[..], data[..], head, tail, map[], inserted, map[], map[])
    }

    ghost predicate Valid()
      reads this, seqs, data
    {
      seqs as object != data as object && Quiet(Snapshot())
    }

    /** The queued items, oldest first. */
    ghost function Contents(): seq<T>
      reads this, seqs, data
      requires Valid()
    {
      inserted[head..tail]
    }

    constructor (cap: nat)
      requires cap >= 2 && IsPowerOfTwo(cap)
      ensures Valid() && fresh(seqs) && fresh(data) && capacity == cap && Contents() == []
    {
      capacity, head, tail, inserted := cap, 0, 0, [];
      seqs := new nat[cap];
      data := new T[cap];
      new;
      for i := 0 to cap
        invariant forall k :: 0 <= k < i ==> seqs[k] == k
        invariant data.Length == cap && seqs as object != data as object && fresh(seqs) && fresh(data)
        invariant head == tail == 0 && inserted == []
      {
        seqs[i] := i;
      }
      Ring.InitInv(cap, data[..], {});
      assert Snapshot() == Ring.Init(cap, data[..], {}) by {
        assert seqs[..] == Ring.Init(cap, data[..], {}).seqs;
      }
    }

    /** `spurious` is how often the weak compare-exchange fails without cause. */
    method TryPush(item: T, spurious: nat) returns (ok: bool)
      requires Valid()
      modifies this, seqs, data
      ensures Valid()
      ensures ok <==> old(|Contents()|) < capacity
      ensures Contents() == if ok then old(Contents()) + [item] else old(Contents())
    {
      var budget, pos := spurious, tail;
      while true
        invariant pos == tail && Valid() && unchanged(this, seqs, data)
        decreases budget
      {
        Ring.PushObserves(Snapshot(), pos);
        var seqNo := seqs[Slot(pos, capacity)];
        if seqNo == pos {
          if budget > 0 {
            budget, pos := budget - 1, tail;
          } else {
            PushSteps(Snapshot(), item);
            ghost var after := Pushed(Snapshot(), item);
            tail, inserted := pos + 1, inserted + [item];
            data[Slot(pos, capacity)] := item;
            seqs[Slot(pos, capacity)] := pos + 1;
            assert Snapshot() == after;
            return true;
          }
        } else if seqNo < pos {
          return false;
        } else {
          // Another thread claimed the slot: not while this caller is alone.
          assert false;
        }
      }
    }

    /** On success the oldest item, else None. */
    method TryPop(spurious: nat) returns (item: Ring.Option<T>)
      requires Valid()
      modifies this, seqs, data
      ensures Valid()
      ensures item == if old(Contents()) == [] then Ring.None else Ring.Some(old(Contents())[0])
      ensures Contents() == if old(Contents()) == [] then [] else old(Contents())[1..]
    {
      var budget, pos := spurious, head;
      while true
        invariant pos == head && Valid() && unchanged(this, seqs, data)
        decreases budget
      {
        Ring.PopObserves(Snapshot(), pos);
        var seqNo := seqs[Slot(pos, capacity)];
        if seqNo == pos + 1 {
          if budget > 0 {
            budget, pos := budget - 1, head;
          } else {
            PopSteps(Snapshot());
            ghost var after := Popped(Snapshot());
            head := pos + 1;
            item := Ring.Some(data[Slot(pos, capacity)]);
            seqs[Slot(pos, capacity)] := pos + capacity;
            assert Snapshot() == after;
            return;
          }
        } else if seqNo < pos + 1 {
          return Ring.None;
        } else {
          // Another thread took the slot: not while this caller is alone.
          assert false;
        }
      }
    }

    method SizeApprox() returns (n: int)
      requires Valid()
      ensures n == |Contents()|
    {
      n := tail;
      var h := head;
      n := if n >= h then n - h else 0;
    }
  }
}
