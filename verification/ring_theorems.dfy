/** What the ring of module Ring guarantees over all runs. */
module RingTheorems {
  import opened Bits
  import opened Ring

  // ----- linearizability -----

  /** An operation of the abstract FIFO queue, by thread t. */
  datatype Op<T> = Enq(t: nat, item: T) | Deq(t: nat, item: T)

  /** The operation that takes effect at action a: the two successful compare-exchanges. */
  function Effect<T>(s: State<T>, a: Action<T>): seq<Op<T>> {
    if a.Start? || a.t !in s.threads || a.spurious then []
    else match s.threads[a.t]
      case PushCas(x, p, _) => if s.tail == p then [Enq(a.t, x)] else []
      case PopCas(p, _) => if s.head == p && p < |s.inserted| then [Deq(a.t, s.inserted[p])] else []
      case _ => []
  }

  /** The successful call that returns at action a, with what the caller gets. */
  function Response<T>(s: State<T>, a: Action<T>): seq<Op<T>> {
    if a.Start? || a.t !in s.threads then []
    else match s.threads[a.t]
      case PushPublish(x, _) => [Enq(a.t, x)]
      case PopRelease(_, v) => [Deq(a.t, v)]
      case _ => []
  }

  /** The operation of thread t that took effect but has not returned. */
  function Pending<T>(s: State<T>, t: nat): seq<Op<T>> {
    if t !in s.threads then []
    else match s.threads[t]
      case PushWrite(x, _) => [Enq(t, x)]
      case PushPublish(x, _) => [Enq(t, x)]
      case PopRead(p) => if p < |s.inserted| then [Deq(t, s.inserted[p])] else []
      case PopRelease(p, _) => if p < |s.inserted| then [Deq(t, s.inserted[p])] else []
      case _ => []
  }

  function Effects<T>(s: State<T>, acts: seq<Action<T>>): seq<Op<T>>
    requires Shape(s)
    decreases |acts|
  {
    if acts == [] then [] else
    var n := |acts| - 1;
    Effects(s, acts[..n]) + Effect(Run(s, acts[..n]), acts[n])
  }

  function Responses<T>(s: State<T>, acts: seq<Action<T>>): seq<Op<T>>
    requires Shape(s)
    decreases |acts|
  {
    if acts == [] then [] else
    var n := |acts| - 1;
    Responses(s, acts[..n]) + Response(Run(s, acts[..n]), acts[n])
  }

  /** A bounded FIFO queue doing `ops` in order; None if some operation is illegal. */
  ghost function Fifo<T>(ops: seq<Op<T>>, cap: nat): Option<seq<T>>
    decreases |ops|
  {
    if ops == [] then Some([]) else
    match Fifo(ops[..|ops| - 1], cap)
    case None => None
    case Some(q) =>
      match ops[|ops| - 1]
      case Enq(_, x) => if |q| < cap then Some(q + [x]) else None
      case Deq(_, x) => if q != [] && q[0] == x then Some(q[1..]) else None
  }

  function By<T>(ops: seq<Op<T>>, t: nat): seq<Op<T>>
    decreases |ops|
  {
    if ops == [] then [] else
    By(ops[..|ops| - 1], t) + if ops[|ops| - 1].t == t then [ops[|ops| - 1]] else []
  }

  /** The items put in, and the items taken out, by a sequence of operations. */
  function Enqueued<T>(ops: seq<Op<T>>): seq<T>
    decreases |ops|
  {
    if ops == [] then [] else
    Enqueued(ops[..|ops| - 1]) + if ops[|ops| - 1].Enq? then [ops[|ops| - 1].item] else []
  }

  function Dequeued<T>(ops: seq<Op<T>>): seq<T>
    decreases |ops|
  {
    if ops == [] then [] else
    Dequeued(ops[..|ops| - 1]) + if ops[|ops| - 1].Deq? then [ops[|ops| - 1].item] else []
  }

  /** The messages between the two claim counters. */
  ghost function Contents<T>(s: State<T>): seq<T>
    requires Bounds(s)
  {
    s.inserted[s.head..s.tail]
  }

  lemma ByAppend<T>(ops: seq<Op<T>>, more: seq<Op<T>>, t: nat)
    requires |more| <= 1
    ensures By(ops + more, t) == By(ops, t) + By(more, t)
  {
    if more == [] {
      assert ops + more == ops;
    } else {
      assert (ops + more)[..|ops|] == ops;
      assert By(more, t) == By(more[..0], t) + if more[0].t == t then [more[0]] else [];
    }
  }

  /** Abstract effect of one action on the contents and the claim counters. */
  ghost predicate Refines<T>(s: State<T>, e: seq<Op<T>>, s': State<T>)
    requires Bounds(s) && Bounds(s')
  {
    if e == [] then s'.head == s.head && s'.inserted == s.inserted
    else if e[0].Enq? then
      |Contents(s)| < s.cap && s'.head == s.head && s'.inserted == s.inserted + [e[0].item]
    else
      && Contents(s) != [] && Contents(s)[0] == e[0].item
      && s'.head == s.head + 1 && s'.inserted == s.inserted
  }

  lemma PushRefines<T>(s: State<T>, t: nat, spurious: bool)
    requires Bounds(s) && t in s.threads && Pushing(s.threads[t]) && LocalOk(s, t, s.threads[t])
    requires Bounds(PushStep(s, t, s.threads[t], spurious))
    ensures Refines(s, Effect(s, Step(t, spurious)), PushStep(s, t, s.threads[t], spurious))
  {
  }

  lemma PopRefines<T>(s: State<T>, t: nat, spurious: bool)
    requires Bounds(s) && t in s.threads && Popping(s.threads[t]) && LocalOk(s, t, s.threads[t])
    requires Bounds(PopStep(s, t, s.threads[t], spurious))
    ensures Refines(s, Effect(s, Step(t, spurious)), PopStep(s, t, s.threads[t], spurious))
  {
    if s.threads[t].PopCas? && s.threads[t].pos == s.head && !spurious {
      assert HeadPublished(s) && Contents(s)[0] == s.inserted[s.head];
    }
  }

  lemma StepRefines<T>(s: State<T>, a: Action<T>)
    requires Inv(s)
    ensures Bounds(Exec(s, a)) && Refines(s, Effect(s, a), Exec(s, a))
  {
    ExecKeepsInv(s, a);
    InvAt(s, a.t);
    InvAt(Exec(s, a), a.t);
    if a.t in s.threads && a.Step? {
      if Pushing(s.threads[a.t]) {
        PushRefines(s, a.t, a.spurious);
      } else if Popping(s.threads[a.t]) {
        PopRefines(s, a.t, a.spurious);
      }
    }
  }

  lemma HistoryStep<T>(s: State<T>, s': State<T>, e: seq<Op<T>>, ops: seq<Op<T>>)
    requires Bounds(s) && Bounds(s') && s'.cap == s.cap && |e| <= 1 && Refines(s, e, s')
    requires Fifo(ops, s.cap) == Some(Contents(s))
    requires Enqueued(ops) == s.inserted && Dequeued(ops) == s.inserted[..s.head]
    ensures var ops' := ops + e;
            && Fifo(ops', s.cap) == Some(Contents(s'))
            && Enqueued(ops') == s'.inserted && Dequeued(ops') == s'.inserted[..s'.head]
  {
    if e == [] {
      assert ops + e == ops;
    } else {
      assert (ops + e)[..|ops|] == ops;
      if e[0].Enq? {
        assert Contents(s') == Contents(s) + [e[0].item];
        assert s'.inserted[..s.head] == s.inserted[..s.head];
      } else {
        assert Contents(s') == Contents(s)[1..];
        assert s'.inserted[..s'.head] == s.inserted[..s.head] + [e[0].item];
      }
    }
  }

  /** Linearizability: in every run the operations, in the order of their successful
      compare-exchanges, are a legal history of a FIFO queue of capacity `cap`. So the
      values taken, in head-claim order, are a prefix of the values inserted, in
      tail-claim order: nothing is lost, duplicated, invented or reordered. */
  lemma {:induction false} RunsAreFifo<T>(cap: nat, junk: seq<T>, tids: set<nat>, acts: seq<Action<T>>)
    requires cap >= 2 && IsPowerOfTwo(cap) && |junk| == cap
    ensures Inv(After(cap, junk, tids, acts))
    ensures var s, ops := After(cap, junk, tids, acts), Effects(Init(cap, junk, tids), acts);
            && Fifo(ops, cap) == Some(Contents(s))
            && Enqueued(ops) == s.inserted
            && Dequeued(ops) == Enqueued(ops)[..s.head]
    decreases |acts|
  {
    AfterInv(cap, junk, tids, acts);
    if acts != [] {
      var n := |acts| - 1;
      RunsAreFifo(cap, junk, tids, acts[..n]);
      var s := After(cap, junk, tids, acts[..n]);
      StepRefines(s, acts[n]);
      HistoryStep(s, Exec(s, acts[n]), Effect(s, acts[n]), Effects(Init(cap, junk, tids), acts[..n]));
    }
  }

  lemma ByOne<T>(op: Op<T>, t: nat)
    ensures By([op], t) == if op.t == t then [op] else []
  {
    assert [op][..0] == [];
  }

  /** What thread t sees of an action of thread u. */
  ghost predicate Responds<T>(s: State<T>, a: Action<T>, s': State<T>, t: nat)
  {
    Pending(s, t) + By(Effect(s, a), t) == By(Response(s, a), t) + Pending(s', t)
  }

  lemma PushResponds<T>(s: State<T>, t: nat, spurious: bool)
    requires Bounds(s) && t in s.threads && Pushing(s.threads[t])
    ensures var a: Action<T> := Step(t, spurious);
            Pending(s, t) + Effect(s, a) == Response(s, a) + Pending(PushStep(s, t, s.threads[t], spurious), t)
  {
  }

  lemma PopResponds<T>(s: State<T>, t: nat, spurious: bool)
    requires Bounds(s) && t in s.threads && Popping(s.threads[t])
    requires Owners(s) && LocalOk(s, t, s.threads[t])
    ensures var a: Action<T> := Step(t, spurious);
            Pending(s, t) + Effect(s, a) == Response(s, a) + Pending(PopStep(s, t, s.threads[t], spurious), t)
  {
    var l := s.threads[t];
    match l
    case PopCas(p, _) =>
    case PopRead(p) => assert p < s.head;
    case PopRelease(p, v) => assert p < s.head;
    case _ =>
  }

  lemma ByIdle<T>(s: State<T>, a: Action<T>, t: nat)
    ensures By(Effect(s, a), t) == (if a.t == t then Effect(s, a) else [])
    ensures By(Response(s, a), t) == (if a.t == t then Response(s, a) else [])
  {
    if Effect(s, a) != [] { ByOne(Effect(s, a)[0], t); }
    if Response(s, a) != [] { ByOne(Response(s, a)[0], t); }
  }

  predicate SameAt<T(==)>(s: State<T>, s': State<T>, u: nat) {
    (u in s.threads <==> u in s'.threads) && (u in s.threads ==> s'.threads[u] == s.threads[u])
  }

  lemma PushTouchesOne<T>(s: State<T>, t: nat, l: Local<T>, spurious: bool, u: nat)
    requires Shape(s) && t in s.threads && u != t
    ensures SameAt(s, PushStep(s, t, l, spurious), u)
  {
  }

  lemma PopTouchesOne<T>(s: State<T>, t: nat, l: Local<T>, spurious: bool, u: nat)
    requires Shape(s) && t in s.threads && u != t
    ensures SameAt(s, PopStep(s, t, l, spurious), u)
  {
  }

  lemma OthersUntouched<T>(s: State<T>, a: Action<T>, u: nat)
    requires Shape(s) && a.t != u
    ensures SameAt(s, Exec(s, a), u)
  {
    if a.t in s.threads && a.Step? {
      PushTouchesOne(s, a.t, s.threads[a.t], a.spurious, u);
      PopTouchesOne(s, a.t, s.threads[a.t], a.spurious, u);
    }
  }

  lemma PendingIsStable<T>(s: State<T>, s': State<T>, t: nat)
    requires Bounds(s) && Owners(s) && s.inserted <= s'.inserted
    requires SameAt(s, s', t) && (t in s.threads ==> LocalOk(s, t, s.threads[t]))
    ensures Pending(s', t) == Pending(s, t)
  {
  }

  lemma StepResponds<T>(s: State<T>, a: Action<T>, t: nat)
    requires Inv(s)
    ensures Responds(s, a, Exec(s, a), t)
  {
    StepRefines(s, a);
    InvAt(s, t);
    ByIdle(s, a, t);
    if a.t != t {
      OthersUntouched(s, a, t);
      PendingIsStable(s, Exec(s, a), t);
    } else if a.Step? && t in s.threads {
      if Pushing(s.threads[t]) {
        PushResponds(s, t, a.spurious);
      } else if Popping(s.threads[t]) {
        PopResponds(s, t, a.spurious);
      }
    }
  }

  lemma Rebracket<X>(a: seq<X>, e: seq<X>, b: seq<X>, p: seq<X>, r: seq<X>, p': seq<X>)
    requires a == b + p && p + e == r + p'
    ensures a + e == (b + r) + p'
  {
    assert a + e == b + (p + e);
    assert b + (r + p') == (b + r) + p';
  }

  /** Every successful call returns what the FIFO history says, and its place in that
      history lies between its start and its return: for each thread the history is its
      returned calls, then the at most one call that took effect and is still running. */
  lemma {:induction false} CallsReturnTheirEffects<T>(
    cap: nat, junk: seq<T>, tids: set<nat>, acts: seq<Action<T>>, t: nat)
    requires cap >= 2 && IsPowerOfTwo(cap) && |junk| == cap
    ensures var s0 := Init(cap, junk, tids);
            By(Effects(s0, acts), t) == By(Responses(s0, acts), t) + Pending(Run(s0, acts), t)
    decreases |acts|
  {
    var s0 := Init(cap, junk, tids);
    if acts == [] {
      assert Run(s0, acts) == s0;
    } else {
      var n := |acts| - 1;
      var s := Run(s0, acts[..n]);
      CallsReturnTheirEffects(cap, junk, tids, acts[..n], t);
      AfterInv(cap, junk, tids, acts[..n]);
      StepResponds(s, acts[n], t);
      ByAppend(Effects(s0, acts[..n]), Effect(s, acts[n]), t);
      ByAppend(Responses(s0, acts[..n]), Response(s, acts[n]), t);
      Rebracket(
        By(Effects(s0, acts[..n]), t), By(Effect(s, acts[n]), t), By(Responses(s0, acts[..n]), t),
        Pending(s, t), By(Response(s, acts[n]), t), Pending(Exec(s, acts[n]), t));
    }
  }

  // ----- slot ownership -----

  predicate OwnsPosition<T>(l: Local<T>, p: nat) {
    HasClaimed(l, p) || HasTaken(l, p)
  }

  lemma OwnedPositions<T>(s: State<T>, t: nat, p: nat)
    requires Inv(s) && t in s.threads && OwnsPosition(s.threads[t], p)
    ensures p < s.tail <= p + s.cap
    ensures p < s.head ==> HasTaken(s.threads[t], p) && p in s.readers && s.readers[p] == t
    ensures p >= s.head ==> HasClaimed(s.threads[t], p) && p in s.writers && s.writers[p] == t
  {
    assert LocalOk(s, t, s.threads[t]);
  }

  /** Race freedom of the plain `slot.data`: a writer from its tail claim to its publish
      and a reader from its head claim to its release are alone on their slot. */
  lemma SlotDataIsRaceFree<T>(
    cap: nat, junk: seq<T>, tids: set<nat>, acts: seq<Action<T>>, t: nat, u: nat, p: nat, q: nat)
    requires cap >= 2 && IsPowerOfTwo(cap) && |junk| == cap
    requires var s := After(cap, junk, tids, acts);
             && t != u && t in s.threads && u in s.threads
             && OwnsPosition(s.threads[t], p) && OwnsPosition(s.threads[u], q)
    ensures Slot(p, cap) != Slot(q, cap)
  {
    var s := After(cap, junk, tids, acts);
    AfterInv(cap, junk, tids, acts);
    OwnedPositions(s, t, p);
    OwnedPositions(s, u, q);
    if p < q { SlotInjective(p, q, cap); } else { SlotInjective(q, p, cap); }
  }

  /** A reader gets exactly the value written for its position. */
  lemma PopReturnsItsItem<T>(
    cap: nat, junk: seq<T>, tids: set<nat>, acts: seq<Action<T>>, t: nat, p: nat)
    requires cap >= 2 && IsPowerOfTwo(cap) && |junk| == cap
    requires var s := After(cap, junk, tids, acts); t in s.threads && s.threads[t] == PopRead(p)
    ensures var s := After(cap, junk, tids, acts);
            p < |s.inserted| && Exec(s, Step(t, false)).threads[t] == PopRelease(p, s.inserted[p])
  {
    AfterInv(cap, junk, tids, acts);
    ReaderSeesItem(After(cap, junk, tids, acts), t, p);
  }

  // ----- negative results -----

  /** A push gives up exactly when, at its sequence load, its local tail is the shared
      tail and the position one lap before is not taken, or is still being read. */
  lemma PushFailsIff<T>(
    cap: nat, junk: seq<T>, tids: set<nat>, acts: seq<Action<T>>, t: nat, x: T, p: nat, r: Retry)
    requires cap >= 2 && IsPowerOfTwo(cap) && |junk| == cap
    requires var s := After(cap, junk, tids, acts); t in s.threads && s.threads[t] == PushLoadSeq(x, p, r)
    ensures var s := After(cap, junk, tids, acts);
            Exec(s, Step(t, false)).threads[t] == Idle(Pushed(false)) <==>
            p == s.tail >= cap && (s.tail - cap >= s.head || s.tail - cap in s.readers)
  {
    var s := After(cap, junk, tids, acts);
    AfterInv(cap, junk, tids, acts);
    assert LocalOk(s, t, s.threads[t]);
    PushObserves(s, p);
  }

  /** A pop gives up exactly when, at its sequence load, its local head is the shared
      head and that position is unclaimed or not yet published. */
  lemma PopFailsIff<T>(
    cap: nat, junk: seq<T>, tids: set<nat>, acts: seq<Action<T>>, t: nat, p: nat, r: Retry)
    requires cap >= 2 && IsPowerOfTwo(cap) && |junk| == cap
    requires var s := After(cap, junk, tids, acts); t in s.threads && s.threads[t] == PopLoadSeq(p, r)
    ensures var s := After(cap, junk, tids, acts);
            Exec(s, Step(t, false)).threads[t] == Idle(Popped(None)) <==>
            p == s.head && (s.head == s.tail || s.head in s.writers)
  {
    var s := After(cap, junk, tids, acts);
    AfterInv(cap, junk, tids, acts);
    assert LocalOk(s, t, s.threads[t]);
    PopObserves(s, p);
  }

  /** No operation is between its claim and its publish or release. */
  predicate NothingInFlight<T>(s: State<T>) {
    forall t :: t in s.threads ==>
      !s.threads[t].PushWrite? && !s.threads[t].PushPublish? && !s.threads[t].PopRead? && !s.threads[t].PopRelease?
  }

  /** A published head stays published until somebody takes it, and heads only move up. */
  lemma PublishedStays<T>(r: State<T>, a: Action<T>)
    requires Inv(r)
    ensures Shape(r) && r.head <= Exec(r, a).head
    ensures HeadPublished(r) && Exec(r, a).head == r.head ==> HeadPublished(Exec(r, a))
  {
    StepRefines(r, a);
    if a.t in r.threads && a.Step? && HeadPublished(r) {
      PushPublishes(r, a.t, a.spurious);
      PopPublishes(r, a.t, a.spurious);
    }
  }

  lemma PushPublishes<T>(r: State<T>, t: nat, spurious: bool)
    requires Shape(r) && t in r.threads && HeadPublished(r)
    ensures HeadPublished(PushStep(r, t, r.threads[t], spurious))
  {
  }

  lemma PopPublishes<T>(r: State<T>, t: nat, spurious: bool)
    requires Shape(r) && t in r.threads && HeadPublished(r)
    ensures var r' := PopStep(r, t, r.threads[t], spurious); r'.head == r.head ==> HeadPublished(r')
  {
  }

  /** A refused pop saw its head position unpublished, and so it is. */
  lemma RefusedMeansUnpublished<T>(s: State<T>, t: nat, spurious: bool)
    requires Inv(s) && t in s.threads && Popping(s.threads[t])
    requires Shape(s) && t in Exec(s, Step(t, spurious)).threads
    requires Exec(s, Step(t, spurious)).threads[t] == Idle(Popped(None))
    ensures !HeadPublished(Exec(s, Step(t, spurious)))
  {
    InvAt(s, t);
    if s.threads[t].PopLoadSeq? {
      PopObserves(s, s.threads[t].pos);
    }
  }

  /** With nothing in flight, `false` means exactly full, or exactly empty. */
  lemma FailureIsExactWhenNothingInFlight<T>(
    cap: nat, junk: seq<T>, tids: set<nat>, acts: seq<Action<T>>, t: nat)
    requires cap >= 2 && IsPowerOfTwo(cap) && |junk| == cap
    requires var s := After(cap, junk, tids, acts); t in s.threads && NothingInFlight(s)
    ensures Inv(After(cap, junk, tids, acts))
    ensures var s := After(cap, junk, tids, acts); var s' := Exec(s, Step(t, false));
            && (s.threads[t].PushLoadSeq? && s.threads[t].pos == s.tail ==>
                 (s'.threads[t] == Idle(Pushed(false)) <==> |Contents(s)| == cap))
            && (s.threads[t].PopLoadSeq? && s.threads[t].pos == s.head ==>
                 (s'.threads[t] == Idle(Popped(None)) <==> |Contents(s)| == 0))
  {
    var s := After(cap, junk, tids, acts);
    AfterInv(cap, junk, tids, acts);
    assert forall p :: p in s.writers ==> !NothingInFlight(s);
    assert forall p :: p in s.readers ==> !NothingInFlight(s);
    assert LocalOk(s, t, s.threads[t]);
    if s.threads[t].PushLoadSeq? { PushObserves(s, s.threads[t].pos); }
    if s.threads[t].PopLoadSeq? { PopObserves(s, s.threads[t].pos); }
  }

  // ----- progress -----

  /** A loop round that ends without returning and without a spurious failure
      moves the local position strictly forward. */
  lemma RoundsMoveForward<T>(
    cap: nat, junk: seq<T>, tids: set<nat>, acts: seq<Action<T>>, t: nat, spurious: bool)
    requires cap >= 2 && IsPowerOfTwo(cap) && |junk| == cap
    requires var s := After(cap, junk, tids, acts);
             t in s.threads &&
             (s.threads[t].PushCas? || s.threads[t].PushReload? || s.threads[t].PopCas? || s.threads[t].PopReload?)
    ensures var s := After(cap, junk, tids, acts);
            var l, l' := s.threads[t], Exec(s, Step(t, spurious)).threads[t];
            l'.PushLoadSeq? || l'.PopLoadSeq? ==>
              l'.retry.rounds == l.retry.rounds + 1 && (l'.pos > l.pos || l'.retry.spurious == l.retry.spurious + 1)
  {
    var s := After(cap, junk, tids, acts);
    AfterInv(cap, junk, tids, acts);
    assert LocalOk(s, t, s.threads[t]);
  }

  /** A call in its retry loop has spent at most one round per claim that succeeded
      since its first load (all by other threads), plus its spurious failures. */
  lemma RoundsAreBoundedByClaims<T>(
    cap: nat, junk: seq<T>, tids: set<nat>, acts: seq<Action<T>>, t: nat)
    requires cap >= 2 && IsPowerOfTwo(cap) && |junk| == cap
    requires t in After(cap, junk, tids, acts).threads
    ensures var s := After(cap, junk, tids, acts);
            var l := s.threads[t];
            && (l.PushLoadSeq? || l.PushCas? || l.PushReload? ==>
                  l.retry.rounds <= l.retry.spurious + (s.tail - l.retry.first))
            && (l.PopLoadSeq? || l.PopCas? || l.PopReload? ==>
                  l.retry.rounds <= l.retry.spurious + (s.head - l.retry.first))
  {
    var s := After(cap, junk, tids, acts);
    AfterInv(cap, junk, tids, acts);
    assert LocalOk(s, t, s.threads[t]);
  }

  // ----- size_approx and empty -----

  /** `size_approx` never reports more than the capacity; and when it reports 0 (the
      answer `empty` is built on), every position producers had claimed by its tail
      load had been claimed by consumers by its head load. */
  lemma SizeIsSound<T>(cap: nat, junk: seq<T>, tids: set<nat>, acts: seq<Action<T>>, t: nat, loaded: nat)
    requires cap >= 2 && IsPowerOfTwo(cap) && |junk| == cap
    requires var s := After(cap, junk, tids, acts); t in s.threads && s.threads[t] == SizeLoadHead(loaded)
    ensures var s := After(cap, junk, tids, acts);
            var l' := Exec(s, Step(t, false)).threads[t];
            && l'.Idle? && l'.result.Sized? && l'.result.size <= cap && loaded <= s.tail
            && (l'.result.size == 0 <==> loaded <= s.head)
  {
    var s := After(cap, junk, tids, acts);
    AfterInv(cap, junk, tids, acts);
    assert LocalOk(s, t, s.threads[t]);
  }

  // ----- capacity one -----

  /** In no run do the claims get more than one lap ahead of the takes. */
  ghost predicate NeverOverfull<T(!new)>(cap: nat)
    requires cap > 0
  {
    forall junk: seq<T>, tids, acts :: |junk| == cap ==>
      After(cap, junk, tids, acts).tail <= After(cap, junk, tids, acts).head + cap
  }

  lemma {:induction false} RunAppend<T>(s: State<T>, a: seq<Action<T>>, b: seq<Action<T>>)
    requires Shape(s)
    ensures Run(s, a + b) == Run(Run(s, a), b)
    decreases |b|
  {
    if b == [] {
      assert a + b == a;
    } else {
      var n := |b| - 1;
      assert (a + b)[..|a| + n] == a + b[..n];
      RunAppend(s, a, b[..n]);
    }
  }

  /** The steps of one undisturbed push by thread 0: up to its compare-exchange, and from it on. */
  function SoloLoads<T>(x: T): seq<Action<T>> {
    [Start(0, TryPush(x)), Step(0, false), Step(0, false)]
  }

  function SoloStores<T>(): seq<Action<T>> {
    [Step(0, false), Step(0, false), Step(0, false)]
  }

  function SoloPush<T>(x: T): seq<Action<T>> {
    SoloLoads(x) + SoloStores()
  }

  lemma RunOne<T>(s: State<T>, a: Action<T>)
    requires Shape(s)
    ensures Run(s, [a]) == Exec(s, a)
  {
    assert [a][..0] == [];
  }

  lemma RunThree<T>(s: State<T>, a: Action<T>, b: Action<T>, c: Action<T>)
    requires Shape(s)
    ensures Run(s, [a, b, c]) == Exec(Exec(Exec(s, a), b), c)
  {
    assert [a, b, c][..2] == [a, b] && [a, b][..1] == [a];
    RunOne(s, a);
  }

  /** Thread 0 is at `l`, and the one-slot ring holds these values. */
  predicate OneSlot<T(==)>(s: State<T>, l: Local<T>, q: nat, d: T, head: nat, tail: nat) {
    && s.cap == 1 && s.seqs == [q] && s.data == [d] && s.head == head && s.tail == tail
    && 0 in s.threads && s.threads[0] == l
  }

  lemma OneSlotLoads<T>(s: State<T>, q: nat, d: T, head: nat, x: T)
    requires Shape(s) && 0 in s.threads && s.threads[0].Idle? && OneSlot(s, s.threads[0], q, d, head, q)
    ensures OneSlot(Run(s, SoloLoads(x)), PushCas(x, q, Retry(q, 0, 0)), q, d, head, q)
  {
    RunThree(s, Start(0, TryPush(x)), Step(0, false), Step(0, false));
    var s1 := Exec(s, Start(0, TryPush(x)));
    assert OneSlot(s1, PushLoadTail(x), q, d, head, q);
    var s2 := Exec(s1, Step(0, false));
    assert OneSlot(s2, PushLoadSeq(x, q, Retry(q, 0, 0)), q, d, head, q);
  }

  lemma OneSlotClaim<T>(s: State<T>, q: nat, d: T, head: nat, x: T)
    requires Shape(s) && OneSlot(s, PushCas(x, q, Retry(q, 0, 0)), q, d, head, q)
    ensures OneSlot(Exec(s, Step(0, false)), PushWrite(x, q), q, d, head, q + 1)
  {
  }

  lemma OneSlotPublish<T>(s: State<T>, q: nat, d: T, head: nat, x: T)
    requires Shape(s) && OneSlot(s, PushWrite(x, q), q, d, head, q + 1)
    ensures OneSlot(Exec(Exec(s, Step(0, false)), Step(0, false)), Idle(Pushed(true)), q + 1, x, head, q + 1)
  {
    assert OneSlot(Exec(s, Step(0, false)), PushPublish(x, q), q, x, head, q + 1);
  }

  lemma OneSlotStores<T>(s: State<T>, q: nat, d: T, head: nat, x: T)
    requires Shape(s) && OneSlot(s, PushCas(x, q, Retry(q, 0, 0)), q, d, head, q)
    ensures OneSlot(Run(s, SoloStores()), Idle(Pushed(true)), q + 1, x, head, q + 1)
  {
    RunThree(s, Step(0, false), Step(0, false), Step(0, false));
    OneSlotClaim(s, q, d, head, x);
    OneSlotPublish(Exec(s, Step(0, false)), q, d, head, x);
  }

  /** With a single slot, "published for p" and "free for p + 1" are the same number,
      so a push onto the full one-slot ring succeeds. */
  lemma SoloPushAtCapacityOne<T>(s: State<T>, q: nat, d: T, head: nat, x: T)
    requires Shape(s) && 0 in s.threads && s.threads[0].Idle? && OneSlot(s, s.threads[0], q, d, head, q)
    ensures OneSlot(Run(s, SoloPush(x)), Idle(Pushed(true)), q + 1, x, head, q + 1)
  {
    OneSlotLoads(s, q, d, head, x);
    OneSlotStores(Run(s, SoloLoads(x)), q, d, head, x);
    RunAppend(s, SoloLoads(x), SoloStores());
  }

  /** Among the capacities the compile-time test admits, the queue is bounded in all runs
      if and only if the capacity is at least two: at capacity one a second push
      succeeds on the full queue and overwrites the first item. */
  lemma BoundedIffCapacityAtLeastTwo<T(!new)>(cap: nat, x: T, y: T)
    requires IsPowerOfTwo(cap)
    ensures cap >= 2 <==> NeverOverfull<T>(cap)
    ensures cap == 1 ==>
      var s := After(1, [x], {0}, SoloPush(x) + SoloPush(y));
      s.tail == 2 && s.head == 0 && s.data == [y]
  {
    if cap >= 2 {
      forall junk: seq<T>, tids, acts | |junk| == cap
        ensures After(cap, junk, tids, acts).tail <= After(cap, junk, tids, acts).head + cap
      {
        AfterInv(cap, junk, tids, acts);
      }
    } else {
      var s0 := Init(1, [x], {0});
      assert OneSlot(s0, Idle(NoCall), 0, x, 0, 0);
      SoloPushAtCapacityOne(s0, 0, x, 0, x);
      SoloPushAtCapacityOne(Run(s0, SoloPush(x)), 1, x, 0, y);
      RunAppend(s0, SoloPush(x), SoloPush(y));
      assert After(1, [x], {0}, SoloPush(x) + SoloPush(y)).tail == 2;
    }
  }
}
