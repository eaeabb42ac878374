/** The bounded MPMC ring of src/mpmc_queue.h as a transition system.

    Any number of threads call `try_push`, `try_pop` and `size_approx`. Every
    atomic load, store and compare-exchange is one step, and so is every access
    to the non-atomic `slot.data`. `compare_exchange_weak` may fail spuriously.
    Positions are unbounded here; module RingWord treats 64-bit wrap-around. */
module Ring {
  import opened Bits

  datatype Option<T> = None | Some(value: T)

  /** What a thread's last finished call returned. */
  datatype Result<T> = NoCall | Pushed(ok: bool) | Popped(item: Option<T>) | Sized(size: nat)

  datatype Call<T> = TryPush(item: T) | TryPop | SizeApprox

  /** Bookkeeping of one retry loop: the position first loaded, the loop rounds
      that ended without returning, and the spurious compare-exchange failures. */
  datatype Retry = Retry(first: nat, rounds: nat, spurious: nat)

  /** Program counter and locals of one thread. `pos` is its local `tail` or `head`. */
  datatype Local<T> =
    | Idle(result: Result<T>)
    | PushLoadTail(item: T)
    | PushLoadSeq(item: T, pos: nat, retry: Retry)
    | PushCas(item: T, pos: nat, retry: Retry)
    | PushReload(item: T, pos: nat, retry: Retry)
    | PushWrite(item: T, pos: nat)
    | PushPublish(item: T, pos: nat)
    | PopLoadHead
    | PopLoadSeq(pos: nat, retry: Retry)
    | PopCas(pos: nat, retry: Retry)
    | PopReload(pos: nat, retry: Retry)
    | PopRead(pos: nat)
    | PopRelease(pos: nat, value: T)
    | SizeLoadTail
    | SizeLoadHead(loaded: nat)

  /** Shared memory (`seqs`, `data`, `head`, `tail`), the threads, and history:
      `inserted[p]` is the item of position p, in tail-claim order; `writers` and
      `readers` map each claimed and unfinished position to the claiming thread. */
  datatype State<T> = State(
    cap: nat,
    seqs: seq<nat>,
    data: seq<T>,
    head: nat,
    tail: nat,
    threads: map<nat, Local<T>>,
    inserted: seq<T>,
    writers: map<nat, nat>,
    readers: map<nat, nat>)

  /** A thread starts a call, or takes its next step; `spurious` only matters when
      that step is a compare-exchange that could succeed. */
  datatype Action<T> = Start(t: nat, call: Call<T>) | Step(t: nat, spurious: bool)

  predicate Shape<T>(s: State<T>) {
    s.cap > 0 && |s.seqs| == s.cap && |s.data| == s.cap
  }

  // ----- the steps -----

  function Enter<T>(call: Call<T>): Local<T> {
    match call
    case TryPush(x) => PushLoadTail(x)
    case TryPop => PopLoadHead
    case SizeApprox => SizeLoadTail
  }

  function Set<T>(s: State<T>, t: nat, l: Local<T>): State<T> {
    s.(threads := s.threads[t := l])
  }

  function NextRound(r: Retry, spurious: bool): Retry {
    r.(rounds := r.rounds + 1, spurious := r.spurious + if spurious then 1 else 0)
  }

  /** The two successful compare-exchanges, with the history they add. */
  function ClaimTail<T>(s: State<T>, t: nat, x: T): State<T> {
    Set(s, t, PushWrite(x, s.tail)).(
      tail := s.tail + 1, inserted := s.inserted + [x], writers := s.writers[s.tail := t])
  }

  function ClaimHead<T>(s: State<T>, t: nat): State<T> {
    Set(s, t, PopRead(s.head)).(head := s.head + 1, readers := s.readers[s.head := t])
  }

  function WriteSlot<T>(s: State<T>, t: nat, x: T, p: nat): State<T>
    requires Shape(s)
  {
    Set(s, t, PushPublish(x, p)).(data := s.data[Slot(p, s.cap) := x])
  }

  function Publish<T>(s: State<T>, t: nat, p: nat): State<T>
    requires Shape(s)
  {
    Set(s, t, Idle(Pushed(true))).(seqs := s.seqs[Slot(p, s.cap) := p + 1], writers := s.writers - {p})
  }

  function Release<T>(s: State<T>, t: nat, p: nat, v: T): State<T>
    requires Shape(s)
  {
    Set(s, t, Idle(Popped(Some(v)))).(seqs := s.seqs[Slot(p, s.cap) := p + s.cap], readers := s.readers - {p})
  }

  function PushStep<T>(s: State<T>, t: nat, l: Local<T>, spurious: bool): (s': State<T>)
    requires Shape(s)
    ensures Shape(s') && s'.cap == s.cap
  {
    match l
    case PushLoadTail(x) => Set(s, t, PushLoadSeq(x, s.tail, Retry(s.tail, 0, 0)))
    case PushLoadSeq(x, p, r) =>
      var q := s.seqs[Slot(p, s.cap)];
      if q == p then Set(s, t, PushCas(x, p, r))
      else if q < p then Set(s, t, Idle(Pushed(false)))
      else Set(s, t, PushReload(x, p, r))
    case PushCas(x, p, r) =>
      if s.tail == p && !spurious then ClaimTail(s, t, x)
      else Set(s, t, PushLoadSeq(x, s.tail, NextRound(r, s.tail == p)))
    case PushReload(x, p, r) => Set(s, t, PushLoadSeq(x, s.tail, NextRound(r, false)))
    case PushWrite(x, p) => WriteSlot(s, t, x, p)
    case PushPublish(x, p) => Publish(s, t, p)
    case _ => s
  }

  function PopStep<T>(s: State<T>, t: nat, l: Local<T>, spurious: bool): (s': State<T>)
    requires Shape(s)
    ensures Shape(s') && s'.cap == s.cap
  {
    match l
    case PopLoadHead => Set(s, t, PopLoadSeq(s.head, Retry(s.head, 0, 0)))
    case PopLoadSeq(p, r) =>
      var q := s.seqs[Slot(p, s.cap)];
      if q == p + 1 then Set(s, t, PopCas(p, r))
      else if q < p + 1 then Set(s, t, Idle(Popped(None)))
      else Set(s, t, PopReload(p, r))
    case PopCas(p, r) =>
      if s.head == p && !spurious then ClaimHead(s, t)
      else Set(s, t, PopLoadSeq(s.head, NextRound(r, s.head == p)))
    case PopReload(p, r) => Set(s, t, PopLoadSeq(s.head, NextRound(r, false)))
    case PopRead(p) => Set(s, t, PopRelease(p, s.data[Slot(p, s.cap)]))
    case PopRelease(p, v) => Release(s, t, p, v)
    case _ => s
  }

  function SizeStep<T>(s: State<T>, t: nat, l: Local<T>): (s': State<T>)
    requires Shape(s)
    ensures Shape(s') && s'.cap == s.cap
  {
    match l
    case SizeLoadTail => Set(s, t, SizeLoadHead(s.tail))
    case SizeLoadHead(n) => Set(s, t, Idle(Sized(if n >= s.head then n - s.head else 0)))
    case _ => s
  }

  predicate Pushing<T>(l: Local<T>) {
    l.PushLoadTail? || l.PushLoadSeq? || l.PushCas? || l.PushReload? || l.PushWrite? || l.PushPublish?
  }

  predicate Popping<T>(l: Local<T>) {
    l.PopLoadHead? || l.PopLoadSeq? || l.PopCas? || l.PopReload? || l.PopRead? || l.PopRelease?
  }

  /** One action; an action that is not enabled changes nothing. */
  function Exec<T>(s: State<T>, a: Action<T>): (s': State<T>)
    requires Shape(s)
    ensures Shape(s') && s'.cap == s.cap
  {
    if a.t !in s.threads then s else
    var l := s.threads[a.t];
    match a
    case Start(t, call) => if l.Idle? then Set(s, t, Enter(call)) else s
    case Step(t, spurious) =>
      if Pushing(l) then PushStep(s, t, l, spurious)
      else if Popping(l) then PopStep(s, t, l, spurious)
      else SizeStep(s, t, l)
  }

  lemma Entered<T>(s: State<T>, t: nat, call: Call<T>)
    requires Shape(s) && t in s.threads && s.threads[t].Idle?
    ensures Exec(s, Start(t, call)) == Set(s, t, Enter(call))
  {
  }

  function Run<T>(s: State<T>, acts: seq<Action<T>>): (s': State<T>)
    requires Shape(s)
    ensures Shape(s') && s'.cap == s.cap
    decreases |acts|
  {
    if acts == [] then s else Exec(Run(s, acts[..|acts| - 1]), acts[|acts| - 1])
  }

  /** The constructed queue: slot i carries sequence number i; `junk` is the
      unspecified initial content of the slots. */
  function Init<T>(cap: nat, junk: seq<T>, tids: set<nat>): (s: State<T>)
    requires cap > 0 && |junk| == cap
    ensures Shape(s)
  {
    State(cap, seq(cap, i requires 0 <= i < cap => i), junk, 0, 0, map t | t in tids :: Idle(NoCall), [], map[], map[])
  }

  // ----- the invariant -----

  ghost predicate Bounds<T>(s: State<T>) {
    && Shape(s) && s.cap >= 2 && IsPowerOfTwo(s.cap)
    && s.head <= s.tail <= s.head + s.cap
    && |s.inserted| == s.tail
  }

  /** What the slot of position p, in the lap starting at the head, must hold:
      claimed (p) or published (p + 1) below the tail; released (p) or still with
      the reader of the previous lap (p - cap + 1) from the tail on. */
  ghost predicate SlotOk<T>(s: State<T>, p: nat)
    requires Bounds(s)
  {
    var q := s.seqs[Slot(p, s.cap)];
    var d := s.data[Slot(p, s.cap)];
    if p < s.tail then
      if p in s.writers then q == p else q == p + 1 && d == s.inserted[p]
    else if p >= s.cap && p - s.cap in s.readers then
      q == p - s.cap + 1 && p - s.cap < s.tail && d == s.inserted[p - s.cap]
    else q == p
  }

  ghost predicate Slots<T>(s: State<T>)
    requires Bounds(s)
  {
    forall p :: s.head <= p < s.head + s.cap ==> SlotOk(s, p)
  }

  predicate HasClaimed<T>(l: Local<T>, p: nat) {
    (l.PushWrite? || l.PushPublish?) && l.pos == p
  }

  predicate HasTaken<T>(l: Local<T>, p: nat) {
    (l.PopRead? || l.PopRelease?) && l.pos == p
  }

  /** A claimed and unfinished position belongs to the thread that claimed it. */
  predicate WriterOk<T>(s: State<T>, p: nat)
    requires p in s.writers
  {
    s.head <= p < s.tail && s.writers[p] in s.threads && HasClaimed(s.threads[s.writers[p]], p)
  }

  predicate ReaderOk<T>(s: State<T>, p: nat)
    requires p in s.readers
  {
    p < s.head && s.tail <= p + s.cap && s.readers[p] in s.threads && HasTaken(s.threads[s.readers[p]], p)
  }

  ghost predicate Owners<T>(s: State<T>) {
    && (forall p :: p in s.writers ==> WriterOk(s, p))
    && (forall p :: p in s.readers ==> ReaderOk(s, p))
  }

  /** Position tail is free for the next writer. */
  predicate TailFree<T>(s: State<T>) {
    s.tail < s.head + s.cap && !(s.tail >= s.cap && s.tail - s.cap in s.readers)
  }

  /** Position head is published. */
  predicate HeadPublished<T>(s: State<T>) {
    s.head < s.tail && s.head !in s.writers
  }

  predicate RetryOk(r: Retry, pos: nat) {
    r.first <= pos && r.rounds <= r.spurious + (pos - r.first)
  }

  ghost predicate LocalOk<T>(s: State<T>, t: nat, l: Local<T>)
    requires Bounds(s)
  {
    match l
    case PushLoadSeq(_, p, r) => p <= s.tail && RetryOk(r, p)
    case PushCas(_, p, r) => p <= s.tail && RetryOk(r, p) && (p == s.tail ==> TailFree(s))
    case PushReload(_, p, r) => p < s.tail && RetryOk(r, p)
    case PushWrite(x, p) => p in s.writers && s.writers[p] == t && p < s.tail && s.inserted[p] == x
    case PushPublish(x, p) =>
      p in s.writers && s.writers[p] == t && p < s.tail && s.inserted[p] == x && s.data[Slot(p, s.cap)] == x
    case PopLoadSeq(p, r) => p <= s.head && RetryOk(r, p)
    case PopCas(p, r) => p <= s.head && RetryOk(r, p) && (p == s.head ==> HeadPublished(s))
    case PopReload(p, r) => p < s.head && RetryOk(r, p)
    case PopRead(p) => p in s.readers && s.readers[p] == t
    case PopRelease(p, v) => p in s.readers && s.readers[p] == t && p < s.tail && v == s.inserted[p]
    case SizeLoadHead(n) => n <= s.tail && n <= s.head + s.cap
    case Idle(Sized(n)) => n <= s.cap
    case _ => true
  }

  ghost predicate Locals<T>(s: State<T>)
    requires Bounds(s)
  {
    forall t :: t in s.threads ==> LocalOk(s, t, s.threads[t])
  }

  ghost predicate Inv<T>(s: State<T>) {
    Bounds(s) && Slots(s) && Owners(s) && Locals(s)
  }

  lemma InvBounds<T>(s: State<T>)
    requires Inv(s)
    ensures Bounds(s)
  {
  }

  // ----- reading a sequence number -----

  /** What a producer learns from the sequence number of its position. */
  lemma PushObserves<T>(s: State<T>, p: nat)
    requires Inv(s) && p <= s.tail
    ensures var q := s.seqs[Slot(p, s.cap)];
            && (q == p && p == s.tail ==> TailFree(s))
            && (q > p ==> p < s.tail)
            && (q < p ==> p == s.tail && !TailFree(s))
  {
    if p < s.head {
      var r := LapRepresentative(p, s.head, s.cap);
      assert SlotOk(s, r);
    } else if p == s.head + s.cap {
      SlotPeriodic(s.head, s.cap);
      assert SlotOk(s, s.head);
    } else {
      assert SlotOk(s, p);
    }
  }

  /** What a consumer learns from the sequence number of its position. */
  lemma PopObserves<T>(s: State<T>, p: nat)
    requires Inv(s) && p <= s.head
    ensures var q := s.seqs[Slot(p, s.cap)];
            && (q == p + 1 && p == s.head ==> HeadPublished(s))
            && (q > p + 1 ==> p < s.head)
            && (q < p + 1 ==> p == s.head && !HeadPublished(s))
  {
    if p < s.head {
      var r := LapRepresentative(p, s.head, s.cap);
      assert SlotOk(s, r);
    } else {
      assert SlotOk(s, p);
    }
  }

  // ----- preservation -----

  /** Inv at one position and one thread; the steps below are checked piece by piece. */
  lemma InvAt<T>(s: State<T>, t: nat)
    requires Inv(s)
    ensures Bounds(s)
    ensures t in s.threads ==> LocalOk(s, t, s.threads[t])
  {
  }

  predicate OwnsNothing<T>(l: Local<T>) {
    !l.PushWrite? && !l.PushPublish? && !l.PopRead? && !l.PopRelease?
  }

  /** A step that only moves thread t, and to a consistent place. */
  lemma SetKeepsInv<T>(s: State<T>, t: nat, l: Local<T>)
    requires Inv(s) && t in s.threads && LocalOk(s, t, l) && OwnsNothing(s.threads[t])
    ensures Inv(Set(s, t, l))
  {
    var s' := Set(s, t, l);
    forall p | s'.head <= p < s'.head + s'.cap ensures SlotOk(s', p) {
      assert SlotOk(s, p);
    }
    forall p | p in s'.writers ensures WriterOk(s', p) {
      assert WriterOk(s, p);
    }
    forall p | p in s'.readers ensures ReaderOk(s', p) {
      assert ReaderOk(s, p);
    }
    forall u | u in s'.threads ensures LocalOk(s', u, s'.threads[u]) {
      LocalIgnoresThreads(s, t, l, u, s'.threads[u]);
    }
  }

  lemma LocalIgnoresThreads<T>(s: State<T>, t: nat, l: Local<T>, u: nat, m: Local<T>)
    requires Bounds(s) && LocalOk(s, u, m)
    ensures LocalOk(Set(s, t, l), u, m)
  {
  }

  // The producer claims the tail.

  lemma ClaimTailSlot<T>(s: State<T>, t: nat, x: T, p: nat)
    requires Bounds(s) && TailFree(s) && s.head <= p < s.head + s.cap && SlotOk(s, p)
    ensures Bounds(ClaimTail(s, t, x)) && SlotOk(ClaimTail(s, t, x), p)
  {
  }

  lemma ClaimTailLocal<T>(s: State<T>, t: nat, x: T, u: nat, l: Local<T>)
    requires Bounds(s) && TailFree(s) && s.tail !in s.writers && LocalOk(s, u, l)
    ensures Bounds(ClaimTail(s, t, x)) && LocalOk(ClaimTail(s, t, x), u, l)
  {
  }

  lemma ClaimTailKeepsInv<T>(s: State<T>, t: nat, x: T, r: Retry)
    requires Inv(s) && t in s.threads && s.threads[t] == PushCas(x, s.tail, r)
    ensures Inv(ClaimTail(s, t, x))
  {
    var s' := ClaimTail(s, t, x);
    InvAt(s, t);
    assert s.tail in s.writers ==> WriterOk(s, s.tail);
    forall p | s'.head <= p < s'.head + s'.cap ensures SlotOk(s', p) {
      ClaimTailSlot(s, t, x, p);
    }
    forall p | p in s'.writers ensures WriterOk(s', p) {
      if p != s.tail { assert WriterOk(s, p); }
    }
    forall p | p in s'.readers ensures ReaderOk(s', p) {
      assert ReaderOk(s, p);
    }
    forall u | u in s'.threads ensures LocalOk(s', u, s'.threads[u]) {
      if u != t { ClaimTailLocal(s, t, x, u, s.threads[u]); }
    }
  }

  // The producer writes its slot.

  lemma WriteSlotSlot<T>(s: State<T>, t: nat, x: T, p: nat, q: nat)
    requires Bounds(s) && p in s.writers && s.head <= p < s.tail
    requires s.head <= q < s.head + s.cap && SlotOk(s, q)
    ensures Bounds(WriteSlot(s, t, x, p)) && SlotOk(WriteSlot(s, t, x, p), q)
  {
    if p < q { SlotInjective(p, q, s.cap); }
    if q < p { SlotInjective(q, p, s.cap); }
  }

  lemma WriteSlotLocal<T>(s: State<T>, t: nat, x: T, p: nat, u: nat, l: Local<T>)
    requires Bounds(s) && p in s.writers && s.writers[p] == t && u != t && s.head <= p
    requires l.PushPublish? && l.pos in s.writers ==> s.head <= l.pos < s.tail
    requires p < s.tail && LocalOk(s, u, l)
    ensures Bounds(WriteSlot(s, t, x, p)) && LocalOk(WriteSlot(s, t, x, p), u, l)
  {
    if l.PushPublish? {
      if p < l.pos { SlotInjective(p, l.pos, s.cap); }
      if l.pos < p { SlotInjective(l.pos, p, s.cap); }
    }
  }

  lemma WriteSlotKeepsInv<T>(s: State<T>, t: nat, x: T, p: nat)
    requires Inv(s) && t in s.threads && s.threads[t] == PushWrite(x, p)
    ensures Inv(WriteSlot(s, t, x, p))
  {
    var s' := WriteSlot(s, t, x, p);
    InvAt(s, t);
    assert WriterOk(s, p);
    forall q | s'.head <= q < s'.head + s'.cap ensures SlotOk(s', q) {
      WriteSlotSlot(s, t, x, p, q);
    }
    forall q | q in s'.writers ensures WriterOk(s', q) {
      assert WriterOk(s, q);
    }
    forall q | q in s'.readers ensures ReaderOk(s', q) {
      assert ReaderOk(s, q);
    }
    forall u | u in s'.threads ensures LocalOk(s', u, s'.threads[u]) {
      if u != t {
        var l := s.threads[u];
        if l.PushPublish? && l.pos in s.writers { assert WriterOk(s, l.pos); }
        WriteSlotLocal(s, t, x, p, u, l);
      }
    }
  }

  // The producer publishes its slot.

  lemma PublishSlot<T>(s: State<T>, t: nat, p: nat, q: nat)
    requires Bounds(s) && p in s.writers && s.head <= p < s.tail && s.data[Slot(p, s.cap)] == s.inserted[p]
    requires s.head <= q < s.head + s.cap && SlotOk(s, q)
    ensures Bounds(Publish(s, t, p)) && SlotOk(Publish(s, t, p), q)
  {
    if p < q { SlotInjective(p, q, s.cap); }
    if q < p { SlotInjective(q, p, s.cap); }
  }

  lemma PublishLocal<T>(s: State<T>, t: nat, p: nat, u: nat, l: Local<T>)
    requires Bounds(s) && p in s.writers && s.writers[p] == t && u != t && LocalOk(s, u, l)
    ensures Bounds(Publish(s, t, p)) && LocalOk(Publish(s, t, p), u, l)
  {
  }

  lemma PublishKeepsInv<T>(s: State<T>, t: nat, x: T, p: nat)
    requires Inv(s) && t in s.threads && s.threads[t] == PushPublish(x, p)
    ensures Inv(Publish(s, t, p))
  {
    var s' := Publish(s, t, p);
    InvAt(s, t);
    assert WriterOk(s, p);
    forall q | s'.head <= q < s'.head + s'.cap ensures SlotOk(s', q) {
      PublishSlot(s, t, p, q);
    }
    forall q | q in s'.writers ensures WriterOk(s', q) {
      assert WriterOk(s, q);
    }
    forall q | q in s'.readers ensures ReaderOk(s', q) {
      assert ReaderOk(s, q);
    }
    forall u | u in s'.threads ensures LocalOk(s', u, s'.threads[u]) {
      if u != t { PublishLocal(s, t, p, u, s.threads[u]); }
    }
  }

  // The consumer claims the head.

  lemma ClaimHeadSlot<T>(s: State<T>, t: nat, p: nat)
    requires Bounds(s) && HeadPublished(s) && SlotOk(s, s.head)
    requires s.head < p <= s.head + s.cap && (p < s.head + s.cap ==> SlotOk(s, p))
    ensures Bounds(ClaimHead(s, t)) && SlotOk(ClaimHead(s, t), p)
  {
    SlotPeriodic(s.head, s.cap);
  }

  lemma ClaimHeadLocal<T>(s: State<T>, t: nat, u: nat, l: Local<T>)
    requires Bounds(s) && HeadPublished(s) && s.head !in s.readers && LocalOk(s, u, l)
    ensures Bounds(ClaimHead(s, t)) && LocalOk(ClaimHead(s, t), u, l)
  {
  }

  lemma ClaimHeadKeepsInv<T>(s: State<T>, t: nat, r: Retry)
    requires Inv(s) && t in s.threads && s.threads[t] == PopCas(s.head, r)
    ensures Inv(ClaimHead(s, t))
  {
    var s' := ClaimHead(s, t);
    InvAt(s, t);
    assert SlotOk(s, s.head);
    assert s.head in s.readers ==> ReaderOk(s, s.head);
    forall p | s'.head <= p < s'.head + s'.cap ensures SlotOk(s', p) {
      ClaimHeadSlot(s, t, p);
    }
    forall p | p in s'.writers ensures WriterOk(s', p) {
      assert WriterOk(s, p);
    }
    forall p | p in s'.readers ensures ReaderOk(s', p) {
      if p != s.head { assert ReaderOk(s, p); }
    }
    forall u | u in s'.threads ensures LocalOk(s', u, s'.threads[u]) {
      if u != t { ClaimHeadLocal(s, t, u, s.threads[u]); }
    }
  }

  // The consumer reads and releases its slot.

  /** The slot of a position that is being read still holds that position's item. */
  lemma ReaderSeesItem<T>(s: State<T>, t: nat, p: nat)
    requires Inv(s) && t in s.threads && HasTaken(s.threads[t], p)
    ensures p in s.readers && s.readers[p] == t && ReaderOk(s, p) && p < s.head <= s.tail <= p + s.cap
    ensures s.data[Slot(p, s.cap)] == s.inserted[p] && s.seqs[Slot(p, s.cap)] == p + 1
  {
    InvAt(s, t);
    assert ReaderOk(s, p);
    SlotPeriodic(p, s.cap);
    assert SlotOk(s, p + s.cap);
  }

  lemma ReadKeepsInv<T>(s: State<T>, t: nat, p: nat)
    requires Inv(s) && t in s.threads && s.threads[t] == PopRead(p)
    ensures Inv(Set(s, t, PopRelease(p, s.data[Slot(p, s.cap)])))
  {
    var l' := PopRelease(p, s.data[Slot(p, s.cap)]);
    var s' := Set(s, t, l');
    ReaderSeesItem(s, t, p);
    forall q | s'.head <= q < s'.head + s'.cap ensures SlotOk(s', q) {
      assert SlotOk(s, q);
    }
    forall q | q in s'.writers ensures WriterOk(s', q) {
      assert WriterOk(s, q);
    }
    forall q | q in s'.readers ensures ReaderOk(s', q) {
      assert ReaderOk(s, q);
    }
    forall u | u in s'.threads ensures LocalOk(s', u, s'.threads[u]) {
      LocalIgnoresThreads(s, t, l', u, s'.threads[u]);
    }
  }

  lemma ReleaseSlot<T>(s: State<T>, t: nat, p: nat, v: T, q: nat)
    requires Bounds(s) && p in s.readers && p < s.head && s.tail <= p + s.cap
    requires s.head <= q < s.head + s.cap && SlotOk(s, q)
    ensures Bounds(Release(s, t, p, v)) && SlotOk(Release(s, t, p, v), q)
  {
    SlotPeriodic(p, s.cap);
    var r := p + s.cap;
    if r < q { SlotInjective(r, q, s.cap); }
    if q < r { SlotInjective(q, r, s.cap); }
  }

  lemma ReleaseLocal<T>(s: State<T>, t: nat, p: nat, v: T, u: nat, l: Local<T>)
    requires Bounds(s) && p in s.readers && s.readers[p] == t && u != t && LocalOk(s, u, l)
    ensures Bounds(Release(s, t, p, v)) && LocalOk(Release(s, t, p, v), u, l)
  {
  }

  lemma ReleaseKeepsInv<T>(s: State<T>, t: nat, p: nat, v: T)
    requires Inv(s) && t in s.threads && s.threads[t] == PopRelease(p, v)
    ensures Inv(Release(s, t, p, v))
  {
    var s' := Release(s, t, p, v);
    ReaderSeesItem(s, t, p);
    forall q | s'.head <= q < s'.head + s'.cap ensures SlotOk(s', q) {
      ReleaseSlot(s, t, p, v, q);
    }
    forall q | q in s'.writers ensures WriterOk(s', q) {
      assert WriterOk(s, q);
    }
    forall q | q in s'.readers ensures ReaderOk(s', q) {
      assert ReaderOk(s, q);
    }
    forall u | u in s'.threads ensures LocalOk(s', u, s'.threads[u]) {
      if u != t { ReleaseLocal(s, t, p, v, u, s.threads[u]); }
    }
  }

  /** Where a producer's sequence load leads. */
  lemma PushLoadKeepsInv<T>(s: State<T>, t: nat, x: T, p: nat, r: Retry)
    requires Inv(s) && t in s.threads && s.threads[t] == PushLoadSeq(x, p, r)
    ensures Inv(PushStep(s, t, s.threads[t], false))
  {
    InvAt(s, t);
    PushObserves(s, p);
    var q := s.seqs[Slot(p, s.cap)];
    SetKeepsInv(s, t, if q == p then PushCas(x, p, r) else if q < p then Idle(Pushed(false)) else PushReload(x, p, r));
  }

  lemma PopLoadKeepsInv<T>(s: State<T>, t: nat, p: nat, r: Retry)
    requires Inv(s) && t in s.threads && s.threads[t] == PopLoadSeq(p, r)
    ensures Inv(PopStep(s, t, s.threads[t], false))
  {
    InvAt(s, t);
    PopObserves(s, p);
    var q := s.seqs[Slot(p, s.cap)];
    SetKeepsInv(s, t, if q == p + 1 then PopCas(p, r) else if q < p + 1 then Idle(Popped(None)) else PopReload(p, r));
  }

  lemma PushStepKeepsInv<T>(s: State<T>, t: nat, spurious: bool)
    requires Inv(s) && t in s.threads && Pushing(s.threads[t])
    ensures Inv(PushStep(s, t, s.threads[t], spurious))
  {
    InvAt(s, t);
    match s.threads[t]
    case PushLoadTail(x) => SetKeepsInv(s, t, PushLoadSeq(x, s.tail, Retry(s.tail, 0, 0)));
    case PushLoadSeq(x, p, r) => PushLoadKeepsInv(s, t, x, p, r);
    case PushCas(x, p, r) =>
      if s.tail == p && !spurious {
        ClaimTailKeepsInv(s, t, x, r);
      } else {
        SetKeepsInv(s, t, PushLoadSeq(x, s.tail, NextRound(r, s.tail == p)));
      }
    case PushReload(x, p, r) => SetKeepsInv(s, t, PushLoadSeq(x, s.tail, NextRound(r, false)));
    case PushWrite(x, p) => WriteSlotKeepsInv(s, t, x, p);
    case PushPublish(x, p) => PublishKeepsInv(s, t, x, p);
  }

  lemma PopStepKeepsInv<T>(s: State<T>, t: nat, spurious: bool)
    requires Inv(s) && t in s.threads && Popping(s.threads[t])
    ensures Inv(PopStep(s, t, s.threads[t], spurious))
  {
    InvAt(s, t);
    match s.threads[t]
    case PopLoadHead => SetKeepsInv(s, t, PopLoadSeq(s.head, Retry(s.head, 0, 0)));
    case PopLoadSeq(p, r) => PopLoadKeepsInv(s, t, p, r);
    case PopCas(p, r) =>
      if s.head == p && !spurious {
        ClaimHeadKeepsInv(s, t, r);
      } else {
        SetKeepsInv(s, t, PopLoadSeq(s.head, NextRound(r, s.head == p)));
      }
    case PopReload(p, r) => SetKeepsInv(s, t, PopLoadSeq(s.head, NextRound(r, false)));
    case PopRead(p) => ReadKeepsInv(s, t, p);
    case PopRelease(p, v) => ReleaseKeepsInv(s, t, p, v);
  }

  lemma ExecKeepsInv<T>(s: State<T>, a: Action<T>)
    requires Inv(s)
    ensures Inv(Exec(s, a))
  {
    if a.t in s.threads {
      var l := s.threads[a.t];
      assert LocalOk(s, a.t, l);
      if a.Start? {
        if l.Idle? { SetKeepsInv(s, a.t, Enter(a.call)); }
      } else if Pushing(l) {
        PushStepKeepsInv(s, a.t, a.spurious);
      } else if Popping(l) {
        PopStepKeepsInv(s, a.t, a.spurious);
      } else if !l.Idle? {
        SetKeepsInv(s, a.t, SizeStep(s, a.t, l).threads[a.t]);
      }
    }
  }

  lemma InitInv<T>(cap: nat, junk: seq<T>, tids: set<nat>)
    requires cap >= 2 && IsPowerOfTwo(cap) && |junk| == cap
    ensures Inv(Init(cap, junk, tids))
  {
    var s := Init(cap, junk, tids);
    forall p | s.head <= p < s.head + s.cap ensures SlotOk(s, p) {
      SlotOfFirstLap(p, cap);
    }
  }

  /** Every reachable state, whatever the threads call and however they interleave. */
  lemma {:induction false} RunKeepsInv<T>(s: State<T>, acts: seq<Action<T>>)
    requires Inv(s)
    ensures Inv(Run(s, acts))
    decreases |acts|
  {
    if acts != [] {
      RunKeepsInv(s, acts[..|acts| - 1]);
      ExecKeepsInv(Run(s, acts[..|acts| - 1]), acts[|acts| - 1]);
    }
  }

  /** The state after `acts` on a freshly constructed queue. */
  function After<T>(cap: nat, junk: seq<T>, tids: set<nat>, acts: seq<Action<T>>): (s: State<T>)
    requires cap > 0 && |junk| == cap
    ensures Shape(s) && s.cap == cap
  {
    Run(Init(cap, junk, tids), acts)
  }

  lemma AfterInv<T>(cap: nat, junk: seq<T>, tids: set<nat>, acts: seq<Action<T>>)
    requires cap >= 2 && IsPowerOfTwo(cap) && |junk| == cap
    ensures Inv(After(cap, junk, tids, acts))
  {
    InitInv(cap, junk, tids);
    RunKeepsInv(Init(cap, junk, tids), acts);
  }
}
