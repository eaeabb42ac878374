/** What the ring of src/mpmc_queue.h does not guarantee, and exactly when it does: bounded
    retry loops, and a `false` that means full or empty. */
module RingLimits {
  import opened Bits
  import opened Ring
  import opened RingTheorems
  import opened RingSolo

  // ----- retry loops -----

  predicate NoSpurious<T>(acts: seq<Action<T>>) {
    forall i :: 0 <= i < |acts| ==> acts[i].Step? ==> !acts[i].spurious
  }

  /** At most one message is in the queue at every moment of the run. */
  ghost predicate Roomy<T>(s: State<T>, acts: seq<Action<T>>)
    requires Shape(s)
  {
    forall i :: 0 <= i <= |acts| ==> Run(s, acts[..i]).tail <= Run(s, acts[..i]).head + 1
  }

  lemma RoomyAppend<T>(s: State<T>, p: seq<Action<T>>, q: seq<Action<T>>)
    requires Shape(s) && Roomy(s, p) && Roomy(Run(s, p), q)
    ensures Roomy(s, p + q)
  {
    hide Exec;
    forall i | 0 <= i <= |p + q| ensures Run(s, (p + q)[..i]).tail <= Run(s, (p + q)[..i]).head + 1 {
      if i <= |p| {
        assert (p + q)[..i] == p[..i];
      } else {
        assert (p + q)[..i] == p + q[..i - |p|];
        RunAppend(s, p, q[..i - |p|]);
      }
    }
  }

  lemma RoomyPush<T>(s: State<T>, t: nat, x: T)
    requires Ready(s, t) && s.head == s.tail
    ensures Shape(s) && Roomy(s, PushActs(t, x, 6))
  {
    hide Exec, Inv, NothingInFlight;
    SlotsDecide(s);
    forall i | 0 <= i <= 6
      ensures Run(s, PushActs(t, x, 6)[..i]).tail <= Run(s, PushActs(t, x, 6)[..i]).head + 1
    {
      assert PushActs(t, x, 6)[..i] == PushActs(t, x, i);
      FreePushRun(s, t, x, i);
    }
  }

  lemma RoomyPop<T>(s: State<T>, t: nat)
    requires Ready(s, t) && s.head + 1 == s.tail
    ensures Shape(s) && Roomy(s, PopActs(t, 6))
  {
    hide Exec, Inv, NothingInFlight;
    SlotsDecide(s);
    forall i | 0 <= i <= 6
      ensures Run(s, PopActs(t, 6)[..i]).tail <= Run(s, PopActs(t, 6)[..i]).head + 1
    {
      assert PopActs<T>(t, 6)[..i] == PopActs(t, i);
      PopRun(s, t, i);
    }
  }

  /** Thread a is about to claim the tail of the empty ring, in its round n. */
  ghost predicate AboutToClaim<T>(s: State<T>, a: nat, n: nat) {
    && Inv(s) && NothingInFlight(s) && s.head == s.tail
    && a in s.threads && s.threads[a].PushCas? && s.threads[a].pos == s.tail
    && s.threads[a].retry.rounds == n && s.threads[a].retry.spurious == 0
  }

  /** Thread b pushes and pops one item; then a fails, and loads again. */
  function Round<T>(a: nat, b: nat, y: T): seq<Action<T>> {
    PushActs(b, y, 6) + PopActs(b, 6) + [Step(a, false)] + [Step(a, false)]
  }

  lemma RunOneMore<T>(s: State<T>, acts: seq<Action<T>>, a: Action<T>)
    requires Shape(s)
    ensures Run(s, acts + [a]) == Exec(Run(s, acts), a)
  {
    assert (acts + [a])[..|acts|] == acts;
  }

  lemma RoomyOneMore<T>(s: State<T>, acts: seq<Action<T>>, a: Action<T>)
    requires Shape(s) && Roomy(s, acts) && Exec(Run(s, acts), a).tail <= Exec(Run(s, acts), a).head + 1
    ensures Roomy(s, acts + [a])
  {
    hide Exec;
    RunOneMore(s, acts, a);
    forall i | 0 <= i <= |acts| + 1
      ensures Run(s, (acts + [a])[..i]).tail <= Run(s, (acts + [a])[..i]).head + 1
    {
      if i <= |acts| { assert (acts + [a])[..i] == acts[..i]; } else { assert (acts + [a])[..i] == acts + [a]; }
    }
  }

  /** The claim fails, because the tail has moved by one. */
  lemma ClaimFails<T>(s: State<T>, a: nat)
    requires Shape(s) && a in s.threads && s.threads[a].PushCas? && s.threads[a].pos + 1 == s.tail
    ensures var l := s.threads[a];
            Exec(s, Step(a, false)) == Set(s, a, PushLoadSeq(l.item, s.tail, NextRound(l.retry, false)))
  {
  }

  lemma LoadSucceeds<T>(s: State<T>, a: nat)
    requires Inv(s) && NothingInFlight(s) && s.head == s.tail
    requires a in s.threads && s.threads[a].PushLoadSeq? && s.threads[a].pos == s.tail
    ensures Shape(s)
    ensures var l := s.threads[a]; Exec(s, Step(a, false)) == Set(s, a, PushCas(l.item, s.tail, l.retry))
  {
    SlotsDecide(s);
  }

  /** What b's push and pop leave: the same ring, one position further on. */
  lemma OthersWork<T>(s: State<T>, b: nat, y: T)
    requires Ready(s, b) && s.head == s.tail
    ensures Shape(s)
    ensures var acts := PushActs(b, y, 6) + PopActs(b, 6); var s' := Run(s, acts);
            && Roomy(s, acts) && Ready(s', b) && s'.head == s'.tail == s.tail + 1
            && s'.threads == s.threads[b := s'.threads[b]]
  {
    hide Exec, Inv, NothingInFlight, PushAt, PopAt, Roomy;
    SlotsDecide(s);
    PushDone(s, b, y);
    FreePushRun(s, b, y, 6);
    RoomyPush(s, b, y);
    var s1 := PushAt(s, b, y, 6);
    PopDone(s1, b);
    PopRun(s1, b, 6);
    RoomyPop(s1, b);
    RunAppend(s, PushActs(b, y, 6), PopActs(b, 6));
    RoomyAppend(s, PushActs(b, y, 6), PopActs(b, 6));
  }

  lemma OneRound<T>(s: State<T>, a: nat, b: nat, y: T, n: nat)
    requires AboutToClaim(s, a, n) && a != b && b in s.threads && s.threads[b].Idle?
    ensures Shape(s) && Roomy(s, Round(a, b, y))
    ensures var s' := Run(s, Round(a, b, y)); AboutToClaim(s', a, n + 1) && b in s'.threads && s'.threads[b].Idle?
  {
    hide Exec, Inv, NothingInFlight, Roomy;
    var acts := PushActs(b, y, 6) + PopActs(b, 6);
    OthersWork(s, b, y);
    var s1 := Run(s, acts);
    SlotsDecide(s1);
    ClaimFails(s1, a);
    ExecKeepsInv(s1, Step(a, false));
    var s2 := Exec(s1, Step(a, false));
    StillQuiet(s1, a, s2.threads[a]);
    LoadSucceeds(s2, a);
    ExecKeepsInv(s2, Step(a, false));
    var s3 := Exec(s2, Step(a, false));
    StillQuiet(s2, a, s3.threads[a]);
    RunOneMore(s, acts, Step(a, false));
    RoomyOneMore(s, acts, Step(a, false));
    RunOneMore(s, acts + [Step(a, false)], Step(a, false));
    RoomyOneMore(s, acts + [Step(a, false)], Step(a, false));
  }

  lemma StillQuiet<T>(s: State<T>, t: nat, l: Local<T>)
    requires NothingInFlight(s) && OwnsNothing(l)
    ensures NothingInFlight(Set(s, t, l))
  {
  }

  /** Up to the first claim attempt. */
  lemma FirstAttempt<T>(cap: nat, junk: seq<T>, tids: set<nat>, a: nat, x: T)
    requires cap >= 2 && IsPowerOfTwo(cap) && |junk| == cap && a in tids
    ensures var s0, acts := Init(cap, junk, tids), PushActs(a, x, 3);
            && AboutToClaim(Run(s0, acts), a, 0) && Roomy(s0, acts)
            && Run(s0, acts).threads == s0.threads[a := Run(s0, acts).threads[a]]
  {
    hide Exec, Inv, NothingInFlight;
    var s0 := Init(cap, junk, tids);
    InitInv(cap, junk, tids);
    NothingYet(cap, junk, tids);
    SlotsDecide(s0);
    forall i | 0 <= i <= 3 ensures Run(s0, PushActs(a, x, 3)[..i]).tail <= Run(s0, PushActs(a, x, 3)[..i]).head + 1 {
      assert PushActs(a, x, 3)[..i] == PushActs(a, x, i);
      FreePushRun(s0, a, x, i);
    }
    FreePushRun(s0, a, x, 3);
    RunKeepsInv(s0, PushActs(a, x, 3));
    StillQuiet(s0, a, PushCas(x, 0, Retry(0, 0, 0)));
  }

  lemma NothingYet<T>(cap: nat, junk: seq<T>, tids: set<nat>)
    requires cap > 0 && |junk| == cap
    ensures NothingInFlight(Init(cap, junk, tids))
  {
  }

  /** The run in which thread a, in one call of `try_push` on a ring that never holds more than
      one message, has been overtaken n times, without a spurious failure. */
  lemma {:induction false} OvertakenTimes<T>(
    cap: nat, junk: seq<T>, tids: set<nat>, a: nat, b: nat, x: T, y: T, n: nat) returns (acts: seq<Action<T>>)
    requires cap >= 2 && IsPowerOfTwo(cap) && |junk| == cap && a in tids && b in tids && a != b
    ensures NoSpurious(acts) && Roomy(Init(cap, junk, tids), acts)
    ensures var s := After(cap, junk, tids, acts); AboutToClaim(s, a, n) && b in s.threads && s.threads[b].Idle?
    decreases n
  {
    hide Exec, Inv, NothingInFlight, Roomy;
    var s0 := Init(cap, junk, tids);
    if n == 0 {
      acts := PushActs(a, x, 3);
      FirstAttempt(cap, junk, tids, a, x);
    } else {
      var before := OvertakenTimes(cap, junk, tids, a, b, x, y, n - 1);
      acts := before + Round(a, b, y);
      OneRound(Run(s0, before), a, b, y, n - 1);
      RunAppend(s0, before, Round(a, b, y));
      RoomyAppend(s0, before, Round(a, b, y));
    }
  }

  /** The rounds a thread's call has spent. */
  function Rounds<T>(l: Local<T>): nat {
    if l.PushLoadSeq? || l.PushCas? || l.PushReload? || l.PopLoadSeq? || l.PopCas? || l.PopReload?
    then l.retry.rounds else 0
  }

  /** A call that nobody has overtaken. */
  predicate Undisturbed<T>(s: State<T>, l: Local<T>) {
    && Rounds(l) == 0 && !l.PushReload? && !l.PopReload?
    && (l.PushLoadSeq? || l.PushCas? ==> l.pos == s.tail)
    && (l.PopLoadSeq? || l.PopCas? ==> l.pos == s.head)
  }

  lemma AloneStep<T>(s: State<T>, a: Action<T>)
    requires Inv(s) && a.t in s.threads && Undisturbed(s, s.threads[a.t]) && (a.Step? ==> !a.spurious)
    ensures a.t in Exec(s, a).threads && Undisturbed(Exec(s, a), Exec(s, a).threads[a.t])
  {
    PushObserves(s, s.tail);
    PopObserves(s, s.head);
    if a.Step? && Pushing(s.threads[a.t]) {
      AlonePush(s, a.t);
    } else if a.Step? && Popping(s.threads[a.t]) {
      AlonePop(s, a.t);
    }
  }

  lemma AlonePush<T>(s: State<T>, t: nat)
    requires Shape(s) && t in s.threads && Pushing(s.threads[t]) && Undisturbed(s, s.threads[t])
    requires s.seqs[Slot(s.tail, s.cap)] <= s.tail
    ensures var s' := PushStep(s, t, s.threads[t], false); t in s'.threads && Undisturbed(s', s'.threads[t])
  {
  }

  lemma AlonePop<T>(s: State<T>, t: nat)
    requires Shape(s) && t in s.threads && Popping(s.threads[t]) && Undisturbed(s, s.threads[t])
    requires s.seqs[Slot(s.head, s.cap)] <= s.head + 1
    ensures var s' := PopStep(s, t, s.threads[t], false); t in s'.threads && Undisturbed(s', s'.threads[t])
  {
  }

  predicate AtMostOne(tids: set<nat>) {
    forall a, b :: a in tids && b in tids ==> a == b
  }

  lemma {:induction false} AloneIsUndisturbed<T>(cap: nat, junk: seq<T>, tids: set<nat>, acts: seq<Action<T>>)
    requires cap >= 2 && IsPowerOfTwo(cap) && |junk| == cap && AtMostOne(tids) && NoSpurious(acts)
    ensures var s := After(cap, junk, tids, acts);
            s.threads.Keys <= tids && forall t :: t in s.threads ==> Undisturbed(s, s.threads[t])
    decreases |acts|
  {
    hide Inv, Exec, Undisturbed;
    if acts == [] {
      InitUndisturbed(cap, junk, tids);
    } else {
      var before, a := acts[..|acts| - 1], acts[|acts| - 1];
      AloneIsUndisturbed(cap, junk, tids, before);
      AfterInv(cap, junk, tids, before);
      var s := After(cap, junk, tids, before);
      forall t | t in Exec(s, a).threads ensures t in tids && Undisturbed(Exec(s, a), Exec(s, a).threads[t]) {
        if t != a.t { OthersUntouched(s, a, t); }
        if a.t in s.threads {
          AloneStep(s, a);
        } else {
          NobodyThere(s, a);
        }
      }
    }
  }

  lemma InitUndisturbed<T>(cap: nat, junk: seq<T>, tids: set<nat>)
    requires cap > 0 && |junk| == cap
    ensures var s := Init(cap, junk, tids);
            s.threads.Keys <= tids && forall t :: t in s.threads ==> Undisturbed(s, s.threads[t])
  {
  }

  lemma NobodyThere<T>(s: State<T>, a: Action<T>)
    requires Shape(s) && a.t !in s.threads
    ensures Exec(s, a) == s
  {
  }

  ghost predicate RoundsAtMost<T(!new)>(cap: nat, tids: set<nat>, bound: nat)
    requires cap > 0
  {
    forall junk: seq<T>, acts: seq<Action<T>>, t: nat ::
      |junk| == cap && NoSpurious(acts) && t in After(cap, junk, tids, acts).threads ==>
        Rounds(After(cap, junk, tids, acts).threads[t]) <= bound
  }

  /** Wait-freedom, exactly: without spurious failures, the rounds of a call are bounded over
      all runs if and only if there is at most one thread. */
  lemma RoundsAreBoundedIffAlone<T(!new)>(cap: nat, tids: set<nat>, x: T)
    requires cap >= 2 && IsPowerOfTwo(cap)
    ensures (exists bound: nat :: RoundsAtMost<T>(cap, tids, bound)) <==> AtMostOne(tids)
  {
    hide Inv, Exec, NothingInFlight, Roomy;
    if AtMostOne(tids) {
      forall junk: seq<T>, acts: seq<Action<T>>, t: nat |
        |junk| == cap && NoSpurious(acts) && t in After(cap, junk, tids, acts).threads
        ensures Rounds(After(cap, junk, tids, acts).threads[t]) <= 0
      {
        AloneIsUndisturbed(cap, junk, tids, acts);
      }
      assert RoundsAtMost<T>(cap, tids, 0);
    } else {
      var a, b :| a in tids && b in tids && a != b;
      forall bound: nat ensures !RoundsAtMost<T>(cap, tids, bound) {
        var junk := seq(cap, _ => x);
        var acts := OvertakenTimes(cap, junk, tids, a, b, x, x, bound + 1);
        assert Rounds(After(cap, junk, tids, acts).threads[a]) == bound + 1;
      }
    }
  }

  // ----- false -----

  /** A pop that gives up finds the queue empty if and only if nobody is still publishing the
      oldest message. */
  lemma PopRefusalMeansEmptyIff<T>(
    cap: nat, junk: seq<T>, tids: set<nat>, acts: seq<Action<T>>, t: nat, p: nat, r: Retry)
    requires cap >= 2 && IsPowerOfTwo(cap) && |junk| == cap
    requires var s := After(cap, junk, tids, acts);
             && t in s.threads && s.threads[t] == PopLoadSeq(p, r)
             && Exec(s, Step(t, false)).threads[t] == Idle(Popped(None))
    ensures var s := After(cap, junk, tids, acts); Bounds(s) && (Contents(s) == [] <==> s.head !in s.writers)
  {
    hide Exec;
    var s := After(cap, junk, tids, acts);
    AfterInv(cap, junk, tids, acts);
    PopFailsIff(cap, junk, tids, acts, t, p, r);
    assert forall q :: q in s.writers ==> WriterOk(s, q);
  }

  /** A push that gives up finds the queue full if and only if nobody is still reading the
      message one lap back. */
  lemma PushRefusalMeansFullIff<T>(
    cap: nat, junk: seq<T>, tids: set<nat>, acts: seq<Action<T>>, t: nat, x: T, p: nat, r: Retry)
    requires cap >= 2 && IsPowerOfTwo(cap) && |junk| == cap
    requires var s := After(cap, junk, tids, acts);
             && t in s.threads && s.threads[t] == PushLoadSeq(x, p, r)
             && Exec(s, Step(t, false)).threads[t] == Idle(Pushed(false))
    ensures var s := After(cap, junk, tids, acts);
            Bounds(s) && s.tail >= cap && (|Contents(s)| == cap <==> s.tail - cap !in s.readers)
  {
    hide Exec;
    var s := After(cap, junk, tids, acts);
    AfterInv(cap, junk, tids, acts);
    PushFailsIff(cap, junk, tids, acts, t, x, p, r);
    assert forall q :: q in s.readers ==> ReaderOk(s, q);
  }

  /** Items that went in and never came out are there. */
  lemma {:induction false} NothingTakenNothingEmpty<T>(ops: seq<Op<T>>, cap: nat)
    requires forall i :: 0 <= i < |ops| ==> ops[i].Enq?
    ensures Fifo(ops, cap).None? || |Fifo(ops, cap).value| == |ops|
    decreases |ops|
  {
    if ops != [] {
      NothingTakenNothingEmpty(ops[..|ops| - 1], cap);
    }
  }

  /** A returned push is in the queue in every FIFO history without a pop. */
  ghost predicate NeverEmptyAgain<T(!new)>(op: Op<T>, cap: nat) {
    forall ops: seq<Op<T>> :: op in ops && (forall i :: 0 <= i < |ops| ==> ops[i].Enq?) ==> Fifo(ops, cap) != Some([])
  }

  lemma ReturnedPushStays<T(!new)>(op: Op<T>, cap: nat)
    ensures NeverEmptyAgain(op, cap)
  {
    forall ops: seq<Op<T>> | op in ops && forall i :: 0 <= i < |ops| ==> ops[i].Enq?
      ensures Fifo(ops, cap) != Some([])
    {
      NothingTakenNothingEmpty(ops, cap);
    }
  }

  /** Thread c pops while the oldest slot is unpublished. */
  function PopThree<T>(c: nat): seq<Action<T>> {
    [Start(c, TryPop), Step(c, false), Step(c, false)]
  }

  lemma PopIsRefused<T>(s: State<T>, c: nat)
    requires Shape(s) && c in s.threads && s.threads[c].Idle? && s.seqs[Slot(s.head, s.cap)] < s.head + 1
    ensures Run(s, PopThree(c)) == Set(s, c, Idle(Popped(None)))
  {
    var s1, s2 := Set(s, c, PopLoadHead), Set(s, c, PopLoadSeq(s.head, Retry(s.head, 0, 0)));
    SetTwice(s, c, PopLoadHead, PopLoadSeq(s.head, Retry(s.head, 0, 0)));
    assert Exec(s, Start(c, TryPop)) == s1 && Exec(s1, Step(c, false)) == s2;
    SetTwice(s, c, PopLoadSeq(s.head, Retry(s.head, 0, 0)), Idle(Popped(None)));
    RunThree(s, Start(c, TryPop), Step(c, false), Step(c, false));
  }

  /** Thread a claims the first position and stops; thread b's push returns. */
  lemma PushPastAStoppedOne<T>(cap: nat, junk: seq<T>, tids: set<nat>, a: nat, b: nat, x: T, y: T)
    requires cap >= 2 && IsPowerOfTwo(cap) && |junk| == cap && a in tids && b in tids && a != b
    ensures var s := After(cap, junk, tids, PushActs(a, x, 4) + PushActs(b, y, 6));
            && s.threads == Init(cap, junk, tids).threads[a := PushWrite(x, 0)][b := Idle(Pushed(true))]
            && s.inserted == [x, y] && s.head == 0 && s.cap == cap && s.seqs[Slot(0, cap)] == 0
  {
    hide Exec;
    var s0 := Init(cap, junk, tids);
    SlotOfFirstLap(0, cap);
    SlotOfFirstLap(1, cap);
    FreePushRun(s0, a, x, 4);
    var s1 := ClaimTail(s0, a, x);
    FreePushRun(s1, b, y, 6);
    RunAppend(s0, PushActs(a, x, 4), PushActs(b, y, 6));
  }

  /** The run that no FIFO history explains: b's push has returned before c calls `try_pop`,
      nothing is ever taken, and c is told the queue is empty. */
  lemma RefusalIsNotLinearizable<T(!new)>(
    cap: nat, junk: seq<T>, tids: set<nat>, a: nat, b: nat, c: nat, x: T, y: T)
    requires cap >= 2 && IsPowerOfTwo(cap) && |junk| == cap
    requires a in tids && b in tids && c in tids && a != b && b != c && a != c
    ensures var before := PushActs(a, x, 4) + PushActs(b, y, 6);
            var s, s' := After(cap, junk, tids, before), After(cap, junk, tids, before + PopThree(c));
            && b in s.threads && c in s.threads && c in s'.threads
            && s.threads[b] == Idle(Pushed(true)) && s.threads[c] == Idle(NoCall) && y in s.inserted && s.head == 0
            && s'.threads[c] == Idle(Popped(None)) && s'.inserted == s.inserted && s'.head == 0
            && NeverEmptyAgain(Enq(b, y), cap)
  {
    hide Exec;
    var before := PushActs(a, x, 4) + PushActs(b, y, 6);
    PushPastAStoppedOne(cap, junk, tids, a, b, x, y);
    PopIsRefused(After(cap, junk, tids, before), c);
    RunAppend(Init(cap, junk, tids), before, PopThree(c));
    ReturnedPushStays(Enq(b, y), cap);
  }
}
