/** One undisturbed call on the ring of module Ring, step by step: what the thread does while
    all others pause, none of them between its claim and its publish or release. */
module RingSolo {
  import opened Bits
  import opened Ring
  import opened RingTheorems

  ghost predicate Ready<T>(s: State<T>, t: nat) {
    Inv(s) && NothingInFlight(s) && t in s.threads && s.threads[t].Idle?
  }

  /** The i-th action of the call, and the state before it. */
  function PushAction<T>(t: nat, x: T, i: nat): Action<T> {
    if i == 0 then Start(t, TryPush(x)) else Step(t, false)
  }

  function PopAction<T>(t: nat, i: nat): Action<T> {
    if i == 0 then Start(t, TryPop) else Step(t, false)
  }

  function PushAt<T>(s: State<T>, t: nat, x: T, i: nat): (s': State<T>)
    requires Shape(s)
    ensures Shape(s')
  {
    var r := Retry(s.tail, 0, 0);
    if i == 0 then s
    else if i == 1 then Set(s, t, PushLoadTail(x))
    else if i == 2 then Set(s, t, PushLoadSeq(x, s.tail, r))
    else if i == 3 then Set(s, t, PushCas(x, s.tail, r))
    else if i == 4 then ClaimTail(s, t, x)
    else if i == 5 then WriteSlot(ClaimTail(s, t, x), t, x, s.tail)
    else Publish(WriteSlot(ClaimTail(s, t, x), t, x, s.tail), t, s.tail)
  }

  function PopAt<T>(s: State<T>, t: nat, i: nat): (s': State<T>)
    requires Shape(s)
    ensures Shape(s')
  {
    var r, v := Retry(s.head, 0, 0), s.data[Slot(s.head, s.cap)];
    if i == 0 then s
    else if i == 1 then Set(s, t, PopLoadHead)
    else if i == 2 then Set(s, t, PopLoadSeq(s.head, r))
    else if i == 3 then Set(s, t, PopCas(s.head, r))
    else if i == 4 then ClaimHead(s, t)
    else if i == 5 then Set(ClaimHead(s, t), t, PopRelease(s.head, v))
    else Release(Set(ClaimHead(s, t), t, PopRelease(s.head, v)), t, s.head, v)
  }

  lemma NobodyOwns<T>(s: State<T>)
    requires Inv(s) && NothingInFlight(s)
    ensures s.writers == map[] && s.readers == map[]
  {
    assert forall p :: p in s.writers ==> !NothingInFlight(s);
    assert forall p :: p in s.readers ==> !NothingInFlight(s);
  }

  /** With room, the tail's slot is free; with an item, the head's slot is published. */
  lemma SlotsDecide<T>(s: State<T>)
    requires Inv(s) && NothingInFlight(s)
    ensures Bounds(s)
    ensures |Contents(s)| < s.cap ==> s.seqs[Slot(s.tail, s.cap)] == s.tail
    ensures Contents(s) != [] ==>
              s.seqs[Slot(s.head, s.cap)] == s.head + 1 && s.data[Slot(s.head, s.cap)] == s.inserted[s.head]
  {
    NobodyOwns(s);
    PushObserves(s, s.tail);
    PopObserves(s, s.head);
    assert SlotOk(s, s.head);
  }

  lemma SetTwice<T>(s: State<T>, t: nat, l: Local<T>, m: Local<T>)
    ensures Set(Set(s, t, l), t, m) == Set(s, t, m)
  {
    assert s.threads[t := l][t := m] == s.threads[t := m];
  }

  lemma PushLoads<T>(s: State<T>, t: nat, x: T, i: nat)
    requires Shape(s) && t in s.threads && s.threads[t].Idle? && s.seqs[Slot(s.tail, s.cap)] == s.tail && i < 3
    ensures Exec(PushAt(s, t, x, i), PushAction(t, x, i)) == PushAt(s, t, x, i + 1)
  {
    hide PopStep, SizeStep;
    var r := Retry(s.tail, 0, 0);
    if i == 1 {
      SetTwice(s, t, PushLoadTail(x), PushLoadSeq(x, s.tail, r));
    } else if i == 2 {
      SetTwice(s, t, PushLoadSeq(x, s.tail, r), PushCas(x, s.tail, r));
    }
  }

  lemma PushStores<T>(s: State<T>, t: nat, x: T, i: nat)
    requires Shape(s) && t in s.threads && 3 <= i < 6
    ensures Exec(PushAt(s, t, x, i), PushAction(t, x, i)) == PushAt(s, t, x, i + 1)
  {
    hide PopStep, SizeStep;
    if i == 3 {
      SetTwice(s, t, PushCas(x, s.tail, Retry(s.tail, 0, 0)), PushWrite(x, s.tail));
    }
  }

  lemma PushNext<T>(s: State<T>, t: nat, x: T, i: nat)
    requires Ready(s, t) && |Contents(s)| < s.cap && i < 6
    ensures Shape(s) && Exec(PushAt(s, t, x, i), PushAction(t, x, i)) == PushAt(s, t, x, i + 1)
  {
    hide Inv, NothingInFlight, Exec, PushAt;
    SlotsDecide(s);
    if i < 3 { PushLoads(s, t, x, i); } else { PushStores(s, t, x, i); }
  }

  lemma PopLoads<T>(s: State<T>, t: nat, i: nat)
    requires Shape(s) && t in s.threads && s.threads[t].Idle? && s.seqs[Slot(s.head, s.cap)] == s.head + 1 && i < 3
    ensures Exec(PopAt(s, t, i), PopAction(t, i)) == PopAt(s, t, i + 1)
  {
    hide PushStep, SizeStep;
    var r := Retry(s.head, 0, 0);
    if i == 1 {
      SetTwice(s, t, PopLoadHead, PopLoadSeq(s.head, r));
    } else if i == 2 {
      SetTwice(s, t, PopLoadSeq(s.head, r), PopCas(s.head, r));
    }
  }

  lemma PopStores<T>(s: State<T>, t: nat, i: nat)
    requires Shape(s) && t in s.threads && 3 <= i < 6
    ensures Exec(PopAt(s, t, i), PopAction(t, i)) == PopAt(s, t, i + 1)
  {
    hide PushStep, SizeStep;
    if i == 3 {
      SetTwice(s, t, PopCas(s.head, Retry(s.head, 0, 0)), PopRead(s.head));
    } else if i == 4 {
      assert PopAt(s, t, 4).threads[t] == PopRead(s.head);
    } else {
      assert PopAt(s, t, 5).threads[t] == PopRelease(s.head, s.data[Slot(s.head, s.cap)]);
    }
  }

  lemma PopNext<T>(s: State<T>, t: nat, i: nat)
    requires Ready(s, t) && Contents(s) != [] && i < 6
    ensures Shape(s) && Exec(PopAt(s, t, i), PopAction(t, i)) == PopAt(s, t, i + 1)
  {
    hide Inv, NothingInFlight, Exec, PopAt;
    SlotsDecide(s);
    if i < 3 { PopLoads(s, t, i); } else { PopStores(s, t, i); }
  }

  /** The finished push: the item is behind the others, and nothing is in flight. */
  lemma PushDone<T>(s: State<T>, t: nat, x: T)
    requires Ready(s, t) && |Contents(s)| < s.cap
    ensures var s' := PushAt(s, t, x, 6);
            && Ready(s', t) && s'.cap == s.cap && s'.head == s.head && s'.tail == s.tail + 1
            && Contents(s') == Contents(s) + [x]
            && s'.threads == s.threads[t := Idle(Pushed(true))]
  {
    hide NothingInFlight, Inv, Exec;
    PushChain(s, t, x);
    PushThreads(s, t, x);
  }

  lemma PushThreads<T>(s: State<T>, t: nat, x: T)
    requires Bounds(s) && NothingInFlight(s) && t in s.threads
    ensures var s' := PushAt(s, t, x, 6);
            && s'.threads == s.threads[t := Idle(Pushed(true))] && NothingInFlight(s')
            && s'.cap == s.cap && s'.head == s.head && s'.tail == s.tail + 1 && s'.inserted == s.inserted + [x]
  {
  }

  lemma PushChain<T>(s: State<T>, t: nat, x: T)
    requires Ready(s, t) && |Contents(s)| < s.cap
    ensures Bounds(s) && Inv(PushAt(s, t, x, 6)) && Bounds(PushAt(s, t, x, 6))
  {
    hide Exec, NothingInFlight, PushAt;
    PushStart(s, t, x);
    for i := 0 to 6
      invariant Inv(PushAt(s, t, x, i))
    {
      PushNext(s, t, x, i);
      ExecKeepsInv(PushAt(s, t, x, i), PushAction(t, x, i));
    }
  }

  lemma PushStart<T>(s: State<T>, t: nat, x: T)
    requires Shape(s)
    ensures PushAt(s, t, x, 0) == s
  {
  }

  /** The finished pop: it returns the oldest item. */
  lemma PopDone<T>(s: State<T>, t: nat)
    requires Ready(s, t) && Contents(s) != []
    ensures var s' := PopAt(s, t, 6);
            && Ready(s', t) && s'.cap == s.cap && s'.head == s.head + 1 && s'.tail == s.tail
            && Contents(s') == Contents(s)[1..]
            && s'.threads == s.threads[t := Idle(Popped(Some(Contents(s)[0])))]
  {
    hide NothingInFlight, Inv, Exec;
    SlotsDecide(s);
    PopChain(s, t);
    PopThreads(s, t);
  }

  lemma PopThreads<T>(s: State<T>, t: nat)
    requires Bounds(s) && NothingInFlight(s) && t in s.threads && s.head < s.tail
    requires s.data[Slot(s.head, s.cap)] == s.inserted[s.head]
    ensures var s' := PopAt(s, t, 6);
            && s'.threads == s.threads[t := Idle(Popped(Some(s.inserted[s.head])))] && NothingInFlight(s')
            && s'.cap == s.cap && s'.head == s.head + 1 && s'.tail == s.tail && s'.inserted == s.inserted
  {
  }

  lemma PopChain<T>(s: State<T>, t: nat)
    requires Ready(s, t) && Contents(s) != []
    ensures Bounds(s) && Inv(PopAt(s, t, 6)) && Bounds(PopAt(s, t, 6))
  {
    hide Exec, NothingInFlight, PopAt;
    PopStart(s, t);
    for i := 0 to 6
      invariant Inv(PopAt(s, t, i))
    {
      PopNext(s, t, i);
      ExecKeepsInv(PopAt(s, t, i), PopAction(t, i));
    }
  }

  lemma PopStart<T>(s: State<T>, t: nat)
    requires Shape(s)
    ensures PopAt(s, t, 0) == s
  {
  }

  // ----- as runs -----

  function PushActs<T>(t: nat, x: T, n: nat): (acts: seq<Action<T>>)
    ensures |acts| == n
  {
    seq(n, i requires 0 <= i < n => PushAction(t, x, i))
  }

  function PopActs<T>(t: nat, n: nat): (acts: seq<Action<T>>)
    ensures |acts| == n
  {
    seq(n, i requires 0 <= i < n => PopAction(t, i))
  }

  /** A push whose slot is free runs through whatever others have in flight. */
  lemma {:induction false} FreePushRun<T>(s: State<T>, t: nat, x: T, n: nat)
    requires Shape(s) && t in s.threads && s.threads[t].Idle? && s.seqs[Slot(s.tail, s.cap)] == s.tail && n <= 6
    ensures Run(s, PushActs(t, x, n)) == PushAt(s, t, x, n)
    decreases n
  {
    hide Exec, PushAt;
    if n == 0 {
      PushStart(s, t, x);
    } else {
      FreePushRun(s, t, x, n - 1);
      if n - 1 < 3 { PushLoads(s, t, x, n - 1); } else { PushStores(s, t, x, n - 1); }
      assert PushActs(t, x, n)[..n - 1] == PushActs(t, x, n - 1);
    }
  }

  lemma {:induction false} PopRun<T>(s: State<T>, t: nat, n: nat)
    requires Ready(s, t) && Contents(s) != [] && n <= 6
    ensures Run(s, PopActs(t, n)) == PopAt(s, t, n)
    decreases n
  {
    hide Inv, NothingInFlight, Exec, PopAt;
    SlotsDecide(s);
    if n == 0 {
      PopStart(s, t);
    } else {
      PopRun(s, t, n - 1);
      PopNext(s, t, n - 1);
      assert PopActs<T>(t, n)[..n - 1] == PopActs(t, n - 1);
    }
  }
}
