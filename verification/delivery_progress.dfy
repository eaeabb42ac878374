/** The message path of module Delivery never gets stuck: every call can go on, and from every
    reachable state the messages under way can be delivered without a further post, as long as
    some thread is left to dispatch. */
module DeliveryProgress {
  import opened Bits
  import Ring
  import RingTheorems
  import RingSolo
  import Life = Lifecycle
  import opened Delivery
  import opened DeliveryTheorems
  import opened DeliveryFrames

  function Go(t: nat, c: Life.Choice): Action {
    Step(t, false, c)
  }

  function NoChoice(): Life.Choice {
    Life.Choice(0, false, false)
  }

  predicate Holding(l: Ring.Local<nat>) {
    l.PushWrite? || l.PushPublish? || l.PopRead? || l.PopRelease?
  }

  // ----- the measure -----

  /** Steps left for a queued message: its claim, its callbacks and releases, its return. */
  const PER_MESSAGE := 40

  function CallbacksLeft(i: nat): nat {
    if i <= Life.MAX_OBSERVERS then Life.MAX_OBSERVERS - i else 0
  }

  /** Steps left for the message a thread has in hand. */
  function LifeStage(l: Life.Local): nat {
    match l
    case PostHeader(_, _, _, _) => PER_MESSAGE + 10
    case PostSnapshot(_, _, _, _) => PER_MESSAGE + 9
    case PostBody(_, _, _) => PER_MESSAGE + 8
    case PostAddRefs(_, _) => PER_MESSAGE + 7
    case PostPush(_) => PER_MESSAGE + 6
    case DispLoop(_, i) => 2 * CallbacksLeft(i) + 2
    case DispRelease(_, i) => 2 * CallbacksLeft(i) + 1
    case DispReturn(_) => 1
    case _ => 0
  }

  /** Steps left after a claim in the ring. */
  function RingStage(l: Ring.Local<nat>): nat {
    if l.PushWrite? || l.PopRead? then 2 else if l.PushPublish? || l.PopRelease? then 1 else 0
  }

  ghost function Sum(m: map<nat, nat>): nat
    decreases |m|
  {
    if m == map[] then 0 else
    var t :| t in m;
    assert (m - {t}).Keys == m.Keys - {t};
    m[t] + Sum(m - {t})
  }

  /** The sum may be taken apart at any thread. */
  lemma {:induction false} SumAt(m: map<nat, nat>, t: nat)
    requires t in m
    ensures Sum(m) == m[t] + Sum(m - {t})
    decreases |m|
  {
    var u :| u in m && Sum(m) == m[u] + Sum(m - {u});
    if u != t {
      assert (m - {u}).Keys == m.Keys - {u};
      SumAt(m - {u}, t);
      assert (m - {t}).Keys == m.Keys - {t};
      assert (m - {u}) - {t} == (m - {t}) - {u};
      assert |m - {t}| < |m| && u in m - {t};
      SumAt(m - {t}, u);
    }
  }

  predicate SameThreads(s: State) {
    s.ring.threads.Keys == s.life.threads.Keys
  }

  function Stages(s: State): map<nat, nat>
    requires SameThreads(s)
  {
    map t | t in s.life.threads :: RingStage(s.ring.threads[t]) + LifeStage(s.life.threads[t])
  }

  ghost function Measure(s: State): nat
    requires SameThreads(s)
  {
    Sum(Stages(s)) + PER_MESSAGE * |s.life.queue|
  }

  lemma InvThreads(s: State)
    requires Inv(s)
    ensures Ring.Bounds(s.ring) && SameThreads(s)
  {
    Ring.InvBounds(s.ring);
  }

  /** Only thread t counts when comparing the states before and after its step. */
  lemma MeasureMoves(s: State, a: Action)
    requires Inv(s) && a.t in s.life.threads
    ensures Ring.Shape(s.ring)
    ensures var s', t := Exec(s, a), a.t;
            && Inv(s') && SameThreads(s) && SameThreads(s') && t in s'.life.threads
            && Measure(s') - PER_MESSAGE * |s'.life.queue| - Stages(s')[t] ==
               Measure(s) - PER_MESSAGE * |s.life.queue| - Stages(s)[t]
            && forall u :: u in s.life.threads && u != t ==>
                 && u in s'.life.threads && s'.life.threads[u] == s.life.threads[u]
                 && s'.ring.threads[u] == s.ring.threads[u]
  {
    hide Ring.Inv, Life.Inv, Exec, Inv, RingStage, LifeStage;
    InvThreads(s);
    ExecKeepsInv(s, a);
    var s', t := Exec(s, a), a.t;
    InvThreads(s');
    forall u: nat
      ensures u in s'.life.threads <==> u in s.life.threads
      ensures u in s.life.threads && u != t ==>
                s'.life.threads[u] == s.life.threads[u] && s'.ring.threads[u] == s.ring.threads[u]
    {
      DeliveryRingThreads(s, a, u);
      DeliveryLifeThreads(s, a, u);
    }
    SumAt(Stages(s), t);
    SumAt(Stages(s'), t);
    assert Stages(s) - {t} == Stages(s') - {t};
  }

  // ----- steps inside the ring -----

  /** After a claim every step leads on, and changes nothing else. */
  lemma HoldingGoesOn(s: State, t: nat)
    requires Inv(s) && t in s.ring.threads && Holding(s.ring.threads[t])
    ensures Ring.Shape(s.ring)
    ensures var s' := Exec(s, Go(t, NoChoice()));
            s'.life == s.life && t in s'.ring.threads && RingStage(s'.ring.threads[t]) < RingStage(s.ring.threads[t])
  {
    hide Ring.Inv, Life.Inv, Ring.Exec, RingTheorems.Contents, Continue;
    RingLocal(s.ring, t);
    var l, ring' := s.ring.threads[t], Ring.Exec(s.ring, Ring.Step(t, false));
    assert t in s.life.threads && Coupled(s.ring.inserted, l, s.life.threads[t]);
    if Ring.Pushing(l) { PushStays(s.ring, t, false); } else { PopStays(s.ring, t, false); }
    if ring'.threads[t].Idle? {
      Returns(s.life, t, s.ring.inserted, l, ring'.threads[t]);
    }
  }

  /** Thread t has something to claim, and no claim is in flight. */
  ghost predicate Claiming(s: State, t: nat) {
    && Inv(s) && RingTheorems.NothingInFlight(s.ring) && t in s.ring.threads && t in s.life.threads
    && (|| (s.life.threads[t].DispPop? && s.life.queue != [])
        || (s.life.threads[t].PostPush? && |s.life.queue| < s.life.cap))
  }

  /** Steps left to the claim, undisturbed; a position loaded before others moved on costs an
      extra round. */
  function ToClaim(r: Ring.State<nat>, l: Ring.Local<nat>): nat {
    match l
    case PushLoadSeq(_, p, _) => if p == r.tail then 2 else 5
    case PushCas(_, p, _) => if p == r.tail then 1 else 4
    case PopLoadSeq(p, _) => if p == r.head then 2 else 5
    case PopCas(p, _) => if p == r.head then 1 else 4
    case PushReload(_, _, _) => 4
    case PopReload(_, _) => 4
    case PushLoadTail(_) => 6
    case PopLoadHead => 6
    case _ => 7
  }

  predicate BeforeClaim(l: Ring.Local<nat>) {
    || l.PushLoadTail? || l.PushLoadSeq? || l.PushCas? || l.PushReload?
    || l.PopLoadHead? || l.PopLoadSeq? || l.PopCas? || l.PopReload?
  }

  /** In the ring: nearer to the claim, or the claim itself. */
  lemma RingApproaches(r: Ring.State<nat>, t: nat)
    requires Ring.Inv(r) && RingTheorems.NothingInFlight(r) && t in r.threads && BeforeClaim(r.threads[t])
    requires Ring.Bounds(r)
    requires if Ring.Pushing(r.threads[t]) then |RingTheorems.Contents(r)| < r.cap else RingTheorems.Contents(r) != []
    ensures var a := Ring.Step(t, false);
            var r', l := Ring.Exec(r, a), r.threads[t];
            && t in r'.threads
            && if l.PushCas? && l.pos == r.tail then RingTheorems.Effect(r, a) != [] && r'.threads[t].PushWrite?
               else if l.PopCas? && l.pos == r.head then RingTheorems.Effect(r, a) != [] && r'.threads[t].PopRead?
               else && RingTheorems.Effect(r, a) == [] && r' == Ring.Set(r, t, r'.threads[t])
                    && BeforeClaim(r'.threads[t]) && ToClaim(r', r'.threads[t]) < ToClaim(r, l)
  {
    RingSolo.SlotsDecide(r);
    Ring.InvAt(r, t);
    match r.threads[t]
    case PushLoadSeq(_, p, _) => Ring.PushObserves(r, p);
    case PopLoadSeq(p, _) => Ring.PopObserves(r, p);
    case _ =>
  }

  /** One step nearer: the thread enters the ring call, or goes on in it. */
  lemma Approaches(s: State, t: nat)
    requires Claiming(s, t)
    ensures Ring.Shape(s.ring)
    ensures var s', l := Exec(s, Go(t, NoChoice())), s.ring.threads[t];
            if (l.PushCas? && l.pos == s.ring.tail) || (l.PopCas? && l.pos == s.ring.head)
            then Claimed(s, s', t)
            else && s'.life == s.life && t in s'.ring.threads
                 && s'.ring == Ring.Set(s.ring, t, s'.ring.threads[t]) && BeforeClaim(s'.ring.threads[t])
                 && ToClaim(s'.ring, s'.ring.threads[t]) < ToClaim(s.ring, l)
  {
    hide Ring.Inv, Life.Inv, Ring.Exec, RingTheorems.Contents, RingTheorems.NothingInFlight, RingTheorems.Effect,
      Continue, Life.Exec, Exec, RingStep;
    Ring.InvBounds(s.ring);
    var l, ll := s.ring.threads[t], s.life.threads[t];
    CoupledAt(s, t);
    if l.Idle? {
      Enters(s, t);
    } else {
      RingApproaches(s.ring, t);
      if (l.PushCas? && l.pos == s.ring.tail) || (l.PopCas? && l.pos == s.ring.head) {
        ClaimIs(s, t);
      } else {
        SilentIs(s, t);
      }
    }
  }

  lemma CoupledAt(s: State, t: nat)
    requires Claiming(s, t)
    ensures var l, ll := s.ring.threads[t], s.life.threads[t];
            && (l.Idle? || BeforeClaim(l))
            && (ll.PostPush? && !l.Idle? ==> Ring.Pushing(l))
            && (ll.DispPop? && !l.Idle? ==> !Ring.Pushing(l))
            && s.ring.cap == s.life.cap
  {
    hide Ring.Inv, Life.Inv;
    assert Coupled(s.ring.inserted, s.ring.threads[t], s.life.threads[t]);
  }

  lemma Enters(s: State, t: nat)
    requires Ring.Shape(s.ring) && t in s.ring.threads && t in s.life.threads && s.ring.threads[t].Idle?
    requires RingCall(s.life.threads[t]).Some?
    ensures var l := Ring.Enter(RingCall(s.life.threads[t]).value);
            Exec(s, Go(t, NoChoice())) == s.(ring := Ring.Set(s.ring, t, l))
  {
    hide Ring.Exec;
    Ring.Entered(s.ring, t, RingCall(s.life.threads[t]).value);
  }

  lemma SilentIs(s: State, t: nat)
    requires Ring.Shape(s.ring) && t in s.ring.threads && t in s.life.threads && !s.ring.threads[t].Idle?
    requires RingTheorems.Effect(s.ring, Ring.Step(t, false)) == []
    requires var r' := Ring.Exec(s.ring, Ring.Step(t, false)); t in r'.threads && !r'.threads[t].Idle?
    ensures Exec(s, Go(t, NoChoice())) == s.(ring := Ring.Exec(s.ring, Ring.Step(t, false)))
  {
    hide Ring.Exec, RingTheorems.Effect;
  }

  /** The message has changed hands. */
  predicate Claimed(s: State, s': State, t: nat) {
    && t in s.life.threads && t in s'.ring.threads && t in s'.life.threads
    && if s.life.threads[t].PostPush?
       then s'.ring.threads[t].PushWrite? && s'.life == Life.Enqueue(s.life, t, s.life.threads[t].node)
       else s.life.queue != [] && s'.ring.threads[t].PopRead? && s'.life == Life.Dequeue(s.life, t)
  }

  lemma ClaimIs(s: State, t: nat)
    requires Claiming(s, t)
    requires var l := s.ring.threads[t]; (l.PushCas? && l.pos == s.ring.tail) || (l.PopCas? && l.pos == s.ring.head)
    ensures Ring.Shape(s.ring) && Claimed(s, Exec(s, Go(t, NoChoice())), t)
  {
    hide Ring.Inv, Life.Inv, Ring.Exec, RingTheorems.Contents, RingTheorems.NothingInFlight, RingTheorems.Effect,
      Continue, Life.Exec;
    CoupledAt(s, t);
    match s.ring.threads[t]
    case PushCas(x, p, retry) =>
      PushTakesEffect(s.ring, t, x, p, retry);
      TakeEffect(s.life, t, NoChoice());
    case PopCas(p, retry) =>
      PopTakesEffect(s.ring, t, p, retry);
      TakeEffect(s.life, t, NoChoice());
  }

  // ----- steps outside the ring -----

  /** An address that is free. */
  lemma {:induction false} FreeAddress(used: set<nat>) returns (a: nat)
    ensures forall x :: x in used ==> x < a
    decreases used
  {
    if used == {} {
      a := 0;
    } else {
      var x :| x in used;
      a := FreeAddress(used - {x});
      forall y | y in used ensures y < (if a <= x then x + 1 else a) {
        assert y == x || y in used - {x};
      }
      if a <= x { a := x + 1; }
    }
  }

  /** Outside queue operations a call goes on to its next place. */
  lemma LifeGoesOn(s: Life.State, t: nat) returns (c: Life.Choice)
    requires Life.Inv(s) && t in s.threads && !s.threads[t].Idle? && RingCall(s.threads[t]).None?
    ensures var s' := Life.Exec(s, Life.Step(t, c));
            && t in s'.threads && s'.threads[t] != s.threads[t] && s'.queue == s.queue
            && (Life.HasNode(s.threads[t]) ==> LifeStage(s'.threads[t]) < LifeStage(s.threads[t]))
            && (!Posting(s.threads[t]) ==> !Posting(s'.threads[t]))
  {
    var l := s.threads[t];
    assert Life.LocalOk(s, t, l);
    var a := FreeAddress(if l.PostAcquire? then s.place.Keys else s.payloads.Keys);
    c := Life.Choice(a, false, false);
    if Posting(l) { PostGoesOn(s, t, l, c); } else { DispGoesOn(s, t, l, c); }
    LifeFrame(s, Life.Step(t, c), t);
  }

  predicate Posting(l: Life.Local) {
    l.PostLoad? || l.PostAcquire? || l.PostHeader? || l.PostSnapshot? || l.PostBody? || l.PostAddRefs? || l.PostPush?
  }

  lemma PostGoesOn(s: Life.State, t: nat, l: Life.Local, c: Life.Choice)
    requires t in s.threads && s.threads[t] == l && Posting(l) && !l.PostPush? && Life.LocalOk(s, t, l)
    requires Life.TopicsOk(s)
    requires if l.PostAcquire? then c.addr !in s.place else c.addr !in s.payloads
    ensures var s' := Life.Exec(s, Life.Step(t, c));
            && t in s'.threads && s'.threads[t] != l
            && (Life.HasNode(l) ==> LifeStage(s'.threads[t]) < LifeStage(l))
  {
    hide Life.DispStep;
  }

  lemma DispGoesOn(s: Life.State, t: nat, l: Life.Local, c: Life.Choice)
    requires t in s.threads && s.threads[t] == l && (l.DispLoop? || l.DispRelease? || l.DispReturn?)
    requires Life.LocalOk(s, t, l)
    ensures var s' := Life.Exec(s, Life.Step(t, c));
            && t in s'.threads && s'.threads[t] != l && !Posting(s'.threads[t])
            && LifeStage(s'.threads[t]) < LifeStage(l)
  {
    hide Life.LocalOk, Life.PostStep, Life.DispStep, LifeStage, Posting;
    match l
    case DispLoop(n, i) => LoopGoesOn(s, t, n, i, c.delete);
    case DispRelease(n, i) => ReleaseGoesOn(s, t, n, i, c.delete);
    case DispReturn(n) => ReturnGoesOn(s, t, n, c.delete);
  }

  /** Thread t has moved to a place nearer to the end of its dispatch. */
  predicate NearerEnd(s': Life.State, t: nat, l: Life.Local) {
    t in s'.threads && s'.threads[t] != l && !Posting(s'.threads[t]) && LifeStage(s'.threads[t]) < LifeStage(l)
  }

  lemma LoopGoesOn(s: Life.State, t: nat, n: nat, i: nat, delete: bool)
    requires t in s.threads && Life.LocalOk(s, t, Life.DispLoop(n, i))
    ensures NearerEnd(Life.DispStep(s, t, Life.DispLoop(n, i), delete), t, Life.DispLoop(n, i))
  {
  }

  lemma ReleaseGoesOn(s: Life.State, t: nat, n: nat, i: nat, delete: bool)
    requires t in s.threads && Life.LocalOk(s, t, Life.DispRelease(n, i))
    ensures NearerEnd(Life.DispStep(s, t, Life.DispRelease(n, i), delete), t, Life.DispRelease(n, i))
  {
  }

  lemma ReturnGoesOn(s: Life.State, t: nat, n: nat, delete: bool)
    requires t in s.threads && Life.LocalOk(s, t, Life.DispReturn(n))
    ensures NearerEnd(Life.DispStep(s, t, Life.DispReturn(n), delete), t, Life.DispReturn(n))
  {
  }

  // ----- getting there -----

  /** Nothing is under way: no message is queued or with a running call. */
  ghost predicate Settled(s: State) {
    s.life.queue == [] && forall t :: t in s.life.threads ==> !Life.HasNode(s.life.threads[t])
  }

  predicate Outside(s: State, d: nat) {
    d in s.life.threads && !Posting(s.life.threads[d])
  }

  /** Fewer steps are left, and d is still not posting. */
  ghost predicate Lowered(s: State, s': State, d: nat)
    requires SameThreads(s)
  {
    Inv(s') && SameThreads(s') && Measure(s') < Measure(s) && Outside(s', d)
  }

  lemma HoldingLowers(s: State, t: nat, d: nat)
    requires Inv(s) && Outside(s, d) && t in s.ring.threads && Holding(s.ring.threads[t])
    ensures Ring.Shape(s.ring) && SameThreads(s) && Lowered(s, Exec(s, Go(t, NoChoice())), d)
  {
    hide Inv, Exec, RingStage, LifeStage, Holding;
    InvThreads(s);
    MeasureMoves(s, Go(t, NoChoice()));
    HoldingGoesOn(s, t);
  }

  lemma LifeLowers(s: State, t: nat, d: nat) returns (a: Action)
    requires Inv(s) && Outside(s, d) && t in s.ring.threads && s.ring.threads[t].Idle?
    requires t in s.life.threads && Life.HasNode(s.life.threads[t]) && !s.life.threads[t].PostPush?
    ensures Ring.Shape(s.ring) && SameThreads(s) && a.Step? && Lowered(s, Exec(s, a), d)
  {
    hide Ring.Inv, Life.Inv, Life.Exec, RingTheorems.Contents, LifeStage;
    InvThreads(s);
    var c := LifeGoesOn(s.life, t);
    a := Go(t, c);
    LifeStepIs(s, t, c);
    MeasureMoves(s, a);
  }

  lemma LifeStepIs(s: State, t: nat, c: Life.Choice)
    requires Ring.Shape(s.ring) && t in s.ring.threads && t in s.life.threads && s.ring.threads[t].Idle?
    requires RingCall(s.life.threads[t]).None?
    ensures Exec(s, Go(t, c)) == s.(life := Life.Exec(s.life, Life.Step(t, c)))
  {
    hide Life.Exec;
  }

  lemma ClaimLowers(s: State, t: nat, d: nat)
    requires Claiming(s, t) && Outside(s, d)
    requires var l := s.ring.threads[t]; (l.PushCas? && l.pos == s.ring.tail) || (l.PopCas? && l.pos == s.ring.head)
    ensures Ring.Shape(s.ring) && SameThreads(s) && Lowered(s, Exec(s, Go(t, NoChoice())), d)
  {
    hide Inv, Exec;
    InvThreads(s);
    ClaimIs(s, t);
    MeasureMoves(s, Go(t, NoChoice()));
  }

  /** An undisturbed thread gets to its claim. */
  lemma {:induction false} Claims(s: State, t: nat, d: nat) returns (acts: seq<Action>)
    requires Claiming(s, t) && Outside(s, d)
    ensures Ring.Shape(s.ring) && SameThreads(s) && Lowered(s, Run(s, acts), d) && NoPosts(acts)
    decreases ToClaim(s.ring, if t in s.ring.threads then s.ring.threads[t] else Ring.PopLoadHead)
  {
    hide Inv, Exec, RingTheorems.NothingInFlight, ToClaim, BeforeClaim, Lowered, Measure;
    InvThreads(s);
    var a, l := Go(t, NoChoice()), s.ring.threads[t];
    var s' := Exec(s, a);
    Approaches(s, t);
    RunOne(s, a);
    if (l.PushCas? && l.pos == s.ring.tail) || (l.PopCas? && l.pos == s.ring.head) {
      ClaimLowers(s, t, d);
      acts := [a];
    } else {
      StillClaiming(s, t);
      var more := Claims(s', t, d);
      SameMeasure(s, t, d, Run(s', more));
      RunAppend(s, [a], more);
      acts := [a] + more;
    }
  }

  lemma StillClaiming(s: State, t: nat)
    requires Claiming(s, t)
    requires Ring.Shape(s.ring)
    requires var s' := Exec(s, Go(t, NoChoice()));
             s'.life == s.life && t in s'.ring.threads && s'.ring == Ring.Set(s.ring, t, s'.ring.threads[t])
             && BeforeClaim(s'.ring.threads[t])
    ensures Claiming(Exec(s, Go(t, NoChoice())), t)
  {
    hide Inv, Exec;
    ExecKeepsInv(s, Go(t, NoChoice()));
  }

  lemma SameMeasure(s: State, t: nat, d: nat, s2: State)
    requires Claiming(s, t) && Ring.Shape(s.ring) && SameThreads(s)
    requires var s' := Exec(s, Go(t, NoChoice()));
             && s'.life == s.life && t in s'.ring.threads && BeforeClaim(s'.ring.threads[t])
             && SameThreads(s') && Lowered(s', s2, d)
    ensures Lowered(s, s2, d)
  {
    hide Inv, Exec, RingStage, LifeStage, BeforeClaim, Ring.Pushing, RingTheorems.NothingInFlight, Measure, Outside;
    var s' := Exec(s, Go(t, NoChoice()));
    CoupledAt(s, t);
    NoStage(s.ring.threads[t]);
    NoStage(s'.ring.threads[t]);
    MeasureMoves(s, Go(t, NoChoice()));
  }

  lemma NoStage(l: Ring.Local<nat>)
    requires l.Idle? || BeforeClaim(l)
    ensures RingStage(l) == 0
  {
  }

  predicate NoPosts(acts: seq<Action>) {
    forall i :: 0 <= i < |acts| ==> !acts[i].BeginPost?
  }

  lemma RunOne(s: State, a: Action)
    requires Ring.Shape(s.ring)
    ensures Run(s, [a]) == Exec(s, a)
  {
    hide Exec;
    assert [a][..0] == [];
  }

  lemma {:induction false} RunAppend(s: State, p: seq<Action>, q: seq<Action>)
    requires Ring.Shape(s.ring)
    ensures Run(s, p + q) == Run(Run(s, p), q)
    decreases |q|
  {
    hide Exec;
    if q == [] {
      assert p + q == p;
    } else {
      var n := |q| - 1;
      assert (p + q)[..|p| + n] == p + q[..n];
      RunAppend(s, p, q[..n]);
    }
  }

  /** Thread d enters `dispatchOne`, if it has not. */
  lemma BeginsDispatch(s: State, d: nat)
    requires Inv(s) && RingTheorems.NothingInFlight(s.ring) && Outside(s, d) && !Life.HasNode(s.life.threads[d])
    requires s.life.queue != [] && !s.life.threads[d].DispPop?
    ensures Ring.Shape(s.ring) && SameThreads(s)
    ensures var s' := Exec(s, BeginDispatch(d));
            Claiming(s', d) && SameThreads(s') && Measure(s') == Measure(s) && Outside(s', d)
  {
    hide Ring.Inv, Life.Inv, RingTheorems.Contents, Measure;
    InvThreads(s);
    assert Coupled(s.ring.inserted, s.ring.threads[d], s.life.threads[d]);
    assert s.life.threads[d] == Life.Idle && s.ring.threads[d].Idle?;
    var s' := Exec(s, BeginDispatch(d));
    assert s' == s.(life := Life.Set(s.life, d, Life.DispPop));
    MeasureMoves(s, BeginDispatch(d));
    MeasureIs(s, s', d);
  }

  lemma MeasureIs(s: State, s': State, d: nat)
    requires SameThreads(s) && SameThreads(s') && s'.ring == s.ring
    requires d in s.life.threads && s.life.threads[d] == Life.Idle
    requires s'.life == Life.Set(s.life, d, Life.DispPop)
    ensures Measure(s') == Measure(s)
  {
    assert Stages(s') == Stages(s);
  }

  /** Unless everything is settled, some steps without a new post leave less to do. */
  lemma SomethingLowers(s: State, d: nat) returns (acts: seq<Action>)
    requires Inv(s) && Outside(s, d) && !Settled(s)
    ensures Ring.Shape(s.ring) && SameThreads(s) && Lowered(s, Run(s, acts), d) && NoPosts(acts)
  {
    hide Inv, Exec, Lowered, Measure, RingTheorems.NothingInFlight, Claiming;
    InvThreads(s);
    if t :| t in s.ring.threads && Holding(s.ring.threads[t]) {
      HoldingLowers(s, t, d);
      acts := [Go(t, NoChoice())];
      RunOne(s, acts[0]);
    } else if t :| t in s.life.threads && Life.HasNode(s.life.threads[t]) && !s.life.threads[t].PostPush? {
      NotInRing(s, t);
      var a := LifeLowers(s, t, d);
      acts := [a];
      RunOne(s, a);
    } else {
      NotHolding(s);
      if s.life.queue == [] {
        var t :| t in s.life.threads && s.life.threads[t].PostPush?;
        MayClaim(s, t);
        acts := Claims(s, t, d);
      } else if s.life.threads[d].DispPop? {
        MayClaim(s, d);
        acts := Claims(s, d, d);
      } else {
        BeginsDispatch(s, d);
        var more := Claims(Exec(s, BeginDispatch(d)), d, d);
        SameLowered(s, Exec(s, BeginDispatch(d)), Run(Exec(s, BeginDispatch(d)), more), d);
        RunOne(s, BeginDispatch(d));
        RunAppend(s, [BeginDispatch(d)], more);
        acts := [BeginDispatch(d)] + more;
      }
    }
  }

  lemma SameLowered(s: State, s1: State, s2: State, d: nat)
    requires SameThreads(s) && SameThreads(s1) && Measure(s1) == Measure(s) && Lowered(s1, s2, d)
    ensures Lowered(s, s2, d)
  {
  }

  lemma NotInRing(s: State, t: nat)
    requires Inv(s) && t in s.life.threads && Life.HasNode(s.life.threads[t]) && !s.life.threads[t].PostPush?
    requires t in s.ring.threads && !Holding(s.ring.threads[t])
    ensures s.ring.threads[t].Idle?
  {
    assert Coupled(s.ring.inserted, s.ring.threads[t], s.life.threads[t]);
  }

  lemma NotHolding(s: State)
    requires forall t :: t in s.ring.threads ==> !Holding(s.ring.threads[t])
    ensures RingTheorems.NothingInFlight(s.ring)
  {
  }

  lemma MayClaim(s: State, t: nat)
    requires Inv(s) && RingTheorems.NothingInFlight(s.ring) && t in s.ring.threads && t in s.life.threads
    requires if s.life.queue == [] then s.life.threads[t].PostPush? else s.life.threads[t].DispPop?
    ensures Claiming(s, t)
  {
    hide Life.Inv, RingTheorems.NothingInFlight;
  }

  lemma {:induction false} Settles(s: State, d: nat) returns (acts: seq<Action>)
    requires Inv(s) && Outside(s, d)
    ensures Ring.Shape(s.ring) && NoPosts(acts) && Inv(Run(s, acts)) && Settled(Run(s, acts))
    decreases if SameThreads(s) then Measure(s) else 0
  {
    hide Inv, Exec, Measure, Settled, Outside;
    InvThreads(s);
    if Settled(s) {
      acts := [];
    } else {
      var some := SomethingLowers(s, d);
      var rest := Settles(Run(s, some), d);
      RunAppend(s, some, rest);
      acts := some + rest;
    }
  }

  // ----- the results -----

  /** In every reachable state a thread inside `post` or `dispatchOne` has a step that takes it
      to another place: no call waits for anybody, except that `post` asks again while the
      ring refuses its push. */
  lemma NoCallSticks(
    topics: seq<seq<Life.Observer>>, cap: nat, junk: seq<nat>, tids: set<nat>, acts: seq<Action>, t: nat)
    returns (c: Life.Choice)
    requires cap >= 2 && IsPowerOfTwo(cap) && |junk| == cap
    requires forall i :: 0 <= i < |topics| ==> |topics[i]| <= Life.MAX_OBSERVERS
    requires var s := After(topics, cap, junk, tids, acts);
             t in s.ring.threads && t in s.life.threads && !(s.ring.threads[t].Idle? && s.life.threads[t].Idle?)
    ensures var s, s' := After(topics, cap, junk, tids, acts), After(topics, cap, junk, tids, acts + [Go(t, c)]);
            && t in s'.ring.threads && t in s'.life.threads
            && (s'.ring.threads[t] != s.ring.threads[t] || s'.life.threads[t] != s.life.threads[t])
  {
    hide Inv, Exec;
    AfterInv(topics, cap, junk, tids, acts);
    var s := After(topics, cap, junk, tids, acts);
    InvThreads(s);
    c := GoesOn(s, t);
    assert (acts + [Go(t, c)])[..|acts|] == acts;
  }

  lemma GoesOn(s: State, t: nat) returns (c: Life.Choice)
    requires Inv(s) && t in s.ring.threads && t in s.life.threads
    requires !(s.ring.threads[t].Idle? && s.life.threads[t].Idle?)
    ensures Ring.Shape(s.ring)
    ensures var s' := Exec(s, Go(t, c));
            && t in s'.ring.threads && t in s'.life.threads
            && (s'.ring.threads[t] != s.ring.threads[t] || s'.life.threads[t] != s.life.threads[t])
  {
    hide Ring.Inv, Life.Inv, Life.Exec, RingTheorems.Contents, RingStep;
    InvThreads(s);
    c := NoChoice();
    if !s.ring.threads[t].Idle? {
      RingGoesOn(s, t);
      MeasureMoves(s, Go(t, c));
    } else if RingCall(s.life.threads[t]).Some? {
      Enters(s, t);
    } else {
      c := LifeGoesOn(s.life, t);
      LifeStepIs(s, t, c);
    }
  }

  lemma RingGoesOn(s: State, t: nat)
    requires Inv(s) && t in s.ring.threads && t in s.life.threads && !s.ring.threads[t].Idle?
    ensures Ring.Shape(s.ring)
    ensures var s' := Exec(s, Go(t, NoChoice())); t in s'.ring.threads && s'.ring.threads[t] != s.ring.threads[t]
  {
    hide Ring.Inv, Life.Inv, Life.Exec, RingTheorems.Contents, Continue, RingTheorems.Effect;
    InvThreads(s);
    assert Coupled(s.ring.inserted, s.ring.threads[t], s.life.threads[t]);
    if Ring.Pushing(s.ring.threads[t]) { PushGoesOn(s.ring, t); } else { PopGoesOn(s.ring, t); }
  }

  lemma PushGoesOn(r: Ring.State<nat>, t: nat)
    requires Ring.Shape(r) && t in r.threads && Ring.Pushing(r.threads[t])
    ensures var r' := Ring.Exec(r, Ring.Step(t, false)); t in r'.threads && r'.threads[t] != r.threads[t]
  {
  }

  lemma PopGoesOn(r: Ring.State<nat>, t: nat)
    requires Ring.Shape(r) && t in r.threads && Ring.Popping(r.threads[t])
    ensures var r' := Ring.Exec(r, Ring.Step(t, false)); t in r'.threads && r'.threads[t] != r.threads[t]
  {
  }

  /** From every reachable state in which some thread d is not inside `post`, whatever the
      others are in the middle of: there are steps, none of them a new post, after which every
      post accepted so far or completed meanwhile has been delivered in full, its payload
      deleted once, and no payload is left. */
  lemma DeliveryCanComplete(
    topics: seq<seq<Life.Observer>>, cap: nat, junk: seq<nat>, tids: set<nat>, acts: seq<Action>, d: nat)
    returns (more: seq<Action>)
    requires cap >= 2 && IsPowerOfTwo(cap) && |junk| == cap
    requires forall i :: 0 <= i < |topics| ==> |topics[i]| <= Life.MAX_OBSERVERS
    requires Outside(After(topics, cap, junk, tids, acts), d)
    ensures NoPosts(more)
    ensures var s, s' := After(topics, cap, junk, tids, acts), After(topics, cap, junk, tids, acts + more);
            && SamePosts(s.life.posts, s'.life.posts)
            && (forall k :: 0 <= k < |s'.life.posts| ==> Complete(s'.life.posts[k]))
            && s'.life.payloads == map[] && s'.life.queue == []
  {
    hide Inv, Exec, Complete, Run, Outside;
    AfterInv(topics, cap, junk, tids, acts);
    var s := After(topics, cap, junk, tids, acts);
    more := Settles(s, d);
    RunAppend(State(Ring.Init(cap, junk, tids), Life.Init(topics, cap, tids)), acts, more);
    NothingUnderWay(Run(s, more));
    RunSamePosts(s, more);
  }

  lemma NothingUnderWay(s: State)
    requires Inv(s) && Settled(s)
    ensures forall k :: 0 <= k < |s.life.posts| ==> Complete(s.life.posts[k])
    ensures s.life.payloads == map[]
  {
    hide Life.Inv, Complete;
    NothingLeft(s.life);
  }
}
