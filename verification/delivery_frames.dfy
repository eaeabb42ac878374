/** What one step of module Delivery can change. */
module DeliveryFrames {
  import Ring
  import RingTheorems
  import Life = Lifecycle
  import D = Delivery

  /** The effect of a ring step on the rest of the message path. */
  predicate RingOutcome(life: Life.State, life': Life.State, t: nat) {
    t in life.threads &&
    ( || life' == life
      || life' == Life.Set(life, t, Life.Idle)
      || (life.threads[t].PostPush? && life' == Life.Enqueue(life, t, life.threads[t].node))
      || (life.queue != [] && life.threads[t].DispPop? && life' == Life.Dequeue(life, t)))
  }

  lemma SilentOutcome(s: D.State, t: nat, spurious: bool)
    requires D.Inv(s) && t in s.ring.threads && !s.ring.threads[t].Idle?
    requires RingTheorems.Effect(s.ring, Ring.Step(t, spurious)) == []
    ensures Ring.Shape(s.ring) && RingOutcome(s.life, D.RingStep(s, t, spurious).life, t)
  {
    hide Ring.Inv, Life.Inv, Ring.Exec, RingTheorems.Effect, D.Continue, RingTheorems.Contents, RingTheorems.Refines;
    D.RingLocal(s.ring, t);
    var l := s.ring.threads[t];
    assert D.Coupled(s.ring.inserted, l, s.life.threads[t]);
    var ring' := Ring.Exec(s.ring, Ring.Step(t, spurious));
    if Ring.Pushing(l) { D.PushStays(s.ring, t, spurious); } else { D.PopStays(s.ring, t, spurious); }
    if ring'.threads[t].Idle? {
      D.Returns(s.life, t, s.ring.inserted, l, ring'.threads[t]);
    }
  }

  lemma ClaimOutcome(s: D.State, t: nat, spurious: bool)
    requires D.Inv(s) && t in s.ring.threads
    requires RingTheorems.Effect(s.ring, Ring.Step(t, spurious)) != []
    ensures Ring.Shape(s.ring) && RingOutcome(s.life, D.RingStep(s, t, spurious).life, t)
  {
    hide Ring.Inv, Life.Inv, Life.Exec, D.Continue, RingTheorems.Contents, RingTheorems.Refines;
    D.RingLocal(s.ring, t);
    assert D.Coupled(s.ring.inserted, s.ring.threads[t], s.life.threads[t]);
    D.TakeEffect(s.life, t, Life.Choice(0, false, false));
    if s.ring.threads[t].PushCas? {
      D.PushTakesEffect(s.ring, t, s.ring.threads[t].item, s.ring.threads[t].pos, s.ring.threads[t].retry);
    } else {
      D.PopTakesEffect(s.ring, t, s.ring.threads[t].pos, s.ring.threads[t].retry);
    }
  }

  lemma RingStepOutcome(s: D.State, t: nat, spurious: bool)
    requires D.Inv(s) && t in s.ring.threads && !s.ring.threads[t].Idle?
    ensures Ring.Shape(s.ring) && RingOutcome(s.life, D.RingStep(s, t, spurious).life, t)
  {
    hide Ring.Inv, Life.Inv, RingTheorems.Contents, RingTheorems.Effect, RingOutcome, D.RingStep;
    D.RingLocal(s.ring, t);
    if RingTheorems.Effect(s.ring, Ring.Step(t, spurious)) == [] {
      SilentOutcome(s, t, spurious);
    } else {
      ClaimOutcome(s, t, spurious);
    }
  }

  /** Only thread a.t moves, in the ring and outside. */
  lemma DeliveryRingThreads(s: D.State, a: D.Action, u: nat)
    requires D.Inv(s) && a.t in s.ring.threads && a.t in s.life.threads
    ensures Ring.Shape(s.ring) && (u in D.Exec(s, a).ring.threads <==> u in s.ring.threads)
    ensures u in s.ring.threads && u != a.t ==> D.Exec(s, a).ring.threads[u] == s.ring.threads[u]
  {
    hide Ring.Inv, Life.Inv, Ring.Exec, Life.Exec, RingTheorems.Contents;
    Ring.InvBounds(s.ring);
    if a.Step? {
      D.RingKeys(s.ring, a.t, a.spurious);
      if u != a.t { RingTheorems.OthersUntouched(s.ring, Ring.Step(a.t, a.spurious), u); }
      if D.RingCall(s.life.threads[a.t]).Some? && s.ring.threads[a.t].Idle? {
        Ring.Entered(s.ring, a.t, D.RingCall(s.life.threads[a.t]).value);
      }
    }
  }

  lemma DeliveryLifeThreads(s: D.State, a: D.Action, u: nat)
    requires D.Inv(s) && a.t in s.ring.threads && a.t in s.life.threads
    ensures Ring.Shape(s.ring) && (u in D.Exec(s, a).life.threads <==> u in s.life.threads)
    ensures u in s.life.threads && u != a.t ==> D.Exec(s, a).life.threads[u] == s.life.threads[u]
  {
    hide Ring.Inv, Life.Inv, Ring.Exec, Life.Exec, RingTheorems.Contents, D.RingStep, RingOutcome;
    Ring.InvBounds(s.ring);
    if !s.ring.threads[a.t].Idle? {
      if a.Step? {
        RingStepOutcome(s, a.t, a.spurious);
        OutcomeThreads(s.life, D.RingStep(s, a.t, a.spurious).life, a.t, u);
      }
    } else {
      match a
      case BeginPost(t, topic, data) => D.LifeFrame(s.life, Life.BeginPost(t, topic, data), u);
      case BeginDispatch(t) => D.LifeFrame(s.life, Life.BeginDispatch(t), u);
      case Step(t, _, choice) =>
        if D.RingCall(s.life.threads[t]).None? { D.LifeFrame(s.life, Life.Step(t, choice), u); }
    }
  }

  lemma OutcomeThreads(life: Life.State, life': Life.State, t: nat, u: nat)
    requires RingOutcome(life, life', t)
    ensures u in life'.threads <==> u in life.threads
    ensures u in life.threads && u != t ==> life'.threads[u] == life.threads[u]
  {
  }

  // ----- the posts stay what they are -----

  /** History only gets longer: what was posted, and whom it found registered, stays. */
  predicate SamePosts(ps: seq<Life.Post>, ps': seq<Life.Post>) {
    |ps| <= |ps'| &&
    forall k :: 0 <= k < |ps| ==>
      ps'[k].topic == ps[k].topic && ps'[k].data == ps[k].data && ps'[k].snapshot == ps[k].snapshot
  }

  lemma PostSamePosts(s: Life.State, t: nat, l: Life.Local, addr: nat)
    ensures SamePosts(s.posts, Life.PostStep(s, t, l, addr).posts)
  {
  }

  lemma CallSamePosts(s: Life.State, t: nat, n: nat, i: nat)
    requires n in s.nodes
    ensures i < |s.nodes[n].observers| ==> SamePosts(s.posts, Life.Invoke(s, t, n, i).posts)
  {
  }

  lemma ReleaseSamePosts(s: Life.State, t: nat, n: nat, i: nat, p: nat)
    requires p in s.payloads
    ensures SamePosts(s.posts, Life.ReleaseRef(s, t, n, i, p).posts)
  {
  }

  lemma ReturnSamePosts(s: Life.State, t: nat, n: nat, delete: bool)
    ensures SamePosts(s.posts, Life.ReturnNode(s, t, n, delete).posts)
  {
  }

  lemma DispSamePosts(s: Life.State, t: nat, l: Life.Local, delete: bool)
    ensures SamePosts(s.posts, Life.DispStep(s, t, l, delete).posts)
  {
    hide Life.Invoke, Life.ReleaseRef, Life.ReturnNode, SamePosts;
    Reflexive(s.posts);
    if (l.DispLoop? || l.DispRelease? || l.DispReturn?) && l.node in s.nodes {
      match l
      case DispLoop(n, i) => CallSamePosts(s, t, n, i);
      case DispRelease(n, i) =>
        if s.nodes[n].body.Managed? && s.nodes[n].body.payload in s.payloads {
          ReleaseSamePosts(s, t, n, i, s.nodes[n].body.payload);
        }
      case DispReturn(n) => ReturnSamePosts(s, t, n, delete);
    }
  }

  lemma StepSamePosts(s: D.State, a: D.Action)
    requires D.Inv(s)
    ensures Ring.Shape(s.ring) && SamePosts(s.life.posts, D.Exec(s, a).life.posts)
  {
    hide Ring.Inv, Life.Inv, RingTheorems.Contents, D.RingStep, Ring.Exec, Life.PostStep, Life.DispStep, SamePosts;
    Ring.InvBounds(s.ring);
    Reflexive(s.life.posts);
    if a.t in s.ring.threads && a.Step? {
      if !s.ring.threads[a.t].Idle? {
        RingStepOutcome(s, a.t, a.spurious);
      } else {
        PostSamePosts(s.life, a.t, s.life.threads[a.t], a.choice.addr);
        DispSamePosts(s.life, a.t, s.life.threads[a.t], a.choice.delete);
      }
    }
  }

  lemma Reflexive(ps: seq<Life.Post>)
    ensures SamePosts(ps, ps)
  {
  }

  lemma {:induction false} RunSamePosts(s: D.State, acts: seq<D.Action>)
    requires D.Inv(s)
    ensures Ring.Shape(s.ring) && D.Inv(D.Run(s, acts)) && SamePosts(s.life.posts, D.Run(s, acts).life.posts)
    decreases |acts|
  {
    hide D.Inv, D.Exec;
    StateShape(s);
    if acts != [] {
      var n := |acts| - 1;
      RunSamePosts(s, acts[..n]);
      StateShape(D.Run(s, acts[..n]));
      StepSamePosts(D.Run(s, acts[..n]), acts[n]);
      D.ExecKeepsInv(D.Run(s, acts[..n]), acts[n]);
    }
  }

  lemma StateShape(s: D.State)
    requires D.Inv(s)
    ensures Ring.Shape(s.ring)
  {
    Ring.InvBounds(s.ring);
  }
}
