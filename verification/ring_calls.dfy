/** Linearizability of `MPMCQueue` as its callers see it (src/mpmc_queue.h:46-109): what was
    passed to the calls and what they returned, read off the actions and the results. */
module RingCalls {
  import opened Bits
  import opened Ring
  import opened RingTheorems

  /** A call that has begun, and one that has returned. */
  datatype Begun<T> = Begun(t: nat, call: Call<T>)
  datatype Answer<T> = Answer(t: nat, call: Call<T>, result: Result<T>)

  /** What an observer of the threads writes down: each thread's latest call as well. */
  datatype History<T> = History(begun: seq<Begun<T>>, answers: seq<Answer<T>>, latest: map<nat, Call<T>>)

  function Noted<T>(h: History<T>, s: State<T>, a: Action<T>, s': State<T>): History<T> {
    if a.t !in s.threads || a.t !in s'.threads then h
    else if a.Start? then
      if s.threads[a.t].Idle? then h.(begun := h.begun + [Begun(a.t, a.call)], latest := h.latest[a.t := a.call]) else h
    else if !s.threads[a.t].Idle? && s'.threads[a.t].Idle? && a.t in h.latest then
      h.(answers := h.answers + [Answer(a.t, h.latest[a.t], s'.threads[a.t].result)])
    else h
  }

  function HistoryOf<T>(s: State<T>, acts: seq<Action<T>>): History<T>
    requires Shape(s)
    decreases |acts|
  {
    if acts == [] then History([], [], map[]) else
    var n := |acts| - 1;
    Noted(HistoryOf(s, acts[..n]), Run(s, acts[..n]), acts[n], Run(s, acts))
  }

  function BegunBy<T>(bs: seq<Begun<T>>, t: nat): seq<Call<T>>
    decreases |bs|
  {
    if bs == [] then [] else BegunBy(bs[..|bs| - 1], t) + if bs[|bs| - 1].t == t then [bs[|bs| - 1].call] else []
  }

  function AnsweredBy<T>(rs: seq<Answer<T>>, t: nat): seq<Call<T>>
    decreases |rs|
  {
    if rs == [] then [] else AnsweredBy(rs[..|rs| - 1], t) + if rs[|rs| - 1].t == t then [rs[|rs| - 1].call] else []
  }

  /** The queue operation a returned call stands for: a push that returned true, or a pop that
      returned an item. */
  function OpOf<T>(r: Answer<T>): seq<Op<T>> {
    match r.call
    case TryPush(x) => if r.result == Pushed(true) then [Enq(r.t, x)] else []
    case TryPop => if r.result.Popped? && r.result.item.Some? then [Deq(r.t, r.result.item.value)] else []
    case SizeApprox => []
  }

  function SucceededBy<T>(rs: seq<Answer<T>>, t: nat): seq<Op<T>>
    decreases |rs|
  {
    if rs == [] then [] else SucceededBy(rs[..|rs| - 1], t) + if rs[|rs| - 1].t == t then OpOf(rs[|rs| - 1]) else []
  }

  /** The result is one of that kind of call. */
  predicate Fits<T>(call: Call<T>, result: Result<T>) {
    match call
    case TryPush(_) => result.Pushed?
    case TryPop => result.Popped?
    case SizeApprox => result.Sized?
  }

  // ----- the invariant -----

  /** The thread is inside this call. */
  ghost predicate Inside<T>(l: Local<T>, call: Call<T>) {
    match call
    case TryPush(x) => Pushing(l) && l.item == x
    case TryPop => Popping(l)
    case SizeApprox => l.SizeLoadTail? || l.SizeLoadHead?
  }

  ghost predicate Follows<T>(h: History<T>, l: Local<T>, t: nat) {
    && (!l.Idle? ==> t in h.latest && Inside(l, h.latest[t]))
    && BegunBy(h.begun, t) == AnsweredBy(h.answers, t) + if l.Idle? || t !in h.latest then [] else [h.latest[t]]
  }

  predicate AllFit<T>(rs: seq<Answer<T>>) {
    forall i :: 0 <= i < |rs| ==> Fits(rs[i].call, rs[i].result)
  }

  lemma Next<T>(bs: seq<Begun<T>>, b: Begun<T>, rs: seq<Answer<T>>, r: Answer<T>, t: nat)
    ensures BegunBy(bs + [b], t) == BegunBy(bs, t) + if b.t == t then [b.call] else []
    ensures AnsweredBy(rs + [r], t) == AnsweredBy(rs, t) + if r.t == t then [r.call] else []
    ensures SucceededBy(rs + [r], t) == SucceededBy(rs, t) + if r.t == t then OpOf(r) else []
  {
    assert (bs + [b])[..|bs|] == bs && (rs + [r])[..|rs|] == rs;
  }

  /** A step inside a call stays inside, or returns what its kind of call returns; a returning
      push that took effect says so, and a returning pop hands out the item it read. */
  ghost predicate StaysInside<T>(l: Local<T>, call: Call<T>, l': Local<T>, response: seq<Op<T>>, t: nat) {
    if l'.Idle? then Fits(call, l'.result) && response == OpOf(Answer(t, call, l'.result))
    else Inside(l', call) && response == []
  }

  lemma PushInside<T>(s: State<T>, t: nat, x: T, spurious: bool)
    requires Shape(s) && t in s.threads && Pushing(s.threads[t]) && s.threads[t].item == x
    ensures var s' := PushStep(s, t, s.threads[t], spurious);
            && t in s'.threads
            && StaysInside(s.threads[t], TryPush(x), s'.threads[t], Response(s, Step(t, spurious)), t)
  {
  }

  lemma PopInside<T>(s: State<T>, t: nat, spurious: bool)
    requires Shape(s) && t in s.threads && Popping(s.threads[t])
    ensures var s' := PopStep(s, t, s.threads[t], spurious);
            && t in s'.threads
            && StaysInside(s.threads[t], TryPop, s'.threads[t], Response(s, Step(t, spurious)), t)
  {
  }

  lemma StepInside<T>(s: State<T>, t: nat, call: Call<T>, spurious: bool)
    requires Shape(s) && t in s.threads && Inside(s.threads[t], call)
    ensures var s' := Exec(s, Step(t, spurious));
            t in s'.threads && StaysInside(s.threads[t], call, s'.threads[t], Response(s, Step(t, spurious)), t)
  {
    hide PushStep, PopStep, StaysInside;
    match call
    case TryPush(x) => PushInside(s, t, x, spurious);
    case TryPop => PopInside(s, t, spurious);
    case SizeApprox => SizeInside(s, t, spurious);
  }

  lemma SizeInside<T>(s: State<T>, t: nat, spurious: bool)
    requires Shape(s) && t in s.threads && (s.threads[t].SizeLoadTail? || s.threads[t].SizeLoadHead?)
    ensures var s' := SizeStep(s, t, s.threads[t]);
            && t in s'.threads
            && StaysInside(s.threads[t], SizeApprox, s'.threads[t], Response(s, Step(t, spurious)), t)
  {
  }

  lemma OwnFollows<T>(h: History<T>, s: State<T>, a: Action<T>)
    requires Shape(s) && a.t in s.threads && Follows(h, s.threads[a.t], a.t) && AllFit(h.answers)
    ensures var s' := Exec(s, a); var h' := Noted(h, s, a, s');
            && a.t in s'.threads && Follows(h', s'.threads[a.t], a.t) && AllFit(h'.answers)
            && SucceededBy(h'.answers, a.t) == SucceededBy(h.answers, a.t) + Response(s, a)
  {
    hide BegunBy, AnsweredBy, SucceededBy, PushStep, PopStep, SizeStep, OpOf, Response;
    var t, s' := a.t, Exec(s, a);
    NoResponse(s, a);
    match a
    case Start(_, call) => if s.threads[t].Idle? { Next(h.begun, Begun(t, call), [], Answer(t, call, NoCall), t); }
    case Step(_, spurious) =>
      if !s.threads[t].Idle? {
        StepInside(s, t, h.latest[t], spurious);
        if s'.threads[t].Idle? {
          Next([], Begun(t, h.latest[t]), h.answers, Answer(t, h.latest[t], s'.threads[t].result), t);
        }
      } else {
        IdleStays(s, t, spurious);
      }
  }

  lemma NoResponse<T>(s: State<T>, a: Action<T>)
    ensures a.Start? || a.t !in s.threads || s.threads[a.t].Idle? ==> Response(s, a) == []
  {
  }

  lemma IdleStays<T>(s: State<T>, t: nat, spurious: bool)
    requires Shape(s) && t in s.threads && s.threads[t].Idle?
    ensures Exec(s, Step(t, spurious)) == s
  {
  }

  lemma OtherFollows<T>(h: History<T>, s: State<T>, a: Action<T>, u: nat)
    requires Shape(s) && u in s.threads && u != a.t && Follows(h, s.threads[u], u)
    ensures var s' := Exec(s, a); var h' := Noted(h, s, a, s');
            && u in s'.threads && Follows(h', s'.threads[u], u)
            && SucceededBy(h'.answers, u) == SucceededBy(h.answers, u)
  {
    hide BegunBy, AnsweredBy, SucceededBy, Exec, OpOf;
    var s' := Exec(s, a);
    OthersUntouched(s, a, u);
    var h' := Noted(h, s, a, s');
    if a.Start? {
      Next(h.begun, Begun(a.t, a.call), [], Answer(u, a.call, NoCall), u);
    } else if |h'.answers| > |h.answers| {
      Next([], Begun(u, TryPop), h.answers, h'.answers[|h.answers|], u);
    }
  }

  lemma ResponseBy<T>(s: State<T>, a: Action<T>, t: nat)
    ensures |Response(s, a)| <= 1
    ensures By(Response(s, a), t) == if a.t == t then Response(s, a) else []
  {
    if Response(s, a) != [] { ByOne(Response(s, a)[0], t); }
  }

  /** The history agrees with the threads and with what module RingTheorems calls responses. */
  ghost predicate Told<T>(h: History<T>, s: State<T>, responses: seq<Op<T>>) {
    && AllFit(h.answers)
    && forall t :: t in s.threads ==> Follows(h, s.threads[t], t) && SucceededBy(h.answers, t) == By(responses, t)
  }

  lemma ToldFollows<T>(h: History<T>, s: State<T>, a: Action<T>, responses: seq<Op<T>>)
    requires Shape(s) && Told(h, s, responses)
    ensures Told(Noted(h, s, a, Exec(s, a)), Exec(s, a), responses + Response(s, a))
  {
    hide Exec, Noted, Follows, AllFit, Response, SucceededBy, By;
    var s' := Exec(s, a);
    if a.t in s.threads {
      OwnFollows(h, s, a);
      forall u | u in s'.threads
        ensures Follows(Noted(h, s, a, s'), s'.threads[u], u)
        ensures SucceededBy(Noted(h, s, a, s').answers, u) == By(responses + Response(s, a), u)
      {
        ResponseBy(s, a, u);
        ByAppend(responses, Response(s, a), u);
        if u != a.t {
          OthersUntouched(s, a, u);
          OtherFollows(h, s, a, u);
        }
      }
    } else {
      NobodyNoted(h, s, a);
      NoResponse(s, a);
      assert responses + [] == responses;
    }
  }

  lemma NobodyNoted<T>(h: History<T>, s: State<T>, a: Action<T>)
    requires Shape(s) && a.t !in s.threads
    ensures Exec(s, a) == s && Noted(h, s, a, s) == h
  {
  }

  lemma {:induction false} RunTold<T>(cap: nat, junk: seq<T>, tids: set<nat>, acts: seq<Action<T>>)
    requires cap > 0 && |junk| == cap
    ensures var s0 := Init(cap, junk, tids); Told(HistoryOf(s0, acts), Run(s0, acts), Responses(s0, acts))
    decreases |acts|
  {
    hide Exec, Noted, Told, Response;
    var s0 := Init(cap, junk, tids);
    if acts == [] {
      NothingBegun(cap, junk, tids);
    } else {
      var n := |acts| - 1;
      RunTold(cap, junk, tids, acts[..n]);
      ToldFollows(HistoryOf(s0, acts[..n]), Run(s0, acts[..n]), acts[n], Responses(s0, acts[..n]));
    }
  }

  lemma NothingBegun<T>(cap: nat, junk: seq<T>, tids: set<nat>)
    requires cap > 0 && |junk| == cap
    ensures Told<T>(History([], [], map[]), Init(cap, junk, tids), [])
  {
  }

  // ----- the result -----

  /** In every run, for every thread t: its calls return in order, each once and with a result of
      its kind, but for the one it is in. The operations of t in the linearization (module
      RingTheorems: a legal FIFO history of the successful compare-exchanges) are those of its
      pushes that returned true, with the item passed, and of its pops that returned an item,
      with that item, in the order of the calls, and at most the one it is in. */
  lemma CallsAreLinearized<T>(cap: nat, junk: seq<T>, tids: set<nat>, acts: seq<Action<T>>, t: nat)
    requires cap >= 2 && IsPowerOfTwo(cap) && |junk| == cap && t in After(cap, junk, tids, acts).threads
    ensures var s0 := Init(cap, junk, tids); var h, s := HistoryOf(s0, acts), After(cap, junk, tids, acts);
            && Bounds(s) && (!s.threads[t].Idle? ==> t in h.latest)
            && BegunBy(h.begun, t) == AnsweredBy(h.answers, t) + (if s.threads[t].Idle? then [] else [h.latest[t]])
            && (forall i :: 0 <= i < |h.answers| ==> Fits(h.answers[i].call, h.answers[i].result))
            && Fifo(Effects(s0, acts), cap) == Some(Contents(s))
            && By(Effects(s0, acts), t) == SucceededBy(h.answers, t) + Pending(s, t)
            && (forall op :: op in Pending(s, t) && op.Enq? ==> !s.threads[t].Idle? && h.latest[t] == TryPush(op.item))
            && (forall op :: op in Pending(s, t) && op.Deq? ==> !s.threads[t].Idle? && h.latest[t] == TryPop)
  {
    hide SucceededBy, Fifo, Effects, BegunBy, AnsweredBy, By, Inv, Pending, Inside;
    var s0 := Init(cap, junk, tids);
    RunTold(cap, junk, tids, acts);
    CallsReturnTheirEffects(cap, junk, tids, acts, t);
    RunsAreFifo(cap, junk, tids, acts);
    InvBounds(After(cap, junk, tids, acts));
    var h, s := HistoryOf(s0, acts), After(cap, junk, tids, acts);
    assert Follows(h, s.threads[t], t);
    PendingIsInside(h, s, t);
  }

  lemma PendingIsInside<T>(h: History<T>, s: State<T>, t: nat)
    requires t in s.threads && (!s.threads[t].Idle? ==> t in h.latest && Inside(s.threads[t], h.latest[t]))
    ensures forall op :: op in Pending(s, t) && op.Enq? ==> !s.threads[t].Idle? && h.latest[t] == TryPush(op.item)
    ensures forall op :: op in Pending(s, t) && op.Deq? ==> !s.threads[t].Idle? && h.latest[t] == TryPop
  {
  }
}
