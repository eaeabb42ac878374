/** What the callers of `MessageCenterFast::post` are told (src/messagecenter_fast.h:172-203),
    read off the calls made and the values returned: a message is inserted if and only if its
    call returns true, and what is delivered is what was accepted. */
module MessageCenterCalls {
  import opened Bits
  import opened Sequences
  import Ring
  import RingTheorems
  import opened MessageCenter
  import opened MessageCenterStop

  /** A call of `post`, and a call that has returned. */
  datatype Call = Call(t: nat, message: Message)
  datatype Answer = Answer(t: nat, message: Message, result: Ring.Option<bool>)

  /** What an observer of the threads writes down: the calls begun, the calls returned, each
      thread's latest call, and which thread claimed each position of the ring. */
  datatype History = History(begun: seq<Call>, answers: seq<Answer>, latest: map<nat, Message>, owners: seq<nat>)

  /** The thread begins or continues a call of `post` by action a. */
  predicate Posts(s: State, a: Action) {
    || (a.BeginPost? && a.t in s.threads && s.threads[a.t].Idle?)
    || (a.PostStep? && a.t in s.threads && !s.threads[a.t].Idle?)
  }

  function Noted(h: History, s: State, a: Action, s': State): History {
    if !Posts(s, a) || a.t !in s'.threads then h else
    var h1 := if a.BeginPost?
              then h.(begun := h.begun + [Call(a.t, Message(a.topic, a.data))],
                      latest := h.latest[a.t := Message(a.topic, a.data)])
              else h;
    h1.(answers := if s'.threads[a.t].Idle? && a.t in h1.latest
                   then h.answers + [Answer(a.t, h1.latest[a.t], s'.threads[a.t].result)] else h.answers,
        owners := if s'.ring.tail > s.ring.tail then h.owners + [a.t] else h.owners)
  }

  function HistoryOf(s: State, acts: seq<Action>): History
    requires Shape(s)
    decreases |acts|
  {
    if acts == [] then History([], [], map[], []) else
    var n := |acts| - 1;
    Noted(HistoryOf(s, acts[..n]), Run(s, acts[..n]), acts[n], Run(s, acts))
  }

  // ----- what the history says -----

  function BegunBy(cs: seq<Call>, t: nat): seq<Message>
    decreases |cs|
  {
    if cs == [] then [] else
    BegunBy(cs[..|cs| - 1], t) + if cs[|cs| - 1].t == t then [cs[|cs| - 1].message] else []
  }

  /** The messages of the calls of t that have returned; those whose calls returned true. */
  function ReturnedBy(rs: seq<Answer>, t: nat): seq<Message>
    decreases |rs|
  {
    if rs == [] then [] else
    ReturnedBy(rs[..|rs| - 1], t) + if rs[|rs| - 1].t == t then [rs[|rs| - 1].message] else []
  }

  function AcceptedBy(rs: seq<Answer>, t: nat): seq<Message>
    decreases |rs|
  {
    if rs == [] then [] else
    var r := rs[|rs| - 1];
    AcceptedBy(rs[..|rs| - 1], t) + if r.t == t && r.result == Ring.Some(true) then [r.message] else []
  }

  /** The messages of all calls that returned true, in the order of the returns. */
  function Accepted(rs: seq<Answer>): seq<Message>
    decreases |rs|
  {
    if rs == [] then [] else
    Accepted(rs[..|rs| - 1]) + if rs[|rs| - 1].result == Ring.Some(true) then [rs[|rs| - 1].message] else []
  }

  /** The messages at the positions thread t claimed, oldest first. */
  function OwnedBy(owners: seq<nat>, inserted: seq<Message>, t: nat): seq<Message>
    requires |owners| <= |inserted|
    decreases |owners|
  {
    if owners == [] then [] else
    var n := |owners| - 1;
    OwnedBy(owners[..n], inserted, t) + if owners[n] == t then [inserted[n]] else []
  }

  /** The messages at the first n positions whose posts have been counted. */
  function Settled(inserted: seq<Message>, open: map<nat, nat>, n: nat): seq<Message>
    requires n <= |inserted|
  {
    if n == 0 then [] else Settled(inserted, open, n - 1) + if n - 1 in open then [] else [inserted[n - 1]]
  }

  // ----- the invariant -----

  /** The call a thread is in. */
  function Running(l: Local): seq<Message> {
    if l.Idle? then [] else [l.message]
  }

  /** A call that owns a position and has not returned. */
  function Owning(l: Local): seq<Message> {
    if l.Claimed? || l.Counting? then [l.message] else []
  }

  predicate ThreadNoted(h: History, s: State, t: nat)
    requires t in s.threads && |h.owners| <= |s.ring.inserted|
  {
    && (!s.threads[t].Idle? ==> t in h.latest && h.latest[t] == s.threads[t].message)
    && BegunBy(h.begun, t) == ReturnedBy(h.answers, t) + Running(s.threads[t])
    && OwnedBy(h.owners, s.ring.inserted, t) == AcceptedBy(h.answers, t) + Owning(s.threads[t])
  }

  predicate Matching(h: History, s: State) {
    && |h.owners| == s.ring.tail == |s.ring.inserted|
    && s.posted == |Accepted(h.answers)|
    && multiset(Accepted(h.answers)) == multiset(Settled(s.ring.inserted, s.open, s.ring.tail))
    && (forall i :: 0 <= i < |h.answers| ==> h.answers[i].result.Some?)
  }

  ghost predicate Told(h: History, s: State) {
    && Inv(s) && Matching(h, s)
    && forall t :: t in s.threads ==> ThreadNoted(h, s, t)
  }

  // ----- one more -----

  lemma BegunNext(cs: seq<Call>, c: Call, t: nat)
    ensures BegunBy(cs + [c], t) == BegunBy(cs, t) + if c.t == t then [c.message] else []
  {
    assert (cs + [c])[..|cs|] == cs;
  }

  lemma ReturnsNext(rs: seq<Answer>, r: Answer, t: nat)
    ensures ReturnedBy(rs + [r], t) == ReturnedBy(rs, t) + if r.t == t then [r.message] else []
    ensures AcceptedBy(rs + [r], t) ==
            AcceptedBy(rs, t) + if r.t == t && r.result == Ring.Some(true) then [r.message] else []
    ensures Accepted(rs + [r]) == Accepted(rs) + if r.result == Ring.Some(true) then [r.message] else []
  {
    assert (rs + [r])[..|rs|] == rs;
  }

  lemma OwnersNext(owners: seq<nat>, t: nat, inserted: seq<Message>, u: nat)
    requires |owners| < |inserted|
    ensures OwnedBy(owners + [t], inserted, u) ==
            OwnedBy(owners, inserted, u) + if t == u then [inserted[|owners|]] else []
  {
    assert (owners + [t])[..|owners|] == owners;
  }

  /** Later insertions do not matter. */
  lemma {:induction false} OwnedStays(owners: seq<nat>, inserted: seq<Message>, inserted': seq<Message>, t: nat)
    requires |owners| <= |inserted| && inserted <= inserted'
    ensures OwnedBy(owners, inserted', t) == OwnedBy(owners, inserted, t)
    decreases |owners|
  {
    if owners != [] { OwnedStays(owners[..|owners| - 1], inserted, inserted', t); }
  }

  lemma {:induction false} SettledStays(inserted: seq<Message>, inserted': seq<Message>,
                                        open: map<nat, nat>, open': map<nat, nat>, n: nat)
    requires n <= |inserted| && inserted <= inserted' && forall p :: 0 <= p < n ==> (p in open <==> p in open')
    ensures Settled(inserted', open', n) == Settled(inserted, open, n)
    decreases n
  {
    if n > 0 { SettledStays(inserted, inserted', open, open', n - 1); }
  }

  /** One more post is counted. */
  lemma {:induction false} SettledNext(inserted: seq<Message>, open: map<nat, nat>, p: nat, n: nat)
    requires p < n <= |inserted| && p in open
    ensures multiset(Settled(inserted, open - {p}, n)) == multiset(Settled(inserted, open, n)) + multiset{inserted[p]}
    decreases n
  {
    var less := open - {p};
    if p < n - 1 {
      SettledNext(inserted, open, p, n - 1);
      assert n - 1 in less <==> n - 1 in open;
    } else {
      SettledStays(inserted, inserted, open, less, n - 1);
      assert Settled(inserted, less, n) == Settled(inserted, open, n - 1) + [inserted[p]];
      assert Settled(inserted, open, n) == Settled(inserted, open, n - 1) + [];
    }
  }

  // ----- what an action does to a poster -----

  /** Thread t has begun a call of `post`. */
  predicate Begins(s: State, s': State, t: nat, m: Message)
    requires t in s.threads && t in s'.threads
  {
    && s.threads[t].Idle? && s' == s.(threads := s'.threads, ring := s'.ring, quiet := s'.quiet)
    && s'.ring.tail == s.ring.tail && s'.ring.inserted == s.ring.inserted
    && if m.topicId >= MAX_TOPICS then s'.threads[t] == Idle(Ring.Some(false)) else s'.threads[t] == Pushing(m)
  }

  predicate Claims(s: State, s': State, t: nat)
    requires t in s.threads && t in s'.threads
  {
    && s.threads[t].Pushing? && s'.threads[t] == Claimed(s.threads[t].message, s.ring.tail)
    && s'.ring.tail == s.ring.tail + 1 && s'.ring.inserted == s.ring.inserted + [s.threads[t].message]
    && s'.open == s.open[s.ring.tail := t] && s'.posted == s.posted
  }

  /** The ring refuses the message, and `post` returns false. */
  predicate Refused(s: State, s': State, t: nat)
    requires t in s.threads && t in s'.threads
  {
    && s.threads[t].Pushing? && s'.threads[t] == Idle(Ring.Some(false))
    && t in s'.ring.threads && s'.ring.threads[t] == Ring.Idle(Ring.Pushed(false))
    && s'.ring.tail == s.ring.tail && s'.ring.inserted == s.ring.inserted && s'.open == s.open && s'.posted == s.posted
  }

  /** The claimed message is counted, and `post` returns true. */
  predicate Counts(s: State, s': State, t: nat)
    requires t in s.threads && t in s'.threads
  {
    && s.threads[t].Counting? && s'.threads[t] == Idle(Ring.Some(true))
    && s'.ring == s.ring && s.threads[t].pos in s.open && s'.open == s.open - {s.threads[t].pos}
    && s.threads[t].pos < |s.ring.inserted| && s.ring.inserted[s.threads[t].pos] == s.threads[t].message
    && s'.posted == s.posted + 1
  }

  /** Somewhere else in the same call, its message claimed or not as before. */
  predicate Continues(s: State, s': State, t: nat)
    requires t in s.threads && t in s'.threads
  {
    && !s.threads[t].Idle? && !s'.threads[t].Idle? && s'.threads[t].message == s.threads[t].message
    && (s.threads[t].Pushing? <==> s'.threads[t].Pushing?)
    && s'.ring.tail == s.ring.tail && s'.ring.inserted == s.ring.inserted && s'.open == s.open && s'.posted == s.posted
  }

  predicate Moves(s: State, s': State, t: nat) {
    t in s.threads && t in s'.threads && s'.threads == s.threads[t := s'.threads[t]]
  }

  lemma BeginOutcome(s: State, t: nat, m: Message)
    requires Inv(s) && t in s.threads && s.threads[t].Idle?
    ensures Moves(s, StartPost(s, t, m), t) && Begins(s, StartPost(s, t, m), t, m)
  {
    hide Ring.Inv, Ring.Exec, Posters, DispatcherOk, ControlOk;
    PosterAt(s, t);
    Ring.Entered(s.ring, t, Ring.TryPush(m));
  }

  lemma PushOutcome(s: State, t: nat, m: Message, spurious: bool)
    requires Inv(s) && t in s.threads && s.threads[t] == Pushing(m)
    ensures var s' := PushStep(s, t, m, spurious);
            Moves(s, s', t) && (Claims(s, s', t) || Refused(s, s', t) || Continues(s, s', t))
  {
    hide Ring.Inv, Ring.Exec, Posters, DispatcherOk, ControlOk;
    PosterAt(s, t);
    TryingMoves(s.ring, t, m, spurious);
    Refuses(s.ring, t, m, spurious);
  }

  /** A push that ends without a claim has been refused. */
  lemma Refuses(r: Ring.State<Message>, t: nat, m: Message, spurious: bool)
    requires Ring.Shape(r) && t in r.threads && Trying(r.threads[t], m)
    ensures var r' := Ring.Exec(r, Ring.Step(t, spurious));
            t in r'.threads && (r'.threads[t].Idle? ==> r'.threads[t] == Ring.Idle(Ring.Pushed(false)))
  {
    hide Ring.PopStep, Ring.SizeStep;
  }

  lemma ClaimedOutcome(s: State, t: nat, m: Message, p: nat, spurious: bool)
    requires Inv(s) && t in s.threads && s.threads[t] == Claimed(m, p)
    ensures Moves(s, ClaimedStep(s, t, m, p, spurious), t) && Continues(s, ClaimedStep(s, t, m, p, spurious), t)
  {
    hide Ring.Inv, Ring.Exec, Posters, DispatcherOk, ControlOk;
    PosterAt(s, t);
    ClaimedMoves(s.ring, t, spurious);
  }

  lemma CountOutcome(s: State, t: nat, m: Message, p: nat)
    requires Inv(s) && t in s.threads && s.threads[t] == Counting(m, p)
    ensures Moves(s, CountPost(s, t, p), t) && Counts(s, CountPost(s, t, p), t)
  {
    hide Ring.Inv, Ring.Exec, Posters, DispatcherOk, ControlOk;
    PosterAt(s, t);
  }

  predicate Outcome(s: State, a: Action, s': State)
    requires (a.BeginPost? || a.PostStep?) && a.t in s.threads && a.t in s'.threads
  {
    if a.BeginPost? then Begins(s, s', a.t, Message(a.topic, a.data))
    else Claims(s, s', a.t) || Refused(s, s', a.t) || Counts(s, s', a.t) || Continues(s, s', a.t)
  }

  lemma PosterOutcome(s: State, a: Action)
    requires Inv(s) && Posts(s, a)
    ensures Moves(s, Exec(s, a), a.t) && Outcome(s, a, Exec(s, a))
  {
    hide Inv, StartPost, PushStep, ClaimedStep, CountPost, Moves, Begins, Claims, Refused, Counts, Continues;
    InvShape(s);
    match a
    case BeginPost(t, topic, data) => BeginOutcome(s, t, Message(topic, data));
    case PostStep(t, spurious) =>
      match s.threads[t]
      case Pushing(m) => PushOutcome(s, t, m, spurious);
      case Claimed(m, p) => ClaimedOutcome(s, t, m, p, spurious);
      case Counting(m, p) => CountOutcome(s, t, m, p);
  }

  /** All other actions leave the posters, the tail and the counter alone. */
  lemma OthersDoNotPost(s: State, a: Action)
    requires Inv(s) && !Posts(s, a)
    ensures var s' := Exec(s, a);
            && s'.threads == s.threads && s'.open == s.open && s'.posted == s.posted
            && s'.ring.tail == s.ring.tail && s'.ring.inserted == s.ring.inserted
  {
    hide Inv, Advance, StopAdvance;
    InvShape(s);
    match a
    case LoopStep(spurious) => LoopDoesNotPost(s, spurious);
    case StopStep => StopDoesNotPost(s);
    case _ =>
  }

  lemma StopDoesNotPost(s: State)
    ensures var s' := StopAdvance(s);
            s'.threads == s.threads && s'.open == s.open && s'.posted == s.posted && s'.ring == s.ring
  {
  }

  lemma LoopDoesNotPost(s: State, spurious: bool)
    requires Inv(s)
    ensures var s' := Advance(s, spurious);
            && s'.threads == s.threads && s'.open == s.open && s'.posted == s.posted
            && s'.ring.tail == s.ring.tail && s'.ring.inserted == s.ring.inserted
  {
    hide Inv, CallPop, PopStep;
    InvShape(s);
    match s.loop
    case CheckStop => CallPopKeeps(s, if s.stopping then DrainPop else LoopPop);
    case LoopPop => PopDoesNotPost(s, spurious);
    case DrainPop => PopDoesNotPost(s, spurious);
    case DrainCount => CallPopKeeps(s.(dispatched := s.dispatched + 1), DrainPop);
    case _ =>
  }

  lemma PopDoesNotPost(s: State, spurious: bool)
    requires Inv(s) && (s.loop.LoopPop? || s.loop.DrainPop?)
    ensures var s' := PopStep(s, spurious);
            && s'.threads == s.threads && s'.open == s.open && s'.posted == s.posted
            && s'.ring.tail == s.ring.tail && s'.ring.inserted == s.ring.inserted
  {
    hide Ring.Inv, Posters, ControlOk, Ring.Exec, PopStep;
    DispatcherPops(s);
    PopFrame(s, spurious);
  }

  lemma CallPopKeeps(s: State, l: Loop)
    requires Shape(s)
    ensures var s' := CallPop(s, l);
            && s'.threads == s.threads && s'.open == s.open && s'.posted == s.posted
            && s'.ring.tail == s.ring.tail && s'.ring.inserted == s.ring.inserted
  {
  }

  // ----- preservation -----

  lemma ThreadFollows(h: History, s: State, a: Action, s': State)
    requires Posts(s, a) && |h.owners| == s.ring.tail == |s.ring.inserted| && ThreadNoted(h, s, a.t)
    requires Moves(s, s', a.t) && Outcome(s, a, s') && |s'.ring.inserted| == s'.ring.tail
    ensures var h' := Noted(h, s, a, s'); |h'.owners| == s'.ring.tail && ThreadNoted(h', s', a.t)
  {
    hide BegunBy, ReturnedBy, AcceptedBy, OwnedBy, Settled, Accepted;
    var t := a.t;
    var m := if a.BeginPost? then Message(a.topic, a.data) else s.threads[t].message;
    BegunNext(h.begun, Call(t, m), t);
    if s'.threads[t].Idle? { ReturnsNext(h.answers, Answer(t, m, s'.threads[t].result), t); }
    OwnedStays(h.owners, s.ring.inserted, s'.ring.inserted, t);
    if s'.ring.tail > s.ring.tail { OwnersNext(h.owners, t, s'.ring.inserted, t); }
  }

  lemma OtherFollows(h: History, s: State, a: Action, s': State, u: nat)
    requires Posts(s, a) && |h.owners| == s.ring.tail == |s.ring.inserted| && u in s.threads && ThreadNoted(h, s, u)
    requires Moves(s, s', a.t) && Outcome(s, a, s') && |s'.ring.inserted| == s'.ring.tail && u != a.t
    ensures var h' := Noted(h, s, a, s'); |h'.owners| == s'.ring.tail && ThreadNoted(h', s', u)
  {
    hide BegunBy, ReturnedBy, AcceptedBy, OwnedBy, Settled, Accepted;
    var t := a.t;
    if a.BeginPost? { BegunNext(h.begun, Call(t, Message(a.topic, a.data)), u); }
    var h' := Noted(h, s, a, s');
    if |h'.answers| > |h.answers| { ReturnsNext(h.answers, h'.answers[|h.answers|], u); }
    OwnedStays(h.owners, s.ring.inserted, s'.ring.inserted, u);
    if s'.ring.tail > s.ring.tail { OwnersNext(h.owners, t, s'.ring.inserted, u); }
  }

  lemma MatchingFollows(h: History, s: State, a: Action, s': State)
    requires Posts(s, a) && Matching(h, s) && ThreadNoted(h, s, a.t)
    requires Moves(s, s', a.t) && Outcome(s, a, s') && |s'.ring.inserted| == s'.ring.tail
    ensures Matching(Noted(h, s, a, s'), s')
  {
    hide BegunBy, ReturnedBy, AcceptedBy, OwnedBy, Settled, Accepted, ThreadNoted, Noted;
    LatestIs(h, s, a, s');
    SettledFollows(s, a, s');
    if s'.threads[a.t].Idle? {
      var m := if a.BeginPost? then Message(a.topic, a.data) else s.threads[a.t].message;
      ReturnsNext(h.answers, Answer(a.t, m, s'.threads[a.t].result), a.t);
    } else {
      assert h.answers + [] == h.answers;
    }
  }

  lemma SettledFollows(s: State, a: Action, s': State)
    requires Posts(s, a) && Moves(s, s', a.t) && Outcome(s, a, s')
    requires |s.ring.inserted| == s.ring.tail && |s'.ring.inserted| == s'.ring.tail
    ensures multiset(Settled(s'.ring.inserted, s'.open, s'.ring.tail)) ==
            multiset(Settled(s.ring.inserted, s.open, s.ring.tail)) +
            if a.PostStep? && s'.threads[a.t] == Idle(Ring.Some(true)) then multiset{s.threads[a.t].message}
            else multiset{}
  {
    hide Settled;
    var t := a.t;
    if a.PostStep? && Claims(s, s', t) {
      SettledStays(s.ring.inserted, s'.ring.inserted, s.open, s'.open, s.ring.tail);
      SettledOpen(s'.ring.inserted, s'.open, s'.ring.tail);
    } else if a.PostStep? && Counts(s, s', t) {
      SettledNext(s.ring.inserted, s.open, s.threads[t].pos, s.ring.tail);
    }
  }

  lemma SettledOpen(inserted: seq<Message>, open: map<nat, nat>, n: nat)
    requires 0 < n <= |inserted| && n - 1 in open
    ensures Settled(inserted, open, n) == Settled(inserted, open, n - 1)
  {
  }

  /** What is written down when the call returns. */
  lemma LatestIs(h: History, s: State, a: Action, s': State)
    requires Posts(s, a) && |h.owners| <= |s.ring.inserted| && ThreadNoted(h, s, a.t)
    requires Moves(s, s', a.t) && Outcome(s, a, s')
    ensures var m := if a.BeginPost? then Message(a.topic, a.data) else s.threads[a.t].message;
            var h' := Noted(h, s, a, s');
            && h'.answers ==
               h.answers + (if s'.threads[a.t].Idle? then [Answer(a.t, m, s'.threads[a.t].result)] else [])
            && h'.owners == h.owners + if s'.ring.tail > s.ring.tail then [a.t] else []
  {
  }

  lemma ToldFollows(h: History, s: State, a: Action)
    requires Told(h, s)
    ensures Shape(s) && Told(Noted(h, s, a, Exec(s, a)), Exec(s, a))
  {
    hide Inv, Exec, Noted, Matching, ThreadNoted, Moves, Outcome, Posts;
    InvShape(s);
    var s' := Exec(s, a);
    ExecKeepsInv(s, a);
    Sizes(s);
    Sizes(s');
    if Posts(s, a) {
      Poster(s, a);
      PosterOutcome(s, a);
      MatchingSizes(h, s);
      ThreadFollows(h, s, a, s');
      MatchingFollows(h, s, a, s');
      forall u | u in s'.threads
        ensures |Noted(h, s, a, s').owners| <= |s'.ring.inserted| && ThreadNoted(Noted(h, s, a, s'), s', u)
      {
        MovedThreads(s, s', a.t);
        if u != a.t { OtherFollows(h, s, a, s', u); }
      }
    } else {
      OthersDoNotPost(s, a);
      NothingNoted(h, s, a, s');
      StillTold(h, s, s');
    }
  }

  lemma Sizes(s: State)
    requires Inv(s)
    ensures |s.ring.inserted| == s.ring.tail
  {
    Counters(s.ring);
  }

  lemma Poster(s: State, a: Action)
    requires Posts(s, a)
    ensures (a.BeginPost? || a.PostStep?) && a.t in s.threads
  {
  }

  lemma MatchingSizes(h: History, s: State)
    requires Matching(h, s)
    ensures |h.owners| == s.ring.tail
  {
  }

  lemma MovedThreads(s: State, s': State, t: nat)
    requires Moves(s, s', t)
    ensures s'.threads.Keys == s.threads.Keys
  {
  }

  lemma NothingNoted(h: History, s: State, a: Action, s': State)
    requires !Posts(s, a)
    ensures Noted(h, s, a, s') == h
  {
  }

  lemma StillTold(h: History, s: State, s': State)
    requires Told(h, s) && Inv(s')
    requires s'.threads == s.threads && s'.open == s.open && s'.posted == s.posted
    requires s'.ring.tail == s.ring.tail && s'.ring.inserted == s.ring.inserted
    ensures Told(h, s')
  {
    hide Inv;
    forall t | t in s'.threads ensures ThreadNoted(h, s', t) {
      assert ThreadNoted(h, s, t);
    }
  }

  lemma {:induction false} RunTold(cap: nat, junk: seq<Message>, tids: set<nat>, acts: seq<Action>)
    requires cap >= 2 && IsPowerOfTwo(cap) && |junk| == cap && DISPATCHER !in tids
    ensures Told(HistoryOf(Init(cap, junk, tids), acts), After(cap, junk, tids, acts))
    decreases |acts|
  {
    hide Inv, Exec, Noted, Told;
    var s0 := Init(cap, junk, tids);
    if acts == [] {
      InitTold(cap, junk, tids);
    } else {
      var n := |acts| - 1;
      RunTold(cap, junk, tids, acts[..n]);
      AfterInv(cap, junk, tids, acts[..n]);
      InvShape(After(cap, junk, tids, acts[..n]));
      ToldFollows(HistoryOf(s0, acts[..n]), After(cap, junk, tids, acts[..n]), acts[n]);
    }
  }

  lemma InitTold(cap: nat, junk: seq<Message>, tids: set<nat>)
    requires cap >= 2 && IsPowerOfTwo(cap) && |junk| == cap && DISPATCHER !in tids
    ensures Told(History([], [], map[], []), Init(cap, junk, tids))
  {
    hide Inv;
    AfterInv(cap, junk, tids, []);
  }

  // ----- the results -----

  /** In every run, for every thread t: its calls have returned in order, each once, but for the
      one it is in; the messages of its calls that returned true, and of the running one if it
      owns a position, are exactly those at the positions it owns, in order; every position
      has one owner; and `m_posted` is the number of calls that returned true. */
  lemma CallsReturnWhatHappened(cap: nat, junk: seq<Message>, tids: set<nat>, acts: seq<Action>, t: nat)
    requires cap >= 2 && IsPowerOfTwo(cap) && |junk| == cap && DISPATCHER !in tids
    requires t in After(cap, junk, tids, acts).threads
    ensures var h, s := HistoryOf(Init(cap, junk, tids), acts), After(cap, junk, tids, acts);
            && BegunBy(h.begun, t) ==
               ReturnedBy(h.answers, t) + (if s.threads[t].Idle? then [] else [s.threads[t].message])
            && |h.owners| == |s.ring.inserted|
            && AcceptedBy(h.answers, t) +
               (if s.threads[t].Claimed? || s.threads[t].Counting? then [s.threads[t].message] else []) ==
               OwnedBy(h.owners, s.ring.inserted, t)
            && s.posted == |Accepted(h.answers)|
            && forall i :: 0 <= i < |h.answers| ==> h.answers[i].result.Some?
  {
    hide Inv;
    RunTold(cap, junk, tids, acts);
    assert ThreadNoted(HistoryOf(Init(cap, junk, tids), acts), After(cap, junk, tids, acts), t);
  }

  /** A call returns false if and only if its topic is out of range or the ring has refused its
      message, and true if and only if the ring has taken it. */
  lemma ResultIff(cap: nat, junk: seq<Message>, tids: set<nat>, acts: seq<Action>, a: Action)
    requires cap >= 2 && IsPowerOfTwo(cap) && |junk| == cap && DISPATCHER !in tids
    requires Posts(After(cap, junk, tids, acts), a)
    ensures var s' := After(cap, junk, tids, acts + [a]);
            && a.t in s'.threads && a.t in s'.ring.threads
            && (s'.threads[a.t].Idle? ==>
                  && (s'.threads[a.t].result == Ring.Some(false) <==>
                        (a.BeginPost? && a.topic >= MAX_TOPICS) ||
                        (a.PostStep? && s'.ring.threads[a.t] == Ring.Idle(Ring.Pushed(false))))
                  && (s'.threads[a.t].result == Ring.Some(true) <==>
                        a.PostStep? && s'.ring.threads[a.t] == Ring.Idle(Ring.Pushed(true))))
  {
    hide Ring.Inv, Exec, Posters, DispatcherOk, ControlOk;
    AfterInv(cap, junk, tids, acts);
    var s := After(cap, junk, tids, acts);
    assert (acts + [a])[..|acts|] == acts;
    PosterOutcome(s, a);
    PosterAt(s, a.t);
    ExecKeepsInv(s, a);
    PosterAt(Exec(s, a), a.t);
  }

  lemma {:induction false} OwnedPrefix(owners: seq<nat>, inserted: seq<Message>, n: nat, t: nat)
    requires n <= |owners| <= |inserted|
    ensures OwnedBy(owners[..n], inserted[..n], t) <= OwnedBy(owners, inserted, t)
    decreases |owners|
  {
    if n == |owners| {
      assert owners[..n] == owners;
      OwnedStays(owners, inserted[..n], inserted, t);
    } else {
      var k := |owners| - 1;
      OwnedPrefix(owners[..k], inserted, n, t);
      assert owners[..k][..n] == owners[..n];
    }
  }

  /** What the observers have been given so far are messages of calls that returned true, or
      are about to: for each thread, the oldest of them, in order. */
  lemma DeliveredWerePosted(cap: nat, junk: seq<Message>, tids: set<nat>, acts: seq<Action>, t: nat)
    requires cap >= 2 && IsPowerOfTwo(cap) && |junk| == cap && DISPATCHER !in tids
    requires t in After(cap, junk, tids, acts).threads
    ensures var h, s := HistoryOf(Init(cap, junk, tids), acts), After(cap, junk, tids, acts);
            && |s.delivered| <= |h.owners|
            && OwnedBy(h.owners[..|s.delivered|], s.delivered, t) <=
               AcceptedBy(h.answers, t) +
               (if s.threads[t].Claimed? || s.threads[t].Counting? then [s.threads[t].message] else [])
  {
    var h, s := HistoryOf(Init(cap, junk, tids), acts), After(cap, junk, tids, acts);
    CallsReturnWhatHappened(cap, junk, tids, acts, t);
    Conservation(cap, junk, tids, acts);
    OwnedPrefix(h.owners, s.ring.inserted, |s.delivered|, t);
    assert s.ring.inserted[..|s.delivered|] == s.delivered;
  }

  // ----- stop -----

  lemma {:induction false} NothingOpenSettled(inserted: seq<Message>, n: nat)
    requires n <= |inserted|
    ensures Settled(inserted, map[], n) == inserted[..n]
    decreases n
  {
    if n > 0 { NothingOpenSettled(inserted, n - 1); }
  }

  /** At the end of a run: the messages of the calls that returned true have been delivered,
      each exactly once and nothing else, those of one thread in the order of its calls; the
      counters agree with their number. */
  ghost predicate AcceptedDelivered(h: History, s: State) {
    && multiset(Accepted(h.answers)) == multiset(s.delivered)
    && |h.owners| == |s.delivered|
    && (forall t :: t in s.threads ==> AcceptedBy(h.answers, t) == OwnedBy(h.owners, s.delivered, t))
    && (forall t :: t in s.threads ==> BegunBy(h.begun, t) == ReturnedBy(h.answers, t))
    && s.posted == s.dispatched == |Accepted(h.answers)|
  }

  lemma QuietIsDelivered(h: History, s: State)
    requires Told(h, s) && s.quiet && !s.running
    ensures AcceptedDelivered(h, s)
  {
    hide Ring.Inv;
    Drained(s);
    NothingOpen(s);
    NothingOpenSettled(s.ring.inserted, s.ring.tail);
    assert s.ring.inserted[..s.ring.tail] == s.ring.inserted;
    forall t | t in s.threads ensures AcceptedBy(h.answers, t) == OwnedBy(h.owners, s.delivered, t) {
      assert ThreadNoted(h, s, t);
    }
  }

  /** If every post has returned before `stop` begins and none begins before it returns, then
      when it has returned, exactly the messages of the calls that returned true have been
      delivered. */
  lemma StopDeliversAccepted(cap: nat, junk: seq<Message>, tids: set<nat>, before: seq<Action>, during: seq<Action>)
    requires cap >= 2 && IsPowerOfTwo(cap) && |junk| == cap && DISPATCHER !in tids
    requires var s := After(cap, junk, tids, before); s.running && s.control.Outside? && NoPosts(s)
    requires forall i :: 0 <= i < |during| ==> !during[i].BeginPost? && !during[i].BeginStart?
    ensures var acts := before + [BeginStop] + during; var s' := After(cap, junk, tids, acts);
            !s'.running ==> AcceptedDelivered(HistoryOf(Init(cap, junk, tids), acts), s')
  {
    hide Inv, Exec, Run, HistoryOf, Told, AcceptedDelivered;
    var s0, acts := Init(cap, junk, tids), before + [BeginStop] + during;
    Ring.InitInv(cap, junk, tids + {DISPATCHER});
    InitInv(cap, junk, tids);
    AfterInv(cap, junk, tids, before);
    var s := After(cap, junk, tids, before);
    InvShape(s);
    RunAppend(s0, before, [BeginStop]);
    RunAppend(s0, before + [BeginStop], during);
    QuietBegins(s);
    AfterInv(cap, junk, tids, before + [BeginStop]);
    var s1 := After(cap, junk, tids, before + [BeginStop]);
    assert s1 == Run(s, [BeginStop]);
    InvShape(s1);
    QuietRun(s1, during);
    RunTold(cap, junk, tids, acts);
    if !After(cap, junk, tids, acts).running {
      QuietIsDelivered(HistoryOf(s0, acts), After(cap, junk, tids, acts));
    }
  }

  lemma QuietBegins(s: State)
    requires Shape(s) && s.running && s.control.Outside? && NoPosts(s)
    ensures Run(s, [BeginStop]).quiet
  {
    assert [BeginStop][..0] == [];
    assert Run(s, []) == s;
  }

  /** With that, and after the steps that bound the drain, `stop` has returned and exactly the
      messages of the calls that returned true have been delivered. */
  lemma StopReturnsDeliversAccepted(
    cap: nat, junk: seq<Message>, tids: set<nat>, before: seq<Action>, during: seq<Action>)
    requires cap >= 2 && IsPowerOfTwo(cap) && |junk| == cap && DISPATCHER !in tids
    requires var s := After(cap, junk, tids, before); s.running && s.control.Outside? && NoPosts(s)
    requires forall i :: 0 <= i < |during| ==> !during[i].BeginPost? && !during[i].BeginStart?
    requires var s := After(cap, junk, tids, before);
             LoopSteps(during) >= ROUND * (s.ring.tail - s.ring.head) + ROUND + 2 * SpuriousSteps(during)
    ensures var acts := before + [BeginStop, StopStep] + during + [StopStep, StopStep];
            var s' := After(cap, junk, tids, acts);
            !s'.running && AcceptedDelivered(HistoryOf(Init(cap, junk, tids), acts), s')
  {
    hide Inv, Exec, Run, HistoryOf, AcceptedDelivered;
    StopReturnsDrained(cap, junk, tids, before, during);
    var later := [StopStep] + during + [StopStep, StopStep];
    StopDeliversAccepted(cap, junk, tids, before, later);
    assert before + [BeginStop] + later == before + [BeginStop, StopStep] + during + [StopStep, StopStep];
  }

  // ----- progress -----

  /** A thread inside `post` has a step to another place. */
  lemma PostGoesOn(cap: nat, junk: seq<Message>, tids: set<nat>, acts: seq<Action>, t: nat)
    requires cap >= 2 && IsPowerOfTwo(cap) && |junk| == cap && DISPATCHER !in tids
    requires var s := After(cap, junk, tids, acts); t in s.threads && !s.threads[t].Idle?
    ensures var s, s' := After(cap, junk, tids, acts), After(cap, junk, tids, acts + [PostStep(t, false)]);
            && t in s'.threads && t in s.ring.threads && t in s'.ring.threads
            && (s'.threads[t] != s.threads[t] || s'.ring.threads[t] != s.ring.threads[t])
  {
    hide Inv, Exec;
    AfterInv(cap, junk, tids, acts);
    var s, a := After(cap, junk, tids, acts), PostStep(t, false);
    InvShape(s);
    assert (acts + [a])[..|acts|] == acts;
    StepGoesOn(s, t);
  }

  lemma StepGoesOn(s: State, t: nat)
    requires Inv(s) && t in s.threads && !s.threads[t].Idle?
    ensures Shape(s)
    ensures var s' := Exec(s, PostStep(t, false));
            && t in s'.threads && t in s.ring.threads && t in s'.ring.threads
            && (s'.threads[t] != s.threads[t] || s'.ring.threads[t] != s.ring.threads[t])
  {
    hide Ring.Inv, Ring.Exec, Posters, DispatcherOk, ControlOk;
    PosterAt(s, t);
    RingGoesOn(s.ring, t);
  }

  lemma RingGoesOn(r: Ring.State<Message>, t: nat)
    requires Ring.Shape(r) && t in r.threads
    ensures var r' := Ring.Exec(r, Ring.Step(t, false));
            t in r'.threads && (Ring.Pushing(r.threads[t]) ==> r'.threads[t] != r.threads[t])
  {
    hide Ring.PopStep, Ring.SizeStep;
    PopStillThere(r, t, false);
    SizeStillThere(r, t);
  }

  lemma SizeStillThere(r: Ring.State<Message>, t: nat)
    requires Ring.Shape(r) && t in r.threads
    ensures t in Ring.SizeStep(r, t, r.threads[t]).threads
  {
  }
}
