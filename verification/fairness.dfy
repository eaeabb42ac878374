/** `dispatchRatio` of `EventQueueEmulator` (src/eventqueue_emulator.h) while other threads
    post, and dispatch, as they like: both queues are rings of module Ring, every ring step is
    one step here, and one thread runs the call under observation. */
module Fairness {
  import opened Bits
  import Ring
  import RingTheorems

  /** The observed thread. Its own handlers' posts count as steps of another thread. */
  const DISPATCHER: nat := 0

  /** Where `dispatchRatio` is: at the top of its loop, in `try_pop` for the first or the
      second fast attempt or for the bulk attempt, or returned. */
  datatype Pc = Top | FirstFast | InBulk | SecondFast | Returned

  /** `streak` is history: the fast messages this call has claimed since the bulk head
      message was published, or since the last bulk message was taken. */
  datatype State<T> = State(
    fast: Ring.State<T>, bulk: Ring.State<T>, pc: Pc, ratio: nat, fastCount: nat, count: nat, streak: nat)

  /** Another thread's action on one of the rings, or the next step of the call. */
  datatype Action<T> = OnFast(a: Ring.Action<T>) | OnBulk(a: Ring.Action<T>) | Dispatch(spurious: bool)

  predicate Shape<T>(s: State<T>) {
    Ring.Shape(s.fast) && Ring.Shape(s.bulk) && DISPATCHER in s.fast.threads && DISPATCHER in s.bulk.threads
  }

  function Call<T>(r: Ring.State<T>): (r': Ring.State<T>)
    requires Ring.Shape(r)
    ensures Ring.Shape(r')
  {
    Ring.Exec(r, Ring.Start(DISPATCHER, Ring.TryPop))
  }

  function Step<T>(r: Ring.State<T>, spurious: bool): (r': Ring.State<T>)
    requires Ring.Shape(r)
    ensures Ring.Shape(r')
  {
    Ring.Exec(r, Ring.Step(DISPATCHER, spurious))
  }

  function Mine<T>(r: Ring.State<T>): Ring.Local<T>
    requires DISPATCHER in r.threads
  {
    r.threads[DISPATCHER]
  }

  /** The call has just got a message, or has just been refused. */
  predicate Got<T>(l: Ring.Local<T>) {
    l.Idle? && l.result.Popped? && l.result.item.Some?
  }

  predicate Refused<T>(l: Ring.Local<T>) {
    l.Idle? && l.result == Ring.Popped(Ring.None)
  }

  /** A step of the loop, without the history. */
  function LoopStep<T>(s: State<T>, spurious: bool): State<T>
    requires Shape(s)
  {
    match s.pc
    case Top =>
      if s.fastCount < s.ratio then s.(fast := Call(s.fast), pc := FirstFast)
      else s.(bulk := Call(s.bulk), pc := InBulk)
    case FirstFast =>
      var r := Step(s.fast, spurious);
      if DISPATCHER !in r.threads then s
      else if Got(Mine(r)) then s.(fast := r, count := s.count + 1, fastCount := s.fastCount + 1, pc := Top)
      else if Refused(Mine(r)) then s.(fast := r, bulk := Call(s.bulk), pc := InBulk)
      else s.(fast := r)
    case InBulk =>
      var r := Step(s.bulk, spurious);
      if DISPATCHER !in r.threads then s
      else if Got(Mine(r)) then s.(bulk := r, count := s.count + 1, fastCount := 0, pc := Top)
      else if Refused(Mine(r)) then s.(bulk := r, fast := Call(s.fast), pc := SecondFast)
      else s.(bulk := r)
    case SecondFast =>
      var r := Step(s.fast, spurious);
      if DISPATCHER !in r.threads then s
      else if Got(Mine(r)) then s.(fast := r, count := s.count + 1, fastCount := s.fastCount + 1, pc := Top)
      else if Refused(Mine(r)) then s.(fast := r, pc := Returned)
      else s.(fast := r)
    case Returned => s
  }

  function Streak<T>(s: State<T>, s': State<T>, mine: bool): nat {
    if !Ring.HeadPublished(s'.bulk) || s'.bulk.head != s.bulk.head then 0
    else if mine && s'.fast.head != s.fast.head then s.streak + 1
    else s.streak
  }

  function Move<T>(s: State<T>, a: Action<T>): State<T>
    requires Shape(s)
  {
    match a
    case OnFast(b) => if b.t == DISPATCHER then s else s.(fast := Ring.Exec(s.fast, b))
    case OnBulk(b) => if b.t == DISPATCHER then s else s.(bulk := Ring.Exec(s.bulk, b))
    case Dispatch(spurious) => LoopStep(s, spurious)
  }

  function Exec<T>(s: State<T>, a: Action<T>): State<T>
    requires Shape(s)
  {
    var s' := Move(s, a);
    s'.(streak := Streak(s, s', a.Dispatch?))
  }

  // ----- the invariant -----

  predicate Holds<T>(l: Ring.Local<T>) {
    l.PopRead? || l.PopRelease?
  }

  /** The dispatcher is inside `try_pop` of the ring the program counter names. */
  predicate PcOk<T>(s: State<T>)
    requires Shape(s)
  {
    && (if s.pc.FirstFast? || s.pc.SecondFast? then Ring.Popping(Mine(s.fast)) else Mine(s.fast).Idle?)
    && (if s.pc.InBulk? then Ring.Popping(Mine(s.bulk)) else Mine(s.bulk).Idle?)
    && (s.pc.FirstFast? ==> s.fastCount < s.ratio)
  }

  predicate StreakOk<T>(s: State<T>)
    requires Shape(s)
  {
    && s.streak <= s.fastCount + (if Holds(Mine(s.fast)) then 1 else 0)
    && (s.streak <= s.ratio || s.streak <= 1)
    && (s.pc.SecondFast? && !Holds(Mine(s.fast)) ==> s.streak == 0)
    && (Holds(Mine(s.bulk)) ==> s.streak == 0)
  }

  ghost predicate Inv<T>(s: State<T>) {
    Ring.Inv(s.fast) && Ring.Inv(s.bulk) && Shape(s) && PcOk(s) && StreakOk(s)
  }

  // ----- one ring step -----

  lemma OthersStep<T>(r: Ring.State<T>, a: Ring.Action<T>)
    requires Ring.Inv(r) && DISPATCHER in r.threads && a.t != DISPATCHER
    ensures Ring.Shape(r) && Ring.Inv(Ring.Exec(r, a))
    ensures DISPATCHER in Ring.Exec(r, a).threads && Mine(Ring.Exec(r, a)) == Mine(r)
  {
    Ring.ExecKeepsInv(r, a);
    RingTheorems.OthersUntouched(r, a, DISPATCHER);
  }

  lemma CallStep<T>(r: Ring.State<T>)
    requires Ring.Inv(r) && DISPATCHER in r.threads && Mine(r).Idle?
    ensures Ring.Shape(r) && Ring.Inv(Call(r)) && DISPATCHER in Call(r).threads && Mine(Call(r)) == Ring.PopLoadHead
    ensures Call(r).head == r.head && (Ring.HeadPublished(Call(r)) <==> Ring.HeadPublished(r))
  {
    Ring.ExecKeepsInv(r, Ring.Start(DISPATCHER, Ring.TryPop));
  }

  /** What a step inside `try_pop` can do. */
  predicate PopMoves<T>(l: Ring.Local<T>, l': Ring.Local<T>, claimed: bool) {
    && (claimed ==> !Holds(l) && Holds(l'))
    && (!claimed && !Holds(l) ==> (Ring.Popping(l') && !Holds(l')) || Refused(l'))
    && (!claimed && Holds(l) ==> Got(l') || Holds(l'))
  }

  lemma PopStep<T>(r: Ring.State<T>, spurious: bool)
    requires Ring.Inv(r) && DISPATCHER in r.threads && Ring.Popping(Mine(r))
    ensures Ring.Shape(r) && Ring.Inv(Step(r, spurious)) && DISPATCHER in Step(r, spurious).threads
    ensures PopMoves(Mine(r), Mine(Step(r, spurious)), Step(r, spurious).head != r.head)
  {
    Ring.ExecKeepsInv(r, Ring.Step(DISPATCHER, spurious));
    PopMovesOn(r, spurious);
  }

  lemma PopMovesOn<T>(r: Ring.State<T>, spurious: bool)
    requires Ring.Shape(r) && DISPATCHER in r.threads && Ring.Popping(Mine(r))
    ensures DISPATCHER in Step(r, spurious).threads
    ensures PopMoves(Mine(r), Mine(Step(r, spurious)), Step(r, spurious).head != r.head)
  {
    hide Ring.PushStep, Ring.SizeStep;
  }

  // ----- preservation -----

  /** Somebody else moved: at most the streak was reset. */
  lemma OthersKeepInv<T>(s: State<T>, a: Action<T>)
    requires Inv(s) && !a.Dispatch?
    ensures Inv(Exec(s, a))
  {
    hide Ring.Inv, Ring.Exec, Ring.HeadPublished;
    match a
    case OnFast(b) => if b.t != DISPATCHER { OthersStep(s.fast, b); }
    case OnBulk(b) => if b.t != DISPATCHER { OthersStep(s.bulk, b); }
  }

  lemma TopKeepsInv<T>(s: State<T>, spurious: bool)
    requires Inv(s) && s.pc.Top?
    ensures Inv(Exec(s, Dispatch(spurious)))
  {
    hide Ring.Inv, Ring.Exec, Ring.HeadPublished, Call;
    if s.fastCount < s.ratio { CallStep(s.fast); } else { CallStep(s.bulk); }
  }

  lemma FastKeepsInv<T>(s: State<T>, spurious: bool)
    requires Inv(s) && (s.pc.FirstFast? || s.pc.SecondFast?)
    ensures Inv(Exec(s, Dispatch(spurious)))
  {
    hide Ring.Inv, Ring.Exec, Ring.HeadPublished, Call, Step;
    PopStep(s.fast, spurious);
    CallStep(s.bulk);
  }

  lemma BulkKeepsInv<T>(s: State<T>, spurious: bool)
    requires Inv(s) && s.pc.InBulk?
    ensures Inv(Exec(s, Dispatch(spurious)))
  {
    hide Ring.Inv, Ring.Exec, Ring.HeadPublished, Call, Step;
    PopStep(s.bulk, spurious);
    CallStep(s.fast);
    if Refused(Mine(Step(s.bulk, spurious))) { RefusedHere(s.bulk, spurious); }
  }

  lemma RefusedHere<T>(r: Ring.State<T>, spurious: bool)
    requires Ring.Inv(r) && DISPATCHER in r.threads && Ring.Popping(Mine(r))
    requires Ring.Shape(r) && DISPATCHER in Step(r, spurious).threads && Refused(Mine(Step(r, spurious)))
    ensures !Ring.HeadPublished(Step(r, spurious))
  {
    RingTheorems.RefusedMeansUnpublished(r, DISPATCHER, spurious);
  }

  lemma ExecKeepsInv<T>(s: State<T>, a: Action<T>)
    requires Inv(s)
    ensures Inv(Exec(s, a))
  {
    if a.Dispatch? {
      match s.pc
      case Top => TopKeepsInv(s, a.spurious);
      case FirstFast => FastKeepsInv(s, a.spurious);
      case SecondFast => FastKeepsInv(s, a.spurious);
      case InBulk => BulkKeepsInv(s, a.spurious);
      case Returned =>
    } else {
      OthersKeepInv(s, a);
    }
  }

  // ----- runs -----

  function Run<T>(s: State<T>, acts: seq<Action<T>>): State<T>
    requires Shape(s)
    decreases |acts|
  {
    if acts == [] then s else
    var before := Run(s, acts[..|acts| - 1]);
    if Shape(before) then Exec(before, acts[|acts| - 1]) else before
  }

  /** The call starts on two rings in any reachable state, with nothing of its own in flight. */
  ghost predicate Start<T>(s: State<T>) {
    && Ring.Inv(s.fast) && Ring.Inv(s.bulk) && Shape(s)
    && Mine(s.fast).Idle? && Mine(s.bulk).Idle?
    && s.pc.Top? && s.fastCount == 0 && s.count == 0 && s.streak == 0
  }

  lemma {:induction false} RunKeepsInv<T>(s: State<T>, acts: seq<Action<T>>)
    requires Inv(s)
    ensures Inv(Run(s, acts))
    decreases |acts|
  {
    if acts != [] {
      RunKeepsInv(s, acts[..|acts| - 1]);
      ExecKeepsInv(Run(s, acts[..|acts| - 1]), acts[|acts| - 1]);
    }
  }

  /** How many fast messages the call claims in a run. */
  function FastClaims<T>(s: State<T>, acts: seq<Action<T>>): nat
    requires Shape(s)
    decreases |acts|
  {
    if acts == [] then 0 else
    var last := |acts| - 1;
    FastClaims(s, acts[..last]) +
    if acts[last].Dispatch? && Run(s, acts).fast.head != Run(s, acts[..last]).fast.head then 1 else 0
  }

  lemma MovedRings<T>(s: State<T>, a: Action<T>)
    requires Inv(s)
    ensures var s' := Exec(s, a);
            && s'.ratio == s.ratio && s.bulk.head <= s'.bulk.head
            && (Ring.HeadPublished(s.bulk) && s'.bulk.head == s.bulk.head ==> Ring.HeadPublished(s'.bulk))
  {
    hide Ring.Inv, Ring.Exec, Ring.HeadPublished, PcOk, StreakOk;
    match a
    case OnFast(_) =>
    case OnBulk(b) => if b.t != DISPATCHER { RingTheorems.PublishedStays(s.bulk, b); }
    case Dispatch(spurious) =>
      RingTheorems.PublishedStays(s.bulk, Ring.Start(DISPATCHER, Ring.TryPop));
      RingTheorems.PublishedStays(s.bulk, Ring.Step(DISPATCHER, spurious));
  }

  /** While the bulk head stays published and untaken, the streak counts the fast claims. */
  lemma {:induction false} StreakCounts<T>(s: State<T>, acts: seq<Action<T>>)
    requires Inv(s) && Ring.HeadPublished(s.bulk)
    ensures Inv(Run(s, acts)) && Run(s, acts).ratio == s.ratio && s.bulk.head <= Run(s, acts).bulk.head
    ensures Run(s, acts).bulk.head == s.bulk.head ==>
              && Ring.HeadPublished(Run(s, acts).bulk)
              && Run(s, acts).streak == s.streak + FastClaims(s, acts)
    decreases |acts|
  {
    hide Ring.Inv, PcOk, StreakOk, Ring.HeadPublished, Move;
    RunKeepsInv(s, acts);
    if acts != [] {
      var last := |acts| - 1;
      var before := Run(s, acts[..last]);
      StreakCounts(s, acts[..last]);
      MovedRings(before, acts[last]);
    }
  }

  /** Fairness: from any moment at which the head message of the bulk queue is published, the
      call takes at most max(ratio, 1) fast messages before somebody takes that message;
      producers and other dispatchers may interleave as they like. */
  lemma BulkWaitIsBounded<T>(start: State<T>, before: seq<Action<T>>, during: seq<Action<T>>)
    requires Start(start)
    ensures Shape(Run(start, before))
    ensures var s := Run(start, before);
            Ring.HeadPublished(s.bulk) && Run(s, during).bulk.head == s.bulk.head ==>
              FastClaims(s, during) <= if start.ratio >= 1 then start.ratio else 1
  {
    RunKeepsInv(start, before);
    RatioStays(start, before);
    var s := Run(start, before);
    if Ring.HeadPublished(s.bulk) && Run(s, during).bulk.head == s.bulk.head {
      StreakCounts(s, during);
      StreakBound(Run(s, during));
    }
  }

  lemma {:induction false} RatioStays<T>(s: State<T>, acts: seq<Action<T>>)
    requires Inv(s)
    ensures Run(s, acts).ratio == s.ratio
    decreases |acts|
  {
    if acts != [] {
      RatioStays(s, acts[..|acts| - 1]);
      RunKeepsInv(s, acts[..|acts| - 1]);
      MovedRings(Run(s, acts[..|acts| - 1]), acts[|acts| - 1]);
    }
  }

  lemma StreakBound<T>(s: State<T>)
    requires Inv(s)
    ensures s.streak <= if s.ratio >= 1 then s.ratio else 1
  {
  }
}
