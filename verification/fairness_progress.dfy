/** `dispatchRatio` gets to the waiting bulk message (src/eventqueue_emulator.h:282-312): while
    the head of the bulk queue is published, the call takes it within a bounded number of its
    own steps, unless another dispatcher does. */
module FairnessProgress {
  import opened Bits
  import Ring
  import RingTheorems
  import opened Fairness

  // ----- the measure -----

  /** Steps left to a claim, undisturbed; a position loaded before others moved on costs an
      extra round. */
  function ToClaim<T>(l: Ring.Local<T>, head: nat): nat {
    match l
    case PopLoadSeq(p, _) => if p == head then 2 else 5
    case PopCas(p, _) => if p == head then 1 else 4
    case PopReload(_, _) => 4
    case _ => 3
  }

  /** Steps left of a fast attempt: to its claim, the read and the release. */
  function FastLeft<T>(l: Ring.Local<T>, head: nat): nat {
    if l.PopRelease? then 1 else if l.PopRead? then 2 else 2 + ToClaim(l, head)
  }

  const ROUND := 8

  /** Steps for the fast messages the call may still take first, and for the bulk attempt. */
  function Budget(ratio: nat, fastCount: nat): nat {
    ROUND * (if fastCount < ratio then ratio - fastCount else 0)
  }

  function Measure<T>(s: State<T>): nat
    requires Shape(s)
  {
    match s.pc
    case Top => Budget(s.ratio, s.fastCount) + ROUND
    case FirstFast => Budget(s.ratio, s.fastCount) + FastLeft(Mine(s.fast), s.fast.head)
    case InBulk =>
      if Holds(Mine(s.bulk)) then Budget(s.ratio, 0) + ROUND + FastLeft(Mine(s.bulk), s.bulk.head)
      else ToClaim(Mine(s.bulk), s.bulk.head)
    case SecondFast => Budget(s.ratio, s.fastCount + 1) + ROUND + FastLeft(Mine(s.fast), s.fast.head)
    case Returned => 0
  }

  lemma MeasureIsSmall<T>(s: State<T>)
    requires Shape(s)
    ensures Measure(s) <= ROUND * s.ratio + 15
  {
  }

  // ----- one step inside a pop -----

  /** On to the next place; a pop whose head is published is not refused. */
  predicate Onward<T>(r: Ring.State<T>, spurious: bool, r': Ring.State<T>)
    requires DISPATCHER in r.threads && DISPATCHER in r'.threads
  {
    var l, l' := Mine(r), Mine(r');
    match l
    case PopRead(_) => r'.head == r.head && l'.PopRelease?
    case PopRelease(_, _) => r'.head == r.head && Got(l')
    case PopCas(p, _) =>
      if p == r.head && !spurious then r'.head == r.head + 1 && l'.PopRead?
      else r'.head == r.head && l'.PopLoadSeq? && l'.pos == r.head
    case PopLoadSeq(p, _) =>
      r'.head == r.head && (Refused(l') || (l'.PopCas? && l'.pos == p) || (l'.PopReload? && p != r.head))
    case _ => r'.head == r.head && l'.PopLoadSeq? && l'.pos == r.head
  }

  lemma PopGoesOn<T>(r: Ring.State<T>, spurious: bool)
    requires Ring.Shape(r) && DISPATCHER in r.threads && Ring.Popping(Mine(r))
    requires Mine(r).PopLoadSeq? && Mine(r).pos == r.head ==> r.seqs[Slot(r.head, r.cap)] <= r.head + 1
    ensures DISPATCHER in Step(r, spurious).threads && Onward(r, spurious, Step(r, spurious))
    ensures Mine(r).PopLoadSeq? && r.seqs[Slot(Mine(r).pos, r.cap)] >= Mine(r).pos + 1 ==>
              !Refused(Mine(Step(r, spurious)))
  {
    hide Ring.PushStep, Ring.SizeStep;
  }

  lemma PopObserved<T>(r: Ring.State<T>)
    requires Ring.Inv(r) && DISPATCHER in r.threads && Ring.Popping(Mine(r))
    ensures Ring.Shape(r)
    ensures Mine(r).PopLoadSeq? && Mine(r).pos == r.head ==> r.seqs[Slot(r.head, r.cap)] <= r.head + 1
    ensures Mine(r).PopLoadSeq? && Ring.HeadPublished(r) ==> r.seqs[Slot(Mine(r).pos, r.cap)] >= Mine(r).pos + 1
  {
    Ring.InvBounds(r);
    Ring.InvAt(r, DISPATCHER);
    if Mine(r).PopLoadSeq? { Ring.PopObserves(r, Mine(r).pos); }
  }

  lemma PopOnward<T>(r: Ring.State<T>, spurious: bool)
    requires Ring.Inv(r) && DISPATCHER in r.threads && Ring.Popping(Mine(r))
    ensures Ring.Shape(r)
    ensures DISPATCHER in Step(r, spurious).threads && Onward(r, spurious, Step(r, spurious))
    ensures Ring.HeadPublished(r) && !Holds(Mine(r)) ==> !Refused(Mine(Step(r, spurious)))
  {
    hide Ring.Inv, Ring.HeadPublished, Step, Onward;
    PopObserved(r);
    PopGoesOn(r, spurious);
    OnlyLoadsRefuse(r, spurious);
  }

  lemma OnlyLoadsRefuse<T>(r: Ring.State<T>, spurious: bool)
    requires Ring.Shape(r) && DISPATCHER in r.threads && DISPATCHER in Step(r, spurious).threads
    requires Onward(r, spurious, Step(r, spurious))
    ensures !Mine(r).PopLoadSeq? ==> !Refused(Mine(Step(r, spurious)))
  {
    hide Step;
  }

  // ----- a step of the call -----

  /** The bulk head stays where it is, published. */
  ghost predicate Waiting<T>(s: State<T>) {
    Inv(s) && Ring.HeadPublished(s.bulk)
  }

  lemma TopLowers<T>(s: State<T>)
    requires Waiting(s) && s.pc.Top?
    ensures var s' := LoopStep(s, false);
            Shape(s') && !s'.pc.Returned? && !s'.pc.SecondFast? && Measure(s') < Measure(s)
  {
    hide Ring.Inv, Ring.Exec, Ring.HeadPublished, Call;
    if s.fastCount < s.ratio { CallStep(s.fast); } else { CallStep(s.bulk); }
  }

  lemma FastLowers<T>(s: State<T>, spurious: bool)
    requires Waiting(s) && (s.pc.FirstFast? || s.pc.SecondFast?)
    ensures var s' := LoopStep(s, spurious);
            && Shape(s') && Measure(s') < Measure(s) + (if spurious then 2 else 0)
            && (s.pc.FirstFast? ==> !s'.pc.Returned? && !s'.pc.SecondFast?)
  {
    hide Ring.Inv, Ring.Exec, Ring.HeadPublished, Call, Step;
    PopOnward(s.fast, spurious);
    CallStep(s.bulk);
  }

  lemma BulkLowers<T>(s: State<T>, spurious: bool)
    requires Waiting(s) && s.pc.InBulk?
    ensures var s' := LoopStep(s, spurious);
            && Shape(s') && !s'.pc.Returned? && !s'.pc.SecondFast?
            && (s'.bulk.head == s.bulk.head ==> Measure(s') < Measure(s) + if spurious then 2 else 0)
  {
    hide Ring.Inv, Ring.Exec, Ring.HeadPublished, Call, Step;
    PopOnward(s.bulk, spurious);
    CallStep(s.fast);
  }

  // ----- runs -----

  function Steps<T>(acts: seq<Action<T>>): nat
    decreases |acts|
  {
    if acts == [] then 0 else Steps(acts[..|acts| - 1]) + if acts[|acts| - 1].Dispatch? then 1 else 0
  }

  /** Steps of the call at which a compare-exchange may fail spuriously. */
  function SpuriousSteps<T>(acts: seq<Action<T>>): nat
    decreases |acts|
  {
    if acts == [] then 0 else
    var a := acts[|acts| - 1];
    SpuriousSteps(acts[..|acts| - 1]) + if a.Dispatch? && a.spurious then 1 else 0
  }

  /** How many fast messages others take in a run. */
  function OtherFastClaims<T>(s: State<T>, acts: seq<Action<T>>): nat
    requires Shape(s)
    decreases |acts|
  {
    if acts == [] then 0 else
    var last := |acts| - 1;
    OtherFastClaims(s, acts[..last]) +
    if !acts[last].Dispatch? && Run(s, acts).fast.head != Run(s, acts[..last]).fast.head then 1 else 0
  }

  ghost predicate Lower<T>(s: State<T>, a: Action<T>, s': State<T>)
    requires Shape(s)
  {
    && Shape(s')
    && (s'.pc.Returned? ==> s.pc.Returned? || s.pc.SecondFast?)
    && (s'.pc.SecondFast? ==> s.pc.SecondFast?) && (s.pc.Returned? ==> s'.pc.Returned?)
    && (s'.pc.Returned? ||
        Measure(s') + (if a.Dispatch? then 1 else 0) <=
        Measure(s) + (if a.Dispatch? then if a.spurious then 2 else 0
                      else if s'.fast.head != s.fast.head then 3 else 0))
  }

  lemma CallLowers<T>(s: State<T>, spurious: bool)
    requires Waiting(s) && LoopStep(s, spurious).bulk.head == s.bulk.head
    ensures Lower(s, Dispatch(spurious), LoopStep(s, spurious))
  {
    hide Waiting, LoopStep, Measure;
    WaitingShape(s);
    match s.pc
    case Top =>
      TopLowers(s);
      TopIgnores(s, spurious);
    case FirstFast => FastLowers(s, spurious);
    case SecondFast => FastLowers(s, spurious);
    case InBulk => BulkLowers(s, spurious);
    case Returned => ReturnedStays(s, spurious);
  }

  lemma WaitingShape<T>(s: State<T>)
    requires Waiting(s)
    ensures Shape(s)
  {
  }

  lemma TopIgnores<T>(s: State<T>, spurious: bool)
    requires Shape(s) && s.pc.Top?
    ensures LoopStep(s, spurious) == LoopStep(s, false)
  {
  }

  lemma ReturnedStays<T>(s: State<T>, spurious: bool)
    requires Shape(s) && s.pc.Returned?
    ensures LoopStep(s, spurious) == s
  {
  }

  lemma OthersLower<T>(s: State<T>, a: Action<T>)
    requires Inv(s) && !a.Dispatch? && Move(s, a).bulk.head == s.bulk.head
    ensures Lower(s, a, Move(s, a))
  {
    hide Ring.Inv, Ring.Exec;
    match a
    case OnFast(b) => if b.t != DISPATCHER { OthersStep(s.fast, b); }
    case OnBulk(b) => if b.t != DISPATCHER { OthersStep(s.bulk, b); }
  }

  lemma StreakIsHistory<T>(s: State<T>, streak: nat)
    requires Shape(s)
    ensures Measure(s.(streak := streak)) == Measure(s)
  {
  }

  lemma StepLowers<T>(s: State<T>, a: Action<T>)
    requires Waiting(s) && Shape(s) && Exec(s, a).bulk.head == s.bulk.head
    ensures Waiting(Exec(s, a)) && Lower(s, a, Exec(s, a))
  {
    hide Ring.Inv, Inv, Ring.HeadPublished, LoopStep, Measure, Streak;
    ExecKeepsInv(s, a);
    MovedRings(s, a);
    if a.Dispatch? { CallLowers(s, a.spurious); } else { OthersLower(s, a); }
    StreakIsHistory(Move(s, a), Streak(s, Move(s, a), a.Dispatch?));
  }

  lemma {:induction false} Countdown<T>(s: State<T>, acts: seq<Action<T>>)
    requires Waiting(s) && Shape(s) && Run(s, acts).bulk.head == s.bulk.head
    ensures var s' := Run(s, acts);
            && Waiting(s') && Shape(s')
            && (s'.pc.Returned? ==> s.pc.Returned? || s.pc.SecondFast?)
            && (s'.pc.SecondFast? ==> s.pc.SecondFast?)
            && (s'.pc.Returned? ||
                Measure(s') + Steps(acts) <= Measure(s) + 2 * SpuriousSteps(acts) + 3 * OtherFastClaims(s, acts))
    decreases |acts|
  {
    hide Inv, Ring.HeadPublished, Measure, Exec;
    if acts != [] {
      var last := |acts| - 1;
      var before := Run(s, acts[..last]);
      StreakCounts(s, acts[..last]);
      InvShape(before);
      MovedRings(before, acts[last]);
      Countdown(s, acts[..last]);
      StepLowers(before, acts[last]);
    }
  }

  /** From any moment at which the head message of the bulk queue is published: once the call
      has taken eight steps for each fast message it may take first, fifteen more, two for each
      spurious failure and three for each fast message another dispatcher takes meanwhile,
      somebody has taken the bulk message, or the call has returned; and it returns only if it
      had already looked for a bulk message in vain. */
  lemma BulkIsReached<T>(start: State<T>, before: seq<Action<T>>, during: seq<Action<T>>)
    requires Start(start)
    ensures Shape(Run(start, before))
    ensures var s := Run(start, before); var s' := Run(s, during);
            Ring.HeadPublished(s.bulk) && s'.bulk.head == s.bulk.head ==>
              && (s'.pc.Returned? ==> s.pc.Returned? || s.pc.SecondFast?)
              && (!s'.pc.Returned? ==>
                    Steps(during) <=
                    ROUND * start.ratio + 15 + 2 * SpuriousSteps(during) + 3 * OtherFastClaims(s, during))
  {
    hide Ring.Inv, Inv, Measure, Ring.HeadPublished;
    StartInv(start);
    RunKeepsInv(start, before);
    RatioStays(start, before);
    var s := Run(start, before);
    InvShape(s);
    if Ring.HeadPublished(s.bulk) && Run(s, during).bulk.head == s.bulk.head {
      Countdown(s, during);
      MeasureIsSmall(s);
    }
  }

  lemma StartInv<T>(s: State<T>)
    requires Start(s)
    ensures Inv(s)
  {
    hide Ring.Inv;
  }

  lemma InvShape<T>(s: State<T>)
    requires Inv(s)
    ensures Shape(s)
  {
  }

  // ----- the number returned -----

  /** The messages the call takes in a run, from either queue. */
  function Claims<T>(s: State<T>, acts: seq<Action<T>>): nat
    requires Shape(s)
    decreases |acts|
  {
    if acts == [] then 0 else
    var last := |acts| - 1;
    var before, after := Run(s, acts[..last]), Run(s, acts);
    Claims(s, acts[..last]) +
    if acts[last].Dispatch? && (after.fast.head != before.fast.head || after.bulk.head != before.bulk.head) then 1
    else 0
  }

  /** Taken, and not counted yet. */
  function InHand<T>(s: State<T>): nat
    requires Shape(s)
  {
    if Holds(Mine(s.fast)) || Holds(Mine(s.bulk)) then 1 else 0
  }

  lemma CallCounts<T>(s: State<T>, spurious: bool)
    requires Inv(s)
    ensures var s' := LoopStep(s, spurious);
            && Shape(s')
            && s'.count + InHand(s') ==
               s.count + InHand(s) + if s'.fast.head != s.fast.head || s'.bulk.head != s.bulk.head then 1 else 0
  {
    hide Ring.Inv, Ring.Exec, Ring.HeadPublished, Call, Step, StreakOk;
    match s.pc
    case Top => if s.fastCount < s.ratio { CallStep(s.fast); } else { CallStep(s.bulk); }
    case FirstFast =>
      PopStep(s.fast, spurious);
      CallStep(s.bulk);
    case SecondFast => PopStep(s.fast, spurious);
    case InBulk =>
      PopStep(s.bulk, spurious);
      CallStep(s.fast);
    case Returned =>
  }

  lemma StepCounts<T>(s: State<T>, a: Action<T>)
    requires Inv(s)
    ensures Shape(s) && Shape(Exec(s, a))
    ensures var s' := Exec(s, a);
            s'.count + InHand(s') ==
            s.count + InHand(s) +
            if a.Dispatch? && (s'.fast.head != s.fast.head || s'.bulk.head != s.bulk.head) then 1 else 0
  {
    hide Ring.Inv, Ring.Exec, Ring.HeadPublished, LoopStep, PcOk, StreakOk;
    match a
    case Dispatch(spurious) => CallCounts(s, spurious);
    case OnFast(b) => if b.t != DISPATCHER { OthersStep(s.fast, b); }
    case OnBulk(b) => if b.t != DISPATCHER { OthersStep(s.bulk, b); }
  }

  /** At every moment the call has counted the messages it has taken, but for one in hand; so
      what it returns is their number. */
  lemma {:induction false} CountIsTaken<T>(start: State<T>, acts: seq<Action<T>>)
    requires Start(start)
    ensures Shape(Run(start, acts))
    ensures Run(start, acts).count + InHand(Run(start, acts)) == Claims(start, acts)
    decreases |acts|
  {
    hide Inv, Exec;
    StartInv(start);
    InvShape(start);
    RunKeepsInv(start, acts);
    InvShape(Run(start, acts));
    if acts != [] {
      var last := |acts| - 1;
      CountIsTaken(start, acts[..last]);
      RunKeepsInv(start, acts[..last]);
      StepCounts(Run(start, acts[..last]), acts[last]);
    }
  }
}
