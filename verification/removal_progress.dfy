/** The removal protocol finishes its work: without new calls, every schedule of module
    Removal comes to an end after boundedly many steps, with all calls returned. */
module RemovalProgress {
  import opened Observers
  import opened Removal
  import opened RemovalTheorems

  // ----- how long a vector can be -----

  /** Threads about to take a fresh observer id. */
  function Fetching(s: State): set<nat> {
    set t | t in s.threads && s.threads[t].op.AddFetchId?
  }

  /** No snapshot taken without new calls is longer than this. */
  function Longest(s: State): nat {
    s.nextId + |Fetching(s)|
  }

  lemma {:induction false} DistinctBelow(ds: seq<Descriptor>, n: nat)
    requires DistinctIds(ds) && forall i :: 0 <= i < |ds| ==> ds[i].id < n
    ensures |ds| <= n
  {
    var ids := set i | 0 <= i < |ds| :: ds[i].id;
    DistinctCount(ds);
    BelowCount(ids, n);
  }

  lemma {:induction false} DistinctCount(ds: seq<Descriptor>)
    requires DistinctIds(ds)
    ensures |set i | 0 <= i < |ds| :: ds[i].id| == |ds|
  {
    if ds != [] {
      var k := |ds| - 1;
      DistinctCount(ds[..k]);
      var front := set i | 0 <= i < k :: ds[..k][i].id;
      assert (set i | 0 <= i < |ds| :: ds[i].id) == front + {ds[k].id} by {
        forall i | 0 <= i < k ensures ds[i].id in front { assert ds[..k][i] == ds[i]; }
      }
      assert ds[k].id !in front;
    }
  }

  lemma {:induction false} BelowCount(ids: set<nat>, n: nat)
    requires forall id :: id in ids ==> id < n
    ensures |ids| <= n
  {
    if n == 0 {
      assert ids == {};
    } else {
      BelowCount(ids - {n - 1}, n - 1);
      assert n - 1 in ids ==> ids == (ids - {n - 1}) + {n - 1};
      assert n - 1 !in ids ==> ids == ids - {n - 1};
    }
  }

  lemma SnapshotFits(s: State, topic: int)
    requires Registry(s)
    ensures |ObserversOf(s, topic)| <= s.nextId
  {
    var ds := ObserversOf(s, topic);
    if topic in s.observers {
      assert VectorOk(s.fate, topic, ds);
      DistinctBelow(ds, s.nextId);
    }
  }

  // ----- the measure -----

  /** Steps left in a nested or top-level call; a waiting remover may be woken and wait again,
      which the notifying dispatch pays for. */
  function OpWeight(o: Op): nat {
    match o
    case NoOp => 0
    case AddFetchId(_, _) => 4
    case AddLock(_, _) => 3
    case AddPush(_, _) => 2
    case AddUnlock => 1
    case PostPush(_) => 1
    case RemLock(_, _) => 8
    case RemErase(_, _) => 7
    case RemUnlock(_) => 6
    case RemCheckFlag(_) => 5
    case RemLockWait(_) => 4
    case RemParked(_) => 4
    case RemTest(_) => 3
    case RemUnlockWait(_) => 1
  }

  /** Steps left in a dispatch, with `n` threads around and snapshots of at most `b`. */
  function DispWeight(d: Disp, n: nat, b: nat): nat {
    match d
    case NoDispatch => 0
    case DCleanup => 1
    case DUnlockDone => 2
    case DNotify => 2 * n + 3
    case DDecrement => 2 * n + 4
    case DLockDone => 2 * n + 5
    case DClearFlag => 2 * n + 6
    case DLoop(snap, k) => 2 * n + 7 + 2 * (if k < |snap| then |snap| - k else 0)
    case DHandler(snap, k) => 2 * n + 6 + 2 * (if k < |snap| then |snap| - k else 0)
    case DUnlockObservers(snap) => 2 * n + 8 + 2 * |snap|
    case DSetFlag(snap) => 2 * n + 9 + 2 * |snap|
    case DUnlockActive(snap) => 2 * n + 10 + 2 * |snap|
    case DIncrement(snap) => 2 * n + 11 + 2 * |snap|
    case DLockActive(snap) => 2 * n + 12 + 2 * |snap|
    case DSnapshot(_) => 2 * n + 13 + 2 * b
    case DLockObservers(_) => 2 * n + 14 + 2 * b
  }

  function Weight(th: Thread, parked: bool, n: nat, b: nat): nat {
    DispWeight(th.disp, n, b) + if parked && th.op.RemParked? then 2 else OpWeight(th.op)
  }

  ghost function Total(threads: map<nat, Thread>, parked: set<nat>, n: nat, b: nat): nat
    decreases |threads|
  {
    if threads == map[] then 0 else
    var t :| t in threads;
    assert (threads - {t}).Keys == threads.Keys - {t};
    Weight(threads[t], t in parked, n, b) + Total(threads - {t}, parked, n, b)
  }

  ghost function Measure(s: State): nat {
    Total(s.threads, s.parked, |s.threads|, Longest(s))
  }

  /** The sum may be taken apart at any thread. */
  lemma {:induction false} TotalAt(threads: map<nat, Thread>, parked: set<nat>, n: nat, b: nat, t: nat)
    requires t in threads
    ensures Total(threads, parked, n, b) == Weight(threads[t], t in parked, n, b) + Total(threads - {t}, parked, n, b)
    decreases |threads|
  {
    var u :| u in threads && Total(threads, parked, n, b)
                             == Weight(threads[u], u in parked, n, b) + Total(threads - {u}, parked, n, b);
    if u != t {
      assert (threads - {u}).Keys == threads.Keys - {u};
      TotalAt(threads - {u}, parked, n, b, t);
      assert (threads - {t}).Keys == threads.Keys - {t};
      assert (threads - {u}) - {t} == (threads - {t}) - {u};
      assert |threads - {t}| < |threads| && u in threads - {t};
      TotalAt(threads - {t}, parked, n, b, u);
    }
  }

  lemma WeightBound(th: Thread, p: bool, p': bool, n: nat, b: nat, b': nat, slack: nat)
    requires b' <= b && (p' == p || slack == 2)
    ensures Weight(th, p', n, b') <= Weight(th, p, n, b) + slack
  {
  }

  /** Other threads only get lighter, except that a notification gives each back at most 2. */
  lemma {:induction false} TotalBound(
    threads: map<nat, Thread>, parked: set<nat>, parked': set<nat>, n: nat, b: nat, b': nat, slack: nat)
    requires b' <= b && (slack == 0 || slack == 2)
    requires slack == 0 ==> forall u :: u in threads ==> (u in parked' <==> u in parked)
    ensures Total(threads, parked', n, b') <= Total(threads, parked, n, b) + slack * |threads|
    decreases |threads|
  {
    if threads == map[] {
      assert |threads| == 0;
    } else {
      var t :| t in threads;
      TotalAt(threads, parked, n, b, t);
      TotalAt(threads, parked', n, b', t);
      assert (threads - {t}).Keys == threads.Keys - {t};
      assert |threads| == |threads - {t}| + 1;
      TotalBound(threads - {t}, parked, parked', n, b, b', slack);
      WeightBound(threads[t], t in parked, t in parked', n, b, b', slack);
    }
  }

  lemma LongestShrinks(s: State, t: nat)
    requires t in s.threads
    ensures Longest(Exec(s, Step(t, false))) <= Longest(s)
  {
    var s' := Exec(s, Step(t, false));
    var o := s.threads[t].op;
    FetchingAfter(s, s', t);
  }

  /** A step of t changes no other thread, and only `AddFetchId` takes an id. */
  predicate MovesOne(s: State, s': State, t: nat)
    requires t in s.threads && t in s'.threads
  {
    && s'.threads == s.threads[t := s'.threads[t]]
    && !s'.threads[t].op.AddFetchId?
    && s'.nextId <= s.nextId + (if s.threads[t].op.AddFetchId? then 1 else 0)
  }

  lemma DispatchMovesOne(s: State, t: nat, d: Disp)
    requires t in s.threads && s.threads[t].op == NoOp && s.threads[t].disp == d
    ensures MovesOne(s, DispatchStep(s, t, d), t)
  {
  }

  lemma OpMovesOne(s: State, t: nat, o: Op)
    requires t in s.threads && s.threads[t].op == o && o != NoOp
    ensures MovesOne(s, OpStep(s, t, o, false), t)
  {
  }

  lemma StepMovesOne(s: State, t: nat)
    requires t in s.threads
    ensures var s' := Exec(s, Step(t, false)); t in s'.threads && MovesOne(s, s', t)
  {
    if s.threads[t].op != NoOp {
      OpMovesOne(s, t, s.threads[t].op);
    } else {
      DispatchMovesOne(s, t, s.threads[t].disp);
    }
  }

  lemma FetchingAfter(s: State, s': State, t: nat)
    requires t in s.threads && s' == Exec(s, Step(t, false))
    ensures Longest(s') <= Longest(s)
  {
    StepMovesOne(s, t);
    var others := set u | u in s.threads && u != t && s.threads[u].op.AddFetchId?;
    assert Fetching(s) == if s.threads[t].op.AddFetchId? then others + {t} else others;
    assert Fetching(s') == if s'.threads[t].op.AddFetchId? then others + {t} else others;
  }

  /** The thread that steps gets lighter by more than what its notification gives the others. */
  lemma OpStepLightens(s: State, t: nat, n: nat, b: nat)
    requires t in s.threads && s.threads[t].op != NoOp && OpStep(s, t, s.threads[t].op, false) != s
    ensures var s' := OpStep(s, t, s.threads[t].op, false);
            && Weight(s'.threads[t], t in s'.parked, n, b) < Weight(s.threads[t], t in s.parked, n, b)
            && forall u :: u != t ==> (u in s'.parked <==> u in s.parked)
  {
  }

  predicate Lightens(s: State, s': State, t: nat, n: nat, b: nat)
    requires t in s.threads && t in s'.threads
  {
    && Weight(s'.threads[t], t in s'.parked, n, b) + (if s.threads[t].disp.DNotify? then 2 * n else 0)
       < Weight(s.threads[t], t in s.parked, n, b)
    && (s.threads[t].disp.DNotify? || s'.parked == s.parked)
  }

  lemma SnapshotStepLightens(s: State, t: nat, d: Disp, n: nat, b: nat)
    requires t in s.threads && s.threads[t].op == NoOp && s.threads[t].disp == d && DispatchStep(s, t, d) != s
    requires ControlOk(s, t, s.threads[t]) && HasSnapshot(d)
    ensures Lightens(s, DispatchStep(s, t, d), t, n, b)
  {
  }

  lemma OtherStepLightens(s: State, t: nat, d: Disp, n: nat, b: nat)
    requires t in s.threads && s.threads[t].op == NoOp && s.threads[t].disp == d && DispatchStep(s, t, d) != s
    requires ControlOk(s, t, s.threads[t]) && !HasSnapshot(d)
    requires d.DSnapshot? ==> |ObserversOf(s, d.topic)| <= b
    ensures Lightens(s, DispatchStep(s, t, d), t, n, b)
  {
  }

  /** Every step that does something makes the measure smaller. */
  lemma StepDecreasesMeasure(s: State, t: nat)
    requires Inv(s) && CanStep(s, t)
    ensures Measure(Exec(s, Step(t, false))) < Measure(s)
  {
    var s' := Exec(s, Step(t, false));
    var th := s.threads[t];
    var n, b, b' := |s.threads|, Longest(s), Longest(s');
    StepMovesOne(s, t);
    LongestShrinks(s, t);
    assert s'.threads.Keys == s.threads.Keys;
    assert |s'.threads| == n;
    assert s'.threads - {t} == s.threads - {t};
    assert (s.threads - {t}).Keys == s.threads.Keys - {t};
    assert |s.threads - {t}| == n - 1;
    TotalAt(s.threads, s.parked, n, b, t);
    TotalAt(s'.threads, s'.parked, n, b', t);
    WeightBound(s'.threads[t], t in s'.parked, t in s'.parked, n, b, b', 0);
    assert ControlOk(s, t, th);
    var slack := if th.op == NoOp && th.disp.DNotify? then 2 else 0;
    if th.op != NoOp {
      OpStepLightens(s, t, n, b);
    } else {
      if th.disp.DSnapshot? { SnapshotFits(s, th.disp.topic); }
      if HasSnapshot(th.disp) {
        SnapshotStepLightens(s, t, th.disp, n, b);
      } else {
        OtherStepLightens(s, t, th.disp, n, b);
      }
    }
    TotalBound(s.threads - {t}, s.parked, s'.parked, n, b, b', slack);
  }

  // ----- schedules -----

  /** Steps of the threads in `order`, one after the other. */
  function Follow(s: State, order: seq<nat>): State
    decreases |order|
  {
    if order == [] then s else Exec(Follow(s, order[..|order| - 1]), Step(order[|order| - 1], false))
  }

  /** Each of these steps does something. */
  predicate Effective(s: State, order: seq<nat>)
    decreases |order|
  {
    order == [] ||
    (Effective(s, order[..|order| - 1]) && CanStep(Follow(s, order[..|order| - 1]), order[|order| - 1]))
  }

  lemma {:induction false} FollowCounts(s: State, order: seq<nat>)
    requires Inv(s) && Effective(s, order)
    ensures Inv(Follow(s, order)) && |order| + Measure(Follow(s, order)) <= Measure(s)
    decreases |order|
  {
    if order != [] {
      var k := |order| - 1;
      FollowCounts(s, order[..k]);
      ExecKeepsInv(Follow(s, order[..k]), Step(order[k], false));
      StepDecreasesMeasure(Follow(s, order[..k]), order[k]);
    }
  }

  /** Completion: from every reachable state, whatever the scheduler does, at most `Measure`
      steps can be taken before a new call is begun; and when no step is left, every call of
      every thread has returned: every removal, every dispatch, every handler. */
  lemma EveryCallReturns(tids: set<nat>, acts: seq<Action>, order: seq<nat>)
    requires Effective(After(tids, acts), order)
    ensures |order| <= Measure(After(tids, acts))
    ensures var s := Follow(After(tids, acts), order);
            (forall u :: !CanStep(s, u)) ==> forall t :: t in s.threads ==> !Busy(s.threads[t])
  {
    AfterInv(tids, acts);
    FollowCounts(After(tids, acts), order);
    var s := Follow(After(tids, acts), order);
    if forall u :: !CanStep(s, u) {
      forall t | t in s.threads ensures !Busy(s.threads[t]) {
        if Busy(s.threads[t]) { SomeThreadRuns(s, t); }
      }
    }
  }
}
