/** Which queue a batched message ends up in, over all runs (src/eventqueue_batch.h): the
    buffer belongs to the thread and not to the queue instance, so it depends on the instances
    each thread batches through. */
module BatchRouting {
  import opened BatchPosting

  /** Thread t calls a batching function of instance `queue`. */
  datatype Use = Use(t: nat, queue: nat)

  /** The instances a program posts batched messages through, and those it flushes explicitly. */
  datatype Program = Program(posting: set<Use>, flushing: set<Use>)

  /** `post` through any instance is always in the program. */
  predicate Allowed(p: Program, a: Action) {
    match a
    case PostBatched(t, queue, _, _, _) => Use(t, queue) in p.posting
    case FlushBatch(t, queue) => Use(t, queue) in p.flushing
    case _ => true
  }

  predicate AllAllowed(p: Program, acts: seq<Action>) {
    forall i :: 0 <= i < |acts| ==> Allowed(p, acts[i])
  }

  /** A thread that posts batched messages through an instance uses no other one for batching. */
  predicate OneInstance(p: Program, tids: set<nat>) {
    forall u, v | u in p.posting && v in p.posting + p.flushing && u.t == v.t && u.t in tids :: u.queue == v.queue
  }

  ghost predicate AlwaysRouted(p: Program, tids: set<nat>) {
    forall junk: seq<Entry>, acts: seq<Action> ::
      |junk| == BATCH_SIZE && AllAllowed(p, acts) ==> AllRouted(Run(Init(tids, junk), acts).pushes)
  }

  predicate AllRouted(pushes: seq<Push>) {
    forall i :: 0 <= i < |pushes| ==> Routed(pushes[i])
  }

  // ----- one instance suffices -----

  /** What thread t has buffered, or is about to, was posted through an instance of the
      program, and it flushes to one. */
  predicate FromProgram(p: Program, s: State, t: nat)
    requires t in s.threads && t in s.buffers
  {
    var l, b := s.threads[t], s.buffers[t];
    && b.count <= |b.slots|
    && (forall i :: 0 <= i < b.count ==> Use(t, b.slots[i].origin) in p.posting)
    && (l.Appending? ==> Use(t, l.entry.origin) in p.posting)
    && (l.Flushing? ==> Use(t, l.queue) in p.posting + p.flushing)
  }

  ghost predicate Kept(p: Program, s: State, tids: set<nat>) {
    && s.threads.Keys == s.buffers.Keys == s.accepted.Keys == tids
    && AllRouted(s.pushes)
    && forall t :: t in s.threads ==> FromProgram(p, s, t)
  }

  lemma AppendFromProgram(p: Program, s: State, t: nat, e: Entry)
    requires t in s.threads && t in s.buffers && t in s.accepted && s.threads[t] == Appending(e) && FromProgram(p, s, t)
    ensures FromProgram(p, Append(s, t, e), t)
  {
  }

  lemma FlushFromProgram(p: Program, s: State, tids: set<nat>, t: nat, queue: nat, i: nat, refused: bool)
    requires OneInstance(p, tids) && t in tids
    requires t in s.threads && t in s.buffers && s.threads[t] == Flushing(queue, i) && FromProgram(p, s, t)
    requires AllRouted(s.pushes)
    ensures var s' := FlushStep(s, t, queue, i, refused); FromProgram(p, s', t) && AllRouted(s'.pushes)
  {
    var b := s.buffers[t];
    if i < b.count {
      assert Use(t, b.slots[i].origin) in p.posting && Use(t, queue) in p.posting + p.flushing;
    }
  }

  lemma OwnStep(p: Program, s: State, tids: set<nat>, a: Action)
    requires OneInstance(p, tids) && Kept(p, s, tids) && Allowed(p, a) && a.t in tids
    ensures var s' := Exec(s, a);
            && s'.threads.Keys == s'.buffers.Keys == s'.accepted.Keys == tids
            && FromProgram(p, s', a.t) && AllRouted(s'.pushes)
  {
    hide Append, FlushStep, FromProgram, AllRouted, OneInstance;
    assert FromProgram(p, s, a.t);
    if a.Step? {
      match s.threads[a.t]
      case Idle =>
      case Posting(e) => PostFromProgram(p, s, a.t, e);
      case Appending(e) =>
        AppendFromProgram(p, s, a.t, e);
        AppendFrame(s, a.t, e);
      case Flushing(queue, i) =>
        FlushFromProgram(p, s, tids, a.t, queue, i, a.refused);
        FlushFrame(s, a.t, queue, i, a.refused);
    } else {
      BeginFromProgram(p, s, a);
    }
  }

  lemma PostFromProgram(p: Program, s: State, t: nat, e: Entry)
    requires t in s.threads && t in s.buffers && FromProgram(p, s, t) && AllRouted(s.pushes)
    ensures FromProgram(p, Set(s, t, Idle).(pushes := s.pushes + [Push(t, false, e, e.origin)]), t)
    ensures AllRouted(s.pushes + [Push(t, false, e, e.origin)])
  {
  }

  lemma BeginFromProgram(p: Program, s: State, a: Action)
    requires !a.Step? && a.t in s.threads && a.t in s.buffers && a.t in s.accepted
    requires Allowed(p, a) && FromProgram(p, s, a.t)
    ensures var s' := Exec(s, a); a.t in s'.threads && a.t in s'.buffers && FromProgram(p, s', a.t)
  {
  }

  lemma OtherStep(s: State, a: Action, u: nat)
    requires u in s.threads && u in s.buffers && u in s.accepted && u != a.t
    ensures var s' := Exec(s, a);
            && u in s'.threads && u in s'.buffers && u in s'.accepted
            && s'.threads[u] == s.threads[u] && s'.buffers[u] == s.buffers[u]
  {
    hide Append, FlushStep;
    if a.t in s.threads && a.t in s.buffers && a.t in s.accepted && a.Step? {
      match s.threads[a.t]
      case Appending(e) => AppendFrame(s, a.t, e);
      case Flushing(queue, i) => FlushFrame(s, a.t, queue, i, a.refused);
      case _ =>
    }
  }

  lemma StepKeeps(p: Program, s: State, tids: set<nat>, a: Action)
    requires OneInstance(p, tids) && Kept(p, s, tids) && Allowed(p, a)
    ensures Kept(p, Exec(s, a), tids)
  {
    hide Exec, FromProgram, OneInstance, AllRouted;
    if a.t in tids {
      OwnStep(p, s, tids, a);
      forall u | u in tids && u != a.t ensures u in Exec(s, a).threads && FromProgram(p, Exec(s, a), u) {
        OtherStep(s, a, u);
        SameThread(p, s, Exec(s, a), u);
      }
    } else {
      Nobody(s, a);
    }
  }

  lemma SameThread(p: Program, s: State, s': State, u: nat)
    requires u in s.threads && u in s.buffers && FromProgram(p, s, u)
    requires u in s'.threads && u in s'.buffers && s'.threads[u] == s.threads[u] && s'.buffers[u] == s.buffers[u]
    ensures FromProgram(p, s', u)
  {
  }

  lemma {:induction false} RunKeeps(p: Program, tids: set<nat>, junk: seq<Entry>, acts: seq<Action>)
    requires OneInstance(p, tids) && |junk| == BATCH_SIZE && AllAllowed(p, acts)
    ensures Kept(p, Run(Init(tids, junk), acts), tids)
    decreases |acts|
  {
    hide Exec, OneInstance, Allowed;
    if acts != [] {
      var n := |acts| - 1;
      assert AllAllowed(p, acts[..n]);
      RunKeeps(p, tids, junk, acts[..n]);
      StepKeeps(p, Run(Init(tids, junk), acts[..n]), tids, acts[n]);
    }
  }

  // ----- two instances do not -----

  /** Thread t has n messages in its buffer, the first posted through `queue`, and nothing has
      been pushed yet. */
  predicate Holds(s: State, t: nat, queue: nat, n: nat) {
    && t in s.threads && t in s.buffers && t in s.accepted
    && |s.buffers[t].slots| == BATCH_SIZE && s.buffers[t].count == n
    && (n > 0 ==> s.buffers[t].slots[0].origin == queue)
    && s.pushes == []
  }

  function PostOne(t: nat, queue: nat): seq<Action> {
    [PostBatched(t, queue, 0, 1, 0), Step(t, false)]
  }

  lemma RunTwo(s: State, acts: seq<Action>, a: Action, b: Action)
    ensures Run(s, acts + [a, b]) == Exec(Exec(Run(s, acts), a), b)
  {
    hide Exec;
    assert (acts + [a, b])[..|acts| + 1] == acts + [a];
    assert (acts + [a])[..|acts|] == acts;
  }

  lemma PostsOne(s: State, t: nat, first: nat, queue: nat, n: nat)
    requires Holds(s, t, first, n) && s.threads[t].Idle? && n < BATCH_SIZE && (n == 0 ==> queue == first)
    ensures var s' := Exec(Exec(s, PostBatched(t, queue, 0, 1, 0)), Step(t, false));
            && Holds(s', t, first, n + 1)
            && s'.threads[t] == if n + 1 == BATCH_SIZE then Flushing(queue, 0) else Idle
  {
    var s1 := Exec(s, PostBatched(t, queue, 0, 1, 0));
    assert s1 == Set(s, t, Appending(Entry(queue, 0)));
    assert Exec(s1, Step(t, false)) == Append(s1, t, Entry(queue, 0));
  }

  /** One message through `first`, then n - 1 through `queue`. */
  function Fill(t: nat, first: nat, queue: nat, n: nat): seq<Action> {
    if n == 0 then [] else Fill(t, first, queue, n - 1) + PostOne(t, if n == 1 then first else queue)
  }

  lemma {:induction false} Fills(tids: set<nat>, junk: seq<Entry>, t: nat, first: nat, queue: nat, n: nat)
    requires |junk| == BATCH_SIZE && t in tids && 0 < n <= BATCH_SIZE
    ensures var s := Run(Init(tids, junk), Fill(t, first, queue, n));
            && Holds(s, t, first, n)
            && s.threads[t] == if n == BATCH_SIZE then Flushing(queue, 0) else Idle
    decreases n
  {
    hide Exec;
    var s0, acts := Init(tids, junk), Fill(t, first, queue, n - 1);
    var q := if n == 1 then first else queue;
    if n > 1 { Fills(tids, junk, t, first, queue, n - 1); }
    RunTwo(s0, acts, PostOne(t, q)[0], PostOne(t, q)[1]);
    PostsOne(Run(s0, acts), t, first, q, n - 1);
  }

  lemma {:induction false} FillAllowed(p: Program, t: nat, first: nat, queue: nat, n: nat)
    requires Use(t, first) in p.posting && (n > 1 ==> Use(t, queue) in p.posting)
    ensures AllAllowed(p, Fill(t, first, queue, n))
    decreases n
  {
    if n > 0 { FillAllowed(p, t, first, queue, n - 1); }
  }

  lemma FirstPush(s: State, t: nat, first: nat, queue: nat, n: nat)
    requires Holds(s, t, first, n) && n > 0 && s.threads[t] == Flushing(queue, 0) && first != queue
    ensures !AllRouted(Exec(s, Step(t, false)).pushes)
  {
    var s' := Exec(s, Step(t, false));
    assert s' == FlushStep(s, t, queue, 0, false);
    assert s'.pushes == [Push(t, true, s.buffers[t].slots[0], queue)];
    assert !Routed(s'.pushes[0]);
  }

  /** A message posted through `first` goes to `queue`: flushed there by the call that fills
      the buffer, or by `flushBatch`. */
  lemma Misroutes(p: Program, tids: set<nat>, junk: seq<Entry>, t: nat, first: nat, queue: nat)
    returns (acts: seq<Action>)
    requires |junk| == BATCH_SIZE && t in tids && first != queue
    requires Use(t, first) in p.posting && Use(t, queue) in p.posting + p.flushing
    ensures AllAllowed(p, acts) && !AllRouted(Run(Init(tids, junk), acts).pushes)
  {
    hide Exec, AllRouted, Fill;
    var s0 := Init(tids, junk);
    if Use(t, queue) in p.posting {
      var fill := Fill(t, first, queue, BATCH_SIZE);
      Fills(tids, junk, t, first, queue, BATCH_SIZE);
      FillAllowed(p, t, first, queue, BATCH_SIZE);
      acts := fill + [Step(t, false)];
      assert acts[..|fill|] == fill;
      FirstPush(Run(s0, fill), t, first, queue, BATCH_SIZE);
    } else {
      var fill := Fill(t, first, queue, 1);
      Fills(tids, junk, t, first, queue, 1);
      FillAllowed(p, t, first, queue, 1);
      acts := fill + [FlushBatch(t, queue), Step(t, false)];
      RunTwo(s0, fill, FlushBatch(t, queue), Step(t, false));
      FlushBegins(Run(s0, fill), t, first, queue);
      FirstPush(Exec(Run(s0, fill), FlushBatch(t, queue)), t, first, queue, 1);
    }
  }

  lemma FlushBegins(s: State, t: nat, first: nat, queue: nat)
    requires Holds(s, t, first, 1) && s.threads[t].Idle?
    ensures var s' := Exec(s, FlushBatch(t, queue)); Holds(s', t, first, 1) && s'.threads[t] == Flushing(queue, 0)
  {
  }

  /** Exact condition: in every run of the program every message is pushed to the queue it was
      posted through if and only if no thread that posts batched messages through one
      instance posts them through, or flushes, another. */
  lemma RoutedIffOneInstance(p: Program, tids: set<nat>)
    ensures AlwaysRouted(p, tids) <==> OneInstance(p, tids)
  {
    hide AllRouted, Exec, Allowed;
    if OneInstance(p, tids) {
      forall junk: seq<Entry>, acts: seq<Action> | |junk| == BATCH_SIZE && AllAllowed(p, acts)
        ensures AllRouted(Run(Init(tids, junk), acts).pushes)
      {
        RunKeeps(p, tids, junk, acts);
      }
    } else {
      var u, v :| u in p.posting && v in p.posting + p.flushing && u.t == v.t && u.t in tids && u.queue != v.queue;
      var junk := seq(BATCH_SIZE, _ => Entry(0, 0));
      assert u == Use(u.t, u.queue) && v == Use(u.t, v.queue);
      var acts := Misroutes(p, tids, junk, u.t, u.queue, v.queue);
    }
  }
}
