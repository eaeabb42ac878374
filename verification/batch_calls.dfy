/** What the callers of `EventQueueBroadcastFastBatch` posted is what is flushed, buffered and
    pushed (src/eventqueue_batch.h:111-186), read off the calls made. */
module BatchCalls {
  import opened Sequences
  import opened BatchPosting

  /** Thread t is in no call, and begins one by action a that has something to do. */
  predicate Begins(s: State, a: Action) {
    && a.t in s.threads && s.threads[a.t].Idle?
    && (a.Post? || a.PostBatched? ==> a.topic < MAX_TOPICS && a.observers > 0)
  }

  /** The messages thread t has posted into its batch, and the ones it has posted directly, each
      with the queue instance it was posted through, in the order of the calls. */
  function BatchedBy(s: State, acts: seq<Action>, t: nat): seq<Entry>
    decreases |acts|
  {
    if acts == [] then [] else
    var n := |acts| - 1;
    var a := acts[n];
    BatchedBy(s, acts[..n], t) +
    if a.PostBatched? && a.t == t && Begins(Run(s, acts[..n]), a) then [Entry(a.queue, a.message)] else []
  }

  function DirectBy(s: State, acts: seq<Action>, t: nat): seq<Entry>
    decreases |acts|
  {
    if acts == [] then [] else
    var n := |acts| - 1;
    var a := acts[n];
    DirectBy(s, acts[..n], t) +
    if a.Post? && a.t == t && Begins(Run(s, acts[..n]), a) then [Entry(a.queue, a.message)] else []
  }

  /** The unbatched pushes of thread t. */
  function Direct(pushes: seq<Push>, t: nat): seq<Entry>
    decreases |pushes|
  {
    if pushes == [] then [] else
    var last := pushes[|pushes| - 1];
    Direct(pushes[..|pushes| - 1], t) + if !last.batched && last.t == t then [last.entry] else []
  }

  lemma DirectNext(pushes: seq<Push>, p: Push, t: nat)
    ensures Direct(pushes + [p], t) == Direct(pushes, t) + if !p.batched && p.t == t then [p.entry] else []
  {
    assert (pushes + [p])[..|pushes|] == pushes;
  }

  /** The message of the call a thread is in. */
  function Appended(l: Local): seq<Entry> {
    if l.Appending? then [l.entry] else []
  }

  function Posted(l: Local): seq<Entry> {
    if l.Posting? then [l.entry] else []
  }

  predicate Follows(s: State, t: nat, batched: seq<Entry>, direct: seq<Entry>) {
    && t in s.threads && t in s.accepted
    && s.accepted[t] + Appended(s.threads[t]) == batched
    && Direct(s.pushes, t) + Posted(s.threads[t]) == direct
  }

  predicate DirectRouted(s: State) {
    && (forall i :: 0 <= i < |s.pushes| ==> !s.pushes[i].batched ==> Routed(s.pushes[i]))
  }

  lemma StepFollows(s: State, a: Action, t: nat, batched: seq<Entry>, direct: seq<Entry>)
    requires Inv(s) && Follows(s, t, batched, direct) && DirectRouted(s)
    ensures var begins := a.t == t && Begins(s, a);
            && DirectRouted(Exec(s, a))
            && Follows(Exec(s, a), t,
                       batched + (if a.PostBatched? && begins then [Entry(a.queue, a.message)] else []),
                       direct + (if a.Post? && begins then [Entry(a.queue, a.message)] else []))
  {
    hide ThreadOk, Append, FlushStep, Direct;
    assert batched + [] == batched && direct + [] == direct;
    if a.t in s.threads && a.Step? {
      match s.threads[a.t]
      case Posting(e) => DirectNext(s.pushes, Push(a.t, false, e, e.origin), t);
      case Appending(e) =>
        assert ThreadOk(s, a.t);
        AppendTakes(s, a.t, e);
        AppendFrame(s, a.t, e);
      case Flushing(queue, i) => FlushTakes(s, a.t, queue, i, a.refused, t);
      case Idle =>
    }
  }

  lemma AppendTakes(s: State, t: nat, e: Entry)
    requires t in s.threads && t in s.buffers && t in s.accepted && ThreadOk(s, t) && s.threads[t] == Appending(e)
    ensures var s' := Append(s, t, e);
            && t in s'.threads && t in s'.accepted
            && s'.accepted[t] == s.accepted[t] + [e] && !s'.threads[t].Appending? && !s'.threads[t].Posting?
  {
    hide FlushedBy;
  }

  lemma FlushTakes(s: State, u: nat, queue: nat, i: nat, refused: bool, t: nat)
    requires u in s.threads && u in s.buffers && t in s.threads && t in s.accepted && s.threads[u] == Flushing(queue, i)
    requires DirectRouted(s)
    ensures var s' := FlushStep(s, u, queue, i, refused);
            && DirectRouted(s') && t in s'.threads && s'.accepted == s.accepted
            && Direct(s'.pushes, t) == Direct(s.pushes, t)
            && Appended(s'.threads[t]) == Appended(s.threads[t]) && Posted(s'.threads[t]) == Posted(s.threads[t])
  {
    var b := s.buffers[u];
    if i < b.count && i < |b.slots| { DirectNext(s.pushes, Push(u, true, b.slots[i], queue), t); }
  }

  lemma {:induction false} RunFollows(tids: set<nat>, junk: seq<Entry>, acts: seq<Action>, t: nat)
    requires |junk| == BATCH_SIZE && t in tids
    ensures var s0 := Init(tids, junk); var s := Run(s0, acts);
            Follows(s, t, BatchedBy(s0, acts, t), DirectBy(s0, acts, t)) && DirectRouted(s)
    decreases |acts|
  {
    hide Exec, Begins, ThreadOk;
    if acts != [] {
      var n := |acts| - 1;
      RunFollows(tids, junk, acts[..n], t);
      AfterInv(tids, junk, acts[..n]);
      var s0 := Init(tids, junk);
      StepFollows(Run(s0, acts[..n]), acts[n], t, BatchedBy(s0, acts[..n], t), DirectBy(s0, acts[..n], t));
    }
  }

  /** In every run and for every thread: what it has flushed, then what is in its buffer, then
      the message it is about to append, are the messages it has posted into its batch, in the
      order of the calls; what it has pushed directly, then the message it is about to push,
      are the messages it has posted directly, each in the queue it was posted through. */
  lemma PostedIsFlushedOrBuffered(tids: set<nat>, junk: seq<Entry>, acts: seq<Action>, t: nat)
    requires |junk| == BATCH_SIZE && t in tids
    ensures var s0 := Init(tids, junk); var s := Run(s0, acts);
            && t in s.threads && t in s.buffers && BufferOk(s, t)
            && Entries(FlushedBy(s.pushes, t)) + Buffered(s, t) + Appended(s.threads[t]) == BatchedBy(s0, acts, t)
            && Direct(s.pushes, t) + Posted(s.threads[t]) == DirectBy(s0, acts, t)
            && (forall i :: 0 <= i < |s.pushes| && !s.pushes[i].batched ==>
                  s.pushes[i].dest == s.pushes[i].entry.origin)
  {
    hide Exec, BatchedBy, DirectBy;
    RunFollows(tids, junk, acts, t);
    FlushedThenBuffered(tids, junk, acts, t);
  }
}
