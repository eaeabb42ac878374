/** The calls of `acquire` and `release` as their callers see them
    (src/objectpool_lockfree.h:45-96), and the limit on what the pool keeps. */
module PoolCalls {
  import opened Pool
  import opened PoolTheorems

  // ----- what the calls do -----

  /** Of each thread's latest release: the node passed, and whether the pool held more than its
      limit when the call looked. */
  datatype Record = Record(node: nat, over: bool)

  function Noted(h: map<nat, Record>, s: State, a: Action): map<nat, Record> {
    if a.t !in s.threads then h
    else if a.Release? && s.threads[a.t] == Idle && Owned(s, a.node, Caller) then h[a.t := Record(a.node, false)]
    else if a.Step? && s.threads[a.t].RelCheck? && a.t in h then
      h[a.t := h[a.t].(over := s.maxSize > 0 && s.nodeCount > s.maxSize)]
    else h
  }

  function HistoryOf(s: State, acts: seq<Action>): map<nat, Record>
    decreases |acts|
  {
    if acts == [] then map[] else
    var n := |acts| - 1;
    Noted(HistoryOf(s, acts[..n]), Run(s, acts[..n]), acts[n])
  }

  predicate Putting(l: Local) {
    l.RelLoad? || l.RelLink? || l.RelCas?
  }

  predicate Releasing(l: Local) {
    l.RelCheck? || l.RelDelete? || l.RelUncount? || Putting(l)
  }

  predicate Follows(h: map<nat, Record>, t: nat, l: Local) {
    Releasing(l) ==>
      && t in h && (!l.RelUncount? ==> l.node == h[t].node)
      && (Putting(l) ==> !h[t].over) && (l.RelDelete? || l.RelUncount? ==> h[t].over)
  }

  ghost predicate Told(h: map<nat, Record>, s: State) {
    forall t :: t in s.threads ==> Follows(h, t, s.threads[t])
  }

  /** Where a release goes next; other calls do not turn into one. */
  predicate NextPlace(l: Local, over: bool, l': Local) {
    match l
    case RelCheck(n) => l' == if over then RelDelete(n) else RelLoad(n)
    case RelDelete(_) => l' == RelUncount
    case RelUncount => l' == Idle
    case RelLoad(n) => l'.RelLink? && l'.node == n
    case RelLink(n, _) => l'.RelCas? && l'.node == n
    case RelCas(n, _) => l' == Idle || (l'.RelLink? && l'.node == n)
    case _ => !Releasing(l')
  }

  lemma ReleaseGoesOn(s: State, t: nat, l: Local, spurious: bool, addr: nat)
    requires t in s.threads && Releasing(l)
    ensures var s' := Proceed(s, t, l, spurious, addr);
            t in s'.threads && NextPlace(l, s.maxSize > 0 && s.nodeCount > s.maxSize, s'.threads[t])
  {
  }

  lemma OtherGoesOn(s: State, t: nat, l: Local, spurious: bool, addr: nat)
    requires t in s.threads && s.threads[t] == l && !Releasing(l)
    ensures var s' := Proceed(s, t, l, spurious, addr); t in s'.threads && !Releasing(s'.threads[t])
  {
  }

  lemma ProceedFollows(h: map<nat, Record>, s: State, t: nat, spurious: bool, addr: nat)
    requires t in s.threads && Follows(h, t, s.threads[t])
    ensures var s', h' := Proceed(s, t, s.threads[t], spurious, addr), Noted(h, s, Step(t, spurious, addr));
            t in s'.threads && Follows(h', t, s'.threads[t])
  {
    hide Proceed;
    if Releasing(s.threads[t]) {
      ReleaseGoesOn(s, t, s.threads[t], spurious, addr);
    } else {
      OtherGoesOn(s, t, s.threads[t], spurious, addr);
    }
  }

  lemma OnlyThread(s: State, t: nat, spurious: bool, addr: nat)
    requires t in s.threads
    ensures var s' := Proceed(s, t, s.threads[t], spurious, addr);
            t in s'.threads && s'.threads == s.threads[t := s'.threads[t]]
  {
    assert s.threads == s.threads[t := s.threads[t]];
  }

  lemma OwnFollows(h: map<nat, Record>, s: State, a: Action)
    requires a.t in s.threads && Follows(h, a.t, s.threads[a.t])
    ensures var s' := Exec(s, a);
            && a.t in s'.threads && s'.threads == s.threads[a.t := s'.threads[a.t]]
            && Follows(Noted(h, s, a), a.t, s'.threads[a.t])
  {
    hide Proceed;
    if a.Step? {
      hide Noted, Follows;
      ProceedFollows(h, s, a.t, a.spurious, a.addr);
      OnlyThread(s, a.t, a.spurious, a.addr);
    } else {
      assert s.threads == s.threads[a.t := s.threads[a.t]];
    }
  }

  lemma ToldFollows(h: map<nat, Record>, s: State, a: Action)
    requires Told(h, s)
    ensures Told(Noted(h, s, a), Exec(s, a))
  {
    hide Exec;
    if a.t in s.threads {
      OwnFollows(h, s, a);
      forall u | u in Exec(s, a).threads ensures Follows(Noted(h, s, a), u, Exec(s, a).threads[u]) {
        if u != a.t { assert Follows(h, u, s.threads[u]); }
      }
    } else {
      NobodyMoves(s, a);
    }
  }

  lemma NobodyMoves(s: State, a: Action)
    requires a.t !in s.threads
    ensures Exec(s, a) == s
  {
  }

  lemma {:induction false} RunTold(n: nat, maxSize: nat, tids: set<nat>, acquirers: set<nat>, acts: seq<Action>)
    ensures Told(HistoryOf(Init(n, maxSize, tids, acquirers), acts), After(n, maxSize, tids, acquirers, acts))
    decreases |acts|
  {
    hide Exec, Noted;
    if acts != [] {
      var k := |acts| - 1;
      RunTold(n, maxSize, tids, acquirers, acts[..k]);
      ToldFollows(HistoryOf(Init(n, maxSize, tids, acquirers), acts[..k]),
                  After(n, maxSize, tids, acquirers, acts[..k]), acts[k]);
    }
  }

  /** A release, by the step it takes: a node it was passed while the pool held more than its
      limit is deleted, then the count drops; any other node ends up on top of the list. No
      other step of a release changes list or count. */
  lemma ReleaseDecides(n: nat, maxSize: nat, tids: set<nat>, acquirers: set<nat>, acts: seq<Action>, a: Action)
    requires SingleAcquirer(tids, acquirers) && a.Step?
    requires var s := After(n, maxSize, tids, acquirers, acts); a.t in s.threads && Releasing(s.threads[a.t])
    ensures var h, s := HistoryOf(Init(n, maxSize, tids, acquirers), acts), After(n, maxSize, tids, acquirers, acts);
            var s', l := Exec(s, a), s.threads[a.t];
            && a.t in h && a.t in s'.threads
            && (s'.threads[a.t] == Idle && !h[a.t].over ==>
                  s'.list == [h[a.t].node] + s.list && s'.nodeCount == s.nodeCount)
            && (s'.threads[a.t] == Idle && h[a.t].over ==> s'.list == s.list && s'.nodeCount == s.nodeCount - 1)
            && (s'.threads[a.t] != Idle ==> s'.list == s.list && s'.nodeCount == s.nodeCount)
            && (l.RelDelete? ==> h[a.t].node in s.next && s'.next == s.next - {h[a.t].node})
            && (!l.RelDelete? ==> s'.next.Keys == s.next.Keys)
            && (l.RelCheck? ==> (s'.threads[a.t].RelDelete? <==> s.maxSize > 0 && s.nodeCount > s.maxSize))
  {
    hide Exec, Inv;
    RunTold(n, maxSize, tids, acquirers, acts);
    AfterInv(n, maxSize, tids, acquirers, acts);
    var s, h := After(n, maxSize, tids, acquirers, acts), HistoryOf(Init(n, maxSize, tids, acquirers), acts);
    assert Follows(h, a.t, s.threads[a.t]);
    ReleaseStep(h, s, a);
  }

  lemma ReleaseStep(h: map<nat, Record>, s: State, a: Action)
    requires Inv(s) && a.Step? && a.t in s.threads && Releasing(s.threads[a.t]) && Follows(h, a.t, s.threads[a.t])
    ensures var s', l := Exec(s, a), s.threads[a.t];
            && a.t in h && a.t in s'.threads
            && (s'.threads[a.t] == Idle && !h[a.t].over ==>
                  s'.list == [h[a.t].node] + s.list && s'.nodeCount == s.nodeCount)
            && (s'.threads[a.t] == Idle && h[a.t].over ==> s'.list == s.list && s'.nodeCount == s.nodeCount - 1)
            && (s'.threads[a.t] != Idle ==> s'.list == s.list && s'.nodeCount == s.nodeCount)
            && (l.RelDelete? ==> h[a.t].node in s.next && s'.next == s.next - {h[a.t].node})
            && (!l.RelDelete? ==> s'.next.Keys == s.next.Keys)
            && (l.RelCheck? ==> (s'.threads[a.t].RelDelete? <==> s.maxSize > 0 && s.nodeCount > s.maxSize))
  {
    assert LocalOk(s, a.t, s.threads[a.t]);
  }

  /** An acquire, by the step it takes: it allocates only when it has found the list empty, and
      when it returns it has handed out one node that no caller had, the top of the list or the
      new one, which is counted. */
  lemma AcquireDecides(n: nat, maxSize: nat, tids: set<nat>, acquirers: set<nat>, acts: seq<Action>, a: Action)
    returns (node: nat)
    requires SingleAcquirer(tids, acquirers) && a.Step?
    requires var s := After(n, maxSize, tids, acquirers, acts); a.t in s.threads && Acquiring(s.threads[a.t])
    ensures var s := After(n, maxSize, tids, acquirers, acts);
            var s' := Exec(s, a); var l' := if a.t in s'.threads then s'.threads[a.t] else Idle;
            && (l'.AcqNew? && l' != s.threads[a.t] ==> s.list == [])
            && (l'.AcqReadNext? ==> s.list != [] && l'.top == s.list[0])
            && (l' == Idle ==>
                  && !Owned(s, node, Caller) && Owned(s', node, Caller) && s'.owner == s.owner[node := Caller]
                  && ((s.list != [] && node == s.list[0] && s'.list == s.list[1..] && s'.nodeCount == s.nodeCount)
                      || (Owned(s, node, Thread(a.t)) && s'.list == s.list && s'.nodeCount == s.nodeCount + 1)))
            && (l' != Idle ==> s'.list == s.list && s'.nodeCount == s.nodeCount)
  {
    AfterInv(n, maxSize, tids, acquirers, acts);
    var s := After(n, maxSize, tids, acquirers, acts);
    assert LocalOk(s, a.t, s.threads[a.t]);
    if s.list != [] { assert LinkOk(s, 0); }
    node := if s.threads[a.t].AcqCas? then s.threads[a.t].top
            else if s.threads[a.t].AcqCount? then s.threads[a.t].node else 0;
  }

  // ----- the limit -----

  /** The node is on the list, or about to be put there. */
  predicate IsKept(s: State, n: nat) {
    n in s.owner &&
    (s.owner[n] == FreeList ||
     (s.owner[n].Thread? && s.owner[n].t in s.threads && Putting(s.threads[s.owner[n].t])))
  }

  function Kept(s: State): set<nat> {
    set n | n in s.owner && IsKept(s, n)
  }

  /** A step keeps no further node, except a release that has found the pool within its limit. */
  lemma KeptMoves(s: State, a: Action)
    requires Inv(s)
    ensures var s' := Exec(s, a);
            if a.Step? && a.t in s.threads && s.threads[a.t].RelCheck? && !(s.maxSize > 0 && s.nodeCount > s.maxSize)
            then Kept(s') <= Kept(s) + {s.threads[a.t].node}
            else Kept(s') <= Kept(s)
  {
    if a.t in s.threads { assert LocalOk(s, a.t, s.threads[a.t]); }
    forall n | n in Kept(Exec(s, a))
      ensures n in Kept(s) || (a.Step? && a.t in s.threads && s.threads[a.t].RelCheck? && n == s.threads[a.t].node
                               && !(s.maxSize > 0 && s.nodeCount > s.maxSize))
    {
      assert OwnerOk(s, n);
    }
  }

  /** The kept nodes, the one about to be kept and the one being handed out are different live
      nodes; so within the limit there is room for one more. */
  lemma KeptFits(s: State, t: nat)
    requires Inv(s) && t in s.threads && s.threads[t].RelCheck?
    ensures |Kept(s)| + 1 <= s.nodeCount
  {
    var node := s.threads[t].node;
    assert LocalOk(s, t, s.threads[t]);
    assert node !in Kept(s);
    forall n | n in Kept(s) + {node} ensures n in s.next.Keys {
      assert OwnerOk(s, n);
    }
    if Counting(s) == {} {
      SubsetSize(Kept(s) + {node}, s.next.Keys);
    } else {
      var u :| u in Counting(s);
      assert LocalOk(s, u, s.threads[u]);
      OneCounts(s, u);
      SubsetSize(Kept(s) + {node} + {s.threads[u].node}, s.next.Keys);
    }
    assert |s.next| == |s.next.Keys|;
  }

  lemma OneCounts(s: State, u: nat)
    requires Inv(s) && u in Counting(s)
    ensures |Counting(s)| == 1
  {
    assert LocalOk(s, u, s.threads[u]);
    AcquirerIsAlone(s, u);
    assert Counting(s) == {u};
  }

  lemma {:induction false} SubsetSize(a: set<nat>, b: set<nat>)
    requires a <= b
    ensures |a| <= |b|
  {
    if a != {} {
      var x :| x in a;
      SubsetSize(a - {x}, b - {x});
    }
  }

  lemma {:induction false} KeptIsBounded(
    n: nat, maxSize: nat, tids: set<nat>, acquirers: set<nat>, acts: seq<Action>)
    requires SingleAcquirer(tids, acquirers) && maxSize > 0
    ensures var s := After(n, maxSize, tids, acquirers, acts);
            s.maxSize == maxSize && |Kept(s)| <= if n > maxSize then n else maxSize
    decreases |acts|
  {
    hide Exec, Kept;
    if acts == [] {
      KeptAtFirst(n, maxSize, tids, acquirers);
    } else {
      var k := |acts| - 1;
      var s, a := After(n, maxSize, tids, acquirers, acts[..k]), acts[k];
      KeptIsBounded(n, maxSize, tids, acquirers, acts[..k]);
      AfterInv(n, maxSize, tids, acquirers, acts[..k]);
      KeptMoves(s, a);
      SameLimit(s, a);
      if a.Step? && a.t in s.threads && s.threads[a.t].RelCheck? && s.nodeCount <= s.maxSize {
        KeptFits(s, a.t);
        SubsetSize(Kept(Exec(s, a)), Kept(s) + {s.threads[a.t].node});
      } else {
        SubsetSize(Kept(Exec(s, a)), Kept(s));
      }
    }
  }

  lemma SameLimit(s: State, a: Action)
    ensures Exec(s, a).maxSize == s.maxSize
  {
  }

  lemma KeptAtFirst(n: nat, maxSize: nat, tids: set<nat>, acquirers: set<nat>)
    ensures |Kept(Init(n, maxSize, tids, acquirers))| <= n
  {
    var s := Init(n, maxSize, tids, acquirers);
    SubsetSize(Kept(s), InitNext(n).Keys);
  }

  /** In every run of a pool with a limit the free list never holds more nodes than the limit,
      or than the pool was built with. */
  lemma FreeListIsBounded(n: nat, maxSize: nat, tids: set<nat>, acquirers: set<nat>, acts: seq<Action>)
    requires SingleAcquirer(tids, acquirers) && maxSize > 0
    ensures |After(n, maxSize, tids, acquirers, acts).list| <= if n > maxSize then n else maxSize
  {
    AfterInv(n, maxSize, tids, acquirers, acts);
    KeptIsBounded(n, maxSize, tids, acquirers, acts);
    var s := After(n, maxSize, tids, acquirers, acts);
    ListSize(s.list);
    forall i | 0 <= i < |s.list| ensures s.list[i] in Kept(s) {
      assert LinkOk(s, i);
    }
    SubsetSize(OnList(s), Kept(s));
  }

  /** A pool without a limit never deletes a node. */
  lemma {:induction false} UnlimitedKeepsAll(n: nat, tids: set<nat>, acquirers: set<nat>, acts: seq<Action>)
    requires SingleAcquirer(tids, acquirers)
    ensures var s := After(n, 0, tids, acquirers, acts);
            && s.maxSize == 0 && (forall t :: t in s.threads ==> !s.threads[t].RelDelete?)
            && forall m :: 0 <= m < n ==> m in s.next
    decreases |acts|
  {
    hide Exec;
    if acts != [] {
      UnlimitedKeepsAll(n, tids, acquirers, acts[..|acts| - 1]);
      NothingDeleted(After(n, 0, tids, acquirers, acts[..|acts| - 1]), acts[|acts| - 1]);
    }
  }

  lemma NothingDeleted(s: State, a: Action)
    requires s.maxSize == 0 && forall t :: t in s.threads ==> !s.threads[t].RelDelete?
    ensures var s' := Exec(s, a);
            && s'.maxSize == 0 && s.next.Keys <= s'.next.Keys
            && forall t :: t in s'.threads ==> !s'.threads[t].RelDelete?
  {
    hide Proceed;
    if a.t in s.threads && a.Step? {
      OnlyThread(s, a.t, a.spurious, a.addr);
      KeepsNodes(s, a.t, s.threads[a.t], a.spurious, a.addr);
    }
  }

  lemma KeepsNodes(s: State, t: nat, l: Local, spurious: bool, addr: nat)
    requires t in s.threads && s.maxSize == 0 && s.threads[t] == l && !l.RelDelete?
    ensures var s' := Proceed(s, t, l, spurious, addr);
            s'.maxSize == 0 && s.next.Keys <= s'.next.Keys && t in s'.threads && !s'.threads[t].RelDelete?
  {
  }
}
