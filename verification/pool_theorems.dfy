/** What the free list of module Pool guarantees, and exactly when. */
module PoolTheorems {
  import opened Pool

  /** At most one of the running threads acquires. */
  predicate SingleAcquirer(tids: set<nat>, acquirers: set<nat>) {
    forall a, b :: a in acquirers && b in acquirers && a in tids && b in tids ==> a == b
  }

  // ----- the free list is a stack -----

  datatype Op = Took(node: nat) | Put(node: nat)

  /** The stack operation that takes effect at action a. */
  function Effect(s: State, a: Action): seq<Op> {
    if !a.Step? || a.t !in s.threads || a.spurious then []
    else match s.threads[a.t]
      case AcqCas(top, _) => if s.freeList == At(top) then [Took(top)] else []
      case RelCas(node, seen) => if s.freeList == seen then [Put(node)] else []
      case _ => []
  }

  function Effects(s: State, acts: seq<Action>): seq<Op>
    decreases |acts|
  {
    if acts == [] then [] else
    var n := |acts| - 1;
    Effects(s, acts[..n]) + Effect(Run(s, acts[..n]), acts[n])
  }

  /** A stack doing `ops` in order; None if some operation is illegal. */
  datatype Outcome = Illegal | Stack(nodes: seq<nat>)

  function Lifo(start: seq<nat>, ops: seq<Op>): Outcome
    decreases |ops|
  {
    if ops == [] then Stack(start) else
    match Lifo(start, ops[..|ops| - 1])
    case Illegal => Illegal
    case Stack(q) =>
      match ops[|ops| - 1]
      case Took(n) => if q != [] && q[0] == n then Stack(q[1..]) else Illegal
      case Put(n) => if n !in q then Stack([n] + q) else Illegal
  }

  /** What an effect does to the abstract list. */
  ghost predicate ListMoves(list: seq<nat>, e: seq<Op>, list': seq<nat>) {
    if e == [] then list' == list
    else match e[0]
      case Took(n) => list != [] && list[0] == n && list' == list[1..]
      case Put(n) => n !in list && list' == [n] + list
  }

  lemma CarriedIsOffList(s: State, t: nat, node: nat)
    requires Linked(s) && Owned(s, node, Thread(t))
    ensures node !in s.list
  {
    forall i | 0 <= i < |s.list| ensures s.list[i] != node {
      assert LinkOk(s, i);
    }
  }

  lemma StepMovesList(s: State, a: Action)
    requires Inv(s)
    ensures ListMoves(s.list, Effect(s, a), Exec(s, a).list)
  {
    if a.t in s.threads && a.Step? {
      assert LocalOk(s, a.t, s.threads[a.t]);
      if s.list != [] { assert LinkOk(s, 0); }
      if s.threads[a.t].RelCas? { CarriedIsOffList(s, a.t, s.threads[a.t].node); }
    }
  }

  lemma LifoStep(start: seq<nat>, ops: seq<Op>, e: seq<Op>, list: seq<nat>, list': seq<nat>)
    requires |e| <= 1 && Lifo(start, ops) == Stack(list) && ListMoves(list, e, list')
    ensures Lifo(start, ops + e) == Stack(list')
  {
    if e == [] {
      assert ops + e == ops;
    } else {
      assert (ops + e)[..|ops|] == ops;
    }
  }

  /** With one acquiring thread, in every run: the link fields from `m_freeList` on spell
      out a duplicate-free list, and that list is a stack on which the successful
      compare-exchanges are atomic pops and pushes. */
  lemma {:induction false} RunsAreStack(n: nat, maxSize: nat, tids: set<nat>, acquirers: set<nat>, acts: seq<Action>)
    requires SingleAcquirer(tids, acquirers)
    ensures var s := After(n, maxSize, tids, acquirers, acts);
            && Linked(s)
            && Lifo(Init(n, maxSize, tids, acquirers).list, Effects(Init(n, maxSize, tids, acquirers), acts))
               == Stack(s.list)
    decreases |acts|
  {
    AfterInv(n, maxSize, tids, acquirers, acts);
    if acts != [] {
      var k := |acts| - 1;
      var s0 := Init(n, maxSize, tids, acquirers);
      var s := Run(s0, acts[..k]);
      RunsAreStack(n, maxSize, tids, acquirers, acts[..k]);
      AfterInv(n, maxSize, tids, acquirers, acts[..k]);
      StepMovesList(s, acts[k]);
      LifoStep(s0.list, Effects(s0, acts[..k]), Effect(s, acts[k]), s.list, Exec(s, acts[k]).list);
    }
  }

  // ----- ownership -----

  /** Every live node has exactly one place: on the list, with the caller it was handed to,
      or in the hands of the one running call that carries it; and nothing else has one. */
  lemma EveryNodeHasOneOwner(
    n: nat, maxSize: nat, tids: set<nat>, acquirers: set<nat>, acts: seq<Action>, node: nat)
    requires SingleAcquirer(tids, acquirers)
    ensures var s := After(n, maxSize, tids, acquirers, acts);
            && (node in s.next <==> node in s.owner)
            && (node in s.list <==> Owned(s, node, FreeList))
            && (forall t :: t in s.threads ==>
                  (Carries(s.threads[t]) && s.threads[t].node == node <==> Owned(s, node, Thread(t))))
  {
    AfterInv(n, maxSize, tids, acquirers, acts);
    var s := After(n, maxSize, tids, acquirers, acts);
    assert OwnerOk(s, node);
    if node in s.list {
      var i :| 0 <= i < |s.list| && s.list[i] == node;
      assert LinkOk(s, i);
    }
    forall t | t in s.threads
      ensures Carries(s.threads[t]) && s.threads[t].node == node <==> Owned(s, node, Thread(t))
    {
      assert LocalOk(s, t, s.threads[t]);
    }
  }

  /** Whenever `popFree` is about to read `oldHead->next`, that node is live and on the list,
      and no other thread is about to write that link or to delete the node. */
  lemma PopReadsLiveNodes(
    n: nat, maxSize: nat, tids: set<nat>, acquirers: set<nat>, acts: seq<Action>, t: nat, top: nat, u: nat)
    requires SingleAcquirer(tids, acquirers)
    requires var s := After(n, maxSize, tids, acquirers, acts);
             t in s.threads && s.threads[t] == AcqReadNext(top) && u in s.threads
    ensures var s := After(n, maxSize, tids, acquirers, acts);
            && top in s.next && top in s.list
            && !(Carries(s.threads[u]) && s.threads[u].node == top)
  {
    EveryNodeHasOneOwner(n, maxSize, tids, acquirers, acts, top);
    AfterInv(n, maxSize, tids, acquirers, acts);
    assert LocalOk(After(n, maxSize, tids, acquirers, acts), t, AcqReadNext(top));
  }

  // ----- the allocation count -----

  ghost function OnList(s: State): set<nat> {
    set i | 0 <= i < |s.list| :: s.list[i]
  }

  function WithCallers(s: State): set<nat> {
    set m | m in s.owner && s.owner[m] == Caller
  }

  lemma {:induction false} ListSize(list: seq<nat>)
    requires forall i, j | 0 <= i < j < |list| :: list[i] != list[j]
    ensures |set i | 0 <= i < |list| :: list[i]| == |list|
  {
    if list != [] {
      var k := |list| - 1;
      ListSize(list[..k]);
      var front := set i | 0 <= i < k :: list[..k][i];
      assert (set i | 0 <= i < |list| :: list[i]) == front + {list[k]} by {
        forall i | 0 <= i < k ensures list[i] in front { assert list[..k][i] == list[i]; }
      }
      assert list[k] !in front;
    }
  }

  /** `m_allocated`, corrected for the updates in flight, is the number of live nodes; and
      when no call is running it is the free nodes plus the nodes callers hold. */
  lemma CountIsConserved(n: nat, maxSize: nat, tids: set<nat>, acquirers: set<nat>, acts: seq<Action>)
    requires SingleAcquirer(tids, acquirers)
    ensures var s := After(n, maxSize, tids, acquirers, acts);
            && s.nodeCount + |Counting(s)| == |s.next| + |Uncounting(s)|
            && ((forall t :: t in s.threads ==> s.threads[t] == Idle) ==>
                  s.nodeCount == |s.list| + |WithCallers(s)|)
  {
    AfterInv(n, maxSize, tids, acquirers, acts);
    var s := After(n, maxSize, tids, acquirers, acts);
    if forall t :: t in s.threads ==> s.threads[t] == Idle {
      assert Counting(s) == {} && Uncounting(s) == {};
      ListSize(s.list);
      forall m: nat ensures m in s.next <==> m in OnList(s) + WithCallers(s) {
        EveryNodeHasOneOwner(n, maxSize, tids, acquirers, acts, m);
        assert OwnerOk(s, m);
        assert m in s.list <==> m in OnList(s);
      }
      assert s.next.Keys == OnList(s) + WithCallers(s);
      forall m: nat | m in OnList(s) ensures m !in WithCallers(s) {
        EveryNodeHasOneOwner(n, maxSize, tids, acquirers, acts, m);
      }
      assert OnList(s) !! WithCallers(s);
      assert |s.next| == |s.next.Keys|;
    }
  }

  // ----- two acquirers -----

  /** The node on top of the free list is not at the same time with a caller. */
  predicate TopIsFree(s: State) {
    s.freeList.At? ==> !Owned(s, s.freeList.node, Caller)
  }

  ghost predicate NeverDoublyOwned(n: nat, maxSize: nat, tids: set<nat>, acquirers: set<nat>) {
    forall acts :: TopIsFree(After(n, maxSize, tids, acquirers, acts))
  }

  lemma {:induction false} RunAppend(s: State, a: seq<Action>, b: seq<Action>)
    ensures Run(s, a + b) == Run(Run(s, a), b)
    decreases |b|
  {
    if b == [] {
      assert a + b == a;
    } else {
      var n := |b| - 1;
      assert (a + b)[..|a| + n] == a + b[..n];
      RunAppend(s, a, b[..n]);
    }
  }

  lemma RunOne(s: State, a: Action)
    ensures Run(s, [a]) == Exec(s, a)
  {
    assert [a][..0] == [];
  }

  lemma RunFive(s: State, p: seq<Action>, q: seq<Action>, r: seq<Action>, v: seq<Action>, w: seq<Action>)
    ensures Run(s, p + q + r + v + w) == Run(Run(Run(Run(Run(s, p), q), r), v), w)
  {
    RunAppend(s, p, q);
    RunAppend(s, p + q, r);
    RunAppend(s, p + q + r, v);
    RunAppend(s, p + q + r + v, w);
  }

  /** Threads a and b, the top of the list and the pool's counters, as the witness needs them. */
  predicate View(s: State, a: nat, b: nat, la: Local, lb: Local, top: Ptr) {
    && a != b && a in s.threads && b in s.threads && a in s.acquirers && b in s.acquirers
    && s.threads[a] == la && s.threads[b] == lb && s.freeList == top
    && (s.maxSize == 0 || s.nodeCount <= s.maxSize)
  }

  predicate NextIs(s: State, node: nat, link: Ptr) {
    node in s.next && s.next[node] == link
  }

  /** Thread a reads the head x and its link, and stops before its compare-exchange. */
  lemma ReadsAhead(s: State, a: nat, b: nat, x: nat, link: Ptr) returns (acts: seq<Action>)
    requires View(s, a, b, Idle, Idle, At(x)) && NextIs(s, x, link)
    ensures var s' := Run(s, acts);
            View(s', a, b, AcqCas(x, link), Idle, At(x)) && s'.next == s.next && s'.owner == s.owner
  {
    var step := Step(a, false, 0);
    var s1 := Exec(s, Acquire(a));
    var s2 := Exec(s1, step);
    RunOne(s, Acquire(a));
    RunOne(s1, step);
    RunOne(s2, step);
    RunAppend(s, [Acquire(a)], [step]);
    RunAppend(s, [Acquire(a)] + [step], [step]);
    acts := [Acquire(a)] + [step] + [step];
  }

  /** Thread b acquires the head undisturbed. */
  lemma Acquires(s: State, a: nat, b: nat, la: Local, x: nat, link: Ptr) returns (acts: seq<Action>)
    requires View(s, a, b, la, Idle, At(x)) && NextIs(s, x, link)
    ensures var s' := Run(s, acts);
            View(s', a, b, la, Idle, link) && s'.next == s.next && s'.owner == s.owner[x := Caller]
  {
    var step := Step(b, false, 0);
    var s1 := Exec(s, Acquire(b));
    var s2 := Exec(s1, step);
    var s3 := Exec(s2, step);
    assert s3.threads[b] == AcqCas(x, link);
    RunOne(s, Acquire(b));
    RunOne(s1, step);
    RunOne(s2, step);
    RunOne(s3, step);
    RunAppend(s, [Acquire(b)], [step]);
    RunAppend(s, [Acquire(b)] + [step], [step]);
    RunAppend(s, [Acquire(b)] + [step] + [step], [step]);
    acts := [Acquire(b)] + [step] + [step] + [step];
  }

  /** Thread b releases x undisturbed; x is the head again, with a new link. */
  lemma Releases(s: State, a: nat, b: nat, la: Local, x: nat, top: Ptr) returns (acts: seq<Action>)
    requires View(s, a, b, la, Idle, top) && Owned(s, x, Caller)
    ensures var s' := Run(s, acts);
            View(s', a, b, la, Idle, At(x)) && s'.owner == s.owner[x := FreeList]
  {
    hide Run;
    var step := Step(b, false, 0);
    var s1 := Exec(s, Release(b, x));
    var s2 := Exec(s1, step);
    assert s2.threads[b] == RelLoad(x);
    var s3 := Exec(s2, step);
    assert s3.threads[b] == RelLink(x, top);
    var s4 := Exec(s3, step);
    assert s4.threads[b] == RelCas(x, top);
    RunOne(s, Release(b, x));
    RunOne(s1, step);
    RunOne(s2, step);
    RunOne(s3, step);
    RunOne(s4, step);
    RunFive(s, [Release(b, x)], [step], [step], [step], [step]);
    acts := [Release(b, x)] + [step] + [step] + [step] + [step];
    assert s4.owner[x := FreeList] == s.owner[x := FreeList];
  }

  /** The A-B-A interleaving: a reads head x and its link y; b takes x, takes y and returns
      x; a's compare-exchange then succeeds and puts y, which b still holds, on the list. */
  lemma TwoAcquirersClash(n: nat, maxSize: nat, tids: set<nat>, acquirers: set<nat>, a: nat, b: nat)
    returns (acts: seq<Action>)
    requires n >= 2 && (maxSize == 0 || n <= maxSize)
    requires a != b && a in tids && b in tids && a in acquirers && b in acquirers
    ensures !TopIsFree(After(n, maxSize, tids, acquirers, acts))
  {
    hide Run;
    var s0 := Init(n, maxSize, tids, acquirers);
    var x, y := n - 1, n - 2;
    var z := if y == 0 then Null else At(y - 1);
    var a1 := ReadsAhead(s0, a, b, x, At(y));
    var s1 := Run(s0, a1);
    var a2 := Acquires(s1, a, b, AcqCas(x, At(y)), x, At(y));
    var s2 := Run(s1, a2);
    var a3 := Acquires(s2, a, b, AcqCas(x, At(y)), y, z);
    var s3 := Run(s2, a3);
    var a4 := Releases(s3, a, b, AcqCas(x, At(y)), x, z);
    var s4 := Run(s3, a4);
    RunOne(s4, Step(a, false, 0));
    RunFive(s0, a1, a2, a3, a4, [Step(a, false, 0)]);
    acts := a1 + a2 + a3 + a4 + [Step(a, false, 0)];
  }

  /** Exact condition, for a pool built with at least two nodes within its size limit (as
      all the queues build theirs): no node is ever free and handed out at the same time, in
      any run, if and only if at most one of the threads acquires. */
  lemma SafeIffSingleAcquirer(n: nat, maxSize: nat, tids: set<nat>, acquirers: set<nat>)
    requires n >= 2 && (maxSize == 0 || n <= maxSize)
    ensures NeverDoublyOwned(n, maxSize, tids, acquirers) <==> SingleAcquirer(tids, acquirers)
  {
    if SingleAcquirer(tids, acquirers) {
      forall acts ensures TopIsFree(After(n, maxSize, tids, acquirers, acts)) {
        AfterInv(n, maxSize, tids, acquirers, acts);
        var s := After(n, maxSize, tids, acquirers, acts);
        if s.freeList.At? { assert LinkOk(s, 0); }
      }
    } else {
      var a, b :| a in acquirers && b in acquirers && a in tids && b in tids && a != b;
      var acts := TwoAcquirersClash(n, maxSize, tids, acquirers, a, b);
    }
  }
}
