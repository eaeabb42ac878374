/** The Treiber free list of src/objectpool_lockfree.h as a transition system.

    Threads in `acquirers` may call `acquire`; every thread may call `release` on a
    node that was handed out. Every atomic access, every access to the plain field
    `node->next`, and every allocation is one step; a new node may get the address of
    a deleted one. */
module Pool {

  datatype Ptr = Null | At(node: nat)

  datatype Local =
    | Idle
    | AcqLoad
    | AcqReadNext(top: nat)
    | AcqCas(top: nat, link: Ptr)
    | AcqNew
    | AcqCount(node: nat)
    | RelCheck(node: nat)
    | RelDelete(node: nat)
    | RelUncount
    | RelLoad(node: nat)
    | RelLink(node: nat, seen: Ptr)
    | RelCas(node: nat, seen: Ptr)

  /** The one owner of a live node: the free list, a caller it was handed out to, or
      the running call of a thread. */
  datatype Owner = FreeList | Caller | Thread(t: nat)

  /** Memory: `next` maps each live node to its link field. History: `list` is the
      abstract free list, changed only at the two successful compare-exchanges, and
      `owner` tells where each live node is. */
  datatype State = State(
    freeList: Ptr,
    next: map<nat, Ptr>,
    nodeCount: int,
    maxSize: nat,
    threads: map<nat, Local>,
    acquirers: set<nat>,
    owner: map<nat, Owner>,
    list: seq<nat>)

  datatype Action =
    | Acquire(t: nat)
    | Release(t: nat, node: nat)
    | Step(t: nat, spurious: bool, addr: nat)

  function Set(s: State, t: nat, l: Local): State {
    s.(threads := s.threads[t := l])
  }

  // ----- the steps -----

  /** The compare-exchange of `popFree` succeeds; the node goes to the caller. */
  function TakeHead(s: State, t: nat, top: nat, link: Ptr): State {
    Set(s, t, Idle).(
      freeList := link, owner := s.owner[top := Caller], list := if s.list == [] then [] else s.list[1..])
  }

  /** The compare-exchange of `pushFree` succeeds. */
  function PutHead(s: State, t: nat, node: nat): State {
    Set(s, t, Idle).(freeList := At(node), owner := s.owner[node := FreeList], list := [node] + s.list)
  }

  function Allocate(s: State, t: nat, addr: nat): State {
    Set(s, t, AcqCount(addr)).(next := s.next[addr := Null], owner := s.owner[addr := Thread(t)])
  }

  function HandOut(s: State, t: nat, node: nat): State {
    Set(s, t, Idle).(nodeCount := s.nodeCount + 1, owner := s.owner[node := Caller])
  }

  function Delete(s: State, t: nat, node: nat): State {
    Set(s, t, RelUncount).(next := s.next - {node}, owner := s.owner - {node})
  }

  function Link(s: State, t: nat, node: nat, seen: Ptr): State {
    Set(s, t, RelCas(node, seen)).(next := s.next[node := seen])
  }

  function AfterLoad(p: Ptr): Local {
    if p == Null then AcqNew else AcqReadNext(p.node)
  }

  function Proceed(s: State, t: nat, l: Local, spurious: bool, addr: nat): State {
    match l
    case Idle => s
    case AcqLoad => Set(s, t, AfterLoad(s.freeList))
    case AcqReadNext(top) => Set(s, t, AcqCas(top, if top in s.next then s.next[top] else Null))
    case AcqCas(top, link) =>
      if s.freeList == At(top) && !spurious then TakeHead(s, t, top, link)
      else Set(s, t, AfterLoad(s.freeList))
    case AcqNew => if addr in s.next then s else Allocate(s, t, addr)
    case AcqCount(node) => HandOut(s, t, node)
    case RelCheck(node) =>
      Set(s, t, if s.maxSize > 0 && s.nodeCount > s.maxSize then RelDelete(node) else RelLoad(node))
    case RelDelete(node) => Delete(s, t, node)
    case RelUncount => Set(s, t, Idle).(nodeCount := s.nodeCount - 1)
    case RelLoad(node) => Set(s, t, RelLink(node, s.freeList))
    case RelLink(node, seen) => Link(s, t, node, seen)
    case RelCas(node, seen) =>
      if s.freeList == seen && !spurious then PutHead(s, t, node)
      else Set(s, t, RelLink(node, s.freeList))
  }

  function BeginRelease(s: State, t: nat, node: nat): State {
    Set(s, t, RelCheck(node)).(owner := s.owner[node := Thread(t)])
  }

  function Exec(s: State, a: Action): State {
    if a.t !in s.threads then s else
    match a
    case Acquire(t) => if s.threads[t] == Idle && t in s.acquirers then Set(s, t, AcqLoad) else s
    case Release(t, node) =>
      if s.threads[t] == Idle && node in s.owner && s.owner[node] == Caller then BeginRelease(s, t, node) else s
    case Step(t, spurious, addr) => Proceed(s, t, s.threads[t], spurious, addr)
  }

  function Run(s: State, acts: seq<Action>): State
    decreases |acts|
  {
    if acts == [] then s else Exec(Run(s, acts[..|acts| - 1]), acts[|acts| - 1])
  }

  /** The constructor's loop: node i is linked to node i - 1 and pushed on top of it. */
  function InitNext(n: nat): (next: map<nat, Ptr>)
    ensures forall i: nat :: i in next <==> i < n
    ensures forall i: nat :: i in next ==> next[i] == if i == 0 then Null else At(i - 1)
    ensures |next| == n
  {
    if n == 0 then map[] else
    var rest := InitNext(n - 1);
    var all := rest[n - 1 := if n == 1 then Null else At(n - 2)];
    assert all.Keys == rest.Keys + {n - 1};
    all
  }

  function Init(n: nat, maxSize: nat, tids: set<nat>, acquirers: set<nat>): State {
    State(
      if n == 0 then Null else At(n - 1), InitNext(n), n, maxSize,
      map t | t in tids :: Idle, acquirers,
      map i | i in InitNext(n) :: FreeList, seq(n, i requires 0 <= i < n => n - 1 - i))
  }

  function After(n: nat, maxSize: nat, tids: set<nat>, acquirers: set<nat>, acts: seq<Action>): State {
    Run(Init(n, maxSize, tids, acquirers), acts)
  }

  // ----- the invariant -----

  predicate Carries(l: Local) {
    l.AcqCount? || l.RelCheck? || l.RelDelete? || l.RelLoad? || l.RelLink? || l.RelCas?
  }

  predicate Acquiring(l: Local) {
    l.AcqLoad? || l.AcqReadNext? || l.AcqCas? || l.AcqNew? || l.AcqCount?
  }

  function PtrAt(list: seq<nat>, i: nat): Ptr {
    if i < |list| then At(list[i]) else Null
  }

  predicate Owned(s: State, n: nat, o: Owner) {
    n in s.owner && s.owner[n] == o
  }

  /** The i-th node of the list is live, owned by the list, and linked to the next one. */
  predicate LinkOk(s: State, i: nat)
    requires i < |s.list|
  {
    s.list[i] in s.next && s.next[s.list[i]] == PtrAt(s.list, i + 1) && Owned(s, s.list[i], FreeList)
  }

  /** The pointers spell out the abstract list, which has no duplicates: no cycle. */
  ghost predicate Linked(s: State) {
    && s.freeList == PtrAt(s.list, 0)
    && (forall i, j | 0 <= i < j < |s.list| :: s.list[i] != s.list[j])
    && (forall i | 0 <= i < |s.list| :: LinkOk(s, i))
  }

  predicate LocalOk(s: State, t: nat, l: Local) {
    && (Acquiring(l) ==> t in s.acquirers)
    && (Carries(l) ==> l.node in s.next && Owned(s, l.node, Thread(t)))
    && (l.AcqReadNext? ==> l.top in s.next && Owned(s, l.top, FreeList))
    && (l.AcqCas? ==> l.top in s.next && Owned(s, l.top, FreeList) && s.next[l.top] == l.link)
    && (l.RelCas? ==> s.next[l.node] == l.seen)
  }

  /** Exactly the live nodes have an owner, and the owner has the node. */
  predicate OwnerOk(s: State, n: nat) {
    && (n in s.owner <==> n in s.next)
    && (Owned(s, n, FreeList) ==> n in s.list)
    && (n in s.owner && s.owner[n].Thread? ==>
          var t := s.owner[n].t; t in s.threads && Carries(s.threads[t]) && s.threads[t].node == n)
  }

  function Counting(s: State): set<nat> {
    set t | t in s.threads && s.threads[t].AcqCount?
  }

  function Uncounting(s: State): set<nat> {
    set t | t in s.threads && s.threads[t].RelUncount?
  }

  /** `m_allocated`, corrected for the updates in flight, is the number of live nodes. */
  predicate CountOk(s: State) {
    s.nodeCount + |Counting(s)| == |s.next| + |Uncounting(s)|
  }

  predicate OneAcquirer(s: State) {
    forall a, b :: a in s.acquirers && b in s.acquirers && a in s.threads && b in s.threads ==> a == b
  }

  ghost predicate Locals(s: State) {
    forall t :: t in s.threads ==> LocalOk(s, t, s.threads[t])
  }

  ghost predicate Owners(s: State) {
    forall n :: OwnerOk(s, n)
  }

  ghost predicate Inv(s: State) {
    && Linked(s)
    && Locals(s)
    && Owners(s)
    && CountOk(s)
    && OneAcquirer(s)
  }

  // ----- preservation -----

  /** The only thread inside `acquire`. */
  lemma AcquirerIsAlone(s: State, t: nat)
    requires Locals(s) && OneAcquirer(s) && t in s.threads && Acquiring(s.threads[t])
    ensures forall u :: u in s.threads && u != t ==> !Acquiring(s.threads[u])
  {
    assert LocalOk(s, t, s.threads[t]);
    forall u | u in s.threads && u != t ensures !Acquiring(s.threads[u]) {
      assert LocalOk(s, u, s.threads[u]);
    }
  }

  lemma CountingAfter(s: State, s': State, t: nat, l: Local)
    requires t in s.threads && s'.threads == s.threads[t := l]
    ensures |Counting(s')| - |Counting(s)| == (if l.AcqCount? then 1 else 0) - if s.threads[t].AcqCount? then 1 else 0
  {
    var others := set u | u in s.threads && u != t && s.threads[u].AcqCount?;
    assert Counting(s) == if s.threads[t].AcqCount? then others + {t} else others;
    assert Counting(s') == if l.AcqCount? then others + {t} else others;
  }

  lemma UncountingAfter(s: State, s': State, t: nat, l: Local)
    requires t in s.threads && s'.threads == s.threads[t := l]
    ensures |Uncounting(s')| - |Uncounting(s)|
            == (if l.RelUncount? then 1 else 0) - if s.threads[t].RelUncount? then 1 else 0
  {
    var others := set u | u in s.threads && u != t && s.threads[u].RelUncount?;
    assert Uncounting(s) == if s.threads[t].RelUncount? then others + {t} else others;
    assert Uncounting(s') == if l.RelUncount? then others + {t} else others;
  }

  /** How the two correction terms move when thread t moves to l. */
  lemma CountsAfter(s: State, s': State, t: nat, l: Local)
    requires t in s.threads && s'.threads == s.threads[t := l]
    ensures |Counting(s')| - |Counting(s)| == (if l.AcqCount? then 1 else 0) - if s.threads[t].AcqCount? then 1 else 0
    ensures |Uncounting(s')| - |Uncounting(s)|
            == (if l.RelUncount? then 1 else 0) - if s.threads[t].RelUncount? then 1 else 0
  {
    CountingAfter(s, s', t, l);
    UncountingAfter(s, s', t, l);
  }

  lemma SizeAfterAdd(m: map<nat, Ptr>, k: nat, p: Ptr)
    requires k !in m
    ensures |m[k := p]| == |m| + 1
  {
    assert m[k := p].Keys == m.Keys + {k};
  }

  lemma SizeAfterRemove(m: map<nat, Ptr>, k: nat)
    requires k in m
    ensures |m - {k}| == |m| - 1
  {
    assert m.Keys == (m - {k}).Keys + {k};
  }

  /** The list is untouched, and so are its nodes. */
  lemma LinkedFrame(s: State, s': State)
    requires Linked(s) && s'.freeList == s.freeList && s'.list == s.list
    requires forall n :: Owned(s, n, FreeList) && n in s.next ==>
               Owned(s', n, FreeList) && n in s'.next && s'.next[n] == s.next[n]
    ensures Linked(s')
  {
    forall i | 0 <= i < |s'.list| ensures LinkOk(s', i) {
      assert LinkOk(s, i);
    }
  }

  predicate SameCargo(l: Local, m: Local) {
    && (Carries(l) <==> Carries(m)) && (Carries(l) ==> l.node == m.node)
    && l.AcqCount? == m.AcqCount? && l.RelUncount? == m.RelUncount?
  }

  // A step that changes nothing but thread t, which keeps carrying what it carried.

  lemma MoveLocals(s: State, t: nat, l: Local)
    requires Locals(s) && t in s.threads && LocalOk(s, t, l)
    ensures Locals(Set(s, t, l))
  {
    var s' := Set(s, t, l);
    forall u | u in s'.threads ensures LocalOk(s', u, s'.threads[u]) {
      assert u != t ==> LocalOk(s, u, s.threads[u]);
    }
  }

  lemma MoveOwners(s: State, t: nat, l: Local)
    requires Owners(s) && t in s.threads && SameCargo(s.threads[t], l)
    ensures Owners(Set(s, t, l))
  {
    forall n ensures OwnerOk(Set(s, t, l), n) {
      assert OwnerOk(s, n);
    }
  }

  lemma MoveKeepsInv(s: State, t: nat, l: Local)
    requires Inv(s) && t in s.threads && LocalOk(s, t, l) && SameCargo(s.threads[t], l)
    ensures Inv(Set(s, t, l))
  {
    CountsAfter(s, Set(s, t, l), t, l);
    LinkedFrame(s, Set(s, t, l));
    MoveLocals(s, t, l);
    MoveOwners(s, t, l);
  }

  // `popFree` takes the head.

  /** Here the single acquirer matters: what it read is still the head's link. */
  lemma TakeHeadLinked(s: State, t: nat, top: nat)
    requires Linked(s) && s.freeList == At(top) && top in s.next
    ensures s.list != [] && s.list[0] == top && Linked(TakeHead(s, t, top, s.next[top]))
  {
    var s' := TakeHead(s, t, top, s.next[top]);
    assert LinkOk(s, 0);
    forall i | 0 <= i < |s'.list| ensures LinkOk(s', i) {
      assert LinkOk(s, i + 1);
    }
  }

  lemma TakeHeadLocals(s: State, t: nat, top: nat, link: Ptr)
    requires Locals(s) && OneAcquirer(s) && t in s.threads && s.threads[t] == AcqCas(top, link)
    ensures Locals(TakeHead(s, t, top, link))
  {
    var s' := TakeHead(s, t, top, link);
    AcquirerIsAlone(s, t);
    assert LocalOk(s, t, s.threads[t]);
    forall u | u in s'.threads ensures LocalOk(s', u, s'.threads[u]) {
      assert u != t ==> LocalOk(s, u, s.threads[u]);
    }
  }

  lemma TakeHeadOwners(s: State, t: nat, top: nat, link: Ptr)
    requires Owners(s) && t in s.threads && s.threads[t] == AcqCas(top, link) && top in s.next
    requires s.list != [] && s.list[0] == top
    ensures Owners(TakeHead(s, t, top, link))
  {
    forall n ensures OwnerOk(TakeHead(s, t, top, link), n) {
      assert OwnerOk(s, n);
    }
  }

  lemma TakeHeadKeepsInv(s: State, t: nat, top: nat, link: Ptr)
    requires Inv(s) && t in s.threads && s.threads[t] == AcqCas(top, link) && s.freeList == At(top)
    ensures Inv(TakeHead(s, t, top, link))
  {
    assert LocalOk(s, t, s.threads[t]);
    CountsAfter(s, TakeHead(s, t, top, link), t, Idle);
    TakeHeadLinked(s, t, top);
    TakeHeadLocals(s, t, top, link);
    TakeHeadOwners(s, t, top, link);
  }

  // `pushFree` puts its node on top.

  lemma PutHeadLinked(s: State, t: nat, node: nat, seen: Ptr)
    requires Linked(s) && s.freeList == seen && node in s.next && s.next[node] == seen && Owned(s, node, Thread(t))
    ensures Linked(PutHead(s, t, node))
  {
    var s' := PutHead(s, t, node);
    forall i | 0 <= i < |s'.list| ensures LinkOk(s', i) {
      if i > 0 { assert LinkOk(s, i - 1); }
    }
    forall i | 0 <= i < |s.list| ensures s.list[i] != node {
      assert LinkOk(s, i);
    }
  }

  lemma PutHeadLocals(s: State, t: nat, node: nat)
    requires Locals(s) && t in s.threads && node in s.next && Owned(s, node, Thread(t))
    ensures Locals(PutHead(s, t, node))
  {
    var s' := PutHead(s, t, node);
    forall u | u in s'.threads ensures LocalOk(s', u, s'.threads[u]) {
      assert u != t ==> LocalOk(s, u, s.threads[u]);
    }
  }

  lemma PutHeadOwners(s: State, t: nat, node: nat)
    requires Owners(s) && t in s.threads && Carries(s.threads[t]) && s.threads[t].node == node
    requires node in s.next && Owned(s, node, Thread(t))
    ensures Owners(PutHead(s, t, node))
  {
    forall n ensures OwnerOk(PutHead(s, t, node), n) {
      assert OwnerOk(s, n) && OwnerOk(s, node);
    }
  }

  lemma PutHeadKeepsInv(s: State, t: nat, node: nat)
    requires Inv(s) && t in s.threads && s.threads[t] == RelCas(node, s.freeList)
    ensures Inv(PutHead(s, t, node))
  {
    assert LocalOk(s, t, s.threads[t]);
    CountsAfter(s, PutHead(s, t, node), t, Idle);
    PutHeadLinked(s, t, node, s.freeList);
    PutHeadLocals(s, t, node);
    PutHeadOwners(s, t, node);
  }

  // Steps that work on a node outside the list.

  /** Thread t changes the link or the owner of node n only, and n is not on the list. */
  predicate Elsewhere(s: State, s': State, t: nat, n: nat) {
    && s'.freeList == s.freeList && s'.list == s.list && s'.acquirers == s.acquirers
    && t in s.threads && t in s'.threads && s'.threads == s.threads[t := s'.threads[t]]
    && !Owned(s, n, FreeList) && !Owned(s', n, FreeList)
    && (n in s.owner && s.owner[n].Thread? ==> s.owner[n].t == t)
    && s'.next - {n} == s.next - {n} && s'.owner - {n} == s.owner - {n}
  }

  lemma ElsewhereNode(s: State, s': State, t: nat, n: nat, m: nat)
    requires Elsewhere(s, s', t, n) && m != n
    ensures m in s'.next <==> m in s.next
    ensures m in s.next ==> s'.next[m] == s.next[m]
    ensures m in s'.owner <==> m in s.owner
    ensures m in s.owner ==> s'.owner[m] == s.owner[m]
  {
    assert m in s'.next <==> m in s'.next - {n};
    assert m in s.next <==> m in s.next - {n};
    assert m in s'.owner <==> m in s'.owner - {n};
    assert m in s.owner <==> m in s.owner - {n};
    if m in s.next { assert (s'.next - {n})[m] == (s.next - {n})[m]; }
    if m in s.owner { assert (s'.owner - {n})[m] == (s.owner - {n})[m]; }
  }

  lemma ElsewhereLinked(s: State, s': State, t: nat, n: nat)
    requires Linked(s) && Elsewhere(s, s', t, n)
    ensures Linked(s')
  {
    forall i | 0 <= i < |s'.list| ensures LinkOk(s', i) {
      assert LinkOk(s, i);
      ElsewhereNode(s, s', t, n, s.list[i]);
    }
  }

  lemma ElsewhereLocal(s: State, s': State, t: nat, n: nat, u: nat, l: Local)
    requires Elsewhere(s, s', t, n) && u != t && LocalOk(s, u, l)
    requires n !in s.owner || s.owner[n].Thread? || s.owner[n] == Caller
    ensures LocalOk(s', u, l)
  {
    if Carries(l) && l.node != n { ElsewhereNode(s, s', t, n, l.node); }
    if (l.AcqReadNext? || l.AcqCas?) && l.top != n { ElsewhereNode(s, s', t, n, l.top); }
  }

  lemma ElsewhereKeepsInv(s: State, s': State, t: nat, n: nat)
    requires Inv(s) && Elsewhere(s, s', t, n) && CountOk(s')
    requires LocalOk(s', t, s'.threads[t]) && OwnerOk(s', n)
    requires Carries(s.threads[t]) ==> s.threads[t].node == n
    ensures Inv(s')
  {
    ElsewhereLinked(s, s', t, n);
    forall u | u in s'.threads ensures LocalOk(s', u, s'.threads[u]) {
      if u != t { ElsewhereLocal(s, s', t, n, u, s.threads[u]); }
    }
    forall m ensures OwnerOk(s', m) {
      assert OwnerOk(s, m);
      if m != n { ElsewhereNode(s, s', t, n, m); }
    }
  }

  lemma AllocateElsewhere(s: State, t: nat, addr: nat)
    requires t in s.threads && addr !in s.owner && addr !in s.next
    ensures Elsewhere(s, Allocate(s, t, addr), t, addr)
  {
    assert s.next[addr := Null] - {addr} == s.next - {addr};
    assert s.owner[addr := Thread(t)] - {addr} == s.owner - {addr};
  }

  lemma AllocateCount(s: State, t: nat, addr: nat)
    requires CountOk(s) && t in s.threads && s.threads[t] == AcqNew && addr !in s.next
    ensures CountOk(Allocate(s, t, addr))
  {
    CountsAfter(s, Allocate(s, t, addr), t, AcqCount(addr));
    SizeAfterAdd(s.next, addr, Null);
  }

  lemma AllocateKeepsInv(s: State, t: nat, addr: nat)
    requires Inv(s) && t in s.threads && s.threads[t] == AcqNew && addr !in s.next
    ensures Inv(Allocate(s, t, addr))
  {
    assert OwnerOk(s, addr) && LocalOk(s, t, AcqNew);
    AllocateElsewhere(s, t, addr);
    AllocateCount(s, t, addr);
    ElsewhereKeepsInv(s, Allocate(s, t, addr), t, addr);
  }

  lemma HandOutKeepsInv(s: State, t: nat, node: nat)
    requires Inv(s) && t in s.threads && s.threads[t] == AcqCount(node)
    ensures Inv(HandOut(s, t, node))
  {
    var s' := HandOut(s, t, node);
    assert LocalOk(s, t, AcqCount(node));
    CountsAfter(s, s', t, Idle);
    ElsewhereKeepsInv(s, s', t, node);
  }

  lemma DeleteElsewhere(s: State, t: nat, node: nat)
    requires t in s.threads && Owned(s, node, Thread(t))
    ensures Elsewhere(s, Delete(s, t, node), t, node)
  {
    assert (s.next - {node}) - {node} == s.next - {node};
    assert (s.owner - {node}) - {node} == s.owner - {node};
  }

  lemma DeleteCount(s: State, t: nat, node: nat)
    requires CountOk(s) && t in s.threads && s.threads[t] == RelDelete(node) && node in s.next
    ensures CountOk(Delete(s, t, node))
  {
    CountsAfter(s, Delete(s, t, node), t, RelUncount);
    SizeAfterRemove(s.next, node);
  }

  lemma DeleteKeepsInv(s: State, t: nat, node: nat)
    requires Inv(s) && t in s.threads && s.threads[t] == RelDelete(node)
    ensures Inv(Delete(s, t, node))
  {
    assert LocalOk(s, t, RelDelete(node));
    DeleteElsewhere(s, t, node);
    DeleteCount(s, t, node);
    ElsewhereKeepsInv(s, Delete(s, t, node), t, node);
  }

  lemma LinkKeepsInv(s: State, t: nat, node: nat, seen: Ptr)
    requires Inv(s) && t in s.threads && s.threads[t] == RelLink(node, seen)
    ensures Inv(Link(s, t, node, seen))
  {
    var s' := Link(s, t, node, seen);
    assert LocalOk(s, t, RelLink(node, seen)) && OwnerOk(s, node);
    CountsAfter(s, s', t, RelCas(node, seen));
    assert s'.next.Keys == s.next.Keys;
    ElsewhereKeepsInv(s, s', t, node);
  }

  lemma BeginReleaseKeepsInv(s: State, t: nat, node: nat)
    requires Inv(s) && t in s.threads && s.threads[t] == Idle && Owned(s, node, Caller)
    ensures Inv(BeginRelease(s, t, node))
  {
    var s' := BeginRelease(s, t, node);
    assert OwnerOk(s, node);
    CountsAfter(s, s', t, RelCheck(node));
    ElsewhereKeepsInv(s, s', t, node);
  }

  lemma UncountKeepsInv(s: State, t: nat)
    requires Inv(s) && t in s.threads && s.threads[t] == RelUncount
    ensures Inv(Set(s, t, Idle).(nodeCount := s.nodeCount - 1))
  {
    var s' := Set(s, t, Idle).(nodeCount := s.nodeCount - 1);
    CountsAfter(s, s', t, Idle);
    LinkedFrame(s, s');
    MoveLocals(s, t, Idle);
    forall u | u in s'.threads ensures LocalOk(s', u, s'.threads[u]) {
      assert LocalOk(Set(s, t, Idle), u, s'.threads[u]);
    }
    forall n ensures OwnerOk(s', n) {
      assert OwnerOk(s, n);
    }
  }

  /** A non-empty list starts with a live node of the list. */
  lemma LoadedHead(s: State)
    requires Linked(s)
    ensures s.freeList.At? ==> s.freeList.node in s.next && Owned(s, s.freeList.node, FreeList)
  {
    if s.freeList.At? { assert LinkOk(s, 0); }
  }

  lemma AcquireStepKeepsInv(s: State, t: nat, spurious: bool, addr: nat)
    requires Inv(s) && t in s.threads && Acquiring(s.threads[t])
    ensures Inv(Proceed(s, t, s.threads[t], spurious, addr))
  {
    assert LocalOk(s, t, s.threads[t]);
    LoadedHead(s);
    match s.threads[t]
    case AcqLoad => MoveKeepsInv(s, t, AfterLoad(s.freeList));
    case AcqReadNext(top) => MoveKeepsInv(s, t, AcqCas(top, s.next[top]));
    case AcqCas(top, link) =>
      if s.freeList == At(top) && !spurious {
        TakeHeadKeepsInv(s, t, top, link);
      } else {
        MoveKeepsInv(s, t, AfterLoad(s.freeList));
      }
    case AcqNew => if addr !in s.next { AllocateKeepsInv(s, t, addr); }
    case AcqCount(node) => HandOutKeepsInv(s, t, node);
  }

  lemma ReleaseStepKeepsInv(s: State, t: nat, spurious: bool, addr: nat)
    requires Inv(s) && t in s.threads && !Acquiring(s.threads[t])
    ensures Inv(Proceed(s, t, s.threads[t], spurious, addr))
  {
    assert LocalOk(s, t, s.threads[t]);
    match s.threads[t]
    case Idle =>
    case RelCheck(node) =>
      MoveKeepsInv(s, t, if s.maxSize > 0 && s.nodeCount > s.maxSize then RelDelete(node) else RelLoad(node));
    case RelDelete(node) => DeleteKeepsInv(s, t, node);
    case RelUncount => UncountKeepsInv(s, t);
    case RelLoad(node) => MoveKeepsInv(s, t, RelLink(node, s.freeList));
    case RelLink(node, seen) => LinkKeepsInv(s, t, node, seen);
    case RelCas(node, seen) =>
      if s.freeList == seen && !spurious {
        PutHeadKeepsInv(s, t, node);
      } else {
        MoveKeepsInv(s, t, RelLink(node, s.freeList));
      }
  }

  lemma ExecKeepsInv(s: State, a: Action)
    requires Inv(s)
    ensures Inv(Exec(s, a))
  {
    if a.t in s.threads {
      match a
      case Acquire(t) => if s.threads[t] == Idle && t in s.acquirers { MoveKeepsInv(s, t, AcqLoad); }
      case Release(t, node) =>
        if s.threads[t] == Idle && node in s.owner && s.owner[node] == Caller { BeginReleaseKeepsInv(s, t, node); }
      case Step(t, spurious, addr) =>
        if Acquiring(s.threads[t]) {
          AcquireStepKeepsInv(s, t, spurious, addr);
        } else {
          ReleaseStepKeepsInv(s, t, spurious, addr);
        }
    }
  }

  lemma InitInv(n: nat, maxSize: nat, tids: set<nat>, acquirers: set<nat>)
    requires forall a, b :: a in acquirers && b in acquirers && a in tids && b in tids ==> a == b
    ensures Inv(Init(n, maxSize, tids, acquirers))
  {
    var s := Init(n, maxSize, tids, acquirers);
    forall i | 0 <= i < |s.list| ensures LinkOk(s, i) {
    }
    forall m: nat ensures OwnerOk(s, m) {
      if m < n { assert s.list[n - 1 - m] == m; }
    }
    assert Counting(s) == {} && Uncounting(s) == {};
  }

  /** Every reachable state, with one acquiring thread and any number of releasing ones. */
  lemma {:induction false} AfterInv(n: nat, maxSize: nat, tids: set<nat>, acquirers: set<nat>, acts: seq<Action>)
    requires forall a, b :: a in acquirers && b in acquirers && a in tids && b in tids ==> a == b
    ensures Inv(After(n, maxSize, tids, acquirers, acts))
    decreases |acts|
  {
    if acts == [] {
      InitInv(n, maxSize, tids, acquirers);
    } else {
      AfterInv(n, maxSize, tids, acquirers, acts[..|acts| - 1]);
      ExecKeepsInv(After(n, maxSize, tids, acquirers, acts[..|acts| - 1]), acts[|acts| - 1]);
    }
  }
}
