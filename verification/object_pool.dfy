/** `ObjectPoolLockFree` (src/objectpool_lockfree.h) as the object a single caller uses: a
    stack of nodes linked through `next`; and `RefCountedPayload` (src/payload_refcounted.h).
    Module Pool has the interleavings. */
module ObjectPoolClass {

  class Node<T(0)> {
    var data: T
    var next: Node?<T>

    constructor ()
      ensures next == null
    {
      next := null;
    }
  }

  class ObjectPool<T(0)> {
    var freeList: Node?<T>
    var total: nat
    const maxSize: nat
    /** The free nodes, top first, and the nodes handed out. */
    ghost var spine: seq<Node<T>>
    ghost var held: set<Node<T>>

    ghost function Link(i: nat): Node?<T>
      reads this
    {
      if i < |spine| then spine[i] else null
    }

    /** The links spell out the spine, no node is on it twice or handed out as well, and
        `m_allocated` counts free and held nodes. */
    ghost predicate Valid()
      reads this, spine
    {
      && freeList == Link(0)
      && (forall i, j :: 0 <= i < j < |spine| ==> spine[i] != spine[j])
      && (forall i :: 0 <= i < |spine| ==> spine[i].next == Link(i + 1) && spine[i] !in held)
      && total == |spine| + |held|
    }

    constructor (initialSize: nat, maxSize: nat)
      ensures Valid() && this.maxSize == maxSize
      ensures |spine| == total == initialSize && held == {} && forall i :: 0 <= i < |spine| ==> fresh(spine[i])
    {
      freeList, total, spine, held := null, 0, [], {};
      this.maxSize := maxSize;
      new;
      for i := 0 to initialSize
        invariant Valid() && |spine| == i && held == {}
        invariant forall k :: 0 <= k < |spine| ==> fresh(spine[k])
      {
        var node := new Node<T>();
        total, held := total + 1, held + {node};
        PushFree(node);
      }
    }

    /** The compare-exchange retry loop; `spurious` failures change nothing. */
    method PushFree(node: Node<T>)
      requires Valid() && node in held
      modifies this`freeList, this`spine, this`held, node`next
      ensures Valid() && spine == [node] + old(spine) && held == old(held) - {node}
    {
      HeldIsOffList(node);
      var spurious: nat := *;
      var oldHead := freeList;
      node.next := oldHead;
      while spurious > 0
        modifies node`next
        invariant node.next == oldHead == freeList
        decreases spurious
      {
        spurious, oldHead := spurious - 1, freeList;
        node.next := oldHead;
      }
      freeList := node;
      spine, held := [node] + spine, held - {node};
      forall i | 0 <= i < |spine| ensures spine[i].next == Link(i + 1) && spine[i] !in held {
        if i > 0 { assert spine[i] == old(spine)[i - 1] && spine[i].next == old(Link(i)); }
      }
    }

    /** The top node, or null when there is none. */
    method PopFree() returns (node: Node?<T>)
      requires Valid()
      modifies this`freeList, this`spine, this`held
      ensures Valid()
      ensures node == null <==> old(spine) == []
      ensures node == null ==> spine == [] && held == old(held)
      ensures node != null ==> node == old(spine)[0] && spine == old(spine)[1..] && held == old(held) + {node}
    {
      var spurious: nat := *;
      node := freeList;
      while node != null
        invariant node == freeList && Valid() && spine == old(spine) && held == old(held)
        decreases spurious
      {
        var newHead := node.next;
        if spurious == 0 {
          freeList := newHead;
          assert node == spine[0];
          spine, held := spine[1..], held + {node};
          return;
        }
        spurious, node := spurious - 1, freeList;
      }
    }

    lemma HeldIsOffList(node: Node<T>)
      requires Valid() && node in held
      ensures node !in spine
    {
    }

    /** The node released last, or a new one: never a node that somebody holds. */
    method Acquire() returns (node: Node<T>)
      requires Valid()
      modifies this`freeList, this`total, this`spine, this`held
      ensures Valid() && node !in old(held) && held == old(held) + {node} && node !in spine
      ensures old(spine) != [] ==> node == old(spine)[0] && spine == old(spine)[1..] && total == old(total)
      ensures old(spine) == [] ==> fresh(node) && spine == [] && total == old(total) + 1
    {
      var free := PopFree();
      if free != null {
        return free;
      }
      node := new Node<T>();
      total, held := total + 1, held + {node};
    }

    /** Back on the list, or deleted while more than `maxSize` nodes are allocated. */
    method Release(node: Node?<T>)
      requires Valid() && (node != null ==> node in held)
      modifies this`freeList, this`total, this`spine, this`held, if node == null then {} else {node}
      ensures Valid()
      ensures node == null ==> spine == old(spine) && held == old(held) && total == old(total)
      ensures node != null ==> held == old(held) - {node}
      ensures node != null && maxSize > 0 && old(total) > maxSize ==> spine == old(spine) && total == old(total) - 1
      ensures node != null && !(maxSize > 0 && old(total) > maxSize) ==>
                spine == [node] + old(spine) && total == old(total)
    {
      if node == null { return; }
      HeldIsOffList(node);
      if maxSize > 0 && total > maxSize {
        total, held := total - 1, held - {node};
      } else {
        PushFree(node);
      }
    }
  }

  /** A payload shared by the observers of one message. */
  class Payload {
    var refCount: int
    const data: seq<nat>
    /** Not deleted yet. */
    ghost var alive: bool

    constructor (data: seq<nat>)
      ensures alive && refCount == 1 && this.data == data
    {
      refCount, alive := 1, true;
      this.data := data;
    }

    method AddRefs(count: int)
      requires alive
      modifies this`refCount
      ensures refCount == old(refCount) + count
    {
      refCount := refCount + count;
    }

    /** Deletes the payload when the last reference goes. */
    method Release() returns (deleted: bool)
      requires alive
      modifies this
      ensures refCount == old(refCount) - 1 && (deleted <==> old(refCount) == 1) && (alive <==> !deleted)
    {
      refCount := refCount - 1;
      deleted := refCount == 0;
      if deleted {
        alive := false;
      }
    }
  }

  /** Create for `count` observers: one reference each. */
  method CreateFor(data: seq<nat>, count: nat) returns (p: Payload)
    requires count > 0
    ensures fresh(p) && p.alive && p.refCount == count && p.data == data
  {
    p := new Payload(data);
    if count > 1 {
      p.AddRefs(count - 1);
    }
  }
}
