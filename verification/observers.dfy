/** Observer descriptors and the vectors they are kept in (src/eventqueue.h, src/eventqueue.cpp). */
module Observers {
  import opened Sequences

  /** A descriptor; 0 stands for a null callback, instance, method or function object. */
  datatype Descriptor = Descriptor(id: nat, callback: nat, instance: nat, classMethod: nat, func: nat)

  /** What a removal asks for: the two defined `RemoveObserver` overloads and `RemoveObserverById`. */
  datatype Match = ByCallback(callback: nat) | ByMethod(instance: nat, classMethod: nat) | ById(id: nat)

  predicate Matches(d: Descriptor, m: Match) {
    match m
    case ByCallback(c) => d.callback == c
    case ByMethod(i, f) => d.instance == i && d.classMethod == f
    case ById(id) => d.id == id
  }

  /** The removal loop on one topic's vector: all matches, or the first one for an id. */
  function Erase(ds: seq<Descriptor>, m: Match): seq<Descriptor> {
    if ds == [] then []
    else if !Matches(ds[0], m) then [ds[0]] + Erase(ds[1..], m)
    else if m.ById? then ds[1..]
    else Erase(ds[1..], m)
  }

  function Ids(ds: seq<Descriptor>): set<nat> {
    set i | 0 <= i < |ds| :: ds[i].id
  }

  predicate DistinctIds(ds: seq<Descriptor>) {
    forall i, j | 0 <= i < j < |ds| :: ds[i].id != ds[j].id
  }

  /** The removal loop keeps exactly the descriptors that do not match, in their order;
      this is where an id removal relies on ids being unique. */
  lemma {:induction false} EraseKeepsTheRest(ds: seq<Descriptor>, m: Match)
    requires DistinctIds(ds)
    ensures DistinctIds(Erase(ds, m))
    ensures forall d :: d in Erase(ds, m) <==> d in ds && !Matches(d, m)
    ensures forall id :: id in Ids(Erase(ds, m)) <==>
              id in Ids(ds) && !(exists d :: d in ds && d.id == id && Matches(d, m))
  {
    if ds != [] {
      var rest := ds[1..];
      assert DistinctIds(rest) by {
        forall i, j | 0 <= i < j < |rest| ensures rest[i].id != rest[j].id {
          assert rest[i] == ds[i + 1] && rest[j] == ds[j + 1];
        }
      }
      EraseKeepsTheRest(rest, m);
      assert forall d :: d in ds <==> d == ds[0] || d in rest;
      forall d | d in rest ensures d.id != ds[0].id {
        var i :| 0 <= i < |rest| && rest[i] == d;
        assert ds[i + 1] == d;
      }
      var e := Erase(ds, m);
      if !Matches(ds[0], m) {
        assert forall d :: d in e <==> d == ds[0] || d in Erase(rest, m);
        forall i, j | 0 <= i < j < |e| ensures e[i].id != e[j].id {
          assert e[j] in Erase(rest, m);
        }
      }
    }
    IdsMembers(ds);
    IdsMembers(Erase(ds, m));
    DistinctLookup(ds);
  }

  lemma IdsMembers(ds: seq<Descriptor>)
    ensures forall id :: id in Ids(ds) <==> exists d :: d in ds && d.id == id
  {
    forall id ensures id in Ids(ds) <==> exists d :: d in ds && d.id == id {
      if id in Ids(ds) {
        var i :| 0 <= i < |ds| && ds[i].id == id;
        assert ds[i] in ds;
      }
    }
  }

  lemma DistinctLookup(ds: seq<Descriptor>)
    requires DistinctIds(ds)
    ensures forall c, d | c in ds && d in ds && c.id == d.id :: c == d
  {
  }

  /** Field by field: what stays is, in the old order, every descriptor with another callback,
      with another instance or another method, or with another id. */
  lemma {:induction false} EraseByFields(ds: seq<Descriptor>, m: Match)
    requires DistinctIds(ds)
    ensures m.ByCallback? ==> Erase(ds, m) == Filter(ds, (d: Descriptor) => d.callback != m.callback)
    ensures m.ByMethod? ==>
              Erase(ds, m) == Filter(ds, (d: Descriptor) => d.instance != m.instance || d.classMethod != m.classMethod)
    ensures m.ById? ==> Erase(ds, m) == Filter(ds, (d: Descriptor) => d.id != m.id)
  {
    EraseIsFilter(ds, m);
    var keep := d => !Matches(d, m);
    if m.ByCallback? {
      FilterSame(ds, keep, (d: Descriptor) => d.callback != m.callback);
    } else if m.ByMethod? {
      FilterSame(ds, keep, (d: Descriptor) => d.instance != m.instance || d.classMethod != m.classMethod);
    } else {
      FilterSame(ds, keep, (d: Descriptor) => d.id != m.id);
    }
  }

  lemma {:induction false} EraseIsFilter(ds: seq<Descriptor>, m: Match)
    requires DistinctIds(ds)
    ensures Erase(ds, m) == Filter(ds, d => !Matches(d, m))
  {
    if ds != [] {
      var first, rest := [ds[0]], ds[1..];
      assert ds == first + rest;
      assert first[..0] == [];
      FilterAppend(first, rest, d => !Matches(d, m));
      if Matches(ds[0], m) && m.ById? {
        FilterAll(rest, d => !Matches(d, m));
      } else {
        EraseIsFilter(rest, m);
      }
    }
  }

  /** Order: what is kept is a subsequence, so handlers keep their registration order. */
  lemma {:induction false} EraseKeepsOrder(ds: seq<Descriptor>, m: Match, i: nat, j: nat) returns (k: nat, l: nat)
    requires i < j < |Erase(ds, m)|
    ensures k < l < |ds| && ds[k] == Erase(ds, m)[i] && ds[l] == Erase(ds, m)[j]
  {
    if Matches(ds[0], m) {
      if m.ById? {
        k, l := i + 1, j + 1;
      } else {
        k, l := EraseKeepsOrder(ds[1..], m, i, j);
        k, l := k + 1, l + 1;
      }
    } else if i > 0 {
      k, l := EraseKeepsOrder(ds[1..], m, i - 1, j - 1);
      k, l := k + 1, l + 1;
    } else {
      k := 0;
      l := EraseKeepsOne(ds[1..], m, j - 1);
      l := l + 1;
    }
  }

  lemma {:induction false} EraseKeepsOne(ds: seq<Descriptor>, m: Match, j: nat) returns (l: nat)
    requires j < |Erase(ds, m)|
    ensures l < |ds| && ds[l] == Erase(ds, m)[j]
  {
    if Matches(ds[0], m) {
      if m.ById? {
        l := j + 1;
      } else {
        l := EraseKeepsOne(ds[1..], m, j);
        l := l + 1;
      }
    } else if j > 0 {
      l := EraseKeepsOne(ds[1..], m, j - 1);
      l := l + 1;
    } else {
      l := 0;
    }
  }
}
