/** Facts about numbers and sequences used by several modules. */
module Sequences {

  function Min(a: nat, b: nat): (m: nat)
    ensures m <= a && m <= b
  {
    if a <= b then a else b
  }

  lemma Associative<T>(a: seq<T>, b: seq<T>, c: seq<T>)
    ensures (a + b) + c == a + (b + c)
  {
  }

  /** The first n items have been taken out. */
  ghost predicate DrainedTo<T>(was: seq<T>, rest: seq<T>, n: nat) {
    n <= |was| && rest == was[n..]
  }

  /** The items that are to be kept, in their order. */
  function Filter<T>(xs: seq<T>, keep: T -> bool): (ys: seq<T>)
    ensures |ys| <= |xs|
    decreases |xs|
  {
    if xs == [] then []
    else Filter(xs[..|xs| - 1], keep) + if keep(xs[|xs| - 1]) then [xs[|xs| - 1]] else []
  }

  /** Exactly the kept items are there, as often as before. */
  lemma {:induction false} FilterKeeps<T>(xs: seq<T>, keep: T -> bool)
    ensures forall x :: x in Filter(xs, keep) <==> x in xs && keep(x)
    ensures forall x :: multiset(Filter(xs, keep))[x] == if keep(x) then multiset(xs)[x] else 0
    decreases |xs|
  {
    if xs != [] {
      var n := |xs| - 1;
      FilterKeeps(xs[..n], keep);
      assert xs == xs[..n] + [xs[n]];
    }
  }

  /** In their order: what is kept is found at rising positions. */
  lemma {:induction false} FilterOrder<T>(xs: seq<T>, keep: T -> bool) returns (at: seq<nat>)
    ensures |at| == |Filter(xs, keep)|
    ensures forall i :: 0 <= i < |at| ==> at[i] < |xs| && xs[at[i]] == Filter(xs, keep)[i]
    ensures forall i, j :: 0 <= i < j < |at| ==> at[i] < at[j]
    decreases |xs|
  {
    if xs == [] {
      at := [];
    } else {
      var n := |xs| - 1;
      at := FilterOrder(xs[..n], keep);
      if keep(xs[n]) { at := at + [n]; }
    }
  }

  lemma {:induction false} FilterAppend<T>(xs: seq<T>, ys: seq<T>, keep: T -> bool)
    ensures Filter(xs + ys, keep) == Filter(xs, keep) + Filter(ys, keep)
    decreases |ys|
  {
    if ys == [] {
      assert xs + ys == xs;
    } else {
      var n := |ys| - 1;
      assert (xs + ys)[..|xs| + n] == xs + ys[..n];
      FilterAppend(xs, ys[..n], keep);
    }
  }

  lemma FilterNext<T>(xs: seq<T>, x: T, keep: T -> bool)
    ensures Filter(xs + [x], keep) == Filter(xs, keep) + if keep(x) then [x] else []
  {
    assert (xs + [x])[..|xs|] == xs;
  }

  lemma {:induction false} FilterSame<T>(xs: seq<T>, keep: T -> bool, hold: T -> bool)
    requires forall x :: x in xs ==> keep(x) == hold(x)
    ensures Filter(xs, keep) == Filter(xs, hold)
    decreases |xs|
  {
    if xs != [] { FilterSame(xs[..|xs| - 1], keep, hold); }
  }

  lemma {:induction false} FilterAll<T>(xs: seq<T>, keep: T -> bool)
    requires forall x :: x in xs ==> keep(x)
    ensures Filter(xs, keep) == xs
    decreases |xs|
  {
    if xs != [] { FilterAll(xs[..|xs| - 1], keep); }
  }
}
