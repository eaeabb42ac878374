/** Bit masks over natural numbers, as the ring uses them to turn a position
    into a slot index (src/mpmc_queue.h). */
module Bits {

  /** `a & b` for unsigned integers of any width. */
  function BitAnd(a: nat, b: nat): (r: nat)
    ensures r <= a && r <= b
  {
    if a == 0 || b == 0 then 0
    else (if a % 2 == 1 && b % 2 == 1 then 1 else 0) + 2 * BitAnd(a / 2, b / 2)
  }

  predicate IsPowerOfTwo(c: nat) {
    if c <= 1 then c == 1 else c % 2 == 0 && IsPowerOfTwo(c / 2)
  }

  /** The compile-time test `(c & (c - 1)) == 0` accepts exactly the powers of two. */
  lemma {:induction false} PowerOfTwoTest(c: nat)
    requires c > 0
    ensures BitAnd(c, c - 1) == 0 <==> IsPowerOfTwo(c)
  {
    if c > 1 {
      if c % 2 == 0 {
        assert (c - 1) / 2 == c / 2 - 1;
        PowerOfTwoTest(c / 2);
      } else {
        assert (c - 1) / 2 == c / 2;
        AndSelf(c / 2);
      }
    }
  }

  lemma {:induction false} AndSelf(a: nat)
    ensures BitAnd(a, a) == a
  {
    if a > 0 {
      AndSelf(a / 2);
    }
  }

  /** The slot index of a ring position. */
  function Slot(p: nat, c: nat): (i: nat)
    requires c > 0
    ensures i < c
  {
    BitAnd(p, c - 1)
  }

  lemma {:induction false} SlotPeriodic(p: nat, c: nat)
    requires IsPowerOfTwo(c)
    ensures Slot(p + c, c) == Slot(p, c)
  {
    if c > 1 {
      var h := c / 2;
      assert (p + c) / 2 == p / 2 + h && (c - 1) / 2 == h - 1;
      SlotPeriodic(p / 2, h);
    }
  }

  /** Positions less than one lap apart have different slots. */
  lemma {:induction false} SlotInjective(p: nat, q: nat, c: nat)
    requires IsPowerOfTwo(c)
    requires p < q < p + c
    ensures Slot(p, c) != Slot(q, c)
  {
    if p % 2 == q % 2 {
      assert (c - 1) / 2 == c / 2 - 1;
      SlotInjective(p / 2, q / 2, c / 2);
    }
  }

  /** A position behind the lap starting at `lo` shares its slot with a position
      of that lap that is at least one whole lap further on. */
  lemma {:induction false} LapRepresentative(p: nat, lo: nat, c: nat) returns (r: nat)
    requires IsPowerOfTwo(c)
    requires p < lo
    ensures lo <= r < lo + c
    ensures Slot(r, c) == Slot(p, c)
    ensures p + c <= r
    decreases lo - p
  {
    SlotPeriodic(p, c);
    if lo <= p + c {
      r := p + c;
    } else {
      r := LapRepresentative(p + c, lo, c);
    }
  }

  /** The positions of the first lap are their own slots. */
  lemma {:induction false} SlotOfFirstLap(p: nat, c: nat)
    requires IsPowerOfTwo(c) && p < c
    ensures Slot(p, c) == p
  {
    if c > 1 && p > 0 {
      assert (c - 1) / 2 == c / 2 - 1;
      SlotOfFirstLap(p / 2, c / 2);
    }
  }

  /** Masking with `c - 1` is the remainder modulo `c` when `c` is a power of two. */
  lemma {:induction false} MaskIsRemainder(p: nat, c: nat)
    requires IsPowerOfTwo(c)
    ensures Slot(p, c) == p % c
  {
    if p < c {
      SlotOfFirstLap(p, c);
      RemainderOfSmall(p, c);
    } else {
      MaskIsRemainder(p - c, c);
      SlotPeriodic(p - c, c);
      RemainderStep(p, c);
    }
  }

  lemma RemainderStep(p: nat, c: nat)
    requires 0 < c <= p
    ensures p % c == (p - c) % c
  {
    var d := p / c - (p - c) / c;
    assert p == (p / c) * c + p % c && p - c == ((p - c) / c) * c + (p - c) % c;
    assert d * c == c + (p - c) % c - p % c;
    assert 0 < d * c < 2 * c;
    assert d <= 0 ==> d * c <= 0;
    assert d >= 2 ==> d * c >= 2 * c;
  }

  lemma RemainderOfSmall(p: nat, c: nat)
    requires p < c
    ensures p % c == p
  {
  }
}
