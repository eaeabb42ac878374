/** The ring on 64-bit words: `size_t` positions that wrap around, compared through
    the sign of their two's-complement difference (src/mpmc_queue.h). */
module RingWord {
  import opened Bits
  import opened Ring

  const WORD: nat := 0x1_0000_0000_0000_0000
  const HALF: int := 0x8000_0000_0000_0000

  /** `static_cast<intptr_t>(a) - static_cast<intptr_t>(b)`, as a wrapping subtraction. */
  function SignedDiff(a: nat, b: nat): int
    requires a < WORD && b < WORD
  {
    var d := (a - b) % WORD;
    if d < HALF then d else d - WORD
  }

  function Inc(a: nat, n: nat): nat {
    (a + n) % WORD
  }

  /** The memory and the threads as the machine has them: every number is a word. */
  datatype Machine<T> = Machine(
    cap: nat, seqs: seq<nat>, data: seq<T>, head: nat, tail: nat, threads: map<nat, Local<T>>)

  const NO_RETRY := Retry(0, 0, 0)

  predicate LocalIsWord<T>(l: Local<T>) {
    match l
    case Idle(Sized(n)) => n < WORD
    case Idle(_) => true
    case PushLoadTail(_) => true
    case PopLoadHead => true
    case SizeLoadTail => true
    case SizeLoadHead(n) => n < WORD
    case _ => l.pos < WORD
  }

  predicate IsMachine<T>(m: Machine<T>) {
    && m.cap > 0 && |m.seqs| == m.cap && |m.data| == m.cap
    && m.head < WORD && m.tail < WORD
    && (forall i :: 0 <= i < m.cap ==> m.seqs[i] < WORD)
    && (forall t :: t in m.threads ==> LocalIsWord(m.threads[t]))
  }

  function SetM<T>(m: Machine<T>, t: nat, l: Local<T>): Machine<T> {
    m.(threads := m.threads[t := l])
  }

  function MachinePush<T>(m: Machine<T>, t: nat, l: Local<T>, spurious: bool): (r: Machine<T>)
    requires IsMachine(m) && LocalIsWord(l)
    ensures IsMachine(r)
  {
    match l
    case PushLoadTail(x) => SetM(m, t, PushLoadSeq(x, m.tail, NO_RETRY))
    case PushLoadSeq(x, p, _) =>
      var diff := SignedDiff(m.seqs[Slot(p, m.cap)], p);
      if diff == 0 then SetM(m, t, PushCas(x, p, NO_RETRY))
      else if diff < 0 then SetM(m, t, Idle(Pushed(false)))
      else SetM(m, t, PushReload(x, p, NO_RETRY))
    case PushCas(x, p, _) =>
      if m.tail == p && !spurious then SetM(m, t, PushWrite(x, p)).(tail := Inc(p, 1))
      else SetM(m, t, PushLoadSeq(x, m.tail, NO_RETRY))
    case PushReload(x, p, _) => SetM(m, t, PushLoadSeq(x, m.tail, NO_RETRY))
    case PushWrite(x, p) => SetM(m, t, PushPublish(x, p)).(data := m.data[Slot(p, m.cap) := x])
    case PushPublish(x, p) => SetM(m, t, Idle(Pushed(true))).(seqs := m.seqs[Slot(p, m.cap) := Inc(p, 1)])
    case _ => m
  }

  function MachinePop<T>(m: Machine<T>, t: nat, l: Local<T>, spurious: bool): (r: Machine<T>)
    requires IsMachine(m) && LocalIsWord(l)
    ensures IsMachine(r)
  {
    match l
    case PopLoadHead => SetM(m, t, PopLoadSeq(m.head, NO_RETRY))
    case PopLoadSeq(p, _) =>
      var diff := SignedDiff(m.seqs[Slot(p, m.cap)], Inc(p, 1));
      if diff == 0 then SetM(m, t, PopCas(p, NO_RETRY))
      else if diff < 0 then SetM(m, t, Idle(Popped(None)))
      else SetM(m, t, PopReload(p, NO_RETRY))
    case PopCas(p, _) =>
      if m.head == p && !spurious then SetM(m, t, PopRead(p)).(head := Inc(p, 1))
      else SetM(m, t, PopLoadSeq(m.head, NO_RETRY))
    case PopReload(p, _) => SetM(m, t, PopLoadSeq(m.head, NO_RETRY))
    case PopRead(p) => SetM(m, t, PopRelease(p, m.data[Slot(p, m.cap)]))
    case PopRelease(p, v) =>
      SetM(m, t, Idle(Popped(Some(v)))).(seqs := m.seqs[Slot(p, m.cap) := Inc(p, m.cap)])
    case _ => m
  }

  function MachineSize<T>(m: Machine<T>, t: nat, l: Local<T>): (r: Machine<T>)
    requires IsMachine(m) && LocalIsWord(l)
    ensures IsMachine(r)
  {
    match l
    case SizeLoadTail => SetM(m, t, SizeLoadHead(m.tail))
    case SizeLoadHead(n) => SetM(m, t, Idle(Sized(if n >= m.head then n - m.head else 0)))
    case _ => m
  }

  function MachineExec<T>(m: Machine<T>, a: Action<T>): (r: Machine<T>)
    requires IsMachine(m)
    ensures IsMachine(r)
  {
    if a.t !in m.threads then m else
    var l := m.threads[a.t];
    match a
    case Start(t, call) => if l.Idle? then SetM(m, t, Enter(call)) else m
    case Step(t, spurious) =>
      if Pushing(l) then MachinePush(m, t, l, spurious)
      else if Popping(l) then MachinePop(m, t, l, spurious)
      else MachineSize(m, t, l)
  }

  // ----- the unbounded ring, seen through words -----

  function WrapLocal<T>(l: Local<T>): (w: Local<T>)
    ensures LocalIsWord(w)
  {
    match l
    case Idle(Sized(n)) => Idle(Sized(n % WORD))
    case PushLoadSeq(x, p, _) => PushLoadSeq(x, p % WORD, NO_RETRY)
    case PushCas(x, p, _) => PushCas(x, p % WORD, NO_RETRY)
    case PushReload(x, p, _) => PushReload(x, p % WORD, NO_RETRY)
    case PushWrite(x, p) => PushWrite(x, p % WORD)
    case PushPublish(x, p) => PushPublish(x, p % WORD)
    case PopLoadSeq(p, _) => PopLoadSeq(p % WORD, NO_RETRY)
    case PopCas(p, _) => PopCas(p % WORD, NO_RETRY)
    case PopReload(p, _) => PopReload(p % WORD, NO_RETRY)
    case PopRead(p) => PopRead(p % WORD)
    case PopRelease(p, v) => PopRelease(p % WORD, v)
    case SizeLoadHead(n) => SizeLoadHead(n % WORD)
    case _ => l
  }

  function Wrap<T>(s: State<T>): (m: Machine<T>)
    requires Shape(s)
    ensures IsMachine(m)
  {
    Machine(
      s.cap, seq(|s.seqs|, i requires 0 <= i < |s.seqs| => s.seqs[i] % WORD), s.data,
      s.head % WORD, s.tail % WORD, map t | t in s.threads :: WrapLocal(s.threads[t]))
  }

  // ----- arithmetic -----

  /** The sign test is exact for true differences that fit a signed word. */
  lemma SignedDiffIsExactIff(a: nat, b: nat)
    ensures SignedDiff(a % WORD, b % WORD) == a - b <==> -HALF <= a - b < HALF
  {
  }

  lemma WrappedDifference(q: int, p: int)
    ensures (q % WORD - p % WORD) % WORD == (q - p) % WORD
  {
    var x, y, k := q % WORD, p % WORD, q / WORD - p / WORD;
    assert q - p == k * WORD + (x - y);
    if x >= y {
      UniqueRemainder(q - p, k, x - y);
    } else {
      UniqueRemainder(q - p, k - 1, x - y + WORD);
      UniqueRemainder(x - y, -1, x - y + WORD);
    }
  }

  lemma UniqueRemainder(a: int, k: int, r: int)
    requires a == k * WORD + r && 0 <= r < WORD
    ensures a % WORD == r
  {
    assert a == (a / WORD) * WORD + a % WORD;
  }

  lemma {:induction false} SlotIgnoresHighBits(p: nat, w: nat, c: nat)
    requires IsPowerOfTwo(c) && IsPowerOfTwo(w) && c <= w
    ensures Slot(p + w, c) == Slot(p, c)
  {
    if c > 1 {
      assert (c - 1) / 2 == c / 2 - 1 && (p + w) / 2 == p / 2 + w / 2;
      SlotIgnoresHighBits(p / 2, w / 2, c / 2);
    }
  }

  lemma DoubleIsPowerOfTwo(c: nat)
    requires IsPowerOfTwo(c)
    ensures IsPowerOfTwo(2 * c)
  {
  }

  lemma ByteIsPowerOfTwo(c: nat)
    requires IsPowerOfTwo(c)
    ensures IsPowerOfTwo(256 * c)
  {
    DoubleIsPowerOfTwo(c);
    DoubleIsPowerOfTwo(2 * c);
    DoubleIsPowerOfTwo(4 * c);
    DoubleIsPowerOfTwo(8 * c);
    DoubleIsPowerOfTwo(16 * c);
    DoubleIsPowerOfTwo(32 * c);
    DoubleIsPowerOfTwo(64 * c);
    DoubleIsPowerOfTwo(128 * c);
  }

  lemma WordIsPowerOfTwo()
    ensures IsPowerOfTwo(WORD)
  {
    ByteIsPowerOfTwo(0x1);
    ByteIsPowerOfTwo(0x100);
    ByteIsPowerOfTwo(0x1_0000);
    ByteIsPowerOfTwo(0x100_0000);
    ByteIsPowerOfTwo(0x1_0000_0000);
    ByteIsPowerOfTwo(0x100_0000_0000);
    ByteIsPowerOfTwo(0x1_0000_0000_0000);
    ByteIsPowerOfTwo(0x100_0000_0000_0000);
  }

  /** `pos & MASK` on the wrapped word is the true position modulo the capacity. */
  lemma {:induction false} MaskOfWord(p: nat, c: nat)
    requires IsPowerOfTwo(c) && c <= WORD
    ensures Slot(p % WORD, c) == Slot(p, c) == p % c
  {
    MaskIsRemainder(p, c);
    WrappedSlot(p, c);
  }

  lemma SlotPlusWord(p: nat, c: nat)
    requires IsPowerOfTwo(c) && c <= WORD
    ensures Slot(p + WORD, c) == Slot(p, c)
  {
    WordIsPowerOfTwo();
    SlotIgnoresHighBits(p, WORD, c);
  }

  lemma {:induction false} WrappedSlot(p: nat, c: nat)
    requires IsPowerOfTwo(c) && c <= WORD
    ensures Slot(p % WORD, c) == Slot(p, c)
  {
    if p >= WORD {
      WrappedSlot(p - WORD, c);
      SlotPlusWord(p - WORD, c);
      UniqueRemainder(p, (p - WORD) / WORD + 1, (p - WORD) % WORD);
    }
  }

  // ----- refinement -----

  /** The machine takes the branch of the unbounded ring at this step. At a sequence
      load: the sign test is right. At a compare-exchange: equal words are equal
      positions. In `size_approx`: the two loads lie in the same wrap-around epoch,
      or the head has overtaken without its word dropping below. */
  predicate Faithful<T>(s: State<T>, t: nat, spurious: bool)
    requires Shape(s) && t in s.threads
  {
    match s.threads[t]
    case PushLoadSeq(_, p, _) =>
      var q := s.seqs[Slot(p, s.cap)];
      q <= p || 0 < (q - p) % WORD < HALF
    case PopLoadSeq(p, _) =>
      var q := s.seqs[Slot(p, s.cap)];
      q <= p + 1 || 0 < (q - (p + 1)) % WORD < HALF
    case PushCas(_, p, _) => spurious || p == s.tail || (s.tail - p) % WORD != 0
    case PopCas(p, _) => spurious || p == s.head || (s.head - p) % WORD != 0
    case SizeLoadHead(n) => if n >= s.head then n / WORD == s.head / WORD else n % WORD <= s.head % WORD
    case _ => true
  }

  /** How far below its position a sequence number can be. */
  lemma SequenceRange<T>(s: State<T>, p: nat)
    requires Inv(s) && p <= s.tail
    ensures p - s.cap <= s.seqs[Slot(p, s.cap)] <= s.head + s.cap
  {
    if p < s.head {
      var r := LapRepresentative(p, s.head, s.cap);
      assert SlotOk(s, r);
    } else if p == s.head + s.cap {
      SlotPeriodic(s.head, s.cap);
      assert SlotOk(s, s.head);
    } else {
      assert SlotOk(s, p);
    }
  }

  lemma WrapSet<T>(s: State<T>, t: nat, l: Local<T>)
    requires Shape(s) && t in s.threads
    ensures Wrap(Set(s, t, l)) == SetM(Wrap(s), t, WrapLocal(l))
  {
    assert Wrap(Set(s, t, l)).threads == Wrap(s).threads[t := WrapLocal(l)];
  }

  /** The word comparison takes the branch of the true comparison. */
  predicate SameBranch(q: nat, p: nat) {
    var d := SignedDiff(q % WORD, p % WORD);
    (d == 0 <==> q == p) && (d < 0 <==> q < p)
  }

  lemma SameBranchIff(q: nat, p: nat)
    requires p - HALF <= q
    ensures SameBranch(q, p) <==> q <= p || 0 < (q - p) % WORD < HALF
  {
    var d := SignedDiff(q % WORD, p % WORD);
    WrappedDifference(q, p);
    if q < p {
      UniqueRemainder(q - p, -1, q - p + WORD);
      assert d == q - p;
    } else if q == p {
      assert d == 0;
    } else {
      assert d == if (q - p) % WORD < HALF then (q - p) % WORD else (q - p) % WORD - WORD;
    }
  }

  lemma WrapSeq<T>(s: State<T>, i: nat)
    requires Shape(s) && i < s.cap
    ensures Wrap(s).seqs[i] == s.seqs[i] % WORD
  {
  }

  /** Whether two ways to move thread t agree depends on where they put it. */
  lemma WrapSetIff<T>(s: State<T>, t: nat, l: Local<T>, w: Local<T>)
    requires Shape(s) && t in s.threads
    ensures Wrap(Set(s, t, l)) == SetM(Wrap(s), t, w) <==> WrapLocal(l) == w
  {
    WrapSet(s, t, l);
    assert SetM(Wrap(s), t, w).threads[t] == w;
    assert SetM(Wrap(s), t, WrapLocal(l)).threads[t] == WrapLocal(l);
  }

  lemma PushLoadCommutesIff<T>(s: State<T>, t: nat, x: T, p: nat, r: Retry)
    requires Shape(s) && IsPowerOfTwo(s.cap) && s.cap <= HALF
    requires t in s.threads && s.threads[t] == PushLoadSeq(x, p, r)
    requires p - s.cap <= s.seqs[Slot(p, s.cap)]
    ensures Wrap(PushStep(s, t, s.threads[t], false)) == MachinePush(Wrap(s), t, WrapLocal(s.threads[t]), false)
            <==> Faithful(s, t, false)
  {
    var q := s.seqs[Slot(p, s.cap)];
    WrappedSlot(p, s.cap);
    WrapSeq(s, Slot(p, s.cap));
    SameBranchIff(q, p);
    var d := SignedDiff(q % WORD, p % WORD);
    var l' := if q == p then PushCas(x, p, r) else if q < p then Idle(Pushed(false)) else PushReload(x, p, r);
    var w := p % WORD;
    var w' := if d == 0 then PushCas(x, w, NO_RETRY)
              else if d < 0 then Idle(Pushed(false)) else PushReload(x, w, NO_RETRY);
    assert PushStep(s, t, s.threads[t], false) == Set(s, t, l');
    assert MachinePush(Wrap(s), t, WrapLocal(s.threads[t]), false) == SetM(Wrap(s), t, w');
    WrapSetIff(s, t, l', w');
  }

  lemma IncOfWord(p: nat, n: nat)
    ensures Inc(p % WORD, n) == (p + n) % WORD
  {
  }

  lemma PopLoadCommutesIff<T>(s: State<T>, t: nat, p: nat, r: Retry)
    requires Shape(s) && IsPowerOfTwo(s.cap) && s.cap <= HALF
    requires t in s.threads && s.threads[t] == PopLoadSeq(p, r)
    requires p + 1 - s.cap <= s.seqs[Slot(p, s.cap)]
    ensures Wrap(PopStep(s, t, s.threads[t], false)) == MachinePop(Wrap(s), t, WrapLocal(s.threads[t]), false)
            <==> Faithful(s, t, false)
  {
    var q := s.seqs[Slot(p, s.cap)];
    WrappedSlot(p, s.cap);
    WrapSeq(s, Slot(p, s.cap));
    SameBranchIff(q, p + 1);
    IncOfWord(p, 1);
    var d := SignedDiff(q % WORD, Inc(p % WORD, 1));
    var l' := if q == p + 1 then PopCas(p, r) else if q < p + 1 then Idle(Popped(None)) else PopReload(p, r);
    var w := p % WORD;
    var w' := if d == 0 then PopCas(w, NO_RETRY)
              else if d < 0 then Idle(Popped(None)) else PopReload(w, NO_RETRY);
    assert PopStep(s, t, s.threads[t], false) == Set(s, t, l');
    assert MachinePop(Wrap(s), t, WrapLocal(s.threads[t]), false) == SetM(Wrap(s), t, w');
    WrapSetIff(s, t, l', w');
  }

  lemma EqualWords(a: nat, b: nat)
    ensures a % WORD == b % WORD <==> (a - b) % WORD == 0
  {
    WrappedDifference(a, b);
  }

  lemma PushCasCommutesIff<T>(s: State<T>, t: nat, x: T, p: nat, r: Retry, spurious: bool)
    requires Shape(s) && t in s.threads && s.threads[t] == PushCas(x, p, r)
    ensures Wrap(PushStep(s, t, s.threads[t], spurious)) == MachinePush(Wrap(s), t, WrapLocal(s.threads[t]), spurious)
            <==> Faithful(s, t, spurious)
  {
    EqualWords(s.tail, p);
    var s' := PushStep(s, t, s.threads[t], spurious);
    var m' := MachinePush(Wrap(s), t, WrapLocal(s.threads[t]), spurious);
    WrapSet(s, t, s'.threads[t]);
    if s.tail == p && !spurious {
      IncOfWord(p, 1);
    } else if Faithful(s, t, spurious) {
      assert s' == Set(s, t, PushLoadSeq(x, s.tail, NextRound(r, s.tail == p)));
    } else {
      assert m'.threads[t] == PushWrite(x, p % WORD);
      assert Wrap(s').threads[t].PushLoadSeq?;
    }
  }

  lemma PopClaimCommutes<T>(s: State<T>, t: nat, r: Retry)
    requires Shape(s) && t in s.threads && s.threads[t] == PopCas(s.head, r)
    ensures Wrap(PopStep(s, t, s.threads[t], false)) == MachinePop(Wrap(s), t, WrapLocal(s.threads[t]), false)
  {
    var s' := PopStep(s, t, s.threads[t], false);
    WrapSet(s, t, PopRead(s.head));
    IncOfWord(s.head, 1);
    assert Wrap(s') == Wrap(Set(s, t, PopRead(s.head))).(head := (s.head + 1) % WORD);
  }

  lemma PopCasCommutesIff<T>(s: State<T>, t: nat, p: nat, r: Retry, spurious: bool)
    requires Shape(s) && t in s.threads && s.threads[t] == PopCas(p, r)
    ensures Wrap(PopStep(s, t, s.threads[t], spurious)) == MachinePop(Wrap(s), t, WrapLocal(s.threads[t]), spurious)
            <==> Faithful(s, t, spurious)
  {
    EqualWords(s.head, p);
    if s.head == p && !spurious {
      PopClaimCommutes(s, t, r);
    } else {
      var l' := PopLoadSeq(s.head, NextRound(r, s.head == p));
      assert PopStep(s, t, s.threads[t], spurious) == Set(s, t, l');
      WrapSet(s, t, l');
      var m' := MachinePop(Wrap(s), t, WrapLocal(s.threads[t]), spurious);
      if Faithful(s, t, spurious) {
        assert m' == SetM(Wrap(s), t, WrapLocal(l'));
      } else {
        assert m'.threads[t] == PopRead(p % WORD);
        assert Wrap(Set(s, t, l')).threads[t].PopLoadSeq?;
      }
    }
  }

  lemma WrapStore<T>(s: State<T>, i: nat, q: nat)
    requires Shape(s) && i < s.cap
    ensures Wrap(s.(seqs := s.seqs[i := q])) == Wrap(s).(seqs := Wrap(s).seqs[i := q % WORD])
  {
    assert Wrap(s.(seqs := s.seqs[i := q])).seqs == Wrap(s).seqs[i := q % WORD];
  }

  lemma PublishCommutes<T>(s: State<T>, t: nat, p: nat, x: T)
    requires Shape(s) && IsPowerOfTwo(s.cap) && s.cap <= HALF && t in s.threads && s.threads[t] == PushPublish(x, p)
    ensures Wrap(PushStep(s, t, s.threads[t], false)) == MachinePush(Wrap(s), t, WrapLocal(s.threads[t]), false)
  {
    WrappedSlot(p, s.cap);
    IncOfWord(p, 1);
    WrapSet(s, t, Idle(Pushed(true)));
    WrapStore(Set(s, t, Idle(Pushed(true))), Slot(p, s.cap), p + 1);
  }

  lemma WriteCommutes<T>(s: State<T>, t: nat, p: nat, x: T)
    requires Shape(s) && IsPowerOfTwo(s.cap) && s.cap <= HALF && t in s.threads && s.threads[t] == PushWrite(x, p)
    ensures Wrap(PushStep(s, t, s.threads[t], false)) == MachinePush(Wrap(s), t, WrapLocal(s.threads[t]), false)
  {
    WrappedSlot(p, s.cap);
    WrapSet(s, t, PushPublish(x, p));
    assert Wrap(WriteSlot(s, t, x, p)) == Wrap(Set(s, t, PushPublish(x, p))).(data := s.data[Slot(p, s.cap) := x]);
  }

  /** The other producer steps carry no comparison and always commute. */
  lemma PlainPushCommutes<T>(s: State<T>, t: nat, spurious: bool)
    requires Shape(s) && IsPowerOfTwo(s.cap) && s.cap <= HALF && t in s.threads && Pushing(s.threads[t])
    requires !s.threads[t].PushLoadSeq? && !s.threads[t].PushCas?
    ensures Wrap(PushStep(s, t, s.threads[t], spurious)) == MachinePush(Wrap(s), t, WrapLocal(s.threads[t]), spurious)
  {
    match s.threads[t]
    case PushLoadTail(x) => WrapSet(s, t, PushLoadSeq(x, s.tail, Retry(s.tail, 0, 0)));
    case PushReload(x, _, r) => WrapSet(s, t, PushLoadSeq(x, s.tail, NextRound(r, false)));
    case PushWrite(x, p) => WriteCommutes(s, t, p, x);
    case PushPublish(x, p) => PublishCommutes(s, t, p, x);
  }

  lemma ReadCommutes<T>(s: State<T>, t: nat, p: nat)
    requires Shape(s) && IsPowerOfTwo(s.cap) && s.cap <= HALF && t in s.threads && s.threads[t] == PopRead(p)
    ensures Wrap(PopStep(s, t, s.threads[t], false)) == MachinePop(Wrap(s), t, WrapLocal(s.threads[t]), false)
  {
    WrappedSlot(p, s.cap);
    WrapSet(s, t, PopRelease(p, s.data[Slot(p, s.cap)]));
  }

  lemma PopReleaseCommutes<T>(s: State<T>, t: nat, p: nat, v: T)
    requires Shape(s) && IsPowerOfTwo(s.cap) && s.cap <= HALF && t in s.threads && s.threads[t] == PopRelease(p, v)
    ensures Wrap(PopStep(s, t, s.threads[t], false)) == MachinePop(Wrap(s), t, WrapLocal(s.threads[t]), false)
  {
    WrappedSlot(p, s.cap);
    IncOfWord(p, s.cap);
    WrapSet(s, t, Idle(Popped(Some(v))));
    WrapStore(Set(s, t, Idle(Popped(Some(v)))), Slot(p, s.cap), p + s.cap);
  }

  lemma PlainPopCommutes<T>(s: State<T>, t: nat, spurious: bool)
    requires Shape(s) && IsPowerOfTwo(s.cap) && s.cap <= HALF && t in s.threads && Popping(s.threads[t])
    requires !s.threads[t].PopLoadSeq? && !s.threads[t].PopCas?
    ensures Wrap(PopStep(s, t, s.threads[t], spurious)) == MachinePop(Wrap(s), t, WrapLocal(s.threads[t]), spurious)
  {
    var l := s.threads[t];
    match l
    case PopLoadHead => WrapSet(s, t, PopLoadSeq(s.head, Retry(s.head, 0, 0)));
    case PopReload(_, r) => WrapSet(s, t, PopLoadSeq(s.head, NextRound(r, false)));
    case PopRead(p) => ReadCommutes(s, t, p);
    case PopRelease(p, v) => PopReleaseCommutes(s, t, p, v);
  }

  function Size(tail: nat, head: nat): nat {
    if tail >= head then tail - head else 0
  }

  lemma WrappedSizeIff(n: nat, h: nat)
    requires n <= h + HALF
    ensures Size(n, h) % WORD == Size(n % WORD, h % WORD) <==>
            if n >= h then n / WORD == h / WORD else n % WORD <= h % WORD
  {
    assert n == (n / WORD) * WORD + n % WORD && h == (h / WORD) * WORD + h % WORD;
    if n >= h && n / WORD != h / WORD {
      assert n / WORD == h / WORD + 1;
    }
  }

  lemma SizeLoadHeadCommutesIff<T>(s: State<T>, t: nat, n: nat)
    requires Shape(s) && s.cap <= HALF && t in s.threads && s.threads[t] == SizeLoadHead(n) && n <= s.head + s.cap
    ensures Wrap(SizeStep(s, t, s.threads[t])) == MachineSize(Wrap(s), t, WrapLocal(s.threads[t]))
            <==> Faithful(s, t, false)
  {
    WrappedSizeIff(n, s.head);
    WrapSetIff(s, t, Idle(Sized(Size(n, s.head))), Idle(Sized(Size(n % WORD, s.head % WORD))));
  }

  lemma SizeCommutesIff<T>(s: State<T>, t: nat)
    requires Bounds(s) && s.cap <= HALF && t in s.threads && !Pushing(s.threads[t]) && !Popping(s.threads[t])
    requires LocalOk(s, t, s.threads[t])
    ensures Wrap(SizeStep(s, t, s.threads[t])) == MachineSize(Wrap(s), t, WrapLocal(s.threads[t]))
            <==> Faithful(s, t, false)
  {
    match s.threads[t]
    case SizeLoadTail => WrapSet(s, t, SizeLoadHead(s.tail));
    case SizeLoadHead(n) => SizeLoadHeadCommutesIff(s, t, n);
    case Idle(_) =>
  }

  lemma PopSequenceRange<T>(s: State<T>, p: nat)
    requires Inv(s) && p <= s.head
    ensures p + 1 - s.cap <= s.seqs[Slot(p, s.cap)] <= s.head + s.cap
  {
    if p < s.head {
      var r := LapRepresentative(p, s.head, s.cap);
      assert SlotOk(s, r);
    } else {
      assert SlotOk(s, p);
    }
  }

  lemma PushCommutesIff<T>(s: State<T>, t: nat, spurious: bool)
    requires Inv(s) && s.cap <= HALF && t in s.threads && Pushing(s.threads[t])
    ensures Wrap(PushStep(s, t, s.threads[t], spurious)) == MachinePush(Wrap(s), t, WrapLocal(s.threads[t]), spurious)
            <==> Faithful(s, t, spurious)
  {
    var l := s.threads[t];
    InvAt(s, t);
    if l.PushLoadSeq? {
      SequenceRange(s, l.pos);
      PushLoadCommutesIff(s, t, l.item, l.pos, l.retry);
    } else if l.PushCas? {
      PushCasCommutesIff(s, t, l.item, l.pos, l.retry, spurious);
    } else {
      PlainPushCommutes(s, t, spurious);
    }
  }

  lemma PopCommutesIff<T>(s: State<T>, t: nat, spurious: bool)
    requires Inv(s) && s.cap <= HALF && t in s.threads && Popping(s.threads[t])
    ensures Wrap(PopStep(s, t, s.threads[t], spurious)) == MachinePop(Wrap(s), t, WrapLocal(s.threads[t]), spurious)
            <==> Faithful(s, t, spurious)
  {
    var l := s.threads[t];
    InvAt(s, t);
    if l.PopLoadSeq? {
      PopSequenceRange(s, l.pos);
      PopLoadCommutesIff(s, t, l.pos, l.retry);
    } else if l.PopCas? {
      PopCasCommutesIff(s, t, l.pos, l.retry, spurious);
    } else {
      PlainPopCommutes(s, t, spurious);
    }
  }

  lemma WrapKeepsKind<T>(l: Local<T>)
    ensures Pushing(WrapLocal(l)) == Pushing(l) && Popping(WrapLocal(l)) == Popping(l)
    ensures WrapLocal(l).Idle? == l.Idle?
  {
  }

  /** Exact condition: a machine step on the wrapped state is the wrapped unbounded step
      if and only if the step is faithful. */
  lemma MachineRefinesStepIff<T>(s: State<T>, t: nat, spurious: bool)
    requires Inv(s) && s.cap <= HALF && t in s.threads
    ensures MachineExec(Wrap(s), Step(t, spurious)) == Wrap(Exec(s, Step(t, spurious))) <==> Faithful(s, t, spurious)
  {
    WrapKeepsKind(s.threads[t]);
    if Pushing(s.threads[t]) {
      PushCommutesIff(s, t, spurious);
    } else if Popping(s.threads[t]) {
      PopCommutesIff(s, t, spurious);
    } else {
      InvAt(s, t);
      SizeCommutesIff(s, t);
    }
  }

  /** The thread in a retry loop lags the shared counter by less than `2^63 - cap`, and
      no counter wraps under a thread between the two loads of `size_approx`. */
  predicate LagBounded<T>(s: State<T>, l: Local<T>) {
    match l
    case PushLoadSeq(_, p, _) => s.tail - p < HALF - s.cap
    case PushCas(_, p, _) => s.tail - p < HALF - s.cap
    case PopLoadSeq(p, _) => s.head - p < HALF - s.cap
    case PopCas(p, _) => s.head - p < HALF - s.cap
    case SizeLoadHead(n) => n / WORD == s.head / WORD
    case _ => true
  }

  lemma SmallRemainder(d: int)
    requires 0 < d < WORD
    ensures d % WORD == d
  {
    UniqueRemainder(d, 0, d);
  }

  lemma SizeInOneEpoch(n: nat, h: nat)
    requires n / WORD == h / WORD && n < h
    ensures n % WORD <= h % WORD
  {
    assert n == (n / WORD) * WORD + n % WORD && h == (h / WORD) * WORD + h % WORD;
  }

  lemma BoundedLagIsFaithful<T>(s: State<T>, t: nat, spurious: bool)
    requires Inv(s) && s.cap <= HALF && t in s.threads && LagBounded(s, s.threads[t])
    ensures Faithful(s, t, spurious)
  {
    InvAt(s, t);
    match s.threads[t]
    case PushLoadSeq(_, p, _) =>
      SequenceRange(s, p);
      if s.seqs[Slot(p, s.cap)] > p { SmallRemainder(s.seqs[Slot(p, s.cap)] - p); }
    case PopLoadSeq(p, _) =>
      PopSequenceRange(s, p);
      if s.seqs[Slot(p, s.cap)] > p + 1 { SmallRemainder(s.seqs[Slot(p, s.cap)] - (p + 1)); }
    case PushCas(_, p, _) => if p < s.tail { SmallRemainder(s.tail - p); }
    case PopCas(p, _) => if p < s.head { SmallRemainder(s.head - p); }
    case SizeLoadHead(n) => if n < s.head { SizeInOneEpoch(n, s.head); }
    case _ =>
  }

  function MachineRun<T>(m: Machine<T>, acts: seq<Action<T>>): (r: Machine<T>)
    requires IsMachine(m)
    ensures IsMachine(r)
    decreases |acts|
  {
    if acts == [] then m else MachineExec(MachineRun(m, acts[..|acts| - 1]), acts[|acts| - 1])
  }

  /** Whenever a thread takes a step, it satisfies the lag bound. */
  predicate LagsStayBounded<T>(s: State<T>, acts: seq<Action<T>>)
    requires Shape(s)
    decreases |acts|
  {
    acts == [] ||
    (&& LagsStayBounded(s, acts[..|acts| - 1])
     && var r := Run(s, acts[..|acts| - 1]);
        acts[|acts| - 1].t in r.threads ==> LagBounded(r, r.threads[acts[|acts| - 1].t]))
  }

  lemma StartCommutes<T>(s: State<T>, a: Action<T>)
    requires Shape(s) && (a.Start? || a.t !in s.threads)
    ensures MachineExec(Wrap(s), a) == Wrap(Exec(s, a))
  {
    if a.t in s.threads { WrapSet(s, a.t, Enter(a.call)); }
  }

  /** The 64-bit ring does what the unbounded ring does, over whole runs with any number
      of wrap-arounds, as long as no thread falls too far behind. */
  lemma {:induction false} MachineRefinesRun<T>(cap: nat, junk: seq<T>, tids: set<nat>, acts: seq<Action<T>>)
    requires 2 <= cap <= HALF && IsPowerOfTwo(cap) && |junk| == cap
    requires LagsStayBounded(Init(cap, junk, tids), acts)
    ensures MachineRun(Wrap(Init(cap, junk, tids)), acts) == Wrap(After(cap, junk, tids, acts))
    decreases |acts|
  {
    if acts != [] {
      var n := |acts| - 1;
      var s := After(cap, junk, tids, acts[..n]);
      MachineRefinesRun(cap, junk, tids, acts[..n]);
      AfterInv(cap, junk, tids, acts[..n]);
      if acts[n].t in s.threads && acts[n].Step? {
        BoundedLagIsFaithful(s, acts[n].t, acts[n].spurious);
        MachineRefinesStepIff(s, acts[n].t, acts[n].spurious);
      } else {
        StartCommutes(s, acts[n]);
      }
    }
  }
}
