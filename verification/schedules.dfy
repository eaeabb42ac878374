/** The orders in which the dispatch loops of `EventQueueEmulator`
    (src/eventqueue_emulator.h) serve two queues when nothing is posted meanwhile. */
module Schedules {
  import opened Sequences

  datatype Served<F, B> = Fast(fast: F) | Bulk(bulk: B)

  function AllFast<F, B>(fast: seq<F>): (s: seq<Served<F, B>>)
    ensures |s| == |fast|
  {
    seq(|fast|, i requires 0 <= i < |fast| => Fast(fast[i]))
  }

  function AllBulk<F, B>(bulk: seq<B>): (s: seq<Served<F, B>>)
    ensures |s| == |bulk|
  {
    seq(|bulk|, i requires 0 <= i < |bulk| => Bulk(bulk[i]))
  }

  /** The ratio schedule in blocks: up to n fast messages before each bulk message, then
      whatever fast messages are left. */
  function Schedule<F, B>(fast: seq<F>, bulk: seq<B>, n: nat): (s: seq<Served<F, B>>)
    ensures |s| == |fast| + |bulk|
    decreases |bulk|
  {
    if bulk == [] then AllFast(fast) else
    var k := Min(n, |fast|);
    AllFast(fast[..k]) + [Bulk(bulk[0])] + Schedule(fast[k..], bulk[1..], n)
  }

  /** The fast and the bulk messages of a schedule, in the order served. */
  function Fasts<F, B>(s: seq<Served<F, B>>): seq<F> {
    if s == [] then [] else (if s[0].Fast? then [s[0].fast] else []) + Fasts(s[1..])
  }

  function Bulks<F, B>(s: seq<Served<F, B>>): seq<B> {
    if s == [] then [] else (if s[0].Bulk? then [s[0].bulk] else []) + Bulks(s[1..])
  }

  lemma {:induction false} FastsAppend<F, B>(s: seq<Served<F, B>>, more: seq<Served<F, B>>)
    ensures Fasts(s + more) == Fasts(s) + Fasts(more)
  {
    if s == [] {
      assert s + more == more;
    } else {
      FastsAppend(s[1..], more);
      assert (s + more)[1..] == s[1..] + more;
      Associative(if s[0].Fast? then [s[0].fast] else [], Fasts(s[1..]), Fasts(more));
    }
  }

  lemma {:induction false} BulksAppend<F, B>(s: seq<Served<F, B>>, more: seq<Served<F, B>>)
    ensures Bulks(s + more) == Bulks(s) + Bulks(more)
  {
    if s == [] {
      assert s + more == more;
    } else {
      BulksAppend(s[1..], more);
      assert (s + more)[1..] == s[1..] + more;
      Associative(if s[0].Bulk? then [s[0].bulk] else [], Bulks(s[1..]), Bulks(more));
    }
  }

  lemma {:induction false} FastBlock<F, B>(fast: seq<F>)
    ensures var s: seq<Served<F, B>> := AllFast(fast); Fasts(s) == fast && Bulks(s) == []
  {
    if fast != [] {
      FastBlock<F, B>(fast[1..]);
      var s: seq<Served<F, B>> := AllFast(fast);
      assert s[1..] == AllFast(fast[1..]);
    }
  }

  lemma {:induction false} BulkBlock<F, B>(bulk: seq<B>)
    ensures var s: seq<Served<F, B>> := AllBulk(bulk); Fasts(s) == [] && Bulks(s) == bulk
  {
    if bulk != [] {
      BulkBlock<F, B>(bulk[1..]);
      var s: seq<Served<F, B>> := AllBulk(bulk);
      assert s[1..] == AllBulk(bulk[1..]);
    }
  }

  lemma OneBulk<F, B>(b: B)
    ensures var s: seq<Served<F, B>> := [Bulk(b)]; Fasts(s) == [] && Bulks(s) == [b]
  {
    var s: seq<Served<F, B>> := [Bulk(b)];
    assert s[1..] == [];
  }

  /** One block of the schedule: some fast messages, one bulk message, the rest. */
  lemma BlockProjections<F, B>(fast: seq<F>, b: B, rest: seq<Served<F, B>>)
    ensures var s := AllFast(fast) + [Bulk(b)] + rest;
            Fasts(s) == fast + Fasts(rest) && Bulks(s) == [b] + Bulks(rest)
  {
    var block: seq<Served<F, B>> := AllFast(fast);
    FastBlock<F, B>(fast);
    OneBulk<F, B>(b);
    FastsAppend(block, [Bulk(b)]);
    BulksAppend(block, [Bulk(b)]);
    FastsAppend(block + [Bulk(b)], rest);
    BulksAppend(block + [Bulk(b)], rest);
  }

  /** Everything is served, each queue in its own order. */
  lemma {:induction false} ScheduleServesBothInOrder<F, B>(fast: seq<F>, bulk: seq<B>, n: nat)
    ensures Fasts(Schedule(fast, bulk, n)) == fast && Bulks(Schedule(fast, bulk, n)) == bulk
    decreases |bulk|
  {
    if bulk == [] {
      FastBlock<F, B>(fast);
    } else {
      var k := Min(n, |fast|);
      hide Schedule, Fasts, Bulks;
      FirstBlock(fast, bulk, n);
      ScheduleServesBothInOrder(fast[k..], bulk[1..], n);
      BlockProjections(fast[..k], bulk[0], Schedule(fast[k..], bulk[1..], n));
      assert fast[..k] + fast[k..] == fast && [bulk[0]] + bulk[1..] == bulk;
    }
  }

  /** How many of f fast messages are served before bulk message k, counting from 0. */
  function Quota(fasts: nat, n: nat, k: nat): (q: nat)
    ensures q <= fasts
  {
    Min(fasts, (k + 1) * n)
  }

  lemma QuotaOfBlocks(fasts: nat, n: nat, k: nat)
    requires k > 0
    ensures Min(n, fasts) + Quota(fasts - Min(n, fasts), n, k - 1) == Quota(fasts, n, k)
  {
    assert (k + 1) * n == k * n + n;
  }

  /** Exactly min(f, (k + 1) * n) fast messages, the oldest ones, are served before bulk
      message k, and exactly the k older bulk messages. */
  predicate Before<F(==), B(==)>(fast: seq<F>, bulk: seq<B>, n: nat, k: nat)
    requires k < |bulk|
  {
    var s, q := Schedule(fast, bulk, n), Quota(|fast|, n, k);
    && q + k < |s| && s[q + k] == Bulk(bulk[k])
    && Fasts(s[..q + k]) == fast[..q] && Bulks(s[..q + k]) == bulk[..k]
  }

  lemma {:induction false} FastBeforeBulk<F, B>(fast: seq<F>, bulk: seq<B>, n: nat, k: nat)
    requires k < |bulk|
    ensures Before(fast, bulk, n, k)
    decreases k
  {
    hide *;
    if k == 0 {
      FirstBulk(fast, bulk, n);
    } else {
      var m := Min(n, |fast|);
      FastBeforeBulk(fast[m..], bulk[1..], n, k - 1);
      LaterBulk(fast, bulk, n, k);
    }
  }

  lemma FirstBlock<F, B>(fast: seq<F>, bulk: seq<B>, n: nat)
    requires bulk != []
    ensures var m := Min(n, |fast|);
            Schedule(fast, bulk, n) == AllFast(fast[..m]) + [Bulk(bulk[0])] + Schedule(fast[m..], bulk[1..], n)
  {
  }

  lemma FirstBulk<F, B>(fast: seq<F>, bulk: seq<B>, n: nat)
    requires bulk != []
    ensures Before(fast, bulk, n, 0)
  {
    var m := Min(n, |fast|);
    assert (0 + 1) * n == n;
    FastBlock<F, B>(fast[..m]);
    assert Schedule(fast, bulk, n)[..m] == AllFast(fast[..m]);
  }

  /** From the rest of the schedule to the whole. */
  lemma LaterBulk<F, B>(fast: seq<F>, bulk: seq<B>, n: nat, k: nat)
    requires 0 < k < |bulk| && Before(fast[Min(n, |fast|)..], bulk[1..], n, k - 1)
    ensures Before(fast, bulk, n, k)
  {
    hide Schedule, Quota, Min;
    var m := Min(n, |fast|);
    FirstBlock(fast, bulk, n);
    QuotaOfBlocks(|fast|, n, k);
    LaterBlock(fast, bulk, Schedule(fast[m..], bulk[1..], n), m, Quota(|fast| - m, n, k - 1), k);
  }

  lemma LaterBlock<F, B>(fast: seq<F>, bulk: seq<B>, rest: seq<Served<F, B>>, m: nat, q: nat, k: nat)
    requires m + q <= |fast| && 0 < k < |bulk| && q + k - 1 < |rest| && rest[q + k - 1] == Bulk(bulk[k])
    requires Fasts(rest[..q + k - 1]) == fast[m..][..q] && Bulks(rest[..q + k - 1]) == bulk[1..][..k - 1]
    ensures var s, i := AllFast(fast[..m]) + [Bulk(bulk[0])] + rest, m + q + k;
            && i < |s| && s[i] == Bulk(bulk[k])
            && Fasts(s[..i]) == fast[..m + q] && Bulks(s[..i]) == bulk[..k]
  {
    hide Fasts, Bulks;
    var j := q + k - 1;
    PrefixOfBlock(AllFast(fast[..m]), Bulk(bulk[0]), rest, j);
    BlockProjections(fast[..m], bulk[0], rest[..j]);
    Slices(fast, m, q);
    Slices(bulk, 1, k - 1);
  }

  lemma Slices<T>(s: seq<T>, m: nat, j: nat)
    requires m + j <= |s|
    ensures s[..m] + s[m..][..j] == s[..m + j]
  {
  }

  lemma PrefixOfBlock<T>(block: seq<T>, x: T, rest: seq<T>, j: nat)
    requires j < |rest|
    ensures var s := block + [x] + rest;
            s[..|block| + 1 + j] == block + [x] + rest[..j] && s[|block| + 1 + j] == rest[j]
  {
  }

  /** With a ratio that covers the fast queue the schedule is that of `dispatchAll`;
      with ratio 0 the bulk queue goes first. */
  lemma {:induction false} ScheduleExtremes<F, B>(fast: seq<F>, bulk: seq<B>, n: nat)
    ensures n >= |fast| ==> Schedule(fast, bulk, n) == AllFast(fast) + AllBulk(bulk)
    ensures n == 0 ==> Schedule(fast, bulk, n) == AllBulk(bulk) + AllFast(fast)
    decreases |bulk|
  {
    if bulk != [] {
      var k := Min(n, |fast|);
      ScheduleExtremes(fast[k..], bulk[1..], n);
      assert AllBulk<F, B>(bulk) == [Bulk(bulk[0])] + AllBulk(bulk[1..]);
      assert fast[..|fast|] == fast && fast[0..] == fast;
    }
  }

  // ----- the schedule step by step -----

  /** What is left to serve after c fast messages since the last bulk message. */
  function Rest<F, B>(fast: seq<F>, bulk: seq<B>, n: nat, c: nat): (s: seq<Served<F, B>>)
    ensures |s| == |fast| + |bulk|
  {
    if bulk == [] then AllFast(fast) else
    var k := Min(if c < n then n - c else 0, |fast|);
    AllFast(fast[..k]) + [Bulk(bulk[0])] + Schedule(fast[k..], bulk[1..], n)
  }

  lemma ServeFast<F, B>(fast: seq<F>, bulk: seq<B>, n: nat, c: nat)
    requires fast != [] && (c < n || bulk == [])
    ensures Rest(fast, bulk, n, c) == [Fast(fast[0])] + Rest(fast[1..], bulk, n, c + 1)
  {
    if bulk == [] {
      assert AllFast<F, B>(fast) == [Fast(fast[0])] + AllFast(fast[1..]);
    } else {
      hide Schedule;
      var k := Min(n - c, |fast|);
      var rest := [Bulk(bulk[0])] + Schedule(fast[k..], bulk[1..], n);
      assert AllFast<F, B>(fast[..k]) == [Fast(fast[0])] + AllFast(fast[1..][..k - 1]);
      assert fast[1..][k - 1..] == fast[k..];
      Associative(AllFast(fast[..k]), [Bulk(bulk[0])], Schedule(fast[k..], bulk[1..], n));
      Associative(AllFast(fast[1..][..k - 1]), [Bulk(bulk[0])], Schedule(fast[k..], bulk[1..], n));
      Associative([Fast(fast[0])], AllFast(fast[1..][..k - 1]), rest);
    }
  }

  lemma ServeBulk<F, B>(fast: seq<F>, bulk: seq<B>, n: nat, c: nat)
    requires bulk != [] && (c >= n || fast == [])
    ensures Rest(fast, bulk, n, c) == [Bulk(bulk[0])] + Rest(fast, bulk[1..], n, 0)
  {
    assert fast[0..] == fast;
    assert AllFast<F, B>(fast[..0]) == [];
  }

  lemma WholeRest<F, B>(fast: seq<F>, bulk: seq<B>, n: nat)
    ensures Rest(fast, bulk, n, 0) == Schedule(fast, bulk, n)
  {
  }

  lemma NothingToServe<F, B>(n: nat, c: nat)
    ensures Rest<F, B>([], [], n, c) == []
  {
  }
}
