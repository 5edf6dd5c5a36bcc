/** The request limiter of the anonymous routes (`backend/app/core/rate_limit.py`): `_Window`, whose deques are
    pruned lazily and whose quiet keys are swept, against a log of admitted hits that forgets nothing.

    A window object serves one bucket, with one limit and one span (integer ticks).
 */
module RequestWindow {
  import opened Basics

  const SWEEP_THRESHOLD := 4096

  /** Stamps by key. */
  type Stamps = map<string, seq<int>>

  function Of(m: Stamps, key: string): seq<int> {
    if key in m then m[key] else []
  }

  /** How many of the stamps lie in the half-open interval (lo, hi]. */
  function Count(ts: seq<int>, lo: int, hi: int): nat {
    if ts == [] then 0 else (if lo < ts[0] <= hi then 1 else 0) + Count(ts[1..], lo, hi)
  }

  /** How many of the stamps lie in the window that ends at `t`. */
  function Load(ts: seq<int>, span: int, t: int): nat {
    Count(ts, t - span, t)
  }

  /** A history the sliding window explains: in order of time up to `now`, every hit finding fewer than `limit`
      before it. */
  ghost predicate Legit(ts: seq<int>, limit: nat, span: int, now: int) {
    ts != [] ==>
      var front, last := ts[..|ts| - 1], ts[|ts| - 1];
      last <= now && Legit(front, limit, span, last) && Load(front, span, last) < limit
  }

  /** `wait` is the least delay after which the key is admitted again. */
  ghost predicate LeastDelay(ts: seq<int>, limit: nat, span: int, now: int, wait: int) {
    && 0 < wait
    && Load(ts, span, now + wait) < limit
    && forall t :: now <= t < now + wait ==> Load(ts, span, t) >= limit
  }

  /** The pops: drop from the front while the stamp is not after the cutoff. */
  function Unexpired(queue: seq<int>, cutoff: int): seq<int> {
    if queue != [] && queue[0] <= cutoff then Unexpired(queue[1..], cutoff) else queue
  }

  /** A queue that, at `now`, still answers for the whole history of its key: it is the tail of that history,
      and the latest stamp it no longer holds has left the window. */
  ghost predicate Faithful(kept: seq<int>, all: seq<int>, limit: nat, span: int, now: int) {
    && Legit(all, limit, span, now)
    && |kept| <= |all| && |kept| <= limit
    && (forall i :: 0 <= i < |kept| ==> kept[i] == all[|all| - |kept| + i])
    && (|kept| < |all| ==> all[|all| - |kept| - 1] <= now - span)
  }

  ghost predicate AllFaithful(hits: Stamps, log: Stamps, limit: nat, span: int, now: int) {
    forall key {:trigger Faithful(Of(hits, key), Of(log, key), limit, span, now)} ::
      Faithful(Of(hits, key), Of(log, key), limit, span, now)
  }

  lemma {:induction false} CountAll(ts: seq<int>, lo: int, hi: int)
    requires forall i :: 0 <= i < |ts| ==> lo < ts[i] <= hi
    ensures Count(ts, lo, hi) == |ts|
  {
    if ts != [] {
      CountAll(ts[1..], lo, hi);
    }
  }

  lemma {:induction false} CountAtMost(ts: seq<int>, lo: int, hi: int)
    ensures Count(ts, lo, hi) <= |ts|
  {
    if ts != [] {
      CountAtMost(ts[1..], lo, hi);
    }
  }

  /** Stamps not after `lo` in front of a tail do not count. */
  lemma {:induction false} CountTail(kept: seq<int>, all: seq<int>, lo: int, hi: int)
    requires |kept| <= |all| && forall i :: 0 <= i < |kept| ==> kept[i] == all[|all| - |kept| + i]
    requires forall i :: 0 <= i < |all| - |kept| ==> all[i] <= lo
    ensures Count(all, lo, hi) == Count(kept, lo, hi)
  {
    if |kept| == |all| {
      assert kept == all;
    } else {
      CountTail(kept, all[1..], lo, hi);
    }
  }

  lemma {:induction false} CountAppend(ts: seq<int>, t: int, lo: int, hi: int)
    ensures Count(ts + [t], lo, hi) == Count(ts, lo, hi) + if lo < t <= hi then 1 else 0
  {
    if ts != [] {
      assert (ts + [t])[1..] == ts[1..] + [t];
      CountAppend(ts[1..], t, lo, hi);
    }
  }

  /** With nothing stamped after `now`, a later window counts no more than the one ending now. */
  lemma {:induction false} LoadLater(ts: seq<int>, span: int, now: int, t: int)
    requires now <= t && forall i :: 0 <= i < |ts| ==> ts[i] <= now
    ensures Load(ts, span, t) <= Load(ts, span, now)
  {
    if ts != [] {
      LoadLater(ts[1..], span, now, t);
    }
  }

  lemma {:induction false} LegitOrdered(ts: seq<int>, limit: nat, span: int, now: int)
    requires Legit(ts, limit, span, now)
    ensures forall i :: 0 <= i < |ts| ==> ts[i] <= now
    ensures forall i, j :: 0 <= i <= j < |ts| ==> ts[i] <= ts[j]
  {
    if ts != [] {
      LegitOrdered(ts[..|ts| - 1], limit, span, ts[|ts| - 1]);
    }
  }

  /** A history the window explains never holds more than `limit` hits in any window, at any instant. */
  lemma {:induction false} AtMostLimit(ts: seq<int>, limit: nat, span: int, now: int, t: int)
    requires Legit(ts, limit, span, now)
    ensures Load(ts, span, t) <= limit
  {
    if ts != [] {
      var front, last := ts[..|ts| - 1], ts[|ts| - 1];
      assert ts == front + [last];
      AtMostLimit(front, limit, span, last, t);
      CountAppend(front, last, t - span, t);
      if last <= t {
        LegitOrdered(front, limit, span, last);
        LoadLater(front, span, last, t);
      }
    }
  }

  lemma {:induction false} UnexpiredFaithful(kept: seq<int>, all: seq<int>, limit: nat, span: int, now: int)
    requires Faithful(kept, all, limit, span, now)
    ensures Faithful(Unexpired(kept, now - span), all, limit, span, now)
    decreases |kept|
  {
    if kept != [] && kept[0] <= now - span {
      var k := |all| - |kept|;
      assert kept[0] == all[k];
      UnexpiredFaithful(kept[1..], all, limit, span, now);
    }
  }

  /** At any instant at which the queue's head is still in the window, the queue is the whole load. */
  lemma LoadWhileHeld(queue: seq<int>, all: seq<int>, limit: nat, span: int, now: int, t: int)
    requires Faithful(queue, all, limit, span, now) && now <= t
    requires queue != [] ==> t - span < queue[0]
    ensures Load(all, span, t) == |queue|
  {
    LegitOrdered(all, limit, span, now);
    CountTail(queue, all, t - span, t);
    CountAll(queue, t - span, t);
  }

  lemma LoadOnceExpired(queue: seq<int>, all: seq<int>, limit: nat, span: int, now: int)
    requires Faithful(queue, all, limit, span, now) && queue != []
    ensures Load(all, span, queue[0] + span) < |queue|
  {
    LegitOrdered(all, limit, span, now);
    assert all[|all| - |queue|] == queue[0];
    CountTail(queue[1..], all, queue[0], queue[0] + span);
    CountAtMost(queue[1..], queue[0], queue[0] + span);
  }

  lemma {:induction false} UnexpiredHead(kept: seq<int>, cutoff: int)
    ensures Unexpired(kept, cutoff) != [] ==> cutoff < Unexpired(kept, cutoff)[0]
  {
    if kept != [] {
      UnexpiredHead(kept[1..], cutoff);
    }
  }

  /** After the pops a queue decides as its whole history would, and its head tells the least delay. */
  lemma QueueDecides(kept: seq<int>, all: seq<int>, limit: nat, span: int, now: int)
    requires limit >= 1 && Faithful(kept, all, limit, span, now)
    ensures var queue := Unexpired(kept, now - span);
      && Load(all, span, now) == |queue|
      && (|queue| >= limit ==> LeastDelay(all, limit, span, now, queue[0] + span - now))
  {
    var queue := Unexpired(kept, now - span);
    UnexpiredFaithful(kept, all, limit, span, now);
    UnexpiredHead(kept, now - span);
    LoadWhileHeld(queue, all, limit, span, now, now);
    if |queue| >= limit {
      LoadOnceExpired(queue, all, limit, span, now);
      forall t | now <= t < queue[0] + span ensures Load(all, span, t) >= limit {
        LoadWhileHeld(queue, all, limit, span, now, t);
      }
    }
  }

  lemma AdmitFaithful(queue: seq<int>, all: seq<int>, limit: nat, span: int, now: int)
    requires Faithful(queue, all, limit, span, now) && |queue| < limit && Load(all, span, now) < limit
    ensures Faithful(queue + [now], all + [now], limit, span, now)
  {
    assert (all + [now])[..|all|] == all;
    assert Legit(all, limit, span, now);
  }

  ghost predicate Stale(queue: seq<int>, cutoff: int) {
    queue == [] || queue[|queue| - 1] <= cutoff
  }

  /** A stale queue can be dropped altogether. */
  lemma StaleFaithful(queue: seq<int>, all: seq<int>, limit: nat, span: int, now: int)
    requires Faithful(queue, all, limit, span, now) && Stale(queue, now - span)
    ensures Faithful([], all, limit, span, now)
  {
    assert queue != [] ==> all[|all| - 1] == queue[|queue| - 1];
  }

  lemma FaithfulLater(kept: seq<int>, all: seq<int>, limit: nat, span: int, before: int, now: int)
    requires Faithful(kept, all, limit, span, before) && before <= now
    ensures Faithful(kept, all, limit, span, now)
  {
  }

  lemma AllFaithfulLater(hits: Stamps, log: Stamps, limit: nat, span: int, before: int, now: int)
    requires AllFaithful(hits, log, limit, span, before) && before <= now
    ensures AllFaithful(hits, log, limit, span, now)
  {
    forall k ensures Faithful(Of(hits, k), Of(log, k), limit, span, now) {
      FaithfulLater(Of(hits, k), Of(log, k), limit, span, before, now);
    }
  }

  lemma PopFaithful(hits: Stamps, log: Stamps, limit: nat, span: int, now: int, key: string)
    requires AllFaithful(hits, log, limit, span, now)
    ensures AllFaithful(hits[key := Unexpired(Of(hits, key), now - span)], log, limit, span, now)
  {
    var hits' := hits[key := Unexpired(Of(hits, key), now - span)];
    forall k ensures Faithful(Of(hits', k), Of(log, k), limit, span, now) {
      assert Faithful(Of(hits, k), Of(log, k), limit, span, now);
      if k == key {
        UnexpiredFaithful(Of(hits, k), Of(log, k), limit, span, now);
      } else {
        assert Of(hits', k) == Of(hits, k);
      }
    }
  }

  lemma PopDecides(hits: Stamps, log: Stamps, limit: nat, span: int, now: int, key: string)
    requires limit >= 1 && AllFaithful(hits, log, limit, span, now)
    ensures Load(Of(log, key), span, now) == |Unexpired(Of(hits, key), now - span)|
    ensures |Unexpired(Of(hits, key), now - span)| >= limit ==>
      LeastDelay(Of(log, key), limit, span, now, Unexpired(Of(hits, key), now - span)[0] + span - now)
  {
    assert Faithful(Of(hits, key), Of(log, key), limit, span, now);
    QueueDecides(Of(hits, key), Of(log, key), limit, span, now);
  }

  lemma PushFaithful(hits: Stamps, log: Stamps, limit: nat, span: int, now: int, key: string)
    requires AllFaithful(hits, log, limit, span, now)
    requires |Of(hits, key)| < limit && Load(Of(log, key), span, now) < limit
    ensures AllFaithful(hits[key := Of(hits, key) + [now]], log[key := Of(log, key) + [now]], limit, span, now)
  {
    var hits', log' := hits[key := Of(hits, key) + [now]], log[key := Of(log, key) + [now]];
    forall k ensures Faithful(Of(hits', k), Of(log', k), limit, span, now) {
      assert Faithful(Of(hits, k), Of(log, k), limit, span, now);
      if k == key {
        AdmitFaithful(Of(hits, k), Of(log, k), limit, span, now);
      } else {
        assert Of(hits', k) == Of(hits, k) && Of(log', k) == Of(log, k);
      }
    }
  }

  /** The `Retry-After` of a refusal, in whole seconds. */
  function RetryAfter(wait: int): int {
    Max(1, wait / SECOND)
  }

  /** The header is at least a second and otherwise the whole seconds of the wait, no more and no fewer. */
  lemma HeaderIsWholeSeconds(wait: int, seconds: int)
    requires wait > 0
    ensures RetryAfter(wait) == seconds <==>
      1 <= seconds && seconds * SECOND <= Max(wait, SECOND) < (seconds + 1) * SECOND
  {
    assert SECOND == 1_000_000_000;
  }

  /** Exactly when a client that comes back after the header's seconds is admitted, if nobody else uses its key:
      the seconds are cut down, so it is when the wait is at most a second, or whole seconds. */
  lemma HeaderSuffices(all: seq<int>, limit: nat, span: int, now: int, wait: int)
    requires span > 0 && Legit(all, limit, span, now) && LeastDelay(all, limit, span, now, wait)
    ensures Load(all, span, now + RetryAfter(wait) * SECOND) < limit <==> wait <= SECOND || wait % SECOND == 0
  {
    var back := RetryAfter(wait) * SECOND;
    if wait <= back {
      LegitOrdered(all, limit, span, now);
      LoadLater(all, span, now + wait, now + back);
    }
  }

  /** A client that obeys the header and is refused again: one hit a minute, at half a second the wait is 59.5
      seconds, the header says 59, and then the window still holds the hit. */
  lemma ObedientClientRefused()
    ensures var now, wait := SECOND / 2, 59 * SECOND + SECOND / 2;
      && Legit([0], 1, 60 * SECOND, now) && LeastDelay([0], 1, 60 * SECOND, now, wait)
      && RetryAfter(wait) == 59 && Load([0], 60 * SECOND, now + RetryAfter(wait) * SECOND) == 1
  {
    assert [0][..0] == [];
    forall t ensures Load([0], 60 * SECOND, t) == if 0 <= t < 60 * SECOND then 1 else 0 {
      OneHit(60 * SECOND, t);
    }
  }

  lemma OneHit(span: int, t: int)
    ensures Load([0], span, t) == if 0 <= t < span then 1 else 0
  {
    var one := [0];
    assert one[1..] == [] && Count(one[1..], t - span, t) == 0;
    assert Load(one, span, t) == if t - span < one[0] <= t then 1 else 0;
  }

  class Window {
    var hits: Stamps
    /** Every hit ever admitted. */
    ghost var log: Stamps
    /** The latest instant at which `Check` was called. */
    ghost var clock: int
    ghost const limit: nat
    ghost const span: int

    ghost predicate Valid()
      reads this
    {
      limit >= 1 && AllFaithful(hits, log, limit, span, clock)
    }

    constructor (ghost limit: nat, ghost span: int, ghost now: int)
      requires limit >= 1
      ensures Valid() && log == map[] && clock == now && this.limit == limit && this.span == span
    {
      hits, log, clock := map[], map[], now;
      this.limit, this.span := limit, span;
    }

    /** Every answer is the one a log that never forgets would give, whatever was popped or swept before. */
    method Check(key: string, limit: nat, windowSeconds: int, now: int) returns (answer: Option<int>)
      requires Valid() && clock <= now && limit == this.limit && windowSeconds == span
      modifies this
      ensures Valid() && clock == now
      ensures answer.None? <==> Load(Of(old(log), key), span, now) < limit
      ensures answer.None? ==> log == old(log)[key := Of(old(log), key) + [now]]
      ensures answer.Some? ==> log == old(log) && LeastDelay(Of(log, key), limit, span, now, answer.value)
    {
      var cutoff := now - windowSeconds;
      AllFaithfulLater(hits, log, limit, span, clock, now);
      PopDecides(hits, log, limit, span, now, key);
      var queue := Pop(key, cutoff, now);
      if |queue| >= limit {
        return Some(queue[0] + windowSeconds - now);
      }
      Push(key, now);
      if |hits| > SWEEP_THRESHOLD {
        Sweep(cutoff);
      }
      return None;
    }

    /** `setdefault` and the pops: what is left of the key's queue is what the window still holds. */
    method Pop(key: string, cutoff: int, now: int) returns (queue: seq<int>)
      requires Valid() && clock <= now && cutoff == now - span
      modifies this
      ensures Valid() && clock == now && log == old(log) && key in hits && hits[key] == queue
      ensures queue == Unexpired(Of(old(hits), key), cutoff)
    {
      AllFaithfulLater(hits, log, limit, span, clock, now);
      PopFaithful(hits, log, limit, span, now, key);
      queue := Drain(Of(hits, key), cutoff);
      hits, clock := hits[key := queue], now;
    }

    static method Drain(held: seq<int>, cutoff: int) returns (queue: seq<int>)
      ensures queue == Unexpired(held, cutoff)
    {
      queue := held;
      while queue != [] && queue[0] <= cutoff
        invariant Unexpired(queue, cutoff) == Unexpired(held, cutoff)
        decreases |queue|
      {
        queue := queue[1..];
      }
    }

    method Push(key: string, now: int)
      requires Valid() && clock == now && key in hits && Load(Of(log, key), span, now) == |hits[key]| < limit
      modifies this
      ensures Valid() && clock == old(clock) && log == old(log)[key := Of(old(log), key) + [now]]
    {
      PushFaithful(hits, log, limit, span, now, key);
      hits := hits[key := hits[key] + [now]];
      log := log[key := Of(log, key) + [now]];
    }

    /** Drops the keys whose whole window has expired; no answer changes, because the log does not. */
    method Sweep(cutoff: int)
      requires Valid() && cutoff == clock - span
      modifies this
      ensures Valid() && clock == old(clock) && log == old(log)
      ensures forall k :: k in hits <==> k in old(hits) && !Stale(old(hits)[k], cutoff)
      ensures forall k :: k in hits ==> hits[k] == old(hits)[k]
    {
      var stale := set k | k in hits && (hits[k] == [] || hits[k][|hits[k]| - 1] <= cutoff);
      hits := hits - stale;
      forall k ensures Faithful(Of(hits, k), Of(log, k), limit, span, clock) {
        assert Faithful(Of(old(hits), k), Of(log, k), limit, span, clock);
        if k in stale {
          StaleFaithful(old(hits)[k], Of(log, k), limit, span, clock);
        }
      }
    }
  }
}
