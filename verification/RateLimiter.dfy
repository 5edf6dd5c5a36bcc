/** The agent's weighted sliding-window limiter (`backend/app/features/agent/rate_limiter.py`).

    Time is counted in integer nanosecond ticks, the resolution of the monotonic clock. The value level
    (`Windows`, `Attempt`, `DoStep`, `AcquireRun`) specifies the classes at the end of the file, and carries
    the histories that pruning forgets, so that the bounds can speak about all of time.
 */
module RateLimiter {
  import opened Basics

  const MINUTE := 60 * SECOND
  const DAY := 86_400 * SECOND
  const MAX_WAIT := 65 * SECOND
  /** The 0.05 s added to every sleep. */
  const SLACK := SECOND / 20

  /* ---------- One bucket, as a value ---------- */

  datatype Event = Event(ts: int, weight: int)

  function Total(es: seq<Event>): int {
    if es == [] then 0 else es[0].weight + Total(es[1..])
  }

  /** The weight stamped in the half-open interval (lo, hi]. */
  function Within(es: seq<Event>, lo: int, hi: int): int {
    if es == [] then 0
    else
      var e := es[|es| - 1];
      Within(es[..|es| - 1], lo, hi) + if lo < e.ts <= hi then e.weight else 0
  }

  /** The weight in the half-open window of length `span` that ends at `t`. */
  function InWindow(es: seq<Event>, span: int, t: int): int {
    Within(es, t - span, t)
  }

  /** `prune`: drop from the front while the stamp is strictly before `cutoff`. */
  function Pruned(es: seq<Event>, cutoff: int): seq<Event> {
    if es != [] && es[0].ts < cutoff then Pruned(es[1..], cutoff) else es
  }

  function Added(es: seq<Event>, now: int, weight: int): seq<Event> {
    if weight > 0 then es + [Event(now, weight)] else es
  }

  /** The walk over the events, oldest first, with `running` the weight still held. */
  function FirstFit(es: seq<Event>, running: int, span: int, cap: int, now: int, cost: int): int {
    if es == [] then span
    else if running - es[0].weight + cost <= cap then Max(0, es[0].ts + span - now)
    else FirstFit(es[1..], running - es[0].weight, span, cap, now, cost)
  }

  /** `time_until_room`, on events already pruned. */
  function WaitFor(es: seq<Event>, span: int, cap: int, now: int, cost: int): int {
    if cap == 0 || Total(es) + cost <= cap then 0
    else FirstFit(es, Total(es), span, cap, now, cost)
  }

  /** Positive weights, stamped in order of time up to `now`. */
  ghost predicate Ordered(es: seq<Event>, now: int) {
    && (forall i :: 0 <= i < |es| ==> es[i].weight > 0 && es[i].ts <= now)
    && (forall i, j :: 0 <= i <= j < |es| ==> es[i].ts <= es[j].ts)
  }

  /** Room for `cost` at instant `t`, counting the half-open window (t - span, t]. */
  ghost predicate Room(es: seq<Event>, span: int, cap: int, t: int, cost: int) {
    cap == 0 || InWindow(es, span, t) + cost <= cap
  }

  lemma {:induction false} WithinFront(es: seq<Event>, lo: int, hi: int)
    requires es != []
    ensures Within(es, lo, hi) == (if lo < es[0].ts <= hi then es[0].weight else 0) + Within(es[1..], lo, hi)
  {
    if |es| > 1 {
      var front := es[..|es| - 1];
      WithinFront(front, lo, hi);
      assert front[1..] == es[1..][..|es[1..]| - 1];
    }
  }

  /** Nothing expired: the window holds the whole deque. */
  lemma {:induction false} WithinAll(es: seq<Event>, lo: int, hi: int)
    requires forall i :: 0 <= i < |es| ==> lo < es[i].ts <= hi
    ensures Within(es, lo, hi) == Total(es)
  {
    if es != [] {
      WithinFront(es, lo, hi);
      WithinAll(es[1..], lo, hi);
    }
  }

  lemma {:induction false} WithinAtMostTotal(es: seq<Event>, lo: int, hi: int)
    requires forall i :: 0 <= i < |es| ==> es[i].weight > 0
    ensures 0 <= Within(es, lo, hi) <= Total(es)
  {
    if es != [] {
      WithinFront(es, lo, hi);
      WithinAtMostTotal(es[1..], lo, hi);
    }
  }

  lemma {:induction false} WithinNarrows(es: seq<Event>, lo: int, lo': int, hi: int, hi': int)
    requires forall i :: 0 <= i < |es| ==> es[i].weight >= 0
    requires lo <= lo' && hi' <= hi
    ensures 0 <= Within(es, lo', hi') <= Within(es, lo, hi)
  {
    if es != [] {
      WithinNarrows(es[..|es| - 1], lo, lo', hi, hi');
    }
  }

  /** Pruning forgets only what no window from now on can count. */
  lemma {:induction false} PrunedKeeps(es: seq<Event>, cutoff: int, lo: int, hi: int)
    requires cutoff - 1 <= lo
    ensures Within(Pruned(es, cutoff), lo, hi) == Within(es, lo, hi)
  {
    if es != [] && es[0].ts < cutoff {
      WithinFront(es, lo, hi);
      PrunedKeeps(es[1..], cutoff, lo, hi);
    }
  }

  lemma {:induction false} PrunedOrdered(es: seq<Event>, cutoff: int, now: int)
    requires Ordered(es, now)
    ensures Ordered(Pruned(es, cutoff), now)
  {
    if es != [] && es[0].ts < cutoff {
      PrunedOrdered(es[1..], cutoff, now);
    }
  }

  lemma {:induction false} FirstFitExact(es: seq<Event>, span: int, cap: int, now: int, cost: int, t: int)
    requires Ordered(es, now) && now <= t && cost <= cap < Total(es) + cost
    ensures Within(es, t - span, t) + cost <= cap <==> now + FirstFit(es, Total(es), span, cap, now, cost) <= t
    ensures 0 <= FirstFit(es, Total(es), span, cap, now, cost)
  {
    var lo := t - span;
    var rest := es[1..];
    WithinFront(es, lo, t);
    if lo < es[0].ts {
      WithinAll(es, lo, t);
      WithinAll(rest, lo, t);
    }
    if Total(rest) + cost <= cap {
      WithinAtMostTotal(rest, lo, t);
    } else {
      FirstFitExact(rest, span, cap, now, cost, t);
    }
  }

  lemma {:induction false} FirstFitNever(es: seq<Event>, running: int, span: int, cap: int, now: int, cost: int)
    requires cost > cap && running == Total(es)
    requires forall i :: 0 <= i < |es| ==> es[i].weight > 0
    ensures FirstFit(es, running, span, cap, now, cost) == span
  {
    if es != [] {
      WithinAtMostTotal(es[1..], 0, 0);
      FirstFitNever(es[1..], running - es[0].weight, span, cap, now, cost);
    }
  }

  /** `time_until_room` is exact: with no additions in between there is room at an instant exactly when the
      wait returned has elapsed; a cost above a positive cap gets the whole span, and there is never room. */
  lemma WaitExact(es: seq<Event>, span: int, cap: nat, now: int, cost: int, t: int)
    requires span > 0 && Ordered(es, now) && now <= t
    ensures var w := WaitFor(Pruned(es, now - span), span, cap, now, cost);
      && 0 <= w
      && (cap == 0 || cost <= cap ==> (Room(es, span, cap, t, cost) <==> now + w <= t))
      && (cap > 0 && cost > cap ==> w == span && !Room(es, span, cap, t, cost))
  {
    var p := Pruned(es, now - span);
    PrunedOrdered(es, now - span, now);
    PrunedKeeps(es, now - span, t - span, t);
    WithinAtMostTotal(p, t - span, t);
    if cap > 0 && Total(p) + cost > cap {
      if cost <= cap {
        FirstFitExact(p, span, cap, now, cost, t);
      } else {
        FirstFitNever(p, Total(p), span, cap, now, cost);
      }
    }
  }

  /* ---------- The four windows of one model ---------- */

  datatype Limits = Limits(rpm: nat, rpd: nat, tpm: nat, tpd: nat)
  datatype Windows = Windows(reqMin: seq<Event>, reqDay: seq<Event>, tokMin: seq<Event>, tokDay: seq<Event>)
  datatype Label = ReqMin | ReqDay | TokMin | TokDay
  datatype Refusal = Refusal(window: Label, wait: int)

  /** Provider counters after parsing; `None` stands for a header that is absent, empty or not a number. */
  datatype Headers = Headers(
    limitRequests: Option<int>, remainingRequests: Option<int>, limitTokens: Option<int>, remainingTokens: Option<int>)

  const NO_WINDOWS := Windows([], [], [], [])

  function PruneAll(w: Windows, now: int): Windows {
    Windows(Pruned(w.reqMin, now - MINUTE), Pruned(w.reqDay, now - DAY),
            Pruned(w.tokMin, now - MINUTE), Pruned(w.tokDay, now - DAY))
  }

  /** `max` over the four waits: the first of the largest. */
  function Worse(a: Refusal, b: Refusal): Refusal {
    if b.wait > a.wait then b else a
  }

  function Worst(l: Limits, p: Windows, now: int, tokens: nat): Refusal {
    Worse(Worse(Worse(
      Refusal(ReqMin, WaitFor(p.reqMin, MINUTE, l.rpm, now, 1)),
      Refusal(ReqDay, WaitFor(p.reqDay, DAY, l.rpd, now, 1))),
      Refusal(TokMin, WaitFor(p.tokMin, MINUTE, l.tpm, now, tokens))),
      Refusal(TokDay, WaitFor(p.tokDay, DAY, l.tpd, now, tokens)))
  }

  /** `_compute_wait`: one critical section, recording in every bucket or in none. */
  function Attempt(l: Limits, w: Windows, now: int, tokens: nat): (Option<Refusal>, Windows) {
    Decide(l, PruneAll(w, now), now, tokens)
  }

  function Decide(l: Limits, p: Windows, now: int, tokens: nat): (Option<Refusal>, Windows) {
    var worst := Worst(l, p, now, tokens);
    if worst.wait > 0 then (Some(worst), p)
    else (None, Windows(Added(p.reqMin, now, 1), Added(p.reqDay, now, 1),
                        Added(p.tokMin, now, tokens), Added(p.tokDay, now, tokens)))
  }

  function SpanOf(window: Label): int {
    if window.ReqMin? || window.TokMin? then MINUTE else DAY
  }

  function CapOf(l: Limits, window: Label): nat {
    match window
    case ReqMin => l.rpm
    case ReqDay => l.rpd
    case TokMin => l.tpm
    case TokDay => l.tpd
  }

  function EventsOf(w: Windows, window: Label): seq<Event> {
    match window
    case ReqMin => w.reqMin
    case ReqDay => w.reqDay
    case TokMin => w.tokMin
    case TokDay => w.tokDay
  }

  /** What a call costs each window: one request, or its tokens. */
  function CostOf(window: Label, tokens: nat): nat {
    if window.ReqMin? || window.ReqDay? then 1 else tokens
  }

  /** The wait that one window, pruned, asks for. */
  function WaitOf(l: Limits, p: Windows, window: Label, now: int, tokens: nat): int {
    WaitFor(EventsOf(p, window), SpanOf(window), CapOf(l, window), now, CostOf(window, tokens))
  }

  /** A refusal names the window that asks for the longest wait; an admission means that none asks for any. */
  lemma RefusalExact(l: Limits, w: Windows, now: int, tokens: nat)
    ensures var refusal, p := Attempt(l, w, now, tokens).0, PruneAll(w, now);
      && (refusal.None? <==> forall window :: WaitOf(l, p, window, now, tokens) <= 0)
      && (refusal.Some? ==> refusal.value.wait == WaitOf(l, p, refusal.value.window, now, tokens) > 0)
      && (refusal.Some? ==> forall window :: WaitOf(l, p, window, now, tokens) <= refusal.value.wait)
  {
    var p := PruneAll(w, now);
    var worst := Worst(l, p, now, tokens);
    assert worst.wait == WaitOf(l, p, worst.window, now, tokens);
    forall window ensures WaitOf(l, p, window, now, tokens) <= worst.wait {
    }
  }

  /** What one pair of headers makes of its bucket. */
  function Synced(es: seq<Event>, now: int, limit: Option<int>, remaining: Option<int>): seq<Event> {
    if limit.Some? && remaining.Some? then Added([], now, Max(0, limit.value - remaining.value)) else es
  }

  /** `record_response`. */
  function Recorded(w: Windows, now: int, actual: int, headers: Option<Headers>): Windows {
    match headers
    case Some(h) => w.(reqDay := Synced(w.reqDay, now, h.limitRequests, h.remainingRequests),
                       tokMin := Synced(w.tokMin, now, h.limitTokens, h.remainingTokens))
    case None => w.(tokMin := Added(w.tokMin, now, actual), tokDay := Added(w.tokDay, now, actual))
  }

  /** From now on the window holds `extra` more, for as long as it lasts. */
  ghost predicate Grows(es: seq<Event>, es': seq<Event>, span: int, now: int, extra: nat) {
    forall t :: now <= t ==> InWindow(es', span, t) == InWindow(es, span, t) + if t < now + span then extra else 0
  }

  /** From now on the window holds `used`, for as long as it lasts, and nothing else. */
  ghost predicate Holds(es: seq<Event>, span: int, now: int, used: nat) {
    forall t :: now <= t ==> InWindow(es, span, t) == if t < now + span then used else 0
  }

  /** What a pair of counters does to the window it is about. */
  ghost predicate Reported(
    es: seq<Event>, es': seq<Event>, span: int, now: int, limit: Option<int>, remaining: Option<int>)
  {
    if limit.Some? && remaining.Some? then Holds(es', span, now, Max(0, limit.value - remaining.value)) else es' == es
  }

  /** What a response leaves in the four windows. Without headers both token windows hold the tokens of the reply
      on top of what they held; with them, the day's requests and the minute's tokens hold what is reported. */
  ghost predicate Responded(w: Windows, w': Windows, now: int, actual: int, headers: Option<Headers>) {
    && w'.reqMin == w.reqMin
    && (headers.None? ==>
          && w'.reqDay == w.reqDay
          && Grows(w.tokMin, w'.tokMin, MINUTE, now, Max(0, actual))
          && Grows(w.tokDay, w'.tokDay, DAY, now, Max(0, actual)))
    && (headers.Some? ==>
          && w'.tokDay == w.tokDay
          && Reported(w.reqDay, w'.reqDay, DAY, now, headers.value.limitRequests, headers.value.remainingRequests)
          && Reported(w.tokMin, w'.tokMin, MINUTE, now, headers.value.limitTokens, headers.value.remainingTokens))
  }

  lemma AddedGrows(es: seq<Event>, span: int, now: int, weight: int)
    ensures Grows(es, Added(es, now, weight), span, now, Max(0, weight))
  {
    forall t | now <= t
      ensures InWindow(Added(es, now, weight), span, t)
        == InWindow(es, span, t) + if t < now + span then Max(0, weight) else 0
    {
      if weight > 0 {
        WithinAdded(es, now, weight, t - span, t);
      }
    }
  }

  lemma SyncedReports(es: seq<Event>, span: int, now: int, limit: Option<int>, remaining: Option<int>)
    ensures Reported(es, Synced(es, now, limit, remaining), span, now, limit, remaining)
  {
    if limit.Some? && remaining.Some? {
      AddedGrows([], span, now, Max(0, limit.value - remaining.value));
    }
  }

  lemma ResponseLeaves(w: Windows, now: int, actual: int, headers: Option<Headers>)
    ensures Responded(w, Recorded(w, now, actual, headers), now, actual, headers)
  {
    match headers
    case None =>
      AddedGrows(w.tokMin, MINUTE, now, actual);
      AddedGrows(w.tokDay, DAY, now, actual);
    case Some(h) =>
      SyncedReports(w.reqDay, DAY, now, h.limitRequests, h.remainingRequests);
      SyncedReports(w.tokMin, MINUTE, now, h.limitTokens, h.remainingTokens);
  }

  /* ---------- Runs of many callers ---------- */

  /** One locked region, `gap` ticks after the previous one. */
  datatype Step =
    | Try(gap: nat, tokens: nat)
    | Record(gap: nat, actual: int, headers: Option<Headers>)

  /** `reqs` and `toks` remember every admission ever made; nothing prunes them. */
  datatype Machine = Machine(now: int, w: Windows, reqs: seq<Event>, toks: seq<Event>)

  function DoStep(l: Limits, m: Machine, s: Step): Machine {
    var now := m.now + s.gap;
    match s
    case Try(_, tokens) =>
      var (refusal, w) := Attempt(l, m.w, now, tokens);
      if refusal.Some? then m.(now := now, w := w)
      else Machine(now, w, m.reqs + [Event(now, 1)], m.toks + [Event(now, tokens)])
    case Record(_, actual, headers) => m.(now := now, w := Recorded(m.w, now, actual, headers))
  }

  function Start(now: int): Machine {
    Machine(now, NO_WINDOWS, [], [])
  }

  function Run(l: Limits, m: Machine, steps: seq<Step>): Machine
    decreases |steps|
  {
    if steps == [] then m else Run(l, DoStep(l, m, steps[0]), steps[1..])
  }

  /** The admissions never exceed the cap in any window of the given span, at any instant. */
  ghost predicate Bounded(history: seq<Event>, span: int, cap: nat) {
    cap > 0 ==> forall t :: InWindow(history, span, t) <= cap
  }

  /** The deque counts at least every admission that a window at or after `now` can see. */
  ghost predicate Covers(es: seq<Event>, history: seq<Event>, span: int, now: int) {
    forall t :: now <= t ==> InWindow(history, span, t) <= InWindow(es, span, t)
  }

  ghost predicate Past(history: seq<Event>, now: int) {
    forall i :: 0 <= i < |history| ==> history[i].ts <= now && history[i].weight >= 0
  }

  ghost predicate Sound(es: seq<Event>, history: seq<Event>, span: int, cap: nat, now: int) {
    Ordered(es, now) && Past(history, now) && Covers(es, history, span, now) && Bounded(history, span, cap)
  }

  lemma {:induction false} WithinEmptyAfter(es: seq<Event>, lo: int, hi: int)
    requires forall i :: 0 <= i < |es| ==> es[i].ts <= lo
    ensures Within(es, lo, hi) == 0
  {
    if es != [] {
      WithinEmptyAfter(es[..|es| - 1], lo, hi);
    }
  }

  lemma WithinAdded(es: seq<Event>, now: int, weight: int, lo: int, hi: int)
    requires weight >= 0
    ensures Within(Added(es, now, weight), lo, hi) == Within(es, lo, hi) + if lo < now <= hi then weight else 0
    ensures Within(es + [Event(now, weight)], lo, hi) == Within(es, lo, hi) + if lo < now <= hi then weight else 0
  {
    assert (es + [Event(now, weight)])[..|es|] == es;
  }

  lemma SoundLater(es: seq<Event>, h: seq<Event>, span: int, cap: nat, now: int, later: int)
    requires Sound(es, h, span, cap, now) && now <= later
    ensures Sound(es, h, span, cap, later)
  {
  }

  lemma SoundPruned(es: seq<Event>, h: seq<Event>, span: int, cap: nat, now: int, later: int)
    requires Sound(es, h, span, cap, now) && now <= later && span > 0
    ensures Sound(Pruned(es, later - span), h, span, cap, later)
  {
    PrunedOrdered(es, later - span, later);
    forall t | later <= t
      ensures InWindow(Pruned(es, later - span), span, t) == InWindow(es, span, t)
    {
      PrunedKeeps(es, later - span, t - span, t);
    }
  }

  /** Nothing stamped after `now`: no later window counts more of the history than the one ending now. */
  lemma LaterWindow(h: seq<Event>, span: int, now: int, t: int)
    requires Past(h, now) && now <= t && 0 < span
    ensures 0 <= InWindow(h, span, t) <= InWindow(h, span, now)
    ensures now + span <= t ==> InWindow(h, span, t) == 0
  {
    WithinNarrows(h, now - span, t - span, t, t);
    SameBeyond(h, now - span, now, t);
    if now + span <= t {
      WithinEmptyAfter(h, t - span, t);
    }
  }

  lemma AdmitCovers(es: seq<Event>, h: seq<Event>, span: int, now: int, cost: nat)
    requires Covers(es, h, span, now)
    ensures Covers(Added(es, now, cost), h + [Event(now, cost)], span, now)
  {
    forall t | now <= t
      ensures InWindow(h + [Event(now, cost)], span, t) <= InWindow(Added(es, now, cost), span, t)
    {
      WithinAdded(es, now, cost, t - span, t);
      WithinAdded(h, now, cost, t - span, t);
      assert InWindow(h, span, t) <= InWindow(es, span, t);
    }
  }

  lemma AdmitBounded(h: seq<Event>, span: int, cap: nat, now: int, cost: nat)
    requires span > 0 && Past(h, now) && Bounded(h, span, cap)
    requires cap > 0 ==> InWindow(h, span, now) + cost <= cap
    ensures Bounded(h + [Event(now, cost)], span, cap)
  {
    forall t | cap > 0
      ensures InWindow(h + [Event(now, cost)], span, t) <= cap
    {
      WithinAdded(h, now, cost, t - span, t);
      assert InWindow(h, span, t) <= cap;
      if now <= t {
        LaterWindow(h, span, now, t);
      }
    }
  }

  /** A zero wait means that the history itself has room. */
  lemma NoWaitHasRoom(es: seq<Event>, h: seq<Event>, span: int, cap: nat, now: int, cost: nat)
    requires span > 0 && Ordered(es, now) && Covers(es, h, span, now)
    requires es == Pruned(es, now - span) && WaitFor(es, span, cap, now, cost) <= 0
    ensures cap > 0 ==> InWindow(h, span, now) + cost <= cap
  {
    WaitExact(es, span, cap, now, cost, now);
    assert InWindow(h, span, now) <= InWindow(es, span, now);
  }

  /** An admission keeps the bound at every instant, past and future. */
  lemma AdmitKeeps(es: seq<Event>, h: seq<Event>, span: int, cap: nat, now: int, cost: nat)
    requires span > 0 && Sound(es, h, span, cap, now)
    requires cap > 0 ==> InWindow(h, span, now) + cost <= cap
    ensures Sound(Added(es, now, cost), h + [Event(now, cost)], span, cap, now)
  {
    AdmitCovers(es, h, span, now, cost);
    AdmitBounded(h, span, cap, now, cost);
  }

  /** Past the last stamp, the upper end of the interval does not matter. */
  lemma {:induction false} SameBeyond(h: seq<Event>, lo: int, hi: int, hi': int)
    requires hi <= hi' && forall i :: 0 <= i < |h| ==> h[i].ts <= hi
    ensures Within(h, lo, hi) == Within(h, lo, hi')
  {
    if h != [] {
      SameBeyond(h[..|h| - 1], lo, hi, hi');
    }
  }

  lemma SyncCovers(h: seq<Event>, span: int, now: int, used: nat)
    requires span > 0 && Past(h, now) && InWindow(h, span, now) <= used
    ensures Covers(Added([], now, used), h, span, now)
  {
    forall t | now <= t
      ensures InWindow(h, span, t) <= InWindow(Added([], now, used), span, t)
    {
      WithinAdded([], now, used, t - span, t);
      LaterWindow(h, span, now, t);
    }
  }

  lemma OneEventOrdered(now: int, used: nat)
    ensures Ordered(Added([], now, used), now)
  {
  }

  /** A header sync that reports at least what was admitted in the current window is harmless. */
  lemma SyncKeeps(es: seq<Event>, h: seq<Event>, span: int, cap: nat, now: int, used: nat)
    requires span > 0 && Sound(es, h, span, cap, now) && InWindow(h, span, now) <= used
    ensures Sound(Added([], now, used), h, span, cap, now)
  {
    SyncCovers(h, span, now, used);
    OneEventOrdered(now, used);
  }

  ghost predicate NextAdmissionBounded(es: seq<Event>, h: seq<Event>, span: int, cap: nat, now: int, cost: nat) {
    WaitFor(es, span, cap, now, cost) == 0 ==> Bounded(h + [Event(now, cost)], span, cap)
  }

  /** Exactly when a header sync keeps the sliding bound: the next admission, whatever its cost, stays within
      the cap if and only if the reported use is at least the weight already admitted in the window. */
  lemma SyncExact(es: seq<Event>, h: seq<Event>, span: int, cap: nat, now: int, used: nat)
    requires span > 0 && cap > 0 && Sound(es, h, span, cap, now)
    ensures (forall cost: nat :: NextAdmissionBounded(Added([], now, used), h, span, cap, now, cost))
       <==> InWindow(h, span, now) <= used
  {
    var es' := Added([], now, used);
    if InWindow(h, span, now) <= used {
      SyncKeeps(es, h, span, cap, now, used);
      forall cost: nat ensures NextAdmissionBounded(es', h, span, cap, now, cost) {
        if WaitFor(es', span, cap, now, cost) == 0 {
          NoWaitHasRoom(es', h, span, cap, now, cost);
          AdmitKeeps(es', h, span, cap, now, cost);
        }
      }
    } else {
      var cost := cap - used;
      assert InWindow(h, span, now) <= cap;
      assert Total(es') == used by {
        if used > 0 { assert es'[1..] == []; }
      }
      WithinAdded(h, now, cost, now - span, now);
      assert InWindow(h + [Event(now, cost)], span, now) > cap;
      assert !NextAdmissionBounded(es', h, span, cap, now, cost);
    }
  }

  /** The weight that one window holds at `now`, and whether it has room for a cost. */
  function Held(w: Windows, window: Label, now: int): int {
    InWindow(EventsOf(w, window), SpanOf(window), now)
  }

  ghost predicate HasRoom(l: Limits, w: Windows, window: Label, now: int, cost: int) {
    Room(EventsOf(w, window), SpanOf(window), CapOf(l, window), now, cost)
  }

  /** Room for one more request. */
  ghost predicate RequestRoom(l: Limits, w: Windows, now: int) {
    HasRoom(l, w, ReqMin, now, 1) && HasRoom(l, w, ReqDay, now, 1)
  }

  /** The most tokens that both token windows have room for, negative when there is none; 0 when neither has a cap. */
  function TokenRoom(l: Limits, w: Windows, now: int): int {
    var minute, day := l.tpm - Held(w, TokMin, now), l.tpd - Held(w, TokDay, now);
    if l.tpm == 0 && l.tpd == 0 then 0
    else if l.tpd == 0 || (l.tpm > 0 && minute <= day) then minute
    else day
  }

  ghost predicate Affordable(l: Limits, w: Windows, now: int, tokens: nat) {
    (l.tpm == 0 && l.tpd == 0) || tokens <= TokenRoom(l, w, now)
  }

  lemma NoWaitIsRoom(l: Limits, w: Windows, window: Label, now: int, tokens: nat)
    requires Ordered(EventsOf(w, window), now)
    ensures WaitOf(l, PruneAll(w, now), window, now, tokens) <= 0
       <==> HasRoom(l, w, window, now, CostOf(window, tokens))
  {
    WaitExact(EventsOf(w, window), SpanOf(window), CapOf(l, window), now, CostOf(window, tokens), now);
    assert EventsOf(PruneAll(w, now), window) == Pruned(EventsOf(w, window), now - SpanOf(window));
  }

  /** Which calls are admitted, counting what the four windows hold. */
  lemma AdmittedExactly(l: Limits, w: Windows, now: int, tokens: nat)
    requires AllOrdered(w, now)
    ensures Attempt(l, w, now, tokens).0.None?
       <==> RequestRoom(l, w, now) && Affordable(l, w, now, tokens)
  {
    RefusalExact(l, w, now, tokens);
    NoWaitIsRoom(l, w, ReqMin, now, tokens);
    NoWaitIsRoom(l, w, ReqDay, now, tokens);
    NoWaitIsRoom(l, w, TokMin, now, tokens);
    NoWaitIsRoom(l, w, TokDay, now, tokens);
    var p := PruneAll(w, now);
    var ok := Attempt(l, w, now, tokens).0.None?;
    assert ok ==> WaitOf(l, p, ReqMin, now, tokens) <= 0 && WaitOf(l, p, ReqDay, now, tokens) <= 0;
    assert ok ==> WaitOf(l, p, TokMin, now, tokens) <= 0 && WaitOf(l, p, TokDay, now, tokens) <= 0;
    assert !ok ==> exists window :: WaitOf(l, p, window, now, tokens) > 0;
  }

  /** The call is admitted, and takes the history of the window past its cap. */
  ghost predicate Overruns(l: Limits, m: Machine, gap: nat, tokens: nat, window: Label) {
    && Attempt(l, m.w, m.now + gap, tokens).0.None?
    && !Bounded(HistoryOf(DoStep(l, m, Try(gap, tokens)), window), SpanOf(window), CapOf(l, window))
  }

  /** All four windows have room for a call, and with the most that they have room for the history of the window
      does not. */
  ghost predicate RoomBeyondCap(l: Limits, m: Machine, now: int, window: Label) {
    var room := TokenRoom(l, m.w, now);
    && RequestRoom(l, m.w, now) && 0 <= room
    && InWindow(HistoryOf(m, window), SpanOf(window), now) + CostOf(window, room) > CapOf(l, window)
  }

  lemma OverrunNeedsRoom(l: Limits, m: Machine, gap: nat, tokens: nat, window: Label)
    requires AllOrdered(m.w, m.now) && Past(HistoryOf(m, window), m.now)
    requires CapOf(l, window) > 0 && Bounded(HistoryOf(m, window), SpanOf(window), CapOf(l, window))
    requires Overruns(l, m, gap, tokens, window)
    ensures RoomBeyondCap(l, m, m.now + gap, window)
  {
    OverrunAt(l, m, gap, tokens, window);
    AdmittedLater(l, m, gap, tokens);
  }

  /** Exactly when some call, that long after any state, is admitted past the cap of a window. After a header sync
      that is when the window's history holds more than the window was told, by more than the others refuse. */
  lemma OverrunExact(l: Limits, m: Machine, gap: nat, window: Label)
    requires AllOrdered(m.w, m.now) && Past(HistoryOf(m, window), m.now)
    requires CapOf(l, window) > 0 && Bounded(HistoryOf(m, window), SpanOf(window), CapOf(l, window))
    ensures (exists tokens: nat :: Overruns(l, m, gap, tokens, window)) <==> RoomBeyondCap(l, m, m.now + gap, window)
  {
    forall tokens: nat | Overruns(l, m, gap, tokens, window) ensures RoomBeyondCap(l, m, m.now + gap, window) {
      OverrunNeedsRoom(l, m, gap, tokens, window);
    }
    if RoomBeyondCap(l, m, m.now + gap, window) {
      var room := TokenRoom(l, m.w, m.now + gap);
      AdmittedLater(l, m, gap, room);
      OverrunAt(l, m, gap, room, window);
      assert Overruns(l, m, gap, room, window);
    }
  }

  lemma AdmittedLater(l: Limits, m: Machine, gap: nat, tokens: nat)
    requires AllOrdered(m.w, m.now)
    ensures Attempt(l, m.w, m.now + gap, tokens).0.None?
       <==> RequestRoom(l, m.w, m.now + gap) && Affordable(l, m.w, m.now + gap, tokens)
  {
    OrderedNow(m.w, m.now, m.now + gap);
    AdmittedExactly(l, m.w, m.now + gap, tokens);
  }

  lemma OrderedNow(w: Windows, now: int, later: int)
    requires AllOrdered(w, now) && now <= later
    ensures AllOrdered(w, later)
  {
    forall window ensures Ordered(EventsOf(w, window), later) {
      OrderedLater(EventsOf(w, window), now, later);
    }
  }

  /** An admitted call overruns the window exactly when its cost does not fit what the history holds. */
  lemma OverrunAt(l: Limits, m: Machine, gap: nat, tokens: nat, window: Label)
    requires Past(HistoryOf(m, window), m.now) && Attempt(l, m.w, m.now + gap, tokens).0.None?
    requires CapOf(l, window) > 0 && Bounded(HistoryOf(m, window), SpanOf(window), CapOf(l, window))
    ensures Overruns(l, m, gap, tokens, window) <==>
      InWindow(HistoryOf(m, window), SpanOf(window), m.now + gap) + CostOf(window, tokens) > CapOf(l, window)
  {
    var h, now, cost := HistoryOf(m, window), m.now + gap, CostOf(window, tokens);
    AdmitBoundedExactly(h, SpanOf(window), CapOf(l, window), now, cost);
    assert HistoryOf(DoStep(l, m, Try(gap, tokens)), window) == h + [Event(now, cost)] by {
      TryAt(l, m, Try(gap, tokens), window);
    }
  }

  lemma AdmitBoundedExactly(h: seq<Event>, span: int, cap: nat, now: int, cost: nat)
    requires span > 0 && cap > 0 && Past(h, now) && Bounded(h, span, cap)
    ensures Bounded(h + [Event(now, cost)], span, cap) <==> InWindow(h, span, now) + cost <= cap
  {
    if InWindow(h, span, now) + cost <= cap {
      AdmitBounded(h, span, cap, now, cost);
    } else {
      WithinAdded(h, now, cost, now - span, now);
      assert InWindow(h + [Event(now, cost)], span, now) > cap;
    }
  }

  /** The reported use of a header pair, when it has one. */
  ghost predicate CoveringSync(h: seq<Event>, span: int, now: int, limit: Option<int>, remaining: Option<int>) {
    limit.Some? && remaining.Some? ==> InWindow(h, span, now) <= Max(0, limit.value - remaining.value)
  }

  /** Every header sync of the run reports at least what this process admitted. */
  ghost predicate Covering(l: Limits, m: Machine, steps: seq<Step>)
    decreases |steps|
  {
    steps != [] ==>
      && CoveringAt(m, steps[0])
      && Covering(l, DoStep(l, m, steps[0]), steps[1..])
  }

  ghost predicate CoveringAt(m: Machine, s: Step) {
    s.Record? && s.headers.Some? ==>
      var h, now := s.headers.value, m.now + s.gap;
      && CoveringSync(m.reqs, DAY, now, h.limitRequests, h.remainingRequests)
      && CoveringSync(m.toks, MINUTE, now, h.limitTokens, h.remainingTokens)
  }

  lemma {:induction false} PrunedTwice(es: seq<Event>, c: int, c': int)
    requires c <= c'
    ensures Pruned(Pruned(es, c), c') == Pruned(es, c')
  {
    if es != [] && es[0].ts < c {
      PrunedTwice(es[1..], c, c');
    }
  }

  /** What `_compute_wait` does to one window. */
  lemma AttemptAt(l: Limits, w: Windows, now: int, tokens: nat, window: Label)
    ensures var (refusal, w') := Attempt(l, w, now, tokens);
      var p := Pruned(EventsOf(w, window), now - SpanOf(window));
      && EventsOf(w', window) == (if refusal.Some? then p else Added(p, now, CostOf(window, tokens)))
      && (refusal.None? ==> WaitFor(p, SpanOf(window), CapOf(l, window), now, CostOf(window, tokens)) <= 0)
  {
    RefusalExact(l, w, now, tokens);
    assert EventsOf(PruneAll(w, now), window) == Pruned(EventsOf(w, window), now - SpanOf(window));
    assert Attempt(l, w, now, tokens).0.None? ==> WaitOf(l, PruneAll(w, now), window, now, tokens) <= 0;
  }

  function HistoryOf(m: Machine, window: Label): seq<Event> {
    if window.ReqMin? || window.ReqDay? then m.reqs else m.toks
  }

  ghost predicate SoundAt(l: Limits, m: Machine, window: Label) {
    Sound(EventsOf(m.w, window), HistoryOf(m, window), SpanOf(window), CapOf(l, window), m.now)
  }

  lemma WindowStep(es: seq<Event>, h: seq<Event>, span: int, cap: nat, now: int, later: int, cost: nat)
    requires span > 0 && now <= later && Sound(es, h, span, cap, now)
    requires WaitFor(Pruned(es, later - span), span, cap, later, cost) <= 0
    ensures Sound(Added(Pruned(es, later - span), later, cost), h + [Event(later, cost)], span, cap, later)
  {
    SoundPruned(es, h, span, cap, now, later);
    PrunedTwice(es, later - span, later - span);
    NoWaitHasRoom(Pruned(es, later - span), h, span, cap, later, cost);
    AdmitKeeps(Pruned(es, later - span), h, span, cap, later, cost);
  }

  lemma TryAt(l: Limits, m: Machine, s: Step, window: Label)
    requires s.Try?
    ensures var (m', now, cost) := (DoStep(l, m, s), m.now + s.gap, CostOf(window, s.tokens));
      var p := Pruned(EventsOf(m.w, window), now - SpanOf(window));
      && m'.now == now
      && (Attempt(l, m.w, now, s.tokens).0.Some? ==>
            EventsOf(m'.w, window) == p && HistoryOf(m', window) == HistoryOf(m, window))
      && (Attempt(l, m.w, now, s.tokens).0.None? ==>
            && EventsOf(m'.w, window) == Added(p, now, cost)
            && HistoryOf(m', window) == HistoryOf(m, window) + [Event(now, cost)]
            && WaitFor(p, SpanOf(window), CapOf(l, window), now, cost) <= 0)
  {
    AttemptAt(l, m.w, m.now + s.gap, s.tokens, window);
  }

  lemma WindowKeeps(l: Limits, m: Machine, m': Machine, refused: bool, cost: nat, window: Label)
    requires SoundAt(l, m, window) && m.now <= m'.now
    requires var p := Pruned(EventsOf(m.w, window), m'.now - SpanOf(window));
      if refused then EventsOf(m'.w, window) == p && HistoryOf(m', window) == HistoryOf(m, window)
      else
        && EventsOf(m'.w, window) == Added(p, m'.now, cost)
        && HistoryOf(m', window) == HistoryOf(m, window) + [Event(m'.now, cost)]
        && WaitFor(p, SpanOf(window), CapOf(l, window), m'.now, cost) <= 0
    ensures SoundAt(l, m', window)
  {
    var es, h, span, cap := EventsOf(m.w, window), HistoryOf(m, window), SpanOf(window), CapOf(l, window);
    if refused {
      SoundPruned(es, h, span, cap, m.now, m'.now);
    } else {
      WindowStep(es, h, span, cap, m.now, m'.now, cost);
    }
  }

  lemma TryKeeps(l: Limits, m: Machine, s: Step, window: Label)
    requires s.Try? && SoundAt(l, m, window)
    ensures SoundAt(l, DoStep(l, m, s), window)
  {
    TryAt(l, m, s, window);
    var refused := Attempt(l, m.w, m.now + s.gap, s.tokens).0.Some?;
    WindowKeeps(l, m, DoStep(l, m, s), refused, CostOf(window, s.tokens), window);
  }

  lemma ExtraSound(es: seq<Event>, h: seq<Event>, span: int, cap: nat, now: int, later: int, weight: int)
    requires span > 0 && now <= later && Sound(es, h, span, cap, now)
    ensures Sound(Added(es, later, weight), h, span, cap, later)
  {
    SoundLater(es, h, span, cap, now, later);
    forall t | weight > 0 ensures InWindow(es, span, t) <= InWindow(Added(es, later, weight), span, t) {
      WithinAdded(es, later, weight, t - span, t);
    }
  }

  lemma SyncedSound(
    es: seq<Event>, h: seq<Event>, span: int, cap: nat, now: int, later: int,
    limit: Option<int>, remaining: Option<int>)
    requires span > 0 && now <= later && Sound(es, h, span, cap, now) && CoveringSync(h, span, later, limit, remaining)
    ensures Sound(Synced(es, later, limit, remaining), h, span, cap, later)
  {
    if limit.Some? && remaining.Some? {
      var used := Max(0, limit.value - remaining.value);
      SyncCovers(h, span, later, used);
      OneEventOrdered(later, used);
    }
  }

  /** What `record_response` does to one window. */
  function RecordedIn(es: seq<Event>, window: Label, now: int, actual: int, headers: Option<Headers>): seq<Event> {
    match headers
    case Some(h) =>
      if window.ReqDay? then Synced(es, now, h.limitRequests, h.remainingRequests)
      else if window.TokMin? then Synced(es, now, h.limitTokens, h.remainingTokens)
      else es
    case None => if window.TokMin? || window.TokDay? then Added(es, now, actual) else es
  }

  lemma RecordedKeeps(l: Limits, m: Machine, m': Machine, actual: int, headers: Option<Headers>, window: Label)
    requires SoundAt(l, m, window) && m.now <= m'.now
    requires EventsOf(m'.w, window) == RecordedIn(EventsOf(m.w, window), window, m'.now, actual, headers)
    requires HistoryOf(m', window) == HistoryOf(m, window)
    requires headers.Some? && window.ReqDay? ==>
      CoveringSync(m.reqs, DAY, m'.now, headers.value.limitRequests, headers.value.remainingRequests)
    requires headers.Some? && window.TokMin? ==>
      CoveringSync(m.toks, MINUTE, m'.now, headers.value.limitTokens, headers.value.remainingTokens)
    ensures SoundAt(l, m', window)
  {
    var es, h, span, cap := EventsOf(m.w, window), HistoryOf(m, window), SpanOf(window), CapOf(l, window);
    if headers.None? && !window.ReqMin? && !window.ReqDay? {
      ExtraSound(es, h, span, cap, m.now, m'.now, actual);
    } else if headers.Some? && window.ReqDay? {
      SyncedSound(es, h, span, cap, m.now, m'.now, headers.value.limitRequests, headers.value.remainingRequests);
    } else if headers.Some? && window.TokMin? {
      SyncedSound(es, h, span, cap, m.now, m'.now, headers.value.limitTokens, headers.value.remainingTokens);
    } else {
      SoundLater(es, h, span, cap, m.now, m'.now);
    }
  }

  lemma RecordKeeps(l: Limits, m: Machine, s: Step, window: Label)
    requires s.Record? && SoundAt(l, m, window)
    requires Syncs(window) ==> CoveringAt(m, s)
    ensures SoundAt(l, DoStep(l, m, s), window)
  {
    var es := EventsOf(m.w, window);
    assert EventsOf(DoStep(l, m, s).w, window) == RecordedIn(es, window, m.now + s.gap, s.actual, s.headers);
    RecordedKeeps(l, m, DoStep(l, m, s), s.actual, s.headers, window);
  }

  /** The windows that header counters overwrite. */
  ghost predicate Syncs(window: Label) {
    window.ReqDay? || window.TokMin?
  }

  lemma {:induction false} RunKeeps(l: Limits, m: Machine, steps: seq<Step>, window: Label)
    requires SoundAt(l, m, window) && (Syncs(window) ==> Covering(l, m, steps))
    ensures SoundAt(l, Run(l, m, steps), window)
    decreases |steps|
  {
    if steps != [] {
      if steps[0].Try? { TryKeeps(l, m, steps[0], window); } else { RecordKeeps(l, m, steps[0], window); }
      RunKeeps(l, DoStep(l, m, steps[0]), steps[1..], window);
    }
  }

  /** The sliding bound over every run of interleaved callers and at every instant: the minute's requests and
      the day's tokens stay bounded whatever responses are recorded; the other two windows do too unless a
      header sync reports less than this process already admitted. */
  lemma SlidingBound(l: Limits, start: int, steps: seq<Step>, window: Label)
    requires Syncs(window) ==> Covering(l, Start(start), steps)
    ensures Bounded(HistoryOf(Run(l, Start(start), steps), window), SpanOf(window), CapOf(l, window))
  {
    assert forall t :: InWindow([], SpanOf(window), t) == 0;
    RunKeeps(l, Start(start), steps, window);
  }

  /** A run without header syncs is covering, so without them all four windows are bounded. */
  lemma {:induction false} NoSyncIsCovering(l: Limits, m: Machine, steps: seq<Step>)
    requires forall k :: 0 <= k < |steps| && steps[k].Record? ==> steps[k].headers.None?
    ensures Covering(l, m, steps)
    decreases |steps|
  {
    if steps != [] {
      NoSyncIsCovering(l, DoStep(l, m, steps[0]), steps[1..]);
    }
  }

  /** Why `Covering` is needed: headers reporting an empty minute let 24000 tokens through a cap of 12000. */
  lemma SyncCanBreakTheBound()
    ensures var l := Limits(30, 1_000, 12_000, 100_000);
      var zeroed := Headers(None, None, Some(12_000), Some(12_000));
      !Bounded(Run(l, Start(0), [Try(0, 12_000), Record(0, 0, Some(zeroed)), Try(0, 12_000)]).toks, MINUTE, l.tpm)
  {
    var l := Limits(30, 1_000, 12_000, 100_000);
    var try, sync := Try(0, 12_000), Record(0, 0, Some(Headers(None, None, Some(12_000), Some(12_000))));
    var one, big := [Event(0, 1)], [Event(0, 12_000)];
    assert one[1..] == [] && big[1..] == [] && Total(one) == 1 && Total(big) == 12_000;
    var w2 := Windows(one, one, [], big);
    AttemptWithRoom(l, NO_WINDOWS, 12_000);
    AttemptWithRoom(l, w2, 12_000);
    var m1 := Machine(0, Windows(one, one, big, big), one, big);
    var m2 := Machine(0, w2, one, big);
    var m3 := DoStep(l, m2, try);
    assert DoStep(l, Start(0), try) == m1;
    assert DoStep(l, m1, sync) == m2;
    ThreeSteps(l, Start(0), try, sync, try);
    assert m3.toks == big + big && m3.toks[1..] == big;
    WithinAll(m3.toks, 0 - MINUTE, 0);
    assert InWindow(m3.toks, MINUTE, 0) == 24_000;
  }

  lemma ThreeSteps(l: Limits, m: Machine, a: Step, b: Step, c: Step)
    ensures Run(l, m, [a, b, c]) == DoStep(l, DoStep(l, DoStep(l, m, a), b), c)
  {
    var m1 := DoStep(l, m, a);
    var m2 := DoStep(l, m1, b);
    assert [a, b, c][1..] == [b, c] && [b, c][1..] == [c] && [c][1..] == [];
    assert Run(l, m, [a, b, c]) == Run(l, m1, [b, c]);
    assert Run(l, m1, [b, c]) == Run(l, m2, [c]);
    assert Run(l, m2, [c]) == DoStep(l, m2, c);
  }

  lemma AttemptWithRoom(l: Limits, w: Windows, tokens: nat)
    requires PruneAll(w, 0) == w
    requires Total(w.reqMin) + 1 <= l.rpm && Total(w.reqDay) + 1 <= l.rpd
    requires Total(w.tokMin) + tokens <= l.tpm && Total(w.tokDay) + tokens <= l.tpd
    ensures Attempt(l, w, 0, tokens) ==
      (None, Windows(Added(w.reqMin, 0, 1), Added(w.reqDay, 0, 1),
        Added(w.tokMin, 0, tokens), Added(w.tokDay, 0, tokens)))
  {
    assert Worst(l, w, 0, tokens).wait == 0;
  }

  /* ---------- One `acquire` among many callers ---------- */

  /** What other callers do while this one sleeps, and how late it then wakes. */
  datatype Slot = Slot(steps: seq<Step>, late: nat)

  datatype Result = Admitted | Raised(refusal: Refusal)
  datatype Outcome = Outcome(result: Result, m: Machine, sleeps: seq<int>)

  /** The machine once a sleep of `wait` plus the slack is over: never early, never before the others' steps. */
  function Slept(l: Limits, m: Machine, wait: int, slot: Slot): Machine {
    var after := Run(l, m, slot.steps);
    after.(now := Max(after.now, m.now + wait + SLACK) + slot.late)
  }

  function FirstSlot(others: seq<Slot>): Slot {
    if others == [] then Slot([], 0) else others[0]
  }

  function LaterSlots(others: seq<Slot>): seq<Slot> {
    if others == [] then [] else others[1..]
  }

  /** `acquire` and `acquire_sync`; once `others` is used up nobody else runs. */
  function AcquireRun(l: Limits, m: Machine, tokens: nat, remaining: int, others: seq<Slot>): Outcome
    decreases Max(0, remaining)
  {
    var refusal := Attempt(l, m.w, m.now, tokens).0;
    var tried := DoStep(l, m, Try(0, tokens));
    if refusal.None? then Outcome(Admitted, tried, [])
    else
      var wait := refusal.value.wait;
      if wait > remaining then Outcome(Raised(refusal.value), tried, [])
      else
        var m' := Slept(l, tried, wait, FirstSlot(others));
        var rest := AcquireRun(l, m', tokens, remaining - wait, LaterSlots(others));
        rest.(sleeps := [wait] + rest.sleeps)
  }

  function Sum(xs: seq<int>): int {
    if xs == [] then 0 else xs[0] + Sum(xs[1..])
  }

  /** Under any contention the waits slept stay within the budget, and each costs at least one tick of it. */
  lemma {:induction false} BudgetHolds(l: Limits, m: Machine, tokens: nat, remaining: int, others: seq<Slot>)
    ensures var sleeps := AcquireRun(l, m, tokens, remaining, others).sleeps;
      && |sleeps| <= Sum(sleeps) <= Max(0, remaining)
      && forall i :: 0 <= i < |sleeps| ==> sleeps[i] > 0
    decreases Max(0, remaining)
  {
    var refusal := Attempt(l, m.w, m.now, tokens).0;
    if refusal.Some? && refusal.value.wait <= remaining {
      var wait := refusal.value.wait;
      var m' := Slept(l, DoStep(l, m, Try(0, tokens)), wait, FirstSlot(others));
      var rest := AcquireRun(l, m', tokens, remaining - wait, LaterSlots(others)).sleeps;
      assert AcquireRun(l, m, tokens, remaining, others).sleeps == [wait] + rest;
      assert ([wait] + rest)[1..] == rest;
      BudgetHolds(l, m', tokens, remaining - wait, LaterSlots(others));
    } else {
      assert AcquireRun(l, m, tokens, remaining, others).sleeps == [];
    }
  }

  /** A call raises only when the wait it was told exceeds what its sleeps have left of the budget, and is admitted
      only by a check that found room. */
  lemma {:induction false} RaisesOverBudget(l: Limits, m: Machine, tokens: nat, remaining: int, others: seq<Slot>)
    ensures var out := AcquireRun(l, m, tokens, remaining, others);
      && (out.result.Raised? ==> out.result.refusal.wait > remaining - Sum(out.sleeps))
      && (out.result.Admitted? ==> Sum(out.sleeps) <= Max(0, remaining))
    decreases Max(0, remaining)
  {
    var refusal := Attempt(l, m.w, m.now, tokens).0;
    if refusal.Some? && refusal.value.wait <= remaining {
      var wait := refusal.value.wait;
      var m' := Slept(l, DoStep(l, m, Try(0, tokens)), wait, FirstSlot(others));
      var rest := AcquireRun(l, m', tokens, remaining - wait, LaterSlots(others));
      assert AcquireRun(l, m, tokens, remaining, others) == rest.(sleeps := [wait] + rest.sleeps);
      OneMoreSleep(wait, rest.sleeps);
      RaisesOverBudget(l, m', tokens, remaining - wait, LaterSlots(others));
    }
  }

  /** How long a call takes: every sleep adds its slack, which the budget does not count. */
  lemma {:induction false} CallTakesAtLeast(l: Limits, m: Machine, tokens: nat, remaining: int, others: seq<Slot>)
    ensures var out := AcquireRun(l, m, tokens, remaining, others);
      out.m.now - m.now >= Sum(out.sleeps) + Slacks(|out.sleeps|)
    decreases Max(0, remaining)
  {
    var refusal := Attempt(l, m.w, m.now, tokens).0;
    if refusal.Some? && refusal.value.wait <= remaining {
      var wait := refusal.value.wait;
      var m' := Slept(l, DoStep(l, m, Try(0, tokens)), wait, FirstSlot(others));
      var rest := AcquireRun(l, m', tokens, remaining - wait, LaterSlots(others));
      CheckTakesNoTime(l, m, tokens);
      assert m.now + wait + SLACK <= m'.now;
      CallTakesAtLeast(l, m', tokens, remaining - wait, LaterSlots(others));
      OneMoreSleep(wait, rest.sleeps);
      assert AcquireRun(l, m, tokens, remaining, others) == rest.(sleeps := [wait] + rest.sleeps);
    } else {
      CheckTakesNoTime(l, m, tokens);
    }
  }

  lemma CheckTakesNoTime(l: Limits, m: Machine, tokens: nat)
    ensures DoStep(l, m, Try(0, tokens)).now == m.now
  {
  }

  lemma OneMoreSleep(wait: int, rest: seq<int>)
    ensures Sum([wait] + rest) == wait + Sum(rest)
    ensures Slacks(|[wait] + rest|) == SLACK + Slacks(|rest|)
  {
    assert ([wait] + rest)[1..] == rest;
  }

  function Slacks(n: nat): int {
    n * SLACK
  }

  ghost predicate FitsCaps(l: Limits, tokens: nat) {
    (l.tpm == 0 || tokens <= l.tpm) && (l.tpd == 0 || tokens <= l.tpd)
  }

  ghost predicate AllOrdered(w: Windows, now: int) {
    forall window :: Ordered(EventsOf(w, window), now)
  }

  lemma RoomLater(es: seq<Event>, span: int, cap: nat, now: int, later: int, cost: int)
    requires span > 0 && Ordered(es, now) && (cap == 0 || cost <= cap)
    requires now + WaitFor(Pruned(es, now - span), span, cap, now, cost) <= later && now <= later
    ensures WaitFor(Pruned(Pruned(es, now - span), later - span), span, cap, later, cost) == 0
  {
    WaitExact(es, span, cap, now, cost, later);
    WaitExact(es, span, cap, later, cost, later);
    PrunedTwice(es, now - span, later - span);
  }

  lemma RoomAt(l: Limits, w: Windows, now: int, tokens: nat, later: int, window: Label)
    requires Ordered(EventsOf(w, window), now) && now <= later
    requires now + WaitOf(l, PruneAll(w, now), window, now, tokens) <= later
    requires CapOf(l, window) == 0 || CostOf(window, tokens) <= CapOf(l, window)
    ensures WaitOf(l, PruneAll(PruneAll(w, now), later), window, later, tokens) == 0
  {
    RoomLater(EventsOf(w, window), SpanOf(window), CapOf(l, window), now, later, CostOf(window, tokens));
  }

  /** Once the wait that was computed is over, every window that could ever fit the call has room. */
  lemma WaitOver(l: Limits, w: Windows, now: int, tokens: nat, later: int)
    requires AllOrdered(w, now) && FitsCaps(l, tokens) && now <= later
    requires Attempt(l, w, now, tokens).0.Some? ==> now + Attempt(l, w, now, tokens).0.value.wait <= later
    ensures Attempt(l, PruneAll(w, now), later, tokens).0.None?
  {
    var p := PruneAll(w, now);
    RefusalExact(l, w, now, tokens);
    RefusalExact(l, p, later, tokens);
    forall window ensures WaitOf(l, PruneAll(p, later), window, later, tokens) <= 0 {
      RoomAt(l, w, now, tokens, later, window);
    }
  }

  lemma AdmittedAtOnce(l: Limits, m: Machine, tokens: nat, remaining: int, others: seq<Slot>)
    requires Attempt(l, m.w, m.now, tokens).0.None?
    ensures AcquireRun(l, m, tokens, remaining, others) == Outcome(Admitted, DoStep(l, m, Try(0, tokens)), [])
  {
  }

  /** Left alone, however late it wakes, a call that fits every cap is decided by its first check: it is admitted at
      once, or sleeps exactly the wait it was told and is then admitted, or raises without sleeping. */
  lemma AloneSleepsOnce(l: Limits, m: Machine, tokens: nat, remaining: int, others: seq<Slot>)
    requires AllOrdered(m.w, m.now) && FitsCaps(l, tokens)
    requires forall i :: 0 <= i < |others| ==> others[i].steps == []
    ensures var out := AcquireRun(l, m, tokens, remaining, others);
      match Attempt(l, m.w, m.now, tokens).0
      case None => out.result == Admitted && out.sleeps == []
      case Some(r) => if r.wait <= remaining then out.result == Admitted && out.sleeps == [r.wait]
                      else out.result == Raised(r) && out.sleeps == []
  {
    var refusal := Attempt(l, m.w, m.now, tokens).0;
    if refusal.Some? && refusal.value.wait <= remaining {
      var wait := refusal.value.wait;
      var m' := Slept(l, DoStep(l, m, Try(0, tokens)), wait, FirstSlot(others));
      assert m'.w == PruneAll(m.w, m.now) && m.now + wait <= m'.now;
      WaitOver(l, m.w, m.now, tokens, m'.now);
      AdmittedAtOnce(l, m', tokens, remaining - wait, LaterSlots(others));
    }
  }

  /** Exactly when a call left alone, and woken on time, blocks for longer than its budget: when it fits every cap
      and its one wait ends within the last slack of the budget. */
  lemma AloneOverstaysExactly(l: Limits, m: Machine, tokens: nat, remaining: int)
    requires AllOrdered(m.w, m.now) && FitsCaps(l, tokens) && remaining >= 0
    ensures var out, refusal := AcquireRun(l, m, tokens, remaining, []), Attempt(l, m.w, m.now, tokens).0;
      && (out.m.now - m.now > remaining <==> refusal.Some? && remaining - SLACK < refusal.value.wait <= remaining)
      && (refusal.Some? && refusal.value.wait <= remaining ==> out.m.now - m.now == refusal.value.wait + SLACK)
  {
    var refusal := Attempt(l, m.w, m.now, tokens).0;
    if refusal.Some? && refusal.value.wait <= remaining {
      var wait := refusal.value.wait;
      var m' := Slept(l, DoStep(l, m, Try(0, tokens)), wait, FirstSlot([]));
      assert m'.now == m.now + wait + SLACK && m'.w == PruneAll(m.w, m.now);
      WaitOver(l, m.w, m.now, tokens, m'.now);
      AdmittedAtOnce(l, m', tokens, remaining - wait, LaterSlots([]));
    }
  }

  /** Such a call: one request a day, the last one made 65 seconds short of a day ago. It is admitted after 65.05
      seconds, past the 65 that no call is meant to block for. */
  lemma LongerThanTheBudget()
    ensures var m := DoStep(Limits(0, 1, 0, 0), Start(0), Try(0, 0)).(now := DAY - MAX_WAIT);
      var out := AcquireRun(Limits(0, 1, 0, 0), m, 0, MAX_WAIT, []);
      out.m.now - m.now == 65 * SECOND + SECOND / 20
  {
    var l, w := Limits(0, 1, 0, 0), Windows([Event(0, 1)], [Event(0, 1)], [], []);
    FirstOfTheDay(l, w);
    NextDayIsNotYet(l, w, DAY - MAX_WAIT);
    assert AllOrdered(w, DAY - MAX_WAIT);
    AloneOverstaysExactly(l, DoStep(l, Start(0), Try(0, 0)).(now := DAY - MAX_WAIT), 0, MAX_WAIT);
  }

  lemma FirstOfTheDay(l: Limits, w: Windows)
    requires l == Limits(0, 1, 0, 0) && w == Windows([Event(0, 1)], [Event(0, 1)], [], [])
    ensures DoStep(l, Start(0), Try(0, 0)).w == w && DoStep(l, Start(0), Try(0, 0)).now == 0
  {
    assert Worst(l, NO_WINDOWS, 0, 0).wait == 0;
  }

  lemma NextDayIsNotYet(l: Limits, w: Windows, now: int)
    requires l == Limits(0, 1, 0, 0) && w == Windows([Event(0, 1)], [Event(0, 1)], [], []) && now == DAY - MAX_WAIT
    ensures Attempt(l, w, now, 0).0 == Some(Refusal(ReqDay, MAX_WAIT))
  {
    var p, one := PruneAll(w, now), w.reqDay;
    assert one[1..] == [] && Total(one) == 1;
    assert p.reqDay == one && WaitFor(one, DAY, 1, now, 1) == MAX_WAIT;
    assert WaitFor(p.reqMin, MINUTE, l.rpm, now, 1) == 0;
    assert WaitFor(p.tokMin, MINUTE, l.tpm, now, 0) == 0 && WaitFor(p.tokDay, DAY, l.tpd, now, 0) == 0;
    assert Worst(l, p, now, 0) == Refusal(ReqDay, MAX_WAIT);
  }

  lemma HopelessWait(l: Limits, m: Machine, tokens: nat)
    requires AllOrdered(m.w, m.now) && !FitsCaps(l, tokens)
    ensures var r := Attempt(l, m.w, m.now, tokens).0; r.Some? && r.value.wait >= MINUTE
  {
    var window := if l.tpm > 0 && tokens > l.tpm then TokMin else TokDay;
    RefusalExact(l, m.w, m.now, tokens);
    WaitExact(EventsOf(m.w, window), SpanOf(window), CapOf(l, window), m.now, tokens, m.now);
    assert WaitOf(l, PruneAll(m.w, m.now), window, m.now, tokens) == SpanOf(window);
  }

  function Minutes(n: nat): int {
    n * MINUTE
  }

  lemma OrderedLater(es: seq<Event>, now: int, later: int)
    requires Ordered(es, now) && now <= later
    ensures Ordered(es, later)
  {
  }

  lemma AddedOrdered(es: seq<Event>, now: int, weight: int)
    requires Ordered(es, now)
    ensures Ordered(Added(es, now, weight), now)
  {
    var n := |es|;
    if weight > 0 {
      var added := es + [Event(now, weight)];
      assert added[n] == Event(now, weight) && forall i :: 0 <= i < n ==> added[i] == es[i];
      forall i, j | 0 <= i <= j < |added| ensures added[i].ts <= added[j].ts {
      }
    }
  }

  lemma OrderedTry(l: Limits, w: Windows, now: int, later: int, tokens: nat)
    requires AllOrdered(w, now) && now <= later
    ensures AllOrdered(Attempt(l, w, later, tokens).1, later)
  {
    forall window ensures Ordered(EventsOf(Attempt(l, w, later, tokens).1, window), later) {
      AttemptAt(l, w, later, tokens, window);
      var p := Pruned(EventsOf(w, window), later - SpanOf(window));
      OrderedLater(EventsOf(w, window), now, later);
      PrunedOrdered(EventsOf(w, window), later - SpanOf(window), later);
      AddedOrdered(p, later, CostOf(window, tokens));
    }
  }

  lemma OrderedRecord(w: Windows, now: int, later: int, actual: int, headers: Option<Headers>)
    requires AllOrdered(w, now) && now <= later
    ensures AllOrdered(Recorded(w, later, actual, headers), later)
  {
    forall window ensures Ordered(EventsOf(Recorded(w, later, actual, headers), window), later) {
      assert EventsOf(Recorded(w, later, actual, headers), window)
          == RecordedIn(EventsOf(w, window), window, later, actual, headers);
      OrderedLater(EventsOf(w, window), now, later);
      AddedOrdered(EventsOf(w, window), later, actual);
      forall used: nat ensures Ordered(Added([], later, used), later) {
        OneEventOrdered(later, used);
      }
    }
  }

  lemma OrderedStep(l: Limits, m: Machine, s: Step)
    requires AllOrdered(m.w, m.now)
    ensures AllOrdered(DoStep(l, m, s).w, DoStep(l, m, s).now)
  {
    if s.Try? {
      OrderedTry(l, m.w, m.now, m.now + s.gap, s.tokens);
    } else {
      OrderedRecord(m.w, m.now, m.now + s.gap, s.actual, s.headers);
    }
  }

  lemma {:induction false} OrderedRun(l: Limits, m: Machine, steps: seq<Step>)
    requires AllOrdered(m.w, m.now)
    ensures AllOrdered(Run(l, m, steps).w, Run(l, m, steps).now)
    decreases |steps|
  {
    if steps != [] {
      OrderedStep(l, m, steps[0]);
      OrderedRun(l, DoStep(l, m, steps[0]), steps[1..]);
    }
  }

  lemma OrderedSlept(l: Limits, m: Machine, tokens: nat, wait: int, slot: Slot)
    requires AllOrdered(m.w, m.now)
    ensures var m' := Slept(l, DoStep(l, m, Try(0, tokens)), wait, slot); AllOrdered(m'.w, m'.now)
  {
    OrderedStep(l, m, Try(0, tokens));
    OrderedRun(l, DoStep(l, m, Try(0, tokens)), slot.steps);
  }

  lemma OneMoreMinute(n: nat, wait: int, remaining: int)
    requires MINUTE <= wait <= remaining && Minutes(n) <= remaining - wait
    ensures Minutes(n + 1) <= remaining
    ensures remaining <= MAX_WAIT ==> n == 0
  {
  }

  /** A call whose tokens exceed a cap raises whatever the others do, after at most one sleep for every full
      minute of its budget: with `MAX_WAIT`, by its second check. */
  lemma {:induction false} HopelessRaises(l: Limits, m: Machine, tokens: nat, remaining: int, others: seq<Slot>)
    requires AllOrdered(m.w, m.now) && !FitsCaps(l, tokens)
    ensures var out := AcquireRun(l, m, tokens, remaining, others);
      && out.result.Raised?
      && Minutes(|out.sleeps|) <= Max(0, remaining)
      && (remaining <= 65 * SECOND ==> |out.sleeps| <= 1)
    decreases Max(0, remaining)
  {
    HopelessWait(l, m, tokens);
    var out, wait := AcquireRun(l, m, tokens, remaining, others), Attempt(l, m.w, m.now, tokens).0.value.wait;
    if wait <= remaining {
      var m' := Slept(l, DoStep(l, m, Try(0, tokens)), wait, FirstSlot(others));
      OrderedSlept(l, m, tokens, wait, FirstSlot(others));
      var rest := AcquireRun(l, m', tokens, remaining - wait, LaterSlots(others));
      HopelessRaises(l, m', tokens, remaining - wait, LaterSlots(others));
      OneMoreMinute(|rest.sleeps|, wait, remaining);
      assert out.result == rest.result && |out.sleeps| == |rest.sleeps| + 1;
    } else {
      assert out.result.Raised? && out.sleeps == [];
    }
  }

  /** The same run with this caller's own checks left out. */
  function OthersRun(l: Limits, m: Machine, sleeps: seq<int>, others: seq<Slot>): Machine
    decreases |sleeps|
  {
    if sleeps == [] then m
    else OthersRun(l, Slept(l, m, sleeps[0], FirstSlot(others)), sleeps[1..], LaterSlots(others))
  }

  /** Two machines no caller can tell apart from now on. */
  ghost predicate SameView(m: Machine, m': Machine) {
    m.now == m'.now && m.reqs == m'.reqs && m.toks == m'.toks && PruneAll(m.w, m.now) == PruneAll(m'.w, m.now)
  }

  lemma PrunedSame(es: seq<Event>, es': seq<Event>, c: int, c': int)
    requires c <= c' && Pruned(es, c) == Pruned(es', c)
    ensures Pruned(es, c') == Pruned(es', c')
  {
    PrunedTwice(es, c, c');
    PrunedTwice(es', c, c');
  }

  lemma {:induction false} PrunedAdded(es: seq<Event>, cutoff: int, now: int, weight: int)
    requires cutoff <= now
    ensures Pruned(Added(es, now, weight), cutoff) == Added(Pruned(es, cutoff), now, weight)
  {
    if es != [] && es[0].ts < cutoff {
      assert weight > 0 ==> Added(es, now, weight)[1..] == Added(es[1..], now, weight);
      PrunedAdded(es[1..], cutoff, now, weight);
    }
  }

  lemma SameViewLater(m: Machine, m': Machine, later: int)
    requires SameView(m, m') && m.now <= later
    ensures PruneAll(m.w, later) == PruneAll(m'.w, later)
  {
    PrunedSame(m.w.reqMin, m'.w.reqMin, m.now - MINUTE, later - MINUTE);
    PrunedSame(m.w.reqDay, m'.w.reqDay, m.now - DAY, later - DAY);
    PrunedSame(m.w.tokMin, m'.w.tokMin, m.now - MINUTE, later - MINUTE);
    PrunedSame(m.w.tokDay, m'.w.tokDay, m.now - DAY, later - DAY);
  }

  lemma SameViewRecord(w: Windows, w': Windows, now: int, actual: int, headers: Option<Headers>)
    requires PruneAll(w, now) == PruneAll(w', now)
    ensures PruneAll(Recorded(w, now, actual, headers), now) == PruneAll(Recorded(w', now, actual, headers), now)
  {
    PrunedAdded(w.tokMin, now - MINUTE, now, actual);
    PrunedAdded(w'.tokMin, now - MINUTE, now, actual);
    PrunedAdded(w.tokDay, now - DAY, now, actual);
    PrunedAdded(w'.tokDay, now - DAY, now, actual);
  }

  lemma SameViewTry(l: Limits, m: Machine, m': Machine, gap: nat, tokens: nat)
    requires SameView(m, m')
    ensures DoStep(l, m, Try(gap, tokens)) == DoStep(l, m', Try(gap, tokens))
    ensures Attempt(l, m.w, m.now + gap, tokens) == Attempt(l, m'.w, m.now + gap, tokens)
  {
    SameViewLater(m, m', m.now + gap);
  }

  lemma SameViewResponse(l: Limits, m: Machine, m': Machine, s: Step)
    requires SameView(m, m') && s.Record?
    ensures SameView(DoStep(l, m, s), DoStep(l, m', s))
  {
    SameViewLater(m, m', m.now + s.gap);
    SameViewRecord(m.w, m'.w, m.now + s.gap, s.actual, s.headers);
  }

  /** Callers that cannot tell two machines apart get the same answer from both. */
  lemma SameViewStep(l: Limits, m: Machine, m': Machine, s: Step)
    requires SameView(m, m')
    ensures SameView(DoStep(l, m, s), DoStep(l, m', s))
    ensures s.Try? ==> Attempt(l, m.w, m.now + s.gap, s.tokens).0 == Attempt(l, m'.w, m.now + s.gap, s.tokens).0
  {
    if s.Try? {
      SameViewTry(l, m, m', s.gap, s.tokens);
    } else {
      SameViewResponse(l, m, m', s);
    }
  }

  lemma {:induction false} SameViewRun(l: Limits, m: Machine, m': Machine, steps: seq<Step>)
    requires SameView(m, m')
    ensures SameView(Run(l, m, steps), Run(l, m', steps))
    decreases |steps|
  {
    if steps != [] {
      SameViewStep(l, m, m', steps[0]);
      SameViewRun(l, DoStep(l, m, steps[0]), DoStep(l, m', steps[0]), steps[1..]);
    }
  }

  lemma SameViewSlept(l: Limits, m: Machine, m': Machine, wait: int, slot: Slot)
    requires SameView(m, m')
    ensures SameView(Slept(l, m, wait, slot), Slept(l, m', wait, slot))
  {
    SameViewRun(l, m, m', slot.steps);
    SameViewLater(Run(l, m, slot.steps), Run(l, m', slot.steps), Slept(l, m, wait, slot).now);
  }

  lemma RefusedIsInvisible(l: Limits, m: Machine, tokens: nat)
    requires Attempt(l, m.w, m.now, tokens).0.Some?
    ensures SameView(DoStep(l, m, Try(0, tokens)), m)
  {
    PrunedTwice(m.w.reqMin, m.now - MINUTE, m.now - MINUTE);
    PrunedTwice(m.w.reqDay, m.now - DAY, m.now - DAY);
    PrunedTwice(m.w.tokMin, m.now - MINUTE, m.now - MINUTE);
    PrunedTwice(m.w.tokDay, m.now - DAY, m.now - DAY);
  }

  /** What a call leaves behind, compared with the run without it: nothing if it raised, its one record if it was
      admitted. */
  ghost predicate Traces(l: Limits, out: Outcome, without: Machine, tokens: nat) {
    && (out.result.Raised? ==> SameView(out.m, without))
    && (out.result.Admitted? ==> SameView(out.m, DoStep(l, without, Try(0, tokens))))
    && (out.result.Admitted? ==> out.m.toks == without.toks + [Event(without.now, tokens)])
  }

  /** The last check of a call. */
  lemma TracesAtEnd(l: Limits, m: Machine, m': Machine, tokens: nat, result: Result)
    requires SameView(m, m')
    requires result.Admitted? <==> Attempt(l, m.w, m.now, tokens).0.None?
    ensures Traces(l, Outcome(result, DoStep(l, m, Try(0, tokens)), []), m', tokens)
  {
    SameViewStep(l, m, m', Try(0, tokens));
    if result.Raised? {
      RefusedIsInvisible(l, m, tokens);
    }
  }

  /** A refused check followed by a sleep. */
  lemma SleptAlike(l: Limits, m: Machine, m': Machine, tokens: nat, wait: int, slot: Slot)
    requires SameView(m, m') && Attempt(l, m.w, m.now, tokens).0.Some?
    ensures SameView(Slept(l, DoStep(l, m, Try(0, tokens)), wait, slot), Slept(l, m', wait, slot))
  {
    RefusedIsInvisible(l, m, tokens);
    SameViewSlept(l, DoStep(l, m, Try(0, tokens)), m', wait, slot);
  }

  lemma OthersRunOneSleep(l: Limits, m: Machine, wait: int, rest: seq<int>, others: seq<Slot>)
    ensures OthersRun(l, m, [wait] + rest, others)
         == OthersRun(l, Slept(l, m, wait, FirstSlot(others)), rest, LaterSlots(others))
  {
    assert ([wait] + rest)[1..] == rest;
  }

  /** A call that raises leaves no trace: nothing it did is recorded, and the four windows are, to every later
      caller, those of the run without it. A call that is admitted is recorded once, at its last check. */
  lemma {:induction false} RaisingLeavesNoTrace(
    l: Limits, m: Machine, m': Machine, tokens: nat, remaining: int, others: seq<Slot>)
    requires SameView(m, m')
    ensures var out := AcquireRun(l, m, tokens, remaining, others);
      Traces(l, out, OthersRun(l, m', out.sleeps, others), tokens)
    decreases Max(0, remaining)
  {
    var out, refusal := AcquireRun(l, m, tokens, remaining, others), Attempt(l, m.w, m.now, tokens).0;
    if refusal.None? || refusal.value.wait > remaining {
      TracesAtEnd(l, m, m', tokens, out.result);
    } else {
      var wait, slot, later := refusal.value.wait, FirstSlot(others), LaterSlots(others);
      var next, next' := Slept(l, DoStep(l, m, Try(0, tokens)), wait, slot), Slept(l, m', wait, slot);
      var rest := AcquireRun(l, next, tokens, remaining - wait, later);
      assert out == rest.(sleeps := [wait] + rest.sleeps);
      SleptAlike(l, m, m', tokens, wait, slot);
      RaisingLeavesNoTrace(l, next, next', tokens, remaining - wait, later);
      OthersRunOneSleep(l, m', wait, rest.sleeps, others);
    }
  }

  /** After sleeping `sleeps`, what is still to come of a call is what comes from here. */
  ghost predicate Continues(
    l: Limits, tokens: nat, whole: Outcome, sleeps: seq<int>, m: Machine, remaining: int, others: seq<Slot>)
  {
    var rest := AcquireRun(l, m, tokens, remaining, others);
    whole == rest.(sleeps := sleeps + rest.sleeps)
  }

  lemma ContinuesAfterSleep(
    l: Limits, tokens: nat, whole: Outcome, sleeps: seq<int>, m: Machine, remaining: int, others: seq<Slot>,
    refusal: Refusal)
    requires Continues(l, tokens, whole, sleeps, m, remaining, others)
    requires Attempt(l, m.w, m.now, tokens).0 == Some(refusal) && refusal.wait <= remaining
    ensures var m' := Slept(l, DoStep(l, m, Try(0, tokens)), refusal.wait, FirstSlot(others));
      Continues(l, tokens, whole, sleeps + [refusal.wait], m', remaining - refusal.wait, LaterSlots(others))
  {
    var m' := Slept(l, DoStep(l, m, Try(0, tokens)), refusal.wait, FirstSlot(others));
    var rest := AcquireRun(l, m', tokens, remaining - refusal.wait, LaterSlots(others));
    assert sleeps + ([refusal.wait] + rest.sleeps) == (sleeps + [refusal.wait]) + rest.sleeps;
  }

  lemma ContinuesToTheEnd(
    l: Limits, tokens: nat, whole: Outcome, sleeps: seq<int>, m: Machine, remaining: int, others: seq<Slot>)
    requires Continues(l, tokens, whole, sleeps, m, remaining, others)
    ensures var refusal := Attempt(l, m.w, m.now, tokens).0;
      && (refusal.None? ==> whole == Outcome(Admitted, DoStep(l, m, Try(0, tokens)), sleeps))
      && (refusal.Some? && refusal.value.wait > remaining ==>
            whole == Outcome(Raised(refusal.value), DoStep(l, m, Try(0, tokens)), sleeps))
  {
    assert sleeps + [] == sleeps;
  }

  /* ---------- The classes ---------- */

  class Bucket {
    const span: int
    const cap: nat
    var events: seq<Event>

    constructor (span: int, cap: nat)
      ensures this.span == span && this.cap == cap && events == []
    {
      this.span, this.cap, events := span, cap, [];
    }

    method Prune(now: int)
      modifies this
      ensures events == Pruned(old(events), now - span)
    {
      var cutoff := now - span;
      while events != [] && events[0].ts < cutoff
        invariant Pruned(events, cutoff) == Pruned(old(events), cutoff)
        decreases |events|
      {
        events := events[1..];
      }
    }

    method Used() returns (used: int)
      ensures used == Total(events)
    {
      used := 0;
      for i := 0 to |events|
        invariant used + Total(events[i..]) == Total(events)
      {
        used := used + events[i].weight;
      }
    }

    method Add(now: int, weight: int)
      modifies this
      ensures events == Added(old(events), now, weight)
    {
      if weight > 0 {
        events := events + [Event(now, weight)];
      }
    }

    method TimeUntilRoom(now: int, cost: int) returns (wait: int)
      modifies this
      ensures events == Pruned(old(events), now - span)
      ensures wait == WaitFor(events, span, cap, now, cost)
    {
      Prune(now);
      if cap == 0 {
        return 0;
      }
      var used := Used();
      if used + cost <= cap {
        return 0;
      }
      var running := used;
      for i := 0 to |events|
        invariant FirstFit(events[i..], running, span, cap, now, cost) == FirstFit(events, used, span, cap, now, cost)
      {
        running := running - events[i].weight;
        if running + cost <= cap {
          return Max(0, events[i].ts + span - now);
        }
      }
      return span;
    }

    method Sync(now: int, limit: Option<int>, remaining: Option<int>)
      modifies this
      ensures events == Synced(old(events), now, limit, remaining)
    {
      if limit.None? || remaining.None? {
        return;
      }
      var used := Max(0, limit.value - remaining.value);
      events := [];
      if used > 0 {
        events := events + [Event(now, used)];
      }
    }
  }

  class ModelState {
    const limits: Limits
    const reqMin: Bucket
    const reqDay: Bucket
    const tokMin: Bucket
    const tokDay: Bucket

    /** The buckets never change identity, so they are the whole footprint. */
    ghost const Repr: set<Bucket>

    ghost predicate Valid() {
      && Repr == {reqMin, reqDay, tokMin, tokDay} && |Repr| == 4
      && reqMin != reqDay && reqMin != tokMin && reqMin != tokDay
      && reqDay != tokMin && reqDay != tokDay && tokMin != tokDay
      && reqMin.span == tokMin.span == MINUTE && reqDay.span == tokDay.span == DAY
      && reqMin.cap == limits.rpm && reqDay.cap == limits.rpd
      && tokMin.cap == limits.tpm && tokDay.cap == limits.tpd
    }

    ghost function Contents(): Windows
      reads reqMin, reqDay, tokMin, tokDay
    {
      Windows(reqMin.events, reqDay.events, tokMin.events, tokDay.events)
    }

    constructor FromLimits(limits: Limits)
      ensures Valid() && this.limits == limits && fresh(Repr) && Contents() == NO_WINDOWS
    {
      var rm := new Bucket(MINUTE, limits.rpm);
      var rd := new Bucket(DAY, limits.rpd);
      var tm := new Bucket(MINUTE, limits.tpm);
      var td := new Bucket(DAY, limits.tpd);
      this.limits := limits;
      reqMin, reqDay, tokMin, tokDay := rm, rd, tm, td;
      Repr := {rm, rd, tm, td};
    }

    /** Refuses with the worst wait, or records the cost in all four buckets. */
    method ComputeWait(now: int, tokens: nat) returns (refusal: Option<Refusal>)
      requires Valid()
      modifies Repr
      ensures (refusal, Contents()) == Attempt(limits, old(Contents()), now, tokens)
    {
      var a := reqMin.TimeUntilRoom(now, 1);
      var b := reqDay.TimeUntilRoom(now, 1);
      var c := tokMin.TimeUntilRoom(now, tokens);
      var d := tokDay.TimeUntilRoom(now, tokens);
      assert Contents() == PruneAll(old(Contents()), now);
      var worst := Worse(Worse(Worse(Refusal(ReqMin, a), Refusal(ReqDay, b)), Refusal(TokMin, c)), Refusal(TokDay, d));
      if worst.wait > 0 {
        return Some(worst);
      }
      reqMin.Add(now, 1);
      reqDay.Add(now, 1);
      tokMin.Add(now, tokens);
      tokDay.Add(now, tokens);
      return None;
    }

    method RecordResponse(now: int, actual: int, headers: Option<Headers>)
      requires Valid()
      modifies Repr
      ensures Contents() == Recorded(old(Contents()), now, actual, headers)
      ensures Responded(old(Contents()), Contents(), now, actual, headers)
    {
      ResponseLeaves(Contents(), now, actual, headers);
      if headers.Some? {
        reqDay.Sync(now, headers.value.limitRequests, headers.value.remainingRequests);
        tokMin.Sync(now, headers.value.limitTokens, headers.value.remainingTokens);
        return;
      }
      if actual > 0 {
        tokMin.Add(now, actual);
        tokDay.Add(now, actual);
      }
    }

    /** Other callers' locked regions, one after the other; `seen` is the machine as it stands before them. */
    method Interfere(steps: seq<Step>, start: int, ghost seen: Machine) returns (now: int, ghost left: Machine)
      requires Valid() && seen.now == start && seen.w == Contents()
      modifies Repr
      ensures left == Run(limits, seen, steps) && now == left.now && Contents() == left.w
    {
      now, left := start, seen;
      for i := 0 to |steps|
        invariant Run(limits, left, steps[i..]) == Run(limits, seen, steps)
        invariant now == left.now && Contents() == left.w
      {
        assert steps[i..][0] == steps[i] && steps[i..][1..] == steps[i + 1..];
        now := now + steps[i].gap;
        left := InterfereOnce(steps[i], now, left);
      }
    }

    method InterfereOnce(step: Step, now: int, ghost seen: Machine) returns (ghost left: Machine)
      requires Valid() && seen.now + step.gap == now && seen.w == Contents()
      modifies Repr
      ensures left == DoStep(limits, seen, step) && left.now == now && Contents() == left.w
    {
      match step {
        case Try(_, tokens) => var _ := ComputeWait(now, tokens);
        case Record(_, actual, headers) => RecordResponse(now, actual, headers);
      }
      left := DoStep(limits, seen, step);
    }

    /** One pass through the critical section, at the instant of `seen`. */
    method TryOnce(tokens: nat, ghost seen: Machine, now: int) returns (refusal: Option<Refusal>, ghost left: Machine)
      requires Valid() && seen.now == now && seen.w == Contents()
      modifies Repr
      ensures refusal == Attempt(limits, seen.w, now, tokens).0
      ensures left == DoStep(limits, seen, Try(0, tokens)) && left.now == now && Contents() == left.w
    {
      refusal := ComputeWait(now, tokens);
      left := DoStep(limits, seen, Try(0, tokens));
    }

    /** The sleep, with whatever the others do meanwhile. */
    method Sleep(wait: int, slot: Slot, start: int, ghost seen: Machine) returns (now: int, ghost left: Machine)
      requires Valid() && seen.now == start && seen.w == Contents()
      modifies Repr
      ensures left == Slept(limits, seen, wait, slot) && now == left.now && Contents() == left.w
    {
      now, left := Interfere(slot.steps, start, seen);
      now := Max(now, start + wait + SLACK) + slot.late;
      left := left.(now := now);
    }

    /** `acquire`: block until the call fits, or raise when the next sleep would exceed what is left of the
        budget. `others` is what happens during each sleep. */
    method Acquire(tokens: nat, maxWait: int, start: int, others: seq<Slot>, ghost seen: Machine)
      returns (result: Result, sleeps: seq<int>, ghost end: Machine)
      requires Valid() && seen.now == start && seen.w == Contents()
      modifies Repr
      ensures AcquireRun(limits, seen, tokens, maxWait, others) == Outcome(result, end, sleeps)
      ensures Contents() == end.w
    {
      var remaining, now, pending := maxWait, start, others;
      ghost var whole := AcquireRun(limits, seen, tokens, maxWait, others);
      sleeps, end := [], seen;
      assert [] + whole.sleeps == whole.sleeps;
      while true
        invariant now == end.now && Contents() == end.w
        invariant Continues(limits, tokens, whole, sleeps, end, remaining, pending)
        decreases Max(0, remaining)
      {
        ghost var before := end;
        var refusal;
        refusal, end := TryOnce(tokens, before, now);
        if refusal.None? || refusal.value.wait > remaining {
          ContinuesToTheEnd(limits, tokens, whole, sleeps, before, remaining, pending);
          return if refusal.None? then Admitted else Raised(refusal.value), sleeps, end;
        }
        ContinuesAfterSleep(limits, tokens, whole, sleeps, before, remaining, pending, refusal.value);
        remaining := remaining - refusal.value.wait;
        sleeps := sleeps + [refusal.value.wait];
        now, end := Sleep(refusal.value.wait, FirstSlot(pending), now, end);
        pending := LaterSlots(pending);
      }
    }
  }
}
