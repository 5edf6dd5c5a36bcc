/** The limiter as a ledger that forgets nothing (`backend/app/features/agent/rate_limiter.py`): beside the
    admissions it keeps the use that responses without headers report. Pruning and all, a window that no header
    overwrites decides, and tells to wait, as the ledger does.
 */
module RateLedger {
  import opened Basics
  import opened RateLimiter

  /** Everything that responses without headers reported in the run. */
  function UsedAfter(used: seq<Event>, now: int, steps: seq<Step>): seq<Event>
    decreases |steps|
  {
    if steps == [] then used else UsedAfter(UsedStep(used, now, steps[0]), now + steps[0].gap, steps[1..])
  }

  function UsedStep(used: seq<Event>, now: int, s: Step): seq<Event> {
    if s.Record? && s.headers.None? then Added(used, now + s.gap, s.actual) else used
  }

  /** Responses are about tokens only. */
  function UsedIn(used: seq<Event>, window: Label): seq<Event> {
    if window.ReqMin? || window.ReqDay? then [] else used
  }

  /** What the ledger counts in the window at `t`. */
  function Counted(m: Machine, used: seq<Event>, window: Label, t: int): int {
    InWindow(HistoryOf(m, window), SpanOf(window), t) + InWindow(UsedIn(used, window), SpanOf(window), t)
  }

  /** At `now` and ever after the deque counts what the two histories count. */
  ghost predicate Tallied(es: seq<Event>, h: seq<Event>, u: seq<Event>, span: int, now: int) {
    forall t :: now <= t ==> InWindow(es, span, t) == InWindow(h, span, t) + InWindow(u, span, t)
  }

  ghost predicate Tallies(m: Machine, used: seq<Event>, window: Label) {
    Tallied(EventsOf(m.w, window), HistoryOf(m, window), UsedIn(used, window), SpanOf(window), m.now)
  }

  lemma TalliedPruned(es: seq<Event>, h: seq<Event>, u: seq<Event>, span: int, now: int, later: int)
    requires Tallied(es, h, u, span, now) && now <= later
    ensures Tallied(Pruned(es, later - span), h, u, span, later)
  {
    forall t | later <= t
      ensures InWindow(Pruned(es, later - span), span, t) == InWindow(h, span, t) + InWindow(u, span, t)
    {
      PrunedKeeps(es, later - span, t - span, t);
    }
  }

  lemma TalliedAdmission(es: seq<Event>, h: seq<Event>, u: seq<Event>, span: int, now: int, cost: nat)
    requires Tallied(es, h, u, span, now)
    ensures Tallied(Added(es, now, cost), h + [Event(now, cost)], u, span, now)
  {
    var es', h' := Added(es, now, cost), h + [Event(now, cost)];
    forall t | now <= t ensures InWindow(es', span, t) == InWindow(h', span, t) + InWindow(u, span, t) {
      WithinAdded(es, now, cost, t - span, t);
      WithinAdded(h, now, cost, t - span, t);
      assert InWindow(es, span, t) == InWindow(h, span, t) + InWindow(u, span, t);
    }
  }

  lemma TalliedUse(es: seq<Event>, h: seq<Event>, u: seq<Event>, span: int, now: int, later: int, weight: int)
    requires Tallied(es, h, u, span, now) && now <= later
    ensures Tallied(Added(es, later, weight), h, Added(u, later, weight), span, later)
  {
    forall t | later <= t && weight > 0
      ensures InWindow(Added(es, later, weight), span, t)
        == InWindow(h, span, t) + InWindow(Added(u, later, weight), span, t)
    {
      WithinAdded(es, later, weight, t - span, t);
      WithinAdded(u, later, weight, t - span, t);
    }
  }

  /** The headers carry both counters of the window. */
  predicate Overwrites(window: Label, s: Step) {
    s.Record? && s.headers.Some? &&
    var h := s.headers.value;
    || (window.ReqDay? && h.limitRequests.Some? && h.remainingRequests.Some?)
    || (window.TokMin? && h.limitTokens.Some? && h.remainingTokens.Some?)
  }

  lemma AttemptTallies(m: Machine, m': Machine, used: seq<Event>, window: Label, refused: bool, cost: nat)
    requires Tallies(m, used, window) && m.now <= m'.now
    requires var p := Pruned(EventsOf(m.w, window), m'.now - SpanOf(window));
      if refused then EventsOf(m'.w, window) == p && HistoryOf(m', window) == HistoryOf(m, window)
      else
        && EventsOf(m'.w, window) == Added(p, m'.now, cost)
        && HistoryOf(m', window) == HistoryOf(m, window) + [Event(m'.now, cost)]
    ensures Tallies(m', used, window)
  {
    var es, h, u, span := EventsOf(m.w, window), HistoryOf(m, window), UsedIn(used, window), SpanOf(window);
    TalliedPruned(es, h, u, span, m.now, m'.now);
    if !refused {
      TalliedAdmission(Pruned(es, m'.now - span), h, u, span, m'.now, cost);
    }
  }

  lemma TryTallies(l: Limits, m: Machine, used: seq<Event>, s: Step, window: Label)
    requires s.Try? && Tallies(m, used, window)
    ensures Tallies(DoStep(l, m, s), used, window)
  {
    TryAt(l, m, s, window);
    var refused := Attempt(l, m.w, m.now + s.gap, s.tokens).0.Some?;
    AttemptTallies(m, DoStep(l, m, s), used, window, refused, CostOf(window, s.tokens));
  }

  lemma RecordTallies(l: Limits, m: Machine, used: seq<Event>, s: Step, window: Label)
    requires s.Record? && !Overwrites(window, s) && Tallies(m, used, window)
    ensures Tallies(DoStep(l, m, s), UsedStep(used, m.now, s), window)
  {
    var es, h, u, span := EventsOf(m.w, window), HistoryOf(m, window), UsedIn(used, window), SpanOf(window);
    TalliedUse(es, h, u, span, m.now, m.now + s.gap, s.actual);
    assert EventsOf(DoStep(l, m, s).w, window) == RecordedIn(es, window, m.now + s.gap, s.actual, s.headers);
  }

  lemma {:induction false} RunTallies(l: Limits, m: Machine, used: seq<Event>, steps: seq<Step>, window: Label)
    requires Tallies(m, used, window) && forall k :: 0 <= k < |steps| ==> !Overwrites(window, steps[k])
    ensures Tallies(Run(l, m, steps), UsedAfter(used, m.now, steps), window)
    decreases |steps|
  {
    if steps != [] {
      var s := steps[0];
      assert !Overwrites(window, s);
      if s.Try? { TryTallies(l, m, used, s, window); } else { RecordTallies(l, m, used, s, window); }
      StepClock(l, m, s);
      RunTallies(l, DoStep(l, m, s), UsedStep(used, m.now, s), steps[1..], window);
    }
  }

  lemma StepClock(l: Limits, m: Machine, s: Step)
    ensures DoStep(l, m, s).now == m.now + s.gap
  {
  }

  /** In every run, whatever was pruned: at every instant from now on, a window that no header has overwritten holds
      exactly what was ever admitted and what was ever reported within it. */
  lemma LedgerExact(l: Limits, start: int, steps: seq<Step>, window: Label)
    requires forall k :: 0 <= k < |steps| ==> !Overwrites(window, steps[k])
    ensures Tallies(Run(l, Start(start), steps), UsedAfter([], start, steps), window)
  {
    RunTallies(l, Start(start), [], steps, window);
  }

  ghost predicate LedgerRoom(cap: nat, counted: int, cost: nat) {
    cap == 0 || counted + cost <= cap
  }

  /** An admission fits the cap of such a window together with every earlier admission and every reported use. */
  lemma AdmissionFits(l: Limits, start: int, steps: seq<Step>, window: Label, gap: nat, tokens: nat)
    requires forall k :: 0 <= k < |steps| ==> !Overwrites(window, steps[k])
    ensures var m, used := Run(l, Start(start), steps), UsedAfter([], start, steps);
      Attempt(l, m.w, m.now + gap, tokens).0.None? ==>
        LedgerRoom(CapOf(l, window), Counted(m, used, window, m.now + gap), CostOf(window, tokens))
  {
    var m, used, now := Run(l, Start(start), steps), UsedAfter([], start, steps), Run(l, Start(start), steps).now + gap;
    LedgerExact(l, start, steps, window);
    OrderedRun(l, Start(start), steps);
    OrderedNow(m.w, m.now, now);
    if Attempt(l, m.w, now, tokens).0.None? {
      RefusalExact(l, m.w, now, tokens);
      NoWaitIsRoom(l, m.w, window, now, tokens);
      assert InWindow(EventsOf(m.w, window), SpanOf(window), now) == Counted(m, used, window, now);
    }
  }

  /** Room for the call in all four windows at `t`, by the ledger. */
  ghost predicate AllRoom(l: Limits, m: Machine, used: seq<Event>, t: int, tokens: nat) {
    && (l.rpm == 0 || InWindow(m.reqs, MINUTE, t) + 1 <= l.rpm)
    && (l.rpd == 0 || InWindow(m.reqs, DAY, t) + 1 <= l.rpd)
    && (l.tpm == 0 || InWindow(m.toks, MINUTE, t) + InWindow(used, MINUTE, t) + tokens <= l.tpm)
    && (l.tpd == 0 || InWindow(m.toks, DAY, t) + InWindow(used, DAY, t) + tokens <= l.tpd)
  }

  lemma RoomByLedger(l: Limits, m: Machine, used: seq<Event>, t: int, tokens: nat)
    requires m.now <= t && forall window :: Tallies(m, used, window)
    ensures AllRoom(l, m, used, t, tokens) <==> forall window :: HasRoom(l, m.w, window, t, CostOf(window, tokens))
  {
    forall window ensures HasRoom(l, m.w, window, t, CostOf(window, tokens))
      <==> LedgerRoom(CapOf(l, window), Counted(m, used, window, t), CostOf(window, tokens))
    {
      assert Tallies(m, used, window);
    }
    var r1, r2 := HasRoom(l, m.w, ReqMin, t, 1), HasRoom(l, m.w, ReqDay, t, 1);
    var r3, r4 := HasRoom(l, m.w, TokMin, t, tokens), HasRoom(l, m.w, TokDay, t, tokens);
    assert AllRoom(l, m, used, t, tokens) <==> r1 && r2 && r3 && r4;
  }

  /** The limiter refines the ledger, in every run without counters in headers. A call is admitted if and only if all
      four windows of the ledger have room for it; and one that could ever fit is told to wait exactly until then. */
  lemma DecidesAsTheLedger(l: Limits, start: int, steps: seq<Step>, gap: nat, tokens: nat, t: int)
    requires forall k, window :: 0 <= k < |steps| ==> !Overwrites(window, steps[k])
    ensures var m, used := Run(l, Start(start), steps), UsedAfter([], start, steps);
      var now, refusal := m.now + gap, Attempt(l, m.w, m.now + gap, tokens).0;
      && (refusal.None? <==> AllRoom(l, m, used, now, tokens))
      && (now <= t && FitsCaps(l, tokens) ==>
            (AllRoom(l, m, used, t, tokens) <==> now + (if refusal.Some? then refusal.value.wait else 0) <= t))
  {
    var m, used := Run(l, Start(start), steps), UsedAfter([], start, steps);
    var now := m.now + gap;
    forall window ensures Tallies(m, used, window) {
      LedgerExact(l, start, steps, window);
    }
    OrderedRun(l, Start(start), steps);
    OrderedNow(m.w, m.now, now);
    RoomByLedger(l, m, used, now, tokens);
    AdmittedWithRoom(l, m.w, now, tokens);
    if now <= t && FitsCaps(l, tokens) {
      RoomByLedger(l, m, used, t, tokens);
      RoomFrom(l, m.w, now, tokens, t);
    }
  }

  lemma AdmittedWithRoom(l: Limits, w: Windows, now: int, tokens: nat)
    requires AllOrdered(w, now)
    ensures Attempt(l, w, now, tokens).0.None? <==> forall window :: HasRoom(l, w, window, now, CostOf(window, tokens))
  {
    RefusalExact(l, w, now, tokens);
    forall window ensures WaitOf(l, PruneAll(w, now), window, now, tokens) <= 0
      <==> HasRoom(l, w, window, now, CostOf(window, tokens))
    {
      NoWaitIsRoom(l, w, window, now, tokens);
    }
  }

  /** With no additions in between, all four windows have room exactly once the wait that was told is over. */
  lemma RoomFrom(l: Limits, w: Windows, now: int, tokens: nat, t: int)
    requires AllOrdered(w, now) && FitsCaps(l, tokens) && now <= t
    ensures var refusal := Attempt(l, w, now, tokens).0;
      (forall window :: HasRoom(l, w, window, t, CostOf(window, tokens)))
      <==> now + (if refusal.Some? then refusal.value.wait else 0) <= t
  {
    RefusalExact(l, w, now, tokens);
    forall window ensures HasRoom(l, w, window, t, CostOf(window, tokens))
      <==> now + WaitOf(l, PruneAll(w, now), window, now, tokens) <= t
    {
      WaitThenRoom(l, w, window, now, tokens, t);
    }
  }

  lemma WaitThenRoom(l: Limits, w: Windows, window: Label, now: int, tokens: nat, t: int)
    requires Ordered(EventsOf(w, window), now) && FitsCaps(l, tokens) && now <= t
    ensures HasRoom(l, w, window, t, CostOf(window, tokens))
      <==> now + WaitOf(l, PruneAll(w, now), window, now, tokens) <= t
  {
    WaitExact(EventsOf(w, window), SpanOf(window), CapOf(l, window), now, CostOf(window, tokens), t);
    assert EventsOf(PruneAll(w, now), window) == Pruned(EventsOf(w, window), now - SpanOf(window));
  }

  /** The bounds by name: the minute's requests, the day's tokens and, when headers report at least what was
      admitted, the day's requests and the minute's tokens. */
  lemma FourBounds(l: Limits, start: int, steps: seq<Step>)
    ensures var end := Run(l, Start(start), steps);
      && Bounded(end.reqs, 60 * SECOND, l.rpm) && Bounded(end.toks, 86_400 * SECOND, l.tpd)
      && (Covering(l, Start(start), steps) ==>
            Bounded(end.reqs, 86_400 * SECOND, l.rpd) && Bounded(end.toks, 60 * SECOND, l.tpm))
  {
    SlidingBound(l, start, steps, ReqMin);
    SlidingBound(l, start, steps, TokDay);
    if Covering(l, Start(start), steps) {
      SlidingBound(l, start, steps, ReqDay);
      SlidingBound(l, start, steps, TokMin);
    }
  }
}
