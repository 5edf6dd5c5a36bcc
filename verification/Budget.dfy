/** The daily spend cap (`backend/app/features/agent/budget.py`), and the turns it lets through
    (`backend/app/features/agent/chat.py:109-259`). Money is in exact millionths of a cent; the entry that a first
    record seeds carries minus infinity as its time of refresh.
 */
module Budget {
  import opened Basics
  import Cost

  const MILLION := Cost.MILLION
  const BUDGET_TTL := 60 * SECOND
  const FETCH_LIMIT: nat := 5000

  datatype Stamp = NegativeInfinity | At(time: int)
  datatype Spend = Spend(day: string, amount: int, refreshed: Stamp)

  predicate Fresh(e: Spend, today: string, now: int) {
    e.day == today && e.refreshed.At? && now - e.refreshed.time < BUDGET_TTL
  }

  /** Adds up the whole cents of stored rows. */
  function Sum(xs: seq<nat>): nat {
    if xs == [] then 0 else Sum(xs[..|xs| - 1]) + xs[|xs| - 1]
  }

  /** What the query can return when today's rows cost `costs`: all of them or, since it asks for no order, any of
      them up to its limit. */
  ghost predicate Answer(costs: seq<nat>, rows: seq<nat>) {
    multiset(rows) <= multiset(costs) && |rows| == if |costs| <= FETCH_LIMIT then |costs| else FETCH_LIMIT
  }

  /** `_fetch_spend_cents`, from the rows the query returned. */
  function Fetched(rows: seq<nat>): int {
    MILLION * Sum(rows)
  }

  function Recorded(spend: map<string, Spend>, tenant: string, amount: int, today: string): map<string, Spend> {
    if amount <= 0 then spend
    else if tenant !in spend || spend[tenant].day != today then spend[tenant := Spend(today, amount, NegativeInfinity)]
    else spend[tenant := spend[tenant].(amount := spend[tenant].amount + amount)]
  }

  /** An entry fetched for the day less than a minute ago; a seeded one never lasts. */
  ghost predicate Lasts(e: Spend, today: string, now: int) {
    e.day == today && exists at :: e.refreshed == At(at) && now < at + 60 * SECOND
  }

  /** What recording an amount leaves: it is added to an entry of the day, which stays as fresh as it was, and
      otherwise seeds one that never lasts; other tenants, and amounts that are not positive, change nothing. */
  ghost predicate Adds(
    spend: map<string, Spend>, spend': map<string, Spend>, tenant: string, amount: int, today: string)
  {
    if amount <= 0 then spend' == spend
    else
      && spend'.Keys == spend.Keys + {tenant}
      && (forall k :: k in spend && k != tenant ==> spend'[k] == spend[k])
      && var kept := tenant in spend && spend[tenant].day == today;
      var before := if kept then spend[tenant] else Spend(today, 0, NegativeInfinity);
      spend'[tenant] == Spend(today, before.amount + amount, before.refreshed)
  }

  class SpendCache {
    var spend: map<string, Spend>

    constructor ()
      ensures spend == map[]
    {
      spend := map[];
    }

    /** `spent_today_usd`; `rows` are the costs the query returns if it is asked. */
    method SpentToday(tenant: string, today: string, now: int, rows: seq<nat>) returns (amount: int)
      modifies this
      ensures var hit := tenant in old(spend) && Fresh(old(spend)[tenant], today, now);
        && amount == (if hit then old(spend)[tenant].amount else Fetched(rows))
        && spend == (if hit then old(spend) else old(spend)[tenant := Spend(today, amount, At(now))])
    {
      if tenant in spend {
        var entry := spend[tenant];
        if entry.day == today && entry.refreshed.At? && now - entry.refreshed.time < BUDGET_TTL {
          return entry.amount;
        }
      }
      amount := Fetched(rows);
      spend := spend[tenant := Spend(today, amount, At(now))];
    }

    /** `record_spend_cents`. */
    method RecordSpend(tenant: string, amount: int, today: string)
      modifies this
      ensures spend == Recorded(old(spend), tenant, amount, today)
      ensures Adds(old(spend), spend, tenant, amount, today)
    {
      if amount <= 0 {
        return;
      }
      if tenant !in spend || spend[tenant].day != today {
        spend := spend[tenant := Spend(today, amount, NegativeInfinity)];
      } else {
        var entry := spend[tenant];
        spend := spend[tenant := entry.(amount := entry.amount + amount)];
      }
    }

    /** `check_daily_budget`: whether the turn may go on. */
    method CheckBudget(tenant: string, budget: int, today: string, now: int, rows: seq<nat>) returns (allowed: bool)
      modifies this
      ensures var s := Checked(old(spend), tenant, budget, today, now, rows);
        allowed == s.0 && spend == s.1
      ensures budget <= 0 ==> allowed && spend == old(spend)
      ensures budget > 0 ==>
        (allowed <==> budget > if tenant in old(spend) && Lasts(old(spend)[tenant], today, now)
                               then old(spend)[tenant].amount else MILLION * Sum(rows))
    {
      if budget <= 0 {
        return true;
      }
      var spent := SpentToday(tenant, today, now, rows);
      return spent < budget;
    }
  }

  function Checked(spend: map<string, Spend>, tenant: string, budget: int, today: string, now: int, rows: seq<nat>)
    : (bool, map<string, Spend>)
  {
    if budget <= 0 then (true, spend)
    else if tenant in spend && Fresh(spend[tenant], today, now) then (spend[tenant].amount < budget, spend)
    else (Fetched(rows) < budget, spend[tenant := Spend(today, Fetched(rows), At(now))])
  }

  /* ---------- What a cached figure is ---------- */

  /** The cache's own operations, in the order in which they take the lock. */
  datatype Event =
    | Refresh(tenant: string, day: string, amount: int, at: int)
    | Record(tenant: string, day: string, amount: int)
    | Reset(tenants: Option<string>)

  function Apply(spend: map<string, Spend>, e: Event): map<string, Spend> {
    match e
    case Refresh(tenant, day, amount, at) => spend[tenant := Spend(day, amount, At(at))]
    case Record(tenant, day, amount) => Recorded(spend, tenant, amount, day)
    case Reset(tenants) => if tenants.None? then map[] else spend - {tenants.value}
  }

  function Run(events: seq<Event>): map<string, Spend> {
    if events == [] then map[] else Apply(Run(events[..|events| - 1]), events[|events| - 1])
  }

  /** Everything positive recorded for the tenant from event `from` on. */
  function RecordedFrom(events: seq<Event>, tenant: string, from: nat): int
    requires from <= |events|
  {
    if |events| == from then 0
    else
      var last := events[|events| - 1];
      RecordedFrom(events[..|events| - 1], tenant, from)
      + if last.Record? && last.tenant == tenant && last.amount > 0 then last.amount else 0
  }

  /** Event `i` is the tenant's last refresh, for the day, and nothing since has dropped it or changed the day. */
  ghost predicate LastRefresh(events: seq<Event>, tenant: string, day: string, i: nat) {
    && i < |events| && events[i].Refresh? && events[i].tenant == tenant && events[i].day == day
    && forall j :: i < j < |events| ==>
      && !(events[j].Refresh? && events[j].tenant == tenant)
      && !(events[j].Reset? && (events[j].tenants.None? || events[j].tenants.value == tenant))
      && (events[j].Record? && events[j].tenant == tenant && events[j].amount > 0 ==> events[j].day == day)
  }

  /** A figure answered from the cache is never a seeded one, at any origin of the clock: it is the last total
      fetched for that day, less than a TTL ago, plus every positive amount recorded since. */
  lemma {:induction false} CachedFigure(events: seq<Event>, tenant: string) returns (i: nat)
    requires tenant in Run(events) && Run(events)[tenant].refreshed.At?
    ensures LastRefresh(events, tenant, Run(events)[tenant].day, i)
    ensures Run(events)[tenant].amount == events[i].amount + RecordedFrom(events, tenant, i + 1)
    ensures Run(events)[tenant].refreshed == At(events[i].at)
  {
    var front, last := events[..|events| - 1], events[|events| - 1];
    if last.Refresh? && last.tenant == tenant {
      i := |events| - 1;
    } else {
      i := CachedFigure(front, tenant);
      assert forall j :: 0 <= j < |front| ==> events[j] == front[j];
    }
  }

  /* ---------- What a fetch can miss ---------- */

  function Without(xs: seq<nat>, i: nat): seq<nat>
    requires i < |xs|
  {
    xs[..i] + xs[i + 1..]
  }

  lemma SumAppend(xs: seq<nat>, x: nat)
    ensures Sum(xs + [x]) == Sum(xs) + x
  {
    assert (xs + [x])[..|xs|] == xs;
  }

  lemma RowsWithout(xs: seq<nat>, i: nat)
    requires i < |xs|
    ensures multiset(xs) == multiset(Without(xs, i)) + multiset{xs[i]}
  {
    assert xs == xs[..i] + [xs[i]] + xs[i + 1..];
  }

  lemma WithoutFront(xs: seq<nat>, i: nat)
    requires i < |xs| - 1
    ensures Without(xs, i) == Without(xs[..|xs| - 1], i) + [xs[|xs| - 1]]
  {
  }

  lemma {:induction false} SumWithout(xs: seq<nat>, i: nat)
    requires i < |xs|
    ensures Sum(xs) == Sum(Without(xs, i)) + xs[i]
  {
    if i < |xs| - 1 {
      SumWithout(xs[..|xs| - 1], i);
      WithoutFront(xs, i);
      SumAppend(Without(xs[..|xs| - 1], i), xs[|xs| - 1]);
    } else {
      assert Without(xs, i) == xs[..i];
    }
  }

  /** The rows left out, and what they cost. */
  lemma {:induction false} LeftOut(costs: seq<nat>, rows: seq<nat>) returns (others: seq<nat>)
    requires multiset(rows) <= multiset(costs)
    ensures multiset(others) == multiset(costs) - multiset(rows)
    ensures Sum(costs) == Sum(rows) + Sum(others) && |costs| == |rows| + |others|
    decreases |costs|
  {
    if rows == [] {
      others := costs;
    } else {
      var front, x := rows[..|rows| - 1], rows[|rows| - 1];
      assert rows == front + [x];
      assert x in multiset(rows);
      var i :| 0 <= i < |costs| && costs[i] == x;
      SumWithout(costs, i);
      RowsWithout(costs, i);
      var a, b := multiset(Without(costs, i)), multiset(front);
      forall y ensures b[y] <= a[y] {
        assert (b + multiset{x})[y] <= (a + multiset{x})[y];
      }
      others := LeftOut(Without(costs, i), front);
    }
  }

  lemma {:induction false} NothingOfSum(costs: seq<nat>)
    ensures Sum(costs) == 0 <==> forall i :: 0 <= i < |costs| ==> costs[i] == 0
  {
    if costs != [] {
      NothingOfSum(costs[..|costs| - 1]);
    }
  }

  lemma FreeRows(costs: seq<nat>)
    ensures Sum(costs) == 0 <==> forall c :: c in multiset(costs) ==> c == 0
  {
    NothingOfSum(costs);
    if forall c :: c in multiset(costs) ==> c == 0 {
      forall i | 0 <= i < |costs| ensures costs[i] == 0 {
        assert costs[i] in multiset(costs);
      }
    }
  }

  /** What one answer tells: everything, exactly when every row left out of it costs nothing. */
  lemma AnswerTells(costs: seq<nat>, rows: seq<nat>)
    requires Answer(costs, rows)
    ensures Sum(rows) <= Sum(costs)
    ensures Sum(rows) == Sum(costs) <==> forall c :: c in multiset(costs) - multiset(rows) ==> c == 0
    ensures |costs| <= FETCH_LIMIT ==> Sum(rows) == Sum(costs)
  {
    var others := LeftOut(costs, rows);
    FreeRows(others);
  }

  /** A row can be left out of the answer as soon as there is one too many. */
  lemma LeavesOut(costs: seq<nat>, i: nat) returns (rows: seq<nat>)
    requires i < |costs| && |costs| > FETCH_LIMIT
    ensures Answer(costs, rows) && costs[i] in multiset(costs) - multiset(rows)
  {
    var others := Without(costs, i);
    rows := others[..FETCH_LIMIT];
    assert others == rows + others[FETCH_LIMIT..];
    RowsWithout(costs, i);
    assert multiset(others) == multiset(rows) + multiset(others[FETCH_LIMIT..]);
  }

  /** Exactly when a fetch can be relied on, whichever rows it gets: when today's fit in one, or all cost nothing. */
  lemma FetchExact(costs: seq<nat>)
    ensures (forall rows :: Answer(costs, rows) ==> Sum(rows) == Sum(costs))
       <==> |costs| <= 5000 || forall i :: 0 <= i < |costs| ==> costs[i] == 0
  {
    forall rows | Answer(costs, rows) && (|costs| <= FETCH_LIMIT || forall i :: 0 <= i < |costs| ==> costs[i] == 0)
      ensures Sum(rows) == Sum(costs)
    {
      AnswerTells(costs, rows);
      assert forall c :: c in multiset(costs) - multiset(rows) ==> c in costs;
    }
    if i: nat :| i < |costs| && costs[i] != 0 && |costs| > FETCH_LIMIT {
      var rows := LeavesOut(costs, i);
      AnswerTells(costs, rows);
    }
  }

  /** With one row too many, the query may leave out the one that passed the cap: whatever it cost, a check on a
      cold cache then lets the turn through. */
  lemma LongDaysPassTheCap(costs: seq<nat>, budget: int, today: string, now: int, cost: nat)
    requires |costs| == FETCH_LIMIT && MILLION * Sum(costs) < budget
    ensures Answer(costs + [cost], costs) && Sum(costs + [cost]) == Sum(costs) + cost
    ensures Checked(map[], "t", budget, today, now, costs).0
  {
    SumAppend(costs, cost);
  }

  /* ---------- Sequential turns in one day ---------- */

  /** One turn: the time since the one before, the rows the check's query would return, the session, and the
      assistant's message that is saved and recorded if the turn is let through. */
  datatype Turn = Turn(gap: nat, rows: seq<nat>, session: nat, message: Cost.Turn)

  /** The sessions of the day, with every message they ever had; the cents stored by today's rows; and what the
      rows were behind the true cost of the sessions at the last fetch. */
  datatype State = State(
    now: int, spend: map<string, Spend>, sessions: seq<seq<Cost.Turn>>, costs: seq<nat>, lagAtFetch: int)

  function TotalLag(sessions: seq<seq<Cost.Turn>>): int {
    if sessions == [] then 0 else TotalLag(sessions[..|sessions| - 1]) + Cost.Lag(sessions[|sessions| - 1])
  }

  function TotalCost(sessions: seq<seq<Cost.Turn>>): nat {
    if sessions == [] then 0 else TotalCost(sessions[..|sessions| - 1]) + Cost.TrueCost(sessions[|sessions| - 1])
  }

  predicate Hits(s: State, tenant: string, today: string, now: int) {
    tenant in s.spend && Fresh(s.spend[tenant], today, now)
  }

  /** What the check compares with the cap. */
  function Figure(s: State, tenant: string, today: string, t: Turn): int {
    if Hits(s, tenant, today, s.now + t.gap) then s.spend[tenant].amount else Fetched(t.rows)
  }

  /** The user's message, which costs nothing, then the assistant's. */
  function Extended(session: seq<Cost.Turn>, message: Cost.Turn): seq<Cost.Turn> {
    session + [UserMessage(message)] + [message]
  }

  function UserMessage(message: Cost.Turn): Cost.Turn {
    Cost.Turn(None, None, message.price, false)
  }

  /** A turn of `chat`: the check, the two rows, and the exact cost of the turn added to the cached figure. */
  function AfterTurn(s: State, tenant: string, budget: int, today: string, t: Turn): (bool, State)
    requires t.session < |s.sessions|
  {
    var now := s.now + t.gap;
    var lagAtFetch := if budget > 0 && !Hits(s, tenant, today, now) then TotalLag(s.sessions) else s.lagAtFetch;
    var (allowed, spend) := Checked(s.spend, tenant, budget, today, now, t.rows);
    if !allowed then (false, State(now, spend, s.sessions, s.costs, lagAtFetch))
    else
      var session := s.sessions[t.session];
      var cents := Cost.StoredFor(session + [UserMessage(t.message)], t.message);
      (true, State(now, Recorded(spend, tenant, Cost.TurnCost(t.message), today),
                   s.sessions[t.session := Extended(session, t.message)], s.costs + [0] + [cents], lagAtFetch))
  }

  /** The cached figure of today: what the rows add up to, but for what the lag has grown by since the fetch. */
  ghost predicate Tracks(s: State, tenant: string, today: string) {
    tenant in s.spend && s.spend[tenant].day == today && s.spend[tenant].refreshed.At? ==>
      s.spend[tenant].amount == MILLION * Sum(s.costs) + TotalLag(s.sessions) - s.lagAtFetch
  }

  lemma {:induction false} TotalsAt(sessions: seq<seq<Cost.Turn>>, i: nat, session: seq<Cost.Turn>)
    requires i < |sessions|
    ensures TotalLag(sessions[i := session]) == TotalLag(sessions) + Cost.Lag(session) - Cost.Lag(sessions[i])
    ensures TotalCost(sessions[i := session])
      == TotalCost(sessions) + Cost.TrueCost(session) - Cost.TrueCost(sessions[i])
  {
    var n := |sessions| - 1;
    if i < n {
      TotalsAt(sessions[..n], i, session);
      assert sessions[i := session][..n] == sessions[..n][i := session];
    } else {
      assert sessions[i := session][..n] == sessions[..n];
    }
  }

  lemma ExtendedCosts(session: seq<Cost.Turn>, message: Cost.Turn)
    ensures var cents := Cost.StoredFor(session + [UserMessage(message)], message);
      && Cost.Lag(Extended(session, message)) == Cost.Lag(session) + Cost.TurnCost(message) - MILLION * cents
      && Cost.TrueCost(Extended(session, message)) == Cost.TrueCost(session) + Cost.TurnCost(message)
  {
    var user := UserMessage(message);
    assert Cost.TurnCost(user) == 0 && Cost.StoredFor(session, user) == 0;
    Cost.LagStep(session, user);
    Cost.LagStep(session + [user], message);
  }

  /** What a turn that is let through does to the totals. */
  lemma TurnTotals(s: State, tenant: string, budget: int, today: string, t: Turn)
    requires t.session < |s.sessions|
    ensures var (allowed, s') := AfterTurn(s, tenant, budget, today, t);
      var cost := if allowed then Cost.TurnCost(t.message) else 0;
      && TotalCost(s'.sessions) == TotalCost(s.sessions) + cost
      && MILLION * Sum(s'.costs) + TotalLag(s'.sessions) == MILLION * Sum(s.costs) + TotalLag(s.sessions) + cost
  {
    var session := s.sessions[t.session];
    var cents := Cost.StoredFor(session + [UserMessage(t.message)], t.message);
    ExtendedCosts(session, t.message);
    TotalsAt(s.sessions, t.session, Extended(session, t.message));
    SumAppend(s.costs, 0);
    SumAppend(s.costs + [0], cents);
  }

  /** While today's rows fit in one fetch, with any prices and any failures of the accounting: a turn goes on
      exactly when the stored total, moved by what the lag has grown by since the last fetch, is below the cap. */
  lemma TurnExact(s: State, tenant: string, budget: int, today: string, t: Turn)
    requires budget > 0 && t.session < |s.sessions| && Tracks(s, tenant, today)
    requires Answer(s.costs, t.rows) && |s.costs| <= FETCH_LIMIT
    ensures var (allowed, s') := AfterTurn(s, tenant, budget, today, t);
      && Figure(s, tenant, today, t) == MILLION * Sum(s.costs) + TotalLag(s.sessions) - s'.lagAtFetch
      && (allowed <==> Figure(s, tenant, today, t) < budget)
      && Tracks(s', tenant, today)
  {
    AnswerTells(s.costs, t.rows);
    TurnTotals(s, tenant, budget, today, t);
  }

  /** Exactly when a check is misled, by what the lag has grown by since the last fetch. A turn that the stored total
      forbids goes on if and only if the rows have caught up by more than they are over the cap; one that it allows
      is refused if and only if they have fallen behind by as much as is left. Against the true cost of a day that
      began with `lagAtStart` the same holds of what the lag grew by between that start and the last fetch. */
  lemma MisledExactly(s: State, tenant: string, budget: int, today: string, t: Turn, lagAtStart: int)
    requires budget > 0 && t.session < |s.sessions| && Tracks(s, tenant, today)
    requires Answer(s.costs, t.rows) && |s.costs| <= FETCH_LIMIT
    ensures var (allowed, s') := AfterTurn(s, tenant, budget, today, t);
      var stored, growth := MILLION * Sum(s.costs), TotalLag(s.sessions) - s'.lagAtFetch;
      var spent, forgotten := stored + TotalLag(s.sessions) - lagAtStart, s'.lagAtFetch - lagAtStart;
      && (stored >= budget && allowed <==> 0 <= stored - budget < -growth)
      && (stored < budget && !allowed <==> 0 < budget - stored <= growth)
      && (spent >= budget && allowed <==> 0 <= spent - budget < forgotten)
      && (spent < budget && !allowed <==> 0 < budget - spent <= -forgotten)
  {
    TurnExact(s, tenant, budget, today, t);
  }

  /** A check on a figure just fetched is never misled about the stored total. */
  lemma FetchedCheckIsRight(s: State, tenant: string, budget: int, today: string, t: Turn)
    requires budget > 0 && t.session < |s.sessions| && Tracks(s, tenant, today)
    requires Answer(s.costs, t.rows) && |s.costs| <= FETCH_LIMIT && !Hits(s, tenant, today, s.now + t.gap)
    ensures AfterTurn(s, tenant, budget, today, t).0 <==> MILLION * Sum(s.costs) < budget
  {
    TurnExact(s, tenant, budget, today, t);
  }

  /** Agreement of cache and store does not last: one turn of less than half a cent stores nothing, and records
      what it cost. */
  lemma SubCentTurnDrifts(today: string)
    ensures var message := Cost.Turn(Some(1_000), None, Some(Cost.Price(59, 79)), false);
      var s := State(0, map["t" := Spend(today, 0, At(0))], [[]], [], 0);
      var s' := AfterTurn(s, "t", MILLION, today, Turn(0, [], 0, message)).1;
      s'.spend["t"].amount == 59_000 && Sum(s'.costs) == 0
  {
    var message := Cost.Turn(Some(1_000), None, Some(Cost.Price(59, 79)), false);
    var s := State(0, map["t" := Spend(today, 0, At(0))], [[]], [], 0);
    var turns := [] + [UserMessage(message)];
    assert turns[..0] == [];
    Cost.RowsSumToPeak(turns);
    assert Cost.StoredFor(turns, message) == 0;
    SumAppend([], 0);
    SumAppend([] + [0], 0);
    assert Cost.TurnCost(message) == 59_000;
  }

  ghost predicate AllSettle(sessions: seq<seq<Cost.Turn>>, p: Cost.Price) {
    forall i :: 0 <= i < |sessions| ==> Cost.Settles(sessions[i], p)
  }

  /** The rows are never more than half a cent for each session off its true cost. */
  lemma {:induction false} TotalLagBound(sessions: seq<seq<Cost.Turn>>, p: Cost.Price)
    requires AllSettle(sessions, p)
    ensures -MILLION * |sessions| <= 2 * TotalLag(sessions) <= MILLION * |sessions|
  {
    if sessions != [] {
      var n := |sessions| - 1;
      TotalLagBound(sessions[..n], p);
      Cost.LagBound(sessions[n], p);
    }
  }

  /** A turn of one of the sessions, at the price of the day, whose accounting succeeds. */
  ghost predicate Ordinary(t: Turn, sessions: nat, p: Cost.Price, most: int) {
    t.session < sessions && t.message.price == Some(p) && !t.message.fails && Cost.TurnCost(t.message) <= most
  }

  lemma TurnSettles(s: State, tenant: string, budget: int, today: string, t: Turn, p: Cost.Price, most: int)
    requires Ordinary(t, |s.sessions|, p, most) && AllSettle(s.sessions, p)
    ensures AllSettle(AfterTurn(s, tenant, budget, today, t).1.sessions, p)
  {
    var session := s.sessions[t.session];
    Cost.SettlesStep(session, UserMessage(t.message), p);
    Cost.SettlesStep(session + [UserMessage(t.message)], t.message, p);
  }

  /** Every check of the day gets an answer to its query. */
  ghost predicate Answered(s: State, tenant: string, budget: int, today: string, turns: seq<Turn>)
    decreases |turns|
  {
    turns != [] ==>
      && turns[0].session < |s.sessions|
      && Answer(s.costs, turns[0].rows)
      && Answered(AfterTurn(s, tenant, budget, today, turns[0]).1, tenant, budget, today, turns[1..])
  }

  function RunTurns(s: State, tenant: string, budget: int, today: string, turns: seq<Turn>): State
    requires Answered(s, tenant, budget, today, turns)
    decreases |turns|
  {
    if turns == [] then s
    else RunTurns(AfterTurn(s, tenant, budget, today, turns[0]).1, tenant, budget, today, turns[1..])
  }

  /** The day begins without a row of its own. */
  function Morning(now: int, spend: map<string, Spend>, sessions: seq<seq<Cost.Turn>>): State {
    State(now, spend, sessions, [], TotalLag(sessions))
  }

  /** What every turn of the day keeps. */
  ghost predicate DayHolds(
    s: State, tenant: string, budget: int, today: string, p: Cost.Price, most: int, lagAtStart: int, costAtStart: int)
  {
    var slack := MILLION * |s.sessions|;
    && Tracks(s, tenant, today) && AllSettle(s.sessions, p)
    && -slack <= 2 * s.lagAtFetch <= slack && -slack <= 2 * lagAtStart <= slack
    && TotalCost(s.sessions) - costAtStart == MILLION * Sum(s.costs) + TotalLag(s.sessions) - lagAtStart
    && MILLION * Sum(s.costs) < budget + most + slack
    && TotalCost(s.sessions) - costAtStart < budget + most + slack
  }

  lemma TurnKeepsDay(
    s: State, tenant: string, budget: int, today: string, t: Turn,
    p: Cost.Price, most: int, lagAtStart: int, costAtStart: int)
    requires budget > 0 && most >= 0 && Ordinary(t, |s.sessions|, p, most)
    requires Answer(s.costs, t.rows) && |s.costs| <= FETCH_LIMIT
    requires DayHolds(s, tenant, budget, today, p, most, lagAtStart, costAtStart)
    ensures DayHolds(AfterTurn(s, tenant, budget, today, t).1, tenant, budget, today, p, most, lagAtStart, costAtStart)
  {
    var s' := AfterTurn(s, tenant, budget, today, t).1;
    TurnExact(s, tenant, budget, today, t);
    TurnTotals(s, tenant, budget, today, t);
    TurnSettles(s, tenant, budget, today, t, p, most);
    TotalLagBound(s.sessions, p);
    TotalLagBound(s'.sessions, p);
  }

  lemma {:induction false} DayKeeps(
    s: State, tenant: string, budget: int, today: string, turns: seq<Turn>,
    p: Cost.Price, most: int, lagAtStart: int, costAtStart: int)
    requires budget > 0 && most >= 0 && |s.costs| + 2 * |turns| <= FETCH_LIMIT
    requires forall i :: 0 <= i < |turns| ==> Ordinary(turns[i], |s.sessions|, p, most)
    requires Answered(s, tenant, budget, today, turns)
    requires DayHolds(s, tenant, budget, today, p, most, lagAtStart, costAtStart)
    ensures DayHolds(RunTurns(s, tenant, budget, today, turns), tenant, budget, today, p, most, lagAtStart, costAtStart)
    ensures |RunTurns(s, tenant, budget, today, turns).sessions| == |s.sessions|
    decreases |turns|
  {
    if turns != [] {
      TurnKeepsDay(s, tenant, budget, today, turns[0], p, most, lagAtStart, costAtStart);
      var s' := AfterTurn(s, tenant, budget, today, turns[0]).1;
      DayKeeps(s', tenant, budget, today, turns[1..], p, most, lagAtStart, costAtStart);
    }
  }

  /** A day of sequential turns, with one price and accounting that succeeds, ends below the cap plus one turn's
      cost plus one cent for each of its sessions, both in what is stored and in what it truly cost. */
  lemma DayEndsBelowCap(
    now: int, spend: map<string, Spend>, sessions: seq<seq<Cost.Turn>>,
    tenant: string, budget: int, today: string, turns: seq<Turn>, p: Cost.Price, most: int)
    requires budget > 0 && most >= 0 && 2 * |turns| <= FETCH_LIMIT
    requires (tenant in spend ==> spend[tenant].day != today) && AllSettle(sessions, p)
    requires forall i :: 0 <= i < |turns| ==> Ordinary(turns[i], |sessions|, p, most)
    requires Answered(Morning(now, spend, sessions), tenant, budget, today, turns)
    ensures var end := RunTurns(Morning(now, spend, sessions), tenant, budget, today, turns);
      && MILLION * Sum(end.costs) < budget + most + MILLION * |sessions|
      && TotalCost(end.sessions) - TotalCost(sessions) < budget + most + MILLION * |sessions|
  {
    var s := Morning(now, spend, sessions);
    TotalLagBound(sessions, p);
    DayKeeps(s, tenant, budget, today, turns, p, most, TotalLag(sessions), TotalCost(sessions));
  }

  /** At any moment of such a day the figure is within a cent for each session of what is stored. */
  lemma FigureIsClose(
    s: State, tenant: string, budget: int, today: string, t: Turn,
    p: Cost.Price, most: int, lagAtStart: int, costAtStart: int)
    requires budget > 0 && t.session < |s.sessions| && Answer(s.costs, t.rows) && |s.costs| <= FETCH_LIMIT
    requires DayHolds(s, tenant, budget, today, p, most, lagAtStart, costAtStart)
    ensures -MILLION * |s.sessions| <= Figure(s, tenant, today, t) - MILLION * Sum(s.costs) <= MILLION * |s.sessions|
  {
    TurnExact(s, tenant, budget, today, t);
    TotalLagBound(s.sessions, p);
  }
}
