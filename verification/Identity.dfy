/** The multi-instance identity protocol: one database, one profile cache per process, and any number of requests,
    membership edits and activations in flight, interleaved one database or cache access at a time
    (`backend/app/core/tenant.py`, `backend/app/core/supabase/auth.py`, `backend/app/core/supabase/auth_cache.py`,
    `backend/app/features/memberships/service.py`).

    The protocol follows one user. Other users only make a cache drop the entry, which `Evict` does at any time.
 */
module Identity {
  import opened Basics
  import AuthCache
  import Tenants = Tenant

  const PROFILE_TTL := AuthCache.PROFILE_TTL

  type Tenant = string

  /** The part of the profile row that decides: the snapshot, and whether the account is active. */
  datatype Row = Row(tenant: Option<Tenant>, active: bool)

  /** A profile in memory, with the instant its row was read. */
  datatype Seen = Seen(row: Row, readAt: int)

  datatype Entry = Entry(deadline: int, seen: Seen)

  /** Where an operation stands between two accesses.
      A request has missed the cache (`Missed`), read the row but not put it in the cache (`Fetched`), has its
      profile since some instant (`Holding`), decided on the slow path (`Deciding`), found an active membership
      (`Validated`), or written the row (`Written`). An activation is a `Validated` that is nobody's request. A
      membership edit re-derives the snapshot: it has read the row (`SyncRead`), then the memberships
      (`SyncChosen`); choosing no tenant means deactivating the profile. */
  datatype Op =
    | Missed(instance: nat, requested: Option<Tenant>)
    | Fetched(instance: nat, requested: Option<Tenant>, seen: Seen)
    | Holding(instance: nat, requested: Option<Tenant>, seen: Seen, since: int)
    | Deciding(target: Tenant, since: int)
    | Validated(target: Tenant, since: int)
    | Written(target: Tenant, since: int)
    | SyncRead(snapshot: Option<Tenant>)
    | SyncChosen(choice: Option<Tenant>)

  /** `members` are the user's active memberships in order of creation. */
  datatype State = State(now: int, row: Row, members: seq<Tenant>, caches: map<nat, Entry>, ops: map<nat, Op>)

  datatype Step =
    | Tick(ticks: nat)
    | Hit(op: nat, instance: nat, requested: Option<Tenant>)   // a request starts with a fresh cache entry
    | Miss(op: nat, instance: nat, requested: Option<Tenant>)  // or without one
    | Read(op: nat)          // and then reads the row, whatever the others put in the cache meanwhile
    | Put(op: nat)           // the cache put; the request goes on with the row it read
    | Reject(op: nat)        // the account is deactivated
    | Decide(op: nat)        // fast path, slow path, or nowhere to go
    | Validate(op: nat)      // the slow path's membership check
    | Write(op: nat)         // the pending write of the snapshot
    | Finish(op: nat)        // the slow path resolves
    | Activate(op: nat, target: Tenant)  // an activation's membership check
    | SyncStart(op: nat)     // a membership edit reads the row
    | SyncChoose(op: nat)    // and the memberships
    | Revoke(tenant: Tenant)
    | Grant(tenant: Tenant)
    | Disable
    | Enable
    | Evict(instance: nat)   // an invalidation or an eviction

  /** The longest gap from reading the row to the put, and from having the profile to resolving the tenant. */
  datatype Gaps = Gaps(readToPut: nat, fetchToResolve: nat)

  function First(members: seq<Tenant>): Option<Tenant> {
    if members == [] then None else Some(members[0])
  }

  function Without(members: seq<Tenant>, tenant: Tenant): (r: seq<Tenant>)
    ensures forall t :: t in r <==> t in members && t != tenant
  {
    if members == [] then []
    else (if members[0] == tenant then [] else [members[0]]) + Without(members[1..], tenant)
  }

  function TargetOf(s: State, op: Op): Option<Tenant>
    requires op.Holding?
  {
    Tenants.Target(op.requested, op.seen.row.tenant, First(s.members))
  }

  /** `_sync_profile_snapshot`'s choice: the snapshot's own membership, else the first, else none. */
  function Choice(members: seq<Tenant>, snapshot: Option<Tenant>): Option<Tenant> {
    if snapshot.Some? && snapshot.value in members then snapshot else First(members)
  }

  predicate Enabled(s: State, step: Step, g: Gaps) {
    match step
    case Tick(_) => true
    case Hit(op, instance, _) => op !in s.ops && instance in s.caches && s.now < s.caches[instance].deadline
    case Miss(op, instance, _) => op !in s.ops && !(instance in s.caches && s.now < s.caches[instance].deadline)
    case Read(op) => op in s.ops && s.ops[op].Missed?
    case Put(op) => op in s.ops && s.ops[op].Fetched? && s.now - s.ops[op].seen.readAt <= g.readToPut
    case Reject(op) => op in s.ops && s.ops[op].Holding? && !s.ops[op].seen.row.active
    case Decide(op) =>
      op in s.ops && s.ops[op].Holding? && s.ops[op].seen.row.active && s.now - s.ops[op].since <= g.fetchToResolve
    case Validate(op) => op in s.ops && s.ops[op].Deciding?
    case Write(op) => op in s.ops && (s.ops[op].Validated? || s.ops[op].SyncChosen?)
    case Finish(op) => op in s.ops && s.ops[op].Written? && s.now - s.ops[op].since <= g.fetchToResolve
    case Activate(op, target) => op !in s.ops && target in s.members
    case SyncStart(op) => op !in s.ops
    case SyncChoose(op) => op in s.ops && s.ops[op].SyncRead?
    case Revoke(_) => true
    case Grant(tenant) => tenant !in s.members
    case Disable => true
    case Enable => true
    case Evict(_) => true
  }

  function Next(s: State, step: Step, g: Gaps): State
    requires Enabled(s, step, g)
  {
    match step
    case Tick(ticks) => s.(now := s.now + ticks)
    case Hit(op, instance, requested) =>
      s.(ops := s.ops[op := Holding(instance, requested, s.caches[instance].seen, s.now)])
    case Miss(op, instance, requested) => s.(ops := s.ops[op := Missed(instance, requested)])
    case Read(op) =>
      s.(ops := s.ops[op := Fetched(s.ops[op].instance, s.ops[op].requested, Seen(s.row, s.now))])
    case Put(op) =>
      var o := s.ops[op];
      s.(caches := s.caches[o.instance := Entry(s.now + PROFILE_TTL, o.seen)],
         ops := s.ops[op := Holding(o.instance, o.requested, o.seen, s.now)])
    case Reject(op) => s.(ops := s.ops - {op})
    case Decide(op) =>
      var target := TargetOf(s, s.ops[op]);
      if target.None? || target == s.ops[op].seen.row.tenant then s.(ops := s.ops - {op})
      else s.(ops := s.ops[op := Deciding(target.value, s.ops[op].since)])
    case Validate(op) =>
      var o := s.ops[op];
      if o.target in s.members then s.(ops := s.ops[op := Validated(o.target, o.since)]) else s.(ops := s.ops - {op})
    case Write(op) =>
      (match s.ops[op]
       case Validated(target, since) => s.(row := s.row.(tenant := Some(target)),
         ops := s.ops[op := Written(target, since)])
       case SyncChosen(choice) =>
         s.(row := if choice.Some? then s.row.(tenant := choice) else s.row.(active := false), ops := s.ops - {op}))
    case Finish(op) => s.(ops := s.ops - {op})
    case Activate(op, target) => s.(ops := s.ops[op := Validated(target, s.now)])
    case SyncStart(op) => s.(ops := s.ops[op := SyncRead(s.row.tenant)])
    case SyncChoose(op) => s.(ops := s.ops[op := SyncChosen(Choice(s.members, s.ops[op].snapshot))])
    case Revoke(tenant) => s.(members := Without(s.members, tenant))
    case Grant(tenant) => s.(members := s.members + [tenant])
    case Disable => s.(row := s.row.(active := false))
    case Enable => s.(row := s.row.(active := true))
    case Evict(instance) => s.(caches := s.caches - {instance})
  }

  /** The tenant a request resolves to in this step, if it does. */
  function Resolves(s: State, step: Step, g: Gaps): Option<Tenant>
    requires Enabled(s, step, g)
  {
    match step
    case Decide(op) => if TargetOf(s, s.ops[op]) == s.ops[op].seen.row.tenant then s.ops[op].seen.row.tenant else None
    case Finish(op) => Some(s.ops[op].target)
    case _ => None
  }

  function Start(now: int, row: Row, members: seq<Tenant>): State {
    State(now, row, members, map[], map[])
  }

  ghost predicate Allowed(s: State, steps: seq<Step>, g: Gaps)
    decreases |steps|
  {
    steps != [] ==> Enabled(s, steps[0], g) && Allowed(Next(s, steps[0], g), steps[1..], g)
  }

  function After(s: State, steps: seq<Step>, g: Gaps): State
    requires Allowed(s, steps, g)
    decreases |steps|
  {
    if steps == [] then s else After(Next(s, steps[0], g), steps[1..], g)
  }

  /* ---------- Every run: a profile in use was read not long ago ---------- */

  /** Nothing in memory was read later than now; what a cache holds expires within the gap and the TTL of its read,
      and what a request holds it obtained within the same time. */
  ghost predicate Timed(s: State, g: Gaps) {
    && (forall i :: i in s.caches ==> TimedEntry(s.caches[i], s.now, g))
    && (forall o :: o in s.ops ==> TimedOp(s.ops[o], s.now, g))
  }

  ghost predicate TimedEntry(e: Entry, now: int, g: Gaps) {
    e.seen.readAt <= now && e.deadline <= e.seen.readAt + g.readToPut + PROFILE_TTL
  }

  ghost predicate TimedOp(o: Op, now: int, g: Gaps) {
    match o
    case Fetched(_, _, seen) => seen.readAt <= now
    case Holding(_, _, seen, since) =>
      seen.readAt <= now && since <= now && since <= seen.readAt + g.readToPut + PROFILE_TTL
    case Deciding(_, since) => since <= now
    case Validated(_, since) => since <= now
    case Written(_, since) => since <= now
    case _ => true
  }

  lemma TimedStep(s: State, step: Step, g: Gaps)
    requires Timed(s, g) && Enabled(s, step, g)
    ensures Timed(Next(s, step, g), g)
  {
  }

  lemma {:induction false} TimedRun(s: State, steps: seq<Step>, g: Gaps)
    requires Timed(s, g) && Allowed(s, steps, g)
    ensures Timed(After(s, steps, g), g)
    decreases |steps|
  {
    if steps != [] {
      TimedStep(s, steps[0], g);
      TimedRun(Next(s, steps[0], g), steps[1..], g);
    }
  }

  /* ---------- Revocation ---------- */

  ghost predicate Grants(row: Row, tenant: Tenant) {
    row.active && row.tenant == Some(tenant)
  }

  /** The membership is gone and the snapshot no longer grants the tenant. */
  ghost predicate Revoked(s: State, tenant: Tenant) {
    tenant !in s.members && !Grants(s.row, tenant)
  }

  /** An operation that saw the membership before it went and has yet to write the snapshot. */
  predicate WillWrite(op: Op, tenant: Tenant) {
    op == SyncChosen(Some(tenant)) || (op.Validated? && op.target == tenant)
  }

  ghost predicate PendingWriter(s: State, tenant: Tenant) {
    exists o :: o in s.ops && WillWrite(s.ops[o], tenant)
  }

  predicate Reinstates(step: Step, tenant: Tenant) {
    step == Grant(tenant) || step == Enable
  }

  ghost predicate NoReinstating(steps: seq<Step>, tenant: Tenant) {
    forall i :: 0 <= i < |steps| ==> !Reinstates(steps[i], tenant)
  }

  /** From `at` on nobody can write the tenant back, and whatever still grants it was read before. */
  ghost predicate Fading(s: State, tenant: Tenant, at: int) {
    && at <= s.now && Revoked(s, tenant) && !(s.row.active && PendingWriter(s, tenant))
    && (forall i :: i in s.caches ==> OldSeen(s.caches[i].seen, tenant, at))
    && (forall o :: o in s.ops ==> OldOp(s.ops[o], tenant, at))
  }

  ghost predicate OldSeen(seen: Seen, tenant: Tenant, at: int) {
    Grants(seen.row, tenant) ==> seen.readAt <= at
  }

  ghost predicate OldOp(o: Op, tenant: Tenant, at: int) {
    && (o.Fetched? || o.Holding? ==> OldSeen(o.seen, tenant, at))
    && ((o.Validated? || o.Written?) && o.target == tenant ==> o.since <= at)
  }

  /** Without reinstatement nothing brings the tenant back, or a writer of it. */
  lemma RevokedStep(s: State, tenant: Tenant, step: Step, g: Gaps)
    requires Enabled(s, step, g) && !Reinstates(step, tenant)
    requires Revoked(s, tenant) && !(s.row.active && PendingWriter(s, tenant))
    ensures var s' := Next(s, step, g); Revoked(s', tenant) && !(s'.row.active && PendingWriter(s', tenant))
  {
    var s' := Next(s, step, g);
    if step.Write? && s.row.active {
      assert !WillWrite(s.ops[step.op], tenant);
    }
    forall o | o in s'.ops && s'.row.active ensures !WillWrite(s'.ops[o], tenant) {
      assert o in s.ops ==> !WillWrite(s.ops[o], tenant);
    }
  }

  lemma FadingStep(s: State, tenant: Tenant, at: int, step: Step, g: Gaps)
    requires Timed(s, g) && Fading(s, tenant, at) && Enabled(s, step, g) && !Reinstates(step, tenant)
    ensures Fading(Next(s, step, g), tenant, at)
  {
    RevokedStep(s, tenant, step, g);
    var s' := Next(s, step, g);
    forall o | o in s'.ops ensures OldOp(s'.ops[o], tenant, at) {
      assert o in s.ops ==> OldOp(s.ops[o], tenant, at);
    }
  }

  lemma {:induction false} FadingRun(s: State, tenant: Tenant, at: int, steps: seq<Step>, g: Gaps)
    requires Timed(s, g) && Fading(s, tenant, at) && Allowed(s, steps, g) && NoReinstating(steps, tenant)
    ensures Timed(After(s, steps, g), g) && Fading(After(s, steps, g), tenant, at)
    decreases |steps|
  {
    if steps != [] {
      assert !Reinstates(steps[0], tenant);
      TimedStep(s, steps[0], g);
      FadingStep(s, tenant, at, steps[0], g);
      FadingRun(Next(s, steps[0], g), tenant, at, steps[1..], g);
    }
  }

  /** A step that resolves the tenant while it is fading does so within the bound. */
  lemma FadingResolves(s: State, tenant: Tenant, at: int, step: Step, g: Gaps)
    requires Timed(s, g) && Fading(s, tenant, at) && Enabled(s, step, g)
    requires Resolves(s, step, g) == Some(tenant)
    ensures s.now <= at + PROFILE_TTL + g.readToPut + g.fetchToResolve
  {
  }

  /** A run without reinstatement whose last step resolves some request to the tenant, after `time`. */
  ghost predicate ResolvesAfter(s: State, tenant: Tenant, time: int, steps: seq<Step>, last: Step, g: Gaps) {
    && Allowed(s, steps, g) && NoReinstating(steps, tenant)
    && Enabled(After(s, steps, g), last, g)
    && Resolves(After(s, steps, g), last, g) == Some(tenant)
    && After(s, steps, g).now > time
  }

  function Bound(g: Gaps): int {
    PROFILE_TTL + g.readToPut + g.fetchToResolve
  }

  /** No request resolves to the tenant once the profile TTL and the two gaps have passed. */
  ghost predicate RevocationHolds(s: State, tenant: Tenant, g: Gaps) {
    forall time, steps: seq<Step>, last: Step :: time == s.now + Bound(g) ==>
      !ResolvesAfter(s, tenant, time, steps, last, g)
  }

  /** Safety: at the instant a membership is gone and the snapshot repointed or the account deactivated, with no
      writer still pending, the bound holds in every continuation, on every instance. */
  lemma RevocationSafe(s: State, tenant: Tenant, g: Gaps)
    requires Timed(s, g) && Revoked(s, tenant) && !(s.row.active && PendingWriter(s, tenant))
    ensures RevocationHolds(s, tenant, g)
  {
    forall time, steps: seq<Step>, last: Step | time == s.now + Bound(g)
      ensures !ResolvesAfter(s, tenant, time, steps, last, g)
    {
      if Allowed(s, steps, g) && NoReinstating(steps, tenant) {
        FadingRun(s, tenant, s.now, steps, g);
        var t := After(s, steps, g);
        if Enabled(t, last, g) && Resolves(t, last, g) == Some(tenant) {
          FadingResolves(t, tenant, s.now, last, g);
        }
      }
    }
  }
}
