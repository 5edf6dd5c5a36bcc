/** Exactly when a revocation takes effect (`backend/app/core/tenant.py`,
    `backend/app/features/memberships/service.py`): a write of the snapshot that was pending when the membership went
    undoes it, and nothing else does.
 */
module IdentityRace {
  import opened Basics
  import opened Identity

  lemma {:induction false} UnusedAbove(used: set<nat>) returns (n: nat)
    ensures forall k :: k in used ==> k < n
  {
    if used == {} {
      n := 0;
    } else {
      var k :| k in used;
      var m := UnusedAbove(used - {k});
      n := if k < m then m else k + 1;
      assert forall j :: j in used ==> j == k || j in used - {k};
    }
  }

  lemma StepBefore(s: State, tenant: Tenant, time: int, step: Step, steps: seq<Step>, last: Step, g: Gaps)
    requires Enabled(s, step, g) && !Reinstates(step, tenant)
    requires ResolvesAfter(Next(s, step, g), tenant, time, steps, last, g)
    ensures ResolvesAfter(s, tenant, time, [step] + steps, last, g)
  {
    assert ([step] + steps)[1..] == steps;
  }

  /** A snapshot that grants the tenant keeps granting it: however long one waits, a new request whose cache entry
      is gone reads it and resolves to the tenant without any check. */
  lemma SnapshotResolves(s: State, tenant: Tenant, time: int, g: Gaps) returns (steps: seq<Step>, last: Step)
    requires s.row == Row(Some(tenant), true) && s.now <= time
    ensures ResolvesAfter(s, tenant, time, steps, last, g)
  {
    var f := UnusedAbove(s.ops.Keys);
    assert f in s.ops.Keys ==> f < f;
    var s1 := Next(s, Tick(time + 1 - s.now), g);
    var s2 := Next(s1, Evict(0), g);
    var s3 := Next(s2, Miss(f, 0, None), g);
    steps, last := MissedResolves(s3, tenant, time, f, g);
    StepBefore(s2, tenant, time, Miss(f, 0, None), steps, last, g);
    steps := [Miss(f, 0, None)] + steps;
    StepBefore(s1, tenant, time, Evict(0), steps, last, g);
    steps := [Evict(0)] + steps;
    StepBefore(s, tenant, time, Tick(time + 1 - s.now), steps, last, g);
    steps := [Tick(time + 1 - s.now)] + steps;
  }

  /** A request that missed the cache reads the row, puts it there, and resolves from it. */
  lemma MissedResolves(s: State, tenant: Tenant, time: int, op: nat, g: Gaps) returns (steps: seq<Step>, last: Step)
    requires s.row == Row(Some(tenant), true) && time < s.now
    requires op in s.ops && s.ops[op].Missed? && s.ops[op].requested.None?
    ensures ResolvesAfter(s, tenant, time, steps, last, g)
  {
    var s1 := Next(s, Read(op), g);
    var s2 := Next(s1, Put(op), g);
    last := Decide(op);
    assert ResolvesAfter(s2, tenant, time, [], last, g);
    StepBefore(s1, tenant, time, Put(op), [], last, g);
    StepBefore(s, tenant, time, Read(op), [Put(op)] + [], last, g);
    steps := [Read(op)] + ([Put(op)] + []);
  }

  /** Why the pending writer matters: once it has written, the revoked tenant is resolved for ever. */
  lemma LateWriteNeverEnds(s: State, tenant: Tenant, time: int, g: Gaps) returns (steps: seq<Step>, last: Step)
    requires s.row.active && PendingWriter(s, tenant) && s.now <= time
    ensures ResolvesAfter(s, tenant, time, steps, last, g)
  {
    var w: nat :| w in s.ops && WillWrite(s.ops[w], tenant);
    var more;
    more, last := SnapshotResolves(Next(s, Write(w), g), tenant, time, g);
    StepBefore(s, tenant, time, Write(w), more, last, g);
    steps := [Write(w)] + more;
  }

  /** Exactly when a revocation takes effect within the bound: if and only if, at that instant, the account is
      inactive or no operation that saw the membership has yet to write the snapshot. */
  lemma RevocationExact(now: int, row: Row, members: seq<Tenant>, steps: seq<Step>, tenant: Tenant, g: Gaps)
    requires Allowed(Start(now, row, members), steps, g)
    ensures var s := After(Start(now, row, members), steps, g);
      Revoked(s, tenant) ==> (RevocationHolds(s, tenant, g) <==> !(s.row.active && PendingWriter(s, tenant)))
  {
    var s := After(Start(now, row, members), steps, g);
    TimedRun(Start(now, row, members), steps, g);
    if Revoked(s, tenant) {
      if s.row.active && PendingWriter(s, tenant) {
        var more, last := LateWriteNeverEnds(s, tenant, s.now + Bound(g), g);
      } else {
        RevocationSafe(s, tenant, g);
      }
    }
  }

  ghost predicate Reaches(start: State, steps: seq<Step>, s: State, g: Gaps) {
    Allowed(start, steps, g) && After(start, steps, g) == s
  }

  lemma {:induction false} ReachStep(start: State, steps: seq<Step>, s: State, step: Step, s': State, g: Gaps)
    requires Reaches(start, steps, s, g) && Enabled(s, step, g) && Next(s, step, g) == s'
    ensures Reaches(start, steps + [step], s', g)
    decreases |steps|
  {
    if steps == [] {
      assert [step][1..] == [];
    } else {
      ReachStep(Next(start, steps[0], g), steps[1..], s, step, s', g);
      assert (steps + [step])[1..] == steps[1..] + [step];
    }
  }

  /** A user of two tenants, whose snapshot is the second. */
  function TwoTenants(): State {
    Start(0, Row(Some("b"), true), ["a", "b"])
  }

  /** The same after a request for the first has found its membership and not yet written the snapshot. */
  function Validating(): State {
    State(0, Row(Some("b"), true), ["a", "b"],
          map[0 := Entry(PROFILE_TTL, Seen(Row(Some("b"), true), 0))], map[0 := Validated("a", 0)])
  }

  lemma ValidatingIsReachable(g: Gaps) returns (steps: seq<Step>)
    ensures Reaches(TwoTenants(), steps, Validating(), g)
  {
    var start, row, seen := TwoTenants(), Row(Some("b"), true), Seen(Row(Some("b"), true), 0);
    var missed := start.(ops := map[0 := Missed(0, Some("a"))]);
    var fetched := start.(ops := map[0 := Fetched(0, Some("a"), seen)]);
    var holding := Validating().(ops := map[0 := Holding(0, Some("a"), seen, 0)]);
    var deciding := Validating().(ops := map[0 := Deciding("a", 0)]);
    ReachStep(start, [], start, Miss(0, 0, Some("a")), missed, g);
    steps := [] + [Miss(0, 0, Some("a"))];
    ReachStep(start, steps, missed, Read(0), fetched, g);
    steps := steps + [Read(0)];
    ReachStep(start, steps, fetched, Put(0), holding, g);
    steps := steps + [Put(0)];
    ReachStep(start, steps, holding, Decide(0), deciding, g);
    steps := steps + [Decide(0)];
    ReachStep(start, steps, deciding, Validate(0), Validating(), g);
    steps := steps + [Validate(0)];
  }

  /** The failing case is reachable: a request validates a membership, and it is revoked before the write. */
  lemma RaceIsReachable(g: Gaps) returns (steps: seq<Step>)
    ensures Allowed(TwoTenants(), steps, g)
    ensures var s := After(TwoTenants(), steps, g); Revoked(s, "a") && !RevocationHolds(s, "a", g)
  {
    steps := ValidatingIsReachable(g);
    var s := Next(Validating(), Revoke("a"), g);
    ReachStep(TwoTenants(), steps, Validating(), Revoke("a"), s, g);
    steps := steps + [Revoke("a")];
    assert s.ops[0] == Validated("a", 0) && WillWrite(s.ops[0], "a");
    RevocationExact(0, Row(Some("b"), true), ["a", "b"], steps, "a", g);
  }

  /** A membership edit that removes a membership and runs to its end undisturbed leaves the tenant revoked. */
  lemma DeleteRevokes(s: State, tenant: Tenant, op: nat, g: Gaps)
    requires op !in s.ops
    ensures var s1 := Next(s, Revoke(tenant), g);
      var s2 := Next(s1, SyncStart(op), g);
      var s3 := Next(s2, SyncChoose(op), g);
      Revoked(Next(s3, Write(op), g), tenant)
  {
  }
}
