/** What the steps of the identity protocol decide, one operation at a time and undisturbed
    (`backend/app/core/tenant.py`, `backend/app/core/supabase/auth_cache.py`,
    `backend/app/features/memberships/service.py`).
 */
module IdentitySteps {
  import opened Basics
  import opened Identity

  /** A request is for the tenant it names, else for its snapshot's, else for its first: at once when that is the
      snapshot's, and otherwise on the slow path; with no tenant at all it goes nowhere. */
  lemma DecidesForTheRightTenant(s: State, op: nat, g: Gaps)
    requires Enabled(s, Decide(op), g)
    ensures var o, s', resolved := s.ops[op], Next(s, Decide(op), g), Resolves(s, Decide(op), g);
      var slow := if op in s'.ops && s'.ops[op].Deciding? then Some(s'.ops[op].target) else None;
      && s'.row == s.row && s'.members == s.members
      && (o.requested.Some? && o.requested == o.seen.row.tenant ==> resolved == o.requested && op !in s'.ops)
      && (o.requested.Some? && o.requested != o.seen.row.tenant ==> resolved.None? && slow == o.requested)
      && (o.requested.None? && o.seen.row.tenant.Some? ==> resolved == o.seen.row.tenant && op !in s'.ops)
      && (o.requested.None? && o.seen.row.tenant.None? && s.members != [] ==>
            resolved.None? && slow == Some(s.members[0]))
      && (o.requested.None? && o.seen.row.tenant.None? && s.members == [] ==> resolved.None? && op !in s'.ops)
  {
  }

  /** An undisturbed slow path resolves its tenant, and repoints the row, if and only if the membership is live. */
  lemma SlowPathExact(s: State, op: nat, g: Gaps)
    requires op in s.ops && s.ops[op].Deciding? && s.now - s.ops[op].since <= g.fetchToResolve
    ensures var tenant, s1 := s.ops[op].target, Next(s, Validate(op), g);
      && (tenant !in s.members ==> s1 == s.(ops := s.ops - {op}))
      && (tenant in s.members ==>
            var s2 := Next(s1, Write(op), g);
            && Enabled(s2, Finish(op), g) && Resolves(s2, Finish(op), g) == Some(tenant)
            && s2.row == s.row.(tenant := Some(tenant)))
  {
  }

  /** A membership edit that runs undisturbed keeps a live snapshot as it is; it repoints a dead one to the first
      live membership, and with none left it deactivates the account. */
  lemma SyncDerives(s: State, op: nat, g: Gaps)
    requires op !in s.ops
    ensures var s' := Next(Next(Next(s, SyncStart(op), g), SyncChoose(op), g), Write(op), g);
      && s'.members == s.members
      && (s.row.tenant.Some? && s.row.tenant.value in s.members ==> s'.row == s.row)
      && (!(s.row.tenant.Some? && s.row.tenant.value in s.members) ==>
            s'.row == if s.members == [] then s.row.(active := false) else s.row.(tenant := Some(s.members[0])))
  {
  }

  /** An activation is let through for a live membership only, and repoints the row. */
  lemma ActivationExact(s: State, op: nat, tenant: Tenant, g: Gaps)
    requires op !in s.ops
    ensures Enabled(s, Activate(op, tenant), g) <==> tenant in s.members
    ensures tenant in s.members ==>
      Next(Next(s, Activate(op, tenant), g), Write(op), g).row == s.row.(tenant := Some(tenant))
  {
  }

  /** A profile that was put is what requests on that instance start from, exactly until its TTL is over. */
  lemma PutServesExactly(s: State, op: nat, other: nat, requested: Option<Tenant>, ticks: nat, g: Gaps)
    requires Enabled(s, Put(op), g) && other !in s.ops
    ensures var i, s' := s.ops[op].instance, Next(Next(s, Put(op), g), Tick(ticks), g);
      && (Enabled(s', Hit(other, i, requested), g) <==> ticks < 30 * SECOND)
      && (Enabled(s', Miss(other, i, requested), g) <==> ticks >= 30 * SECOND)
      && (ticks < 30 * SECOND ==> Next(s', Hit(other, i, requested), g).ops[other].seen == s.ops[op].seen)
  {
  }
}
