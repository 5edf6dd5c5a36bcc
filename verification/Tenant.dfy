/** Active-tenant resolution (`backend/app/core/tenant.py`), run without interference. `Identity` runs its steps
    interleaved with everything else.
 */
module Tenant {
  import opened Basics
  import opened TtlCache
  import opened Accounts
  import opened AuthCache

  /** The `X-Tenant-Id` header: absent, not a UUID, or a tenant. */
  datatype Header = NoHeader | Malformed | Names(tenant: string)

  datatype Resolution = Resolved(tenant: string) | BadRequest | Forbidden

  function Requested(header: Header): Option<string> {
    if header.Names? then Some(header.tenant) else None
  }

  /** `requested or current_snapshot or _default_tenant(...)`. */
  function Target(requested: Option<string>, snapshot: Option<string>, default: Option<string>): Option<string> {
    if requested.Some? then requested else if snapshot.Some? then snapshot else default
  }

  function DefaultTenant(ms: seq<Membership>): Option<string> {
    match FirstActive(ms)
    case None => None
    case Some(m) => Some(m.tenant)
  }

  /** The row once the snapshot is synced to a membership. */
  function Synced(row: ProfileRow, m: Membership): ProfileRow {
    row.(tenantId := Some(m.tenant), role := m.role, adminScope := m.adminScope)
  }

  datatype State = State(db: Db, profiles: Cache<string, Profile>)

  /** `resolve_active_tenant`, for the user whose profile row was seen as `current`. */
  function Resolve(s: State, current: ProfileRow, header: Header): (Resolution, State) {
    if header.Malformed? then (BadRequest, s)
    else
      var ms := MembershipsOf(s.db, current.id);
      match Target(Requested(header), current.tenantId, DefaultTenant(ms))
      case None => (Forbidden, s)
      case Some(target) =>
        if current.tenantId == Some(target) then (Resolved(target), s)
        else match ActiveIn(ms, target)
          case None => (Forbidden, s)
          case Some(m) =>
            var profiles := if current.id in s.db.profiles
              then s.db.profiles[current.id := Synced(s.db.profiles[current.id], m)] else s.db.profiles;
            (Resolved(target), State(s.db.(profiles := profiles), s.profiles - {current.id}))
  }

  ghost predicate ActiveMember(ms: seq<Membership>, tenant: string) {
    exists m :: m in ms && m.isActive && m.tenant == tenant
  }

  ghost predicate FirstActiveAt(ms: seq<Membership>, i: nat) {
    i < |ms| && ms[i].isActive && forall j :: 0 <= j < i ==> !ms[j].isActive
  }

  /** Which answer a request gets. The header decides if there is one: its tenant is the snapshot's, or needs an
      active membership. Without one it is the snapshot's tenant, else that of the first active membership. */
  ghost predicate Answers(ms: seq<Membership>, snapshot: Option<string>, header: Header, r: Resolution) {
    match header
    case Malformed => r == BadRequest
    case Names(tenant) =>
      r == if snapshot == Some(tenant) || ActiveMember(ms, tenant) then Resolved(tenant) else Forbidden
    case NoHeader =>
      && (snapshot.Some? ==> r == Resolved(snapshot.value))
      && (snapshot.None? ==>
            && (r == Forbidden <==> forall m :: m in ms ==> !m.isActive)
            && (r != Forbidden ==> exists i: nat :: FirstActiveAt(ms, i) && r == Resolved(ms[i].tenant)))
  }

  lemma ResolveAnswers(s: State, current: ProfileRow, header: Header)
    ensures Answers(MembershipsOf(s.db, current.id), current.tenantId, header, Resolve(s, current, header).0)
  {
    var ms := MembershipsOf(s.db, current.id);
    match header
    case Malformed =>
    case Names(tenant) =>
      if ActiveIn(ms, tenant).Some? {
        assert ActiveIn(ms, tenant).value in ms;
      }
    case NoHeader =>
      if current.tenantId.None? && FirstActive(ms).Some? {
        var first := FirstActive(ms).value;
        var i :| 0 <= i < |ms| && ms[i] == first && forall j :: 0 <= j < i ==> !ms[j].isActive;
        assert FirstActiveAt(ms, i) && first in ms;
        assert ActiveIn(ms, first.tenant).Some?;
      }
  }

  /** `resolve_active_tenant`. */
  method ResolveActiveTenant(store: Store, caches: Caches, current: ProfileRow, header: Header) returns (r: Resolution)
    modifies store, caches
    ensures (r, State(store.db, caches.profiles))
      == Resolve(State(old(store.db), old(caches.profiles)), current, header)
    ensures caches.tokens == old(caches.tokens)
    ensures Answers(old(MembershipsOf(store.db, current.id)), current.tenantId, header, r)
  {
    ResolveAnswers(State(store.db, caches.profiles), current, header);
    var user, snapshot := current.id, current.tenantId;
    if header.Malformed? {
      return BadRequest;
    }
    var target := Requested(header);
    if target.None? {
      target := snapshot;
    }
    if target.None? {
      target := DefaultTenant(MembershipsOf(store.db, user));
    }
    if target.None? {
      return Forbidden;
    }
    if target == snapshot {
      return Resolved(target.value);
    }
    var membership := ActiveIn(MembershipsOf(store.db, user), target.value);
    if membership.None? {
      return Forbidden;
    }
    if user in store.db.profiles {
      var row := store.db.profiles[user];
      row := row.(tenantId := target, role := membership.value.role, adminScope := membership.value.adminScope);
      store.db := store.db.(profiles := store.db.profiles[user := row]);
    }
    caches.InvalidateProfile(Some(user));
    return Resolved(target.value);
  }

  /** A tenant that is not the one in the profile is resolved only while a membership in it is active, and then
      the stored snapshot, role and scope are that membership's and the cached profile is gone. A profile read
      after that resolves the same tenant again, changing nothing. */
  lemma SlowPathSyncs(s: State, current: ProfileRow, header: Header)
    requires current.id in s.db.profiles ==> s.db.profiles[current.id].id == current.id
    ensures var (r, s') := Resolve(s, current, header);
      r.Resolved? && current.tenantId != Some(r.tenant) ==>
        && s'.profiles == s.profiles - {current.id}
        && ActiveMember(MembershipsOf(s.db, current.id), r.tenant)
        && (current.id !in s.db.profiles ==> s'.db == s.db)
        && (current.id in s.db.profiles ==>
              && (exists m :: m in MembershipsOf(s.db, current.id) && m.isActive && m.tenant == r.tenant
                    && s'.db.profiles[current.id] == s.db.profiles[current.id].(
                         tenantId := Some(r.tenant), role := m.role, adminScope := m.adminScope))
              && Resolve(s', s'.db.profiles[current.id], header) == (r, s'))
  {
    var ms := MembershipsOf(s.db, current.id);
    var target := Target(Requested(header), current.tenantId, DefaultTenant(ms));
    if !header.Malformed? && target.Some? && current.tenantId != target {
      var m := ActiveIn(ms, target.value);
      if m.Some? {
        assert m.value in ms;
      }
    }
  }

  /** Nothing but a sync of the user's own row is ever written, and the fast path and every refusal write nothing. */
  lemma OnlyOwnRowWritten(s: State, current: ProfileRow, header: Header, other: string)
    requires other != current.id
    ensures var (r, s') := Resolve(s, current, header);
      && s'.db.memberships == s.db.memberships
      && (other in s'.db.profiles <==> other in s.db.profiles)
      && (other in s.db.profiles ==> s'.db.profiles[other] == s.db.profiles[other])
      && (!r.Resolved? || current.tenantId == Some(r.tenant) ==> s' == s)
  {
    var target := Target(Requested(header), current.tenantId, DefaultTenant(MembershipsOf(s.db, current.id)));
    if !header.Malformed? && target.Some? && current.tenantId != target {
      assert ActiveIn(MembershipsOf(s.db, current.id), target.value).None? ==>
        Resolve(s, current, header) == (Forbidden, s);
    }
  }
}
