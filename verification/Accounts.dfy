/** The rows the identity code reads and writes, as a database value. */
module Accounts {
  import opened Basics

  datatype Membership = Membership(
    tenant: string, role: string, adminScope: seq<string>, isActive: bool, isDevAdmin: bool, view: string)

  datatype ProfileRow = ProfileRow(
    id: string, tenantId: Option<string>, role: string, adminScope: seq<string>, isActive: Option<bool>)

  /** A profile with the fields merged in from the membership its snapshot points at. */
  datatype Profile = Profile(row: ProfileRow, isDevAdmin: bool, view: string)

  /** `memberships` lists each user's in order of creation. */
  datatype Db = Db(profiles: map<string, ProfileRow>, memberships: map<string, seq<Membership>>)

  function MembershipsOf(db: Db, user: string): seq<Membership> {
    if user in db.memberships then db.memberships[user] else []
  }

  /** The first active membership in the tenant. */
  function ActiveIn(ms: seq<Membership>, tenant: string): (r: Option<Membership>)
    ensures r.Some? ==> r.value.isActive && r.value.tenant == tenant
    ensures r.Some? ==> exists i ::
      && 0 <= i < |ms| && ms[i] == r.value
      && forall j :: 0 <= j < i ==> !(ms[j].isActive && ms[j].tenant == tenant)
    ensures r.None? <==> forall m :: m in ms ==> !(m.isActive && m.tenant == tenant)
  {
    if ms == [] then None
    else if ms[0].isActive && ms[0].tenant == tenant then Some(ms[0])
    else
      var r := ActiveIn(ms[1..], tenant);
      assert r.Some? ==> exists i ::
        && 0 <= i < |ms[1..]| && ms[1..][i] == r.value && ms[i + 1] == r.value
        && forall j :: 0 <= j < i + 1 ==> !(ms[j].isActive && ms[j].tenant == tenant);
      r
  }

  /** The first active membership of all. */
  function FirstActive(ms: seq<Membership>): (r: Option<Membership>)
    ensures r.Some? ==> r.value.isActive
    ensures r.Some? ==> exists i :: 0 <= i < |ms| && ms[i] == r.value && forall j :: 0 <= j < i ==> !ms[j].isActive
    ensures r.None? <==> forall m :: m in ms ==> !m.isActive
  {
    if ms == [] then None
    else if ms[0].isActive then Some(ms[0])
    else
      var r := FirstActive(ms[1..]);
      assert r.Some? ==> exists i ::
        && 0 <= i < |ms[1..]| && ms[1..][i] == r.value && ms[i + 1] == r.value
        && forall j :: 0 <= j < i + 1 ==> !ms[j].isActive;
      r
  }

  /** The profile as `get_user_profile` returns it from the database. */
  function Merged(row: ProfileRow, ms: seq<Membership>): Profile {
    var m := if row.tenantId.Some? && row.tenantId.value != "" then ActiveIn(ms, row.tenantId.value) else None;
    match m
    case None => Profile(row, false, "agent")
    case Some(m) => Profile(row, m.isDevAdmin, if m.view == "" then "agent" else m.view)
  }

  /** The first active membership in a tenant stands at `i`. */
  ghost predicate ActiveAt(ms: seq<Membership>, tenant: string, i: nat) {
    && i < |ms| && ms[i].isActive && ms[i].tenant == tenant
    && forall j :: 0 <= j < i ==> !(ms[j].isActive && ms[j].tenant == tenant)
  }

  /** What a profile says about the rows it was read from: its rights and view are those of the first active
      membership in the very tenant that its row points at, and the plain ones without such a membership. */
  ghost predicate ReadsFrom(p: Profile, row: ProfileRow, ms: seq<Membership>) {
    && p.row == row
    && (forall i: nat :: row.tenantId.Some? && row.tenantId.value != "" && ActiveAt(ms, row.tenantId.value, i) ==>
          && p.isDevAdmin == ms[i].isDevAdmin
          && p.view == if ms[i].view == "" then "agent" else ms[i].view)
    && (row.tenantId.None? || row.tenantId.value == ""
        || (forall m :: m in ms ==> !(m.isActive && m.tenant == row.tenantId.value)) ==>
          !p.isDevAdmin && p.view == "agent")
  }

  lemma MergedReads(row: ProfileRow, ms: seq<Membership>)
    ensures ReadsFrom(Merged(row, ms), row, ms)
  {
    if row.tenantId.Some? && row.tenantId.value != "" {
      forall i: nat | ActiveAt(ms, row.tenantId.value, i) ensures ActiveIn(ms, row.tenantId.value) == Some(ms[i]) {
        assert ActiveIn(ms, row.tenantId.value) == Some(ms[i]) by {
          assert ms[i] in ms;
          var k :| 0 <= k < |ms| && ms[k] == ActiveIn(ms, row.tenantId.value).value
            && forall j :: 0 <= j < k ==> !(ms[j].isActive && ms[j].tenant == row.tenantId.value);
        }
      }
    }
  }

  class Store {
    var db: Db

    constructor (db: Db)
      ensures this.db == db
    {
      this.db := db;
    }
  }
}
