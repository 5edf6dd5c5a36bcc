/** Switchable features (`backend/app/core/features.py`): how a tenant's rows, the global rows and the catalog
    combine, and the cache around it.
 */
module Features {
  import opened Basics

  const FEATURES_TTL := 30 * SECOND

  const CATALOG: seq<string> := [
    "agent", "propo_voz", "pendientes", "crm", "conversaciones", "inbox", "email", "productividad", "documents",
    "propiedades", "portales", "finanzas", "analytics", "datos", "phones", "workflows", "uso"]

  datatype Setting = Setting(state: string, note: Option<string>)

  const DEFAULT := Setting("on", None)

  /** A row of the table; no tenant means every tenant. */
  datatype FeatureRow = FeatureRow(tenant: Option<string>, key: string, setting: Setting)

  type States = map<string, Setting>

  /** The rows the query returns: the tenant's own and the global ones. */
  function Relevant(rows: seq<FeatureRow>, tenant: string): seq<FeatureRow> {
    if rows == [] then []
    else
      var kept := if rows[0].tenant == None || rows[0].tenant == Some(tenant) then [rows[0]] else [];
      kept + Relevant(rows[1..], tenant)
  }

  /** One side of the stable sort: the rows that name a tenant, or those that do not. */
  function Side(rows: seq<FeatureRow>, named: bool): seq<FeatureRow> {
    if rows == [] then [] else (if rows[0].tenant.Some? == named then [rows[0]] else []) + Side(rows[1..], named)
  }

  /** The last row for a key that belongs to `tenant`, among all the rows of the table. */
  function LastFor(rows: seq<FeatureRow>, tenant: Option<string>, key: string): Option<Setting> {
    if rows == [] then None
    else
      var last := rows[|rows| - 1];
      if last.tenant == tenant && last.key == key then Some(last.setting) else LastFor(rows[..|rows| - 1], tenant, key)
  }

  /** The tenant's own row, else the global one, else the default. */
  function Effective(rows: seq<FeatureRow>, tenant: string, key: string): Setting {
    Or(LastFor(rows, Some(tenant), key), Or(LastFor(rows, None, key), DEFAULT))
  }

  function Or(found: Option<Setting>, otherwise: Setting): Setting {
    if found.Some? then found.value else otherwise
  }

  function Defaults(): States {
    map k | k in CATALOG :: DEFAULT
  }

  /** One turn of the loop: a key retired from the catalog is inert. */
  function Landed(states: States, row: FeatureRow): States {
    if row.key in states then states[row.key := row.setting] else states
  }

  function LandedAll(states: States, rows: seq<FeatureRow>): States {
    if rows == [] then states else Landed(LandedAll(states, rows[..|rows| - 1]), rows[|rows| - 1])
  }

  function Resolved(rows: seq<FeatureRow>, tenant: string): States {
    var relevant := Relevant(rows, tenant);
    LandedAll(Defaults(), Side(relevant, false) + Side(relevant, true))
  }

  /** What the last landing for a key leaves. */
  lemma {:induction false} LandedAt(states: States, rows: seq<FeatureRow>, tenant: Option<string>, key: string)
    requires forall i :: 0 <= i < |rows| ==> rows[i].tenant == tenant
    ensures LandedAll(states, rows).Keys == states.Keys
    ensures key in states ==> LandedAll(states, rows)[key] == Or(LastFor(rows, tenant, key), states[key])
  {
    if rows != [] {
      LandedAt(states, rows[..|rows| - 1], tenant, key);
    }
  }

  lemma {:induction false} LandedConcat(states: States, a: seq<FeatureRow>, b: seq<FeatureRow>)
    ensures LandedAll(states, a + b) == LandedAll(LandedAll(states, a), b)
  {
    if b == [] {
      assert a + b == a;
    } else {
      assert (a + b)[..|a + b| - 1] == a + b[..|b| - 1];
      LandedConcat(states, a, b[..|b| - 1]);
    }
  }

  /** Each side of the sort keeps, in order, exactly one owner's rows. */
  function Owner(tenant: string, named: bool): Option<string> {
    if named then Some(tenant) else None
  }

  lemma {:induction false} LastForConcat(a: seq<FeatureRow>, b: seq<FeatureRow>, tenant: Option<string>, key: string)
    ensures LastFor(a + b, tenant, key) ==
      if LastFor(b, tenant, key).Some? then LastFor(b, tenant, key) else LastFor(a, tenant, key)
  {
    if b == [] {
      assert a + b == a;
    } else {
      assert (a + b)[..|a + b| - 1] == a + b[..|b| - 1];
      LastForConcat(a, b[..|b| - 1], tenant, key);
    }
  }

  lemma {:induction false} SideOwner(rows: seq<FeatureRow>, tenant: string, named: bool)
    ensures var side := Side(Relevant(rows, tenant), named);
      forall i :: 0 <= i < |side| ==> side[i].tenant == Owner(tenant, named)
  {
    if rows != [] {
      SideOwner(rows[1..], tenant, named);
      SideStep(rows, tenant, named);
    }
  }

  lemma {:induction false} SideKeeps(rows: seq<FeatureRow>, tenant: string, named: bool, key: string)
    ensures LastFor(Side(Relevant(rows, tenant), named), Owner(tenant, named), key)
      == LastFor(rows, Owner(tenant, named), key)
  {
    if rows != [] {
      var rest, owner := rows[1..], Owner(tenant, named);
      var side := Side(Relevant(rest, tenant), named);
      SideKeeps(rest, tenant, named, key);
      SideStep(rows, tenant, named);
      LastForCons(rows[0], rest, owner, key);
      assert rows == [rows[0]] + rest;
      if rows[0].tenant == owner {
        LastForCons(rows[0], side, owner, key);
      } else {
        assert [] + side == side;
      }
    }
  }

  lemma LastForCons(row: FeatureRow, rest: seq<FeatureRow>, tenant: Option<string>, key: string)
    ensures LastFor([row] + rest, tenant, key) ==
      if LastFor(rest, tenant, key).Some? then LastFor(rest, tenant, key)
      else if row.tenant == tenant && row.key == key then Some(row.setting) else None
  {
    LastForConcat([row], rest, tenant, key);
    assert [row][..0] == [];
  }

  lemma SideStep(rows: seq<FeatureRow>, tenant: string, named: bool)
    requires rows != []
    ensures Side(Relevant(rows, tenant), named)
      == (if rows[0].tenant == Owner(tenant, named) then [rows[0]] else []) + Side(Relevant(rows[1..], tenant), named)
  {
    var rest := Relevant(rows[1..], tenant);
    assert ([rows[0]] + rest)[1..] == rest;
    assert [] + rest == rest;
  }

  /** Precedence: for every key of the catalog, and for no other, the tenant's row wins over the global row, and
      that over the default, whatever order the rows come in. */
  lemma Precedence(rows: seq<FeatureRow>, tenant: string, key: string)
    ensures key in Resolved(rows, tenant) <==> key in CATALOG
    ensures key in CATALOG ==> Resolved(rows, tenant)[key] == Effective(rows, tenant, key)
  {
    var relevant := Relevant(rows, tenant);
    var globals, own := Side(relevant, false), Side(relevant, true);
    SideOwner(rows, tenant, false);
    SideOwner(rows, tenant, true);
    SideKeeps(rows, tenant, false, key);
    SideKeeps(rows, tenant, true, key);
    LandedConcat(Defaults(), globals, own);
    LandedAt(Defaults(), globals, None, key);
    LandedAt(LandedAll(Defaults(), globals), own, Some(tenant), key);
  }

  /** The last row of an owner for a key stands at `i`. */
  ghost predicate LastAt(rows: seq<FeatureRow>, tenant: Option<string>, key: string, i: nat) {
    && i < |rows| && rows[i].tenant == tenant && rows[i].key == key
    && forall j :: i < j < |rows| ==> !(rows[j].tenant == tenant && rows[j].key == key)
  }

  ghost predicate NoRow(rows: seq<FeatureRow>, tenant: Option<string>, key: string) {
    forall i :: 0 <= i < |rows| ==> !(rows[i].tenant == tenant && rows[i].key == key)
  }

  lemma {:induction false} LastForAt(rows: seq<FeatureRow>, tenant: Option<string>, key: string, i: nat)
    requires LastAt(rows, tenant, key, i)
    ensures LastFor(rows, tenant, key) == Some(rows[i].setting)
  {
    var n := |rows| - 1;
    if i < n {
      assert !(rows[n].tenant == tenant && rows[n].key == key);
      LastForAt(rows[..n], tenant, key, i);
    }
  }

  lemma {:induction false} LastForNone(rows: seq<FeatureRow>, tenant: Option<string>, key: string)
    requires NoRow(rows, tenant, key)
    ensures LastFor(rows, tenant, key) == None
  {
    if rows != [] {
      LastForNone(rows[..|rows| - 1], tenant, key);
    }
  }

  /** What a tenant is told of a feature: its own row's setting, failing that the global row's, failing that "on"
      without a note; and nothing of a key that is not in the catalog. */
  ghost predicate Tells(rows: seq<FeatureRow>, tenant: string, key: string, states: States) {
    && (key in states <==> key in CATALOG)
    && (key in CATALOG ==>
          && (forall i: nat :: LastAt(rows, Some(tenant), key, i) ==> states[key] == rows[i].setting)
          && (NoRow(rows, Some(tenant), key) ==>
                && (forall i: nat :: LastAt(rows, None, key, i) ==> states[key] == rows[i].setting)
                && (NoRow(rows, None, key) ==> states[key] == Setting("on", None))))
  }

  lemma OwnerTells(rows: seq<FeatureRow>, tenant: Option<string>, key: string)
    ensures forall i: nat :: LastAt(rows, tenant, key, i) ==> LastFor(rows, tenant, key) == Some(rows[i].setting)
    ensures NoRow(rows, tenant, key) ==> LastFor(rows, tenant, key) == None
  {
    forall i: nat | LastAt(rows, tenant, key, i) ensures LastFor(rows, tenant, key) == Some(rows[i].setting) {
      LastForAt(rows, tenant, key, i);
    }
    if NoRow(rows, tenant, key) {
      LastForNone(rows, tenant, key);
    }
  }

  lemma ResolvedTells(rows: seq<FeatureRow>, tenant: string, key: string)
    ensures Tells(rows, tenant, key, Resolved(rows, tenant))
  {
    Precedence(rows, tenant, key);
    OwnerTells(rows, Some(tenant), key);
    OwnerTells(rows, None, key);
  }

  datatype Cached = Cached(at: int, states: States)

  class FeatureStates {
    var rows: seq<FeatureRow>   // the table
    var cache: map<string, Cached>

    constructor (rows: seq<FeatureRow>)
      ensures this.rows == rows && cache == map[]
    {
      this.rows, cache := rows, map[];
    }

    method ResetCache()
      modifies this
      ensures cache == map[] && rows == old(rows)
    {
      cache := map[];
    }

    /** `resolve_states`, with nothing else running. */
    method ResolveStates(tenant: string, now: int) returns (states: States)
      modifies this
      ensures rows == old(rows)
      ensures var hit := tenant in old(cache) && now - old(cache)[tenant].at < 30 * SECOND;
        && states == (if hit then old(cache)[tenant].states else Resolved(rows, tenant))
        && cache == (if hit then old(cache) else old(cache)[tenant := Cached(now, states)])
        && (!hit ==> forall key :: Tells(rows, tenant, key, states))
    {
      if tenant in cache && now - cache[tenant].at < FEATURES_TTL {
        return cache[tenant].states;
      }
      var relevant := Relevant(rows, tenant);
      var ordered := Side(relevant, false) + Side(relevant, true);
      states := Defaults();
      for i := 0 to |ordered|
        invariant states == LandedAll(Defaults(), ordered[..i])
      {
        assert ordered[..i + 1][..i] == ordered[..i];
        var row := ordered[i];
        if row.key in states {
          states := states[row.key := row.setting];
        }
      }
      assert ordered[..|ordered|] == ordered;
      forall key ensures Tells(rows, tenant, key, states) {
        ResolvedTells(rows, tenant, key);
      }
      cache := cache[tenant := Cached(now, states)];
    }

    /** `set_state`: the cache is dropped first, then one row is updated or added. */
    method SetState(key: string, setting: Setting, tenant: Option<string>)
      modifies this
      ensures cache == map[]
      ensures LastFor(rows, tenant, key) == Some(setting)
      ensures forall k, t :: (k, t) != (key, tenant) ==> LastFor(rows, t, k) == LastFor(old(rows), t, k)
    {
      var found := FindRow(rows, tenant, key);
      ResetCache();
      if found.Some? {
        var i := found.value;
        forall k, t ensures LastFor(SetRow(rows, i, setting), t, k)
          == if (k, t) == (key, tenant) then Some(setting) else LastFor(rows, t, k)
        {
          UpdatedOne(rows, i, setting, t, k);
        }
        rows := SetRow(rows, i, setting);
      } else {
        forall k, t ensures LastFor(rows + [FeatureRow(tenant, key, setting)], t, k)
          == if (k, t) == (key, tenant) then Some(setting) else LastFor(rows, t, k)
        {
          assert (rows + [FeatureRow(tenant, key, setting)])[..|rows|] == rows;
        }
        rows := rows + [FeatureRow(tenant, key, setting)];
      }
    }
  }

  /** The index of the row for a key and owner. The unique index leaves at most one; the last is taken. */
  function FindRow(rows: seq<FeatureRow>, tenant: Option<string>, key: string): (r: Option<nat>)
    ensures r.None? <==> LastFor(rows, tenant, key).None?
    ensures r.Some? ==> r.value < |rows| && rows[r.value].tenant == tenant && rows[r.value].key == key
    ensures r.Some? ==> forall j :: r.value < j < |rows| ==> !(rows[j].tenant == tenant && rows[j].key == key)
  {
    if rows == [] then None
    else
      var n := |rows| - 1;
      if rows[n].tenant == tenant && rows[n].key == key then Some(n) else FindRow(rows[..n], tenant, key)
  }

  function SetRow(rows: seq<FeatureRow>, i: nat, setting: Setting): seq<FeatureRow>
    requires i < |rows|
  {
    rows[i := rows[i].(setting := setting)]
  }

  lemma {:induction false} UpdatedOne(rows: seq<FeatureRow>, i: nat, setting: Setting, t: Option<string>, k: string)
    requires i < |rows|
    requires forall j :: i < j < |rows| ==> !(rows[j].tenant == rows[i].tenant && rows[j].key == rows[i].key)
    ensures LastFor(SetRow(rows, i, setting), t, k)
      == if t == rows[i].tenant && k == rows[i].key then Some(setting) else LastFor(rows, t, k)
  {
    var n := |rows| - 1;
    if i == n {
      assert SetRow(rows, i, setting)[..n] == rows[..n];
    } else {
      assert SetRow(rows, i, setting)[..n] == SetRow(rows[..n], i, setting);
      UpdatedOne(rows[..n], i, setting, t, k);
    }
  }
}
