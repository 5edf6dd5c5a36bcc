/** The delete-until-fixpoint loop of `backend/scripts/reset_tenant_data.py`, lines 191-208.

    The database is seen through its foreign keys: a table's tenant rows can be deleted, all at once, unless a
    row that stays behind in another table still references one of them.
 */
module ResetLoop {
  type Table = string

  /** `refs` holds (c, t) when tenant rows of `c` reference tenant rows of `t`; rows that the script never
      deletes, in protected tables or of other tenants, reference the tables in `pinned`. */
  datatype Schema = Schema(refs: set<(Table, Table)>, pinned: set<Table>)

  /** The delete of `t` violates a foreign key while the tables of `live` still hold their rows. */
  predicate Blocked(s: Schema, live: set<Table>, t: Table) {
    t in s.pinned || exists c :: c in live && c != t && (c, t) in s.refs
  }

  /** No member of the set can be deleted before another member is. */
  ghost predicate SelfBlocking(s: Schema, tables: set<Table>) {
    forall t :: t in tables ==> Blocked(s, tables, t)
  }

  /** The greatest self-blocking set within `tables`: nothing in it can ever be deleted, in any order. */
  ghost predicate Greatest(s: Schema, tables: set<Table>, core: set<Table>) {
    && core <= tables && SelfBlocking(s, core)
    && forall other :: other <= tables && SelfBlocking(s, other) ==> other <= core
  }

  ghost predicate Distinct(ts: seq<Table>) {
    forall i, j :: 0 <= i < j < |ts| ==> ts[i] != ts[j]
  }

  function AsSet(ts: seq<Table>): set<Table> {
    set t | t in ts
  }

  /** No nonempty set of the tables blocks itself. */
  ghost predicate NoneBlocksItself(s: Schema, tables: set<Table>) {
    forall core :: core <= tables && SelfBlocking(s, core) ==> core == {}
  }

  /** Everything can be deleted exactly when no nonempty set of the tables blocks itself. */
  lemma ClearsExactly(s: Schema, tables: set<Table>, core: set<Table>)
    requires Greatest(s, tables, core)
    ensures core == {} <==> NoneBlocksItself(s, tables)
  {
    if NoneBlocksItself(s, tables) {
      assert SelfBlocking(s, core);
    }
  }

  /** There is only one greatest self-blocking set, so what the loop reports does not depend on the order. */
  lemma GreatestIsUnique(s: Schema, tables: set<Table>, core: set<Table>, core': set<Table>)
    requires Greatest(s, tables, core) && Greatest(s, tables, core')
    ensures core == core'
  {
    assert core <= core' && core' <= core;
  }

  /** Whatever could never be deleted from `more` is still there in `live`. */
  ghost predicate KeepsCores(s: Schema, more: set<Table>, live: set<Table>) {
    forall core {:trigger SelfBlocking(s, core)} :: core <= more && SelfBlocking(s, core) ==> core <= live
  }

  /** A delete that succeeds removes no member of a self-blocking set. */
  lemma DeleteKeepsCores(s: Schema, more: set<Table>, live: set<Table>, t: Table)
    requires KeepsCores(s, more, live) && !Blocked(s, live, t)
    ensures KeepsCores(s, more, live - {t})
  {
    forall core | core <= more && SelfBlocking(s, core) ensures core <= live - {t} {
      assert t in core ==> Blocked(s, core, t);
    }
  }

  /* ---------- What blocks: a protected reference or a cycle ---------- */

  ghost predicate Link(s: Schema, p: seq<Table>, i: nat) {
    i < |p| - 1 && p[i + 1] != p[i] && (p[i + 1], p[i]) in s.refs
  }

  /** Each table of the path is referenced by the next. */
  ghost predicate Path(s: Schema, tables: set<Table>, p: seq<Table>) {
    && (forall i :: 0 <= i < |p| ==> p[i] in tables)
    && (forall i :: 0 <= i < |p| - 1 ==> Link(s, p, i))
  }

  ghost predicate Cycle(s: Schema, tables: set<Table>, p: seq<Table>) {
    Path(s, tables, p) && |p| >= 2 && p[0] == p[|p| - 1]
  }

  ghost predicate HasCycle(s: Schema, tables: set<Table>) {
    exists p :: Cycle(s, tables, p)
  }

  /** The tables of a cycle block themselves. */
  lemma CycleBlocksItself(s: Schema, tables: set<Table>, p: seq<Table>)
    requires Cycle(s, tables, p)
    ensures AsSet(p) <= tables && AsSet(p) != {} && SelfBlocking(s, AsSet(p))
  {
    assert p[0] in AsSet(p);
    forall t | t in AsSet(p) ensures Blocked(s, AsSet(p), t) {
      var i :| 0 <= i < |p| && p[i] == t;
      var k := if i < |p| - 1 then i else 0;
      assert p[k] == t && p[k + 1] in AsSet(p) && Link(s, p, k);
    }
  }

  /** Among tables that block themselves by references alone a path never ends. */
  lemma {:induction false} LongPath(s: Schema, core: set<Table>, n: nat) returns (p: seq<Table>)
    requires core != {} && SelfBlocking(s, core) && core * s.pinned == {}
    ensures Path(s, core, p) && |p| == n + 1
  {
    if n == 0 {
      var t :| t in core;
      p := [t];
    } else {
      var front := LongPath(s, core, n - 1);
      var last := front[n - 1];
      assert Blocked(s, core, last) && last !in core * s.pinned;
      var next :| next in core && next != last && (next, last) in s.refs;
      p := front + [next];
      forall i | 0 <= i < n ensures Link(s, p, i) {
        assert i < n - 1 ==> Link(s, front, i);
      }
    }
  }

  lemma PathRepeats(s: Schema, tables: set<Table>, p: seq<Table>)
    requires Path(s, tables, p) && |p| > |tables|
    ensures !Distinct(p)
  {
    if Distinct(p) {
      SizeOf(p);
      SubsetSize(AsSet(p), tables);
    }
  }

  /** So it comes back to where it was. */
  lemma BlockedByCycle(s: Schema, core: set<Table>)
    requires core != {} && SelfBlocking(s, core) && core * s.pinned == {}
    ensures HasCycle(s, core)
  {
    var p := LongPath(s, core, |core|);
    PathRepeats(s, core, p);
    var i, j :| 0 <= i < j < |p| && p[i] == p[j];
    var round := p[i..j + 1];
    forall k | 0 <= k < |round| - 1 ensures Link(s, round, k) {
      assert Link(s, p, i + k);
    }
    assert Cycle(s, core, round);
  }

  /** Exactly what can keep tables from being deleted: a protected reference to one of them, or a cycle. */
  lemma BlocksExactly(s: Schema, tables: set<Table>)
    ensures NoneBlocksItself(s, tables) <==> tables * s.pinned == {} && !HasCycle(s, tables)
  {
    if NoneBlocksItself(s, tables) {
      forall t | t in tables ensures t !in s.pinned {
        assert t in s.pinned ==> SelfBlocking(s, {t});
      }
      forall p ensures !Cycle(s, tables, p) {
        if Cycle(s, tables, p) {
          CycleBlocksItself(s, tables, p);
        }
      }
    }
    if tables * s.pinned == {} && !HasCycle(s, tables) {
      forall core | core <= tables && SelfBlocking(s, core) ensures core == {} {
        if core != {} {
          BlockedByCycle(s, core);
          var p :| Cycle(s, core, p);
          assert forall i :: 0 <= i < |p| ==> p[i] in tables;
          assert Cycle(s, tables, p);
        }
      }
    }
  }

  lemma CycleHasReference(s: Schema, tables: set<Table>, p: seq<Table>)
    requires Cycle(s, tables, p)
    ensures s.refs != {}
  {
    assert Link(s, p, 0);
  }

  /** The script's message, that a cycle needs a manual order, can be wrong: one table that a protected one refers
      to is never deleted, and no reference between tenant tables exists. */
  lemma StuckWithoutCycle()
    ensures var s := Schema({}, {"a"});
      Greatest(s, {"a"}, {"a"}) && !NoneBlocksItself(s, {"a"}) && !HasCycle(s, {"a"})
  {
    var s := Schema({}, {"a"});
    assert SelfBlocking(s, {"a"});
    forall p ensures !Cycle(s, {"a"}, p) {
      if Cycle(s, {"a"}, p) {
        CycleHasReference(s, {"a"}, p);
      }
    }
  }

  class Database {
    const schema: Schema
    var live: set<Table>

    constructor (schema: Schema, live: set<Table>)
      ensures this.schema == schema && this.live == live
    {
      this.schema, this.live := schema, live;
    }

    /** One `delete` in its own transaction: it empties the table or leaves everything as it was. */
    method Delete(t: Table) returns (ok: bool)
      modifies this
      ensures ok <==> !Blocked(schema, old(live), t)
      ensures live == if ok then old(live) - {t} else old(live)
    {
      ok := !(t in schema.pinned || exists c :: c in live && c != t && (c, t) in schema.refs);
      if ok {
        live := live - {t};
      }
    }
  }

  datatype Outcome = Cleared | Stuck(blocked: seq<Table>)

  /** What a pass has done after trying the tables of `tried`. */
  ghost predicate PassedOver(
    s: Schema, was: set<Table>, live: set<Table>, tried: seq<Table>, blocked: seq<Table>, progress: bool)
  {
    && Distinct(blocked) && AsSet(blocked) <= AsSet(tried)
    && live == was - (AsSet(tried) - AsSet(blocked))
    && KeepsCores(s, was, live)
    && (progress ==> |blocked| < |tried|)
    && (!progress ==> blocked == tried && live == was && forall t :: t in tried ==> Blocked(s, was, t))
  }

  lemma PassStep(
    s: Schema, was: set<Table>, live: set<Table>, tried: seq<Table>, blocked: seq<Table>, progress: bool, t: Table)
    requires PassedOver(s, was, live, tried, blocked, progress) && Distinct(tried) && t in live && t !in tried
    ensures Blocked(s, live, t) ==> PassedOver(s, was, live, tried + [t], blocked + [t], progress)
    ensures !Blocked(s, live, t) ==> PassedOver(s, was, live - {t}, tried + [t], blocked, true)
  {
    assert AsSet(tried + [t]) == AsSet(tried) + {t} && AsSet(blocked + [t]) == AsSet(blocked) + {t};
    DistinctLength(tried, blocked);
    if !Blocked(s, live, t) {
      DeleteKeepsCores(s, was, live, t);
    }
  }

  lemma {:induction false} DistinctLength(big: seq<Table>, small: seq<Table>)
    requires Distinct(big) && Distinct(small) && AsSet(small) <= AsSet(big)
    ensures |small| <= |big|
  {
    SizeOf(big);
    SizeOf(small);
    SubsetSize(AsSet(small), AsSet(big));
  }

  lemma SubsetSize(a: set<Table>, b: set<Table>)
    requires a <= b
    ensures |a| <= |b|
  {
    assert b == a + (b - a);
  }

  lemma {:induction false} SizeOf(ts: seq<Table>)
    requires Distinct(ts)
    ensures |AsSet(ts)| == |ts|
  {
    if ts != [] {
      SizeOf(ts[1..]);
      assert AsSet(ts) == {ts[0]} + AsSet(ts[1..]);
    }
  }

  /** One pass over the pending tables. */
  method Pass(db: Database, pending: seq<Table>) returns (blocked: seq<Table>, progress: bool)
    requires Distinct(pending) && AsSet(pending) <= db.live
    modifies db
    ensures PassedOver(db.schema, old(db.live), db.live, pending, blocked, progress)
  {
    blocked, progress := [], false;
    for i := 0 to |pending|
      invariant PassedOver(db.schema, old(db.live), db.live, pending[..i], blocked, progress)
    {
      var t := pending[i];
      assert pending[..i + 1] == pending[..i] + [t];
      PassStep(db.schema, old(db.live), db.live, pending[..i], blocked, progress, t);
      var ok := db.Delete(t);
      if ok {
        progress := true;
      } else {
        blocked := blocked + [t];
      }
    }
    assert pending[..|pending|] == pending;
  }

  /** Deletes until nothing is pending or a whole pass makes no progress. It stops within as many passes as there
      are tables; it clears everything exactly when no nonempty set of the tables blocks itself, that is when no
      protected row refers to one of them and there is no cycle; when stuck, what it reports, and leaves, is the
      greatest such set. */
  method DeleteAll(db: Database, before: seq<Table>) returns (outcome: Outcome, passes: nat)
    requires Distinct(before) && db.live == AsSet(before)
    modifies db
    ensures passes <= |before|
    ensures Greatest(db.schema, AsSet(before), db.live)
    ensures outcome.Cleared? <==> db.live == {}
    ensures outcome.Cleared? <==> NoneBlocksItself(db.schema, AsSet(before))
    ensures outcome.Stuck? <==> AsSet(before) * db.schema.pinned != {} || HasCycle(db.schema, AsSet(before))
    ensures outcome.Stuck? ==> AsSet(outcome.blocked) == db.live && Distinct(outcome.blocked)
  {
    var pending := before;
    passes := 0;
    BlocksExactly(db.schema, AsSet(before));
    while pending != []
      invariant Distinct(pending) && db.live == AsSet(pending) && db.live <= AsSet(before)
      invariant passes + |pending| <= |before|
      invariant KeepsCores(db.schema, AsSet(before), db.live)
      decreases |pending|
    {
      ghost var was := db.live;
      var blocked, progress := Pass(db, pending);
      assert KeepsCores(db.schema, AsSet(before), db.live);
      passes := passes + 1;
      if !progress {
        assert pending[0] in db.live;
        ClearsExactly(db.schema, AsSet(before), db.live);
        return Stuck(blocked), passes;
      }
      pending := blocked;
    }
    ClearsExactly(db.schema, AsSet(before), db.live);
    return Cleared, passes;
  }
}
