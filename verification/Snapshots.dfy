/** The tenant snapshot cache (`backend/app/features/agent/context.py:40-78`). An entry stamped `at` is kept as the
    deadline `at + TTL`; `Freshness` says what its hits are worth when loads interleave.
 */
module Snapshots {
  import opened Basics
  import opened TtlCache

  const SNAPSHOT_TTL := 60 * SECOND
  const SNAPSHOT_CACHE_MAX: nat := 64

  /** The tenant's context, as fetched. */
  type Snapshot = seq<string>

  datatype Stamped = Stamped(at: int, snapshot: Snapshot)

  function AsEntries(c: map<string, Stamped>): Cache<string, Snapshot> {
    map k | k in c :: Entry(c[k].at + SNAPSHOT_TTL, c[k].snapshot)
  }

  class SnapshotCache {
    var entries: map<string, Stamped>

    constructor ()
      ensures entries == map[]
    {
      entries := map[];
    }

    ghost function View(): Cache<string, Snapshot>
      reads this
    {
      AsEntries(entries)
    }

    method Invalidate(tenant: Option<string>)
      modifies this
      ensures View() == if tenant.None? then map[] else old(View()) - {tenant.value}
    {
      entries := if tenant.None? then map[] else entries - {tenant.value};
    }

    /** `load_snapshot` at `now`; `fetched` is what the store holds if it is asked. */
    method LoadSnapshot(tenant: string, forceRefresh: bool, fetched: Snapshot, now: int) returns (snapshot: Snapshot)
      modifies this
      ensures var hit := if forceRefresh then None else Get(old(View()), tenant, now);
        && snapshot == (if hit.Some? then hit.value else fetched)
        && View() == (if hit.Some? then old(View())
                      else Put(old(View()), SNAPSHOT_CACHE_MAX, now, tenant, Entry(now + 60 * SECOND, fetched)))
      ensures |old(View())| <= 64 ==> |View()| <= 64
    {
      if |View()| <= SNAPSHOT_CACHE_MAX {
        PutFits(View(), SNAPSHOT_CACHE_MAX, now, tenant, Entry(now + SNAPSHOT_TTL, fetched));
      }
      if !forceRefresh && tenant in entries && now - entries[tenant].at < SNAPSHOT_TTL {
        return entries[tenant].snapshot;
      }
      EvictIfFull(now);
      StoredView(entries, tenant, Stamped(now, fetched));
      entries := entries[tenant := Stamped(now, fetched)];
      return fetched;
    }

    /** The sweep and, if it was not enough, the clearing of a full cache. */
    method EvictIfFull(now: int)
      modifies this
      ensures View() == Evicted(old(View()), SNAPSHOT_CACHE_MAX, now)
    {
      SameSize(entries);
      if |entries| >= SNAPSHOT_CACHE_MAX {
        var stale := set k | k in entries && now - entries[k].at >= SNAPSHOT_TTL;
        SweptView(entries, stale, now);
        entries := entries - stale;
        SameSize(entries);
        if |entries| >= SNAPSHOT_CACHE_MAX {
          entries := map[];
        }
      }
    }
  }

  lemma StoredView(c: map<string, Stamped>, tenant: string, s: Stamped)
    ensures AsEntries(c[tenant := s]) == AsEntries(c)[tenant := Entry(s.at + SNAPSHOT_TTL, s.snapshot)]
  {
  }

  lemma SweptView(c: map<string, Stamped>, stale: set<string>, now: int)
    requires stale == set k | k in c && now - c[k].at >= SNAPSHOT_TTL
    ensures AsEntries(c - stale) == Unexpired(AsEntries(c), now)
  {
  }

  lemma SameSize(c: map<string, Stamped>)
    ensures |AsEntries(c)| == |c|
  {
    assert AsEntries(c).Keys == c.Keys;
  }
}
