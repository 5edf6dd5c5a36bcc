/** The bounded TTL dictionaries of `backend/app/core/supabase/auth_cache.py` and
    `backend/app/features/agent/context.py`: absolute deadlines, a sweep of what has expired when the dictionary is
    full, and dropping everything when that was not enough. They simulate a dictionary without bound.
 */
module TtlCache {
  import opened Basics

  datatype Entry<+V> = Entry(deadline: int, value: V)

  type Cache<K(==), +V> = map<K, Entry<V>>

  /** `_fresh`. */
  predicate Fresh<V>(entry: Option<Entry<V>>, now: int) {
    entry.Some? && now < entry.value.deadline
  }

  function Lookup<K(==), V>(c: Cache<K, V>, key: K): Option<Entry<V>> {
    if key in c then Some(c[key]) else None
  }

  function Get<K(==), V>(c: Cache<K, V>, key: K, now: int): Option<V> {
    if Fresh(Lookup(c, key), now) then Some(c[key].value) else None
  }

  function Unexpired<K(==), V>(c: Cache<K, V>, now: int): Cache<K, V> {
    map k | k in c && now < c[k].deadline :: c[k]
  }

  /** `_evict`. */
  function Evicted<K(==), V>(c: Cache<K, V>, limit: nat, now: int): Cache<K, V> {
    if |c| < limit then c else if |Unexpired(c, now)| < limit then Unexpired(c, now) else map[]
  }

  function Put<K(==), V>(c: Cache<K, V>, limit: nat, now: int, key: K, entry: Entry<V>): Cache<K, V> {
    Evicted(c, limit, now)[key := entry]
  }

  /* ---------- Operations on one dictionary ---------- */

  datatype Op<K, V> =
    | Store(now: int, key: K, entry: Entry<V>)
    | Drop(key: K)
    | Clear

  function Apply<K(==), V>(c: Cache<K, V>, limit: nat, op: Op<K, V>): Cache<K, V> {
    match op
    case Store(now, key, entry) => Put(c, limit, now, key, entry)
    case Drop(key) => c - {key}
    case Clear => map[]
  }

  /** The same operation where nothing is ever evicted. */
  function ApplyUnbounded<K(==), V>(u: Cache<K, V>, op: Op<K, V>): Cache<K, V> {
    match op
    case Store(_, key, entry) => u[key := entry]
    case Drop(key) => u - {key}
    case Clear => map[]
  }

  function Run<K(==), V>(limit: nat, ops: seq<Op<K, V>>): Cache<K, V> {
    if ops == [] then map[] else Apply(Run(limit, ops[..|ops| - 1]), limit, ops[|ops| - 1])
  }

  function RunUnbounded<K(==), V>(ops: seq<Op<K, V>>): Cache<K, V> {
    if ops == [] then map[] else ApplyUnbounded(RunUnbounded(ops[..|ops| - 1]), ops[|ops| - 1])
  }

  /** Every entry of the one dictionary is an entry of the other. */
  ghost predicate Within<K, V>(c: Cache<K, V>, u: Cache<K, V>) {
    forall k :: k in c ==> k in u && u[k] == c[k]
  }

  lemma SizeAfterPut<K, V>(c: Cache<K, V>, key: K, entry: Entry<V>)
    ensures |c[key := entry]| <= |c| + 1
  {
    assert c[key := entry].Keys == c.Keys + {key};
  }

  lemma SizeAfterDrop<K, V>(c: Cache<K, V>, key: K)
    ensures |c - {key}| <= |c|
  {
    assert (c - {key}).Keys == c.Keys - {key};
    assert c.Keys == (c.Keys - {key}) + (c.Keys * {key});
  }

  /** Over any run of stores, drops and clears, the bounded dictionary never holds more than `limit` entries, and
      whatever it answers is what the dictionary without bound answers: eviction only turns hits into misses. */
  lemma {:induction false} Simulates<K, V>(limit: nat, ops: seq<Op<K, V>>)
    requires limit > 0
    ensures |Run(limit, ops)| <= limit
    ensures Within(Run(limit, ops), RunUnbounded(ops))
    ensures forall k: K, now {:trigger Get(Run(limit, ops), k, now)} ::
      Get(Run(limit, ops), k, now).Some? ==> Get(RunUnbounded(ops), k, now) == Get(Run(limit, ops), k, now)
  {
    if ops != [] {
      var front, op := ops[..|ops| - 1], ops[|ops| - 1];
      Simulates(limit, front);
      var c := Run(limit, front);
      match op {
        case Store(now, key, entry) => SizeAfterPut(Evicted(c, limit, now), key, entry);
        case Drop(key) => SizeAfterDrop(c, key);
        case Clear =>
      }
    }
  }

  /** A sweep that makes room changes no answer from then on; only dropping everything does. */
  lemma SweepIsInvisible<K, V>(c: Cache<K, V>, limit: nat, now: int, key: K, entry: Entry<V>, k: K, t: int)
    requires |c| < limit || |Unexpired(c, now)| < limit
    requires now <= t
    ensures Get(Put(c, limit, now, key, entry), k, t) == Get(c[key := entry], k, t)
  {
  }

  function FreshKeys<K, V>(c: Cache<K, V>, now: int): set<K> {
    set k | k in c && c[k].deadline > now
  }

  /** What a store keeps: everything while there is room, of a full dictionary what has not expired if that makes
      room, and otherwise nothing else. */
  lemma KeepsExactly<K, V>(c: Cache<K, V>, limit: nat, now: int, key: K, entry: Entry<V>)
    ensures var c', left := Put(c, limit, now, key, entry), FreshKeys(c, now);
      && c'.Keys == {key} + (if |c| < limit then c.Keys else if |left| < limit then left else {})
      && c'[key] == entry && forall k :: k in c' && k != key ==> c'[k] == c[k]
  {
    assert Unexpired(c, now).Keys == FreshKeys(c, now);
  }

  lemma PutFits<K, V>(c: Cache<K, V>, limit: nat, now: int, key: K, entry: Entry<V>)
    requires 0 < limit && |c| <= limit
    ensures |Put(c, limit, now, key, entry)| <= limit
  {
    SizeAfterPut(Evicted(c, limit, now), key, entry);
  }

  /** The operation that last decided what an unbounded dictionary holds under `key`. */
  ghost predicate LastStore<K, V>(ops: seq<Op<K, V>>, key: K, i: nat) {
    && i < |ops| && ops[i].Store? && ops[i].key == key
    && forall j :: i < j < |ops| ==> !ops[j].Clear? && ops[j].key != key
  }

  lemma {:induction false} HoldsLastStore<K, V>(ops: seq<Op<K, V>>, key: K) returns (i: nat)
    requires key in RunUnbounded(ops)
    ensures LastStore(ops, key, i) && RunUnbounded(ops)[key] == ops[i].entry
  {
    var front, op := ops[..|ops| - 1], ops[|ops| - 1];
    if op.Store? && op.key == key {
      i := |ops| - 1;
    } else {
      i := HoldsLastStore(front, key);
    }
  }

  /** A dictionary without bound answers exactly what its last store under the key still answers. */
  lemma HitExactly<K, V>(ops: seq<Op<K, V>>, key: K, now: int)
    ensures Get(RunUnbounded(ops), key, now).Some? <==>
      exists i: nat :: LastStore(ops, key, i) && now < ops[i].entry.deadline
    ensures forall i: nat :: LastStore(ops, key, i) ==>
      key in RunUnbounded(ops) && RunUnbounded(ops)[key] == ops[i].entry
  {
    forall i: nat | LastStore(ops, key, i) ensures key in RunUnbounded(ops) && RunUnbounded(ops)[key] == ops[i].entry {
      LastStoreHeld(ops, key, i);
    }
    if key in RunUnbounded(ops) {
      var i := HoldsLastStore(ops, key);
    }
  }

  lemma {:induction false} LastStoreHeld<K, V>(ops: seq<Op<K, V>>, key: K, i: nat)
    requires LastStore(ops, key, i)
    ensures key in RunUnbounded(ops) && RunUnbounded(ops)[key] == ops[i].entry
  {
    var n := |ops| - 1;
    if i < n {
      assert ops[..n][i] == ops[i] && !ops[n].Clear? && ops[n].key != key;
      assert forall j :: i < j < n ==> ops[..n][j] == ops[j];
      LastStoreHeld(ops[..n], key, i);
    }
  }

  /** Until as many operations as it may hold entries, the bounded dictionary is the one without bound. */
  lemma {:induction false} NothingEvicted<K, V>(limit: nat, ops: seq<Op<K, V>>)
    requires |ops| <= limit
    ensures Run(limit, ops) == RunUnbounded(ops) && |Run(limit, ops)| <= |ops|
  {
    if ops != [] {
      var front, op := ops[..|ops| - 1], ops[|ops| - 1];
      NothingEvicted(limit, front);
      match op {
        case Store(now, key, entry) => SizeAfterPut(Run(limit, front), key, entry);
        case Drop(key) => SizeAfterDrop(Run(limit, front), key);
        case Clear =>
      }
    }
  }

  /** A hit is explained by one store: the last one under that key, not dropped since, and not yet expired. */
  lemma HitHasAStore<K, V>(limit: nat, ops: seq<Op<K, V>>, key: K, now: int) returns (i: nat)
    requires limit > 0 && Get(Run(limit, ops), key, now).Some?
    ensures LastStore(ops, key, i)
    ensures Get(Run(limit, ops), key, now) == Some(ops[i].entry.value) && now < ops[i].entry.deadline
  {
    Simulates(limit, ops);
    i := HoldsLastStore(ops, key);
  }
}
