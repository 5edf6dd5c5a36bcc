/** How stale a cached answer can be when loads, writes and invalidations interleave: the tenant snapshot
    (`backend/app/features/agent/context.py:40-78`) and the feature states (`backend/app/core/features.py:86-168`),
    stamped before they are fetched, and the profile (`backend/app/core/supabase/auth.py:77-113`), stamped at the put.

    A load reads its parts one at a time; the store is the log of its writes.
 */
module Freshness {
  import opened Basics

  type Key = string
  type Value = string

  datatype Policy = StampAtBegin | StampAtPut

  /** A kind of cache: its stamping, the reads of one load, the TTL and, for `StampAtPut`, the longest gap from a
      read to the put. */
  datatype Config = Config(policy: Policy, parts: nat, ttl: nat, gap: nat)

  datatype Entry = Entry(at: int, key: Key, part: nat, value: Value)

  /** A part as it was read: the value, the instant, and how many writes the store had seen. */
  datatype Part = Part(value: Value, readAt: int, seen: nat)

  datatype Stored = Stored(stamp: int, parts: seq<Part>)
  datatype Load = Load(key: Key, begunAt: int, parts: seq<Part>)

  datatype State = State(now: int, log: seq<Entry>, cache: map<Key, Stored>, loads: map<nat, Load>)

  datatype Step =
    | Tick(ticks: nat)
    | Write(key: Key, part: nat, value: Value)
    | Begin(load: nat, key: Key)
    | Read(load: nat)
    | Finish(load: nat)
    | Forget(keys: set<Key>)  // an invalidation or an eviction

  /** What the store holds after the writes of `log`. */
  function ValueIn(log: seq<Entry>, key: Key, part: nat): Value {
    if log == [] then ""
    else
      var last := log[|log| - 1];
      if last.key == key && last.part == part then last.value else ValueIn(log[..|log| - 1], key, part)
  }

  predicate Enabled(s: State, step: Step, c: Config) {
    match step
    case Begin(load, _) => load !in s.loads
    case Read(load) => load in s.loads && |s.loads[load].parts| < c.parts
    case Finish(load) =>
      && load in s.loads && |s.loads[load].parts| == c.parts
      && (c.policy == StampAtPut ==>
            forall j :: 0 <= j < |s.loads[load].parts| ==> s.now - s.loads[load].parts[j].readAt <= c.gap)
    case _ => true
  }

  function Next(s: State, step: Step, c: Config): State
    requires Enabled(s, step, c)
  {
    match step
    case Tick(ticks) => s.(now := s.now + ticks)
    case Write(key, part, value) => s.(log := s.log + [Entry(s.now, key, part, value)])
    case Begin(load, key) => s.(loads := s.loads[load := Load(key, s.now, [])])
    case Read(load) =>
      var l := s.loads[load];
      var p := Part(ValueIn(s.log, l.key, |l.parts|), s.now, |s.log|);
      s.(loads := s.loads[load := l.(parts := l.parts + [p])])
    case Finish(load) =>
      var l := s.loads[load];
      var stamp := if c.policy == StampAtBegin then l.begunAt else s.now;
      s.(cache := s.cache[l.key := Stored(stamp, l.parts)], loads := s.loads - {load})
    case Forget(keys) => s.(cache := s.cache - keys)
  }

  /** What a lookup answers now. */
  function Hit(s: State, key: Key, c: Config): Option<seq<Part>> {
    if key in s.cache && s.now - s.cache[key].stamp < c.ttl then Some(s.cache[key].parts) else None
  }

  ghost predicate Allowed(s: State, steps: seq<Step>, c: Config)
    decreases |steps|
  {
    steps != [] ==> Enabled(s, steps[0], c) && Allowed(Next(s, steps[0], c), steps[1..], c)
  }

  function After(s: State, steps: seq<Step>, c: Config): State
    requires Allowed(s, steps, c)
    decreases |steps|
  {
    if steps == [] then s else After(Next(s, steps[0], c), steps[1..], c)
  }

  function Start(now: int): State {
    State(now, [], map[], map[])
  }

  /* ---------- Hits are recent ---------- */

  /** The value was in the store at some instant after `since`: the write that replaced it, if any, came later. */
  ghost predicate CurrentAfter(log: seq<Entry>, key: Key, part: nat, value: Value, since: int) {
    exists n: nat :: n <= |log| && value == ValueIn(log[..n], key, part) && (n < |log| ==> log[n].at > since)
  }

  ghost predicate Honest(s: State, key: Key, j: nat, p: Part) {
    && p.seen <= |s.log| && p.value == ValueIn(s.log[..p.seen], key, j)
    && p.readAt <= s.now && (p.seen < |s.log| ==> s.log[p.seen].at >= p.readAt)
  }

  predicate Writes(e: Entry, key: Key, part: nat) {
    e.key == key && e.part == part
  }

  /** What the store holds is what the last write of the part wrote. */
  lemma {:induction false} LastWriteHolds(log: seq<Entry>, key: Key, part: nat, i: nat)
    requires i < |log| && Writes(log[i], key, part)
    requires forall j :: i < j < |log| ==> !Writes(log[j], key, part)
    ensures ValueIn(log, key, part) == log[i].value
  {
    var n := |log| - 1;
    if i < n {
      assert !Writes(log[n], key, part);
      LastWriteHolds(log[..n], key, part, i);
    }
  }

  /** Nothing before the first. */
  lemma {:induction false} NoWriteHoldsNothing(log: seq<Entry>, key: Key, part: nat)
    requires forall j :: 0 <= j < |log| ==> !Writes(log[j], key, part)
    ensures ValueIn(log, key, part) == ""
  {
    if log != [] {
      assert !Writes(log[|log| - 1], key, part);
      NoWriteHoldsNothing(log[..|log| - 1], key, part);
    }
  }

  /** A load that finishes is served exactly until its TTL is over, unless it is forgotten or replaced. */
  lemma FinishedIsServed(s: State, load: nat, ticks: nat, c: Config)
    requires Enabled(s, Finish(load), c)
    ensures var s' := Next(Next(s, Finish(load), c), Tick(ticks), c);
      var stamp := if c.policy == StampAtBegin then s.loads[load].begunAt else s.now;
      Hit(s', s.loads[load].key, c) == if s.now + ticks - stamp < c.ttl then Some(s.loads[load].parts) else None
  {
  }

  /** How long before its stamp a part may have been read. */
  function Slack(c: Config): nat {
    if c.policy == StampAtBegin then 0 else c.gap
  }

  ghost predicate HonestStored(s: State, key: Key, e: Stored, c: Config) {
    && |e.parts| == c.parts
    && forall j :: 0 <= j < |e.parts| ==> Honest(s, key, j, e.parts[j]) && e.stamp - Slack(c) <= e.parts[j].readAt
  }

  ghost predicate HonestLoad(s: State, l: Load, c: Config) {
    && l.begunAt <= s.now && |l.parts| <= c.parts
    && forall j :: 0 <= j < |l.parts| ==> Honest(s, l.key, j, l.parts[j]) && l.begunAt <= l.parts[j].readAt
  }

  ghost predicate Valid(s: State, c: Config) {
    && (forall key :: key in s.cache ==> HonestStored(s, key, s.cache[key], c))
    && (forall load :: load in s.loads ==> HonestLoad(s, s.loads[load], c))
  }

  lemma HonestStep(s: State, key: Key, j: nat, p: Part, step: Step, c: Config)
    requires Honest(s, key, j, p) && Enabled(s, step, c)
    ensures Honest(Next(s, step, c), key, j, p)
  {
    var s' := Next(s, step, c);
    assert s'.log[..p.seen] == s.log[..p.seen];
  }

  lemma ValidStep(s: State, step: Step, c: Config)
    requires Valid(s, c) && Enabled(s, step, c)
    ensures Valid(Next(s, step, c), c)
  {
    var s' := Next(s, step, c);
    forall key, j, p {:trigger Honest(s', key, j, p)} | Honest(s, key, j, p) ensures Honest(s', key, j, p) {
      HonestStep(s, key, j, p, step, c);
    }
    forall key | key in s'.cache ensures HonestStored(s', key, s'.cache[key], c) {
      if key in s.cache && s'.cache[key] == s.cache[key] {
        assert HonestStored(s, key, s.cache[key], c);
      } else {
        assert step.Finish? && HonestLoad(s, s.loads[step.load], c);
      }
    }
    forall load | load in s'.loads ensures HonestLoad(s', s'.loads[load], c) {
      if load in s.loads {
        assert HonestLoad(s, s.loads[load], c);
        if step.Read? && step.load == load {
          assert s.log[..|s.log|] == s.log;
        }
      }
    }
  }

  lemma {:induction false} ValidRun(s: State, steps: seq<Step>, c: Config)
    requires Valid(s, c) && Allowed(s, steps, c)
    ensures Valid(After(s, steps, c), c)
    decreases |steps|
  {
    if steps != [] {
      ValidStep(s, steps[0], c);
      ValidRun(Next(s, steps[0], c), steps[1..], c);
    }
  }

  /** However loads, writes and invalidations interleave, every part of a hit was in the store at some instant
      within the TTL, plus the read-to-put gap where the stamp is set at the put. */
  lemma HitsAreRecent(start: int, steps: seq<Step>, key: Key, c: Config)
    requires Allowed(Start(start), steps, c)
    ensures var s := After(Start(start), steps, c);
      Hit(s, key, c).Some? ==>
        && |Hit(s, key, c).value| == c.parts
        && forall j :: 0 <= j < c.parts ==>
          CurrentAfter(s.log, key, j, Hit(s, key, c).value[j].value, s.now - c.ttl - Slack(c))
  {
    var s := After(Start(start), steps, c);
    ValidRun(Start(start), steps, c);
    if Hit(s, key, c).Some? {
      var parts := s.cache[key].parts;
      assert HonestStored(s, key, s.cache[key], c);
      forall j | 0 <= j < c.parts
        ensures CurrentAfter(s.log, key, j, parts[j].value, s.now - c.ttl - Slack(c))
      {
        assert Honest(s, key, j, parts[j]);
      }
    }
  }

  /* ---------- When a write is visible to the next lookup ---------- */

  ghost predicate ShowsOld(s: State, key: Key, part: nat, since: nat, steps: seq<Step>, c: Config) {
    && Allowed(s, steps, c)
    && Hit(After(s, steps, c), key, c).Some?
    && part < |Hit(After(s, steps, c), key, c).value|
    && Hit(After(s, steps, c), key, c).value[part].seen < since
  }

  /** From here on no hit on the key shows a part read before write number `since`. */
  ghost predicate Visible(s: State, key: Key, part: nat, since: nat, c: Config) {
    forall steps :: !ShowsOld(s, key, part, since, steps, c)
  }

  predicate OldEntry(s: State, key: Key, part: nat, since: nat, c: Config) {
    key in s.cache && s.now - s.cache[key].stamp < c.ttl
      && part < |s.cache[key].parts| && s.cache[key].parts[part].seen < since
  }

  predicate OldLoad(s: State, l: Load, key: Key, part: nat, since: nat, c: Config) {
    l.key == key && s.now - l.begunAt < c.ttl && part < |l.parts| && l.parts[part].seen < since
  }

  /** No entry that could still answer, and no load that could still become one, holds an older part. */
  ghost predicate NothingOld(s: State, key: Key, part: nat, since: nat, c: Config) {
    !OldEntry(s, key, part, since, c)
      && forall load :: load in s.loads ==> !OldLoad(s, s.loads[load], key, part, since, c)
  }

  lemma NothingOldStep(s: State, key: Key, part: nat, since: nat, step: Step, c: Config)
    requires c.policy == StampAtBegin && since <= |s.log|
    requires NothingOld(s, key, part, since, c) && Enabled(s, step, c)
    ensures NothingOld(Next(s, step, c), key, part, since, c) && since <= |Next(s, step, c).log|
  {
    var s' := Next(s, step, c);
    assert step.Finish? ==> !OldLoad(s, s.loads[step.load], key, part, since, c);
    forall load | load in s'.loads ensures !OldLoad(s', s'.loads[load], key, part, since, c) {
      assert load in s.loads ==> !OldLoad(s, s.loads[load], key, part, since, c);
    }
  }

  lemma {:induction false} NothingOldRun(s: State, key: Key, part: nat, since: nat, steps: seq<Step>, c: Config)
    requires c.policy == StampAtBegin && since <= |s.log|
    requires NothingOld(s, key, part, since, c) && Allowed(s, steps, c)
    ensures NothingOld(After(s, steps, c), key, part, since, c)
    decreases |steps|
  {
    if steps != [] {
      NothingOldStep(s, key, part, since, steps[0], c);
      NothingOldRun(Next(s, steps[0], c), key, part, since, steps[1..], c);
    }
  }

  lemma StepBefore(s: State, key: Key, part: nat, since: nat, step: Step, steps: seq<Step>, c: Config)
    requires Enabled(s, step, c) && ShowsOld(Next(s, step, c), key, part, since, steps, c)
    ensures ShowsOld(s, key, part, since, [step] + steps, c)
  {
    assert ([step] + steps)[1..] == steps;
  }

  /** A load that holds an old part reads its other parts, finishes, and is served. */
  lemma {:induction false} OldLoadShows(s: State, load: nat, key: Key, part: nat, since: nat, c: Config)
    returns (steps: seq<Step>)
    requires c.policy == StampAtBegin && load in s.loads && OldLoad(s, s.loads[load], key, part, since, c)
    requires |s.loads[load].parts| <= c.parts
    ensures ShowsOld(s, key, part, since, steps, c)
    decreases c.parts - |s.loads[load].parts|
  {
    if |s.loads[load].parts| == c.parts {
      assert ShowsOld(Next(s, Finish(load), c), key, part, since, [], c);
      StepBefore(s, key, part, since, Finish(load), [], c);
      steps := [Finish(load)] + [];
    } else {
      var more := OldLoadShows(Next(s, Read(load), c), load, key, part, since, c);
      StepBefore(s, key, part, since, Read(load), more, c);
      steps := [Read(load)] + more;
    }
  }

  /** Exactly when every later hit shows the writes made so far, for a cache stamped before the fetch: if and only
      if nothing that read before them is still in the cache or on its way into it. */
  lemma VisibleExactly(start: int, steps: seq<Step>, key: Key, part: nat, since: nat, c: Config)
    requires c.policy == StampAtBegin && Allowed(Start(start), steps, c) && since <= |After(Start(start), steps, c).log|
    ensures var s := After(Start(start), steps, c);
      Visible(s, key, part, since, c) <==> NothingOld(s, key, part, since, c)
  {
    ValidRun(Start(start), steps, c);
    VisibleFrom(After(Start(start), steps, c), key, part, since, c);
  }

  lemma VisibleFrom(s: State, key: Key, part: nat, since: nat, c: Config)
    requires c.policy == StampAtBegin && Valid(s, c) && since <= |s.log|
    ensures Visible(s, key, part, since, c) <==> NothingOld(s, key, part, since, c)
  {
    if NothingOld(s, key, part, since, c) {
      forall more ensures !ShowsOld(s, key, part, since, more, c) {
        if Allowed(s, more, c) {
          NothingOldRun(s, key, part, since, more, c);
        }
      }
    } else if OldEntry(s, key, part, since, c) {
      assert ShowsOld(s, key, part, since, [], c);
    } else {
      var load :| load in s.loads && OldLoad(s, s.loads[load], key, part, since, c);
      assert HonestLoad(s, s.loads[load], c);
      var more := OldLoadShows(s, load, key, part, since, c);
    }
  }

  /** Exactly when writing a row and then forgetting its key makes the row visible to every later lookup, as
      `invalidate_snapshot` promises: if and only if no load of the key that could still be cached has already read
      that part. */
  lemma WriteThenForgetExactly(start: int, steps: seq<Step>, key: Key, part: nat, value: Value, c: Config)
    requires c.policy == StampAtBegin && Allowed(Start(start), steps, c)
    ensures var s := After(Start(start), steps, c);
      var s' := Next(Next(s, Write(key, part, value), c), Forget({key}), c);
      Visible(s', key, part, |s'.log|, c) <==>
        forall load :: load in s.loads && s.loads[load].key == key && s.now - s.loads[load].begunAt < c.ttl ==>
          |s.loads[load].parts| <= part
  {
    var s := After(Start(start), steps, c);
    ValidRun(Start(start), steps, c);
    var written := Next(s, Write(key, part, value), c);
    var s' := Next(written, Forget({key}), c);
    ValidStep(s, Write(key, part, value), c);
    ValidStep(written, Forget({key}), c);
    forall load | load in s.loads && part < |s.loads[load].parts|
      ensures s.loads[load].parts[part].seen < |s'.log|
    {
      assert HonestLoad(s, s.loads[load], c);
    }
    VisibleFrom(s', key, part, |s'.log|, c);
  }

  /** The failing case: a load that read before the write finishes after the invalidation. */
  lemma LoadInFlightHidesTheWrite(ttl: nat)
    requires ttl > 0
    ensures var c := Config(StampAtBegin, 1, ttl, 0);
      var steps := [Begin(0, "t"), Read(0)];
      && Allowed(Start(0), steps, c)
      && var s := After(Start(0), steps, c);
         !Visible(Next(Next(s, Write("t", 0, "new"), c), Forget({"t"}), c), "t", 0, 1, c)
  {
    var c := Config(StampAtBegin, 1, ttl, 0);
    var s1 := Next(Start(0), Begin(0, "t"), c);
    var s2 := Next(s1, Read(0), c);
    Unfold(s1, Read(0), [], c);
    Unfold(Start(0), Begin(0, "t"), [Read(0)] + [], c);
    assert [Begin(0, "t")] + ([Read(0)] + []) == [Begin(0, "t"), Read(0)];
    WriteThenForgetExactly(0, [Begin(0, "t"), Read(0)], "t", 0, "new", c);
    assert s2.loads[0].key == "t" && |s2.loads[0].parts| == 1 && s2.log == [];
  }

  /** `set_state` drops the cache before it writes. A request in between puts the old state back, and the next
      lookup does not show the write, although nothing is in flight any more. */
  lemma ResetBeforeWriteCanHideIt(ttl: nat)
    requires ttl > 0
    ensures var c := Config(StampAtBegin, 1, ttl, 0);
      var steps := [Forget({"t"}), Begin(0, "t"), Read(0), Finish(0), Write("t", 0, "locked")];
      Allowed(Start(0), steps, c) && After(Start(0), steps, c).loads == map[]
        && !Visible(After(Start(0), steps, c), "t", 0, 1, c)
  {
    var c := Config(StampAtBegin, 1, ttl, 0);
    var s1 := Next(Start(0), Forget({"t"}), c);
    var s2 := Next(s1, Begin(0, "t"), c);
    var s3 := Next(s2, Read(0), c);
    var s4 := Next(s3, Finish(0), c);
    var s5 := Next(s4, Write("t", 0, "locked"), c);
    Unfold(s4, Write("t", 0, "locked"), [], c);
    Unfold(s3, Finish(0), [Write("t", 0, "locked")], c);
    Unfold(s2, Read(0), [Finish(0), Write("t", 0, "locked")], c);
    Unfold(s1, Begin(0, "t"), [Read(0), Finish(0), Write("t", 0, "locked")], c);
    Unfold(Start(0), Forget({"t"}), [Begin(0, "t"), Read(0), Finish(0), Write("t", 0, "locked")], c);
    assert ShowsOld(s5, "t", 0, 1, [], c);
    assert s5.loads == map[];
  }

  lemma Unfold(s: State, step: Step, steps: seq<Step>, c: Config)
    requires Enabled(s, step, c) && Allowed(Next(s, step, c), steps, c)
    ensures Allowed(s, [step] + steps, c) && After(s, [step] + steps, c) == After(Next(s, step, c), steps, c)
  {
    assert ([step] + steps)[1..] == steps;
  }
}
