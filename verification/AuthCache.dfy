/** The per-process identity caches (`backend/app/core/supabase/auth_cache.py`) and the two functions that fill them
    (`backend/app/core/supabase/auth.py`). Token keys are the tokens themselves: the hash is taken as injective.
 */
module AuthCache {
  import opened Basics
  import opened TtlCache
  import opened Accounts

  const TOKEN_TTL := 60 * SECOND
  const PROFILE_TTL := 30 * SECOND
  const TOKEN_CACHE_MAX: nat := 512
  const PROFILE_CACHE_MAX: nat := 512

  type User = string

  /** `_token_deadline`: the monotonic instant of the token's own expiry, when it names one. */
  function TokenDeadline(exp: Option<int>, monotonic: int, wall: int): Option<int> {
    if exp.None? then None else Some(monotonic + Max(exp.value - wall, 0))
  }

  function TokenEntry(now: int, user: User, expiresAt: Option<int>): Entry<User> {
    Entry(if expiresAt.Some? then Min(now + TOKEN_TTL, expiresAt.value) else now + TOKEN_TTL, user)
  }

  /** The token's own expiry only ever brings the deadline forward, and while the two clocks advance alike a
      cached token is never fresh past it. */
  lemma ExpiryOnlyShortens(user: User, exp: Option<int>, wall: int, t1: int, t2: int, t: int)
    requires t1 <= t2 <= t
    ensures var e := TokenEntry(t2, user, TokenDeadline(exp, t1, wall));
      && e.deadline <= t2 + TOKEN_TTL
      && (exp.Some? && Fresh(Some(e), t) ==> wall + (t - t1) < exp.value)
  {
  }

  /** An entry is answered exactly while neither its minute nor the time its token had left is over. */
  lemma TokenServedExactly(
    c: Cache<string, User>, token: string, user: User, exp: Option<int>, wall: int, t1: int, t2: int, t: int)
    ensures var c' := Put(c, TOKEN_CACHE_MAX, t2, token, TokenEntry(t2, user, TokenDeadline(exp, t1, wall)));
      Get(c', token, t) ==
        if t - t2 < 60 * SECOND && (exp.Some? ==> t - t1 < exp.value - wall || t < t1) then Some(user) else None
  {
  }

  /** And a profile exactly while its 30 seconds last. */
  lemma ProfileServedExactly(c: Cache<string, Profile>, user: string, profile: Profile, put: int, t: int)
    ensures var c' := Put(c, PROFILE_CACHE_MAX, put, user, Entry(put + PROFILE_TTL, profile));
      Get(c', user, t) == if t - put < 30 * SECOND then Some(profile) else None
  {
  }

  class Caches {
    var tokens: Cache<string, User>
    var profiles: Cache<string, Profile>

    constructor ()
      ensures tokens == map[] && profiles == map[]
    {
      tokens, profiles := map[], map[];
    }

    method GetToken(token: string, now: int) returns (user: Option<User>)
      ensures user == Get(tokens, token, now)
    {
      if token in tokens && now < tokens[token].deadline {
        return Some(tokens[token].value);
      }
      return None;
    }

    method PutToken(token: string, user: User, expiresAt: Option<int>, now: int)
      modifies this
      ensures tokens == Put(old(tokens), TOKEN_CACHE_MAX, now, token, TokenEntry(now, user, expiresAt))
      ensures profiles == old(profiles)
      ensures |old(tokens)| <= 512 ==> |tokens| <= 512
    {
      if |tokens| <= TOKEN_CACHE_MAX {
        PutFits(tokens, TOKEN_CACHE_MAX, now, token, TokenEntry(now, user, expiresAt));
      }
      var deadline := now + TOKEN_TTL;
      if expiresAt.Some? {
        deadline := Min(deadline, expiresAt.value);
      }
      if |tokens| >= TOKEN_CACHE_MAX {
        tokens := map k | k in tokens && !(tokens[k].deadline <= now) :: tokens[k];
        if |tokens| >= TOKEN_CACHE_MAX {
          tokens := map[];
        }
      }
      assert tokens == Evicted(old(tokens), TOKEN_CACHE_MAX, now) by {
        assert (map k | k in old(tokens) && !(old(tokens)[k].deadline <= now) :: old(tokens)[k])
          == Unexpired(old(tokens), now);
      }
      tokens := tokens[token := Entry(deadline, user)];
    }

    method GetProfile(user: string, now: int) returns (profile: Option<Profile>)
      ensures profile == Get(profiles, user, now)
    {
      if user in profiles && now < profiles[user].deadline {
        return Some(profiles[user].value);
      }
      return None;
    }

    method PutProfile(user: string, profile: Profile, now: int)
      modifies this
      ensures profiles == Put(old(profiles), PROFILE_CACHE_MAX, now, user, Entry(now + PROFILE_TTL, profile))
      ensures tokens == old(tokens)
      ensures |old(profiles)| <= 512 ==> |profiles| <= 512
    {
      if |profiles| <= PROFILE_CACHE_MAX {
        PutFits(profiles, PROFILE_CACHE_MAX, now, user, Entry(now + PROFILE_TTL, profile));
      }
      if |profiles| >= PROFILE_CACHE_MAX {
        profiles := map k | k in profiles && !(profiles[k].deadline <= now) :: profiles[k];
        if |profiles| >= PROFILE_CACHE_MAX {
          profiles := map[];
        }
      }
      assert profiles == Evicted(old(profiles), PROFILE_CACHE_MAX, now) by {
        assert (map k | k in old(profiles) && !(old(profiles)[k].deadline <= now) :: old(profiles)[k])
          == Unexpired(old(profiles), now);
      }
      profiles := profiles[user := Entry(now + PROFILE_TTL, profile)];
    }

    method InvalidateProfile(user: Option<string>)
      modifies this
      ensures profiles == if user.None? then map[] else old(profiles) - {user.value}
      ensures tokens == old(tokens)
    {
      profiles := if user.None? then map[] else profiles - {user.value};
    }

    method InvalidateToken(token: string)
      modifies this
      ensures tokens == old(tokens) - {token} && profiles == old(profiles)
    {
      tokens := tokens - {token};
    }

    /** `verify_token`. `verdict` is what the identity provider answers if it is asked; `exp` the token's own
        claim. The clock is read at the lookup, for the deadline and at the put. */
    method VerifyToken(token: string, verdict: Option<User>, exp: Option<int>, wall: int, t0: int, t1: int, t2: int)
      returns (user: Option<User>)
      modifies this
      ensures profiles == old(profiles)
      ensures user == if Get(old(tokens), token, t0).Some? then Get(old(tokens), token, t0) else verdict
      ensures tokens ==
        if Get(old(tokens), token, t0).Some? || verdict.None? then old(tokens)
        else Put(old(tokens), TOKEN_CACHE_MAX, t2, token, TokenEntry(t2, verdict.value, TokenDeadline(exp, t1, wall)))
    {
      var cached := GetToken(token, t0);
      if cached.Some? {
        return cached;
      }
      if verdict.Some? {
        PutToken(token, verdict.value, TokenDeadline(exp, t1, wall), t2);
      }
      return verdict;
    }

    /** `get_user_profile` with nothing else running: the lookup at `t0`, the put at `t1`. */
    method GetUserProfile(store: Store, user: string, useCache: bool, t0: int, t1: int)
      returns (profile: Option<Profile>)
      modifies this
      ensures tokens == old(tokens)
      ensures profile ==
        if useCache && Get(old(profiles), user, t0).Some? then Get(old(profiles), user, t0)
        else if user !in store.db.profiles then None
        else Some(Merged(store.db.profiles[user], MembershipsOf(store.db, user)))
      ensures profiles ==
        if !useCache || Get(old(profiles), user, t0).Some? || profile.None? then old(profiles)
        else Put(old(profiles), PROFILE_CACHE_MAX, t1, user, Entry(t1 + PROFILE_TTL, profile.value))
      ensures profile.Some? && !(useCache && Get(old(profiles), user, t0).Some?) ==>
        user in store.db.profiles && ReadsFrom(profile.value, store.db.profiles[user], MembershipsOf(store.db, user))
    {
      if user in store.db.profiles {
        MergedReads(store.db.profiles[user], MembershipsOf(store.db, user));
      }
      if useCache {
        var cached := GetProfile(user, t0);
        if cached.Some? {
          return cached;
        }
      }
      if user !in store.db.profiles {
        return None;
      }
      var result := Profile(store.db.profiles[user], false, "agent");
      var tenant := result.row.tenantId;
      if tenant.Some? && tenant.value != "" {
        var m := ActiveIn(MembershipsOf(store.db, user), tenant.value);
        if m.Some? {
          result := result.(isDevAdmin := m.value.isDevAdmin);
          result := result.(view := if m.value.view == "" then "agent" else m.value.view);
        }
      }
      if useCache {
        PutProfile(user, result, t1);
      }
      return Some(result);
    }
  }

  /* ---------- Token hits over whole runs ---------- */

  datatype TokenEvent =
    | Verified(at: int, token: string, user: User, expiresAt: Option<int>)
    | Invalidated(token: string)
    | Reset

  function OpOf(e: TokenEvent): Op<string, User> {
    match e
    case Verified(at, token, user, expiresAt) => Store(at, token, TokenEntry(at, user, expiresAt))
    case Invalidated(token) => Drop(token)
    case Reset => Clear
  }

  function Ops(events: seq<TokenEvent>): seq<Op<string, User>> {
    if events == [] then [] else Ops(events[..|events| - 1]) + [OpOf(events[|events| - 1])]
  }

  lemma {:induction false} OpsPointwise(events: seq<TokenEvent>)
    ensures |Ops(events)| == |events| && forall i :: 0 <= i < |events| ==> Ops(events)[i] == OpOf(events[i])
  {
    if events != [] {
      OpsPointwise(events[..|events| - 1]);
    }
  }

  /** A token hit happens only for a token that was verified, for the user it was verified as at the last
      verification, strictly before a minute has passed since then and strictly before the token's own deadline. */
  lemma TokenHit(events: seq<TokenEvent>, token: string, now: int) returns (i: nat)
    requires Get(Run(TOKEN_CACHE_MAX, Ops(events)), token, now).Some?
    ensures i < |events| && events[i].Verified? && events[i].token == token
    ensures Get(Run(TOKEN_CACHE_MAX, Ops(events)), token, now) == Some(events[i].user)
    ensures now < events[i].at + TOKEN_TTL
    ensures events[i].expiresAt.Some? ==> now < events[i].expiresAt.value
    ensures forall j :: i < j < |events| ==> !events[j].Reset? && events[j].token != token
  {
    OpsPointwise(events);
    i := HitHasAStore(TOKEN_CACHE_MAX, Ops(events), token, now);
    forall j | i < j < |events| ensures !events[j].Reset? && events[j].token != token {
      assert Ops(events)[j] == OpOf(events[j]);
    }
  }
}
