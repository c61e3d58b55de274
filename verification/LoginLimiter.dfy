/** The sliding-window login limiter of app/security/access.py and its use by app/api/auth.py. */
module LoginLimiter {

  /** How many of the failures are younger than the window at time `now`. */
  ghost function Young(times: seq<real>, window: real, now: real): nat {
    if |times| == 0 then 0
    else
      var n := |times| - 1;
      Young(times[..n], window, now) + if now - times[n] < window then 1 else 0
  }

  /** How many of the failures lie in [from, from + window). */
  ghost function Within(times: seq<real>, window: real, from: real): nat {
    if |times| == 0 then 0
    else
      var n := |times| - 1;
      Within(times[..n], window, from) + if from <= times[n] < from + window then 1 else 0
  }

  ghost predicate Sorted(times: seq<real>) {
    forall i, j :: 0 <= i < j < |times| ==> times[i] <= times[j]
  }

  /** `stored` is what is left of all failures after dropping some that were already too old at `clock`. */
  ghost predicate Tracks(stored: seq<real>, all: seq<real>, window: real, clock: real) {
    && Sorted(all)
    && (forall i :: 0 <= i < |all| ==> all[i] <= clock)
    && |stored| <= |all| && stored == all[|all| - |stored|..]
    && (forall i :: 0 <= i < |all| - |stored| ==> clock - all[i] >= window)
  }

  /** Old failures at the front do not count; if none is old, all count. */
  lemma {:induction false} YoungIsSuffix(all: seq<real>, window: real, now: real, dropped: nat)
    requires dropped <= |all|
    requires forall i :: 0 <= i < dropped ==> now - all[i] >= window
    requires forall i :: dropped <= i < |all| ==> now - all[i] < window
    ensures Young(all, window, now) == |all| - dropped
  {
    if |all| > 0 {
      var n := |all| - 1;
      YoungIsSuffix(all[..n], window, now, if dropped == |all| then n else dropped);
    }
  }

  /** Each failure was recorded after a check, no later than itself, that found room below the limit. */
  ghost predicate Guarded(all: seq<real>, checks: seq<real>, window: real, limit: nat) {
    && |checks| == |all|
    && forall j :: 0 <= j < |all| ==> checks[j] <= all[j] && Young(all[..j], window, checks[j]) < limit
  }

  /** If every failure is recorded only after `allowed`, no window [from, from + window) ever sees more
      than `limit` of them. */
  lemma {:induction false} NoWindowExceedsLimit(all: seq<real>, checks: seq<real>, window: real, limit: nat, from: real)
    requires Sorted(all) && Guarded(all, checks, window, limit)
    ensures Within(all, window, from) <= limit
  {
    if |all| > 0 {
      var n := |all| - 1;
      if from <= all[n] < from + window {
        WithinIsYoung(all[..n], window, from, checks[n]);
      } else {
        forall j | 0 <= j < n
          ensures all[..n][..j] == all[..j]
        {
        }
        NoWindowExceedsLimit(all[..n], checks[..n], window, limit, from);
      }
    }
  }

  lemma {:induction false} WithinIsYoung(times: seq<real>, window: real, from: real, now: real)
    requires now < from + window
    ensures Within(times, window, from) <= Young(times, window, now)
  {
    if |times| > 0 {
      WithinIsYoung(times[..|times| - 1], window, from, now);
    }
  }

  datatype LoginResult = RateLimited | InvalidPassword | LoggedIn

  class LoginRateLimiter {
    const limit: nat
    const window: real
    var failures: map<string, seq<real>>
    ghost var all: map<string, seq<real>>     // every failure since the last reset
    ghost var checks: map<string, seq<real>>  // when the check before it was made
    ghost var clock: real

    static function Of(m: map<string, seq<real>>, identity: string): seq<real> {
      if identity in m then m[identity] else []
    }

    ghost predicate Valid()
      reads this
    {
      && failures.Keys == all.Keys == checks.Keys
      && forall id :: id in failures ==> Tracks(failures[id], all[id], window, clock)
    }

    /** All failures so far went through Login. */
    ghost predicate AllGuarded()
      reads this
    {
      && all.Keys == checks.Keys
      && forall id :: id in all ==> Guarded(all[id], checks[id], window, limit)
    }

    constructor (maximum: nat, seconds: real)
      ensures Valid() && AllGuarded() && limit == maximum && window == seconds && all == map[]
    {
      limit, window := maximum, seconds;
      failures, all, checks, clock := map[], map[], map[], 0.0;
    }

    /** True exactly when fewer than `limit` failures since the last reset are younger than the window. */
    method Allowed(identity: string, now: real) returns (ok: bool)
      requires Valid() && clock <= now
      modifies this
      ensures Valid() && clock == now
      ensures identity in all && all == old(all)[identity := Of(old(all), identity)]
      ensures checks == old(checks)[identity := Of(old(checks), identity)]
      ensures ok == (Young(all[identity], window, now) < limit)
    {
      hide Tracks, Young, Guarded;
      Know(identity);
      var stored := PopOld(failures[identity], all[identity], window, clock, now);
      AdvanceClock(now);
      failures := failures[identity := stored];
      return |stored| < limit;
    }

    /** Gives the identity an empty record if it has none. */
    method Know(identity: string)
      requires Valid()
      modifies this`failures, this`all, this`checks
      ensures Valid() && identity in all && all == old(all)[identity := Of(old(all), identity)]
      ensures checks == old(checks)[identity := Of(old(checks), identity)]
    {
      hide Tracks;
      if identity !in failures {
        TracksNothing(window, clock);
        failures, all, checks := failures[identity := []], all[identity := []], checks[identity := []];
      }
    }

    ghost method AdvanceClock(now: real)
      requires Valid() && clock <= now
      modifies this`clock
      ensures Valid() && clock == now
    {
      hide Tracks;
      forall id | id in failures
        ensures Tracks(failures[id], all[id], window, now)
      {
        TracksLater(failures[id], all[id], window, clock, now);
      }
      clock := now;
    }

    method RecordFailure(identity: string, now: real, ghost check: real)
      requires Valid() && clock <= now
      modifies this
      ensures Valid() && clock == now
      ensures all == old(all)[identity := Of(old(all), identity) + [now]]
      ensures checks == old(checks)[identity := Of(old(checks), identity) + [check]]
    {
      hide Tracks;
      TracksNothing(window, now);
      AdvanceClock(now);
      TracksSnoc(Of(failures, identity), Of(all, identity), window, now);
      failures := failures[identity := Of(failures, identity) + [now]];
      all := all[identity := Of(all, identity) + [now]];
      checks := checks[identity := Of(checks, identity) + [check]];
    }

    method Reset(identity: string)
      requires Valid()
      modifies this
      ensures Valid() && clock == old(clock)
      ensures all == old(all) - {identity} && checks == old(checks) - {identity}
    {
      failures := failures - {identity};
      all := all - {identity};
      checks := checks - {identity};
    }

    /** One login attempt: the password is looked at only below the limit, a wrong one is recorded and a
        right one clears the record. The clock is read once for the check and again for the record. */
    method Login(identity: string, correct: bool, now: real, later: real) returns (r: LoginResult)
      requires Valid() && AllGuarded() && clock <= now <= later
      modifies this
      ensures Valid() && AllGuarded()
      ensures r == RateLimited <==> Young(Of(old(all), identity), window, now) >= limit
      ensures r != RateLimited ==> r == if correct then LoggedIn else InvalidPassword
      ensures Of(all, identity) ==
                match r
                case RateLimited => Of(old(all), identity)
                case InvalidPassword => Of(old(all), identity) + [later]
                case LoggedIn => []
      ensures forall id :: id != identity ==> Of(all, id) == Of(old(all), id)
    {
      hide Guarded, Tracks;
      GuardedNothing(window, limit);
      var ok := Allowed(identity, now);
      if !ok {
        return RateLimited;
      }
      if !correct {
        GuardedSnoc(all[identity], checks[identity], later, now, window, limit);
        RecordFailure(identity, later, now);
        return InvalidPassword;
      }
      Reset(identity);
      return LoggedIn;
    }

    /** Whatever the attempts were, no window of the given length saw more than `limit` wrong passwords
        of one identity since its last reset. */
    lemma AttemptsAreBounded(identity: string, from: real)
      requires Valid() && AllGuarded()
      ensures Within(Of(all, identity), window, from) <= limit
    {
      if identity in all {
        assert Tracks(failures[identity], all[identity], window, clock);
        NoWindowExceedsLimit(all[identity], checks[identity], window, limit, from);
      }
    }
  }

  /** Drops from the front what has become too old. */
  method PopOld(stored: seq<real>, ghost all: seq<real>, window: real, ghost clock: real, now: real)
    returns (kept: seq<real>)
    requires Tracks(stored, all, window, clock) && clock <= now
    ensures Tracks(kept, all, window, now) && |kept| == Young(all, window, now)
  {
    kept := stored;
    while |kept| > 0 && now - kept[0] >= window
      invariant Tracks(kept, all, window, now)
      decreases |kept|
    {
      kept := kept[1..];
    }
    ghost var dropped := |all| - |kept|;
    forall i | dropped <= i < |all|
      ensures now - all[i] < window
    {
      assert kept[0] == all[dropped] <= all[i];
    }
    YoungIsSuffix(all, window, now, dropped);
  }

  lemma TracksLater(stored: seq<real>, all: seq<real>, window: real, clock: real, now: real)
    requires Tracks(stored, all, window, clock) && clock <= now
    ensures Tracks(stored, all, window, now)
  {
  }

  lemma TracksSnoc(stored: seq<real>, all: seq<real>, window: real, now: real)
    requires Tracks(stored, all, window, now)
    ensures Tracks(stored + [now], all + [now], window, now)
  {
  }

  lemma TracksNothing(window: real, clock: real)
    ensures Tracks([], [], window, clock)
  {
  }

  lemma GuardedNothing(window: real, limit: nat)
    ensures Guarded([], [], window, limit)
  {
  }

  lemma {:induction false} GuardedSnoc(all: seq<real>, checks: seq<real>, time: real, check: real, window: real,
                                       limit: nat)
    requires Guarded(all, checks, window, limit)
    requires check <= time && Young(all, window, check) < limit
    ensures Guarded(all + [time], checks + [check], window, limit)
  {
    forall j | 0 <= j < |all| + 1
      ensures (checks + [check])[j] <= (all + [time])[j]
      ensures Young((all + [time])[..j], window, (checks + [check])[j]) < limit
    {
      assert (all + [time])[..j] == all[..j];
      if j == |all| {
        assert all[..j] == all;
      }
    }
  }
}
