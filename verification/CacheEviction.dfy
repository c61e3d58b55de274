/** What a pass of MediaCache._evict_over_limit (app/cache/storage.py) removes, and what it never
    touches, whatever leases arrive while it works. */
module CacheEviction {
  import opened Common
  import opened CacheIndex

  // ---------------------------------------------------------------- safety

  /** Bundle `b` with its entries and their files, as they are in both states. */
  ghost predicate SameBundle(s: State, t: State, b: nat) {
    && b in s.bundles && b in t.bundles
    && (forall p :: p in s.entries && s.entries[p].bundle == b ==> p in t.entries && t.entries[p] == s.entries[p])
    && (forall p :: p in s.entries && s.entries[p].bundle == b ==> (p in s.files <==> p in t.files))
    && (forall p :: p in s.entries && s.entries[p].bundle == b && p in s.files ==> t.files[p] == s.files[p])
  }

  /** Nothing can make `b` eligible: it is excluded, or leased, or active and stays so. */
  ghost predicate Shielded(s: State, now: int, exclude: Option<nat>, arrivals: seq<seq<Arrival>>, b: nat) {
    && b in s.bundles
    && (|| exclude == Some(b) || s.bundles[b].protectedUntil > now
        || (s.bundles[b].active && forall k :: 0 <= k < |arrivals| ==> Activated(b, false) !in arrivals[k]))
  }

  /** The arrivals of this turn shield `b`: a lease does, and an activation does if no later one undoes it. */
  ghost predicate Shields(arrivals: seq<seq<Arrival>>, b: nat) {
    && arrivals != []
    && (|| Leased(b) in arrivals[0]
        || (Activated(b, true) in arrivals[0]
            && forall k :: 0 <= k < |arrivals| ==> Activated(b, false) !in arrivals[k]))
  }

  lemma {:induction false} ShieldHolds(s: State, now: int, b: nat, arrivals: seq<Arrival>)
    requires b in s.bundles
    ensures var t := ArriveAll(s, arrivals, now);
            && b in t.bundles
            && (s.bundles[b].protectedUntil > now || Leased(b) in arrivals ==> t.bundles[b].protectedUntil > now)
            && ((s.bundles[b].active || Activated(b, true) in arrivals) && Activated(b, false) !in arrivals ==>
                t.bundles[b].active)
    decreases |arrivals|
  {
    if arrivals != [] {
      ShieldHolds(Arrive(s, arrivals[0], now), now, b, arrivals[1..]);
      assert forall a :: a in arrivals <==> a == arrivals[0] || a in arrivals[1..];
    }
  }

  /** A bundle that is shielded when the pass starts, or by what arrives in the first turn, is left whole. */
  lemma {:induction false} EvictionSpares(s: State, rules: Rules, now: int, exclude: Option<nat>, limit: int,
                                          arrivals: seq<seq<Arrival>>, b: nat)
    requires b in s.bundles
    requires Shielded(s, now, exclude, arrivals, b) || (GoesOn(s, now, exclude, limit) && Shields(arrivals, b))
    ensures SameBundle(s, Evict(s, rules, now, exclude, limit, arrivals), b)
    decreases |arrivals|, EligibleSet(s, now, exclude)
  {
    if GoesOn(s, now, exclude, limit) {
      var c := EvictTurn(s, rules, now, exclude, limit, arrivals);
      var t := Turn(s, rules, now, c, Arriving(arrivals));
      SparedInTurn(s, rules, now, exclude, arrivals, b, c);
      hide SameBundle, Shielded, Turn;
      EvictionSpares(t, rules, now, exclude, limit, Later(arrivals), b);
    }
  }

  lemma {:induction false} SparedInTurn(s: State, rules: Rules, now: int, exclude: Option<nat>,
                                        arrivals: seq<seq<Arrival>>,
                                        b: nat, c: nat)
    requires b in s.bundles && IsCandidate(s, now, exclude, c)
    requires Shielded(s, now, exclude, arrivals, b) || Shields(arrivals, b)
    ensures var t := Turn(s, rules, now, c, Arriving(arrivals));
            SameBundle(s, t, b) && Shielded(t, now, exclude, Later(arrivals), b)
  {
    ShieldHolds(s, now, b, Arriving(arrivals));
    ArrivalsDisturbNothing(s, Arriving(arrivals), now);
    hide ArriveAll, IsCandidate;
    assert c == b ==> exclude != Some(b) by {
    }
    assert forall k :: 0 <= k < |Later(arrivals)| ==> Later(arrivals)[k] == arrivals[k + 1];
  }

  /** The cache when turn k of the pass begins, and what the pass has still to meet then. */
  ghost function AtTurn(s: State, rules: Rules, now: int, exclude: Option<nat>, limit: int,
                        arrivals: seq<seq<Arrival>>, k: nat): (State, seq<seq<Arrival>>)
    decreases k
  {
    if k == 0 || !GoesOn(s, now, exclude, limit) then (s, arrivals)
    else
      CandidateExists(s, now, exclude);
      var c :| IsCandidate(s, now, exclude, c);
      AtTurn(Turn(s, rules, now, c, Arriving(arrivals)), rules, now, exclude, limit, Later(arrivals), k - 1)
  }

  /** The same in every later turn: what shields a bundle between the choice of a candidate and its removal
      keeps the bundle as it was when that turn began. */
  lemma {:induction false} EvictionSparesInTurn(s: State, rules: Rules, now: int, exclude: Option<nat>, limit: int,
                                                arrivals: seq<seq<Arrival>>, k: nat, b: nat)
    requires var (u, left) := AtTurn(s, rules, now, exclude, limit, arrivals, k);
             b in u.bundles && (Shielded(u, now, exclude, left, b)
                                || (GoesOn(u, now, exclude, limit) && Shields(left, b)))
    ensures SameBundle(AtTurn(s, rules, now, exclude, limit, arrivals, k).0,
                       Evict(s, rules, now, exclude, limit, arrivals), b)
    decreases k
  {
    if k == 0 || !GoesOn(s, now, exclude, limit) {
      EvictionSpares(s, rules, now, exclude, limit, arrivals, b);
    } else {
      var c := EvictTurn(s, rules, now, exclude, limit, arrivals);
      AtNextTurn(s, rules, now, exclude, limit, arrivals, k, c);
      hide SameBundle, Shielded, Turn, Evict, AtTurn;
      EvictionSparesInTurn(Turn(s, rules, now, c, Arriving(arrivals)), rules, now, exclude, limit, Later(arrivals),
                           k - 1, b);
    }
  }

  lemma AtNextTurn(s: State, rules: Rules, now: int, exclude: Option<nat>, limit: int, arrivals: seq<seq<Arrival>>,
                   k: nat, c: nat)
    requires k > 0 && GoesOn(s, now, exclude, limit) && IsCandidate(s, now, exclude, c)
    ensures AtTurn(s, rules, now, exclude, limit, arrivals, k)
         == AtTurn(Turn(s, rules, now, c, Arriving(arrivals)), rules, now, exclude, limit, Later(arrivals), k - 1)
  {
    var d :| IsCandidate(s, now, exclude, d)
          && AtTurn(s, rules, now, exclude, limit, arrivals, k)
          == AtTurn(Turn(s, rules, now, d, Arriving(arrivals)), rules, now, exclude, limit, Later(arrivals), k - 1);
  }

  // ---------------------------------------------------------------- what is removed

  /** The cache without the bundles of `gone`, their entries and their files. */
  ghost function Without(s: State, rules: Rules, gone: set<nat>): State {
    State(s.bundles - gone,
          map p | p in s.entries && s.entries[p].bundle !in gone :: s.entries[p],
          map p | p in s.files && !(p in s.entries && s.entries[p].bundle in gone && rules.inside(p)) :: s.files[p])
  }

  /** `gone` is the shortest prefix of the eligible bundles, oldest first, without which the cache is
      within its limit, or all of them. */
  ghost predicate ShortestPrefix(s: State, rules: Rules, now: int, exclude: Option<nat>, limit: int, gone: set<nat>) {
    var eligible := EligibleSet(s, now, exclude);
    && gone <= eligible
    && (forall b, c :: b in gone && c in eligible && Older(s, c, b) ==> c in gone)
    && (Used(Without(s, rules, gone)) <= limit || gone == eligible)
    && (forall b :: b in gone ==> Used(Without(s, rules, OlderThan(s, gone, b))) > limit)
  }

  ghost function OlderThan(s: State, gone: set<nat>, b: nat): set<nat>
    requires b in s.bundles && gone <= s.bundles.Keys
  {
    set c | c in gone && Older(s, c, b)
  }

  /** A pass that no lease interrupts removes exactly that prefix. */
  lemma {:induction false} EvictionIsShortestPrefix(s: State, rules: Rules, now: int, exclude: Option<nat>, limit: int)
    returns (gone: set<nat>)
    ensures ShortestPrefix(s, rules, now, exclude, limit, gone)
    ensures Evict(s, rules, now, exclude, limit, []) == Without(s, rules, gone)
    decreases EligibleSet(s, now, exclude)
  {
    hide ShortestPrefix, Without, Evict, Turn, IsCandidate;
    if GoesOn(s, now, exclude, limit) {
      var c := EvictTurn(s, rules, now, exclude, limit, []);
      TurnIsRemoval(s, rules, now, exclude, c);
      var rest := EvictionIsShortestPrefix(Without(s, rules, {c}), rules, now, exclude, limit);
      gone := {c} + rest;
      WithoutMore(s, rules, {c}, rest);
      PrefixGrows(s, rules, now, exclude, limit, c, rest);
    } else {
      gone := {};
      NothingGone(s, rules, now, exclude, limit);
    }
  }

  /** The first turn of a pass, and the rest of it. */
  lemma EvictTurn(s: State, rules: Rules, now: int, exclude: Option<nat>, limit: int, arrivals: seq<seq<Arrival>>)
    returns (c: nat)
    requires GoesOn(s, now, exclude, limit)
    ensures IsCandidate(s, now, exclude, c)
    ensures |Later(arrivals)| < |arrivals|
         || (arrivals == []
             && EligibleSet(Turn(s, rules, now, c, Arriving(arrivals)), now, exclude) < EligibleSet(s, now, exclude))
    ensures Evict(s, rules, now, exclude, limit, arrivals)
         == Evict(Turn(s, rules, now, c, Arriving(arrivals)), rules, now, exclude, limit, Later(arrivals))
  {
    CandidateExists(s, now, exclude);
    c :| IsCandidate(s, now, exclude, c) &&
         Evict(s, rules, now, exclude, limit, arrivals)
      == Evict(Turn(s, rules, now, c, Arriving(arrivals)), rules, now, exclude, limit, Later(arrivals));
    TurnShrinks(s, rules, now, exclude, c);
  }

  lemma TurnIsRemoval(s: State, rules: Rules, now: int, exclude: Option<nat>, c: nat)
    requires IsCandidate(s, now, exclude, c)
    ensures Turn(s, rules, now, c, []) == Without(s, rules, {c})
  {
  }

  lemma NothingGone(s: State, rules: Rules, now: int, exclude: Option<nat>, limit: int)
    requires !GoesOn(s, now, exclude, limit)
    ensures ShortestPrefix(s, rules, now, exclude, limit, {})
    ensures Evict(s, rules, now, exclude, limit, []) == s == Without(s, rules, {})
  {
    assert Without(s, rules, {}) == s;
  }

  lemma WithoutMore(s: State, rules: Rules, some: set<nat>, more: set<nat>)
    ensures Without(Without(s, rules, some), rules, more) == Without(s, rules, some + more)
  {
  }

  lemma {:induction false} PrefixGrows(s: State, rules: Rules, now: int, exclude: Option<nat>, limit: int, c: nat,
                                       rest: set<nat>)
    requires IsCandidate(s, now, exclude, c) && Used(s) > limit
    requires ShortestPrefix(Without(s, rules, {c}), rules, now, exclude, limit, rest)
    ensures ShortestPrefix(s, rules, now, exclude, limit, {c} + rest)
  {
    hide Without, Used;
    WithoutMore(s, rules, {c}, rest);
    var t := Without(s, rules, {c});
    SameAges(s, rules, {c});
    forall b | b in {c} + rest
      ensures Used(Without(s, rules, OlderThan(s, {c} + rest, b))) > limit
    {
      if b == c {
        assert OlderThan(s, {c} + rest, c) == {};
        WithoutNone(s, rules);
      } else {
        assert OlderThan(s, {c} + rest, b) == {c} + OlderThan(t, rest, b);
        WithoutMore(s, rules, {c}, OlderThan(t, rest, b));
      }
    }
  }

  lemma WithoutNone(s: State, rules: Rules)
    ensures Without(s, rules, {}) == s
  {
  }

  lemma SameAges(s: State, rules: Rules, gone: set<nat>)
    ensures Without(s, rules, gone).bundles == s.bundles - gone
  {
  }
}
