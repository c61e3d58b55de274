/** What every operation of the media cache (app/cache/storage.py) keeps: exact byte totals, an index
    that agrees with the files, and reads that return what was last put. */
module CacheAccounting {
  import opened Common
  import opened CacheIndex
  import opened CacheEviction

  // ---------------------------------------------------------------- byte totals

  /** What the tables themselves guarantee: an entry belongs to a bundle, and empty contents are never indexed. */
  ghost predicate Indexed(s: State) {
    forall p :: p in s.entries ==> s.entries[p].bundle in s.bundles && s.entries[p].size > 0
  }

  ghost predicate EntriesOk(s: State, rules: Rules) {
    Indexed(s) && forall p :: p in s.entries ==> rules.inside(p)
  }

  ghost predicate TotalsOk(s: State) {
    forall b :: b in s.bundles ==> s.bundles[b].byteSize == BundleBytes(s.entries, b)
  }

  ghost predicate Accurate(s: State, rules: Rules) {
    EntriesOk(s, rules) && TotalsOk(s)
  }

  lemma {:induction false} NoBytesNoEntries(s: State, b: nat)
    requires Indexed(s)
    ensures BundleBytes(s.entries, b) == 0 <==> forall p :: p in s.entries ==> s.entries[p].bundle != b
  {
    if p :| p in s.entries && s.entries[p].bundle == b {
      BytesRemove(s.entries, p, b);
    } else {
      assert OfBundle(s.entries, b) == map[];
    }
  }

  /** A put keeps the totals exact if and only if the path is new or stays in its bundle. */
  lemma {:induction false} PutAccounting(s: State, rules: Rules, b: nat, path: Path, content: Bytes, now: int,
                                         protect: bool)
    requires Accurate(s, rules) && content != [] && rules.inside(path)
    ensures EntriesOk(PutIndex(s, rules, b, path, content, now, protect), rules)
    ensures TotalsOk(PutIndex(s, rules, b, path, content, now, protect)) <==>
              path !in s.entries || s.entries[path].bundle == b
  {
    hide BundleBytes;
    var t := PutIndex(s, rules, b, path, content, now, protect);
    if b !in s.bundles {
      NoBytesNoEntries(s, b);
    }
    forall c | c in t.bundles
      ensures BundleBytes(t.entries, c) == BundleBytes(s.entries, c) + (if c == b then |content| else 0)
                                           - if path in s.entries && s.entries[path].bundle == c
                                             then s.entries[path].size else 0
    {
      BytesRemove(t.entries, path, c);
      assert t.entries - {path} == s.entries - {path};
      if path in s.entries {
        BytesRemove(s.entries, path, c);
      } else {
        assert s.entries - {path} == s.entries;
      }
    }
    if path in s.entries && s.entries[path].bundle != b {
      var c := s.entries[path].bundle;
      assert t.bundles[c].byteSize != BundleBytes(t.entries, c);
    }
  }

  function Nothing(): State {
    State(map[], map[], map[])
  }

  /** Two puts of one path in two bundles, from an empty cache: the first bundle still claims the bytes it lost. */
  lemma TwoOwnersMiscount(rules: Rules, path: Path, content: Bytes, now: int)
    requires content != [] && rules.inside(path)
    ensures Accurate(Nothing(), rules)
    ensures var s := PutIndex(Nothing(), rules, 0, path, content, now, false);
            var t := PutIndex(s, rules, 1, path, content, now, false);
            && Accurate(s, rules) && !TotalsOk(t)
            && t.bundles[0].byteSize == |content| && BundleBytes(t.entries, 0) == 0
            && t.bundles[1].byteSize == 0 && BundleBytes(t.entries, 1) == |content|
  {
    hide BundleBytes;
    PutAccounting(Nothing(), rules, 0, path, content, now, false);
    var s := PutIndex(Nothing(), rules, 0, path, content, now, false);
    PutAccounting(s, rules, 1, path, content, now, false);
    var t := PutIndex(s, rules, 1, path, content, now, false);
    NoBytesNoEntries(t, 0);
    BytesRemove(t.entries, path, 1);
    NoBytesNoEntries(State(t.bundles, map[], map[]), 1);
    assert t.entries - {path} == map[];
  }

  /** The index without the entries `gone`, the bundles they belonged to recalculated. */
  ghost function Dropped(s: State, gone: set<Path>, files: map<Path, Bytes>): State {
    Recalculate(State(s.bundles, s.entries - gone, files), Owners(s.entries, gone))
  }

  /** No other entry goes; a bundle goes exactly when it loses its last entry; one that loses some has an
      exact total afterwards; all others are as they were. */
  lemma {:induction false} RecalculationRepairs(s: State, gone: set<Path>, files: map<Path, Bytes>)
    requires Indexed(s)
    ensures var t := Dropped(s, gone, files);
            && t.entries == s.entries - gone && t.files == files && Indexed(t)
            && (forall b :: b in s.bundles ==> (b in t.bundles <==> !LosesLastEntry(s, gone, b)))
            && (forall b :: b in t.bundles ==> b in s.bundles && t.bundles[b] == Recounted(s, gone, b))
  {
    hide BundleBytes;
    var owners := Owners(s.entries, gone);
    var u := State(s.bundles, s.entries - gone, files);
    forall b: nat
      ensures BundleBytes(u.entries, b) == 0 <==> forall p :: p in s.entries && s.entries[p].bundle == b ==> p in gone
    {
      NoBytesNoEntries(u, b);
      assert forall p :: p in u.entries <==> p in s.entries && p !in gone;
    }
    assert Recalculate(u, owners).entries == u.entries;
  }

  ghost predicate LosesLastEntry(s: State, gone: set<Path>, b: nat) {
    b in Owners(s.entries, gone) && forall p :: p in s.entries && s.entries[p].bundle == b ==> p in gone
  }

  ghost function Recounted(s: State, gone: set<Path>, b: nat): Bundle
    requires b in s.bundles
  {
    if b in Owners(s.entries, gone) then s.bundles[b].(byteSize := BundleBytes(s.entries - gone, b)) else s.bundles[b]
  }

  lemma {:induction false} RecalculationKeepsTotals(s: State, rules: Rules, gone: set<Path>, files: map<Path, Bytes>)
    requires Accurate(s, rules)
    ensures Accurate(Dropped(s, gone, files), rules)
  {
    RecalculationRepairs(s, gone, files);
    hide BundleBytes, Dropped;
    forall b | b in s.bundles && b !in Owners(s.entries, gone)
      ensures BundleBytes(s.entries - gone, b) == s.bundles[b].byteSize
    {
      SameEntriesSameBytes(s.entries - gone, s.entries, b);
    }
  }

  lemma SameEntriesSameBytes(some: map<Path, Entry>, entries: map<Path, Entry>, b: nat)
    requires forall p :: p in some ==> p in entries && some[p] == entries[p]
    requires forall p :: p in entries && entries[p].bundle == b ==> p in some
    ensures BundleBytes(some, b) == BundleBytes(entries, b)
  {
    assert OfBundle(some, b) == OfBundle(entries, b);
  }

  lemma {:induction false} RemovalKeepsTotals(s: State, rules: Rules, b: nat, now: int)
    requires Accurate(s, rules)
    ensures Accurate(RemoveBundle(s, rules, b, now), rules)
  {
    hide BundleBytes;
    var t := DropBundle(s, b);
    forall c | c in t.bundles
      ensures BundleBytes(t.entries, c) == BundleBytes(s.entries, c)
    {
      SameEntriesSameBytes(t.entries, s.entries, c);
    }
  }

  lemma {:induction false} ArrivalsKeepTotals(s: State, rules: Rules, arrivals: seq<Arrival>, now: int)
    requires Accurate(s, rules)
    ensures Accurate(ArriveAll(s, arrivals, now), rules)
  {
    ArrivalsDisturbNothing(s, arrivals, now);
    hide BundleBytes, ArriveAll;
    var t := ArriveAll(s, arrivals, now);
    forall b | b in t.bundles && b !in s.bundles
      ensures BundleBytes(t.entries, b) == 0
    {
      NoBytesNoEntries(s, b);
    }
  }

  lemma {:induction false} EvictionKeepsTotals(s: State, rules: Rules, now: int, exclude: Option<nat>, limit: int,
                                               arrivals: seq<seq<Arrival>>)
    requires Accurate(s, rules)
    ensures Accurate(Evict(s, rules, now, exclude, limit, arrivals), rules)
    decreases |arrivals|, EligibleSet(s, now, exclude)
  {
    hide BundleBytes, Accurate;
    if GoesOn(s, now, exclude, limit) {
      var c := EvictTurn(s, rules, now, exclude, limit, arrivals);
      ArrivalsKeepTotals(s, rules, Arriving(arrivals), now);
      RemovalKeepsTotals(ArriveAll(s, Arriving(arrivals), now), rules, c, now);
      EvictionKeepsTotals(Turn(s, rules, now, c, Arriving(arrivals)), rules, now, exclude, limit, Later(arrivals));
    }
  }

  // ---------------------------------------------------------------- runs

  /** One operation of the cache, or a change of a file that the cache does not make itself
      (another program, a lost disk block, a put whose index transaction failed). */
  datatype Step =
    | Put(b: nat, path: Path, content: Bytes, protect: bool, verify: bool, enforce: bool)
    | Read(path: Path, protect: bool, verify: bool)
    | Delete(paths: set<Path>)
    | Lease(b: nat)
    | Activate(b: nat, active: bool)
    | Remove(b: nat)
    | EnforceLimit
    | Restart
    | Meddle(path: Path, found: Option<Bytes>)

  ghost function Stored(s: State, rules: Rules, limit: int, put: Step, now: int, arrivals: seq<seq<Arrival>>): State
    requires put.Put?
  {
    var t := PutIndex(s, rules, put.b, put.path, put.content, now, put.protect);
    if put.enforce then Evict(t, rules, now, Some(put.b), limit, arrivals) else t
  }

  ghost function Next(s: State, rules: Rules, limit: int, step: Step, now: int, arrivals: seq<seq<Arrival>>): State {
    match step
    case Put(_, path, content, _, verify, _) =>
      if PutCheck(rules, path, content, verify).Some? then s else Stored(s, rules, limit, step, now, arrivals)
    case Read(path, protect, verify) => AfterRead(s, rules, path, now, protect, verify)
    case Delete(paths) => DeleteEntries(s, rules, paths)
    case Lease(b) => LeaseBundle(s, b, now)
    case Activate(b, active) => SetActive(s, b, active, now)
    case Remove(b) => RemoveBundle(s, rules, b, now)
    case EnforceLimit => Evict(s, rules, now, None, limit, arrivals)
    case Restart => Reconcile(s, rules)
    case Meddle(path, found) =>
      s.(files := match found case Some(c) => s.files[path := c] case None => s.files - {path})
  }

  /** Each path is only ever put in one bundle. */
  ghost predicate Fits(step: Step, owner: Path -> nat) {
    step.Put? ==> step.b == owner(step.path)
  }

  ghost predicate Owned(s: State, owner: Path -> nat) {
    forall p :: p in s.entries ==> s.entries[p].bundle == owner(p)
  }

  /** The content last put under each path. */
  ghost function Recorded(last: map<Path, Bytes>, rules: Rules, step: Step): map<Path, Bytes> {
    if step.Put? && PutCheck(rules, step.path, step.content, step.verify).None? then last[step.path := step.content]
      else last
  }

  ghost predicate Honest(s: State, rules: Rules, last: map<Path, Bytes>) {
    forall p :: p in s.entries ==>
      p in last && s.entries[p].size == |last[p]| && s.entries[p].checksum == rules.digest(last[p])
  }

  /** The entries of `t` are among those of `s`. */
  ghost predicate FewerEntries(s: State, t: State) {
    forall p :: p in t.entries ==> p in s.entries && t.entries[p] == s.entries[p]
  }

  lemma {:induction false} EvictionDropsEntries(s: State, rules: Rules, now: int, exclude: Option<nat>, limit: int,
                                                arrivals: seq<seq<Arrival>>)
    ensures FewerEntries(s, Evict(s, rules, now, exclude, limit, arrivals))
    decreases |arrivals|, EligibleSet(s, now, exclude)
  {
    hide IsCandidate, EligibleSet;
    if GoesOn(s, now, exclude, limit) {
      var c := EvictTurn(s, rules, now, exclude, limit, arrivals);
      ArrivalsDisturbNothing(s, Arriving(arrivals), now);
      EvictionDropsEntries(Turn(s, rules, now, c, Arriving(arrivals)), rules, now, exclude, limit, Later(arrivals));
    }
  }

  /** Only a put adds to the index. */
  lemma {:induction false} OnlyPutsAdd(s: State, rules: Rules, limit: int, step: Step, now: int,
                                       arrivals: seq<seq<Arrival>>)
    ensures if step.Put? && PutCheck(rules, step.path, step.content, step.verify).None?
            then FewerEntries(PutIndex(s, rules, step.b, step.path, step.content, now, step.protect),
                              Next(s, rules, limit, step, now, arrivals))
            else FewerEntries(s, Next(s, rules, limit, step, now, arrivals))
  {
    hide Evict, BundleBytes, Broken;
    if step.Put? {
      EvictionDropsEntries(PutIndex(s, rules, step.b, step.path, step.content, now, step.protect), rules, now,
                           Some(step.b), limit, arrivals);
    } else {
      EvictionDropsEntries(s, rules, now, None, limit, arrivals);
    }
  }

  /** Every step keeps the totals exact, the paths in their bundles and the index honest. */
  lemma {:induction false} StepKeeps(s: State, rules: Rules, limit: int, step: Step, now: int,
                                     arrivals: seq<seq<Arrival>>,
                                     owner: Path -> nat, last: map<Path, Bytes>)
    requires Accurate(s, rules) && Owned(s, owner) && Honest(s, rules, last) && Fits(step, owner)
    ensures Accurate(Next(s, rules, limit, step, now, arrivals), rules)
    ensures Owned(Next(s, rules, limit, step, now, arrivals), owner)
    ensures Honest(Next(s, rules, limit, step, now, arrivals), rules, Recorded(last, rules, step))
  {
    OnlyPutsAdd(s, rules, limit, step, now, arrivals);
    StepKeepsTotals(s, rules, limit, step, now, arrivals, owner);
    hide Evict, BundleBytes, Broken, Recalculate, Accurate;
  }

  lemma {:induction false} StepKeepsTotals(s: State, rules: Rules, limit: int, step: Step, now: int,
                                           arrivals: seq<seq<Arrival>>, owner: Path -> nat)
    requires Accurate(s, rules) && Owned(s, owner) && Fits(step, owner)
    ensures Accurate(Next(s, rules, limit, step, now, arrivals), rules)
  {
    hide Evict, BundleBytes, Recalculate;
    match step
    case Put(b, path, content, protect, verify, enforce) =>
      if PutCheck(rules, path, content, verify).None? {
        PutAccounting(s, rules, b, path, content, now, protect);
        EvictionKeepsTotals(PutIndex(s, rules, b, path, content, now, protect), rules, now, Some(b), limit, arrivals);
      }
    case Read(path, _, _) =>
      RecalculationKeepsTotals(s, rules, {path}, s.files);
      assert path in s.entries ==> Owners(s.entries, {path}) == {s.entries[path].bundle};
    case Delete(paths) => DeletionRepairs(s, rules, paths);
    case Lease(_) =>
    case Activate(b, active) => ActivationKeepsTotals(s, rules, b, active, now);
    case Remove(b) => RemovalKeepsTotals(s, rules, b, now);
    case EnforceLimit => EvictionKeepsTotals(s, rules, now, None, limit, arrivals);
    case Restart => RestartKeepsTotals(s, rules);
    case Meddle(_, _) =>
  }

  lemma {:induction false} ActivationKeepsTotals(s: State, rules: Rules, b: nat, active: bool, now: int)
    requires Accurate(s, rules)
    ensures Accurate(SetActive(s, b, active, now), rules)
  {
    hide BundleBytes;
    if b !in s.bundles {
      NoBytesNoEntries(s, b);
    }
  }

  lemma {:induction false} DeletionRepairs(s: State, rules: Rules, paths: set<Path>)
    requires Accurate(s, rules)
    ensures var t := DeleteEntries(s, rules, paths);
            && Accurate(t, rules) && t.entries == s.entries - paths
            && t.files == map p | p in s.files && !(p in paths && p in s.entries) :: s.files[p]
  {
    var files := map p | p in s.files && !(p in paths && p in s.entries) :: s.files[p];
    RecalculationKeepsTotals(s, rules, paths, files);
    RecalculationRepairs(s, paths, files);
    hide Recalculate, Accurate;
    assert files == map p | p in s.files && !(p in paths && p in s.entries && rules.inside(p)) :: s.files[p] by {
      assert EntriesOk(s, rules) by { EntriesAreOk(s, rules); }
    }
  }

  /** Deleting entries takes a bundle's protection away if and only if it takes its last entry: then the row
      goes, translation or reader notwithstanding. Otherwise lease and task flag stay as they are. */
  lemma {:induction false} DeletionEndsProtection(s: State, rules: Rules, paths: set<Path>, b: nat)
    requires Indexed(s) && b in s.bundles
    ensures var t := DeleteEntries(s, rules, paths);
            && (b in t.bundles <==> !LosesLastEntry(s, paths, b))
            && (b in t.bundles ==>
                  && t.bundles[b].active == s.bundles[b].active
                  && t.bundles[b].protectedUntil == s.bundles[b].protectedUntil)
  {
    RecalculationRepairs(s, paths, map p | p in s.files
                         && !(p in paths && p in s.entries && rules.inside(p)) :: s.files[p]);
  }

  /** The same for a read that finds its file damaged. */
  lemma {:induction false} MissEndsProtection(s: State, rules: Rules, path: Path, now: int, protect: bool, verify: bool)
    requires Indexed(s) && path in s.entries && ReadOf(s, rules, path, verify).Miss?
    ensures var b, t := s.entries[path].bundle, AfterRead(s, rules, path, now, protect, verify);
            && (b in t.bundles <==> exists p :: p in s.entries && p != path && s.entries[p].bundle == b)
            && (b in t.bundles ==>
                  && t.bundles[b].active == s.bundles[b].active
                  && t.bundles[b].protectedUntil == s.bundles[b].protectedUntil)
  {
    RecalculationRepairs(s, {path}, s.files);
    assert Owners(s.entries, {path}) == {s.entries[path].bundle};
    hide Recalculate;
  }

  /** What is put there afterwards is protected by that put alone: without a lease it can be evicted at once,
      although the chapter is still being translated. */
  lemma {:induction false} LostProtectionStaysLost(s: State, rules: Rules, b: nat, path: Path, content: Bytes, now: int)
    requires Indexed(s) && now >= 0 && b in s.bundles && s.bundles[b].active
    requires path in s.entries && s.entries[path].bundle == b
    requires forall p :: p in s.entries && s.entries[p].bundle == b ==> p == path
    ensures var t := PutIndex(DeleteEntries(s, rules, {path}), rules, b, path, content, now, false);
            b in t.bundles && !t.bundles[b].active && Eligible(t, now, None, b)
  {
    DeletionEndsProtection(s, rules, {path}, b);
  }

  lemma EntriesAreOk(s: State, rules: Rules)
    requires Accurate(s, rules)
    ensures EntriesOk(s, rules)
  {
  }

  // ---------------------------------------------------------------- files

  /** Every entry has its file, as the index describes it, and every file is indexed. */
  ghost predicate FilesMatch(s: State, rules: Rules) {
    s.files.Keys == s.entries.Keys && forall p :: p in s.entries ==> ValidEntry(s, rules, p)
  }

  /** Start-up repairs any mismatch of index and files, also of entries outside the cache and of wrong totals:
      afterwards every entry has its file and every file its entry, exactly the valid entries are left, their
      files are untouched, the totals of the repaired bundles are exact, and a second start changes nothing. */
  lemma {:induction false} RestartRepairs(s: State, rules: Rules)
    requires Indexed(s)
    ensures var t, broken := Reconcile(s, rules), Broken(s, rules);
            && FilesMatch(t, rules) && EntriesOk(t, rules)
            && t.entries == s.entries - broken
            && (forall p :: p in t.files ==> p in s.files && t.files[p] == s.files[p])
            && (forall b :: b in s.bundles ==> (b in t.bundles <==> !LosesLastEntry(s, broken, b)))
            && (forall b :: b in t.bundles ==> b in s.bundles && t.bundles[b] == Recounted(s, broken, b))
            && Reconcile(t, rules) == t
  {
    hide BundleBytes, Recalculate, LosesLastEntry, Recounted;
    var files := map p | p in s.files && p in s.entries && p !in Broken(s, rules) :: s.files[p];
    assert Reconcile(s, rules) == Dropped(s, Broken(s, rules), files);
    RecalculationRepairs(s, Broken(s, rules), files);
    hide Dropped;
    MatchingIsStable(Reconcile(s, rules), rules);
  }

  lemma {:induction false} RestartKeepsTotals(s: State, rules: Rules)
    requires Accurate(s, rules)
    ensures Accurate(Reconcile(s, rules), rules)
  {
    hide BundleBytes, Recalculate, Accurate;
    RecalculationKeepsTotals(s, rules, Broken(s, rules), map p | p in s.files && p in s.entries
                             && p !in Broken(s, rules) :: s.files[p]);
  }

  lemma {:induction false} MatchingIsStable(s: State, rules: Rules)
    requires FilesMatch(s, rules)
    ensures Reconcile(s, rules) == s
  {
    hide BundleBytes;
    assert Broken(s, rules) == {};
    assert s.entries - {} == s.entries;
    assert (map p | p in s.files && p in s.entries && p !in Broken(s, rules) :: s.files[p]) == s.files;
    assert Owners(s.entries, {}) == {};
    assert Recalculate(s, {}) == s;
  }

  lemma {:induction false} TurnKeepsMatch(s: State, rules: Rules, now: int, c: nat, arrivals: seq<Arrival>)
    requires EntriesOk(s, rules) && FilesMatch(s, rules)
    ensures EntriesOk(Turn(s, rules, now, c, arrivals), rules) && FilesMatch(Turn(s, rules, now, c, arrivals), rules)
  {
    ArrivalsDisturbNothing(s, arrivals, now);
    hide ArriveAll;
    var t := Turn(s, rules, now, c, arrivals);
    forall p | p in t.entries
      ensures p in t.files && ValidEntry(t, rules, p)
    {
      assert ValidEntry(s, rules, p);
    }
  }

  lemma {:induction false} EvictionKeepsMatch(s: State, rules: Rules, now: int, exclude: Option<nat>, limit: int,
                                              arrivals: seq<seq<Arrival>>)
    requires EntriesOk(s, rules) && FilesMatch(s, rules)
    ensures FilesMatch(Evict(s, rules, now, exclude, limit, arrivals), rules)
    decreases |arrivals|, EligibleSet(s, now, exclude)
  {
    hide IsCandidate, EligibleSet, FilesMatch, EntriesOk, Turn;
    if GoesOn(s, now, exclude, limit) {
      var c := EvictTurn(s, rules, now, exclude, limit, arrivals);
      TurnKeepsMatch(s, rules, now, c, Arriving(arrivals));
      EvictionKeepsMatch(Turn(s, rules, now, c, Arriving(arrivals)), rules, now, exclude, limit, Later(arrivals));
    }
  }

  /** While nothing else touches the files, index and files stay in agreement. */
  lemma {:induction false} StepKeepsMatch(s: State, rules: Rules, limit: int, step: Step, now: int,
                                          arrivals: seq<seq<Arrival>>)
    requires Accurate(s, rules) && FilesMatch(s, rules) && !step.Meddle?
    ensures FilesMatch(Next(s, rules, limit, step, now, arrivals), rules)
  {
    hide Evict, BundleBytes, Recalculate;
    match step
    case Put(b, path, content, protect, verify, enforce) =>
      if PutCheck(rules, path, content, verify).None? {
        var t := PutIndex(s, rules, b, path, content, now, protect);
        EvictionKeepsMatch(t, rules, now, Some(b), limit, arrivals);
      }
    case Read(path, _, verify) =>
      assert !(path in s.entries && ReadOf(s, rules, path, verify).Miss?);
    case Delete(paths) => DeletionRepairs(s, rules, paths);
    case Lease(_) =>
    case Activate(_, _) =>
    case Remove(_) =>
    case EnforceLimit => EvictionKeepsMatch(s, rules, now, None, limit, arrivals);
    case Restart => RestartRepairs(s, rules);
  }

  // ---------------------------------------------------------------- reads

  /** A put is refused, and changes nothing, if and only if there is nothing to store, or no image where one has to be,
      or the path leads out of the cache; the refusal names the first of these. */
  lemma {:induction false} PutIsRefusedIff(s: State, rules: Rules, limit: int, put: Step, now: int,
                                           arrivals: seq<seq<Arrival>>)
    requires put.Put?
    ensures var error := PutCheck(rules, put.path, put.content, put.verify);
            var noImage := put.verify && !rules.isImage(put.content);
            && (error == Some(EmptyContent) <==> |put.content| == 0)
            && (error == Some(NotAnImage) <==> |put.content| > 0 && noImage)
            && (error == Some(OutsideCache) <==> |put.content| > 0 && !noImage && !rules.inside(put.path))
            && (error.Some? ==> Next(s, rules, limit, put, now, arrivals) == s)
            && (error.None? ==> put.path in Next(s, rules, limit, put, now, arrivals).entries)
  {
    if PutCheck(rules, put.path, put.content, put.verify).None? {
      ReadsYourWrite(s, rules, limit, put, now, arrivals);
    }
    hide Evict;
  }

  /** A read straight after a successful put finds what was put, whatever the put evicts. */
  lemma {:induction false} ReadsYourWrite(s: State, rules: Rules, limit: int, put: Step, now: int,
                                          arrivals: seq<seq<Arrival>>)
    requires put.Put? && PutCheck(rules, put.path, put.content, put.verify).None?
    ensures ReadOf(Next(s, rules, limit, put, now, arrivals), rules, put.path, put.verify)
              == Hit(put.content, rules.digest(put.content))
  {
    hide Evict;
    var t := PutIndex(s, rules, put.b, put.path, put.content, now, put.protect);
    EvictionSpares(t, rules, now, Some(put.b), limit, arrivals, put.b);
  }

  ghost predicate Injective(rules: Rules) {
    forall c: Bytes, d: Bytes :: rules.digest(c) == rules.digest(d) ==> c == d
  }

  /** An operation together with the clock and the leases that arrive during its eviction pass. */
  datatype Event = Event(step: Step, now: int, arrivals: seq<seq<Arrival>>)

  ghost function After(s: State, rules: Rules, limit: int, events: seq<Event>): State
    decreases |events|
  {
    if |events| == 0 then s
    else After(Next(s, rules, limit, events[0].step, events[0].now, events[0].arrivals), rules, limit, events[1..])
  }

  ghost function LastPut(last: map<Path, Bytes>, rules: Rules, events: seq<Event>): map<Path, Bytes>
    decreases |events|
  {
    if |events| == 0 then last else LastPut(Recorded(last, rules, events[0].step), rules, events[1..])
  }

  /** Over any run, with any damage to the files: totals are exact and a read misses or returns what was last put. */
  lemma {:induction false} ReadsReturnLastPut(s: State, rules: Rules, limit: int, events: seq<Event>,
                                              owner: Path -> nat, last: map<Path, Bytes>, p: Path, verify: bool)
    requires Injective(rules)
    requires Accurate(s, rules) && Owned(s, owner) && Honest(s, rules, last)
    requires forall e :: e in events ==> Fits(e.step, owner)
    ensures var t := After(s, rules, limit, events);
            && Accurate(t, rules)
            && (ReadOf(t, rules, p, verify).Hit? ==>
                  && p in LastPut(last, rules, events)
                  && ReadOf(t, rules, p, verify).content == LastPut(last, rules, events)[p])
    decreases |events|
  {
    hide Accurate, Next;
    if |events| > 0 {
      StepKeeps(s, rules, limit, events[0].step, events[0].now, events[0].arrivals, owner, last);
      ReadsReturnLastPut(Next(s, rules, limit, events[0].step, events[0].now, events[0].arrivals), rules, limit,
                         events[1..], owner,
                         Recorded(last, rules, events[0].step), p, verify);
    }
  }

  /** While nothing else touches the files, every indexed path is read back as last put. */
  lemma {:induction false} NothingIsLost(s: State, rules: Rules, limit: int, events: seq<Event>, owner: Path -> nat,
                                         last: map<Path, Bytes>, p: Path)
    requires Injective(rules)
    requires Accurate(s, rules) && Owned(s, owner) && Honest(s, rules, last) && FilesMatch(s, rules)
    requires forall e :: e in events ==> Fits(e.step, owner) && !e.step.Meddle?
    requires p in After(s, rules, limit, events).entries
    ensures p in LastPut(last, rules, events)
    ensures ReadOf(After(s, rules, limit, events), rules, p, false)
              == Hit(LastPut(last, rules, events)[p], rules.digest(LastPut(last, rules, events)[p]))
    decreases |events|
  {
    hide Next;
    if |events| > 0 {
      hide Accurate;
      StepKeeps(s, rules, limit, events[0].step, events[0].now, events[0].arrivals, owner, last);
      StepKeepsMatch(s, rules, limit, events[0].step, events[0].now, events[0].arrivals);
      NothingIsLost(Next(s, rules, limit, events[0].step, events[0].now, events[0].arrivals), rules, limit, events[1..],
                    owner,
                    Recorded(last, rules, events[0].step), p);
    }
  }
}
