/** The class MediaCache of app/cache/storage.py. Each method is proved to have the effect that
    CacheIndex describes; what follows from those effects is proved in CacheEviction and CacheAccounting. */
module MediaCaches {
  import opened Common
  import opened CacheIndex
  import opened CacheEviction

  lemma OthersKeepTheirBytes(s: State, done: set<nat>, c: nat)
    requires c !in done
    ensures BundleBytes(Recalculate(s, done).entries, c) == BundleBytes(s.entries, c)
  {
    hide SumSizes;
    assert OfBundle(Recalculate(s, done).entries, c) == OfBundle(s.entries, c);
  }

  lemma RecalculateOneMore(s: State, done: set<nat>, b: nat)
    requires b !in done
    ensures Recalculate(Recalculate(s, done), {b}) == Recalculate(s, done + {b})
  {
    hide BundleBytes;
    var t := Recalculate(s, done);
    OthersKeepTheirBytes(s, done, b);
    assert Recalculate(t, {b}).bundles == Recalculate(s, done + {b}).bundles;
    assert Recalculate(t, {b}).entries == Recalculate(s, done + {b}).entries;
  }

  lemma RecalculateNone(s: State)
    ensures Recalculate(s, {}) == s
  {
  }

  lemma OneMoreGone(s: State, gone: set<Path>, p: Path)
    ensures s.entries - gone - {p} == s.entries - (gone + {p}) && s.files - gone - {p} == s.files - (gone + {p})
  {
  }

  lemma NoOwners(entries: map<Path, Entry>)
    ensures Owners(entries, {}) == {}
  {
  }

  lemma OwnersGrow(entries: map<Path, Entry>, paths: set<Path>, p: Path)
    requires p in entries
    ensures Owners(entries, paths + {p}) == Owners(entries, paths) + {entries[p].bundle}
  {
  }

  lemma BrokenAreEntries(s: State, rules: Rules)
    ensures Broken(s, rules) <= s.entries.Keys
  {
  }

  lemma BrokenIs(s: State, rules: Rules, p: Path)
    requires p in s.entries
    ensures p in Broken(s, rules) <==>
              !(rules.inside(p) && p in s.files && s.entries[p].Describes(rules, s.files[p]))
  {
  }

  /** A pass that goes on takes the one candidate there is. */
  lemma TurnOfCandidate(s: State, rules: Rules, now: int, exclude: Option<nat>, limit: int, arrivals: seq<seq<Arrival>>,
                        b: nat)
    requires Used(s) > limit && IsCandidate(s, now, exclude, b)
    ensures |Later(arrivals)| < |arrivals|
         || (arrivals == []
             && EligibleSet(Turn(s, rules, now, b, Arriving(arrivals)), now, exclude) < EligibleSet(s, now, exclude))
    ensures Evict(s, rules, now, exclude, limit, arrivals)
         == Evict(Turn(s, rules, now, b, Arriving(arrivals)), rules, now, exclude, limit, Later(arrivals))
  {
    hide Used, Turn;
    assert b in EligibleSet(s, now, exclude);
    var c := EvictTurn(s, rules, now, exclude, limit, arrivals);
  }

  class MediaCache {
    const rules: Rules
    const maxBytes: int
    var bundles: map<nat, Bundle>
    var entries: map<Path, Entry>
    var files: map<Path, Bytes>

    ghost function View(): State
      reads this
    {
      State(bundles, entries, files)
    }

    /** Opens the cache on the tables and files that an earlier process left. */
    constructor (rules: Rules, maxBytes: int, left: State)
      ensures this.rules == rules && this.maxBytes == maxBytes
      ensures View() == Reconcile(left, rules)
    {
      this.rules, this.maxBytes := rules, maxBytes;
      bundles, entries, files := left.bundles, left.entries, left.files;
      new;
      RepairIndex();
    }

    method UsedBytes() returns (used: nat)
      ensures used == Used(View())
    {
      var left := entries;
      used := 0;
      while left != map[]
        invariant used + SumSizes(left) == SumSizes(entries)
        decreases |left|
      {
        var p :| p in left;
        SumRemove(left, p);
        used, left := used + left[p].size, left - {p};
      }
    }

    method BytesOf(b: nat) returns (size: nat)
      ensures size == BundleBytes(entries, b)
    {
      var left := entries;
      size := 0;
      while left != map[]
        invariant size + BundleBytes(left, b) == BundleBytes(entries, b)
        decreases |left|
      {
        var p :| p in left;
        BytesRemove(left, p, b);
        if left[p].bundle == b {
          size := size + left[p].size;
        }
        left := left - {p};
      }
    }

    method RecalculateBundle(b: nat)
      modifies this
      ensures View() == Recalculate(old(View()), {b})
    {
      var size := BytesOf(b);
      if size == 0 {
        bundles := bundles - {b};
        entries := map p | p in entries && entries[p].bundle != b :: entries[p];
      } else if b in bundles {
        bundles := bundles[b := bundles[b].(byteSize := size)];
      }
    }

    method RecalculateBundles(affected: set<nat>)
      modifies this
      ensures View() == Recalculate(old(View()), affected)
    {
      hide Recalculate;
      var left := affected;
      RecalculateNone(View());
      assert affected - left == {};
      while left != {}
        invariant left <= affected
        invariant View() == Recalculate(old(View()), affected - left)
        decreases left
      {
        var b :| b in left;
        RecalculateOneMore(old(View()), affected - left, b);
        RecalculateBundle(b);
        assert affected - left + {b} == affected - (left - {b});
        left := left - {b};
      }
      assert affected - left == affected;
    }

    /** Creates the bundle or notes that it is used. */
    method UseBundle(b: nat, now: int, protect: bool)
      modifies this`bundles
      ensures bundles == old(bundles)[b := if b in old(bundles) then Touched(old(bundles)[b], now, protect)
                                           else Bundle(0, now, Deadline(now, protect), false)]
    {
      var until := if protect then now + READING_LEASE_SECONDS else 0;
      if b in bundles {
        bundles := bundles[b := bundles[b].(accessedAt := now,
                                            protectedUntil := Max(bundles[b].protectedUntil, until))];
      } else {
        bundles := bundles[b := Bundle(0, now, until, false)];
      }
    }

    /** Writes the file and runs the index transaction of a put. */
    method IndexContent(b: nat, path: Path, content: Bytes, protect: bool, now: int)
      modifies this
      ensures View() == PutIndex(old(View()), rules, b, path, content, now, protect)
    {
      files := files[path := content];
      UseBundle(b, now, protect);
      hide Touched;
      var previousSize := if path in entries then entries[path].size else 0;
      entries := entries[path := Entry(b, |content|, rules.digest(content))];
      bundles := bundles[b := bundles[b].(byteSize := bundles[b].byteSize + |content| - previousSize,
                                          accessedAt := now)];
    }

    method PutBytes(b: nat, path: Path, content: Bytes, protect: bool, verify: bool, enforce: bool, now: int,
                    arrivals: seq<seq<Arrival>>)
      returns (result: Result<int, PutError>)
      modifies this
      ensures var error := PutCheck(rules, path, content, verify);
              match result
              case Err(e) => error == Some(e) && View() == old(View())
              case Ok(etag) =>
                && error == None && etag == rules.digest(content)
                && var put := PutIndex(old(View()), rules, b, path, content, now, protect);
                   View() == if enforce then Evict(put, rules, now, Some(b), maxBytes, arrivals) else put
    {
      hide Evict, PutIndex;
      if content == [] {
        return Err(EmptyContent);
      }
      if verify && !rules.isImage(content) {
        return Err(NotAnImage);
      }
      if !rules.inside(path) {
        return Err(OutsideCache);
      }
      IndexContent(b, path, content, protect, now);
      if enforce {
        EvictOverLimit(Some(b), now, arrivals);
      }
      result := Ok(rules.digest(content));
    }

    method ReadIndexed(path: Path, protect: bool, verify: bool, now: int) returns (found: ReadResult)
      modifies this
      ensures found == ReadOf(old(View()), rules, path, verify)
      ensures View() == AfterRead(old(View()), rules, path, now, protect, verify)
    {
      if path !in entries {
        return Miss;
      }
      var row := entries[path];
      var content := if rules.inside(path) && path in files then files[path] else [];
      if content == [] || !row.Describes(rules, content) {
        entries := entries - {path};
        RecalculateBundle(row.bundle);
        return Miss;
      }
      if verify && !rules.isImage(content) {
        return BadImage;
      }
      if row.bundle in bundles {
        var until := if protect then now + READING_LEASE_SECONDS else 0;
        var bundle := bundles[row.bundle];
        bundles := bundles[row.bundle := bundle.(accessedAt := now,
                                                 protectedUntil := Max(bundle.protectedUntil, until))];
      }
      found := Hit(content, row.checksum);
    }

    method Delete(paths: seq<Path>)
      modifies this
      ensures View() == DeleteEntries(old(View()), rules, set p | p in paths)
    {
      var affected := DropEntries(paths);
      RecalculateBundles(affected);
    }

    /** Drops the entries and files of these paths and names the bundles they were in. */
    method DropEntries(paths: seq<Path>) returns (affected: set<nat>)
      modifies this
      ensures affected == Owners(old(entries), set p | p in paths) && bundles == old(bundles)
      ensures entries == old(entries) - set p | p in paths
      ensures files == map p | p in old(files)
                         && !(p in paths && p in old(entries) && rules.inside(p)) :: old(files)[p]
    {
      affected := {};
      for i := 0 to |paths|
        invariant bundles == old(bundles) && affected == Owners(old(entries), set p | p in paths[..i])
        invariant entries == old(entries) - set p | p in paths[..i]
        invariant files == map p | p in old(files)
                    && !(p in paths[..i] && p in old(entries) && rules.inside(p)) :: old(files)[p]
      {
        var path := paths[i];
        assert forall p :: p in paths[..i + 1] <==> p in paths[..i] || p == path;
        if path in entries {
          affected := affected + {entries[path].bundle};
          entries := entries - {path};
          if rules.inside(path) {
            files := files - {path};
          }
        }
      }
      assert paths[..|paths|] == paths;
    }

    method LeaseChapter(b: nat, now: int)
      modifies this
      ensures View() == LeaseBundle(old(View()), b, now)
    {
      if b in bundles {
        var until := Max(bundles[b].protectedUntil, now + READING_LEASE_SECONDS);
        bundles := bundles[b := bundles[b].(protectedUntil := until, accessedAt := now)];
      }
    }

    method EnsureChapterBundle(b: nat, now: int)
      modifies this
      ensures View() == EnsureBundle(old(View()), b, now)
    {
      if b in bundles {
        bundles := bundles[b := bundles[b].(accessedAt := Max(bundles[b].accessedAt, now))];
      } else {
        bundles := bundles[b := Bundle(0, now, 0, false)];
      }
    }

    method SetChapterActive(b: nat, active: bool, now: int)
      modifies this
      ensures View() == SetActive(old(View()), b, active, now)
    {
      EnsureChapterBundle(b, now);
      bundles := bundles[b := bundles[b].(active := active)];
    }

    method Remove(b: nat, now: int) returns (removed: bool)
      modifies this
      ensures View() == RemoveBundle(old(View()), rules, b, now)
      ensures removed == (b in old(bundles) && Removable(old(bundles)[b], now))
    {
      if b !in bundles || bundles[b].active || bundles[b].protectedUntil > now {
        return false;
      }
      var left := set p | p in entries && entries[p].bundle == b;
      while left != {}
        invariant bundles == old(bundles) && entries == old(entries)
        invariant left <= set p | p in entries && entries[p].bundle == b
        invariant files == map p | p in old(files)
                    && !(HasFile(old(View()), rules, b, p) && p !in left) :: old(files)[p]
        decreases |left|
      {
        var p :| p in left;
        if rules.inside(p) {
          files := files - {p};
        }
        left := left - {p};
      }
      bundles := bundles - {b};
      entries := map p | p in entries && entries[p].bundle != b :: entries[p];
      removed := true;
    }

    /** The least recently used bundle that nothing protects. */
    method Oldest(exclude: Option<nat>, now: int) returns (candidate: Option<nat>)
      ensures match candidate
              case Some(b) => IsCandidate(View(), now, exclude, b)
              case None => EligibleSet(View(), now, exclude) == {}
    {
      candidate := None;
      var left := bundles;
      while left != map[]
        invariant forall c :: c in left ==> c in bundles
        invariant candidate.Some? ==> candidate.value !in left && Eligible(View(), now, exclude, candidate.value)
        invariant forall c :: c in bundles && c !in left && Eligible(View(), now, exclude, c) ==>
                    candidate.Some? && (c == candidate.value || Older(View(), candidate.value, c))
        decreases |left|
      {
        var c :| c in left;
        var row := bundles[c];
        if !row.active && row.protectedUntil <= now && exclude != Some(c) {
          if candidate.None? || row.accessedAt < bundles[candidate.value].accessedAt
             || (row.accessedAt == bundles[candidate.value].accessedAt && c < candidate.value) {
            candidate := Some(c);
          }
        }
        left := left - {c};
      }
    }

    /** One pass at a fixed clock; `arrivals` is what others do during it, turn by turn. */
    method EvictOverLimit(exclude: Option<nat>, now: int, arrivals: seq<seq<Arrival>>)
      modifies this
      ensures View() == Evict(old(View()), rules, now, exclude, maxBytes, arrivals)
    {
      hide EligibleSet, IsCandidate, Used, RemoveBundle, ArriveAll;
      var coming := arrivals;
      var used := UsedBytes();
      while used > maxBytes
        invariant used == Used(View())
        invariant Evict(View(), rules, now, exclude, maxBytes, coming)
                    == Evict(old(View()), rules, now, exclude, maxBytes, arrivals)
        decreases |coming|, EligibleSet(View(), now, exclude)
      {
        ghost var before := View();
        var candidate := Oldest(exclude, now);
        if candidate.None? {
          return;
        }
        TurnOfCandidate(before, rules, now, exclude, maxBytes, coming, candidate.value);
        Interfere(Arriving(coming), now);
        var _ := Remove(candidate.value, now);
        coming := Later(coming);
        used := UsedBytes();
      }
    }

    /** What other requests do while the pass holds no lock. */
    method Interfere(arrivals: seq<Arrival>, now: int)
      modifies this
      ensures View() == ArriveAll(old(View()), arrivals, now)
    {
      for i := 0 to |arrivals|
        invariant ArriveAll(View(), arrivals[i..], now) == ArriveAll(old(View()), arrivals, now)
      {
        match arrivals[i] {
          case Leased(b) => LeaseChapter(b, now);
          case Activated(b, active) => SetChapterActive(b, active, now);
        }
      }
    }

    method RepairIndex()
      modifies this
      ensures View() == Reconcile(old(View()), rules)
    {
      hide Broken, Owners;
      var indexed := entries.Keys;
      var affected := DropBroken();
      ghost var dropped := View();
      RecalculateBundles(affected);
      SweepFiles(indexed);
    }

    /** Broken entries go, with their files; the result names the bundles to recount. */
    method DropBroken() returns (affected: set<nat>)
      modifies this
      ensures bundles == old(bundles) && affected == Owners(old(entries), Broken(old(View()), rules))
      ensures entries == old(entries) - Broken(old(View()), rules)
      ensures files == old(files) - Broken(old(View()), rules)
    {
      hide Broken, Owners, Entry.Describes;
      var rows := entries;
      var left := rows.Keys;
      affected := {};
      ghost var s := View();
      ghost var gone: set<Path> := {};
      NoOwners(s.entries);
      BrokenAreEntries(s, rules);
      while left != {}
        invariant left <= s.entries.Keys
        invariant forall p :: p in gone <==> p in Broken(s, rules) && p !in left
        invariant bundles == s.bundles && entries == s.entries - gone && files == s.files - gone
        invariant affected == Owners(s.entries, gone)
        decreases left
      {
        var p :| p in left;
        BrokenIs(s, rules, p);
        left := left - {p};
        if !(rules.inside(p) && p in files && rows[p].Describes(rules, files[p])) {
          OwnersGrow(s.entries, gone, p);
          OneMoreGone(s, gone, p);
          affected, entries, files := affected + {rows[p].bundle}, entries - {p}, files - {p};
          gone := gone + {p};
        }
      }
      assert gone == Broken(s, rules);
    }

    method SweepFiles(indexed: set<Path>)
      modifies this
      ensures bundles == old(bundles) && entries == old(entries)
      ensures files == map p | p in old(files) && p in indexed :: old(files)[p]
    {
      var present := files;
      while present != map[]
        invariant bundles == old(bundles) && entries == old(entries)
        invariant present.Keys <= files.Keys
        invariant forall p :: p in files && p !in present ==> p in indexed
        invariant (map p | p in files && p in indexed :: files[p]) == map p | p in old(files)
                    && p in indexed :: old(files)[p]
        decreases |present|
      {
        var p :| p in present;
        if p !in indexed {
          files := files - {p};
        }
        present := present - {p};
      }
      assert files == map p | p in files && p in indexed :: files[p];
    }
  }
}
