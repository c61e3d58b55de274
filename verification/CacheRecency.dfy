/** That the cache of app/cache/storage.py goes by use: a history of uses, leases and task flags, kept beside the
    cache, decides which bundles are protected and which a pass of its eviction may remove. */
module CacheRecency {
  import opened Common
  import opened CacheIndex
  import opened CacheEviction
  import opened CacheAccounting

  // ---------------------------------------------------------------- the history of uses

  /** What has been done with a bundle since it was created: its last use, the end of its longest lease, and whether a
      task is at work on it. */
  datatype Mark = Mark(used: int, leasedUntil: int, atWork: bool)

  /** A bundle is used, and leased for 300 seconds if asked for. */
  function Use(marks: map<nat, Mark>, b: nat, now: int, lease: bool): map<nat, Mark> {
    var before := if b in marks then marks[b] else Mark(now, 0, false);
    marks[b := Mark(now, if lease then Max(before.leasedUntil, now + 300) else before.leasedUntil, before.atWork)]
  }

  /** Work on a bundle begins or ends, which is a use too. */
  function Flagged(marks: map<nat, Mark>, b: nat, now: int, atWork: bool): map<nat, Mark> {
    marks[b := Mark(now, if b in marks then marks[b].leasedUntil else 0, atWork)]
  }

  /** Only bundles that exist are remembered, and only such are leased on their own. */
  function Among(marks: map<nat, Mark>, bundles: set<nat>): map<nat, Mark> {
    map b | b in marks && b in bundles :: marks[b]
  }

  function Met(marks: map<nat, Mark>, arrivals: seq<Arrival>, now: int): map<nat, Mark>
    decreases |arrivals|
  {
    if arrivals == [] then marks
    else
      Met(match arrivals[0]
          case Leased(b) => if b in marks then Use(marks, b, now, true) else marks
          case Activated(b, atWork) => Flagged(marks, b, now, atWork), arrivals[1..], now)
  }

  /** The history after a pass: what arrives in the turns that it takes, and nothing of what it removes. */
  ghost function AfterPass(s: State, rules: Rules, now: int, exclude: Option<nat>, limit: int,
                           arrivals: seq<seq<Arrival>>, marks: map<nat, Mark>): map<nat, Mark>
    decreases |arrivals|, EligibleSet(s, now, exclude)
  {
    if !GoesOn(s, now, exclude, limit) then marks
    else
      CandidateExists(s, now, exclude);
      var b :| IsCandidate(s, now, exclude, b);
      TurnShrinks(s, rules, now, exclude, b);
      var t := Turn(s, rules, now, b, Arriving(arrivals));
      AfterPass(t, rules, now, exclude, limit, Later(arrivals),
                Among(Met(marks, Arriving(arrivals), now), t.bundles.Keys))
  }

  /** The history after a step: a put uses its bundle, a hit the one that holds the file, a lease and a task flag
      theirs. */
  ghost function AfterStep(s: State, rules: Rules, limit: int, step: Step, now: int, arrivals: seq<seq<Arrival>>,
                           marks: map<nat, Mark>): map<nat, Mark> {
    match step
    case Put(b, path, content, lease, verify, enforce) =>
      if PutCheck(rules, path, content, verify).Some? then marks
      else
        var put := PutIndex(s, rules, b, path, content, now, lease);
        if enforce then AfterPass(put, rules, now, Some(b), limit, arrivals, Use(marks, b, now, lease))
        else Use(marks, b, now, lease)
    case Read(path, lease, verify) =>
      if ReadOf(s, rules, path, verify).Hit? then
        if s.entries[path].bundle in marks then Use(marks, s.entries[path].bundle, now, lease) else marks
      else Among(marks, Next(s, rules, limit, step, now, arrivals).bundles.Keys)
    case Lease(b) => if b in marks then Use(marks, b, now, true) else marks
    case Activate(b, atWork) => Flagged(marks, b, now, atWork)
    case EnforceLimit => AfterPass(s, rules, now, None, limit, arrivals, marks)
    case _ => Among(marks, Next(s, rules, limit, step, now, arrivals).bundles.Keys)
  }

  /** The history of a run. */
  ghost function History(s: State, rules: Rules, limit: int, events: seq<Event>, marks: map<nat, Mark>): map<nat, Mark>
    decreases |events|
  {
    if |events| == 0 then marks
    else
      var e := events[0];
      History(Next(s, rules, limit, e.step, e.now, e.arrivals), rules, limit, events[1..],
              AfterStep(s, rules, limit, e.step, e.now, e.arrivals, marks))
  }

  /** The index knows the history of every bundle that exists, and nothing in it is later than the clock. */
  ghost predicate Tracks(s: State, marks: map<nat, Mark>, clock: int) {
    && marks.Keys == s.bundles.Keys
    && forall b :: b in s.bundles ==>
         && marks[b] == Mark(s.bundles[b].accessedAt, s.bundles[b].protectedUntil, s.bundles[b].active)
         && marks[b].used <= clock && marks[b].leasedUntil >= 0
  }

  ghost predicate ClockRuns(events: seq<Event>, clock: int)
    decreases |events|
  {
    |events| == 0 || (clock <= events[0].now && ClockRuns(events[1..], events[0].now))
  }

  ghost function ClockAfter(events: seq<Event>, clock: int): int
    decreases |events|
  {
    if |events| == 0 then clock else ClockAfter(events[1..], events[0].now)
  }

  /** The bundles that these requests lease, or begin or end work on. */
  function Named(arrivals: seq<Arrival>): set<nat> {
    set a | a in arrivals :: a.b
  }

  /** The bundles that are named while the pass works: by what arrives in the turns that it takes. */
  ghost function NamedInPass(s: State, rules: Rules, now: int, exclude: Option<nat>, limit: int,
                             arrivals: seq<seq<Arrival>>): set<nat>
    decreases |arrivals|, EligibleSet(s, now, exclude)
  {
    if !GoesOn(s, now, exclude, limit) then {}
    else
      CandidateExists(s, now, exclude);
      var b :| IsCandidate(s, now, exclude, b);
      TurnShrinks(s, rules, now, exclude, b);
      Named(Arriving(arrivals))
      + NamedInPass(Turn(s, rules, now, b, Arriving(arrivals)), rules, now, exclude, limit, Later(arrivals))
  }

  // ---------------------------------------------------------------- the index knows the history

  lemma {:induction false} ArrivalsTrack(s: State, arrivals: seq<Arrival>, now: int, marks: map<nat, Mark>)
    requires Tracks(s, marks, now) && now >= 0
    ensures Tracks(ArriveAll(s, arrivals, now), Met(marks, arrivals, now), now)
    decreases |arrivals|
  {
    if arrivals != [] {
      var m := match arrivals[0]
        case Leased(b) => if b in marks then Use(marks, b, now, true) else marks
        case Activated(b, atWork) => Flagged(marks, b, now, atWork);
      ArrivalTracks(s, arrivals[0], now, marks, m);
      hide Tracks;
      ArrivalsTrack(Arrive(s, arrivals[0], now), arrivals[1..], now, m);
    }
  }

  lemma ArrivalTracks(s: State, arrival: Arrival, now: int, marks: map<nat, Mark>, m: map<nat, Mark>)
    requires Tracks(s, marks, now) && now >= 0
    requires m == match arrival
                  case Leased(b) => if b in marks then Use(marks, b, now, true) else marks
                  case Activated(b, atWork) => Flagged(marks, b, now, atWork)
    ensures Tracks(Arrive(s, arrival, now), m, now)
  {
  }

  lemma {:induction false} TurnTracks(s: State, rules: Rules, now: int, c: nat, arrivals: seq<Arrival>,
                                      marks: map<nat, Mark>)
    requires Tracks(s, marks, now) && now >= 0
    ensures var t := Turn(s, rules, now, c, arrivals);
            Tracks(t, Among(Met(marks, arrivals, now), t.bundles.Keys), now)
  {
    ArrivalsTrack(s, arrivals, now, marks);
    hide ArriveAll, Met;
  }

  lemma CandidateIsUnique(s: State, now: int, exclude: Option<nat>, c: nat, d: nat)
    requires IsCandidate(s, now, exclude, c) && IsCandidate(s, now, exclude, d)
    ensures c == d
  {
  }

  /** The first turn of a pass, as seen by the pass and by its histories. */
  lemma PassTurn(s: State, rules: Rules, now: int, exclude: Option<nat>, limit: int, arrivals: seq<seq<Arrival>>,
                 marks: map<nat, Mark>)
    returns (c: nat)
    requires GoesOn(s, now, exclude, limit)
    ensures IsCandidate(s, now, exclude, c)
    ensures var t := Turn(s, rules, now, c, Arriving(arrivals));
            && (|Later(arrivals)| < |arrivals|
                || (arrivals == [] && EligibleSet(t, now, exclude) < EligibleSet(s, now, exclude)))
            && Evict(s, rules, now, exclude, limit, arrivals) == Evict(t, rules, now, exclude, limit, Later(arrivals))
            && NamedInPass(s, rules, now, exclude, limit, arrivals)
               == Named(Arriving(arrivals)) + NamedInPass(t, rules, now, exclude, limit, Later(arrivals))
            && AfterPass(s, rules, now, exclude, limit, arrivals, marks)
               == AfterPass(t, rules, now, exclude, limit, Later(arrivals),
                            Among(Met(marks, Arriving(arrivals), now), t.bundles.Keys))
  {
    c := EvictTurn(s, rules, now, exclude, limit, arrivals);
    var d :| IsCandidate(s, now, exclude, d)
          && NamedInPass(s, rules, now, exclude, limit, arrivals)
             == Named(Arriving(arrivals))
                + NamedInPass(Turn(s, rules, now, d, Arriving(arrivals)), rules, now, exclude, limit, Later(arrivals));
    CandidateIsUnique(s, now, exclude, c, d);
    var e :| IsCandidate(s, now, exclude, e)
          && AfterPass(s, rules, now, exclude, limit, arrivals, marks)
             == AfterPass(Turn(s, rules, now, e, Arriving(arrivals)), rules, now, exclude, limit, Later(arrivals),
                          Among(Met(marks, Arriving(arrivals), now),
                                Turn(s, rules, now, e, Arriving(arrivals)).bundles.Keys));
    CandidateIsUnique(s, now, exclude, c, e);
  }

  lemma {:induction false} PassTracks(s: State, rules: Rules, now: int, exclude: Option<nat>, limit: int,
                                      arrivals: seq<seq<Arrival>>, marks: map<nat, Mark>)
    requires Tracks(s, marks, now) && now >= 0
    ensures Tracks(Evict(s, rules, now, exclude, limit, arrivals),
                   AfterPass(s, rules, now, exclude, limit, arrivals, marks), now)
    decreases |arrivals|, EligibleSet(s, now, exclude)
  {
    if GoesOn(s, now, exclude, limit) {
      var c := PassTurn(s, rules, now, exclude, limit, arrivals, marks);
      hide Turn, Tracks, IsCandidate, EligibleSet, GoesOn, Evict, AfterPass;
      TurnTracks(s, rules, now, c, Arriving(arrivals), marks);
      var t := Turn(s, rules, now, c, Arriving(arrivals));
      PassTracks(t, rules, now, exclude, limit, Later(arrivals),
                 Among(Met(marks, Arriving(arrivals), now), t.bundles.Keys));
    }
  }

  lemma {:induction false} StepTracks(s: State, rules: Rules, limit: int, step: Step, now: int,
                                      arrivals: seq<seq<Arrival>>, marks: map<nat, Mark>)
    requires Tracks(s, marks, now) && now >= 0
    ensures Tracks(Next(s, rules, limit, step, now, arrivals),
                   AfterStep(s, rules, limit, step, now, arrivals, marks), now)
  {
    hide Evict, AfterPass, BundleBytes;
    match step
    case Put(b, path, content, protect, verify, enforce) =>
      if PutCheck(rules, path, content, verify).None? {
        IndexingTracks(s, rules, b, path, content, now, protect, marks);
        hide PutIndex, Tracks, PutCheck;
        PassTracks(PutIndex(s, rules, b, path, content, now, protect), rules, now, Some(b), limit, arrivals,
                   Use(marks, b, now, protect));
      }
    case EnforceLimit => PassTracks(s, rules, now, None, limit, arrivals, marks);
    case Lease(b) =>
    case Activate(b, _) =>
    case Read(_, _, _) => ReadTracks(s, rules, limit, step, now, arrivals, marks);
    case _ => DroppingTracks(s, rules, limit, step, now, arrivals, marks);
  }

  lemma ReadTracks(s: State, rules: Rules, limit: int, step: Step, now: int, arrivals: seq<seq<Arrival>>,
                   marks: map<nat, Mark>)
    requires Tracks(s, marks, now) && now >= 0 && step.Read?
    ensures Tracks(Next(s, rules, limit, step, now, arrivals),
                   AfterStep(s, rules, limit, step, now, arrivals, marks), now)
  {
    hide BundleBytes;
  }

  lemma DroppingTracks(s: State, rules: Rules, limit: int, step: Step, now: int, arrivals: seq<seq<Arrival>>,
                       marks: map<nat, Mark>)
    requires Tracks(s, marks, now) && (step.Delete? || step.Remove? || step.Restart? || step.Meddle?)
    ensures Tracks(Next(s, rules, limit, step, now, arrivals),
                   AfterStep(s, rules, limit, step, now, arrivals, marks), now)
  {
    hide BundleBytes, Broken;
  }

  lemma IndexingTracks(s: State, rules: Rules, b: nat, path: Path, content: Bytes, now: int, lease: bool,
                       marks: map<nat, Mark>)
    requires Tracks(s, marks, now) && now >= 0
    ensures Tracks(PutIndex(s, rules, b, path, content, now, lease), Use(marks, b, now, lease), now)
  {
  }

  lemma TracksLater(s: State, marks: map<nat, Mark>, clock: int, now: int)
    requires Tracks(s, marks, clock) && clock <= now
    ensures Tracks(s, marks, now)
  {
  }

  /** Over every run with a clock that does not go back, the index knows the history of every bundle. */
  lemma {:induction false} RunTracks(s: State, rules: Rules, limit: int, events: seq<Event>, marks: map<nat, Mark>,
                                     clock: int)
    requires Tracks(s, marks, clock) && ClockRuns(events, clock) && clock >= 0
    ensures Tracks(After(s, rules, limit, events), History(s, rules, limit, events, marks), ClockAfter(events, clock))
    ensures clock <= ClockAfter(events, clock)
    decreases |events|
  {
    hide Tracks, Next, AfterStep;
    if |events| > 0 {
      var e := events[0];
      TracksLater(s, marks, clock, e.now);
      StepTracks(s, rules, limit, e.step, e.now, e.arrivals, marks);
      RunTracks(Next(s, rules, limit, e.step, e.now, e.arrivals), rules, limit, events[1..],
                AfterStep(s, rules, limit, e.step, e.now, e.arrivals, marks), e.now);
    }
  }

  /** A bundle can be removed if and only if no task is at work on it and every lease of it is over. */
  lemma {:induction false} RemovableIff(rules: Rules, limit: int, events: seq<Event>, now: int, b: nat)
    requires ClockRuns(events, 0) && b in After(Nothing(), rules, limit, events).bundles
    ensures var s, marks := After(Nothing(), rules, limit, events), History(Nothing(), rules, limit, events, map[]);
            && b in marks
            && (RemoveBundle(s, rules, b, now) != s <==> !marks[b].atWork && marks[b].leasedUntil <= now)
  {
    RunTracks(Nothing(), rules, limit, events, map[], 0);
    hide After, History;
    var s := After(Nothing(), rules, limit, events);
    assert b !in DropBundle(s, b).bundles;
  }

  // ---------------------------------------------------------------- least recently used goes first

  /** What is not named is left as it is by what arrives. */
  lemma {:induction false} UnnamedIsLeft(s: State, arrivals: seq<Arrival>, now: int, c: nat)
    requires c !in Named(arrivals)
    ensures var t := ArriveAll(s, arrivals, now);
            (c in t.bundles <==> c in s.bundles) && (c in s.bundles ==> t.bundles[c] == s.bundles[c])
    decreases |arrivals|
  {
    if arrivals != [] {
      assert arrivals[0] in arrivals && forall a :: a in arrivals[1..] ==> a in arrivals;
      UnnamedIsLeft(Arrive(s, arrivals[0], now), arrivals[1..], now, c);
    }
  }

  /** A bundle that is not used in a turn is left as it is, or removed as the candidate. */
  lemma {:induction false} UnusedInTurn(s: State, rules: Rules, now: int, c: nat, arrivals: seq<Arrival>, b: nat)
    requires b !in Named(arrivals)
    ensures var t := Turn(s, rules, now, c, arrivals);
            && (b in t.bundles ==> b in s.bundles && t.bundles[b] == s.bundles[b])
            && (b in s.bundles && b != c ==> b in t.bundles)
  {
    UnnamedIsLeft(s, arrivals, now, b);
    hide ArriveAll;
  }

  /** A bundle that is gone and is not used does not come back. */
  lemma {:induction false} GoneStaysGone(s: State, rules: Rules, now: int, exclude: Option<nat>, limit: int,
                                         arrivals: seq<seq<Arrival>>, b: nat)
    requires b !in s.bundles && b !in NamedInPass(s, rules, now, exclude, limit, arrivals)
    ensures b !in Evict(s, rules, now, exclude, limit, arrivals).bundles
    decreases |arrivals|, EligibleSet(s, now, exclude)
  {
    if GoesOn(s, now, exclude, limit) {
      var c := PassTurn(s, rules, now, exclude, limit, arrivals, map[]);
      UnusedInTurn(s, rules, now, c, Arriving(arrivals), b);
      hide Turn, IsCandidate, EligibleSet, GoesOn, Evict, NamedInPass;
      GoneStaysGone(Turn(s, rules, now, c, Arriving(arrivals)), rules, now, exclude, limit, Later(arrivals), b);
    }
  }

  lemma {:induction false} UnnamedKeepsMark(marks: map<nat, Mark>, arrivals: seq<Arrival>, now: int, c: nat)
    requires c !in Named(arrivals) && c in marks
    ensures var m := Met(marks, arrivals, now); c in m && m[c] == marks[c]
    decreases |arrivals|
  {
    if arrivals != [] {
      assert arrivals[0] in arrivals && forall a :: a in arrivals[1..] ==> a in arrivals;
      UnnamedKeepsMark(match arrivals[0]
                       case Leased(b) => if b in marks then Use(marks, b, now, true) else marks
                       case Activated(b, atWork) => Flagged(marks, b, now, atWork), arrivals[1..], now, c);
    }
  }

  lemma {:induction false} UsesGoForward(marks: map<nat, Mark>, arrivals: seq<Arrival>, now: int, b: nat)
    requires b in marks && forall c :: c in marks ==> marks[c].used <= now
    ensures var m := Met(marks, arrivals, now); b in m && marks[b].used <= m[b].used
    decreases |arrivals|
  {
    if arrivals != [] {
      UsesGoForward(match arrivals[0]
                    case Leased(b) => if b in marks then Use(marks, b, now, true) else marks
                    case Activated(b, atWork) => Flagged(marks, b, now, atWork), arrivals[1..], now, b);
    }
  }

  /** Removal goes by the last use: a bundle that the pass removes was used before every bundle that could have
      been removed instead and is left, or at the same time and has the smaller key, unless it is used while the
      pass works. */
  lemma {:induction false} LeastRecentlyUsedGoes(s: State, rules: Rules, now: int, exclude: Option<nat>, limit: int,
                                                 arrivals: seq<seq<Arrival>>, marks: map<nat, Mark>, b: nat, c: nat)
    requires Tracks(s, marks, now) && now >= 0 && Eligible(s, now, exclude, c)
    requires c !in NamedInPass(s, rules, now, exclude, limit, arrivals)
    requires c in Evict(s, rules, now, exclude, limit, arrivals).bundles
    requires b in s.bundles && b !in Evict(s, rules, now, exclude, limit, arrivals).bundles
    ensures marks[b].used <= marks[c].used
    ensures b in NamedInPass(s, rules, now, exclude, limit, arrivals) || marks[b].used < marks[c].used || b < c
    decreases |arrivals|, EligibleSet(s, now, exclude)
  {
    if GoesOn(s, now, exclude, limit) {
      var e := PassTurn(s, rules, now, exclude, limit, arrivals, marks);
      var arriving := Arriving(arrivals);
      var t := Turn(s, rules, now, e, arriving);
      var m := Met(marks, arriving, now);
      TurnTracks(s, rules, now, e, arriving, marks);
      UnusedInTurn(s, rules, now, e, arriving, c);
      UnnamedKeepsMark(marks, arriving, now, c);
      UsesGoForward(marks, arriving, now, b);
      if b !in Named(arriving) {
        UnnamedKeepsMark(marks, arriving, now, b);
      }
      if c !in t.bundles {
        GoneStaysGone(t, rules, now, exclude, limit, Later(arrivals), c);
      }
      if b in t.bundles {
        hide Evict, Turn, NamedInPass, AfterPass, GoesOn, Met, EligibleSet;
        LeastRecentlyUsedGoes(t, rules, now, exclude, limit, Later(arrivals), Among(m, t.bundles.Keys), b, c);
      } else {
        GoneIsCandidate(s, rules, now, e, arriving, b);
      }
    }
  }

  lemma GoneIsCandidate(s: State, rules: Rules, now: int, c: nat, arrivals: seq<Arrival>, b: nat)
    requires b in s.bundles && b !in Turn(s, rules, now, c, arrivals).bundles
    ensures b == c
  {
    ArrivalsDisturbNothing(s, arrivals, now);
    hide ArriveAll;
  }

  /** Over every run from an empty cache, with a clock that does not go back: no pass removes a bundle while one that
      could be removed, and was used less recently, is left. */
  lemma {:induction false} EvictionIsLeastRecentlyUsed(rules: Rules, limit: int, events: seq<Event>, now: int,
                                                       exclude: Option<nat>, arrivals: seq<seq<Arrival>>, b: nat,
                                                       c: nat)
    requires ClockRuns(events, 0) && ClockAfter(events, 0) <= now
    requires var s := After(Nothing(), rules, limit, events);
             && Eligible(s, now, exclude, c) && c !in NamedInPass(s, rules, now, exclude, limit, arrivals)
             && c in Evict(s, rules, now, exclude, limit, arrivals).bundles
             && b in s.bundles && b !in Evict(s, rules, now, exclude, limit, arrivals).bundles
    ensures var marks := History(Nothing(), rules, limit, events, map[]);
            b in marks && c in marks && marks[b].used <= marks[c].used
  {
    RunTracks(Nothing(), rules, limit, events, map[], 0);
    var s, marks := After(Nothing(), rules, limit, events), History(Nothing(), rules, limit, events, map[]);
    TracksLater(s, marks, ClockAfter(events, 0), now);
    hide After, History, Evict, NamedInPass;
    LeastRecentlyUsedGoes(s, rules, now, exclude, limit, arrivals, marks, b, c);
  }
}
