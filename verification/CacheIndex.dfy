/** The state of app/cache/storage.py as values: the index of cached files, the bundles they belong to
    and the files themselves, and what each operation does to them. */
module CacheIndex {
  import opened Common

  const READING_LEASE_SECONDS: int := 300

  type Bytes = seq<int>

  /** What the cache does not define itself: the checksum, the image decoder, and which paths stay
      inside its directory. */
  datatype Rules = Rules(digest: Bytes -> int, isImage: Bytes -> bool, inside: Path -> bool)

  /** Bundle keys are numbered in their lexicographic order. */
  datatype Bundle = Bundle(byteSize: int, accessedAt: int, protectedUntil: int, active: bool)

  datatype Entry = Entry(bundle: nat, size: nat, checksum: int) {
    predicate Describes(rules: Rules, content: Bytes) {
      |content| == size && rules.digest(content) == checksum
    }
  }

  datatype State = State(bundles: map<nat, Bundle>, entries: map<Path, Entry>, files: map<Path, Bytes>)

  // ---------------------------------------------------------------- sizes

  ghost function SumSizes(entries: map<Path, Entry>): nat {
    if entries == map[] then 0
    else
      var p :| p in entries;
      entries[p].size + SumSizes(entries - {p})
  }

  ghost function OfBundle(entries: map<Path, Entry>, b: nat): map<Path, Entry> {
    map p | p in entries && entries[p].bundle == b :: entries[p]
  }

  ghost function BundleBytes(entries: map<Path, Entry>, b: nat): nat {
    SumSizes(OfBundle(entries, b))
  }

  ghost function Used(s: State): nat {
    SumSizes(s.entries)
  }

  lemma {:induction false} SumRemove(entries: map<Path, Entry>, p: Path)
    requires p in entries
    ensures SumSizes(entries) == entries[p].size + SumSizes(entries - {p})
    decreases |entries|
  {
    var q :| q in entries && SumSizes(entries) == entries[q].size + SumSizes(entries - {q});
    if q != p {
      SumRemove(entries - {q}, p);
      SumRemove(entries - {p}, q);
      assert entries - {q} - {p} == entries - {p} - {q};
    }
  }

  lemma {:induction false} BytesRemove(entries: map<Path, Entry>, p: Path, b: nat)
    requires p in entries
    ensures BundleBytes(entries, b) == BundleBytes(entries - {p}, b)
              + if entries[p].bundle == b then entries[p].size else 0
  {
    if entries[p].bundle == b {
      SumRemove(OfBundle(entries, b), p);
      assert OfBundle(entries, b) - {p} == OfBundle(entries - {p}, b);
    } else {
      assert OfBundle(entries, b) == OfBundle(entries - {p}, b);
    }
  }

  // ---------------------------------------------------------------- operations

  function Deadline(now: int, protect: bool): int {
    if protect then now + READING_LEASE_SECONDS else 0
  }

  datatype PutError = EmptyContent | NotAnImage | OutsideCache

  function PutCheck(rules: Rules, path: Path, content: Bytes, verify: bool): Option<PutError> {
    if content == [] then Some(EmptyContent)
    else if verify && !rules.isImage(content) then Some(NotAnImage)
    else if !rules.inside(path) then Some(OutsideCache)
    else None
  }

  function PreviousSize(s: State, path: Path): nat {
    if path in s.entries then s.entries[path].size else 0
  }

  /** A bundle that is used now, and protected from now on if asked for. */
  function Touched(bundle: Bundle, now: int, protect: bool): Bundle {
    bundle.(accessedAt := now, protectedUntil := Max(bundle.protectedUntil, Deadline(now, protect)))
  }

  /** The index transaction of put_bytes, after the file is written. */
  function PutIndex(s: State, rules: Rules, b: nat, path: Path, content: Bytes, now: int, protect: bool): State {
    var bundle := if b in s.bundles then Touched(s.bundles[b], now, protect)
                  else Bundle(0, now, Deadline(now, protect), false);
    State(s.bundles[b := bundle.(byteSize := bundle.byteSize + |content| - PreviousSize(s, path))],
          s.entries[path := Entry(b, |content|, rules.digest(content))],
          s.files[path := content])
  }

  /** _recalculate_bundle for each of `bs`: a bundle without bytes is deleted. */
  ghost function Recalculate(s: State, bs: set<nat>): State {
    State(map b | b in s.bundles && !(b in bs && BundleBytes(s.entries, b) == 0) ::
            if b in bs then s.bundles[b].(byteSize := BundleBytes(s.entries, b)) else s.bundles[b],
          map p | p in s.entries && !(s.entries[p].bundle in bs && BundleBytes(s.entries, s.entries[p].bundle) == 0) ::
            s.entries[p],
          s.files)
  }

  /** Deleting a bundle row deletes its entries. */
  function DropBundle(s: State, b: nat): State {
    s.(bundles := s.bundles - {b}, entries := map p | p in s.entries && s.entries[p].bundle != b :: s.entries[p])
  }

  predicate Removable(bundle: Bundle, now: int) {
    !bundle.active && bundle.protectedUntil <= now
  }

  predicate HasFile(s: State, rules: Rules, b: nat, p: Path) {
    p in s.entries && s.entries[p].bundle == b && rules.inside(p)
  }

  /** _remove_bundle: refuses a bundle that is in use by now. */
  function RemoveBundle(s: State, rules: Rules, b: nat, now: int): State {
    if b !in s.bundles || !Removable(s.bundles[b], now) then s
    else DropBundle(s, b).(files := map p | p in s.files && !HasFile(s, rules, b, p) :: s.files[p])
  }

  /** delete_entries: only indexed paths are touched. */
  ghost function DeleteEntries(s: State, rules: Rules, paths: set<Path>): State {
    Recalculate(s.(entries := s.entries - paths,
                   files := map p | p in s.files && !(p in paths && p in s.entries && rules.inside(p)) :: s.files[p]),
                Owners(s.entries, paths))
  }

  function Owners(entries: map<Path, Entry>, paths: set<Path>): set<nat> {
    set p | p in paths && p in entries :: entries[p].bundle
  }

  function LeaseBundle(s: State, b: nat, now: int): State {
    if b !in s.bundles then s
    else s.(bundles := s.bundles[b := Touched(s.bundles[b], now, true)])
  }

  function EnsureBundle(s: State, b: nat, now: int): State {
    var bundle := if b in s.bundles then s.bundles[b].(accessedAt := Max(s.bundles[b].accessedAt, now))
                  else Bundle(0, now, 0, false);
    s.(bundles := s.bundles[b := bundle])
  }

  function SetActive(s: State, b: nat, active: bool, now: int): State {
    var t := EnsureBundle(s, b, now);
    t.(bundles := t.bundles[b := t.bundles[b].(active := active)])
  }

  // ---------------------------------------------------------------- reading

  /** The entry's file is there, with the size and checksum of the index. */
  predicate ValidEntry(s: State, rules: Rules, p: Path)
    requires p in s.entries
  {
    rules.inside(p) && p in s.files && s.entries[p].Describes(rules, s.files[p])
  }

  datatype ReadResult = Miss | BadImage | Hit(content: Bytes, checksum: int)

  /** A file that cannot be read, or is empty, counts as missing. */
  function ReadOf(s: State, rules: Rules, p: Path, verify: bool): ReadResult {
    if p !in s.entries || !ValidEntry(s, rules, p) || s.files[p] == [] then Miss
    else if verify && !rules.isImage(s.files[p]) then BadImage
    else Hit(s.files[p], s.entries[p].checksum)
  }

  ghost function AfterRead(s: State, rules: Rules, p: Path, now: int, protect: bool, verify: bool): State {
    if p !in s.entries then s
    else
      var b := s.entries[p].bundle;
      match ReadOf(s, rules, p, verify)
      case Miss => Recalculate(s.(entries := s.entries - {p}), {b})
      case BadImage => s
      case Hit(_, _) =>
        if b !in s.bundles then s
        else s.(bundles := s.bundles[b := Touched(s.bundles[b], now, protect)])
  }

  // ---------------------------------------------------------------- start-up

  ghost function Broken(s: State, rules: Rules): set<Path> {
    set p | p in s.entries && !ValidEntry(s, rules, p)
  }

  ghost function Reconcile(s: State, rules: Rules): State {
    var broken := Broken(s, rules);
    Recalculate(State(s.bundles, s.entries - broken,
                      map p | p in s.files && p in s.entries && p !in broken :: s.files[p]),
                Owners(s.entries, broken))
  }

  // ---------------------------------------------------------------- eviction

  /** The order of eviction: least recently used first, then by key. */
  predicate Older(s: State, b: nat, c: nat)
    requires b in s.bundles && c in s.bundles
  {
    s.bundles[b].accessedAt < s.bundles[c].accessedAt || (s.bundles[b].accessedAt == s.bundles[c].accessedAt && b < c)
  }

  predicate Eligible(s: State, now: int, exclude: Option<nat>, b: nat) {
    b in s.bundles && Removable(s.bundles[b], now) && exclude != Some(b)
  }

  ghost predicate IsCandidate(s: State, now: int, exclude: Option<nat>, b: nat) {
    Eligible(s, now, exclude, b) && forall c :: c in s.bundles && Eligible(s, now, exclude, c) && c != b ==>
      Older(s, b, c)
  }

  ghost function EligibleSet(s: State, now: int, exclude: Option<nat>): set<nat> {
    set b | b in s.bundles && Eligible(s, now, exclude, b)
  }

  /** What other requests do between the choice of a candidate and its removal: a reader leases a bundle, or
      translation of a chapter begins or ends. */
  datatype Arrival = Leased(b: nat) | Activated(b: nat, active: bool)

  function Arrive(s: State, arrival: Arrival, now: int): State {
    match arrival
    case Leased(b) => LeaseBundle(s, b, now)
    case Activated(b, active) => SetActive(s, b, active, now)
  }

  function ArriveAll(s: State, arrivals: seq<Arrival>, now: int): State
    decreases |arrivals|
  {
    if arrivals == [] then s else ArriveAll(Arrive(s, arrivals[0], now), arrivals[1..], now)
  }

  /** What arrives in the first of the turns, and in those after it. */
  function Arriving(arrivals: seq<seq<Arrival>>): seq<Arrival> {
    if arrivals == [] then [] else arrivals[0]
  }

  function Later(arrivals: seq<seq<Arrival>>): seq<seq<Arrival>> {
    if arrivals == [] then [] else arrivals[1..]
  }

  /** A pass of _evict_over_limit goes on while the cache is over its limit and has a candidate. */
  ghost predicate GoesOn(s: State, now: int, exclude: Option<nat>, limit: int) {
    Used(s) > limit && EligibleSet(s, now, exclude) != {}
  }

  /** One turn: the candidate `b` is chosen, others interfere, then it is removed unless they protect it. */
  function Turn(s: State, rules: Rules, now: int, b: nat, arrivals: seq<Arrival>): State {
    RemoveBundle(ArriveAll(s, arrivals, now), rules, b, now)
  }

  /** A whole pass. Once nobody interferes any more, every turn takes its candidate out of the eligible bundles. */
  ghost function Evict(s: State, rules: Rules, now: int, exclude: Option<nat>, limit: int,
                       arrivals: seq<seq<Arrival>>): State
    decreases |arrivals|, EligibleSet(s, now, exclude)
  {
    if !GoesOn(s, now, exclude, limit) then s
    else
      CandidateExists(s, now, exclude);
      var b :| IsCandidate(s, now, exclude, b);
      TurnShrinks(s, rules, now, exclude, b);
      Evict(Turn(s, rules, now, b, Arriving(arrivals)), rules, now, exclude, limit, Later(arrivals))
  }

  lemma {:induction false} CandidateExists(s: State, now: int, exclude: Option<nat>)
    requires EligibleSet(s, now, exclude) != {}
    ensures exists b :: IsCandidate(s, now, exclude, b)
  {
    var best :| best in EligibleSet(s, now, exclude);
    var seen, rest := {best}, EligibleSet(s, now, exclude) - {best};
    while rest != {}
      invariant Eligible(s, now, exclude, best)
      invariant seen + rest == EligibleSet(s, now, exclude)
      invariant forall c :: c in seen && c in s.bundles && c != best ==> Older(s, best, c)
      decreases rest
    {
      var c :| c in rest;
      if Older(s, c, best) {
        best := c;
      }
      seen, rest := seen + {c}, rest - {c};
    }
    forall c | c in s.bundles && Eligible(s, now, exclude, c) && c != best
      ensures Older(s, best, c)
    {
      assert c in seen + rest;
    }
    assert IsCandidate(s, now, exclude, best);
  }

  /** Interference leaves entries and files alone, removes no bundle, shortens no lease, and new bundles are empty. */
  ghost predicate Undisturbed(s: State, t: State) {
    && t.entries == s.entries && t.files == s.files && s.bundles.Keys <= t.bundles.Keys
    && (forall b :: b in s.bundles ==>
          t.bundles[b].byteSize == s.bundles[b].byteSize && t.bundles[b].protectedUntil >= s.bundles[b].protectedUntil)
    && (forall b :: b in t.bundles && b !in s.bundles ==> t.bundles[b].byteSize == 0)
  }

  lemma {:induction false} ArrivalsDisturbNothing(s: State, arrivals: seq<Arrival>, now: int)
    ensures Undisturbed(s, ArriveAll(s, arrivals, now))
    decreases |arrivals|
  {
    if arrivals != [] {
      ArrivalsDisturbNothing(Arrive(s, arrivals[0], now), arrivals[1..], now);
    }
  }

  /** Every undisturbed turn takes the chosen bundle out of the eligible ones: passes end. */
  lemma {:induction false} TurnShrinks(s: State, rules: Rules, now: int, exclude: Option<nat>, b: nat)
    requires Eligible(s, now, exclude, b)
    ensures EligibleSet(Turn(s, rules, now, b, []), now, exclude) < EligibleSet(s, now, exclude)
  {
    assert b in EligibleSet(s, now, exclude) && b !in EligibleSet(Turn(s, rules, now, b, []), now, exclude);
  }
}
