/** The class TranslationRepository of app/repositories/translation.py, over the generations and layers of
    one chapter. Each method is proved to have the effect that SegmentRows and PageLayers describe. */
module TranslationRepositories {
  import opened Common
  import opened SegmentPlanner
  import opened SegmentRows
  import opened SegmentInvariants
  import opened CheckpointRecovery
  import opened PageLayers

  // ---------------------------------------------------------------- what retries return

  datatype Column = OcrPath | BlocksPath | TranslationsPath | TranslatedPath

  function Stored(row: Row, column: Column): Option<Path> {
    match column
    case OcrPath => row.ocrPath
    case BlocksPath => row.blocksPath
    case TranslationsPath => row.translationsPath
    case TranslatedPath => row.translatedPath
  }

  /** The columns that a retry clears. */
  function Cleared(from: ClearFrom): seq<Column> {
    match from
    case FromOcr => [OcrPath, BlocksPath, TranslationsPath, TranslatedPath]
    case FromTranslations => [TranslationsPath, TranslatedPath]
    case FromTranslated => [TranslatedPath]
  }

  function PathsIn(row: Row, columns: seq<Column>): seq<Path>
    decreases |columns|
  {
    if columns == [] then []
    else (if Stored(row, columns[0]).Some? then [Stored(row, columns[0]).value] else []) + PathsIn(row, columns[1..])
  }

  function WithColumn(row: Row, column: Column, path: Option<Path>): Row {
    match column
    case OcrPath => row.(ocrPath := path)
    case BlocksPath => row.(blocksPath := path)
    case TranslationsPath => row.(translationsPath := path)
    case TranslatedPath => row.(translatedPath := path)
  }

  function WithoutColumn(row: Row, column: Column): Row {
    WithColumn(row, column, None)
  }

  function Emptied(row: Row, columns: seq<Column>): Row
    decreases |columns|
  {
    if columns == [] then row else Emptied(WithoutColumn(row, columns[0]), columns[1..])
  }

  lemma PathsInNext(row: Row, columns: seq<Column>)
    ensures PathsIn(row, columns)
         == if columns == [] then []
            else
              var here := if Stored(row, columns[0]).Some? then [Stored(row, columns[0]).value] else [];
              here + PathsIn(row, columns[1..])
  {
  }

  lemma ClearedRow(row: Row, from: ClearFrom)
    ensures Emptied(row, Cleared(from))
         == RetriedRow(row, from, false).(status := row.status, errorStage := row.errorStage, version := row.version)
  {
    var a := WithoutColumn(row, OcrPath);
    var b := WithoutColumn(a, BlocksPath);
    var c := WithoutColumn(if from.FromOcr? then b else row, TranslationsPath);
    var d := WithoutColumn(if from.FromTranslated? then row else c, TranslatedPath);
    EmptiedNext(row, OcrPath, [BlocksPath, TranslationsPath, TranslatedPath]);
    EmptiedNext(a, BlocksPath, [TranslationsPath, TranslatedPath]);
    EmptiedNext(if from.FromOcr? then b else row, TranslationsPath, [TranslatedPath]);
    EmptiedNext(if from.FromTranslated? then row else c, TranslatedPath, []);
    assert Emptied(d, []) == d;
  }

  lemma EmptiedNext(row: Row, column: Column, rest: seq<Column>)
    ensures Emptied(row, [column] + rest) == Emptied(WithoutColumn(row, column), rest)
  {
    assert ([column] + rest)[1..] == rest;
  }

  /** The checkpoints that a retry of all failed segments forgets, in global order. */
  function Forgotten(rows: seq<Row>): seq<Path> {
    if rows == [] then []
    else
      var row := rows[|rows| - 1];
      Forgotten(rows[..|rows| - 1])
        + if row.status == Failed then PathsIn(row, Cleared(RetryClears(FailedStage(row)))) else []
  }

  /** The retry forgets p: it was the value of a column of a failed segment that is empty afterwards. */
  ghost predicate ForgetsAt(row: Row, p: Path) {
    row.status == Failed && exists c: Column :: Stored(row, c) == Some(p) && Stored(Retried(row), c) == None
  }

  lemma {:induction false} PathsInColumns(row: Row, columns: seq<Column>, p: Path)
    ensures p in PathsIn(row, columns) <==> exists c :: c in columns && Stored(row, c) == Some(p)
    decreases |columns|
  {
    if columns != [] {
      PathsInColumns(row, columns[1..], p);
      assert forall c :: c in columns <==> c == columns[0] || c in columns[1..];
    }
  }

  lemma ClearedColumnsAreEmpty(row: Row, c: Column)
    ensures Stored(Retried(row), c) == if c in Cleared(RetryClears(FailedStage(row))) then None else Stored(row, c)
  {
  }

  /** The paths a retry returns, for deletion from the cache, are exactly those that no column holds any more
      although a failed segment's did. */
  lemma {:induction false} RetryReturnsForgotten(rows: seq<Row>, p: Path)
    ensures p in Forgotten(rows) <==> exists k :: 0 <= k < |rows| && ForgetsAt(rows[k], p)
  {
    hide ForgetsAt, PathsIn, Cleared;
    if rows != [] {
      var n := |rows| - 1;
      RetryReturnsForgotten(rows[..n], p);
      assert forall k :: 0 <= k < n ==> rows[..n][k] == rows[k];
      ForgetsWhatItClears(rows[n], p);
    }
  }

  lemma ForgetsWhatItClears(row: Row, p: Path)
    ensures ForgetsAt(row, p) <==> row.status == Failed && p in PathsIn(row, Cleared(RetryClears(FailedStage(row))))
  {
    PathsInColumns(row, Cleared(RetryClears(FailedStage(row))), p);
    forall c: Column
      ensures Stored(Retried(row), c) == if c in Cleared(RetryClears(FailedStage(row))) then None else Stored(row, c)
    {
      ClearedColumnsAreEmpty(row, c);
    }
    hide PathsIn, Cleared, Stored, Retried;
  }

  // ---------------------------------------------------------------- a new stage

  /** The rows differ at most in the paths they hold. */
  ghost predicate SameButPaths(row: Row, later: Row) {
    later == row.(ocrPath := later.ocrPath, blocksPath := later.blocksPath,
                  translationsPath := later.translationsPath, translatedPath := later.translatedPath)
  }

  function Entered(row: Row, status: SegmentStatus, again: bool): Row {
    row.(status := status, errorStage := None, attempts := if again then row.attempts + 1 else row.attempts)
  }

  /** A row at a new stage: the columns that are given get their new paths, the others keep what they hold. */
  ghost predicate IsStaged(row: Row, later: Row, status: SegmentStatus, again: bool, paths: map<Column, Option<Path>>) {
    && SameButPaths(Entered(row, status, again), later)
    && forall c: Column :: Stored(later, c) == if c in paths then paths[c] else Stored(row, c)
  }

  lemma StoresColumn(row: Row, column: Column, path: Option<Path>, c: Column)
    ensures Stored(WithColumn(row, column, path), c) == if c == column then path else Stored(row, c)
  {
  }

  lemma EnteredHolds(row: Row, status: SegmentStatus, again: bool)
    ensures SameButPaths(Entered(row, status, again), Entered(row, status, again))
    ensures forall c: Column :: Stored(Entered(row, status, again), c) == Stored(row, c)
  {
  }

  lemma KeepsRest(row: Row, later: Row, column: Column, path: Option<Path>)
    requires SameButPaths(row, later)
    ensures SameButPaths(row, WithColumn(later, column, path))
  {
  }

  /** The stages that the streaming run enters are those of SegmentRows. */
  lemma StagedIs(d: Generation, i: nat, later: Row, status: SegmentStatus, translations: Option<Path>)
    requires i < |d.rows|
    requires IsStaged(d.rows[i], later, status, false,
                      if translations.Some? then map[TranslationsPath := translations] else map[])
    ensures SetRow(d, i, later) == SetStage(d, i, status, translations)
  {
    var row := d.rows[i];
    assert Stored(later, OcrPath) == Stored(row, OcrPath) && Stored(later, BlocksPath) == Stored(row, BlocksPath);
    assert Stored(later, TranslatedPath) == Stored(row, TranslatedPath);
    assert Stored(later, TranslationsPath) == if translations.Some? then translations else row.translationsPath;
  }

  // ---------------------------------------------------------------- one more row

  lemma PrefixGrows(rows: seq<Row>, k: nat)
    requires k < |rows|
    ensures CountStatus(rows[..k + 1], Failed) == CountStatus(rows[..k], Failed)
              + if rows[k].status == Failed then 1 else 0
    ensures Forgotten(rows[..k + 1])
         == Forgotten(rows[..k]) + if rows[k].status == Failed
           then PathsIn(rows[k], Cleared(RetryClears(FailedStage(rows[k])))) else []
    ensures FailedPages(rows[..k + 1]) == FailedPages(rows[..k])
              + if rows[k].status == Failed then {rows[k].strip.pageIndex} else {}
  {
    hide PathsIn, Cleared;
    assert rows[..k + 1][..k] == rows[..k];
    assert forall j :: 0 <= j < k ==> rows[..k + 1][j] == rows[..k][j];
    if rows[k].status == Failed {
      assert rows[..k + 1][k].status == Failed;
    }
  }

  lemma RetriedIs(row: Row, cleaned: Row)
    requires cleaned == RetriedRow(row, RetryClears(FailedStage(row)), false)
                        .(status := row.status, errorStage := row.errorStage, version := row.version)
    ensures cleaned.(status := Pending, version := None, errorStage := None,
                     attempts := if FailedStage(row) == "ocr" then row.attempts else row.attempts + 1) == Retried(row)
  {
  }

  lemma NothingFailed(rows: seq<Row>, pages: seq<Page>)
    requires CountStatus(rows, Failed) == 0
    ensures RetriedRows(rows) == rows && ReopenPages(pages, FailedPages(rows)) == pages
  {
    CountIsZero(rows, Failed);
    assert FailedPages(rows) == {};
  }

  lemma NoSegments(pageIndex: nat)
    ensures OutcomeOf([], pageIndex).StillPending?
  {
  }

  // ---------------------------------------------------------------- the repository

  /** What a statement about a generation does: nothing when the generation has no row. */
  function Updated(c: Chapter, g: nat, d: Generation): Chapter {
    if g in c.generations then SetGeneration(c, g, d) else c
  }

  /** The layers without those that damaged segments before place n of generation g have. */
  ghost function LayersUpTo(c: Chapter, g: nat, n: nat, indexed: set<Path>): map<LayerKey, Layer>
    requires g in c.generations && n <= |c.generations[g].rows|
  {
    map k | k in c.layers && !GoesUpTo(c.generations[g].rows, g, n, k, indexed) :: c.layers[k]
  }

  ghost predicate GoesUpTo(rows: seq<Row>, g: nat, n: nat, k: LayerKey, indexed: set<Path>)
    requires n <= |rows|
  {
    exists i :: 0 <= i < n && KeyOf(g, rows[i]) == k && Damage(rows[i], indexed).Some?
  }

  ghost predicate DamagedUpTo(rows: seq<Row>, n: nat, indexed: set<Path>)
    requires n <= |rows|
  {
    exists i :: 0 <= i < n && Damage(rows[i], indexed).Some?
  }

  /** The chapter when the segments of these generations have been looked at. */
  ghost function LookedAt(c: Chapter, done: set<nat>, indexed: set<Path>): Chapter {
    Chapter(map g | g in c.generations ::
              if g in done then c.generations[g].(rows := RecoveredRows(c.generations[g].rows, indexed))
              else c.generations[g],
            map k | k in c.layers && !(k.generation in done && LosesLayer(c.generations, k, indexed)) :: c.layers[k],
            c.pageLayers)
  }

  lemma NoneLookedAt(c: Chapter, indexed: set<Path>)
    ensures LookedAt(c, {}, indexed) == c
  {
    hide LosesLayer;
  }

  lemma AllLookedAt(c: Chapter, indexed: set<Path>)
    ensures var t := LookedAt(c, c.generations.Keys, indexed);
            && t.layers == LeftLayers(c, indexed) && t.pageLayers == c.pageLayers
            && t.generations == map g | g in c.generations ::
                                  c.generations[g].(rows := RecoveredRows(c.generations[g].rows, indexed))
  {
    hide RecoveredRows, Damage;
  }

  lemma OneMoreLookedAt(c: Chapter, done: set<nat>, g: nat, indexed: set<Path>)
    requires g in c.generations && g !in done
    ensures var t, rows := LookedAt(c, done, indexed), c.generations[g].rows;
            && t.generations[g] == c.generations[g]
            && LookedAt(c, done + {g}, indexed)
               == Chapter(t.generations[g := c.generations[g].(rows := RecoveredRows(rows, indexed))],
                          LayersUpTo(t, g, |rows|, indexed), t.pageLayers)
  {
    hide RecoveredRows, Damage;
    var t, rows := LookedAt(c, done, indexed), c.generations[g].rows;
    forall k | k in t.layers
      ensures GoesUpTo(rows, g, |rows|, k, indexed) <==> k.generation == g && LosesLayer(c.generations, k, indexed)
    {
    }
    hide GoesUpTo, LosesLayer;
    assert LayersUpTo(t, g, |rows|, indexed) == LookedAt(c, done + {g}, indexed).layers;
  }

  lemma NoLayersGo(c: Chapter, g: nat, indexed: set<Path>)
    requires g in c.generations
    ensures LayersUpTo(c, g, 0, indexed) == c.layers
  {
  }

  lemma NextLayers(c: Chapter, g: nat, n: nat, indexed: set<Path>)
    requires g in c.generations && n < |c.generations[g].rows|
    ensures var row := c.generations[g].rows[n];
            LayersUpTo(c, g, n + 1, indexed)
            == if Damage(row, indexed).Some? then LayersUpTo(c, g, n, indexed) - {KeyOf(g, row)}
               else LayersUpTo(c, g, n, indexed)
  {
    hide Damage;
    var rows := c.generations[g].rows;
    forall k | k in c.layers
      ensures GoesUpTo(rows, g, n + 1, k, indexed) <==>
                GoesUpTo(rows, g, n, k, indexed) || (KeyOf(g, rows[n]) == k && Damage(rows[n], indexed).Some?)
    {
    }
  }

  lemma RepairedRowIs(row: Row, from: ClearFrom, cleared: Row)
    requires cleared == RetriedRow(row, from, false)
                        .(status := row.status, errorStage := row.errorStage, version := row.version)
    ensures cleared.(status := Pending, version := None, errorStage := None) == RetriedRow(row, from, false)
  {
  }

  /** A completed segment whose key is among these is pending again. */
  function Invalidated(g: nat, rows: seq<Row>, keys: set<LayerKey>): seq<Row> {
    seq(|rows|, i requires 0 <= i < |rows| =>
      if rows[i].status == Completed && KeyOf(g, rows[i]) in keys
      then rows[i].(status := Pending, translatedPath := None, version := None) else rows[i])
  }

  /** The chapter when these layers, and the images of their segments, are gone. */
  ghost function Swept(c: Chapter, keys: set<LayerKey>): Chapter {
    Chapter(map g | g in c.generations :: c.generations[g].(rows := Invalidated(g, c.generations[g].rows, keys)),
            c.layers - keys, c.pageLayers)
  }

  lemma NoneSwept(c: Chapter)
    ensures Swept(c, {}) == c
  {
    forall g | g in c.generations
      ensures Invalidated(g, c.generations[g].rows, {}) == c.generations[g].rows
    {
    }
  }

  lemma OneMoreSwept(c: Chapter, keys: set<LayerKey>, key: LayerKey)
    ensures var t, g := Swept(c, keys), key.generation;
            Swept(c, keys + {key})
            == Chapter(if g !in c.generations then t.generations
                       else t.generations[g := t.generations[g].(rows := Invalidated(g, t.generations[g].rows, {key}))],
                       t.layers - {key}, t.pageLayers)
  {
    forall g | g in c.generations
      ensures var rows := c.generations[g].rows;
              Invalidated(g, rows, keys + {key})
              == if g == key.generation then Invalidated(g, Invalidated(g, rows, keys), {key})
                 else Invalidated(g, rows, keys)
    {
      InvalidatedOnce(g, c.generations[g].rows, keys, key);
    }
    hide Invalidated;
    assert c.layers - (keys + {key}) == c.layers - keys - {key};
  }

  lemma InvalidatedOnce(g: nat, rows: seq<Row>, keys: set<LayerKey>, key: LayerKey)
    ensures Invalidated(g, Invalidated(g, rows, keys), {key}) == Invalidated(g, rows, keys + {key})
    ensures g != key.generation ==> Invalidated(g, rows, keys + {key}) == Invalidated(g, rows, keys)
  {
  }

  function InvalidKeys(layers: map<LayerKey, Layer>, indexed: set<Path>): set<LayerKey> {
    set k | k in layers && IsInvalid(layers, k, indexed)
  }

  lemma AllSwept(c: Chapter, indexed: set<Path>)
    ensures var t := Swept(c, InvalidKeys(c.layers, indexed));
            && t.layers == (map k | k in c.layers && c.layers[k].path in indexed :: c.layers[k])
            && t.pageLayers == c.pageLayers
            && t.generations == map g | g in c.generations ::
                 c.generations[g].(rows := WithoutImages(g, c.generations[g].rows, c.layers, indexed))
  {
    forall g | g in c.generations
      ensures Invalidated(g, c.generations[g].rows, InvalidKeys(c.layers, indexed))
           == WithoutImages(g, c.generations[g].rows, c.layers, indexed)
    {
    }
    hide Invalidated, WithoutImages;
  }

  class TranslationRepository {
    var generations: map<nat, Generation>
    var layers: map<LayerKey, Layer>
    var pageLayers: map<nat, int>

    ghost function View(): Chapter
      reads this
    {
      Chapter(generations, layers, pageLayers)
    }

    constructor ()
      ensures View() == Chapter(map[], map[], map[])
    {
      generations, layers, pageLayers := map[], map[], map[];
    }

    /** The generation; one without pages and segments stands for a generation that has no row. */
    function Found(g: nat): Generation
      reads this
    {
      if g in generations then generations[g] else NewGeneration([])
    }

    predicate HasSegment(g: nat, i: nat)
      reads this
    {
      g in generations && i < |generations[g].rows|
    }

    /** Stores the row of a segment, if there is one. */
    method UpdateSegment(g: nat, i: nat, row: Row)
      modifies this
      ensures View() == if old(HasSegment(g, i)) then SetGeneration(old(View()), g, SetRow(old(generations[g]), i, row))
                        else old(View())
    {
      if g in generations && i < |generations[g].rows| {
        generations := generations[g := generations[g].(rows := generations[g].rows[i := row])];
      }
    }

    /** recover_invalid_checkpoints, as far as it concerns segments. */
    method RecoverInvalidSegmentCheckpoints(indexed: set<Path>)
      modifies this
      ensures View() == Recover(old(View()), indexed)
    {
      hide LeftLayers, RecoveredRows, Damaged, WithoutImages, IsInvalid, Repaired;
      var damaged := RecoverSegments(indexed);
      var invalid := RecoverLayers(indexed);
      RefreshRecovered(damaged + invalid);
      assert generations.Keys == Recover(old(View()), indexed).generations.Keys;
      assert generations == Recover(old(View()), indexed).generations;
    }

    /** First the segments: those that have lost files lose checkpoints and layer. */
    method RecoverSegments(indexed: set<Path>) returns (affected: set<nat>)
      modifies this
      ensures generations == map g | g in old(generations) ::
                               old(generations)[g].(rows := RecoveredRows(old(generations)[g].rows, indexed))
      ensures layers == LeftLayers(old(View()), indexed) && pageLayers == old(pageLayers)
      ensures affected == set g | g in old(generations) && Damaged(old(generations)[g].rows, indexed)
    {
      hide RecoveredRows, Damaged, LookedAt, LayersUpTo, LeftLayers;
      affected := {};
      var left := generations.Keys;
      ghost var c := View();
      NoneLookedAt(c, indexed);
      assert c.generations.Keys - left == {};
      while left != {}
        invariant left <= generations.Keys == c.generations.Keys
        invariant View() == LookedAt(c, c.generations.Keys - left, indexed)
        invariant affected == set g | g in c.generations && g !in left && Damaged(c.generations[g].rows, indexed)
        decreases left
      {
        var g :| g in left;
        OneMoreLookedAt(c, c.generations.Keys - left, g, indexed);
        assert c.generations.Keys - left + {g} == c.generations.Keys - (left - {g});
        var repaired := RecoverSegmentsOf(g, indexed);
        left := left - {g};
        if repaired {
          affected := affected + {g};
        }
      }
      assert c.generations.Keys - left == c.generations.Keys;
      AllLookedAt(c, indexed);
    }

    method RecoverSegmentsOf(g: nat, indexed: set<Path>) returns (repaired: bool)
      requires g in generations
      modifies this
      ensures var d := old(generations[g]);
              generations == old(generations)[g := d.(rows := RecoveredRows(d.rows, indexed))]
      ensures layers == LayersUpTo(old(View()), g, |old(generations[g]).rows|, indexed) && pageLayers == old(pageLayers)
      ensures repaired == Damaged(old(generations[g]).rows, indexed)
    {
      hide Damage, LayersUpTo, GoesUpTo, RetriedRow;
      ghost var d := generations[g];
      repaired := false;
      NoLayersGo(View(), g, indexed);
      for i := 0 to |generations[g].rows|
        invariant g in generations && generations == old(generations)[g := d.(rows := generations[g].rows)]
        invariant |generations[g].rows| == |d.rows| && pageLayers == old(pageLayers)
        invariant forall j :: 0 <= j < |d.rows| ==>
                    generations[g].rows[j] == if j < i then RecoveredRow(d.rows[j], indexed) else d.rows[j]
        invariant layers == LayersUpTo(old(View()), g, i, indexed)
        invariant repaired == DamagedUpTo(d.rows, i, indexed)
      {
        NextLayers(old(View()), g, i, indexed);
        var row := generations[g].rows[i];
        var damage := Damage(row, indexed);
        if damage.Some? {
          var _, cleared := ClearColumns(row, damage.value);
          RepairedRowIs(row, damage.value, cleared);
          UpdateSegment(g, i, cleared.(status := Pending, version := None, errorStage := None));
          layers := layers - {KeyOf(g, row)};
          repaired := true;
        }
      }
      assert generations[g].rows == RecoveredRows(d.rows, indexed);
    }

    /** Then the layers: one that has lost its image goes, and its segment, if completed, is pending again. */
    method RecoverLayers(indexed: set<Path>) returns (affected: set<nat>)
      modifies this
      ensures generations == map g | g in old(generations) ::
                old(generations)[g].(rows := WithoutImages(g, old(generations)[g].rows, old(layers), indexed))
      ensures layers == (map k | k in old(layers) && old(layers)[k].path in indexed :: old(layers)[k])
      ensures affected == (set k | k in old(layers) && IsInvalid(old(layers), k, indexed) :: k.generation)
      ensures pageLayers == old(pageLayers)
    {
      hide Invalidated, WithoutImages, Swept, IsInvalid;
      var invalid := InvalidKeys(layers, indexed);
      var left := invalid;
      affected := {};
      ghost var c := View();
      NoneSwept(c);
      assert invalid - left == {};
      while left != {}
        invariant left <= invalid && View() == Swept(c, invalid - left)
        invariant generations.Keys == c.generations.Keys
        invariant affected == set k | k in invalid - left :: k.generation
        decreases left
      {
        var k :| k in left;
        var g := k.generation;
        OneMoreSwept(c, invalid - left, k);
        assert invalid - (left - {k}) == invalid - left + {k};
        layers := layers - {k};
        if g in generations {
          generations := generations[g := generations[g].(rows := Invalidated(g, generations[g].rows, {k}))];
        }
        left := left - {k};
        affected := affected + {g};
      }
      assert invalid - left == invalid;
      AllSwept(c, indexed);
    }

    /** At last the generations of which something was repaired. */
    method RefreshRecovered(affected: set<nat>)
      modifies this
      ensures generations == map g | g in old(generations) ::
                               if g in affected then Repaired(old(generations)[g]) else old(generations)[g]
      ensures layers == old(layers) && pageLayers == old(pageLayers)
    {
      hide CountStatus;
      var left := affected;
      while left != {}
        invariant left <= affected && generations.Keys == old(generations).Keys
        invariant layers == old(layers) && pageLayers == old(pageLayers)
        invariant forall g :: g in generations ==>
                    var d := old(generations)[g];
                    generations[g] == if g in affected - left then Repaired(d) else d
        decreases left
      {
        var g :| g in left;
        left := left - {g};
        RefreshSegmentCounts(g);
        if g in generations {
          var status := if generations[g].status in {Preparing, Queued, Running} then Queued else Paused;
          generations := generations[g := generations[g].(status := status, stopRequested := false, current := None)];
        }
      }
    }

    method ClaimSegmentOcr(g: nat, i: nat) returns (claimed: bool)
      modifies this
      ensures claimed == old(HasSegment(g, i) && generations[g].rows[i].status == Pending)
      ensures View() == if old(HasSegment(g, i)) then SetGeneration(old(View()), g, ClaimOcr(old(generations[g]), i))
                        else old(View())
    {
      claimed := HasSegment(g, i) && generations[g].rows[i].status == Pending;
      assert g in generations ==> generations[g := generations[g]] == generations;
      if claimed {
        var row := generations[g].rows[i];
        UpdateSegment(g, i, row.(status := Ocr, attempts := row.attempts + 1, errorStage := None));
      }
    }

    method MarkSegmentOcrReady(g: nat, i: nat, ocr: Path, blocks: Path) returns (ready: bool)
      modifies this
      ensures ready == old(HasSegment(g, i) && generations[g].rows[i].status == Ocr)
      ensures View() == if old(HasSegment(g, i)) then
                          SetGeneration(old(View()), g, MarkOcrReady(old(generations[g]), i, ocr, blocks))
                        else old(View())
    {
      ready := HasSegment(g, i) && generations[g].rows[i].status == Ocr;
      assert g in generations ==> generations[g := generations[g]] == generations;
      if ready {
        UpdateSegment(g, i, generations[g].rows[i].(status := Pending, ocrPath := Some(ocr), blocksPath := Some(blocks),
                                                    errorStage := None));
      }
    }

    method ResetSegmentOcr(g: nat, i: nat) returns (reset: bool)
      modifies this
      ensures reset == old(HasSegment(g, i) && generations[g].rows[i].status == Ocr)
      ensures View() == if old(HasSegment(g, i)) then SetGeneration(old(View()), g, ResetOcr(old(generations[g]), i))
                        else old(View())
    {
      reset := HasSegment(g, i) && generations[g].rows[i].status == Ocr;
      assert g in generations ==> generations[g := generations[g]] == generations;
      if reset {
        UpdateSegment(g, i, generations[g].rows[i].(status := Pending));
      }
    }

    method SetSegmentStage(g: nat, i: nat, status: SegmentStatus, again: bool, paths: map<Column, Option<Path>>)
      modifies this
      ensures !old(HasSegment(g, i)) ==> View() == old(View())
      ensures old(HasSegment(g, i)) ==>
                && HasSegment(g, i) && IsStaged(old(generations[g].rows[i]), generations[g].rows[i], status, again,
                                                paths)
                && View() == SetGeneration(old(View()), g, SetRow(old(generations[g]), i, generations[g].rows[i]))
    {
      if !HasSegment(g, i) {
        return;
      }
      var staged := StoreColumns(generations[g].rows[i], status, again, paths);
      UpdateSegment(g, i, staged);
    }

    method StoreColumns(row: Row, status: SegmentStatus, again: bool, paths: map<Column, Option<Path>>)
      returns (staged: Row)
      ensures IsStaged(row, staged, status, again, paths)
    {
      staged := Entered(row, status, again);
      var left := paths.Keys;
      hide Entered, SameButPaths, Stored, WithColumn;
      EnteredHolds(row, status, again);
      while left != {}
        invariant left <= paths.Keys
        invariant SameButPaths(Entered(row, status, again), staged)
        invariant forall c: Column :: Stored(staged, c) == if c in paths && c !in left then paths[c] else Stored(row, c)
        decreases left
      {
        var column :| column in left;
        KeepsRest(Entered(row, status, again), staged, column, paths[column]);
        forall c: Column
          ensures Stored(WithColumn(staged, column, paths[column]), c)
                    == if c == column then paths[column] else Stored(staged, c)
        {
          StoresColumn(staged, column, paths[column], c);
        }
        staged := WithColumn(staged, column, paths[column]);
        left := left - {column};
      }
    }

    method RefreshSegmentCounts(g: nat)
      modifies this
      ensures View() == Updated(old(View()), g, RefreshCounts(old(Found(g))))
    {
      if g in generations {
        var completed := CountStatus(generations[g].rows, Completed);
        var failed := CountStatus(generations[g].rows, Failed);
        generations := generations[g := generations[g].(completedSegments := completed, failedSegments := failed)];
      }
    }

    /** A segment that does not exist cannot be completed. */
    method CompleteSegment(g: nat, i: nat, path: Path, version: string) returns (ok: bool)
      modifies this
      ensures ok == old(HasSegment(g, i))
      ensures View() == if ok then Complete(old(View()), g, i, path, version) else old(View())
    {
      ok := HasSegment(g, i);
      if !ok {
        return;
      }
      var row := generations[g].rows[i];
      UpdateSegment(g, i, row.(status := Completed, translatedPath := Some(path), version := Some(version),
                               errorStage := None));
      layers := layers[LayerKey(row.strip.pageIndex, g, row.strip.segmentIndex)
                       := Layer(row.strip.displayTop, row.strip.displayBottom, path, version)];
      RefreshSegmentCounts(g);
    }

    /** The counters are recounted even when there is no such segment. */
    method FailSegment(g: nat, i: nat, stage: string)
      modifies this
      ensures View() == if old(HasSegment(g, i))
                then SetGeneration(old(View()), g, FailRow(old(generations[g]), i, stage))
                        else Updated(old(View()), g, RefreshCounts(old(Found(g))))
    {
      if HasSegment(g, i) {
        UpdateSegment(g, i, generations[g].rows[i].(status := Failed, errorStage := Some(stage)));
      }
      RefreshSegmentCounts(g);
    }

    /** Puts the pages with these indices back to pending. */
    method ReopenPagesOf(g: nat, affected: set<nat>)
      modifies this
      ensures View() == Updated(old(View()), g, old(Found(g)).(pages := ReopenPages(old(Found(g)).pages, affected)))
    {
      if g !in generations {
        return;
      }
      var pages := generations[g].pages;
      for k := 0 to |pages|
        invariant |pages| == |generations[g].pages|
        invariant forall j :: 0 <= j < |pages| ==>
                    pages[j] == if j < k then ReopenPages(generations[g].pages, affected)[j]
                      else generations[g].pages[j]
      {
        if pages[k].pageIndex in affected {
          pages := pages[k := pages[k].(status := PagePending)];
        }
      }
      assert pages == ReopenPages(generations[g].pages, affected);
      generations := generations[g := generations[g].(pages := pages)];
    }

    /** The paths among these columns, and the row without them. */
    method ClearColumns(row: Row, from: ClearFrom) returns (paths: seq<Path>, cleared: Row)
      ensures paths == PathsIn(row, Cleared(from))
      ensures cleared == RetriedRow(row, from, false)
                         .(status := row.status, errorStage := row.errorStage, version := row.version)
    {
      hide PathsIn, Cleared, Stored;
      paths, cleared := [], row;
      var columns := Cleared(from);
      for k := 0 to |columns|
        invariant paths + PathsIn(row, columns[k..]) == PathsIn(row, columns)
        invariant Emptied(cleared, columns[k..]) == Emptied(row, columns)
      {
        PathsInNext(row, columns[k..]);
        assert columns[k..][1..] == columns[k + 1..];
        if Stored(row, columns[k]).Some? {
          paths := paths + [Stored(row, columns[k]).value];
        }
        cleared := WithoutColumn(cleared, columns[k]);
      }
      assert columns[|columns|..] == [];
      PathsInNext(row, []);
      ClearedRow(row, from);
    }

    /** prepare_segment_retry, with the columns that the manager chooses for the failed stage. */
    method PrepareSegmentRetry(g: nat, i: nat) returns (paths: seq<Path>)
      modifies this
      ensures View() == if old(HasSegment(g, i)) then SetGeneration(old(View()), g, RetryRow(old(generations[g]), i))
                        else old(View())
      ensures paths == if old(HasSegment(g, i)) then
                         PathsIn(old(generations[g].rows[i]),
                                 Cleared(RetryClears(FailedStage(old(generations[g].rows[i])))))
                       else []
    {
      hide PathsIn, Cleared, RetriedRow, ReopenPages;
      if !HasSegment(g, i) {
        return [];
      }
      var row := generations[g].rows[i];
      var stage := if row.errorStage.Some? then row.errorStage.value else "ocr";
      var cleared: Row;
      paths, cleared := ClearColumns(row, RetryClears(stage));
      RetriedIs(row, cleared);
      UpdateSegment(g, i, cleared.(status := Pending, version := None, errorStage := None,
                                   attempts := if stage == "ocr" then row.attempts else row.attempts + 1));
      ReopenPagesOf(g, {row.strip.pageIndex});
      RefreshSegmentCounts(g);
    }

    /** The segment branch of prepare_failed_retries. */
    method PrepareFailedRetries(g: nat) returns (count: nat, paths: seq<Path>)
      modifies this
      ensures View() == Updated(old(View()), g, RetryAll(old(Found(g))))
      ensures count == CountStatus(old(Found(g)).rows, Failed) && paths == Forgotten(old(Found(g)).rows)
    {
      hide PathsIn, Cleared, RetriedRow, PageLayers.SetGeneration;
      if g !in generations {
        return 0, [];
      }
      var rows := generations[g].rows;
      var left := rows;
      var affected: set<nat> := {};
      count, paths := 0, [];
      for k := 0 to |left|
        invariant View() == old(View()) && |rows| == |left|
        invariant forall j :: 0 <= j < |left| ==>
                    rows[j] == if j < k && left[j].status == Failed then Retried(left[j]) else left[j]
        invariant count == CountStatus(left[..k], Failed) && paths == Forgotten(left[..k])
        invariant affected == FailedPages(left[..k])
      {
        PrefixGrows(left, k);
        if left[k].status == Failed {
          var stage := if left[k].errorStage.Some? then left[k].errorStage.value else "ocr";
          var cleared, cleaned := ClearColumns(left[k], RetryClears(stage));
          RetriedIs(left[k], cleaned);
          rows := rows[k := cleaned.(status := Pending, version := None, errorStage := None,
                                     attempts := if stage == "ocr" then left[k].attempts else left[k].attempts + 1)];
          count, paths, affected := count + 1, paths + cleared, affected + {left[k].strip.pageIndex};
        }
      }
      assert left[..|left|] == left;
      StoreRetried(g, left, rows, count, affected);
    }

    method StoreRetried(g: nat, left: seq<Row>, rows: seq<Row>, count: nat, affected: set<nat>)
      requires g in generations && generations[g].rows == left && |rows| == |left|
      requires forall j :: 0 <= j < |left| ==> rows[j] == if left[j].status == Failed then Retried(left[j]) else left[j]
      requires count == CountStatus(left, Failed) && affected == FailedPages(left)
      modifies this
      ensures View() == SetGeneration(old(View()), g, RetryAll(old(generations[g])))
    {
      assert rows == RetriedRows(left);
      hide RetriedRows, CountStatus, FailedPages, ReopenPages;
      generations := generations[g := generations[g].(rows := rows)];
      ReopenPagesOf(g, affected);
      if count > 0 {
        RefreshSegmentCounts(g);
      } else {
        NothingFailed(left, old(generations[g]).pages);
        assert generations[g] == old(generations[g]);
        assert generations == old(generations);
      }
    }

    method BeginSegment(g: nat, i: nat) returns (begun: bool)
      modifies this
      ensures begun == (g in old(generations) && CanBegin(old(Found(g))))
      ensures View() == Updated(old(View()), g, SegmentRows.BeginSegment(old(Found(g)), i))
    {
      if g !in generations {
        return false;
      }
      var d := generations[g];
      assert generations[g := d] == generations;
      begun := !d.stopRequested && d.status in {Preparing, Queued, Running};
      if begun {
        generations := generations[g := d.(status := Running, current := Some(i))];
      }
    }

    method FinishSegment(g: nat) returns (running: bool)
      modifies this
      ensures running == (g in old(generations) && CanFinish(old(Found(g))))
      ensures View() == Updated(old(View()), g, SegmentRows.FinishSegment(old(Found(g))))
    {
      if g !in generations {
        return false;
      }
      var d := generations[g];
      assert generations[g := d] == generations;
      running := !d.stopRequested && d.status == Running;
      if running {
        generations := generations[g := d.(current := None)];
      }
    }

    method RequestStop(g: nat) returns (result: Option<GenerationStatus>)
      modifies this
      ensures View() == Updated(old(View()), g, SegmentRows.RequestStop(old(Found(g))))
      ensures result == if g in generations then Some(generations[g].status) else None
    {
      if g !in generations {
        return None;
      }
      var d := generations[g];
      var status := d.status;
      assert generations[g := d] == generations;
      if status == Queued {
        status := Paused;
        generations := generations[g := d.(status := Paused, stopRequested := false, current := None)];
      } else if status == Preparing {
        status := StoppingAfterSegment;
        generations := generations[g := d.(status := status, stopRequested := true, current := None)];
      } else if status == Running {
        var progressive := d.planningComplete || d.totalSegments > 0;
        status := if progressive then StoppingAfterSegment else StoppingAfterPage;
        generations := generations[g := d.(status := status, stopRequested := true)];
      }
      result := Some(status);
    }

    method AppendPreparedPageSegments(g: nat, pageIndex: nat, segments: seq<PlannedSegment>)
      returns (result: Result<nat, AppendError>)
      modifies this
      ensures match AppendCheck(old(Found(g)), pageIndex, segments)
              case Some(e) => result == Err(e) && View() == old(View())
              case None =>
                && g in old(generations)
                && View() == SetGeneration(old(View()), g, AppendPage(old(generations[g]), pageIndex, segments))
                && result == Ok(|generations[g].rows| - |old(generations[g]).rows|)
    {
      hide NextGlobalIndex, CountPage, PagePlace, NewRow;
      if segments == [] {
        return Err(EmptyPlan);
      }
      if exists k :: 0 <= k < |segments| && segments[k].pageIndex != pageIndex {
        return Err(ForeignSegment);
      }
      var d := Found(g);
      var place := PagePlace(d.pages, pageIndex);
      if place.None? {
        return Err(NoSuchPage);
      }
      var existing := CountPage(d.rows, pageIndex);
      if d.pages[place.value].prepared {
        if existing != |segments| {
          return Err(InconsistentPlan);
        }
        assert generations[g := d] == generations;
        return Ok(0);
      }
      if existing != 0 {
        return Err(StraySegments);
      }
      var next := NextGlobalIndex(d.rows);
      var inserted := [];
      for offset := 0 to |segments|
        invariant |inserted| == offset
        invariant forall k :: 0 <= k < offset ==> inserted[k] == NewRow(segments[k], next + k)
      {
        inserted := inserted + [NewRow(segments[offset], next + offset)];
      }
      assert inserted == NewRows(segments, next);
      var rows := d.rows + inserted;
      var pages := d.pages[place.value := d.pages[place.value].(prepared := true, status := PagePending)];
      generations := generations[g := d.(rows := rows, pages := pages, totalSegments := |rows|)];
      result := Ok(|segments|);
    }

    method CompleteSegmentPlan(g: nat)
      modifies this
      ensures View() == Updated(old(View()), g, CompletePlan(old(Found(g))))
    {
      if g in generations {
        generations := generations[g := generations[g].(planningComplete := true,
                                                        totalSegments := |generations[g].rows|)];
      }
    }

    /** How many segments of the page there are, and how many of them are completed and failed. */
    method CountPageSegments(g: nat, pageIndex: nat) returns (total: nat, completed: nat, failed: nat)
      ensures OutcomeOf(Found(g).rows, pageIndex)
           == if total == 0 || completed + failed < total then StillPending else if failed > 0 then SomeFailed
             else AllReady
      ensures completed + failed <= total
    {
      total, completed, failed := 0, 0, 0;
      var rows := Found(g).rows;
      for k := 0 to |rows|
        invariant completed + failed <= total
        invariant total == 0 <==> forall j :: 0 <= j < k ==> rows[j].strip.pageIndex != pageIndex
        invariant completed + failed < total <==>
                    exists j :: 0 <= j < k && rows[j].strip.pageIndex == pageIndex && !Terminal(rows[j])
        invariant failed > 0 <==>
                    exists j :: 0 <= j < k && rows[j].strip.pageIndex == pageIndex && rows[j].status == Failed
      {
        if rows[k].strip.pageIndex == pageIndex {
          total := total + 1;
          if rows[k].status == Completed {
            completed := completed + 1;
          } else if rows[k].status == Failed {
            failed := failed + 1;
          }
        }
      }
    }

    method SetPageStatus(g: nat, pageIndex: nat, status: PageStatus)
      modifies this
      ensures View() == Updated(old(View()), g,
                                old(Found(g)).(pages := SetPages(old(Found(g)).pages, pageIndex, status)))
    {
      if g in generations {
        generations := generations[g := generations[g].(pages := SetPages(generations[g].pages, pageIndex, status))];
      }
    }

    method FinalizePageFromSegments(g: nat, pageIndex: nat) returns (outcome: PageOutcome)
      modifies this
      ensures outcome == OutcomeOf(old(Found(g)).rows, pageIndex)
      ensures View() == Updated(old(View()), g, FinalizePage(old(Found(g)), pageIndex))
    {
      hide OutcomeOf, SetPages;
      var total, completed, failed := CountPageSegments(g, pageIndex);
      assert g in generations ==> generations[g := generations[g]] == generations;
      if total == 0 || completed + failed < total {
        return StillPending;
      }
      if failed > 0 {
        SetPageStatus(g, pageIndex, PageFailed);
        return SomeFailed;
      }
      outcome := AllReady;
    }

    method PublishCompletedSegmentPage(g: nat, pageIndex: nat) returns (published: bool)
      modifies this
      ensures published == OutcomeOf(old(Found(g)).rows, pageIndex).AllReady?
      ensures View() == if g in old(generations) then Publish(old(View()), g, pageIndex) else old(View())
    {
      hide OutcomeOf, SetPages;
      var total, completed, failed := CountPageSegments(g, pageIndex);
      NoSegments(pageIndex);
      if total == 0 || completed != total {
        return false;
      }
      SetPageStatus(g, pageIndex, PageCompleted);
      layers := map k | k in layers && !(k.page == pageIndex && k.generation != g) :: layers[k];
      pageLayers := pageLayers - {pageIndex};
      published := true;
    }
  }
}
