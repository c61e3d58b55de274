/** The translated layers that the reader shows over a page, and the repository operations of
    app/repositories/translation.py that change them, over all generations of a chapter. */
module PageLayers {
  import opened Common
  import opened SegmentPlanner
  import opened SegmentRows
  import opened SegmentInvariants
  import opened CheckpointRecovery

  /** A translated strip that is on display. */
  datatype Layer = Layer(top: int, bottom: int, path: Path, version: string)

  datatype LayerKey = LayerKey(page: nat, generation: nat, segment: nat)

  /** Generations are numbered in the order of their creation; a page layer is a whole translated page
      left by the older pipeline, with its height. */
  datatype Chapter = Chapter(generations: map<nat, Generation>, layers: map<LayerKey, Layer>, pageLayers: map<nat, int>)

  function KeyOf(g: nat, row: Row): LayerKey {
    LayerKey(row.strip.pageIndex, g, row.strip.segmentIndex)
  }

  // ---------------------------------------------------------------- operations

  function SetGeneration(c: Chapter, g: nat, d: Generation): Chapter {
    c.(generations := c.generations[g := d])
  }

  /** complete_segment: the row is completed and its strip goes on display. */
  function Complete(c: Chapter, g: nat, i: nat, path: Path, version: string): Chapter
    requires g in c.generations && i < |c.generations[g].rows|
  {
    var row := c.generations[g].rows[i];
    SetGeneration(c, g, CompleteRow(c.generations[g], i, path, version)).(
      layers := c.layers[KeyOf(g, row) := Layer(row.strip.displayTop, row.strip.displayBottom, path, version)])
  }

  /** publish_completed_segment_page: when all segments of the page are completed, every other layer of
      the page goes. */
  function Publish(c: Chapter, g: nat, page: nat): Chapter
    requires g in c.generations
  {
    if !OutcomeOf(c.generations[g].rows, page).AllReady? then c
    else
      SetGeneration(c, g, MarkPublished(c.generations[g], page)).(
        layers := map k | k in c.layers && !(k.page == page && k.generation != g) :: c.layers[k],
        pageLayers := c.pageLayers - {page})
  }

  /** A segment with this key has lost files, so that its layer goes. */
  predicate LosesLayer(generations: map<nat, Generation>, k: LayerKey, indexed: set<Path>) {
    && k.generation in generations
    && exists i :: 0 <= i < |generations[k.generation].rows|
         && KeyOf(k.generation, generations[k.generation].rows[i]) == k
         && Damage(generations[k.generation].rows[i], indexed).Some?
  }

  /** The layers that are left when the segments have been looked at. */
  function LeftLayers(c: Chapter, indexed: set<Path>): map<LayerKey, Layer> {
    map k | k in c.layers && !LosesLayer(c.generations, k, indexed) :: c.layers[k]
  }

  /** A layer whose image is missing is left for this key. */
  predicate IsInvalid(layers: map<LayerKey, Layer>, k: LayerKey, indexed: set<Path>) {
    k in layers && layers[k].path !in indexed
  }

  /** A completed segment whose layer is invalid is pending again. */
  function WithoutImage(g: nat, row: Row, layers: map<LayerKey, Layer>, indexed: set<Path>): Row {
    if row.status == Completed && IsInvalid(layers, KeyOf(g, row), indexed)
    then row.(status := Pending, translatedPath := None, version := None) else row
  }

  function WithoutImages(g: nat, rows: seq<Row>, layers: map<LayerKey, Layer>, indexed: set<Path>): seq<Row> {
    seq(|rows|, i requires 0 <= i < |rows| => WithoutImage(g, rows[i], layers, indexed))
  }

  /** Something of the generation has to be repaired. */
  predicate IsAffected(g: nat, d: Generation, layers: map<LayerKey, Layer>, indexed: set<Path>) {
    Damaged(d.rows, indexed) || exists k :: k in layers && k.generation == g && IsInvalid(layers, k, indexed)
  }

  function RecoveredGeneration(g: nat, d: Generation, layers: map<LayerKey, Layer>, indexed: set<Path>): Generation {
    var t := d.(rows := WithoutImages(g, RecoveredRows(d.rows, indexed), layers, indexed));
    if IsAffected(g, d, layers, indexed) then Repaired(t) else t
  }

  /** recover_invalid_checkpoints for the segments of a chapter: first segments that have lost files, with their
      layers, then layers that have lost their image, with their segments. */
  function Recover(c: Chapter, indexed: set<Path>): Chapter {
    var left := LeftLayers(c, indexed);
    Chapter(map g | g in c.generations :: RecoveredGeneration(g, c.generations[g], left, indexed),
            map k | k in left && left[k].path in indexed :: left[k],
            c.pageLayers)
  }

  // ---------------------------------------------------------------- steps

  datatype Step =
    | Create(generation: nat, pageIndexes: seq<nat>)
    | AppendPlan(generation: nat, place: nat, plan: seq<PlannedSegment>)
    | Work(generation: nat, row: nat, next: Row)  // any statement on a segment that is not completed by it
    | CompleteSegment(generation: nat, row: nat, path: Path, version: string)
    | FailSegment(generation: nat, row: nat, stage: string)
    | RetrySegment(generation: nat, row: nat)
    | RetryFailed(generation: nat)
    | PublishPage(generation: nat, page: nat)
    | Restart(indexed: set<Path>)

  /** No younger generation has completed a segment of the page: the generation is the newest to work on it. */
  ghost predicate Newest(c: Chapter, g: nat, page: nat) {
    forall g', i ::
      (g' in c.generations && g < g' && 0 <= i < |c.generations[g'].rows|
       && c.generations[g'].rows[i].strip.pageIndex == page)
      ==> c.generations[g'].rows[i].status != Completed
  }

  ghost predicate Unfinished(c: Chapter, g: nat, i: nat) {
    g in c.generations && i < |c.generations[g].rows| && c.generations[g].rows[i].status != Completed
  }

  /** `height` gives the rows of each page; planners cut a page into strips that tile it. */
  ghost predicate Enabled(c: Chapter, height: nat -> int, step: Step) {
    match step
    case Create(g, pageIndexes) =>
      (forall g' :: g' in c.generations ==> g' < g)
        && forall k, l :: 0 <= k < l < |pageIndexes| ==> pageIndexes[k] < pageIndexes[l]
    case AppendPlan(g, place, plan) =>
      && g in c.generations && IsNextPage(c.generations[g], place)
      && NumbersPage(plan, c.generations[g].pages[place].pageIndex)
      && TilesPage(plan, height(c.generations[g].pages[place].pageIndex))
    case Work(g, i, next) =>
      Unfinished(c, g, i) && next.status != Completed && next.strip == c.generations[g].rows[i].strip
        && next.globalIndex == c.generations[g].rows[i].globalIndex
    case CompleteSegment(g, i, _, _) => Unfinished(c, g, i) && Newest(c, g, c.generations[g].rows[i].strip.pageIndex)
    case FailSegment(g, i, _) => Unfinished(c, g, i)
    case RetrySegment(g, i) => g in c.generations && i < |c.generations[g].rows|
      && c.generations[g].rows[i].status == Failed
    case RetryFailed(g) => g in c.generations
    case PublishPage(g, page) => g in c.generations && Newest(c, g, page)
    case Restart(indexed) => ImagesThere(c, indexed)
  }

  /** No completed segment has lost its image. */
  ghost predicate ImagesThere(c: Chapter, indexed: set<Path>) {
    forall g, i :: g in c.generations && 0 <= i < |c.generations[g].rows| ==>
      (c.generations[g].rows[i].status == Completed ==> There(c.generations[g].rows[i].translatedPath, indexed))
  }

  ghost function Next(c: Chapter, height: nat -> int, step: Step): Chapter
    requires Enabled(c, height, step)
  {
    match step
    case Create(g, pageIndexes) => SetGeneration(c, g, NewGeneration(pageIndexes))
    case AppendPlan(g, place, plan) =>
      var d := c.generations[g];
      if AppendCheck(d, d.pages[place].pageIndex, plan).None?
        then SetGeneration(c, g, AppendPage(d, d.pages[place].pageIndex, plan)) else c
    case Work(g, i, next) => SetGeneration(c, g, SetRow(c.generations[g], i, next))
    case CompleteSegment(g, i, path, version) => Complete(c, g, i, path, version)
    case FailSegment(g, i, stage) => SetGeneration(c, g, FailRow(c.generations[g], i, stage))
    case RetrySegment(g, i) => SetGeneration(c, g, RetryRow(c.generations[g], i))
    case RetryFailed(g) => SetGeneration(c, g, RetryAll(c.generations[g]))
    case PublishPage(g, page) => Publish(c, g, page)
    case Restart(indexed) => Recover(c, indexed)
  }

  // ---------------------------------------------------------------- coverage

  /** Some layer of the page shows row y. */
  ghost predicate Shows(c: Chapter, page: nat, y: int) {
    || (page in c.pageLayers && 0 <= y < c.pageLayers[page])
    || exists k :: k in c.layers && k.page == page && c.layers[k].top <= y < c.layers[k].bottom
  }

  ghost predicate Covered(c: Chapter, page: nat, height: int) {
    forall y :: 0 <= y < height ==> Shows(c, page, y)
  }

  /** The strips of a page, in order. */
  ghost function StripsOf(rows: seq<Row>, page: nat): seq<PlannedSegment> {
    if |rows| == 0 then []
    else
      var last := rows[|rows| - 1];
      StripsOf(rows[..|rows| - 1], page) + if last.strip.pageIndex == page then [last.strip] else []
  }

  /** Plans are numbered, and every planned page is tiled by its strips. */
  ghost predicate PlansOk(generations: map<nat, Generation>, height: nat -> int) {
    forall g :: g in generations ==> GenerationOk(generations[g], height)
  }

  ghost predicate GenerationOk(d: Generation, height: nat -> int) {
    && PlanOk(d)
    && forall page :: StripsOf(d.rows, page) != [] ==> TilesPage(StripsOf(d.rows, page), height(page))
  }

  /** A layer shows the strip and the image of a completed segment. */
  ghost predicate LayerOk(c: Chapter, k: LayerKey)
    requires k in c.layers
  {
    LayerFits(c.generations, k, c.layers[k])
  }

  ghost predicate LayerFits(generations: map<nat, Generation>, k: LayerKey, layer: Layer) {
    && k.generation in generations
    && exists i :: 0 <= i < |generations[k.generation].rows| && LayerOf(generations[k.generation].rows[i], k, layer)
  }

  ghost predicate LayerOf(row: Row, k: LayerKey, layer: Layer) {
    && row.status == Completed && row.strip.pageIndex == k.page && row.strip.segmentIndex == k.segment
    && layer.top == row.strip.displayTop && layer.bottom == row.strip.displayBottom
    && row.translatedPath == Some(layer.path) && row.version == Some(layer.version)
  }

  /** Whatever the newest generation of a page has completed is on display. */
  ghost predicate NewestOnDisplay(c: Chapter) {
    forall g: nat, i: nat :: OnDisplayDue(c, g, i) ==> KeyOf(g, c.generations[g].rows[i]) in c.layers
  }

  ghost predicate OnDisplayDue(c: Chapter, g: nat, i: nat) {
    && g in c.generations && i < |c.generations[g].rows| && c.generations[g].rows[i].status == Completed
    && Newest(c, g, c.generations[g].rows[i].strip.pageIndex)
  }

  ghost predicate Inv(c: Chapter, height: nat -> int) {
    PlansOk(c.generations, height) && (forall k :: k in c.layers ==> LayerOk(c, k)) && NewestOnDisplay(c)
  }

  // ---------------------------------------------------------------- strips and rows

  /** Strips of a page and its rows correspond. */
  lemma {:induction false} StripHasRow(rows: seq<Row>, page: nat, k: nat) returns (i: nat)
    requires k < |StripsOf(rows, page)|
    ensures i < |rows| && rows[i].strip == StripsOf(rows, page)[k] && rows[i].strip.pageIndex == page
  {
    var n := |rows| - 1;
    if k < |StripsOf(rows[..n], page)| {
      i := StripHasRow(rows[..n], page, k);
    } else {
      i := n;
    }
  }

  lemma {:induction false} RowHasStrip(rows: seq<Row>, page: nat, i: nat) returns (k: nat)
    requires i < |rows| && rows[i].strip.pageIndex == page
    ensures k < |StripsOf(rows, page)| && StripsOf(rows, page)[k] == rows[i].strip
  {
    var n := |rows| - 1;
    if i < n {
      k := RowHasStrip(rows[..n], page, i);
    } else {
      k := |StripsOf(rows[..n], page)|;
    }
  }

  lemma {:induction false} StripsSame(rows: seq<Row>, rows': seq<Row>, page: nat)
    requires |rows'| == |rows| && forall i :: 0 <= i < |rows| ==> rows'[i].strip == rows[i].strip
    ensures StripsOf(rows', page) == StripsOf(rows, page)
  {
    if |rows| > 0 {
      StripsSame(rows[..|rows| - 1], rows'[..|rows| - 1], page);
    }
  }

  lemma {:induction false} StripsAppend(rows: seq<Row>, more: seq<Row>, page: nat)
    ensures StripsOf(rows + more, page) == StripsOf(rows, page) + StripsOf(more, page)
  {
    if |more| == 0 {
      assert rows + more == rows;
    } else {
      var n := |more| - 1;
      StripsAppend(rows, more[..n], page);
      assert (rows + more)[..|rows + more| - 1] == rows + more[..n];
    }
  }

  lemma {:induction false} StripsOfNew(plan: seq<PlannedSegment>, first: nat, pageIndex: nat, page: nat)
    requires forall k :: 0 <= k < |plan| ==> plan[k].pageIndex == pageIndex
    ensures StripsOf(NewRows(plan, first), page) == if page == pageIndex then plan else []
  {
    if |plan| > 0 {
      var n := |plan| - 1;
      StripsOfNew(plan[..n], first, pageIndex, page);
      assert NewRows(plan, first)[..n] == NewRows(plan[..n], first);
      assert plan == plan[..n] + [plan[n]];
    }
  }

  lemma {:induction false} StripsOfOther(rows: seq<Row>, page: nat)
    requires forall i :: 0 <= i < |rows| ==> rows[i].strip.pageIndex != page
    ensures StripsOf(rows, page) == []
  {
    if |rows| > 0 {
      StripsOfOther(rows[..|rows| - 1], page);
    }
  }

  /** Exactly one row of a planned page displays y. */
  lemma {:induction false} RowDisplays(d: Generation, height: nat -> int, page: nat, y: int) returns (i: nat)
    requires GenerationOk(d, height) && PlannedPage(d.rows, page) && 0 <= y < height(page)
    ensures i < |d.rows| && d.rows[i].strip.pageIndex == page && Displays(d.rows[i].strip, y)
    ensures forall j :: 0 <= j < |d.rows| && d.rows[j].strip.pageIndex == page && Displays(d.rows[j].strip, y) ==>
              d.rows[j].strip == d.rows[i].strip
  {
    var first :| 0 <= first < |d.rows| && d.rows[first].strip.pageIndex == page;
    var _ := RowHasStrip(d.rows, page, first);
    var strips := StripsOf(d.rows, page);
    assert TilesPage(strips, height(page));
    var owner := StripsPartitionPage(strips, height(page), y);
    i := StripHasRow(d.rows, page, owner);
    forall j | 0 <= j < |d.rows| && d.rows[j].strip.pageIndex == page && Displays(d.rows[j].strip, y)
      ensures d.rows[j].strip == d.rows[i].strip
    {
      var k := RowHasStrip(d.rows, page, j);
    }
  }

  // ---------------------------------------------------------------- publishing

  /** The layers of the page are exactly the publisher's strips. */
  ghost predicate ShowsExactly(c: Chapter, g: nat, page: nat)
    requires g in c.generations
  {
    && page !in c.pageLayers
    && (forall k :: k in c.layers && k.page == page ==> k.generation == g && LayerOk(c, k))
    && (forall i :: 0 <= i < |c.generations[g].rows| && c.generations[g].rows[i].strip.pageIndex == page ==>
          KeyOf(g, c.generations[g].rows[i]) in c.layers)
  }

  lemma {:induction false} RowShows(c: Chapter, height: nat -> int, g: nat, i: nat, y: int)
    requires PlansOk(c.generations, height) && (forall k :: k in c.layers ==> LayerOk(c, k))
    requires g in c.generations && i < |c.generations[g].rows| && Displays(c.generations[g].rows[i].strip, y)
    requires KeyOf(g, c.generations[g].rows[i]) in c.layers
    ensures Shows(c, c.generations[g].rows[i].strip.pageIndex, y)
  {
    var d := c.generations[g];
    var k := KeyOf(g, d.rows[i]);
    assert LayerOk(c, k);
    var j :| 0 <= j < |d.rows| && LayerOf(d.rows[j], k, c.layers[k]);
    assert GenerationOk(d, height);
    if j < i {
      GlobalIndexIsLexicographic(d, j, i);
    } else if i < j {
      GlobalIndexIsLexicographic(d, i, j);
    }
  }

  /** When a complete page is published, the page is covered if and only if every segment of the publisher
      is on display: a strip that is missing then leaves a hole. */
  lemma {:induction false} PublishCoversIff(c: Chapter, height: nat -> int, g: nat, page: nat)
    requires PlansOk(c.generations, height) && (forall k :: k in c.layers ==> LayerOk(c, k))
    requires g in c.generations && OutcomeOf(c.generations[g].rows, page).AllReady?
    ensures Covered(Publish(c, g, page), page, height(page)) <==> ShowsExactly(Publish(c, g, page), g, page)
  {
    hide Publish, PlansOk, GenerationOk, LayerFits, PlannedPage, OutcomeOf;
    var t := Publish(c, g, page);
    var d := c.generations[g];
    PublishKeepsRows(c, height, g, page);
    ReadyIsPlanned(d.rows, page);
    PlanOf(c, height, g);
    PlanOf(t, height, g);
    if ShowsExactly(t, g, page) {
      forall y | 0 <= y < height(page)
        ensures Shows(t, page, y)
      {
        var i := RowDisplays(t.generations[g], height, page, y);
        RowShows(t, height, g, i, y);
      }
    }
    if Covered(t, page, height(page)) {
      forall i | 0 <= i < |d.rows| && d.rows[i].strip.pageIndex == page
        ensures KeyOf(g, d.rows[i]) in t.layers
      {
        CoveredRowIsShown(t, height, g, page, i);
      }
    }
  }

  lemma {:induction false} PublishKeepsRows(c: Chapter, height: nat -> int, g: nat, page: nat)
    requires PlansOk(c.generations, height) && (forall k :: k in c.layers ==> LayerOk(c, k))
    requires g in c.generations && OutcomeOf(c.generations[g].rows, page).AllReady?
    ensures var t := Publish(c, g, page);
            && PlansOk(t.generations, height) && (forall k :: k in t.layers ==> LayerOk(t, k))
            && t.generations.Keys == c.generations.Keys
            && (forall g' :: g' in c.generations ==> t.generations[g'].rows == c.generations[g'].rows)
            && page !in t.pageLayers
            && (forall k :: k in t.layers && k.page == page ==> k.generation == g)
  {
    hide PlanOk, GenerationOk, LayerFits, PlansOk, OutcomeOf, KeepsCompleted, SameCompleted, MarkPublished;
    var d := c.generations[g];
    PlanOf(c, height, g);
    MarkedIsOk(d, height, page);
    PlansKept(c, height, g, MarkPublished(d, page));
    LayersKept(c, g, MarkPublished(d, page));
  }

  lemma MarkedIsOk(d: Generation, height: nat -> int, page: nat)
    requires GenerationOk(d, height)
    ensures var d' := MarkPublished(d, page);
            GenerationOk(d', height) && d'.rows == d.rows && KeepsCompleted(d.rows, d'.rows)
  {
    var d' := MarkPublished(d, page);
    SamePlanKeepsPlan(d, d');
    hide PlanOk, OutcomeOf;
  }

  lemma PlanOf(c: Chapter, height: nat -> int, g: nat)
    requires PlansOk(c.generations, height) && g in c.generations
    ensures GenerationOk(c.generations[g], height)
  {
  }

  lemma ReadyIsPlanned(rows: seq<Row>, page: nat)
    requires OutcomeOf(rows, page).AllReady?
    ensures PlannedPage(rows, page)
    ensures forall i :: 0 <= i < |rows| && rows[i].strip.pageIndex == page ==> rows[i].status == Completed
  {
  }

  lemma {:induction false} LayerHasRow(c: Chapter, k: LayerKey) returns (j: nat)
    requires k in c.layers && LayerOk(c, k)
    ensures k.generation in c.generations && j < |c.generations[k.generation].rows|
    ensures LayerOf(c.generations[k.generation].rows[j], k, c.layers[k])
  {
    j :| 0 <= j < |c.generations[k.generation].rows| && LayerOf(c.generations[k.generation].rows[j], k, c.layers[k]);
  }

  /** A layer of generation g that shows the first row of one of its strips is the layer of that strip. */
  lemma {:induction false} LayerIsOfRow(d: Generation, height: nat -> int, page: nat, i: nat, j: nat, k: LayerKey,
                                        layer: Layer)
    requires GenerationOk(d, height) && i < |d.rows| && d.rows[i].strip.pageIndex == page
    requires j < |d.rows| && LayerOf(d.rows[j], k, layer) && k.page == page
    requires 0 <= d.rows[i].strip.displayTop < d.rows[i].strip.displayBottom <= height(page)
    requires layer.top <= d.rows[i].strip.displayTop < layer.bottom
    ensures k.segment == d.rows[i].strip.segmentIndex
  {
    hide GenerationOk;
    var owner := RowDisplays(d, height, page, d.rows[i].strip.displayTop);
  }

  lemma {:induction false} RowInsidePage(d: Generation, height: nat -> int, i: nat)
    requires GenerationOk(d, height) && i < |d.rows|
    ensures 0 <= d.rows[i].strip.displayTop < d.rows[i].strip.displayBottom <= height(d.rows[i].strip.pageIndex)
  {
    var page := d.rows[i].strip.pageIndex;
    var k := RowHasStrip(d.rows, page, i);
    StripInsidePage(StripsOf(d.rows, page), height(page), k);
  }

  /** If only generation g has layers on a covered page, each of its strips is one of them. */
  lemma {:induction false} CoveredRowIsShown(t: Chapter, height: nat -> int, g: nat, page: nat, i: nat)
    requires PlansOk(t.generations, height) && (forall k :: k in t.layers ==> LayerOk(t, k))
    requires page !in t.pageLayers && (forall k :: k in t.layers && k.page == page ==> k.generation == g)
    requires g in t.generations && i < |t.generations[g].rows| && t.generations[g].rows[i].strip.pageIndex == page
    requires Covered(t, page, height(page))
    ensures KeyOf(g, t.generations[g].rows[i]) in t.layers
  {
    hide PlansOk, GenerationOk, LayerOk, LayerOf, LayerFits;
    var d := t.generations[g];
    PlanOf(t, height, g);
    RowInsidePage(d, height, i);
    var y := d.rows[i].strip.displayTop;
    assert Shows(t, page, y);
    var k :| k in t.layers && k.page == page && t.layers[k].top <= y < t.layers[k].bottom;
    var j := LayerHasRow(t, k);
    LayerIsOfRow(d, height, page, i, j, k, t.layers[k]);
  }

  lemma {:induction false} StripInsidePage(plan: seq<PlannedSegment>, height: int, k: nat)
    requires TilesPage(plan, height) && k < |plan|
    ensures 0 <= plan[k].displayTop < plan[k].displayBottom <= height
  {
    if k > 0 {
      StripsAreOrdered(plan, height, 0, k);
    }
    if k < |plan| - 1 {
      StripsAreOrdered(plan, height, k, |plan| - 1);
    }
  }

  // ---------------------------------------------------------------- every step

  ghost predicate SameImage(row: Row, row': Row) {
    row'.strip == row.strip && row'.translatedPath == row.translatedPath && row'.version == row.version
  }

  /** The same segments are completed, with the same images, and all have the same strips. */
  ghost predicate SameCompleted(rows: seq<Row>, rows': seq<Row>) {
    && |rows'| == |rows|
    && forall i :: 0 <= i < |rows| ==>
         && rows'[i].strip == rows[i].strip && (rows'[i].status == Completed <==> rows[i].status == Completed)
         && (rows[i].status == Completed ==> SameImage(rows[i], rows'[i]))
  }

  /** Completed segments stay completed, with their strips and images. */
  ghost predicate KeepsCompleted(rows: seq<Row>, rows': seq<Row>) {
    && |rows| <= |rows'|
    && forall i :: 0 <= i < |rows| && rows[i].status == Completed ==>
      rows'[i].status == Completed && SameImage(rows[i], rows'[i])
  }

  /** Completing more segments makes fewer generations the newest. */
  lemma {:induction false} NewestBack(c: Chapter, c': Chapter, g: nat, page: nat)
    requires forall h :: h in c.generations ==>
               h in c'.generations && KeepsCompleted(c.generations[h].rows, c'.generations[h].rows)
    requires Newest(c', g, page)
    ensures Newest(c, g, page)
  {
    forall h, i | h in c.generations && g < h && 0 <= i < |c.generations[h].rows|
      && c.generations[h].rows[i].strip.pageIndex == page
      ensures c.generations[h].rows[i].status != Completed
    {
      assert KeepsCompleted(c.generations[h].rows, c'.generations[h].rows);
      assert c'.generations[h].rows[i].status == Completed ==> c'.generations[h].rows[i].strip.pageIndex != page;
    }
  }

  /** Row i of generation g was completed before with the same strip, or is on display. */
  ghost predicate OldOrShown(c: Chapter, c': Chapter, g: nat, i: nat)
    requires g in c'.generations && i < |c'.generations[g].rows|
  {
    || (g in c.generations && i < |c.generations[g].rows| && c.generations[g].rows[i].status == Completed
        && c.generations[g].rows[i].strip == c'.generations[g].rows[i].strip)
    || KeyOf(g, c'.generations[g].rows[i]) in c'.layers
  }

  lemma {:induction false} NewestStaysOnDisplay(c: Chapter, c': Chapter)
    requires NewestOnDisplay(c) && forall k :: k in c.layers ==> k in c'.layers
    requires forall h :: h in c.generations ==>
               h in c'.generations && KeepsCompleted(c.generations[h].rows, c'.generations[h].rows)
    requires forall g: nat, i: nat :: OnDisplayDue(c', g, i) ==> OldOrShown(c, c', g, i)
    ensures NewestOnDisplay(c')
  {
    hide Newest, KeepsCompleted;
    forall g: nat, i: nat | OnDisplayDue(c', g, i)
      ensures KeyOf(g, c'.generations[g].rows[i]) in c'.layers
    {
      assert OldOrShown(c, c', g, i);
      if KeyOf(g, c'.generations[g].rows[i]) !in c'.layers {
        NewestBack(c, c', g, c'.generations[g].rows[i].strip.pageIndex);
      }
    }
  }

  /** Completed segments stay completed, and those that are newly completed are on display. */
  ghost predicate OldRowsOrShown(rows: seq<Row>, rows': seq<Row>, g: nat, layers: map<LayerKey, Layer>) {
    && KeepsCompleted(rows, rows')
    && forall i :: 0 <= i < |rows'| && rows'[i].status == Completed ==>
         || (i < |rows| && rows[i].status == Completed && rows[i].strip == rows'[i].strip)
         || KeyOf(g, rows'[i]) in layers
  }

  ghost function RowsOf(c: Chapter, g: nat): seq<Row> {
    if g in c.generations then c.generations[g].rows else []
  }

  /** The same with one generation replaced. */
  lemma {:induction false} NewestWithReplaced(c: Chapter, g: nat, d: Generation, layers: map<LayerKey, Layer>)
    requires NewestOnDisplay(c) && forall k :: k in c.layers ==> k in layers
    requires OldRowsOrShown(RowsOf(c, g), d.rows, g, layers)
    ensures NewestOnDisplay(SetGeneration(c, g, d).(layers := layers))
  {
    var c' := SetGeneration(c, g, d).(layers := layers);
    forall h: nat, i: nat | OnDisplayDue(c', h, i)
      ensures OldOrShown(c, c', h, i)
    {
    }
    NewestStaysOnDisplay(c, c');
  }

  lemma {:induction false} LayersKept(c: Chapter, g: nat, d: Generation)
    requires forall k :: k in c.layers ==> LayerOk(c, k)
    requires KeepsCompleted(RowsOf(c, g), d.rows)
    ensures forall k :: k in c.layers ==> LayerFits(c.generations[g := d], k, c.layers[k])
  {
    forall k | k in c.layers
      ensures LayerFits(c.generations[g := d], k, c.layers[k])
    {
      var j := LayerHasRow(c, k);
      assert LayerOf(c.generations[g := d][k.generation].rows[j], k, c.layers[k]);
    }
  }

  lemma {:induction false} PlansKept(c: Chapter, height: nat -> int, g: nat, d: Generation)
    requires PlansOk(c.generations, height) && GenerationOk(d, height)
    ensures PlansOk(c.generations[g := d], height)
  {
    hide GenerationOk;
  }

  lemma {:induction false} SameStripsAreOk(d: Generation, d': Generation, height: nat -> int)
    requires GenerationOk(d, height) && PlanOk(d') && SameCompleted(d.rows, d'.rows)
    ensures GenerationOk(d', height)
  {
    hide PlanOk;
    forall page
      ensures StripsOf(d'.rows, page) == StripsOf(d.rows, page)
    {
      StripsSame(d.rows, d'.rows, page);
    }
  }

  /** Statements that neither complete a segment nor reopen a completed one keep everything. */
  lemma {:induction false} SameCompletedKeeps(c: Chapter, height: nat -> int, g: nat, d: Generation)
    requires Inv(c, height) && g in c.generations && PlanOk(d) && SameCompleted(c.generations[g].rows, d.rows)
    ensures Inv(SetGeneration(c, g, d), height)
  {
    assert GenerationOk(c.generations[g], height);
    hide PlanOk, GenerationOk, LayerFits, NewestOnDisplay, PlansOk;
    SameStripsAreOk(c.generations[g], d, height);
    PlansKept(c, height, g, d);
    LayersKept(c, g, d);
    NewestWithReplaced(c, g, d, c.layers);
  }

  lemma {:induction false} CreateKeeps(c: Chapter, height: nat -> int, g: nat, pageIndexes: seq<nat>)
    requires Inv(c, height) && Enabled(c, height, Create(g, pageIndexes))
    ensures Inv(SetGeneration(c, g, NewGeneration(pageIndexes)), height)
  {
    assert GenerationOk(NewGeneration(pageIndexes), height);
    hide PlanOk, GenerationOk, NewGeneration, LayerFits, NewestOnDisplay, PlansOk;
    PlansKept(c, height, g, NewGeneration(pageIndexes));
    LayersKept(c, g, NewGeneration(pageIndexes));
    NewestWithReplaced(c, g, NewGeneration(pageIndexes), c.layers);
  }

  /** Appended rows are not completed, and the strips of their page are the plan. */
  lemma {:induction false} AppendedIsOk(d: Generation, height: nat -> int, place: nat, plan: seq<PlannedSegment>)
    requires GenerationOk(d, height) && IsNextPage(d, place) && NumbersPage(plan, d.pages[place].pageIndex)
    requires TilesPage(plan, height(d.pages[place].pageIndex))
    ensures AppendCheck(d, d.pages[place].pageIndex, plan).None?
    ensures var d' := AppendPage(d, d.pages[place].pageIndex, plan);
            GenerationOk(d', height) && d'.rows == d.rows + NewRows(plan, |d.rows|)
  {
    var pageIndex := d.pages[place].pageIndex;
    AppendKeepsPlan(d, place, plan);
    forall i | 0 <= i < |d.rows|
      ensures d.rows[i].strip.pageIndex != pageIndex
    {
      RowsAreBeforeNextPage(d, place, i);
    }
    StripsOfOther(d.rows, pageIndex);
    var d' := AppendPage(d, pageIndex, plan);
    hide PlanOk, AppendPage, AppendCheck;
    forall page | StripsOf(d'.rows, page) != []
      ensures TilesPage(StripsOf(d'.rows, page), height(page))
    {
      StripsAppend(d.rows, NewRows(plan, |d.rows|), page);
      StripsOfNew(plan, |d.rows|, pageIndex, page);
      assert StripsOf(d'.rows, page) == if page == pageIndex then plan else StripsOf(d.rows, page);
    }
  }

  lemma AppendedRowsAreNotCompleted(rows: seq<Row>, plan: seq<PlannedSegment>, g: nat, layers: map<LayerKey, Layer>)
    ensures var rows' := rows + NewRows(plan, |rows|);
            KeepsCompleted(rows, rows') && OldRowsOrShown(rows, rows', g, layers)
  {
  }

  lemma {:induction false} AppendPlanKeeps(c: Chapter, height: nat -> int, g: nat, place: nat,
                                           plan: seq<PlannedSegment>)
    requires Inv(c, height) && Enabled(c, height, AppendPlan(g, place, plan))
    ensures Inv(Next(c, height, AppendPlan(g, place, plan)), height)
  {
    var d := c.generations[g];
    assert GenerationOk(d, height);
    AppendedIsOk(d, height, place, plan);
    var d' := AppendPage(d, d.pages[place].pageIndex, plan);
    assert Next(c, height, AppendPlan(g, place, plan)) == SetGeneration(c, g, d');
    hide PlanOk, GenerationOk, AppendPage, AppendCheck, Enabled, IsNextPage, TilesPage, LayerFits, NewestOnDisplay,
      PlansOk, Next;
    PlansKept(c, height, g, d');
    AppendedRowsAreNotCompleted(d.rows, plan, g, c.layers);
    hide KeepsCompleted, NewRows;
    LayersKept(c, g, d');
    NewestWithReplaced(c, g, d', c.layers);
  }

  /** Two segments of a generation never share a key. */
  lemma {:induction false} KeysAreUnique(d: Generation, i: nat, j: nat)
    requires PlanOk(d) && i < |d.rows| && j < |d.rows|
    requires d.rows[i].strip.pageIndex == d.rows[j].strip.pageIndex
    requires d.rows[i].strip.segmentIndex == d.rows[j].strip.segmentIndex
    ensures i == j
  {
    if i < j {
      GlobalIndexIsLexicographic(d, i, j);
    } else if j < i {
      GlobalIndexIsLexicographic(d, j, i);
    }
  }

  /** A segment that is not completed has no layer yet. */
  lemma {:induction false} NoLayerYet(c: Chapter, height: nat -> int, g: nat, i: nat)
    requires Inv(c, height) && Unfinished(c, g, i)
    ensures KeyOf(g, c.generations[g].rows[i]) !in c.layers
  {
    hide PlansOk, LayerFits, NewestOnDisplay, PlanOk;
    var d := c.generations[g];
    var k := KeyOf(g, d.rows[i]);
    PlanOf(c, height, g);
    if k in c.layers {
      assert LayerOk(c, k);
      var j := LayerHasRow(c, k);
      KeysAreUnique(d, i, j);
    }
  }

  lemma {:induction false} CompletedIsOk(d: Generation, height: nat -> int, i: nat, path: Path, version: string)
    requires GenerationOk(d, height) && i < |d.rows|
    ensures var d' := CompleteRow(d, i, path, version);
            && GenerationOk(d', height) && |d'.rows| == |d.rows|
            && d'.rows == d.rows[i := d.rows[i].(status := Completed, translatedPath := Some(path),
                                                 version := Some(version), errorStage := None)]
  {
    var d' := CompleteRow(d, i, path, version);
    SamePlanKeepsPlan(d, d');
    hide PlanOk, CountStatus;
    forall page
      ensures StripsOf(d'.rows, page) == StripsOf(d.rows, page)
    {
      StripsSame(d.rows, d'.rows, page);
    }
  }

  lemma CompletedRowIsShown(rows: seq<Row>, i: nat, row: Row, g: nat, layers: map<LayerKey, Layer>)
    requires i < |rows| && rows[i].status != Completed
    requires row.status == Completed && row.strip == rows[i].strip && KeyOf(g, rows[i]) in layers
    ensures KeepsCompleted(rows, rows[i := row]) && OldRowsOrShown(rows, rows[i := row], g, layers)
  {
  }

  lemma {:induction false} CompleteKeeps(c: Chapter, height: nat -> int, g: nat, i: nat, path: Path, version: string)
    requires Inv(c, height) && Unfinished(c, g, i)
    ensures Inv(Complete(c, g, i, path, version), height)
  {
    hide PlanOk, GenerationOk, CompleteRow, LayerFits, NewestOnDisplay, PlansOk, KeepsCompleted, OldRowsOrShown;
    var d := c.generations[g];
    PlanOf(c, height, g);
    var d' := CompleteRow(d, i, path, version);
    var row := d.rows[i];
    var layer := Layer(row.strip.displayTop, row.strip.displayBottom, path, version);
    var layers := c.layers[KeyOf(g, row) := layer];
    CompletedIsOk(d, height, i, path, version);
    PlansKept(c, height, g, d');
    CompletedRowIsShown(d.rows, i, d'.rows[i], g, layers);
    LayersKept(c, g, d');
    CompletedLayerFits(c, g, i, d', layer);
    NewestWithReplaced(c, g, d', layers);
    CompletedInv(c, height, g, d', layers, Complete(c, g, i, path, version));
  }

  lemma CompletedInv(c: Chapter, height: nat -> int, g: nat, d': Generation, layers: map<LayerKey, Layer>, c': Chapter)
    requires c' == SetGeneration(c, g, d').(layers := layers)
    requires PlansOk(c.generations[g := d'], height) && NewestOnDisplay(SetGeneration(c, g, d').(layers := layers))
    requires forall k :: k in layers ==> LayerFits(c.generations[g := d'], k, layers[k])
    ensures Inv(c', height)
  {
    hide PlansOk, LayerFits, NewestOnDisplay;
  }

  lemma {:induction false} CompletedLayerFits(c: Chapter, g: nat, i: nat, d': Generation, layer: Layer)
    requires g in c.generations && i < |c.generations[g].rows| && i < |d'.rows|
    requires d'.rows[i].status == Completed && d'.rows[i].strip == c.generations[g].rows[i].strip
    requires layer.top == d'.rows[i].strip.displayTop && layer.bottom == d'.rows[i].strip.displayBottom
    requires d'.rows[i].translatedPath == Some(layer.path) && d'.rows[i].version == Some(layer.version)
    ensures LayerFits(c.generations[g := d'], KeyOf(g, c.generations[g].rows[i]), layer)
  {
    assert LayerOf(c.generations[g := d'][g].rows[i], KeyOf(g, c.generations[g].rows[i]), layer);
  }


  // ---------------------------------------------------------------- publishing in a run

  /** Right after the newest generation of a page publishes it, the layers of the page are exactly its
      strips, and they cover the page. */
  lemma {:induction false} PublishShowsExactly(c: Chapter, height: nat -> int, g: nat, page: nat)
    requires Inv(c, height) && g in c.generations && Newest(c, g, page)
    requires OutcomeOf(c.generations[g].rows, page).AllReady?
    ensures ShowsExactly(Publish(c, g, page), g, page) && Covered(Publish(c, g, page), page, height(page))
  {
    hide PlansOk, LayerFits, OutcomeOf, PlannedPage, Covered, Newest, MarkPublished;
    var t := Publish(c, g, page);
    PublishKeepsRows(c, height, g, page);
    ReadyIsPlanned(c.generations[g].rows, page);
    forall i: nat | i < |c.generations[g].rows| && c.generations[g].rows[i].strip.pageIndex == page
      ensures KeyOf(g, c.generations[g].rows[i]) in t.layers
    {
      assert OnDisplayDue(c, g, i);
    }
    PublishCoversIff(c, height, g, page);
  }

  lemma {:induction false} PublishKeeps(c: Chapter, height: nat -> int, g: nat, page: nat)
    requires Inv(c, height) && g in c.generations && Newest(c, g, page)
    ensures Inv(Publish(c, g, page), height)
  {
    hide PlansOk, LayerFits, OutcomeOf, PlannedPage, MarkPublished, Newest;
    if OutcomeOf(c.generations[g].rows, page).AllReady? {
      PublishKeepsRows(c, height, g, page);
      ReadyIsPlanned(c.generations[g].rows, page);
      PublishKeepsNewest(c, Publish(c, g, page), g, page);
    }
  }

  lemma {:induction false} PublishKeepsNewest(c: Chapter, t: Chapter, g: nat, page: nat)
    requires NewestOnDisplay(c) && g in c.generations && Newest(c, g, page)
    requires PlannedPage(c.generations[g].rows, page)
    requires forall i :: 0 <= i < |c.generations[g].rows| && c.generations[g].rows[i].strip.pageIndex == page ==>
               c.generations[g].rows[i].status == Completed
    requires t.generations.Keys == c.generations.Keys
    requires forall h :: h in c.generations ==> t.generations[h].rows == c.generations[h].rows
    requires forall k :: k in c.layers && !(k.page == page && k.generation != g) ==> k in t.layers
    ensures NewestOnDisplay(t)
  {
    var first :| 0 <= first < |c.generations[g].rows| && c.generations[g].rows[first].strip.pageIndex == page;
    forall h: nat, i: nat | OnDisplayDue(t, h, i)
      ensures KeyOf(h, t.generations[h].rows[i]) in t.layers
    {
      var row := c.generations[h].rows[i];
      assert t.generations[g].rows[first].status == Completed;
      forall g', j | g' in c.generations && h < g' && 0 <= j < |c.generations[g'].rows|
        && c.generations[g'].rows[j].strip.pageIndex == row.strip.pageIndex
        ensures c.generations[g'].rows[j].status != Completed
      {
        assert t.generations[g'].rows[j].status != Completed;
      }
      assert OnDisplayDue(c, h, i);
      assert row.strip.pageIndex == page ==> h <= g;
    }
  }

  // ---------------------------------------------------------------- restarts

  /** The layer of a completed segment goes with the segment if and only if its image is missing. */
  lemma {:induction false} LayerGoesIff(c: Chapter, height: nat -> int, k: LayerKey, indexed: set<Path>)
    requires PlansOk(c.generations, height) && k in c.layers && LayerOk(c, k)
    ensures LosesLayer(c.generations, k, indexed) <==> c.layers[k].path !in indexed
  {
    var j := LayerHasRow(c, k);
    var d := c.generations[k.generation];
    assert PlanOk(d) by { PlanOf(c, height, k.generation); }
    hide PlanOk, PlansOk, GenerationOk, LayerOk;
    assert Damage(d.rows[j], indexed).Some? <==> c.layers[k].path !in indexed;
    if LosesLayer(c.generations, k, indexed) {
      var i :| 0 <= i < |d.rows| && KeyOf(k.generation, d.rows[i]) == k && Damage(d.rows[i], indexed).Some?;
      KeysAreUnique(d, i, j);
    }
  }

  /** A restart takes exactly the layers off the display whose image is missing, and what becomes of each
      generation is decided by its own segments alone: the second look, at the layers, finds nothing more. */
  lemma {:induction false} RecoveryShowsWhatIsThere(c: Chapter, height: nat -> int, indexed: set<Path>)
    requires PlansOk(c.generations, height) && forall k :: k in c.layers ==> LayerOk(c, k)
    ensures var t := Recover(c, indexed);
            && t.layers == (map k | k in c.layers && c.layers[k].path in indexed :: c.layers[k])
            && t.pageLayers == c.pageLayers && t.generations.Keys == c.generations.Keys
            && forall g :: g in c.generations ==> t.generations[g] == RecoverCheckpoints(c.generations[g], indexed)
  {
    hide PlansOk, LayerOk, Damage, RecoveredGeneration, LosesLayer;
    var left := LeftLayers(c, indexed);
    forall k | k in c.layers
      ensures k in left <==> c.layers[k].path in indexed
    {
      LayerGoesIff(c, height, k, indexed);
    }
    forall g | g in c.generations
      ensures RecoveredGeneration(g, c.generations[g], left, indexed) == RecoverCheckpoints(c.generations[g], indexed)
    {
      NothingInvalid(g, c.generations[g], left, indexed);
    }
  }

  lemma NothingInvalid(g: nat, d: Generation, layers: map<LayerKey, Layer>, indexed: set<Path>)
    requires forall k :: k in layers ==> layers[k].path in indexed
    ensures RecoveredGeneration(g, d, layers, indexed) == RecoverCheckpoints(d, indexed)
  {
    var rows := RecoveredRows(d.rows, indexed);
    assert WithoutImages(g, rows, layers, indexed) == rows;
    if !Damaged(d.rows, indexed) {
      assert rows == d.rows;
    }
    hide Damage, RecoveredRows;
  }

  /** Whatever state the layers are in: afterwards every layer has its image, and no segment is completed whose layer
      had lost it. */
  lemma {:induction false} RecoveryLeavesNoMissingImage(c: Chapter, indexed: set<Path>, g: nat, i: nat)
    requires g in c.generations && i < |c.generations[g].rows| && PlanOk(c.generations[g])
    ensures forall k :: k in Recover(c, indexed).layers ==> Recover(c, indexed).layers[k].path in indexed
    ensures var k := KeyOf(g, c.generations[g].rows[i]);
            && |Recover(c, indexed).generations[g].rows| == |c.generations[g].rows|
            && (k in c.layers && c.layers[k].path !in indexed ==>
                  Recover(c, indexed).generations[g].rows[i].status != Completed)
  {
    hide CountStatus, IsAffected, PlanOk, Damage, RetriedRow;
    var d := c.generations[g];
    var k := KeyOf(g, d.rows[i]);
    if Damage(d.rows[i], indexed).Some? {
      DamagedIsPending(d.rows[i], indexed);
    } else if k in c.layers {
      if LosesLayer(c.generations, k, indexed) {
        var j :| 0 <= j < |d.rows| && KeyOf(g, d.rows[j]) == k && Damage(d.rows[j], indexed).Some?;
        KeysAreUnique(d, i, j);
      }
      assert k in LeftLayers(c, indexed);
    }
  }

  lemma DamagedIsPending(row: Row, indexed: set<Path>)
    requires Damage(row, indexed).Some?
    ensures RecoveredRow(row, indexed).status == Pending
  {
  }

  /** Plans and layers stay consistent through every restart. */
  lemma {:induction false} RecoveryKeepsLayers(c: Chapter, height: nat -> int, indexed: set<Path>)
    requires PlansOk(c.generations, height) && forall k :: k in c.layers ==> LayerOk(c, k)
    ensures var t := Recover(c, indexed);
            PlansOk(t.generations, height) && forall k :: k in t.layers ==> LayerOk(t, k)
  {
    hide Recover, PlansOk, LayerOk, RecoverCheckpoints, GenerationOk;
    RecoveryShowsWhatIsThere(c, height, indexed);
    var t := Recover(c, indexed);
    forall g | g in c.generations
      ensures GenerationOk(t.generations[g], height)
    {
      PlanOf(c, height, g);
      RecoveredPlanIsOk(c.generations[g], height, indexed);
    }
    PlansFrom(t.generations, height);
    forall k | k in t.layers
      ensures LayerOk(t, k)
    {
      var j := LayerHasRow(c, k);
      RecoveredRowAt(c.generations[k.generation], indexed, j);
      LayerFrom(t, k, j);
    }
  }

  lemma PlansFrom(generations: map<nat, Generation>, height: nat -> int)
    requires forall g :: g in generations ==> GenerationOk(generations[g], height)
    ensures PlansOk(generations, height)
  {
    hide GenerationOk;
  }

  lemma LayerFrom(t: Chapter, k: LayerKey, j: nat)
    requires k in t.layers && k.generation in t.generations && j < |t.generations[k.generation].rows|
    requires LayerOf(t.generations[k.generation].rows[j], k, t.layers[k])
    ensures LayerOk(t, k)
  {
  }

  lemma {:induction false} RecoveredPlanIsOk(d: Generation, height: nat -> int, indexed: set<Path>)
    requires GenerationOk(d, height)
    ensures GenerationOk(RecoverCheckpoints(d, indexed), height)
  {
    var t := RecoverCheckpoints(d, indexed);
    hide PlanOk, CountStatus, Damaged, Damage;
    SamePlanKeepsPlan(d, t);
    forall page
      ensures StripsOf(t.rows, page) == StripsOf(d.rows, page)
    {
      StripsSame(d.rows, t.rows, page);
    }
  }

  lemma RecoveredRowAt(d: Generation, indexed: set<Path>, j: nat)
    requires j < |d.rows|
    ensures var t := RecoverCheckpoints(d, indexed);
            && |t.rows| == |d.rows| && t.rows[j] == RecoveredRow(d.rows[j], indexed)
            && (d.rows[j].status == Completed && There(d.rows[j].translatedPath, indexed) ==> t.rows[j] == d.rows[j])
            && t.rows[j].strip == d.rows[j].strip && (d.rows[j].status != Completed ==> t.rows[j].status != Completed)
  {
    hide CountStatus;
    assert Damage(d.rows[j], indexed).Some? ==> Damaged(d.rows, indexed);
  }

  /** If no completed segment has lost its image, a restart leaves the display as it is. */
  lemma {:induction false} RestartKeeps(c: Chapter, height: nat -> int, indexed: set<Path>)
    requires Inv(c, height) && ImagesThere(c, indexed)
    ensures Inv(Recover(c, indexed), height) && Recover(c, indexed).layers == c.layers
    ensures Recover(c, indexed).pageLayers == c.pageLayers
  {
    hide Recover, PlansOk, LayerOk, LayerOf, RecoverCheckpoints, GenerationOk, NewestOnDisplay;
    RecoveryShowsWhatIsThere(c, height, indexed);
    RecoveryKeepsLayers(c, height, indexed);
    var t := Recover(c, indexed);
    forall k | k in c.layers
      ensures c.layers[k].path in indexed
    {
      LayerIsThere(c, k, indexed);
    }
    assert t.layers == c.layers;
    forall g | g in c.generations
      ensures OldRowsOrShown(c.generations[g].rows, t.generations[g].rows, g, t.layers)
    {
      RecoveredRowsAreOld(c, g, indexed, t.layers);
    }
    NewestAfterRestart(c, t);
  }

  lemma LayerIsThere(c: Chapter, k: LayerKey, indexed: set<Path>)
    requires k in c.layers && LayerOk(c, k) && ImagesThere(c, indexed)
    ensures c.layers[k].path in indexed
  {
    var j := LayerHasRow(c, k);
  }

  lemma RecoveredRowsAreOld(c: Chapter, g: nat, indexed: set<Path>, layers: map<LayerKey, Layer>)
    requires g in c.generations && ImagesThere(c, indexed)
    ensures OldRowsOrShown(c.generations[g].rows, RecoverCheckpoints(c.generations[g], indexed).rows, g, layers)
  {
    hide RecoverCheckpoints;
    var d := c.generations[g];
    var t := RecoverCheckpoints(d, indexed);
    RecoveredRowsAreAsMany(d, indexed);
    forall i | 0 <= i < |d.rows|
      ensures d.rows[i].status == Completed ==> t.rows[i] == d.rows[i]
      ensures d.rows[i].status != Completed ==> t.rows[i].status != Completed
    {
      RecoveredRowAt(d, indexed, i);
    }
  }

  lemma RecoveredRowsAreAsMany(d: Generation, indexed: set<Path>)
    ensures |RecoverCheckpoints(d, indexed).rows| == |d.rows|
  {
  }

  lemma {:induction false} NewestAfterRestart(c: Chapter, t: Chapter)
    requires NewestOnDisplay(c) && t.layers == c.layers && t.generations.Keys == c.generations.Keys
    requires forall g :: g in c.generations ==>
               OldRowsOrShown(c.generations[g].rows, t.generations[g].rows, g, t.layers)
    ensures NewestOnDisplay(t)
  {
    forall g: nat, i: nat | OnDisplayDue(t, g, i)
      ensures OldOrShown(c, t, g, i)
    {
      assert OldRowsOrShown(c.generations[g].rows, t.generations[g].rows, g, t.layers);
    }
    NewestStaysOnDisplay(c, t);
  }

  /** A page that one generation covers alone stays covered through a restart if and only if no image on it is
      missing. */
  lemma {:induction false} RestartUncoversIff(c: Chapter, height: nat -> int, g: nat, page: nat, indexed: set<Path>)
    requires PlansOk(c.generations, height) && forall k :: k in c.layers ==> LayerOk(c, k)
    requires page !in c.pageLayers && forall k :: k in c.layers && k.page == page ==> k.generation == g
    requires g in c.generations && Covered(c, page, height(page))
    ensures Covered(Recover(c, indexed), page, height(page)) <==>
              forall k :: k in c.layers && k.page == page ==> c.layers[k].path in indexed
  {
    hide Recover, PlansOk, LayerOk, LayerOf, RecoverCheckpoints, Covered;
    RecoveryShowsWhatIsThere(c, height, indexed);
    RecoveryKeepsLayers(c, height, indexed);
    var t := Recover(c, indexed);
    if forall k :: k in c.layers && k.page == page ==> c.layers[k].path in indexed {
      GrowingLayersCover(c, t, page, height(page));
    }
    if Covered(t, page, height(page)) {
      forall k | k in c.layers && k.page == page
        ensures c.layers[k].path in indexed
      {
        var j := LayerHasRow(c, k);
        LayerKeyIs(c, k, j);
        RecoveredRowAt(c.generations[g], indexed, j);
        CoveredRowIsShown(t, height, g, page, j);
      }
    }
  }

  lemma LayerKeyIs(c: Chapter, k: LayerKey, j: nat)
    requires k in c.layers && k.generation in c.generations && j < |c.generations[k.generation].rows|
    requires LayerOf(c.generations[k.generation].rows[j], k, c.layers[k])
    ensures KeyOf(k.generation, c.generations[k.generation].rows[j]) == k
  {
  }

  // ---------------------------------------------------------------- coverage never regresses

  lemma {:induction false} FailedRowIsSame(d: Generation, i: nat, stage: string)
    requires PlanOk(d) && i < |d.rows| && d.rows[i].status != Completed
    ensures PlanOk(FailRow(d, i, stage)) && SameCompleted(d.rows, FailRow(d, i, stage).rows)
  {
    SamePlanKeepsPlan(d, FailRow(d, i, stage));
  }

  lemma {:induction false} WorkedRowIsSame(d: Generation, i: nat, next: Row)
    requires PlanOk(d) && i < |d.rows| && d.rows[i].status != Completed
    requires next.status != Completed && next.strip == d.rows[i].strip && next.globalIndex == d.rows[i].globalIndex
    ensures PlanOk(SetRow(d, i, next)) && SameCompleted(d.rows, SetRow(d, i, next).rows)
  {
    SamePlanKeepsPlan(d, SetRow(d, i, next));
  }

  lemma {:induction false} RetriedRowIsSame(d: Generation, i: nat)
    requires PlanOk(d) && i < |d.rows| && d.rows[i].status == Failed
    ensures PlanOk(RetryRow(d, i)) && SameCompleted(d.rows, RetryRow(d, i).rows)
  {
    SamePlanKeepsPlan(d, RetryRow(d, i));
  }

  lemma {:induction false} RetriedAllAreSame(d: Generation)
    requires PlanOk(d)
    ensures PlanOk(RetryAll(d)) && SameCompleted(d.rows, RetryAll(d).rows)
  {
    hide PlanOk, CountStatus;
    SamePlanKeepsPlan(d, RetryAll(d));
  }

  lemma {:induction false} StepKeeps(c: Chapter, height: nat -> int, step: Step)
    requires Inv(c, height) && Enabled(c, height, step)
    ensures Inv(Next(c, height, step), height)
  {
    if !step.Create? && !step.Restart? {
      assert PlanOk(c.generations[step.generation]) by { PlanOf(c, height, step.generation); }
    }
    hide Inv, PlanOk, SameCompleted, IsNextPage, Complete, Publish, Recover, ImagesThere, AppendCheck, AppendPage,
      FailRow, RetryRow, RetryAll, NewGeneration, TilesPage, NumbersPage;
    match step
    case Create(g, pageIndexes) => CreateKeeps(c, height, g, pageIndexes);
    case AppendPlan(g, place, plan) => AppendPlanKeeps(c, height, g, place, plan);
    case Work(g, i, next) =>
      WorkedRowIsSame(c.generations[g], i, next);
      SameCompletedKeeps(c, height, g, SetRow(c.generations[g], i, next));
    case CompleteSegment(g, i, path, version) => CompleteKeeps(c, height, g, i, path, version);
    case FailSegment(g, i, stage) =>
      FailedRowIsSame(c.generations[g], i, stage);
      SameCompletedKeeps(c, height, g, FailRow(c.generations[g], i, stage));
    case RetrySegment(g, i) =>
      RetriedRowIsSame(c.generations[g], i);
      SameCompletedKeeps(c, height, g, RetryRow(c.generations[g], i));
    case RetryFailed(g) =>
      RetriedAllAreSame(c.generations[g]);
      SameCompletedKeeps(c, height, g, RetryAll(c.generations[g]));
    case PublishPage(g, page) => PublishKeeps(c, height, g, page);
    case Restart(indexed) => RestartKeeps(c, height, indexed);
  }

  /** No layer of the page is lost. */
  ghost predicate LayersGrow(c: Chapter, c': Chapter, page: nat) {
    && (page in c.pageLayers ==> page in c'.pageLayers && c'.pageLayers[page] == c.pageLayers[page])
    && forall k :: k in c.layers && k.page == page ==> k in c'.layers && c'.layers[k] == c.layers[k]
  }

  lemma {:induction false} GrowingLayersCover(c: Chapter, c': Chapter, page: nat, height: int)
    requires LayersGrow(c, c', page) && Covered(c, page, height)
    ensures Covered(c', page, height)
  {
    forall y | 0 <= y < height
      ensures Shows(c', page, y)
    {
      assert Shows(c, page, y);
      if !(page in c.pageLayers && 0 <= y < c.pageLayers[page]) {
        var k :| k in c.layers && k.page == page && c.layers[k].top <= y < c.layers[k].bottom;
        assert k in c'.layers && c'.layers[k].top <= y < c'.layers[k].bottom;
      }
    }
  }

  /** Every step but publishing that very page leaves its layers on display. */
  lemma {:induction false} StepGrowsLayers(c: Chapter, height: nat -> int, step: Step, page: nat)
    requires Inv(c, height) && Enabled(c, height, step)
    requires step.PublishPage? ==> step.page != page || !OutcomeOf(c.generations[step.generation].rows, page).AllReady?
    ensures LayersGrow(c, Next(c, height, step), page)
  {
    hide Inv, PlanOk, IsNextPage, AppendCheck, AppendPage, FailRow, RetryRow, RetryAll, NewGeneration, TilesPage,
      NumbersPage, Recover, ImagesThere, OutcomeOf, Newest, CompleteRow, MarkPublished;
    match step
    case CompleteSegment(g, i, path, version) => NoLayerYet(c, height, g, i);
    case PublishPage(g, other) => PublishGrowsOthers(c, g, other, page);
    case Restart(indexed) => RestartKeeps(c, height, indexed);
    case _ => assert Next(c, height, step).layers == c.layers && Next(c, height, step).pageLayers == c.pageLayers;
  }

  lemma PublishGrowsOthers(c: Chapter, g: nat, other: nat, page: nat)
    requires g in c.generations && (other != page || !OutcomeOf(c.generations[g].rows, other).AllReady?)
    ensures LayersGrow(c, Publish(c, g, other), page)
  {
    hide OutcomeOf, MarkPublished;
  }

  lemma {:induction false} StepKeepsCoverage(c: Chapter, height: nat -> int, step: Step, page: nat)
    requires Inv(c, height) && Enabled(c, height, step) && Covered(c, page, height(page))
    ensures Covered(Next(c, height, step), page, height(page))
  {
    hide Inv, Covered, OutcomeOf, Publish, Newest;
    if step.PublishPage? && step.page == page && OutcomeOf(c.generations[step.generation].rows, page).AllReady? {
      PublishShowsExactly(c, height, step.generation, page);
    } else {
      StepGrowsLayers(c, height, step, page);
      hide Next, Enabled, LayersGrow;
      GrowingLayersCover(c, Next(c, height, step), page, height(page));
    }
  }

  /** An arbitrary run; steps that are not enabled are skipped. */
  ghost function Run(c: Chapter, height: nat -> int, steps: seq<Step>): (t: Chapter)
    requires Inv(c, height)
    ensures Inv(t, height)
    decreases |steps|
  {
    if |steps| == 0 then c
    else if !Enabled(c, height, steps[0]) then Run(c, height, steps[1..])
    else
      StepKeeps(c, height, steps[0]);
      Run(Next(c, height, steps[0]), height, steps[1..])
  }

  /** Once a page is covered it stays covered, through every run in which a page is completed and published
      only by the newest generation that has completed any of its segments, and every restart finds the images
      of the completed segments. */
  lemma {:induction false} CoverageNeverRegresses(c: Chapter, height: nat -> int, steps: seq<Step>, page: nat)
    requires Inv(c, height) && Covered(c, page, height(page))
    ensures Covered(Run(c, height, steps), page, height(page))
    decreases |steps|
  {
    hide Inv, Covered, Enabled, Next;
    if |steps| > 0 {
      if Enabled(c, height, steps[0]) {
        StepKeeps(c, height, steps[0]);
        StepKeepsCoverage(c, height, steps[0], page);
        CoverageNeverRegresses(Next(c, height, steps[0]), height, steps[1..], page);
      } else {
        CoverageNeverRegresses(c, height, steps[1..], page);
      }
    }
  }
}
