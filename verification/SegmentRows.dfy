/** The rows that app/repositories/translation.py keeps for one generation of translations: the
    generation itself, its pages and its segments, and what each statement does to them. */
module SegmentRows {
  import opened Common
  import opened SegmentPlanner

  datatype SegmentStatus = Pending | Ocr | Translating | Rendering | Completed | Failed

  datatype PageStatus = PagePending | PageCompleted | PageFailed

  datatype GenerationStatus =
    | Preparing | Queued | Running | StoppingAfterPage | StoppingAfterSegment
    | Paused | AllCompleted | CompletedWithErrors | GenerationFailed

  /** One segment with its checkpoints: the paths of what earlier stages have stored for it. */
  datatype Row = Row(strip: PlannedSegment, globalIndex: nat, status: SegmentStatus,
                     ocrPath: Option<Path>, blocksPath: Option<Path>, translationsPath: Option<Path>,
                     translatedPath: Option<Path>, version: Option<string>,
                     errorStage: Option<string>, attempts: nat)

  datatype Page = Page(pageIndex: nat, prepared: bool, status: PageStatus)

  /** The segment rows are listed in the order of their global index (see PlanOk), and a segment is
      named by its place in that list. */
  datatype Generation = Generation(status: GenerationStatus, stopRequested: bool, current: Option<nat>,
                                   planningComplete: bool, totalSegments: nat,
                                   completedSegments: nat, failedSegments: nat,
                                   pages: seq<Page>, rows: seq<Row>)

  /** A generation as it is created: nothing prepared, nothing begun. */
  function NewGeneration(pageIndexes: seq<nat>): Generation {
    Generation(Preparing, false, None, false, 0, 0, 0,
               seq(|pageIndexes|, k requires 0 <= k < |pageIndexes| => Page(pageIndexes[k], false, PagePending)), [])
  }

  function SetRow(d: Generation, i: nat, row: Row): Generation
    requires i < |d.rows|
  {
    d.(rows := d.rows[i := row])
  }

  function StageName(status: SegmentStatus): string {
    match status
    case Pending => "pending"
    case Ocr => "ocr"
    case Translating => "translating"
    case Rendering => "rendering"
    case Completed => "completed"
    case Failed => "failed"
  }

  // ---------------------------------------------------------------- queries

  predicate Terminal(row: Row) {
    row.status in {Completed, Failed}
  }

  predicate NeedsOcr(row: Row) {
    row.status == Pending && (row.ocrPath.None? || row.blocksPath.None?)
  }

  function CountStatus(rows: seq<Row>, status: SegmentStatus): nat {
    if |rows| == 0 then 0
    else CountStatus(rows[..|rows| - 1], status) + if rows[|rows| - 1].status == status then 1 else 0
  }

  /** The unfinished segment with the least global index, looked for from place i. */
  function NextUnfinished(rows: seq<Row>, i: nat): (r: Option<nat>)
    requires i <= |rows|
    ensures r.Some? ==>
              && i <= r.value < |rows| && !Terminal(rows[r.value])
              && forall j :: i <= j < r.value ==> Terminal(rows[j])
    ensures r.None? ==> forall j :: i <= j < |rows| ==> Terminal(rows[j])
    decreases |rows| - i
  {
    if i == |rows| then None else if !Terminal(rows[i]) then Some(i) else NextUnfinished(rows, i + 1)
  }

  // ---------------------------------------------------------------- segment statements

  function RefreshCounts(d: Generation): Generation {
    d.(completedSegments := CountStatus(d.rows, Completed), failedSegments := CountStatus(d.rows, Failed))
  }

  function ClaimOcr(d: Generation, i: nat): Generation
    requires i < |d.rows|
  {
    var row := d.rows[i];
    if row.status == Pending then SetRow(d, i, row.(status := Ocr, attempts := row.attempts + 1, errorStage := None))
      else d
  }

  function MarkOcrReady(d: Generation, i: nat, ocr: Path, blocks: Path): Generation
    requires i < |d.rows|
  {
    var row := d.rows[i];
    if row.status == Ocr then
      SetRow(d, i, row.(status := Pending, ocrPath := Some(ocr), blocksPath := Some(blocks), errorStage := None))
    else d
  }

  function ResetOcr(d: Generation, i: nat): Generation
    requires i < |d.rows|
  {
    if d.rows[i].status == Ocr then SetRow(d, i, d.rows[i].(status := Pending)) else d
  }

  /** set_segment_stage, with a new translations path when there is one. */
  function SetStage(d: Generation, i: nat, status: SegmentStatus, translations: Option<Path>): Generation
    requires i < |d.rows|
  {
    var row := d.rows[i];
    SetRow(d, i, row.(status := status, errorStage := None,
                      translationsPath := if translations.Some? then translations else row.translationsPath))
  }

  function CompleteRow(d: Generation, i: nat, path: Path, version: string): Generation
    requires i < |d.rows|
  {
    var row := d.rows[i];
    RefreshCounts(SetRow(d, i, row.(status := Completed, translatedPath := Some(path), version := Some(version),
                                    errorStage := None)))
  }

  function FailRow(d: Generation, i: nat, stage: string): Generation
    requires i < |d.rows|
  {
    RefreshCounts(SetRow(d, i, d.rows[i].(status := Failed, errorStage := Some(stage))))
  }

  // ---------------------------------------------------------------- retries

  /** Which checkpoints a retry forgets, by the stage that failed. */
  datatype ClearFrom = FromOcr | FromTranslations | FromTranslated

  function RetryClears(stage: string): ClearFrom {
    if stage == "ocr" then FromOcr
    else if stage in {"translation", "translating"} then FromTranslations
    else FromTranslated
  }

  function RetriedRow(row: Row, from: ClearFrom, again: bool): Row {
    row.(ocrPath := if from.FromOcr? then None else row.ocrPath,
         blocksPath := if from.FromOcr? then None else row.blocksPath,
         translationsPath := if from.FromTranslated? then row.translationsPath else None,
         translatedPath := None, version := None, status := Pending, errorStage := None,
         attempts := if again then row.attempts + 1 else row.attempts)
  }

  /** The stage that decides: what the row recorded, or OCR. */
  function FailedStage(row: Row): string {
    if row.errorStage.Some? then row.errorStage.value else "ocr"
  }

  function Retried(row: Row): Row {
    RetriedRow(row, RetryClears(FailedStage(row)), FailedStage(row) != "ocr")
  }

  function ReopenPages(pages: seq<Page>, which: set<nat>): seq<Page> {
    seq(|pages|, k requires 0 <= k < |pages| =>
      if pages[k].pageIndex in which then pages[k].(status := PagePending) else pages[k])
  }

  /** prepare_segment_retry, as the manager calls it for a failed segment. */
  function RetryRow(d: Generation, i: nat): Generation
    requires i < |d.rows|
  {
    RefreshCounts(SetRow(d, i, Retried(d.rows[i])).(pages := ReopenPages(d.pages, {d.rows[i].strip.pageIndex})))
  }

  function FailedPages(rows: seq<Row>): set<nat> {
    set k | 0 <= k < |rows| && rows[k].status == Failed :: rows[k].strip.pageIndex
  }

  function RetriedRows(rows: seq<Row>): seq<Row> {
    seq(|rows|, k requires 0 <= k < |rows| => if rows[k].status == Failed then Retried(rows[k]) else rows[k])
  }

  /** prepare_failed_retries on a generation that has segments. */
  function RetryAll(d: Generation): Generation {
    if CountStatus(d.rows, Failed) == 0 then d
    else
      RefreshCounts(d.(rows := RetriedRows(d.rows), pages := ReopenPages(d.pages, FailedPages(d.rows))))
  }

  // ---------------------------------------------------------------- generation statements

  predicate CanPrepare(d: Generation) {
    d.status in {Preparing, Queued} && !d.stopRequested
  }

  predicate CanBegin(d: Generation) {
    d.status in {Preparing, Queued, Running} && !d.stopRequested
  }

  predicate CanFinish(d: Generation) {
    d.status == Running && !d.stopRequested
  }

  function BeginPreparing(d: Generation): Generation {
    if CanPrepare(d) then d.(status := Preparing, current := None) else d
  }

  function BeginSegment(d: Generation, i: nat): Generation {
    if CanBegin(d) then d.(status := Running, current := Some(i)) else d
  }

  function FinishSegment(d: Generation): Generation {
    if CanFinish(d) then d.(current := None) else d
  }

  function RequestStop(d: Generation): Generation {
    match d.status
    case Queued => d.(status := Paused, stopRequested := false, current := None)
    case Preparing => d.(status := StoppingAfterSegment, stopRequested := true, current := None)
    case Running =>
      var progressive := d.planningComplete || d.totalSegments > 0;
      d.(status := if progressive then StoppingAfterSegment else StoppingAfterPage, stopRequested := true)
    case _ => d
  }

  function ResumeGeneration(d: Generation): Generation {
    d.(status := if d.planningComplete then Queued else Preparing, stopRequested := false, current := None)
  }

  /** recover_interrupted and force_pause_chapter put rows that were being worked on back to pending. */
  function ReleaseRows(d: Generation): Generation {
    d.(rows := seq(|d.rows|, k requires 0 <= k < |d.rows| =>
         if d.rows[k].status in {Ocr, Translating, Rendering} then d.rows[k].(status := Pending) else d.rows[k]))
  }

  // ---------------------------------------------------------------- planning

  datatype AppendError = EmptyPlan | ForeignSegment | NoSuchPage | InconsistentPlan | StraySegments

  function PagePlace(pages: seq<Page>, pageIndex: nat): (r: Option<nat>)
    ensures r.Some? ==> r.value < |pages| && pages[r.value].pageIndex == pageIndex
    ensures r.None? ==> forall k :: 0 <= k < |pages| ==> pages[k].pageIndex != pageIndex
  {
    if |pages| == 0 then None
    else if pages[|pages| - 1].pageIndex == pageIndex then Some(|pages| - 1)
    else PagePlace(pages[..|pages| - 1], pageIndex)
  }

  function CountPage(rows: seq<Row>, pageIndex: nat): nat {
    if |rows| == 0 then 0
    else CountPage(rows[..|rows| - 1], pageIndex) + if rows[|rows| - 1].strip.pageIndex == pageIndex then 1 else 0
  }

  /** One more than the greatest global index. */
  function NextGlobalIndex(rows: seq<Row>): nat {
    if |rows| == 0 then 0 else Max(NextGlobalIndex(rows[..|rows| - 1]), rows[|rows| - 1].globalIndex + 1)
  }

  function NewRow(strip: PlannedSegment, globalIndex: nat): Row {
    Row(strip, globalIndex, Pending, None, None, None, None, None, None, 0)
  }

  function NewRows(plan: seq<PlannedSegment>, first: nat): seq<Row> {
    seq(|plan|, k requires 0 <= k < |plan| => NewRow(plan[k], first + k))
  }

  function AppendCheck(d: Generation, pageIndex: nat, plan: seq<PlannedSegment>): Option<AppendError> {
    if |plan| == 0 then Some(EmptyPlan)
    else if exists k :: 0 <= k < |plan| && plan[k].pageIndex != pageIndex then Some(ForeignSegment)
    else
      var place := PagePlace(d.pages, pageIndex);
      if place.None? then Some(NoSuchPage)
      else if d.pages[place.value].prepared then
        if CountPage(d.rows, pageIndex) != |plan| then Some(InconsistentPlan) else None
      else if CountPage(d.rows, pageIndex) != 0 then Some(StraySegments)
      else None
  }

  /** append_prepared_page_segments when nothing is wrong: a page that is already prepared is left alone. */
  function AppendPage(d: Generation, pageIndex: nat, plan: seq<PlannedSegment>): Generation
    requires AppendCheck(d, pageIndex, plan).None?
  {
    var place := PagePlace(d.pages, pageIndex).value;
    if d.pages[place].prepared then d
    else
      var rows := d.rows + NewRows(plan, NextGlobalIndex(d.rows));
      d.(rows := rows,
         pages := d.pages[place := d.pages[place].(prepared := true, status := PagePending)],
         totalSegments := |rows|)
  }

  function CompletePlan(d: Generation): Generation {
    d.(planningComplete := true, totalSegments := |d.rows|)
  }

  // ---------------------------------------------------------------- pages

  datatype PageOutcome = StillPending | SomeFailed | AllReady

  function OutcomeOf(rows: seq<Row>, pageIndex: nat): PageOutcome {
    if (forall k :: 0 <= k < |rows| ==> rows[k].strip.pageIndex != pageIndex)
      || (exists k :: 0 <= k < |rows| && rows[k].strip.pageIndex == pageIndex && !Terminal(rows[k])) then StillPending
    else if exists k :: 0 <= k < |rows| && rows[k].strip.pageIndex == pageIndex && rows[k].status == Failed
      then SomeFailed
    else AllReady
  }

  function SetPages(pages: seq<Page>, pageIndex: nat, status: PageStatus): seq<Page> {
    seq(|pages|, k requires 0 <= k < |pages| =>
      if pages[k].pageIndex == pageIndex then pages[k].(status := status) else pages[k])
  }

  /** finalize_page_from_segments. */
  function FinalizePage(d: Generation, pageIndex: nat): Generation {
    if OutcomeOf(d.rows, pageIndex).SomeFailed? then d.(pages := SetPages(d.pages, pageIndex, PageFailed)) else d
  }

  /** The part of publish_completed_segment_page that touches this generation. */
  function MarkPublished(d: Generation, pageIndex: nat): Generation {
    if OutcomeOf(d.rows, pageIndex).AllReady? then d.(pages := SetPages(d.pages, pageIndex, PageCompleted)) else d
  }

  /** publish_page_if_complete: a page without unfinished segments fails or is published. */
  function ClosePage(d: Generation, pageIndex: nat): Generation {
    MarkPublished(FinalizePage(d, pageIndex), pageIndex)
  }
}
