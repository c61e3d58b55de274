/** The streaming run of one generation in app/translation/manager.py: a producer that appends pages,
    prefetch tasks that run OCR in any order, and a consumer that translates, renders and completes the
    segments one by one, under stops, starts, retries, failures and crashes.

    A step is a stretch of code without a suspension; the event loop may interleave them freely. */
module StreamPipeline {
  import opened Common
  import opened SegmentPlanner
  import opened SegmentRows
  import opened CheckpointRecovery

  /** A prefetch task in the consumer's dictionary. */
  datatype Task = Created | Claimed | Done

  /** How far complete_after_ocr has come with its segment. */
  datatype Phase = Loading | InTranslation | InRendering

  /** Where the consumer is suspended. */
  datatype Pc =
    | Absent                          // no run in progress
    | Top                             // about to start the next turn of its loop
    | Gathering(planned: bool)        // stopping: waits for cancelled tasks, after reading planning_complete
    | AwaitWork
    | AwaitOcr(row: nat)
    | Working(row: nat, phase: Phase)
    | Returned(ok: bool)
    | Crashed(failed: bool)           // an exception or a cancellation ends the run

  /** `current` is the consumer's current_key, `dying` the cancelled tasks that have not run their except
      block yet; `begun` and `done` record every segment ever begun and completed. */
  datatype State = State(d: Generation, pc: Pc, current: Option<nat>, tasks: map<nat, Task>, dying: set<nat>,
                         begun: seq<nat>, done: seq<nat>)

  // ---------------------------------------------------------------- the consumer's bookkeeping

  function WithoutDone(tasks: map<nat, Task>): map<nat, Task> {
    map k | k in tasks && tasks[k] != Done :: tasks[k]
  }

  /** _fill_ocr_prefetch: the first segments, in global order, that need OCR and have no task yet. */
  function Prefetch(rows: seq<Row>, i: nat, tasks: map<nat, Task>, available: int): map<nat, Task>
    requires i <= |rows|
    decreases |rows| - i
  {
    if i == |rows| || available <= 0 then tasks
    else if NeedsOcr(rows[i]) && i !in tasks then Prefetch(rows, i + 1, tasks[i := Created], available - 1)
    else Prefetch(rows, i + 1, tasks, available)
  }

  function FillPrefetch(s: State, slots: nat): State {
    s.(tasks := Prefetch(s.d.rows, 0, s.tasks, slots - |s.tasks|))
  }

  /** Cancels every task but one. A task that has not started yet simply never runs. */
  function CancelTasks(s: State, keep: Option<nat>): State {
    s.(tasks := map k | k in s.tasks && keep == Some(k) :: s.tasks[k],
       dying := s.dying + set k | k in s.tasks && keep != Some(k) && s.tasks[k] == Claimed)
  }

  function Return(s: State, ok: bool): State {
    CancelTasks(s, None).(pc := Returned(ok))
  }

  /** What the consumer does after a segment: forget it, and go on only while the generation runs. */
  function Close(s: State): State {
    var t := s.(current := None);
    if CanFinish(s.d) then t.(d := FinishSegment(s.d), pc := Top) else Return(t, false)
  }

  function FinalizeAll(d: Generation): Generation {
    d.(pages := seq(|d.pages|, k requires 0 <= k < |d.pages| =>
         match OutcomeOf(d.rows, d.pages[k].pageIndex)
         case StillPending => d.pages[k]
         case SomeFailed => d.pages[k].(status := PageFailed)
         case AllReady => d.pages[k].(status := PageCompleted)))
  }

  /** From the choice of the next segment to the next suspension. */
  function Select(s: State, stopping: bool, planned: bool, slots: nat): State {
    match NextUnfinished(s.d.rows, 0)
    case None =>
      if planned then Return(s.(d := FinalizeAll(s.d)), true) else s.(current := None, pc := AwaitWork)
    case Some(i) =>
      if s.current == Some(i) then Process(s, i, stopping, slots)
      else if !CanBegin(s.d) then s.(pc := Top)
      else Process(s.(d := BeginSegment(s.d, i), current := Some(i), begun := s.begun + [i]), i, stopping, slots)
  }

  function Process(s: State, i: nat, stopping: bool, slots: nat): State
    requires i < |s.d.rows|
  {
    var row := s.d.rows[i];
    if row.status == Ocr || row.ocrPath.None? || row.blocksPath.None? then
      if i in s.tasks then s.(pc := AwaitOcr(i))
      else if stopping then Return(s, false)
      else FillPrefetch(s, slots).(pc := AwaitOcr(i))
    else s.(pc := Working(i, Loading))
  }

  // ---------------------------------------------------------------- steps

  datatype Step =
    // the consumer
    | Begin                                   // a worker starts the run
    | Turn(slots: nat)                        // one turn of the loop, with the limiter's current capacity
    | Gathered(slots: nat)
    | WakeWork
    | WakeOcr
    | StartTranslating
    | StartRendering(path: Path)
    | FinishWork(path: Path, version: string)
    | FailWork
    | End(producerOk: bool)                   // both coroutines have returned
    | Crash(failed: bool)                     // failed: by an exception; otherwise cancelled
    | CrashSettled
    // the prefetch tasks
    | TaskClaims(row: nat)
    | TaskReady(row: nat, ocr: Path, blocks: Path)
    | TaskFails(row: nat)
    | TaskDies(row: nat)
    // the producer
    | AppendNext(place: nat, plan: seq<PlannedSegment>)
    | FinishPlan
    // everybody else
    | Stop
    | Start
    | RetryOne(row: nat)
    | RetryFailed
    | ForcePause
    | Restart(indexed: set<Path>)             // the process dies at any point and starts again; `indexed` are the
                                              // files that the cache then still has

  predicate IsRetry(step: Step) {
    step.RetryOne? || step.RetryFailed?
  }

  predicate Enabled(s: State, step: Step) {
    match step
    case Begin => s.pc.Absent? && CanPrepare(s.d)
    case Turn(_) => s.pc.Top?
    case Gathered(_) => s.pc.Gathering? && s.dying == {}
    case WakeWork => s.pc.AwaitWork?
    case WakeOcr => s.pc.AwaitOcr?
    case StartTranslating => s.pc.Working? && s.pc.phase == Loading
    case StartRendering(_) => s.pc.Working? && s.pc.phase == InTranslation
    case FinishWork(_, _) => s.pc.Working? && s.pc.phase == InRendering
    case FailWork => s.pc.Working?
    case End(producerOk) => s.pc.Returned? && s.dying == {} && (producerOk ==> s.d.planningComplete)
    case Crash(_) => !s.pc.Absent? && !s.pc.Crashed?
    case CrashSettled => s.pc.Crashed? && s.dying == {}
    case TaskClaims(k) => k in s.tasks && s.tasks[k] == Created
    case TaskReady(k, _, _) => k in s.tasks && s.tasks[k] == Claimed
    case TaskFails(k) => k in s.tasks && s.tasks[k] == Claimed
    case TaskDies(k) => k in s.dying
    case AppendNext(place, plan) =>
      && !s.pc.Absent? && place < |s.d.pages| && !s.d.pages[place].prepared
      && (forall k :: 0 <= k < place ==> s.d.pages[k].prepared)
      && |plan| > 0 && forall i :: 0 <= i < |plan| ==>
        plan[i].pageIndex == s.d.pages[place].pageIndex && plan[i].segmentIndex == i
    case FinishPlan => !s.pc.Absent? && forall k :: 0 <= k < |s.d.pages| ==> s.d.pages[k].prepared
    case Stop => true
    case Start => true
    case RetryOne(i) => i < |s.d.rows| && s.d.rows[i].status == Failed
    case RetryFailed => s.d.status !in {StoppingAfterPage, StoppingAfterSegment}
    case ForcePause => s.pc.Absent?
    case Restart(_) => true
  }

  predicate Active(status: GenerationStatus) {
    status in {Preparing, Queued, Running, StoppingAfterPage, StoppingAfterSegment}
  }

  /** start() on a generation with unchanged settings. */
  function StartGeneration(d: Generation): Generation {
    if d.status in {Paused, GenerationFailed} then ResumeGeneration(d)
    else if Active(d.status) && d.stopRequested then
      d.(status := if d.current.Some? then Running else if d.planningComplete then Queued else Preparing,
         stopRequested := false)
    else d
  }

  function ResumeUnless(d: Generation, statuses: set<GenerationStatus>): Generation {
    if d.status in statuses then d else ResumeGeneration(d)
  }

  function EndGeneration(d: Generation, ok: bool): Generation {
    d.(status := if !ok then Paused else if d.failedSegments > 0 then CompletedWithErrors else AllCompleted,
       stopRequested := false, current := None)
  }

  /** The handler of an unexpected exception: the generation fails and its pending segments say why. */
  function FailGeneration(d: Generation): Generation {
    d.(status := GenerationFailed, stopRequested := false, current := None,
       rows := seq(|d.rows|, k requires 0 <= k < |d.rows| =>
         if d.rows[k].status == Pending then d.rows[k].(errorStage := Some("chapter")) else d.rows[k]))
  }

  /** Start-up: what was being worked on is pending again, and so is what has lost its files. */
  function Restarted(d: Generation, indexed: set<Path>): Generation {
    RecoverCheckpoints(RecoverGeneration(d), indexed)
  }

  function RecoverGeneration(d: Generation): Generation {
    if Active(d.status) then
      ReleaseRows(d).(status := if d.status == StoppingAfterSegment then Paused else Queued, stopRequested := false,
                      current := None)
    else ReleaseRows(d)
  }

  /** A prefetch task that fails records the stage its segment was in. */
  function TaskFailure(s: State, k: nat): State
    requires k < |s.d.rows|
  {
    s.(d := FailTaskRow(s.d, k), tasks := s.tasks[k := Done])
  }

  function FailTaskRow(d: Generation, k: nat): Generation
    requires k < |d.rows|
  {
    FinalizePage(FailRow(d, k, StageName(d.rows[k].status)), d.rows[k].strip.pageIndex)
  }

  /** Every place the state mentions is a segment. */
  predicate InRange(s: State) {
    && (forall k :: k in s.tasks ==> k < |s.d.rows|)
    && (forall k :: k in s.dying ==> k < |s.d.rows|)
    && (s.pc.Working? || s.pc.AwaitOcr? ==> s.pc.row < |s.d.rows|)
  }

  /** One turn of the consumer's loop, up to its next suspension. */
  function TakeTurn(s: State, slots: nat): State {
    var t := s.(tasks := WithoutDone(s.tasks));
    if s.d.stopRequested then CancelTasks(t, s.current).(pc := Gathering(s.d.planningComplete))
    else Select(FillPrefetch(t, slots), false, s.d.planningComplete, slots)
  }

  function AfterGathering(s: State, planned: bool, slots: nat): State {
    if s.current.None? then Return(s, false) else Select(s, true, planned, slots)
  }

  function AfterOcr(s: State, i: nat): State
    requires i < |s.d.rows|
  {
    if s.d.rows[i].status == Failed then Close(s) else s.(pc := Top)
  }

  function Translate(s: State, i: nat): State
    requires i < |s.d.rows|
  {
    s.(d := SetStage(s.d, i, Translating, None), pc := Working(i, InTranslation))
  }

  function Render(s: State, i: nat, path: Path): State
    requires i < |s.d.rows|
  {
    s.(d := SetStage(s.d, i, Rendering, Some(path)), pc := Working(i, InRendering))
  }

  /** The segment is completed, its page published if it was the last one, and the next turn begins. */
  function Finish(s: State, i: nat, path: Path, version: string): State
    requires i < |s.d.rows|
  {
    Close(s.(d := ClosePage(CompleteRow(s.d, i, path, version), s.d.rows[i].strip.pageIndex), done := s.done + [i]))
  }

  function FailCurrent(s: State, i: nat): State
    requires i < |s.d.rows|
  {
    Close(s.(d := FailTaskRow(s.d, i)))
  }

  function Claim(s: State, k: nat): State
    requires k < |s.d.rows|
  {
    if s.d.rows[k].status == Pending then s.(d := ClaimOcr(s.d, k), tasks := s.tasks[k := Claimed])
      else TaskFailure(s, k)
  }

  function Ready(s: State, k: nat, ocr: Path, blocks: Path): State
    requires k < |s.d.rows|
  {
    if s.d.rows[k].status == Ocr then s.(d := MarkOcrReady(s.d, k, ocr, blocks), tasks := s.tasks[k := Done])
    else TaskFailure(s, k)
  }

  function Append(d: Generation, place: nat, plan: seq<PlannedSegment>): Generation
    requires place < |d.pages|
  {
    if AppendCheck(d, d.pages[place].pageIndex, plan).None? then AppendPage(d, d.pages[place].pageIndex, plan) else d
  }

  function Retry(d: Generation, i: nat): Generation
    requires i < |d.rows|
  {
    ResumeUnless(RetryRow(d, i), {Preparing, Queued, Running, StoppingAfterSegment})
  }

  function RetryEverything(d: Generation): Generation {
    if CountStatus(d.rows, Failed) == 0 then d else ResumeUnless(RetryAll(d), {Preparing, Queued, Running})
  }

  function Pause(d: Generation): Generation {
    if Active(d.status) then ReleaseRows(d).(status := Paused, stopRequested := false, current := None) else d
  }

  function Next(s: State, step: Step): State
    requires InRange(s) && Enabled(s, step)
  {
    match step
    case Begin => s.(d := BeginPreparing(s.d), pc := Top, current := None)
    case Turn(slots) => TakeTurn(s, slots)
    case Gathered(slots) => AfterGathering(s, s.pc.planned, slots)
    case WakeWork => s.(pc := Top)
    case WakeOcr => AfterOcr(s, s.pc.row)
    case StartTranslating => Translate(s, s.pc.row)
    case StartRendering(path) => Render(s, s.pc.row, path)
    case FinishWork(path, version) => Finish(s, s.pc.row, path, version)
    case FailWork => FailCurrent(s, s.pc.row)
    case End(producerOk) => s.(d := EndGeneration(s.d, s.pc.ok && producerOk), pc := Absent, current := None)
    case Crash(failed) => CancelTasks(s, None).(pc := Crashed(failed), current := None)
    case CrashSettled => s.(d := if s.pc.failed then FailGeneration(s.d) else s.d, pc := Absent)
    case TaskClaims(k) => Claim(s, k)
    case TaskReady(k, ocr, blocks) => Ready(s, k, ocr, blocks)
    case TaskFails(k) => TaskFailure(s, k)
    case TaskDies(k) => s.(d := ResetOcr(s.d, k), dying := s.dying - {k})
    case AppendNext(place, plan) => s.(d := Append(s.d, place, plan))
    case FinishPlan => s.(d := CompletePlan(s.d))
    case Stop => s.(d := RequestStop(s.d))
    case Start => s.(d := StartGeneration(s.d))
    case RetryOne(i) => s.(d := Retry(s.d, i))
    case RetryFailed => s.(d := RetryEverything(s.d))
    case ForcePause => s.(d := Pause(s.d))
    case Restart(indexed) =>
      s.(d := Restarted(s.d, indexed), pc := Absent, current := None, tasks := map[], dying := {})
  }
}
