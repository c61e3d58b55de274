/** What runs throw away, and what they never do: stored checkpoints outlive stops, failures, crashes and
    restarts; only a retry forgets any of them, and a restart that finds files of theirs missing. */
module StreamProgress {
  import opened Common
  import opened SegmentPlanner
  import opened SegmentRows
  import opened SegmentInvariants
  import opened CheckpointRecovery
  import opened StreamPipeline
  import opened StreamInvariant
  import opened StreamOrder

  /** What is stored for a segment stays: OCR and translated image as they are, translations at least present. */
  ghost predicate CheckpointsKept(row: Row, later: Row) {
    && later.strip == row.strip && later.globalIndex == row.globalIndex
    && (row.ocrPath.Some? ==> later.ocrPath == row.ocrPath && later.blocksPath == row.blocksPath)
    && (row.translationsPath.Some? ==> later.translationsPath.Some?)
    && (row.translatedPath.Some? ==>
        later.translatedPath == row.translatedPath && later.version == row.version && later.status == row.status)
  }

  ghost predicate WorkKept(rows: seq<Row>, later: seq<Row>) {
    |rows| <= |later| && forall k :: 0 <= k < |rows| ==> CheckpointsKept(rows[k], later[k])
  }

  lemma NothingLost(rows: seq<Row>)
    ensures WorkKept(rows, rows)
  {
  }

  lemma OneRowChanged(rows: seq<Row>, i: nat, row: Row)
    requires i < |rows| && CheckpointsKept(rows[i], row)
    ensures WorkKept(rows, rows[i := row])
  {
  }

  lemma {:induction false} ConsumerKeepsWork(s: State, step: Step)
    requires Inv(s) && InRange(s) && Enabled(s, step)
    requires step.Turn? || step.Gathered? || step.WakeWork? || step.WakeOcr?
    ensures WorkKept(s.d.rows, Next(s, step).d.rows)
  {
    hide DataOk, TasksFit, TakeTurn, Select, Close, CancelTasks;
    NothingLost(s.d.rows);
    match step
    case Turn(slots) => TurnEffect(s, slots);
    case Gathered(slots) =>
      ReturnEffect(s, false);
      SelectEffect(s, true, s.pc.planned, slots);
    case WakeWork =>
    case WakeOcr => CloseEffect(s);
  }

  lemma {:induction false} FinishKeepsWork(s: State, i: nat, path: Path, version: string)
    requires DataOk(s.d) && i < |s.d.rows| && s.d.rows[i].status == Rendering && s.d.rows[i].translationsPath.Some?
    ensures WorkKept(s.d.rows, Finish(s, i, path, version).d.rows)
  {
    RowIsOk(s.d, i);
    hide DataOk, Close, ClosePage, CompleteRow, WorkKept;
    CompleteRowKeeps(s.d, i, path, version);
    var d := ClosePage(CompleteRow(s.d, i, path, version), s.d.rows[i].strip.pageIndex);
    CloseEffect(s.(d := d, done := s.done + [i]));
    OneRowChanged(s.d.rows, i, s.d.rows[i].(status := Completed, translatedPath := Some(path), version := Some(version),
                                            errorStage := None));
  }

  lemma {:induction false} FailureKeepsWork(d: Generation, i: nat)
    requires DataOk(d) && i < |d.rows| && d.rows[i].status != Completed
    ensures WorkKept(d.rows, FailTaskRow(d, i).rows)
  {
    RowIsOk(d, i);
    hide DataOk, FailTaskRow, WorkKept;
    FailTaskRowKeeps(d, i);
    OneRowChanged(d.rows, i, d.rows[i].(status := Failed, errorStage := Some(StageName(d.rows[i].status))));
  }

  lemma {:induction false} WorkingKeepsWork(s: State, step: Step)
    requires Inv(s) && InRange(s) && Enabled(s, step)
    requires step.StartTranslating? || step.StartRendering? || step.FinishWork? || step.FailWork?
    ensures WorkKept(s.d.rows, Next(s, step).d.rows)
  {
    var i := s.pc.row;
    RowIsOk(s.d, i);
    assert s.d.rows[i].status != Completed;
    hide DataOk, TasksFit, Finish, FailTaskRow, WorkKept, Close;
    match step
    case StartTranslating => OneRowChanged(s.d.rows, i, SetStage(s.d, i, Translating, None).rows[i]);
    case StartRendering(path) => OneRowChanged(s.d.rows, i, SetStage(s.d, i, Rendering, Some(path)).rows[i]);
    case FinishWork(path, version) => FinishKeepsWork(s, i, path, version);
    case FailWork =>
      FailureKeepsWork(s.d, i);
      CloseEffect(s.(d := FailTaskRow(s.d, i)));
  }

  lemma {:induction false} TaskKeepsWork(s: State, step: Step)
    requires Inv(s) && InRange(s) && Enabled(s, step)
    requires step.TaskClaims? || step.TaskReady? || step.TaskFails? || step.TaskDies?
    ensures WorkKept(s.d.rows, Next(s, step).d.rows)
  {
    hide FailTaskRow, WorkKept;
    match step
    case TaskClaims(k) =>
      ClaimKeeps(s, k);
      hide Inv;
      OneRowChanged(s.d.rows, k, ClaimOcr(s.d, k).rows[k]);
    case TaskReady(k, ocr, blocks) =>
      ReadyKeeps(s, k, ocr, blocks);
      RowIsOk(s.d, k);
      hide Inv;
      OneRowChanged(s.d.rows, k, MarkOcrReady(s.d, k, ocr, blocks).rows[k]);
    case TaskFails(k) =>
      TaskIsNotCurrentWork(s, k);
      FailureKeepsWork(s.d, k);
    case TaskDies(k) => OneRowChanged(s.d.rows, k, ResetOcr(s.d, k).rows[k]);
  }

  lemma ReleaseKeepsWork(d: Generation)
    requires DataOk(d)
    ensures WorkKept(d.rows, ReleaseRows(d).rows) && WorkKept(d.rows, FailGeneration(d).rows)
  {
    hide PlanOk, CountStatus;
  }

  lemma {:induction false} OutsideKeepsWork(s: State, step: Step)
    requires Inv(s) && InRange(s) && Enabled(s, step)
    requires step.Begin? || step.End? || step.Crash? || step.CrashSettled? || step.AppendNext? || step.FinishPlan?
          || step.Stop? || step.Start? || step.ForcePause?
    ensures WorkKept(s.d.rows, Next(s, step).d.rows)
  {
    NothingLost(s.d.rows);
    ReleaseKeepsWork(s.d);
    hide Inv, InRange, DataOk, WorkKept, ReleaseRows, FailGeneration, CancelTasks, RequestStop, StartGeneration;
    match step
    case AppendNext(place, plan) => AppendKeepsWork(s, place, plan);
    case _ =>
  }

  lemma {:induction false} AppendKeepsWork(s: State, place: nat, plan: seq<PlannedSegment>)
    requires Inv(s) && InRange(s) && Enabled(s, AppendNext(place, plan))
    ensures WorkKept(s.d.rows, Next(s, AppendNext(place, plan)).d.rows)
  {
    AppendedIs(s, place, plan);
    hide Next, Enabled, InRange, Append, Inv, IsNextPage, NumbersPage, DataOk, NewRows;
    AppendKeeps(s.d, place, plan);
  }

  // ---------------------------------------------------------------- what retries and restarts forget

  /** A retry of the failed segment clears something that is stored. */
  predicate HasMoreThanItKeeps(row: Row) {
    KeptDepth(FailedStage(row)) < Depth(row)
  }

  /** The step forgets something that is stored for segment j. */
  ghost predicate Forgets(s: State, step: Step, j: nat)
    requires j < |s.d.rows|
  {
    match step
    case RetryOne(i) => j == i && HasMoreThanItKeeps(s.d.rows[j])
    case RetryFailed => s.d.rows[j].status == Failed && HasMoreThanItKeeps(s.d.rows[j])
    case Restart(indexed) => !Intact(s.d.rows[j], indexed)
    case _ => false
  }

  ghost predicate ForgetsNothing(s: State, step: Step) {
    forall j :: 0 <= j < |s.d.rows| ==> !Forgets(s, step, j)
  }

  lemma RetriedKeepsIff(row: Row)
    requires RowOk(row) && row.status == Failed
    ensures CheckpointsKept(row, Retried(row)) <==> !HasMoreThanItKeeps(row)
  {
    RetryForgetsSuffix(row);
  }

  lemma RecoveredKeepsIff(row: Row, released: Row, indexed: set<Path>)
    requires RowOk(row)
    requires released == if row.status in {Ocr, Translating, Rendering} then row.(status := Pending) else row
    ensures CheckpointsKept(row, RecoveredRow(released, indexed)) <==> Intact(row, indexed)
  {
  }

  lemma {:induction false} RetryKeepsWorkIff(s: State, step: Step)
    requires Inv(s) && InRange(s) && Enabled(s, step) && IsRetry(step)
    ensures WorkKept(s.d.rows, Next(s, step).d.rows) <==> ForgetsNothing(s, step)
  {
    hide Inv, Next, InRange, Enabled, Retry, RetryEverything, DataOk, Retried, HasMoreThanItKeeps, CheckpointsKept;
    NextIsRetried(s, step);
    forall j | 0 <= j < |s.d.rows|
      ensures CheckpointsKept(s.d.rows[j], s.d.rows[j])
      ensures s.d.rows[j].status == Failed ==>
                (CheckpointsKept(s.d.rows[j], Retried(s.d.rows[j])) <==> !HasMoreThanItKeeps(s.d.rows[j]))
    {
      RowIsKept(s.d.rows[j]);
      RowIsOk(s.d, j);
      if s.d.rows[j].status == Failed {
        RetriedKeepsIff(s.d.rows[j]);
      }
    }
    match step
    case RetryOne(i) =>
      RetryKeeps(s.d, i);
      forall j | 0 <= j < |s.d.rows|
        ensures CheckpointsKept(s.d.rows[j], Next(s, step).d.rows[j]) <==> !Forgets(s, step, j)
      {
        assert Next(s, step).d.rows[j] == if j == i then Retried(s.d.rows[i]) else s.d.rows[j];
      }
    case RetryFailed => RetryEverythingKeeps(s.d);
    KeptRowByRow(s, step, Next(s, step).d.rows);
  }

  lemma RowIsKept(row: Row)
    ensures CheckpointsKept(row, row)
  {
  }

  lemma KeptRowByRow(s: State, step: Step, later: seq<Row>)
    requires |later| == |s.d.rows|
    requires forall k :: 0 <= k < |s.d.rows| ==> (CheckpointsKept(s.d.rows[k], later[k]) <==> !Forgets(s, step, k))
    ensures WorkKept(s.d.rows, later) <==> ForgetsNothing(s, step)
  {
    hide Forgets, CheckpointsKept;
    if ForgetsNothing(s, step) {
      forall k | 0 <= k < |s.d.rows|
        ensures CheckpointsKept(s.d.rows[k], later[k])
      {
        assert !Forgets(s, step, k);
      }
    }
    if WorkKept(s.d.rows, later) {
      forall k | 0 <= k < |s.d.rows|
        ensures !Forgets(s, step, k)
      {
        assert CheckpointsKept(s.d.rows[k], later[k]);
      }
    }
  }

  lemma {:induction false} RestartKeepsWorkIff(s: State, indexed: set<Path>)
    requires Inv(s) && InRange(s)
    ensures WorkKept(s.d.rows, Next(s, Restart(indexed)).d.rows) <==> ForgetsNothing(s, Restart(indexed))
  {
    hide Inv, Next, InRange, Restarted, DataOk, Intact, RecoveredRow, CheckpointsKept;
    NextIsRestarted(s, indexed);
    RestartKeeps(s.d, indexed);
    var later := Restarted(s.d, indexed).rows;
    var released := ReleaseRows(s.d).rows;
    forall j | 0 <= j < |s.d.rows|
      ensures CheckpointsKept(s.d.rows[j], later[j]) <==> Intact(s.d.rows[j], indexed)
    {
      RowIsOk(s.d, j);
      RecoveredKeepsIff(s.d.rows[j], released[j], indexed);
    }
    KeptRowByRow(s, Restart(indexed), later);
  }

  // ---------------------------------------------------------------- every step

  /** A step keeps everything that is stored, and every completed segment completed, if and only if it is no retry
      of a segment with something to clear and no restart that misses a file that some segment needs. */
  lemma {:induction false} StepKeepsWorkIff(s: State, step: Step)
    requires Inv(s) && Enabled(s, step)
    ensures InRange(s) && (WorkKept(s.d.rows, Next(s, step).d.rows) <==> ForgetsNothing(s, step))
  {
    InvInRange(s);
    hide Inv, Next, Enabled, InRange, WorkKept, ForgetsNothing;
    if step.Restart? {
      RestartKeepsWorkIff(s, step.indexed);
    } else if IsRetry(step) {
      RetryKeepsWorkIff(s, step);
    } else {
      OtherStepsKeepWork(s, step);
    }
  }

  lemma {:induction false} OtherStepsKeepWork(s: State, step: Step)
    requires Inv(s) && InRange(s) && Enabled(s, step) && !IsRetry(step) && !step.Restart?
    ensures WorkKept(s.d.rows, Next(s, step).d.rows) && ForgetsNothing(s, step)
  {
    hide Inv, Next, Enabled, InRange, WorkKept;
    if step.Turn? || step.Gathered? || step.WakeWork? || step.WakeOcr? {
      ConsumerKeepsWork(s, step);
    } else if step.StartTranslating? || step.StartRendering? || step.FinishWork? || step.FailWork? {
      WorkingKeepsWork(s, step);
    } else if step.TaskClaims? || step.TaskReady? || step.TaskFails? || step.TaskDies? {
      TaskKeepsWork(s, step);
    } else {
      OutsideKeepsWork(s, step);
    }
  }

  lemma WorkStaysKept(rows: seq<Row>, later: seq<Row>, last: seq<Row>)
    requires WorkKept(rows, later) && WorkKept(later, last)
    ensures WorkKept(rows, last)
  {
    forall k | 0 <= k < |rows|
      ensures CheckpointsKept(rows[k], last[k])
    {
      assert CheckpointsKept(rows[k], later[k]) && CheckpointsKept(later[k], last[k]);
    }
  }

  /** Every step of the run keeps what is stored then. */
  ghost predicate WorkKeptThroughout(s: State, steps: seq<Step>)
    requires Inv(s)
    decreases |steps|
  {
    |steps| > 0 ==>
      if !Enabled(s, steps[0]) then WorkKeptThroughout(s, steps[1..])
      else
        StepKeeps(s, steps[0]);
        && WorkKept(s.d.rows, Next(s, steps[0]).d.rows)
        && WorkKeptThroughout(Next(s, steps[0]), steps[1..])
  }

  /** No retry of the run has anything to clear, and no restart misses a file. */
  ghost predicate NothingIsForgotten(s: State, steps: seq<Step>)
    requires Inv(s)
    decreases |steps|
  {
    |steps| > 0 ==>
      if !Enabled(s, steps[0]) then NothingIsForgotten(s, steps[1..])
      else
        StepKeeps(s, steps[0]);
        ForgetsNothing(s, steps[0]) && NothingIsForgotten(Next(s, steps[0]), steps[1..])
  }

  /** Over every run, with any stops, failures, crashes, retries and restarts, everything that is stored stays, and
      a completed segment stays completed, if and only if no retry has anything to clear and every restart finds
      the files that the segments need. */
  lemma {:induction false} WorkIsNeverLost(s: State, steps: seq<Step>)
    requires Inv(s)
    ensures WorkKeptThroughout(s, steps) <==> NothingIsForgotten(s, steps)
    ensures NothingIsForgotten(s, steps) ==> WorkKept(s.d.rows, Run(s, steps).d.rows)
    decreases |steps|
  {
    hide Inv, Next, Enabled, InRange, WorkKept, ForgetsNothing;
    if |steps| == 0 {
      NothingLost(s.d.rows);
    } else if Enabled(s, steps[0]) {
      StepKeeps(s, steps[0]);
      StepKeepsWorkIff(s, steps[0]);
      WorkIsNeverLost(Next(s, steps[0]), steps[1..]);
      if NothingIsForgotten(s, steps) {
        WorkStaysKept(s.d.rows, Next(s, steps[0]).d.rows, Run(s, steps).d.rows);
      }
    } else {
      WorkIsNeverLost(s, steps[1..]);
    }
  }

  lemma {:induction false} RunsCompose(s: State, before: seq<Step>, steps: seq<Step>)
    requires Inv(s)
    ensures Run(s, before + steps) == Run(Run(s, before), steps)
    decreases |before|
  {
    hide Inv, Next, Enabled, InRange;
    if |before| == 0 {
      assert before + steps == steps;
    } else {
      assert (before + steps)[0] == before[0] && (before + steps)[1..] == before[1..] + steps;
      if Enabled(s, before[0]) {
        StepKeeps(s, before[0]);
        RunsCompose(Next(s, before[0]), before[1..], steps);
      } else {
        RunsCompose(s, before[1..], steps);
      }
    }
  }

  /** In particular between any two moments of a run of a new generation. */
  lemma {:induction false} NewRunsLoseNothing(pageIndexes: seq<nat>, before: seq<Step>, steps: seq<Step>)
    requires Increasing(pageIndexes)
    ensures Inv(NewRun(pageIndexes))
    ensures NothingIsForgotten(Run(NewRun(pageIndexes), before), steps) ==>
              WorkKept(Run(NewRun(pageIndexes), before).d.rows, Run(NewRun(pageIndexes), before + steps).d.rows)
  {
    NewRunIsOk(pageIndexes);
    hide Inv, Run, NothingIsForgotten, WorkKept;
    RunsCompose(NewRun(pageIndexes), before, steps);
    WorkIsNeverLost(Run(NewRun(pageIndexes), before), steps);
  }

  // ---------------------------------------------------------------- failures and their retries

  /** What the retry of a segment that failed as `row` leaves of it: nothing when it failed in OCR, the OCR when it was
      being translated, and the translations too when it was being rendered. A segment that had not begun keeps
      what it had. */
  ghost predicate IsRetryOf(row: Row, retried: Row) {
    && retried.status == Pending && retried.translatedPath.None? && retried.errorStage.None?
    && retried.strip == row.strip && retried.globalIndex == row.globalIndex
    && (row.status == Ocr ==>
          retried.ocrPath.None? && retried.blocksPath.None? && retried.translationsPath.None?
          && retried.attempts == row.attempts)
    && (row.status != Ocr ==>
          retried.ocrPath == row.ocrPath && retried.blocksPath == row.blocksPath
          && retried.attempts == row.attempts + 1)
    && (row.status == Translating ==> retried.ocrPath.Some? && retried.translationsPath.None?)
    && (row.status == Rendering ==>
          retried.ocrPath.Some? && retried.translationsPath.Some? && retried.translationsPath == row.translationsPath)
    && (row.status == Pending ==> retried.translationsPath == row.translationsPath)
  }

  lemma {:induction false} FailureDecidesRetry(d: Generation, i: nat)
    requires DataOk(d) && i < |d.rows| && !Terminal(d.rows[i])
    ensures var failed := FailTaskRow(d, i).rows;
            |failed| == |d.rows| && failed[i].status == Failed && IsRetryOf(d.rows[i], Retried(failed[i]))
  {
    RowIsOk(d, i);
    FailTaskRowKeeps(d, i);
    hide DataOk, FailTaskRow;
  }

  /** The step that makes segment i fail. */
  predicate Fails(s: State, step: Step, i: nat) {
    (step.FailWork? && s.pc.Working? && s.pc.row == i) || step == TaskFails(i)
  }

  lemma {:induction false} FailingStepDecidesRetry(s: State, step: Step, i: nat)
    requires Inv(s) && Enabled(s, step) && Fails(s, step, i)
    ensures InRange(s) && i < |s.d.rows| && !Terminal(s.d.rows[i])
    ensures var rows := Next(s, step).d.rows;
            |rows| == |s.d.rows| && rows[i].status == Failed && IsRetryOf(s.d.rows[i], Retried(rows[i]))
    ensures step == TaskFails(i) ==> s.d.rows[i].status == Ocr
  {
    InvInRange(s);
    hide DataOk, TasksFit, FailTaskRow, Close, IsRetryOf;
    if step.FailWork? {
      assert WorkOk(s, i, s.pc.phase);
      CloseEffect(s.(d := FailTaskRow(s.d, i)));
    } else {
      TaskIsNotCurrentWork(s, i);
    }
    FailureDecidesRetry(s.d, i);
  }

  predicate NeitherRetriesNorRestarts(steps: seq<Step>) {
    forall k :: 0 <= k < |steps| ==> !IsRetry(steps[k]) && !steps[k].Restart?
  }

  lemma {:induction false} FailedRowStays(s: State, steps: seq<Step>, i: nat)
    requires Inv(s) && NeitherRetriesNorRestarts(steps) && i < |s.d.rows| && s.d.rows[i].status == Failed
    ensures i < |Run(s, steps).d.rows| && Run(s, steps).d.rows[i] == s.d.rows[i]
    decreases |steps|
  {
    hide Inv, Next, Enabled, InRange;
    if |steps| > 0 {
      if Enabled(s, steps[0]) {
        StepKeeps(s, steps[0]);
        StepHasEffect(s, steps[0]);
        FailedRowStays(Next(s, steps[0]), steps[1..], i);
      } else {
        FailedRowStays(s, steps[1..], i);
      }
    }
  }

  /** Whatever happens in between, short of another retry or a restart: the retry of a failed segment keeps what it had
      before the stage in which it failed, unchanged, and counts the attempt unless that stage was OCR. */
  lemma {:induction false} RetryKeepsWhatPreceded(s: State, failure: Step, i: nat, steps: seq<Step>, retry: Step)
    requires retry == RetryOne(i) || retry.RetryFailed?
    requires Inv(s) && Enabled(s, failure) && Fails(s, failure, i) && NeitherRetriesNorRestarts(steps)
    ensures InRange(s) && Inv(Next(s, failure)) && i < |s.d.rows|
    ensures var t := Run(Next(s, failure), steps);
            && InRange(t) && (retry.RetryOne? ==> Enabled(t, retry))
            && (Enabled(t, retry) ==>
                  var u := Next(t, retry);
                  i < |u.d.rows| && IsRetryOf(s.d.rows[i], u.d.rows[i]))
  {
    hide Inv, Run, Enabled, InRange, IsRetryOf, Retried;
    FailingStepDecidesRetry(s, failure, i);
    StepKeeps(s, failure);
    var u := Next(s, failure);
    hide Next;
    FailedRowStays(u, steps, i);
    var t := Run(u, steps);
    RetryOf(t, i, retry);
  }

  lemma {:induction false} RetryOf(s: State, i: nat, retry: Step)
    requires Inv(s) && i < |s.d.rows| && s.d.rows[i].status == Failed
    requires retry == RetryOne(i) || retry.RetryFailed?
    ensures InRange(s) && (retry.RetryOne? ==> Enabled(s, retry))
    ensures Enabled(s, retry) ==>
              var t := Next(s, retry);
              i < |t.d.rows| && t.d.rows[i] == Retried(s.d.rows[i])
  {
    InvInRange(s);
    if Enabled(s, retry) {
      NextIsRetried(s, retry);
      hide Inv, InRange, Next, Retry, RetryEverything;
      if retry.RetryOne? {
        RetryKeeps(s.d, i);
      } else {
        RetryEverythingKeeps(s.d);
      }
    }
  }
}
