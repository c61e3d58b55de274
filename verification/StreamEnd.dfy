/** How streaming runs end: the status that a generation is left with, and what becomes of a stop. */
module StreamEnd {
  import opened Common
  import opened SegmentRows
  import opened SegmentInvariants
  import opened CheckpointRecovery
  import opened StreamPipeline
  import opened StreamInvariant
  import opened StreamOrder

  ghost predicate AllFinished(rows: seq<Row>) {
    AllBefore(rows, |rows|)
  }

  /** Some segment of the page has this status. */
  ghost predicate HasSegment(rows: seq<Row>, page: nat, status: SegmentStatus) {
    exists k :: 0 <= k < |rows| && rows[k].strip.pageIndex == page && rows[k].status == status
  }

  /** Every page is failed or completed, failed exactly if one of its segments is. */
  ghost predicate PagesTell(d: Generation) {
    forall k :: 0 <= k < |d.pages| ==>
      d.pages[k].status == if HasSegment(d.rows, d.pages[k].pageIndex, Failed) then PageFailed else PageCompleted
  }

  /** A consumer that has found nothing more to do was right: the plan is complete, every segment is completed or
      failed, and the pages say so. */
  ghost predicate ReturnOk(s: State) {
    && (s.pc.Gathering? && s.pc.planned ==> s.d.planningComplete)
    && (s.pc == Returned(true) ==> s.d.planningComplete && AllFinished(s.d.rows) && PagesTell(s.d))
  }

  // ---------------------------------------------------------------- pages

  ghost predicate IsWhole(rows: seq<Row>, page: nat) {
    && (exists k :: 0 <= k < |rows| && rows[k].strip.pageIndex == page)
    && forall k :: 0 <= k < |rows| && rows[k].strip.pageIndex == page ==> Terminal(rows[k])
  }

  /** When a segment of a page has ended, the page is failed or completed if and only if all its segments have
      ended, failed exactly if one of them has; otherwise it stays as it was, and so do all other pages. */
  lemma ClosingTells(d: Generation, page: nat, k: nat)
    requires k < |d.pages|
    ensures var t := ClosePage(d, page);
            && |t.pages| == |d.pages| && t.rows == d.rows
            && t.pages[k] == d.pages[k].(status :=
                 if d.pages[k].pageIndex != page || !IsWhole(d.rows, page) then d.pages[k].status
                 else if HasSegment(d.rows, page, Failed) then PageFailed else PageCompleted)
  {
  }

  /** A failure alone marks its page as failed in the same cases, and never as completed. */
  lemma FailingTells(d: Generation, page: nat, k: nat)
    requires k < |d.pages|
    ensures var t := FinalizePage(d, page);
            && |t.pages| == |d.pages| && t.rows == d.rows
            && t.pages[k] == d.pages[k].(status :=
                 if d.pages[k].pageIndex == page && IsWhole(d.rows, page) && HasSegment(d.rows, page, Failed)
                   then PageFailed
                 else d.pages[k].status)
  {
  }

  lemma {:induction false} FinalizingTells(d: Generation)
    requires PlanOk(d) && d.planningComplete && AllFinished(d.rows)
    ensures PagesTell(FinalizeAll(d)) && FinalizeAll(d).rows == d.rows
    ensures FinalizeAll(d).planningComplete
  {
    forall k | 0 <= k < |d.pages|
      ensures IsWhole(d.rows, d.pages[k].pageIndex)
    {
      assert PlannedPage(d.rows, d.pages[k].pageIndex);
    }
    hide PlanOk;
  }

  // ---------------------------------------------------------------- the final status

  lemma {:induction false} CountIsPositive(rows: seq<Row>, status: SegmentStatus)
    ensures CountStatus(rows, status) > 0 <==> exists k :: 0 <= k < |rows| && rows[k].status == status
  {
    if |rows| > 0 {
      CountIsPositive(rows[..|rows| - 1], status);
      var n := |rows| - 1;
      assert forall k :: 0 <= k < n ==> rows[..n][k] == rows[k];
    }
  }

  /** The end of a run decides the status of its generation by what became of its segments: paused unless producer
      and consumer both came to their end, otherwise completed with errors if and only if some segment has failed.
      That completed means that every segment is completed needs that none was reopened since the consumer returned. */
  lemma {:induction false} EndTellsWhatHappened(s: State, producerOk: bool)
    requires Inv(s) && Enabled(s, End(producerOk))
    ensures InRange(s)
    ensures var t, ok := Next(s, End(producerOk)), s.pc.ok && producerOk;
            && t.d.rows == s.d.rows && t.pc.Absent? && !t.d.stopRequested && t.d.current.None?
            && (t.d.status == Paused <==> !ok)
            && (t.d.status == CompletedWithErrors <==>
                  ok && exists k :: 0 <= k < |s.d.rows| && s.d.rows[k].status == Failed)
            && (t.d.status == AllCompleted <==> ok && forall k :: 0 <= k < |s.d.rows| ==> s.d.rows[k].status != Failed)
            && (ReturnOk(s) ==>
                  (t.d.status == AllCompleted <==>
                     ok && forall k :: 0 <= k < |s.d.rows| ==> s.d.rows[k].status == Completed))
  {
    InvInRange(s);
    assert CountsOk(s.d);
    CountIsPositive(s.d.rows, Failed);
    hide DataOk, TasksFit, PcOk, InRange, CountStatus;
  }

  // ---------------------------------------------------------------- what the consumer found stays true

  lemma {:induction false} SelectEndsOk(s: State, stopping: bool, planned: bool, slots: nat)
    requires PlanOk(s.d) && (planned ==> s.d.planningComplete)
    ensures ReturnOk(Select(s, stopping, planned, slots))
    ensures Select(s, stopping, planned, slots).d.planningComplete == s.d.planningComplete
  {
    hide Process, Prefetch, NextUnfinished, PlanOk, PagesTell;
    var next := NextUnfinished(s.d.rows, 0);
    if next.None? {
      if planned {
        FinalizingTells(s.d);
      }
    } else {
      var t := if s.current == next then s else Started(s, next.value);
      ProcessEndsOk(t, next.value, stopping, slots);
    }
  }

  lemma ProcessEndsOk(s: State, i: nat, stopping: bool, slots: nat)
    requires i < |s.d.rows|
    ensures var t := Process(s, i, stopping, slots);
            t.d == s.d && !t.pc.Gathering? && t.pc != Returned(true)
  {
    hide Prefetch;
  }

  lemma {:induction false} ConsumerEndsOk(s: State, step: Step)
    requires Inv(s) && InRange(s) && Enabled(s, step) && ReturnOk(s)
    requires step.Turn? || step.Gathered? || step.WakeWork? || step.WakeOcr?
    ensures ReturnOk(Next(s, step))
  {
    assert PlanOk(s.d);
    hide Inv, Select, FillPrefetch, CancelTasks, PlanOk, PagesTell;
    match step
    case Turn(slots) =>
      var t := s.(tasks := WithoutDone(s.tasks));
      FillKeepsRest(t, slots);
      CancelKeepsRest(t, s.current);
      SelectEndsOk(FillPrefetch(t, slots), false, s.d.planningComplete, slots);
    case Gathered(slots) =>
      ReturnEffect(s, false);
      SelectEndsOk(s, true, s.pc.planned, slots);
    case WakeWork =>
    case WakeOcr => CloseEffect(s);
  }

  /** The steps of the consumer's work and of its tasks are over when it has returned with everything finished. */
  lemma {:induction false} NothingIsLeft(s: State)
    requires Inv(s) && ReturnOk(s) && s.pc == Returned(true)
    ensures s.tasks == map[] && s.dying == {}
    ensures forall k :: 0 <= k < |s.d.pages| ==> s.d.pages[k].prepared
  {
    hide RowsOk, CountsOk;
  }

  predicate IsWork(step: Step) {
    step.StartTranslating? || step.StartRendering? || step.FinishWork? || step.FailWork?
    || step.TaskClaims? || step.TaskReady? || step.TaskFails? || step.TaskDies?
  }

  /** The work on segments leaves the plan alone, and does not return with success. */
  lemma {:induction false} WorkEndsOk(s: State, step: Step)
    requires Inv(s) && InRange(s) && Enabled(s, step) && ReturnOk(s) && IsWork(step)
    ensures ReturnOk(Next(s, step))
  {
    if s.pc == Returned(true) {
      NothingIsLeft(s);
    } else {
      WorkKeepsPlan(s, step);
      hide Inv, Next, Enabled, InRange;
    }
  }

  lemma WorkKeepsPlan(s: State, step: Step)
    requires Inv(s) && InRange(s) && Enabled(s, step) && IsWork(step)
    ensures var t := Next(s, step);
            t.d.planningComplete == s.d.planningComplete && (t.pc == s.pc || !t.pc.Gathering?)
            && (t.pc == Returned(true) ==> s.pc == Returned(true))
  {
    hide Inv, CountStatus, OutcomeOf;
  }

  predicate IsOther(step: Step) {
    step.Begin? || step.End? || step.Crash? || step.CrashSettled? || step.ForcePause? || step.Restart?
    || step.FinishPlan? || step.Stop? || step.Start? || step.AppendNext?
  }

  /** Every other step that is no retry. */
  lemma {:induction false} OtherStepsEndOk(s: State, step: Step)
    requires Inv(s) && InRange(s) && Enabled(s, step) && ReturnOk(s) && IsOther(step)
    ensures ReturnOk(Next(s, step))
  {
    if s.pc == Returned(true) {
      NothingIsLeft(s);
      OthersKeepWhatIsDone(s, step);
    } else {
      OthersDoNotReturn(s, step);
    }
    hide Inv, InRange, Next, Enabled, AllFinished, PagesTell;
  }

  lemma OthersKeepWhatIsDone(s: State, step: Step)
    requires InRange(s) && Enabled(s, step) && IsOther(step) && s.pc == Returned(true) && s.d.planningComplete
    requires forall k :: 0 <= k < |s.d.pages| ==> s.d.pages[k].prepared
    ensures var t := Next(s, step);
            && !t.pc.Gathering? && t.d.planningComplete
            && (t.pc == Returned(true) ==> t.d.rows == s.d.rows && t.d.pages == s.d.pages)
  {
    hide RecoveredRows, AppendCheck, NewRows, CountStatus, Damaged;
  }

  lemma OthersDoNotReturn(s: State, step: Step)
    requires InRange(s) && Enabled(s, step) && IsOther(step) && s.pc != Returned(true)
    ensures var t := Next(s, step);
            && (t.pc == s.pc || (!t.pc.Gathering? && t.pc != Returned(true)))
            && (s.d.planningComplete ==> t.d.planningComplete)
  {
    hide RecoveredRows, AppendCheck, NewRows, CountStatus, Damaged;
  }

  lemma {:induction false} RetryEndsOkIff(s: State, step: Step)
    requires Inv(s) && Enabled(s, step) && ReturnOk(s) && IsRetry(step)
    ensures InRange(s)
    ensures ReturnOk(Next(s, step)) <==>
              !(s.pc == Returned(true) && exists j :: 0 <= j < |s.d.rows| && Reopens(s, step, j))
  {
    InvInRange(s);
    RetryReopens(s, step);
    RetryKeepsPlan(s, step);
    hide Inv, Next, Enabled, InRange, Reopens;
    var rows := Next(s, step).d.rows;
    if s.pc == Returned(true) {
      if j :| 0 <= j < |s.d.rows| && Reopens(s, step, j) {
        assert !Terminal(rows[j]);
      } else {
        assert forall j :: 0 <= j < |rows| ==> rows[j].status == s.d.rows[j].status;
      }
    }
  }

  lemma RetryKeepsPlan(s: State, step: Step)
    requires Inv(s) && InRange(s) && Enabled(s, step) && IsRetry(step)
    ensures Next(s, step).d.planningComplete == s.d.planningComplete
    ensures (forall k :: 0 <= k < |s.d.rows| ==> !Reopens(s, step, k)) ==> Next(s, step).d == s.d
  {
    CountIsPositive(s.d.rows, Failed);
    hide Inv, CountStatus, RetriedRow, ReopenPages;
    match step
    case RetryOne(i) => assert Reopens(s, step, i);
    case RetryFailed =>
      forall k | 0 <= k < |s.d.rows|
        ensures Reopens(s, step, k) <==> s.d.rows[k].status == Failed
      {
      }
  }

  /** What a returned consumer found stays true for exactly as long as no retry reopens a segment before the run
      ends. */
  lemma {:induction false} ReturnStaysOkIff(s: State, step: Step)
    requires Inv(s) && Enabled(s, step) && ReturnOk(s)
    ensures InRange(s)
    ensures ReturnOk(Next(s, step)) <==>
              !(IsRetry(step) && s.pc == Returned(true) && exists j :: 0 <= j < |s.d.rows| && Reopens(s, step, j))
  {
    InvInRange(s);
    hide Inv, Next, Enabled, InRange, ReturnOk, Reopens;
    if IsRetry(step) {
      RetryEndsOkIff(s, step);
    } else if IsWork(step) {
      WorkEndsOk(s, step);
    } else if step.Turn? || step.Gathered? || step.WakeWork? || step.WakeOcr? {
      ConsumerEndsOk(s, step);
    } else {
      OtherStepsEndOk(s, step);
    }
  }

  // ---------------------------------------------------------------- whole runs

  /** No retry of the run reopens a segment between the return of the consumer and the end of its run. */
  ghost predicate NothingReopenedLate(s: State, steps: seq<Step>)
    requires Inv(s)
    decreases |steps|
  {
    |steps| > 0 ==>
      if !Enabled(s, steps[0]) then NothingReopenedLate(s, steps[1..])
      else
        StepKeeps(s, steps[0]);
        && !(IsRetry(steps[0]) && s.pc == Returned(true)
             && exists j :: 0 <= j < |s.d.rows| && Reopens(s, steps[0], j))
        && NothingReopenedLate(Next(s, steps[0]), steps[1..])
  }

  lemma {:induction false} RunsReturnOk(s: State, steps: seq<Step>)
    requires Inv(s) && ReturnOk(s) && NothingReopenedLate(s, steps)
    ensures ReturnOk(Run(s, steps))
    decreases |steps|
  {
    hide Inv, Next, Enabled, InRange, ReturnOk, Reopens;
    if |steps| > 0 {
      if Enabled(s, steps[0]) {
        StepKeeps(s, steps[0]);
        ReturnStaysOkIff(s, steps[0]);
        RunsReturnOk(Next(s, steps[0]), steps[1..]);
      } else {
        RunsReturnOk(s, steps[1..]);
      }
    }
  }

  /** Whenever a run of a new generation ends, its status tells what became of the segments and its pages which of
      them failed, if nothing was reopened after the consumer had returned. */
  lemma {:induction false} NewRunsEndTruthfully(pageIndexes: seq<nat>, steps: seq<Step>, producerOk: bool)
    requires Increasing(pageIndexes)
    ensures Inv(NewRun(pageIndexes))
    ensures var s := Run(NewRun(pageIndexes), steps);
            NothingReopenedLate(NewRun(pageIndexes), steps) && Enabled(s, End(producerOk)) ==>
              && InRange(s)
              && var t, ok := Next(s, End(producerOk)), s.pc.ok && producerOk;
                 && (t.d.status == AllCompleted <==>
                       ok && forall k :: 0 <= k < |t.d.rows| ==> t.d.rows[k].status == Completed)
                 && (t.d.status == CompletedWithErrors <==>
                       ok && exists k :: 0 <= k < |t.d.rows| && t.d.rows[k].status == Failed)
                 && (t.d.status == Paused <==> !ok)
                 && (s.pc.ok ==> PagesTell(t.d))
  {
    NewRunIsOk(pageIndexes);
    assert ReturnOk(NewRun(pageIndexes));
    hide Inv, Run, InRange, NothingReopenedLate, PagesTell;
    var s := Run(NewRun(pageIndexes), steps);
    if NothingReopenedLate(NewRun(pageIndexes), steps) && Enabled(s, End(producerOk)) {
      RunsReturnOk(NewRun(pageIndexes), steps);
      EndTellsWhatHappened(s, producerOk);
      EndKeepsPages(s, producerOk);
    }
  }

  lemma EndKeepsPages(s: State, producerOk: bool)
    requires Inv(s) && InRange(s) && Enabled(s, End(producerOk)) && (s.pc.ok ==> PagesTell(s.d))
    ensures s.pc.ok ==> PagesTell(Next(s, End(producerOk)).d)
  {
    hide Inv;
  }

  // ---------------------------------------------------------------- stops, starts and retries

  /** The flag and the status of a stop go together. */
  ghost predicate StopOk(d: Generation) {
    d.stopRequested <==> d.status == StoppingAfterSegment
  }

  /** In a run the status alone decides what a generation may do: the flag adds nothing to it. */
  lemma StatusDecides(d: Generation)
    requires StopOk(d)
    ensures CanPrepare(d) <==> d.status in {Preparing, Queued}
    ensures CanBegin(d) <==> d.status in {Preparing, Queued, Running}
    ensures CanFinish(d) <==> d.status == Running
  {
  }

  /** No work on segments and no turn of the consumer changes the flag, or makes a stopping generation go on. */
  ghost predicate KeepsStop(d: Generation, d': Generation) {
    && d'.stopRequested == d.stopRequested
    && (d'.status == d.status || (d.status in {Preparing, Queued, Running} && !d.stopRequested && d'.status == Running))
  }

  lemma {:induction false} StopIsKept(s: State, step: Step)
    requires Inv(s) && Enabled(s, step)
    requires IsWork(step) || step.Turn? || step.Gathered? || step.WakeWork? || step.WakeOcr? || step.AppendNext?
          || step.FinishPlan?
    ensures InRange(s) && KeepsStop(s.d, Next(s, step).d)
  {
    InvInRange(s);
    if IsWork(step) {
      WorkKeepsStop(s, step);
    } else {
      TurnsKeepStop(s, step);
    }
  }

  lemma WorkKeepsStop(s: State, step: Step)
    requires Inv(s) && InRange(s) && Enabled(s, step) && IsWork(step)
    ensures KeepsStop(s.d, Next(s, step).d)
  {
    hide Inv, CountStatus, OutcomeOf, Prefetch;
  }

  lemma TurnsKeepStop(s: State, step: Step)
    requires Inv(s) && InRange(s) && Enabled(s, step)
    requires step.Turn? || step.Gathered? || step.WakeWork? || step.WakeOcr? || step.AppendNext? || step.FinishPlan?
    ensures KeepsStop(s.d, Next(s, step).d)
  {
    hide Inv, CountStatus, OutcomeOf, Prefetch, NextUnfinished, AppendCheck, NewRows, PagePlace;
  }

  lemma {:induction false} StopStaysOk(s: State, step: Step)
    requires Inv(s) && Enabled(s, step) && StopOk(s.d)
    ensures InRange(s) && StopOk(Next(s, step).d)
  {
    InvInRange(s);
    assert s.d.status != StoppingAfterPage;
    hide Inv, InRange;
    if IsWork(step) || step.Turn? || step.Gathered? || step.WakeWork? || step.WakeOcr? || step.AppendNext?
       || step.FinishPlan? {
      hide Next, Enabled;
      StopIsKept(s, step);
    } else {
      OthersKeepStopOk(s, step);
    }
  }

  lemma {:induction false} OthersKeepStopOk(s: State, step: Step)
    requires InRange(s) && Enabled(s, step) && StopOk(s.d) && s.d.status != StoppingAfterPage
    requires (s.d.totalSegments > 0 || s.d.planningComplete) || s.d.status != Running
    requires !(IsWork(step) || step.Turn? || step.Gathered? || step.WakeWork? || step.WakeOcr? || step.AppendNext?
               || step.FinishPlan?)
    ensures StopOk(Next(s, step).d)
  {
    hide CountStatus, RetriedRow, ReopenPages, RecoveredRows, Damaged;
  }

  /** A stop lets nothing begin any more. A queued generation is paused at once; any other is left stopping, for its
      run to pause it. */
  lemma StopTells(d: Generation)
    requires DataOk(d) && CanBegin(d)
    ensures var t := RequestStop(d);
            && !CanBegin(t) && !CanPrepare(t) && !CanFinish(t) && t.rows == d.rows && t.pages == d.pages
            && (d.status == Queued <==> t.status == Paused && !t.stopRequested)
            && (d.status != Queued <==> t.status == StoppingAfterSegment && t.stopRequested)
            && (t.current.Some? ==> t.current == d.current)
  {
  }

  /** A start takes a stop back: the generation can go on with the rows that it has, and exactly as before if a segment
      was being worked on. */
  lemma StartTakesStopBack(d: Generation)
    requires DataOk(d) && CanBegin(d)
    ensures var t := StartGeneration(RequestStop(d));
            && CanBegin(t) && t == d.(status := t.status, current := t.current)
            && (d.status == Running && d.current.Some? ==> t == d)
            && (t.status == Queued ==> d.planningComplete) && (t.status == Preparing ==> !d.planningComplete)
  {
  }

  /** A start makes every generation go on that has not come to its end, and touches no segment: one that is paused or
      has failed waits for a run, one that is stopping does not stop, and one that is at work stays as it is. */
  lemma StartGoesOn(d: Generation)
    requires StopOk(d) && d.status != StoppingAfterPage
    ensures var t := StartGeneration(d);
            && t.rows == d.rows && t.pages == d.pages && StopOk(t)
            && (t == d <==> d.status in {AllCompleted, CompletedWithErrors, Preparing, Queued, Running})
            && (d.status in {Paused, GenerationFailed} ==>
                  CanPrepare(t) && t.current.None? && (t.status == Queued <==> d.planningComplete))
            && (d.status == StoppingAfterSegment ==>
                  CanBegin(t) && t.current == d.current && (t.status == Running <==> d.current.Some?)
                  && (t.status == Queued <==> d.current.None? && d.planningComplete))
  {
  }

  /** After a crash the generation has failed if and only if an exception was the cause, and then every segment that
      was not begun says so; no segment loses anything. After a cancellation the generation stays as it was. */
  lemma {:induction false} CrashTells(s: State)
    requires Inv(s) && Enabled(s, CrashSettled)
    ensures InRange(s)
    ensures var d, t := s.d, Next(s, CrashSettled).d;
            && |t.rows| == |d.rows| && t.pages == d.pages
            && (!s.pc.failed ==> t == d)
            && (s.pc.failed ==>
                  && t.status == GenerationFailed && !t.stopRequested && t.current.None?
                  && forall k :: 0 <= k < |d.rows| ==>
                       && t.rows[k] == d.rows[k].(errorStage := t.rows[k].errorStage)
                       && (d.rows[k].status == Pending ==> t.rows[k].errorStage == Some("chapter"))
                       && (d.rows[k].status != Pending ==> t.rows[k] == d.rows[k]))
  {
    InvInRange(s);
    hide Inv, InRange;
  }

  /** A stop that finds no run in progress and a generation that is not queued has no effect to come: the generation
      is left stopping until somebody starts it again, forces a pause, or restarts the process. */
  lemma {:induction false} StopWithoutRunStays(s: State, steps: seq<Step>)
    requires Inv(s) && s.pc.Absent? && s.d.status == StoppingAfterSegment && s.d.stopRequested
    requires forall k :: 0 <= k < |steps| ==> !steps[k].Start? && !steps[k].ForcePause? && !steps[k].Restart?
    ensures var t := Run(s, steps); t.pc.Absent? && t.d.status == StoppingAfterSegment && t.d.stopRequested
    decreases |steps|
  {
    hide Inv, Next, Enabled, InRange;
    if |steps| > 0 {
      if Enabled(s, steps[0]) {
        StepKeeps(s, steps[0]);
        StoppedWithoutRun(s, steps[0]);
        StopWithoutRunStays(Next(s, steps[0]), steps[1..]);
      } else {
        StopWithoutRunStays(s, steps[1..]);
      }
    }
  }

  lemma StoppedWithoutRun(s: State, step: Step)
    requires Inv(s) && InRange(s) && Enabled(s, step) && !step.Start? && !step.ForcePause? && !step.Restart?
    requires s.pc.Absent? && s.d.status == StoppingAfterSegment && s.d.stopRequested
    ensures var t := Next(s, step); t.pc.Absent? && t.d.status == StoppingAfterSegment && t.d.stopRequested
  {
    assert TasksIdle(s.pc, s.tasks, s.dying);
    hide DataOk, PcOk, TasksFit, CountStatus, RetriedRow, ReopenPages;
  }

  /** Whether a retry has anything to do. */
  ghost predicate RetriesSomething(s: State, step: Step) {
    step.RetryOne? || (step.RetryFailed? && exists k :: 0 <= k < |s.d.rows| && s.d.rows[k].status == Failed)
  }

  /** What a retry with something to do makes of the generation around the segments. */
  ghost predicate GoesOnAfterRetry(d: Generation, t: Generation) {
    if d.status in {Preparing, Queued, Running, StoppingAfterSegment} then
      t.status == d.status && t.stopRequested == d.stopRequested && t.current == d.current
    else CanPrepare(t) && t.current.None? && t.status == if d.planningComplete then Queued else Preparing
  }

  lemma OneRetryGoesOn(d: Generation, i: nat)
    requires i < |d.rows|
    ensures GoesOnAfterRetry(d, Retry(d, i))
  {
    hide CountStatus, RetriedRow, ReopenPages;
  }

  lemma AllRetriesGoOn(d: Generation)
    requires d.status != StoppingAfterSegment
    ensures if CountStatus(d.rows, Failed) == 0 then RetryEverything(d) == d
            else GoesOnAfterRetry(d, RetryEverything(d))
  {
    hide CountStatus, RetriedRow, ReopenPages;
  }

  /** A retry leaves a generation that is at work, or stopping, as it is, and makes any other wait for a run; without
      anything to retry it changes nothing. */
  lemma {:induction false} RetryGoesOn(s: State, step: Step)
    requires Inv(s) && Enabled(s, step) && IsRetry(step)
    ensures InRange(s)
    ensures var d, t := s.d, Next(s, step).d;
            if RetriesSomething(s, step) then GoesOnAfterRetry(d, t) else t == d
  {
    InvInRange(s);
    NextIsRetried(s, step);
    CountIsPositive(s.d.rows, Failed);
    hide Inv, InRange, Next, CountStatus, GoesOnAfterRetry, Retry, RetryEverything;
    match step
    case RetryOne(i) => OneRetryGoesOn(s.d, i);
    case RetryFailed => AllRetriesGoOn(s.d);
  }

  /** The steps with which the consumer is done with its segment. */
  predicate EndsSegment(s: State, step: Step)
    requires InRange(s) && Enabled(s, step)
  {
    step.FinishWork? || step.FailWork? || (step.WakeOcr? && s.d.rows[s.pc.row].status == Failed)
  }

  /** The consumer goes on to the next segment if and only if the generation is still running; otherwise it returns,
      with all its tasks cancelled. Either way it has no segment any more. */
  lemma {:induction false} EndedSegmentGoesOnIff(s: State, step: Step)
    requires Inv(s) && StopOk(s.d) && InRange(s) && Enabled(s, step) && EndsSegment(s, step)
    ensures var t := Next(s, step);
            && t.current.None?
            && t.d.status == s.d.status && t.d.stopRequested == s.d.stopRequested
            && (s.d.status == Running ==> t.pc == Top && t.d.current.None?)
            && (s.d.status != Running ==> t.pc == Returned(false) && t.tasks == map[] && t.d.current == s.d.current)
  {
    hide Inv, Close, CompleteRow, ClosePage, FailTaskRow;
    match step
    case WakeOcr => ClosesIff(s);
    case FinishWork(path, version) =>
      var i := s.pc.row;
      EndedRowStays(s.d, i, path, version);
      var d := ClosePage(CompleteRow(s.d, i, path, version), s.d.rows[i].strip.pageIndex);
      ClosesIff(s.(d := d, done := s.done + [i]));
    case FailWork =>
      EndedRowStays(s.d, s.pc.row, "", "");
      ClosesIff(s.(d := FailTaskRow(s.d, s.pc.row)));
    case _ =>
  }

  lemma EndedRowStays(d: Generation, i: nat, path: Path, version: string)
    requires i < |d.rows|
    ensures var t := ClosePage(CompleteRow(d, i, path, version), d.rows[i].strip.pageIndex);
            t.status == d.status && t.stopRequested == d.stopRequested && t.current == d.current
    ensures var t := FailTaskRow(d, i);
            t.status == d.status && t.stopRequested == d.stopRequested && t.current == d.current
  {
    hide CountStatus;
  }

  lemma ClosesIff(s: State)
    requires StopOk(s.d)
    ensures var t := Close(s);
            && t.current.None?
            && t.d.status == s.d.status && t.d.stopRequested == s.d.stopRequested
            && (s.d.status == Running ==> t.pc == Top && t.d.current.None?)
            && (s.d.status != Running ==> t.pc == Returned(false) && t.tasks == map[] && t.d.current == s.d.current)
  {
  }

  /** After a restart nothing is at work or stopping any more: what was to stop is paused, whatever else was active
      waits for a run, and the rest stays as it ended, unless files are missing that its segments need: then
      it is paused. */
  lemma RestartTells(d: Generation, indexed: set<Path>)
    requires DataOk(d) && StopOk(d)
    ensures var t := Restarted(d, indexed);
            && !t.stopRequested
            && t.status == (if d.status == StoppingAfterSegment then Paused
                            else if d.status in {Preparing, Queued, Running} then Queued
                            else if forall k :: 0 <= k < |d.rows| ==> Intact(d.rows[k], indexed) then d.status
                            else Paused)
            && (d.status in {Preparing, Queued, Running, StoppingAfterSegment} ==> t.current.None?)
  {
    MissesIff(d, indexed);
    hide DataOk, Damaged, ReleaseRows, Intact, RecoveredRows, CountStatus;
  }

  lemma {:induction false} MissesIff(d: Generation, indexed: set<Path>)
    requires DataOk(d)
    ensures ReleaseRows(d) == d.(rows := ReleaseRows(d).rows)
    ensures Damaged(ReleaseRows(d).rows, indexed) <==> exists k :: 0 <= k < |d.rows| && !Intact(d.rows[k], indexed)
  {
    var rows := ReleaseRows(d).rows;
    forall k | 0 <= k < |d.rows|
      ensures Damage(rows[k], indexed).None? <==> Intact(d.rows[k], indexed)
    {
      RowIsOk(d, k);
      hide DataOk;
    }
    if k :| 0 <= k < |d.rows| && !Intact(d.rows[k], indexed) {
      assert Damage(rows[k], indexed).Some?;
    }
    hide DataOk, Damage, Intact;
  }
}
