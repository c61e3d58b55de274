/** Two promises about whole streaming runs: segments complete in reading order although OCR runs in
    parallel, for exactly as long as nothing that was overtaken is opened again, and a stop lets at most the
    segment that was already begun complete. */
module StreamOrder {
  import opened Common
  import opened SegmentPlanner
  import opened SegmentRows
  import opened SegmentInvariants
  import opened CheckpointRecovery
  import opened StreamPipeline
  import opened StreamInvariant

  /** Every segment before place g is completed or failed. */
  ghost predicate AllBefore(rows: seq<Row>, g: nat) {
    g <= |rows| && forall j :: 0 <= j < g ==> Terminal(rows[j])
  }

  /** Finished segments stay as they are, and segments are only added at the end. */
  ghost predicate Grows(rows: seq<Row>, rows': seq<Row>) {
    |rows| <= |rows'| && forall j :: 0 <= j < |rows| && Terminal(rows[j]) ==> rows'[j] == rows[j]
  }

  /** The consumer's record grows by the segment that it takes up, and only then. */
  predicate Recorded(s: State, t: State) {
    t.begun == if t.current.Some? && t.current != s.current then s.begun + [t.current.value] else s.begun
  }

  /** What a stretch of the consumer's code may do, as seen from outside. */
  ghost predicate ConsumerEffect(s: State, t: State) {
    && t.d.rows == s.d.rows && t.done == s.done && Recorded(s, t)
    && (t.pc.Working? ==> AllBefore(t.d.rows, t.pc.row))
    && (!CanBegin(s.d) ==>
          && t.begun == s.begun && (t.current == s.current || t.current.None?)
          && t.d.status == s.d.status && t.d.stopRequested == s.d.stopRequested)
  }

  lemma ReturnEffect(s: State, ok: bool)
    ensures ConsumerEffect(s, Return(s, ok))
  {
  }

  lemma ProcessEffect(s: State, i: nat, stopping: bool, slots: nat)
    requires i < |s.d.rows| && AllBefore(s.d.rows, i)
    ensures ConsumerEffect(s, Process(s, i, stopping, slots))
    ensures Process(s, i, stopping, slots).begun == s.begun && Process(s, i, stopping, slots).current == s.current
    ensures Process(s, i, stopping, slots).d == s.d
  {
    hide Prefetch;
  }

  lemma {:induction false} SelectEffect(s: State, stopping: bool, planned: bool, slots: nat)
    ensures ConsumerEffect(s, Select(s, stopping, planned, slots))
  {
    hide Process, CancelTasks;
    var next := NextUnfinished(s.d.rows, 0);
    if next.None? {
      ReturnEffect(s.(d := FinalizeAll(s.d)), true);
    } else {
      var i := next.value;
      if s.current == Some(i) {
        ProcessEffect(s, i, stopping, slots);
      } else if CanBegin(s.d) {
        ProcessEffect(Started(s, i), i, stopping, slots);
      }
    }
  }

  lemma {:induction false} TurnEffect(s: State, slots: nat)
    ensures ConsumerEffect(s, TakeTurn(s, slots))
  {
    hide Select, FillPrefetch;
    var t := s.(tasks := WithoutDone(s.tasks));
    FillKeepsRest(t, slots);
    SelectEffect(FillPrefetch(t, slots), false, s.d.planningComplete, slots);
  }

  lemma CloseEffect(s: State)
    ensures var t := Close(s);
            && t.d.rows == s.d.rows && t.done == s.done && !t.pc.Working? && t.current.None? && t.begun == s.begun
            && t.d.status == s.d.status && t.d.stopRequested == s.d.stopRequested
  {
  }

  /** The effect of any step that is not a retry. Only a restart may reopen what is finished. */
  ghost predicate StepEffect(s: State, step: Step, t: State) {
    && (step.Restart? || Grows(s.d.rows, t.d.rows))
    && Recorded(s, t)
    && t.done == (if step.FinishWork? && s.pc.Working? then s.done + [s.pc.row] else s.done)
    && (step.FinishWork? && s.pc.Working? ==>
        s.pc.row < |t.d.rows| && t.d.rows[s.pc.row].status == Completed && t.current.None? && !t.pc.Working?)
    && (t.pc.Working? ==> AllBefore(t.d.rows, t.pc.row) || (s.pc.Working? && s.pc.row == t.pc.row))
    && (!step.Start? && Halted(s.d) ==>
        Halted(t.d) && t.begun == s.begun && (t.current == s.current || t.current.None?))
  }

  /** Neither prepares, waits nor runs: no segment can be begun. */
  ghost predicate Halted(d: Generation) {
    d.status !in {Preparing, Queued, Running}
  }

  lemma {:induction false} ConsumerStepEffect(s: State, step: Step)
    requires Inv(s) && InRange(s) && Enabled(s, step)
    requires step.Turn? || step.Gathered? || step.WakeWork? || step.WakeOcr?
    ensures StepEffect(s, step, Next(s, step))
  {
    hide DataOk, TasksFit, TakeTurn, Select, Close, CancelTasks;
    match step
    case Turn(slots) => TurnEffect(s, slots);
    case Gathered(slots) =>
      ReturnEffect(s, false);
      SelectEffect(s, true, s.pc.planned, slots);
    case WakeWork =>
    case WakeOcr => CloseEffect(s);
  }

  /** A step that replaces one unfinished row, with the consumer where it was or out of its work. */
  lemma RowStepEffect(s: State, step: Step, t: State, i: nat)
    requires !step.FinishWork? && i < |s.d.rows| && !Terminal(s.d.rows[i])
    requires i < |t.d.rows| && t.d.rows == s.d.rows[i := t.d.rows[i]]
    requires t.done == s.done && t.begun == s.begun && (t.current == s.current || t.current.None?)
    requires t.d.status == s.d.status
    requires t.pc.Working? ==> s.pc.Working? && s.pc.row == t.pc.row
    ensures StepEffect(s, step, t)
  {
  }

  lemma {:induction false} StageStepEffect(s: State, step: Step)
    requires Inv(s) && InRange(s) && Enabled(s, step) && (step.StartTranslating? || step.StartRendering?)
    ensures StepEffect(s, step, Next(s, step))
  {
    hide DataOk, TasksFit, StepEffect;
    RowStepEffect(s, step, Next(s, step), s.pc.row);
  }

  lemma {:induction false} FinishHasEffect(s: State, i: nat, path: Path, version: string)
    requires DataOk(s.d) && i < |s.d.rows| && s.pc.Working? && s.pc.row == i
    requires s.d.rows[i].status == Rendering && s.d.rows[i].translationsPath.Some?
    ensures StepEffect(s, FinishWork(path, version), Finish(s, i, path, version))
  {
    hide DataOk, Close, ClosePage, CompleteRow;
    CompleteRowKeeps(s.d, i, path, version);
    var d := ClosePage(CompleteRow(s.d, i, path, version), s.d.rows[i].strip.pageIndex);
    CloseEffect(s.(d := d, done := s.done + [i]));
  }

  lemma {:induction false} FinishEffect(s: State, path: Path, version: string)
    requires Inv(s) && InRange(s) && Enabled(s, FinishWork(path, version))
    ensures StepEffect(s, FinishWork(path, version), Next(s, FinishWork(path, version)))
  {
    RowIsOk(s.d, s.pc.row);
    hide DataOk, TasksFit, StepEffect, Finish;
    FinishHasEffect(s, s.pc.row, path, version);
  }

  lemma {:induction false} FailHasEffect(s: State, i: nat)
    requires DataOk(s.d) && i < |s.d.rows| && !Terminal(s.d.rows[i])
    ensures StepEffect(s, FailWork, FailCurrent(s, i))
  {
    hide DataOk, StepEffect, Close, FailTaskRow;
    FailTaskRowKeeps(s.d, i);
    CloseEffect(s.(d := FailTaskRow(s.d, i)));
    RowStepEffect(s, FailWork, FailCurrent(s, i), i);
  }

  lemma {:induction false} FailWorkEffect(s: State)
    requires Inv(s) && InRange(s) && Enabled(s, FailWork)
    ensures StepEffect(s, FailWork, Next(s, FailWork))
  {
    hide DataOk, TasksFit, StepEffect, FailCurrent;
    FailHasEffect(s, s.pc.row);
  }

  lemma {:induction false} TaskStepEffect(s: State, step: Step)
    requires Inv(s) && InRange(s) && Enabled(s, step)
    requires step.TaskClaims? || step.TaskReady?
    ensures StepEffect(s, step, Next(s, step))
  {
    TaskIsNotCurrentWork(s, step.row);
    hide DataOk, TasksFit, StepEffect, PcOk;
    RowStepEffect(s, step, Next(s, step), step.row);
  }

  lemma {:induction false} TaskFailsEffect(s: State, k: nat)
    requires Inv(s) && InRange(s) && Enabled(s, TaskFails(k))
    ensures StepEffect(s, TaskFails(k), Next(s, TaskFails(k)))
  {
    TaskIsNotCurrentWork(s, k);
    hide DataOk, TasksFit, StepEffect, PcOk;
    FailTaskRowKeeps(s.d, k);
    hide FailTaskRow;
    RowStepEffect(s, TaskFails(k), Next(s, TaskFails(k)), k);
  }

  lemma {:induction false} TaskDiesEffect(s: State, k: nat)
    requires Inv(s) && InRange(s) && Enabled(s, TaskDies(k))
    ensures StepEffect(s, TaskDies(k), Next(s, TaskDies(k)))
  {
    assert s.d.rows[k].status == Ocr;
    hide DataOk, TasksFit, StepEffect, PcOk;
    RowStepEffect(s, TaskDies(k), Next(s, TaskDies(k)), k);
  }

  /** Steps that leave every finished segment alone and do not touch the consumer's records. */
  lemma QuietStepEffect(s: State, step: Step, t: State)
    requires !step.FinishWork? && Grows(s.d.rows, t.d.rows) && t.done == s.done && t.begun == s.begun
    requires t.current == s.current || t.current.None?
    requires t.pc.Working? ==> t.pc == s.pc
    requires step.Start? || (Halted(s.d) ==> Halted(t.d))
    ensures StepEffect(s, step, t)
  {
  }

  lemma {:induction false} QuietSteps(s: State, step: Step)
    requires Inv(s) && InRange(s) && Enabled(s, step)
    requires step.Begin? || step.End? || step.Crash? || step.FinishPlan? || step.Stop? || step.Start?
    ensures StepEffect(s, step, Next(s, step))
  {
    assert s.d.status != StoppingAfterPage;
    hide DataOk, TasksFit, StepEffect, PcOk, CountStatus;
    QuietStepEffect(s, step, Next(s, step));
  }

  lemma {:induction false} ReleasingSteps(s: State, step: Step)
    requires Inv(s) && InRange(s) && Enabled(s, step)
    requires step.CrashSettled? || step.ForcePause?
    ensures StepEffect(s, step, Next(s, step))
  {
    assert s.d.status != StoppingAfterPage;
    hide DataOk, TasksFit, StepEffect, PcOk, ReleaseRows, Grows, TasksIdle;
    QuietStepEffect(s, step, Next(s, step));
  }

  lemma {:induction false} RestartEffect(s: State, indexed: set<Path>)
    requires Inv(s) && InRange(s)
    ensures StepEffect(s, Restart(indexed), Next(s, Restart(indexed)))
  {
    NextIsRestarted(s, indexed);
    RestartHalts(s.d, indexed);
    hide Inv, Next, InRange, Restarted, DataOk, Halted;
  }

  lemma NextIsRestarted(s: State, indexed: set<Path>)
    requires Inv(s) && InRange(s)
    ensures DataOk(s.d)
    ensures Next(s, Restart(indexed))
         == s.(d := Restarted(s.d, indexed), pc := Absent, current := None, tasks := map[], dying := {})
  {
    hide DataOk, TasksFit, PcOk, Restarted;
  }

  lemma RestartHalts(d: Generation, indexed: set<Path>)
    requires DataOk(d)
    ensures Halted(d) ==> Halted(Restarted(d, indexed))
  {
    assert d.status != StoppingAfterPage;
    hide DataOk, ReleaseRows, RecoveredRows, CountStatus, Damaged;
  }

  lemma {:induction false} AppendEffect(s: State, place: nat, plan: seq<PlannedSegment>)
    requires Inv(s) && InRange(s) && Enabled(s, AppendNext(place, plan))
    ensures StepEffect(s, AppendNext(place, plan), Next(s, AppendNext(place, plan)))
  {
    AppendedIs(s, place, plan);
    hide StepEffect, Next, Enabled, InRange, Append, Inv, IsNextPage, NumbersPage, DataOk;
    AppendKeeps(s.d, place, plan);
    QuietStepEffect(s, AppendNext(place, plan), Next(s, AppendNext(place, plan)));
  }

  lemma AppendedIs(s: State, place: nat, plan: seq<PlannedSegment>)
    requires Inv(s) && InRange(s) && Enabled(s, AppendNext(place, plan))
    ensures DataOk(s.d) && IsNextPage(s.d, place) && |plan| > 0 && NumbersPage(plan, s.d.pages[place].pageIndex)
    ensures Next(s, AppendNext(place, plan)) == s.(d := Append(s.d, place, plan))
  {
    hide DataOk, TasksFit, PcOk, Append;
  }

  lemma {:induction false} StepHasEffect(s: State, step: Step)
    requires Inv(s) && Enabled(s, step) && !IsRetry(step)
    ensures InRange(s) && StepEffect(s, step, Next(s, step))
  {
    InvInRange(s);
    hide Inv, Next, Enabled, InRange, StepEffect;
    match step
    case FinishWork(path, version) => FinishEffect(s, path, version);
    case FailWork => FailWorkEffect(s);
    case TaskFails(k) => TaskFailsEffect(s, k);
    case TaskDies(k) => TaskDiesEffect(s, k);
    case AppendNext(place, plan) => AppendEffect(s, place, plan);
    case Restart(indexed) => RestartEffect(s, indexed);
    case _ =>
      if step.Turn? || step.Gathered? || step.WakeWork? || step.WakeOcr? {
        ConsumerStepEffect(s, step);
      } else if step.StartTranslating? || step.StartRendering? {
        StageStepEffect(s, step);
      } else if step.TaskClaims? || step.TaskReady? {
        TaskStepEffect(s, step);
      } else if step.CrashSettled? || step.ForcePause? {
        ReleasingSteps(s, step);
      } else {
        QuietSteps(s, step);
      }
  }

  /** What the records of a run mean: a segment enters the one when the consumer takes it up, and the other when it is
      completed. */
  lemma {:induction false} RecordsMean(s: State, step: Step)
    requires Inv(s) && Enabled(s, step)
    ensures InRange(s)
    ensures var t := Next(s, step);
            && t.begun == (if t.current.Some? && t.current != s.current then s.begun + [t.current.value] else s.begun)
            && t.done == (if step.FinishWork? then s.done + [s.pc.row] else s.done)
            && (step.FinishWork? ==> s.pc.row < |t.d.rows| && t.d.rows[s.pc.row].status == Completed)
  {
    InvInRange(s);
    hide Inv, Next, InRange;
    if IsRetry(step) {
      NextIsRetried(s, step);
    } else {
      StepHasEffect(s, step);
    }
  }

  // ---------------------------------------------------------------- completion in order

  /** Completions so far went in strictly increasing global order, each after every smaller segment was
      completed or failed; and the same holds for the segment that is being worked on. */
  ghost predicate InOrder(s: State) {
    && (forall a, b :: 0 <= a < b < |s.done| ==> s.done[a] < s.done[b])
    && (forall a :: 0 <= a < |s.done| ==>
          s.done[a] < |s.d.rows| && s.d.rows[s.done[a]].status == Completed && AllBefore(s.d.rows, s.done[a]))
    && (s.pc.Working? ==> AllBefore(s.d.rows, s.pc.row))
  }

  lemma GrowingKeepsBefore(rows: seq<Row>, rows': seq<Row>, i: nat)
    requires Grows(rows, rows') && i < |rows|
    ensures i < |rows'|
    ensures rows[i].status == Completed ==> rows'[i].status == Completed
    ensures AllBefore(rows, i) ==> AllBefore(rows', i)
  {
  }

  lemma {:induction false} OrderKept(s: State, step: Step, t: State)
    requires InOrder(s) && StepEffect(s, step, t) && !step.Restart?
    requires s.pc.Working? ==> s.pc.row < |s.d.rows| && !Terminal(s.d.rows[s.pc.row])
    ensures InOrder(t)
  {
    hide Grows, Halted;
    assert t.done == s.done || (|t.done| == |s.done| + 1 && t.done[..|s.done|] == s.done);
    forall a | 0 <= a < |s.done|
      ensures s.done[a] < |t.d.rows| && t.d.rows[s.done[a]].status == Completed && AllBefore(t.d.rows, s.done[a])
    {
      GrowingKeepsBefore(s.d.rows, t.d.rows, s.done[a]);
    }
    if s.pc.Working? {
      GrowingKeepsBefore(s.d.rows, t.d.rows, s.pc.row);
    }
    if step.FinishWork? && s.pc.Working? {
      forall a | 0 <= a < |s.done|
        ensures s.done[a] < s.pc.row
      {
        assert AllBefore(s.d.rows, s.done[a]);
      }
    }
  }

  lemma WorkIsUnfinished(s: State)
    requires Inv(s)
    ensures s.pc.Working? ==> s.pc.row < |s.d.rows| && !Terminal(s.d.rows[s.pc.row])
  {
  }

  /** The step reopens segment j, which is finished. */
  ghost predicate Reopens(s: State, step: Step, j: nat)
    requires j < |s.d.rows|
  {
    match step
    case RetryOne(i) => j == i
    case RetryFailed => s.d.rows[j].status == Failed
    case Restart(indexed) => Terminal(s.d.rows[j]) && !Intact(s.d.rows[j], indexed)
    case _ => false
  }

  /** A completed segment comes at or after j, or one after j is being worked on and still is after the step. */
  ghost predicate IsOvertaken(s: State, step: Step, j: nat) {
    || (exists a :: 0 <= a < |s.done| && j <= s.done[a])
    || (s.pc.Working? && !step.Restart? && j < s.pc.row)
  }

  ghost predicate RespectsOrder(s: State, step: Step) {
    forall j :: 0 <= j < |s.d.rows| && IsOvertaken(s, step, j) ==> !Reopens(s, step, j)
  }

  /** What a retry or a restart does to finished segments. */
  ghost predicate Reopening(s: State, step: Step, t: State) {
    && |t.d.rows| == |s.d.rows| && t.done == s.done && (if step.Restart? then t.pc.Absent? else t.pc == s.pc)
    && forall j :: 0 <= j < |s.d.rows| && Terminal(s.d.rows[j]) ==>
         if Reopens(s, step, j) then !Terminal(t.d.rows[j]) else t.d.rows[j].status == s.d.rows[j].status
  }

  lemma {:induction false} ReopeningRespectsOrderIff(s: State, step: Step, t: State)
    requires InOrder(s) && Reopening(s, step, t)
    requires forall j :: 0 <= j < |s.d.rows| && Reopens(s, step, j) ==> Terminal(s.d.rows[j])
    ensures InOrder(t) <==> RespectsOrder(s, step)
  {
    hide Reopens;
    if InOrder(t) {
      forall j | 0 <= j < |s.d.rows| && IsOvertaken(s, step, j)
        ensures !Reopens(s, step, j)
      {
        if exists a :: 0 <= a < |s.done| && j <= s.done[a] {
          var a :| 0 <= a < |s.done| && j <= s.done[a];
          assert t.done[a] < |t.d.rows| && AllBefore(t.d.rows, t.done[a]);
        }
      }
    }
    if RespectsOrder(s, step) {
      forall a | 0 <= a < |s.done|
        ensures t.d.rows[s.done[a]].status == Completed && AllBefore(t.d.rows, s.done[a])
      {
        assert AllBefore(s.d.rows, s.done[a]);
        forall j | 0 <= j <= s.done[a]
          ensures Terminal(t.d.rows[j]) && t.d.rows[j].status == s.d.rows[j].status
        {
          assert IsOvertaken(s, step, j);
        }
      }
      if t.pc.Working? {
        forall j | 0 <= j < s.pc.row
          ensures Terminal(t.d.rows[j])
        {
          assert IsOvertaken(s, step, j);
        }
      }
    }
  }

  lemma {:induction false} RetryReopens(s: State, step: Step)
    requires Inv(s) && InRange(s) && Enabled(s, step) && IsRetry(step)
    ensures Reopening(s, step, Next(s, step))
    ensures forall j :: 0 <= j < |s.d.rows| && Reopens(s, step, j) ==> Terminal(s.d.rows[j])
  {
    hide Inv, Next, InRange, Enabled, Retry, RetryEverything, DataOk;
    NextIsRetried(s, step);
    match step
    case RetryOne(i) =>
      RetryKeeps(s.d, i);
    case RetryFailed => RetryEverythingKeeps(s.d);
  }

  lemma NextIsRetried(s: State, step: Step)
    requires Inv(s) && InRange(s) && Enabled(s, step) && IsRetry(step)
    ensures DataOk(s.d) && (step.RetryOne? ==> step.row < |s.d.rows| && s.d.rows[step.row].status == Failed)
    ensures Next(s, step) == s.(d := if step.RetryOne? then Retry(s.d, step.row) else RetryEverything(s.d))
  {
    hide DataOk, TasksFit, PcOk, Retry, RetryEverything;
  }

  lemma {:induction false} RestartedRow(d: Generation, indexed: set<Path>, j: nat)
    requires DataOk(d) && j < |d.rows| && Terminal(d.rows[j])
    ensures |Restarted(d, indexed).rows| == |d.rows|
    ensures var row := Restarted(d, indexed).rows[j];
            if Intact(d.rows[j], indexed) then row == d.rows[j] else row.status == Pending
  {
    hide Restarted, DataOk, RecoveredRow, Intact;
    RowIsOk(d, j);
    RestartKeeps(d, indexed);
    RecoveryForgetsSuffix(d.rows[j], indexed);
  }

  lemma {:induction false} RestartReopens(s: State, indexed: set<Path>)
    requires Inv(s) && InRange(s)
    ensures Reopening(s, Restart(indexed), Next(s, Restart(indexed)))
  {
    hide Inv, Next, InRange, Restarted, DataOk, Intact;
    NextIsRestarted(s, indexed);
    RestartKeeps(s.d, indexed);
    hide RecoveredRows;
    forall j | 0 <= j < |s.d.rows| && Terminal(s.d.rows[j])
      ensures if Reopens(s, Restart(indexed), j) then !Terminal(Restarted(s.d, indexed).rows[j])
              else Restarted(s.d, indexed).rows[j].status == s.d.rows[j].status
    {
      RestartedRow(s.d, indexed, j);
    }
  }

  /** A step keeps completions in order if and only if it reopens no segment that a completed one, or the one
      that is being worked on, has already overtaken. */
  lemma {:induction false} OrderIsKeptIff(s: State, step: Step)
    requires Inv(s) && InOrder(s) && Enabled(s, step)
    ensures InRange(s) && (InOrder(Next(s, step)) <==> RespectsOrder(s, step))
  {
    hide Inv, Next, Enabled, InRange, InOrder, StepEffect, Reopening;
    InvInRange(s);
    match step
    case Restart(indexed) =>
      RestartReopens(s, indexed);
      ReopeningRespectsOrderIff(s, step, Next(s, step));
    case RetryOne(_) =>
      RetryReopens(s, step);
      ReopeningRespectsOrderIff(s, step, Next(s, step));
    case RetryFailed =>
      RetryReopens(s, step);
      ReopeningRespectsOrderIff(s, step, Next(s, step));
    case _ =>
      StepHasEffect(s, step);
      WorkIsUnfinished(s);
      OrderKept(s, step, Next(s, step));
  }

  /** At every moment of the run completions are in order. */
  ghost predicate InOrderThroughout(s: State, steps: seq<Step>)
    requires Inv(s)
    decreases |steps|
  {
    && InOrder(s)
    && (|steps| > 0 ==>
          if !Enabled(s, steps[0]) then InOrderThroughout(s, steps[1..])
          else
            StepKeeps(s, steps[0]);
            InOrderThroughout(Next(s, steps[0]), steps[1..]))
  }

  /** No step of the run reopens a segment that has been overtaken. */
  ghost predicate OrderIsRespected(s: State, steps: seq<Step>)
    requires Inv(s)
    decreases |steps|
  {
    |steps| > 0 ==>
      if !Enabled(s, steps[0]) then OrderIsRespected(s, steps[1..])
      else
        StepKeeps(s, steps[0]);
        RespectsOrder(s, steps[0]) && OrderIsRespected(Next(s, steps[0]), steps[1..])
  }

  /** Over every run, whatever the prefetch tasks, the producer, stops, starts, crashes, retries and restarts do:
      segments complete in strictly increasing order, each once all smaller ones are completed or failed, for as
      long as, and no longer than, no retry and no restart with missing files reopens an overtaken segment. */
  lemma {:induction false} CompletionsAreInOrder(s: State, steps: seq<Step>)
    requires Inv(s) && InOrder(s)
    ensures InOrderThroughout(s, steps) <==> OrderIsRespected(s, steps)
    ensures InOrderThroughout(s, steps) ==> InOrder(Run(s, steps))
    decreases |steps|
  {
    hide Inv, Next, Enabled, InRange, InOrder, RespectsOrder;
    if |steps| > 0 {
      if Enabled(s, steps[0]) {
        StepKeeps(s, steps[0]);
        OrderIsKeptIff(s, steps[0]);
        if RespectsOrder(s, steps[0]) {
          CompletionsAreInOrder(Next(s, steps[0]), steps[1..]);
        } else {
          NotInOrder(Next(s, steps[0]), steps[1..]);
        }
      } else {
        CompletionsAreInOrder(s, steps[1..]);
      }
    }
  }

  lemma NotInOrder(s: State, steps: seq<Step>)
    requires Inv(s) && !InOrder(s)
    ensures !InOrderThroughout(s, steps)
  {
    hide Inv, Next, Enabled, InRange, InOrder;
  }

  /** In particular in every run of a new generation without retries and restarts. */
  lemma {:induction false} NewRunsAreInOrder(pageIndexes: seq<nat>, steps: seq<Step>)
    requires Increasing(pageIndexes)
    ensures Inv(NewRun(pageIndexes))
    ensures InOrderThroughout(NewRun(pageIndexes), steps) <==> OrderIsRespected(NewRun(pageIndexes), steps)
    ensures (forall i :: 0 <= i < |steps| ==> !IsRetry(steps[i]) && !steps[i].Restart?) ==>
              InOrder(Run(NewRun(pageIndexes), steps))
  {
    NewRunIsOk(pageIndexes);
    hide Inv, Run, OrderIsRespected, InOrderThroughout;
    CompletionsAreInOrder(NewRun(pageIndexes), steps);
    if forall i :: 0 <= i < |steps| ==> !IsRetry(steps[i]) && !steps[i].Restart? {
      QuietRunsRespectOrder(NewRun(pageIndexes), steps);
    }
  }

  lemma {:induction false} QuietRunsRespectOrder(s: State, steps: seq<Step>)
    requires Inv(s) && forall i :: 0 <= i < |steps| ==> !IsRetry(steps[i]) && !steps[i].Restart?
    ensures OrderIsRespected(s, steps)
    decreases |steps|
  {
    hide Inv, Next, Enabled, InRange;
    if |steps| > 0 {
      if Enabled(s, steps[0]) {
        StepKeeps(s, steps[0]);
        assert RespectsOrder(s, steps[0]);
        QuietRunsRespectOrder(Next(s, steps[0]), steps[1..]);
      } else {
        QuietRunsRespectOrder(s, steps[1..]);
      }
    }
  }

  // ---------------------------------------------------------------- graceful stop

  /** Since the stop no segment was begun; the current one is still the one of the stop, or finished;
      and nothing but that one was completed. */
  ghost predicate Stopped(at: State, s: State) {
    && Halted(s.d)
    && s.begun == at.begun
    && (s.current == at.current || s.current.None?)
    && (s.done == at.done || (s.current.None? && at.current.Some? && s.done == at.done + [at.current.value]))
  }

  ghost predicate NeitherStartsNorRetries(steps: seq<Step>) {
    forall i :: 0 <= i < |steps| ==> !steps[i].Start? && !IsRetry(steps[i])
  }

  lemma {:induction false} StopKept(at: State, s: State, step: Step)
    requires Inv(s) && Stopped(at, s) && Enabled(s, step) && !step.Start? && !IsRetry(step)
    ensures InRange(s) && Stopped(at, Next(s, step))
  {
    StepHasEffect(s, step);
    assert s.pc.Working? ==> s.current == Some(s.pc.row);
    hide Inv, Next, Enabled, InRange;
  }

  lemma {:induction false} StoppedRuns(at: State, s: State, steps: seq<Step>)
    requires Inv(s) && Stopped(at, s) && NeitherStartsNorRetries(steps)
    ensures Stopped(at, Run(s, steps))
    decreases |steps|
  {
    hide Inv, Next, Enabled, InRange, Stopped;
    if |steps| > 0 {
      if Enabled(s, steps[0]) {
        InvInRange(s);
        StopKept(at, s, steps[0]);
        StepKeeps(s, steps[0]);
        StoppedRuns(at, Next(s, steps[0]), steps[1..]);
      } else {
        StoppedRuns(at, s, steps[1..]);
      }
    }
  }

  /** Nothing has begun since s, and nothing but the segment that was current then has been completed. */
  ghost predicate EndsWithCurrent(s: State, t: State) {
    && t.begun == s.begun
    && (t.done == s.done || (s.current.Some? && t.done == s.done + [s.current.value]))
  }

  /** A stop of a preparing or running generation is graceful: until somebody starts or retries, no
      further segment is begun, and at most one more completes: the one that was current at the stop. */
  lemma {:induction false} StopIsGraceful(s: State, steps: seq<Step>)
    requires Inv(s) && s.d.status in {Preparing, Running} && NeitherStartsNorRetries(steps)
    ensures Inv(AfterStop(s))
    ensures var t := Run(AfterStop(s), steps);
            EndsWithCurrent(s, t) && !CanBegin(t.d)
  {
    hide Inv, Run, InRange;
    InvInRange(s);
    StepKeeps(s, Stop);
    StoppedRuns(AfterStop(s), AfterStop(s), steps);
  }

  /** In particular whenever a run of a new generation is stopped. */
  lemma {:induction false} NewRunsStopGracefully(pageIndexes: seq<nat>, before: seq<Step>, steps: seq<Step>)
    requires Increasing(pageIndexes) && NeitherStartsNorRetries(steps)
    ensures Inv(NewRun(pageIndexes))
    ensures var s := Run(NewRun(pageIndexes), before);
            s.d.status in {Preparing, Running} ==>
              Inv(AfterStop(s)) && EndsWithCurrent(s, Run(AfterStop(s), steps))
  {
    NewRunIsOk(pageIndexes);
    var s := Run(NewRun(pageIndexes), before);
    hide Inv, Run, RequestStop, AfterStop;
    if s.d.status in {Preparing, Running} {
      StopIsGraceful(s, steps);
    }
  }

  /** The state right after request_stop. */
  function AfterStop(s: State): State {
    s.(d := RequestStop(s.d))
  }



  /** Nothing is left to cancel or to discard: the only task, if any, is the unfinished one of the current segment. */
  ghost predicate OnlyCurrentTask(s: State) {
    forall k :: k in s.tasks ==> s.current == Some(k) && s.tasks[k] != Done
  }

  /** The next unfinished segment is another than the current one. */
  ghost predicate FindsAnother(s: State) {
    && s.current.Some?
    && NextUnfinished(s.d.rows, 0).Some? && NextUnfinished(s.d.rows, 0) != s.current
  }

  /** The stop has a flaw in the code that safety does not show: a stopping consumer comes back from a whole turn
      exactly as it was if and only if it has nothing to cancel or discard (so that the turn does not suspend
      either) and its current segment is not the next unfinished one. */
  lemma {:induction false} StoppingConsumerStalls(s: State, slots: nat)
    requires Inv(s) && s.pc.Top? && s.d.stopRequested
    ensures var t := TakeTurn(s, slots);
            && t.pc == Gathering(s.d.planningComplete)
            && (AfterGathering(t, s.d.planningComplete, slots) == s <==> OnlyCurrentTask(s) && FindsAnother(s))
            && (OnlyCurrentTask(s) ==> t.dying == {})
  {
    hide Inv, Prefetch, FinalizeAll, WithoutDone, TakeTurn, AfterGathering, CancelTasks, OnlyCurrentTask;
    var t := TakeTurn(s, slots);
    StoppedTurn(s, slots);
    StoppedSelects(t, s.d.planningComplete, slots);
    if OnlyCurrentTask(s) {
      assert t == s.(pc := Gathering(s.d.planningComplete));
    }
  }

  /** A stopping consumer is back where it was if and only if it finds another segment than its current one. */
  lemma StoppedSelects(t: State, planned: bool, slots: nat)
    requires !CanBegin(t.d) && t.pc == Gathering(planned)
    ensures AfterGathering(t, planned, slots) == t.(pc := Top) <==> FindsAnother(t)
    ensures AfterGathering(t, planned, slots).pc.Top? ==> AfterGathering(t, planned, slots) == t.(pc := Top)
  {
    hide Prefetch, FinalizeAll, CancelTasks, NextUnfinished;
  }

  /** The two ways to get there: the current segment has failed, or an earlier one is open again. */
  lemma {:induction false} StallCauses(s: State)
    requires Inv(s) && s.current.Some? && NextUnfinished(s.d.rows, 0).Some?
    ensures s.current.value < |s.d.rows|
    ensures FindsAnother(s) <==>
              (s.d.rows[s.current.value].status == Failed || !AllBefore(s.d.rows, s.current.value))
  {
    assert CurrentOk(s);
    hide DataOk, TasksOk;
    var n := NextUnfinished(s.d.rows, 0).value;
    assert !Terminal(s.d.rows[n]);
  }

  lemma StoppedTurn(s: State, slots: nat)
    requires Inv(s) && s.pc.Top? && s.d.stopRequested
    ensures s.dying == {} && !CanBegin(s.d)
    ensures var t := TakeTurn(s, slots);
            t == s.(tasks := t.tasks, dying := t.dying, pc := Gathering(s.d.planningComplete))
    ensures TakeTurn(s, slots)
         == CancelTasks(s.(tasks := WithoutDone(s.tasks)), s.current).(pc := Gathering(s.d.planningComplete))
    ensures OnlyCurrentTask(s) <==> TakeTurn(s, slots).tasks == s.tasks
    ensures OnlyCurrentTask(s) ==> TakeTurn(s, slots).dying == {}
  {
    var t := TakeTurn(s, slots);
    assert forall k :: k in t.tasks <==> k in s.tasks && s.tasks[k] != Done && s.current == Some(k);
    if OnlyCurrentTask(s) {
      assert t.tasks == s.tasks;
    }
  }
}
