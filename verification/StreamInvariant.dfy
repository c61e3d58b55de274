/** The invariant of the streaming run, kept by every step, retries and crashes included. */
module StreamInvariant {
  import opened Common
  import opened SegmentPlanner
  import opened SegmentRows
  import opened SegmentInvariants
  import opened CheckpointRecovery
  import opened StreamPipeline

  /** Plan, checkpoints and counters are right, and a generation only runs once it has segments. */
  ghost predicate DataOk(d: Generation) {
    && PlanOk(d) && RowsOk(d.rows) && CountsOk(d)
    && d.status != StoppingAfterPage
    && (d.status == Running || d.current.Some? ==> |d.rows| > 0)
  }

  /** A task that has not started has a segment waiting for OCR; a claimed one, or a cancelled one that
      is still winding up, has a segment in OCR. */
  ghost predicate TasksFit(rows: seq<Row>, tasks: map<nat, Task>, dying: set<nat>) {
    && (forall k :: k in tasks ==> k < |rows|)
    && (forall k :: k in tasks && tasks[k] == Created ==> NeedsOcr(rows[k]))
    && (forall k :: k in tasks && tasks[k] == Claimed ==> rows[k].status == Ocr)
    && (forall k :: k in dying ==> k < |rows| && rows[k].status == Ocr && k !in tasks)
  }

  /** Only a consumer that stops or has stopped waits for cancelled tasks; one that has stopped has no others. */
  ghost predicate TasksIdle(pc: Pc, tasks: map<nat, Task>, dying: set<nat>) {
    && (dying != {} ==> pc.Gathering? || pc.Returned? || pc.Crashed?)
    && (pc.Absent? || pc.Returned? || pc.Crashed? ==> tasks == map[])
  }

  ghost predicate TasksOk(s: State) {
    TasksFit(s.d.rows, s.tasks, s.dying) && TasksIdle(s.pc, s.tasks, s.dying)
  }

  /** The segment the consumer works on is its current one, has been through OCR, is not finished and
      has no task of its own; its status follows the phase. */
  ghost predicate WorkOk(s: State, i: nat, phase: Phase) {
    && s.current == Some(i) && i < |s.d.rows|
    && s.d.rows[i].ocrPath.Some? && s.d.rows[i].status in {Pending, Translating, Rendering}
    && (phase == InTranslation ==> s.d.rows[i].status == Translating)
    && (phase == InRendering ==> s.d.rows[i].status == Rendering)
  }

  /** The current segment exists and is not completed. */
  ghost predicate CurrentOk(s: State) {
    s.current.Some? ==> s.current.value < |s.d.rows| && s.d.rows[s.current.value].status != Completed
  }

  ghost predicate PcOk(s: State) {
    && CurrentOk(s)
    && (s.pc.AwaitOcr? ==> s.current == Some(s.pc.row))
    && (s.pc.Working? ==> WorkOk(s, s.pc.row, s.pc.phase))
  }

  ghost predicate Inv(s: State) {
    DataOk(s.d) && TasksOk(s) && PcOk(s)
  }

  lemma InvInRange(s: State)
    requires Inv(s)
    ensures InRange(s)
  {
  }

  // ---------------------------------------------------------------- rows

  /** A statement on one row keeps the data right if the new row is and the counters still fit. */
  lemma {:induction false} SetRowKeeps(d: Generation, i: nat, row: Row)
    requires DataOk(d) && i < |d.rows| && RowOk(row)
    requires row.strip == d.rows[i].strip && row.globalIndex == d.rows[i].globalIndex
    ensures PlanOk(SetRow(d, i, row)) && RowsOk(SetRow(d, i, row).rows)
    ensures DataOk(RefreshCounts(SetRow(d, i, row)))
    ensures !Terminal(d.rows[i]) && !Terminal(row) ==> DataOk(SetRow(d, i, row))
  {
    hide PlanOk, CountStatus;
    SamePlanKeepsPlan(d, SetRow(d, i, row));
    SamePlanKeepsPlan(d, RefreshCounts(SetRow(d, i, row)));
    if !Terminal(d.rows[i]) && !Terminal(row) {
      CountsKept(d, i, row);
    }
  }

  /** Changing only page statuses keeps the data right. */
  lemma {:induction false} PagesKeep(d: Generation, pages: seq<Page>)
    requires DataOk(d) && |pages| == |d.pages|
    requires forall k :: 0 <= k < |pages| ==>
               pages[k].pageIndex == d.pages[k].pageIndex && pages[k].prepared == d.pages[k].prepared
    ensures DataOk(d.(pages := pages))
  {
    hide PlanOk, CountStatus;
    SamePlanKeepsPlan(d, d.(pages := pages));
  }

  /** Changing what the generation goes through keeps the data right, as long as it does not run empty. */
  lemma {:induction false} StatusKeeps(d: Generation, d': Generation)
    requires DataOk(d)
    requires d' == d.(status := d'.status, stopRequested := d'.stopRequested, current := d'.current)
    requires d'.status != StoppingAfterPage && (d'.status == Running || d'.current.Some? ==> |d.rows| > 0)
    ensures DataOk(d')
  {
    hide PlanOk, CountStatus;
    SamePlanKeepsPlan(d, d');
  }

  lemma {:induction false} FailTaskRowKeeps(d: Generation, i: nat)
    requires DataOk(d) && i < |d.rows| && d.rows[i].status != Completed
    ensures var d' := FailTaskRow(d, i);
            && DataOk(d') && |d'.rows| == |d.rows|
            && d'.rows == d.rows[i := d.rows[i].(status := Failed, errorStage := Some(StageName(d.rows[i].status)))]
            && d'.status == d.status && d'.stopRequested == d.stopRequested && d'.current == d.current
  {
    hide PlanOk, CountStatus;
    var row := d.rows[i].(status := Failed, errorStage := Some(StageName(d.rows[i].status)));
    SetRowKeeps(d, i, row);
    var e := FailRow(d, i, StageName(d.rows[i].status));
    assert e == RefreshCounts(SetRow(d, i, row));
    PagesKeep(e, SetPages(e.pages, d.rows[i].strip.pageIndex, PageFailed));
  }

  lemma {:induction false} CompleteRowKeeps(d: Generation, i: nat, path: Path, version: string)
    requires DataOk(d) && i < |d.rows| && d.rows[i].translationsPath.Some?
    ensures var d' := ClosePage(CompleteRow(d, i, path, version), d.rows[i].strip.pageIndex);
            && DataOk(d') && |d'.rows| == |d.rows|
            && d'.rows == d.rows[i := d.rows[i].(status := Completed, translatedPath := Some(path),
                                                 version := Some(version), errorStage := None)]
            && d'.status == d.status && d'.stopRequested == d.stopRequested && d'.current == d.current
  {
    hide PlanOk, CountStatus;
    var row := d.rows[i].(status := Completed, translatedPath := Some(path), version := Some(version),
                          errorStage := None);
    SetRowKeeps(d, i, row);
    var e := CompleteRow(d, i, path, version);
    assert e == RefreshCounts(SetRow(d, i, row));
    PagesKeep(e, SetPages(e.pages, d.rows[i].strip.pageIndex, PageCompleted));
    PagesKeep(e, SetPages(e.pages, d.rows[i].strip.pageIndex, PageFailed));
  }

  lemma {:induction false} ReleaseKeeps(d: Generation)
    requires DataOk(d)
    ensures DataOk(ReleaseRows(d)) && |ReleaseRows(d).rows| == |d.rows|
    ensures forall k :: 0 <= k < |d.rows| ==> ReleaseRows(d).rows[k].status !in {Ocr, Translating, Rendering}
    ensures forall k :: 0 <= k < |d.rows| && ReleaseRows(d).rows[k].status == Completed ==>
              d.rows[k].status == Completed
  {
    hide PlanOk, CountStatus;
    var d' := ReleaseRows(d);
    CountsSame(d.rows, d'.rows, Completed);
    CountsSame(d.rows, d'.rows, Failed);
    SamePlanKeepsPlan(d, d');
  }

  lemma {:induction false} FailGenerationKeeps(d: Generation)
    requires DataOk(d)
    ensures DataOk(FailGeneration(d))
  {
    hide PlanOk, CountStatus;
    var d' := FailGeneration(d);
    CountsSame(d.rows, d'.rows, Completed);
    CountsSame(d.rows, d'.rows, Failed);
    SamePlanKeepsPlan(d, d');
  }

  lemma {:induction false} RequestStopKeeps(d: Generation)
    requires DataOk(d)
    ensures DataOk(RequestStop(d)) && RequestStop(d).rows == d.rows
  {
    StatusKeeps(d, RequestStop(d));
  }

  // ---------------------------------------------------------------- tasks

  lemma {:induction false} PrefetchAdds(rows: seq<Row>, i: nat, tasks: map<nat, Task>, available: int)
    requires i <= |rows|
    ensures var t := Prefetch(rows, i, tasks, available);
            && (forall k :: k in tasks ==> k in t && t[k] == tasks[k])
            && (forall k :: k in t && k !in tasks ==> i <= k < |rows| && t[k] == Created && NeedsOcr(rows[k]))
    decreases |rows| - i
  {
    if i < |rows| && available > 0 {
      if NeedsOcr(rows[i]) && i !in tasks {
        PrefetchAdds(rows, i + 1, tasks[i := Created], available - 1);
      } else {
        PrefetchAdds(rows, i + 1, tasks, available);
      }
    }
  }

  lemma {:induction false} PrefetchStaysWithin(rows: seq<Row>, i: nat, tasks: map<nat, Task>, available: int)
    requires i <= |rows|
    ensures |Prefetch(rows, i, tasks, available)| <= Max(|tasks|, |tasks| + available)
    decreases |rows| - i
  {
    if i < |rows| && available > 0 {
      if NeedsOcr(rows[i]) && i !in tasks {
        PrefetchStaysWithin(rows, i + 1, tasks[i := Created], available - 1);
      } else {
        PrefetchStaysWithin(rows, i + 1, tasks, available);
      }
    }
  }

  /** Prefetch favours small indices: it passes over a segment that needs OCR only when all slots are taken. */
  lemma {:induction false} PrefetchInOrder(rows: seq<Row>, i: nat, tasks: map<nat, Task>, available: int, j: nat,
                                           k: nat)
    requires i <= j < k < |rows| && NeedsOcr(rows[j])
    requires var t := Prefetch(rows, i, tasks, available); k in t && k !in tasks
    ensures j in Prefetch(rows, i, tasks, available)
    decreases |rows| - i
  {
    PrefetchAdds(rows, i, tasks, available);
    if available > 0 {
      var next := if NeedsOcr(rows[i]) && i !in tasks then tasks[i := Created] else tasks;
      var left := if NeedsOcr(rows[i]) && i !in tasks then available - 1 else available;
      if i == j {
        PrefetchAdds(rows, i + 1, next, left);
      } else {
        PrefetchInOrder(rows, i + 1, next, left, j, k);
      }
    }
  }

  lemma {:induction false} PrefetchFits(rows: seq<Row>, tasks: map<nat, Task>, available: int)
    requires TasksFit(rows, tasks, {})
    ensures TasksFit(rows, Prefetch(rows, 0, tasks, available), {})
  {
    PrefetchAdds(rows, 0, tasks, available);
  }

  lemma {:induction false} FillKeeps(s: State, slots: nat)
    requires TasksOk(s) && s.dying == {} && !(s.pc.Absent? || s.pc.Returned? || s.pc.Crashed?)
    ensures TasksOk(FillPrefetch(s, slots)) && |FillPrefetch(s, slots).tasks| <= Max(|s.tasks|, slots)
  {
    hide Prefetch, TasksFit;
    PrefetchFits(s.d.rows, s.tasks, slots - |s.tasks|);
    PrefetchStaysWithin(s.d.rows, 0, s.tasks, slots - |s.tasks|);
  }

  lemma {:induction false} CancelKeeps(s: State, keep: Option<nat>, pc: Pc)
    requires TasksOk(s) && (pc.Gathering? || ((pc.Returned? || pc.Crashed?) && keep.None?))
    ensures TasksOk(CancelTasks(s, keep).(pc := pc))
  {
    var t := CancelTasks(s, keep).(pc := pc);
    if keep.None? {
      assert t.tasks == map[];
    }
  }

  lemma {:induction false} ReturnKeeps(s: State, ok: bool)
    requires DataOk(s.d) && TasksOk(s) && CurrentOk(s)
    ensures Inv(Return(s, ok))
  {
    CancelKeeps(s, None, Returned(ok));
  }

  lemma {:induction false} CloseKeeps(s: State)
    requires DataOk(s.d) && TasksOk(s) && s.dying == {} && !s.pc.Absent? && !s.pc.Returned? && !s.pc.Crashed?
    ensures Inv(Close(s))
  {
    if CanFinish(s.d) {
      StatusKeeps(s.d, FinishSegment(s.d));
    } else {
      ReturnKeeps(s.(current := None), false);
    }
  }

  // ---------------------------------------------------------------- the consumer

  ghost predicate InLoop(s: State) {
    s.dying == {} && !s.pc.Absent? && !s.pc.Returned? && !s.pc.Crashed?
  }

  lemma {:induction false} ProcessKeeps(s: State, i: nat, stopping: bool, slots: nat)
    requires DataOk(s.d) && TasksOk(s) && InLoop(s)
    requires s.current == Some(i) && i < |s.d.rows| && !Terminal(s.d.rows[i])
    ensures Inv(Process(s, i, stopping, slots))
  {
    hide DataOk, FillPrefetch, TasksFit, CancelTasks;
    var row := s.d.rows[i];
    RowIsOk(s.d, i);
    if row.status == Ocr || row.ocrPath.None? || row.blocksPath.None? {
      if i in s.tasks {
        assert Process(s, i, stopping, slots) == s.(pc := AwaitOcr(i));
      } else if stopping {
        ReturnKeeps(s, false);
      } else {
        FillKeeps(s, slots);
        FillKeepsRest(s, slots);
        assert Process(s, i, stopping, slots) == FillPrefetch(s, slots).(pc := AwaitOcr(i));
      }
    } else {
      assert Process(s, i, stopping, slots) == s.(pc := Working(i, Loading));
      assert WorkOk(s, i, Loading);
    }
  }

  lemma {:induction false} FinalizeAllKeeps(d: Generation)
    requires DataOk(d)
    ensures DataOk(FinalizeAll(d)) && FinalizeAll(d).rows == d.rows
  {
    hide DataOk, OutcomeOf;
    PagesKeep(d, FinalizeAll(d).pages);
  }

  /** The consumer has begun segment i. */
  ghost function Started(s: State, i: nat): State {
    s.(d := BeginSegment(s.d, i), current := Some(i), begun := s.begun + [i])
  }

  lemma {:induction false} BeginSegmentKeeps(d: Generation, i: nat)
    requires DataOk(d) && i < |d.rows|
    ensures DataOk(BeginSegment(d, i)) && BeginSegment(d, i).rows == d.rows
  {
    StatusKeeps(d, BeginSegment(d, i));
  }

  lemma {:induction false} SelectKeeps(s: State, stopping: bool, planned: bool, slots: nat)
    requires DataOk(s.d) && TasksOk(s) && InLoop(s) && CurrentOk(s)
    ensures Inv(Select(s, stopping, planned, slots))
  {
    hide DataOk, TasksFit, FinalizeAll, Process, CancelTasks;
    var next := NextUnfinished(s.d.rows, 0);
    if next.None? {
      if planned {
        FinalizeAllKeeps(s.d);
        ReturnKeeps(s.(d := FinalizeAll(s.d)), true);
      }
    } else {
      var i := next.value;
      if s.current == Some(i) {
        ProcessKeeps(s, i, stopping, slots);
      } else if CanBegin(s.d) {
        BeginSegmentKeeps(s.d, i);
        ProcessKeeps(Started(s, i), i, stopping, slots);
      }
    }
  }

  lemma {:induction false} WithoutDoneFits(rows: seq<Row>, tasks: map<nat, Task>, dying: set<nat>)
    requires TasksFit(rows, tasks, dying)
    ensures TasksFit(rows, WithoutDone(tasks), dying)
  {
  }

  lemma {:induction false} TurnKeeps(s: State, slots: nat)
    requires Inv(s) && s.pc.Top?
    ensures Inv(TakeTurn(s, slots))
  {
    WithoutDoneFits(s.d.rows, s.tasks, s.dying);
    hide DataOk, TasksFit, FillPrefetch, Select, WithoutDone, CancelTasks;
    var t := s.(tasks := WithoutDone(s.tasks));
    if s.d.stopRequested {
      CancelKeeps(t, s.current, Gathering(s.d.planningComplete));
      CancelKeepsRest(t, s.current);
    } else {
      FillKeeps(t, slots);
      FillKeepsRest(t, slots);
      SelectKeeps(FillPrefetch(t, slots), false, s.d.planningComplete, slots);
    }
  }

  lemma CancelKeepsRest(s: State, keep: Option<nat>)
    ensures var t := CancelTasks(s, keep);
            t.d == s.d && t.current == s.current && t.pc == s.pc && t.begun == s.begun && t.done == s.done
  {
  }

  lemma FillKeepsRest(s: State, slots: nat)
    ensures var t := FillPrefetch(s, slots);
            t.d == s.d && t.current == s.current && t.pc == s.pc && t.dying == s.dying && t.begun == s.begun
              && t.done == s.done
  {
  }

  lemma {:induction false} AfterGatheringKeeps(s: State, planned: bool, slots: nat)
    requires Inv(s) && InLoop(s)
    ensures Inv(AfterGathering(s, planned, slots))
  {
    hide DataOk, TasksFit, Select, CancelTasks;
    if s.current.None? {
      ReturnKeeps(s, false);
    } else {
      SelectKeeps(s, true, planned, slots);
    }
  }

  lemma {:induction false} AfterOcrKeeps(s: State, i: nat)
    requires Inv(s) && s.pc == AwaitOcr(i)
    ensures i < |s.d.rows| && Inv(AfterOcr(s, i))
  {
    hide DataOk, TasksFit, Close;
    if s.d.rows[i].status == Failed {
      CloseKeeps(s);
    }
  }

  lemma {:induction false} CrashKeeps(s: State, failed: bool)
    requires Inv(s)
    ensures Inv(CancelTasks(s, None).(pc := Crashed(failed), current := None))
  {
    hide DataOk, TasksFit, CancelTasks;
    CancelKeeps(s, None, Crashed(failed));
    CancelKeepsRest(s, None);
  }

  /** Replacing one row that no unstarted task waits for and no started one works on. */
  lemma {:induction false} TasksKeepRow(rows: seq<Row>, tasks: map<nat, Task>, dying: set<nat>, i: nat, row: Row)
    requires TasksFit(rows, tasks, dying) && i < |rows| && rows[i].status != Ocr && !NeedsOcr(rows[i])
    ensures TasksFit(rows[i := row], tasks, dying)
  {
  }

  lemma RowIsOk(d: Generation, i: nat)
    requires DataOk(d) && i < |d.rows|
    ensures RowOk(d.rows[i])
  {
  }

  lemma {:induction false} StageKeeps(s: State, i: nat, status: SegmentStatus, path: Option<Path>)
    requires Inv(s) && s.pc.Working? && s.pc.row == i
    requires status in {Translating, Rendering} && (status == Rendering ==> path.Some?)
    ensures i < |s.d.rows|
    ensures var d := SetStage(s.d, i, status, path);
            DataOk(d) && TasksFit(d.rows, s.tasks, s.dying) && |d.rows| == |s.d.rows| && d.rows[i].status == status
              && d.rows[i].ocrPath.Some?
  {
    RowIsOk(s.d, i);
    hide DataOk, RowOk, TasksFit;
    var row := SetStage(s.d, i, status, path).rows[i];
    TasksKeepRow(s.d.rows, s.tasks, s.dying, i, row);
    SetRowKeeps(s.d, i, row);
  }

  lemma {:induction false} TranslateKeeps(s: State, i: nat)
    requires Inv(s) && s.pc == Working(i, Loading)
    ensures i < |s.d.rows| && Inv(Translate(s, i))
  {
    hide DataOk, TasksFit, SetStage;
    StageKeeps(s, i, Translating, None);
  }

  lemma {:induction false} RenderKeeps(s: State, i: nat, path: Path)
    requires Inv(s) && s.pc == Working(i, InTranslation)
    ensures i < |s.d.rows| && Inv(Render(s, i, path))
  {
    hide DataOk, TasksFit, SetStage;
    StageKeeps(s, i, Rendering, Some(path));
  }

  lemma {:induction false} FinishKeeps(s: State, i: nat, path: Path, version: string)
    requires Inv(s) && s.pc == Working(i, InRendering)
    ensures i < |s.d.rows| && Inv(Finish(s, i, path, version))
  {
    assert RowOk(s.d.rows[i]);
    CompleteRowKeeps(s.d, i, path, version);
    var d := ClosePage(CompleteRow(s.d, i, path, version), s.d.rows[i].strip.pageIndex);
    TasksKeepRow(s.d.rows, s.tasks, s.dying, i, d.rows[i]);
    hide DataOk, TasksFit, Close, RowOk, ClosePage, CompleteRow;
    CloseKeeps(s.(d := d, done := s.done + [i]));
  }

  lemma {:induction false} FailCurrentKeeps(s: State, i: nat, phase: Phase)
    requires Inv(s) && s.pc == Working(i, phase)
    ensures i < |s.d.rows| && Inv(FailCurrent(s, i))
  {
    FailTaskRowKeeps(s.d, i);
    var d := FailTaskRow(s.d, i);
    TasksKeepRow(s.d.rows, s.tasks, s.dying, i, d.rows[i]);
    hide DataOk, TasksFit, Close, RowOk, FailTaskRow;
    CloseKeeps(s.(d := d));
  }

  // ---------------------------------------------------------------- the prefetch tasks

  /** A step of task k that replaces its row and its entry. */
  lemma {:induction false} TasksReplace(rows: seq<Row>, tasks: map<nat, Task>, dying: set<nat>, k: nat, row: Row,
                                        task: Task)
    requires TasksFit(rows, tasks, dying) && k in tasks
    requires task != Created && (task == Claimed ==> row.status == Ocr)
    ensures TasksFit(rows[k := row], tasks[k := task], dying)
  {
  }

  /** The consumer does not work on a segment whose task is not done. */
  lemma {:induction false} TaskIsNotCurrentWork(s: State, k: nat)
    requires Inv(s) && k in s.tasks && s.tasks[k] != Done
    ensures k < |s.d.rows| && !Terminal(s.d.rows[k]) && !(s.pc.Working? && s.pc.row == k)
    ensures s.tasks[k] == Created ==> s.d.rows[k].status == Pending && s.d.rows[k].ocrPath.None?
    ensures s.tasks[k] == Claimed ==> s.d.rows[k].status == Ocr
    ensures !s.pc.Absent? && !s.pc.Returned? && !s.pc.Crashed?
  {
    RowIsOk(s.d, k);
    hide DataOk, PlanOk, RowsOk, CountsOk;
  }

  lemma {:induction false} ClaimKeeps(s: State, k: nat)
    requires Inv(s) && k in s.tasks && s.tasks[k] == Created
    ensures k < |s.d.rows| && Inv(Claim(s, k))
    ensures s.d.rows[k].status == Pending
  {
    TaskIsNotCurrentWork(s, k);
    RowIsOk(s.d, k);
    hide DataOk, TasksFit, PcOk, RowOk;
    hide ClaimOcr;
    var d := ClaimOcr(s.d, k);
    SetRowKeeps(s.d, k, d.rows[k]);
    TasksReplace(s.d.rows, s.tasks, s.dying, k, d.rows[k], Claimed);
    PcIgnoresTasks(s.(d := d), s.tasks[k := Claimed]);
  }

  lemma {:induction false} PcIgnoresTasks(s: State, tasks: map<nat, Task>)
    requires PcOk(s)
    ensures PcOk(s.(tasks := tasks))
  {
  }

  lemma {:induction false} ReadyKeeps(s: State, k: nat, ocr: Path, blocks: Path)
    requires Inv(s) && k in s.tasks && s.tasks[k] == Claimed
    ensures k < |s.d.rows| && Inv(Ready(s, k, ocr, blocks))
    ensures s.d.rows[k].status == Ocr
  {
    TaskIsNotCurrentWork(s, k);
    RowIsOk(s.d, k);
    hide DataOk, TasksFit, PcOk;
    var d := MarkOcrReady(s.d, k, ocr, blocks);
    SetRowKeeps(s.d, k, d.rows[k]);
    TasksReplace(s.d.rows, s.tasks, s.dying, k, d.rows[k], Done);
    PcIgnoresTasks(s.(d := d), s.tasks[k := Done]);
  }

  lemma {:induction false} TaskFailureKeeps(s: State, k: nat)
    requires Inv(s) && k in s.tasks && s.tasks[k] == Claimed
    ensures k < |s.d.rows| && Inv(TaskFailure(s, k))
  {
    TaskIsNotCurrentWork(s, k);
    hide DataOk, TasksFit, PcOk;
    FailTaskRowKeeps(s.d, k);
    hide FailTaskRow;
    var d := FailTaskRow(s.d, k);
    TasksReplace(s.d.rows, s.tasks, s.dying, k, d.rows[k], Done);
    PcIgnoresTasks(s.(d := d), s.tasks[k := Done]);
  }

  lemma {:induction false} DyingFits(rows: seq<Row>, tasks: map<nat, Task>, dying: set<nat>, k: nat, row: Row)
    requires TasksFit(rows, tasks, dying) && k in dying
    ensures k < |rows| && rows[k].status == Ocr && TasksFit(rows[k := row], tasks, dying - {k})
  {
  }

  lemma {:induction false} TaskDiesKeeps(s: State, k: nat)
    requires Inv(s) && k in s.dying
    ensures k < |s.d.rows| && Inv(s.(d := ResetOcr(s.d, k), dying := s.dying - {k}))
  {
    assert k < |s.d.rows|;
    DyingFits(s.d.rows, s.tasks, s.dying, k, ResetOcr(s.d, k).rows[k]);
    RowIsOk(s.d, k);
    hide DataOk, TasksFit;
    SetRowKeeps(s.d, k, ResetOcr(s.d, k).rows[k]);
    assert !s.pc.Working?;
  }

  // ---------------------------------------------------------------- the producer and everybody else

  lemma {:induction false} NewRowsAreOk(rows: seq<Row>, plan: seq<PlannedSegment>)
    requires RowsOk(rows)
    ensures var all := rows + NewRows(plan, |rows|);
            && RowsOk(all)
            && CountStatus(all, Completed) == CountStatus(rows, Completed)
            && CountStatus(all, Failed) == CountStatus(rows, Failed)
  {
    var more := NewRows(plan, |rows|);
    CountsAppend(rows, more, Completed);
    CountsAppend(rows, more, Failed);
    CountIsZero(more, Completed);
    CountIsZero(more, Failed);
  }

  lemma {:induction false} AppendKeeps(d: Generation, place: nat, plan: seq<PlannedSegment>)
    requires DataOk(d) && IsNextPage(d, place) && |plan| > 0 && NumbersPage(plan, d.pages[place].pageIndex)
    ensures var d' := Append(d, place, plan);
            && DataOk(d') && d'.rows == d.rows + NewRows(plan, |d.rows|)
            && d'.status == d.status && d'.stopRequested == d.stopRequested && d'.current == d.current
  {
    hide PlanOk, IsNextPage, AppendCheck, CountStatus, RowsOk, NewRows, CountPage, NumbersPage;
    AppendKeepsPlan(d, place, plan);
    NewRowsAreOk(d.rows, plan);
  }

  lemma {:induction false} TasksKeepAppend(rows: seq<Row>, more: seq<Row>, tasks: map<nat, Task>, dying: set<nat>)
    requires TasksFit(rows, tasks, dying)
    ensures TasksFit(rows + more, tasks, dying)
  {
  }

  lemma {:induction false} AppendNextKeeps(s: State, place: nat, plan: seq<PlannedSegment>)
    requires Inv(s) && Enabled(s, AppendNext(place, plan))
    ensures Inv(s.(d := Append(s.d, place, plan)))
  {
    assert IsNextPage(s.d, place) && NumbersPage(plan, s.d.pages[place].pageIndex);
    hide DataOk, TasksFit, Append;
    AppendKeeps(s.d, place, plan);
    TasksKeepAppend(s.d.rows, NewRows(plan, |s.d.rows|), s.tasks, s.dying);
  }

  lemma {:induction false} FinishPlanKeeps(d: Generation)
    requires DataOk(d) && forall k :: 0 <= k < |d.pages| ==> d.pages[k].prepared
    ensures DataOk(CompletePlan(d))
  {
    hide Follows, PreparedPage, PlannedPage, CountStatus, RowsOk;
  }

  lemma {:induction false} StartKeeps(d: Generation)
    requires DataOk(d)
    ensures DataOk(StartGeneration(d)) && StartGeneration(d).rows == d.rows
  {
    StatusKeeps(d, StartGeneration(d));
  }

  lemma {:induction false} RetryKeeps(d: Generation, i: nat)
    requires DataOk(d) && i < |d.rows| && d.rows[i].status == Failed
    ensures DataOk(Retry(d, i)) && Retry(d, i).rows == d.rows[i := Retried(d.rows[i])]
  {
    RetryRowKeeps(d, i);
    var e := RetryRow(d, i);
    assert DataOk(e);
    hide PlanOk, RowsOk, CountStatus;
    StatusKeeps(e, ResumeUnless(e, {Preparing, Queued, Running, StoppingAfterSegment}));
  }

  lemma {:induction false} RetryEverythingKeeps(d: Generation)
    requires DataOk(d)
    ensures DataOk(RetryEverything(d)) && RetryEverything(d).rows == RetriedRows(d.rows)
  {
    RetryAllKeeps(d);
    if CountStatus(d.rows, Failed) > 0 {
      var e := RetryAll(d);
      assert DataOk(e);
      hide PlanOk, RowsOk, CountStatus;
      StatusKeeps(e, ResumeUnless(e, {Preparing, Queued, Running}));
    }
  }

  lemma {:induction false} TasksKeepRetry(rows: seq<Row>, rows': seq<Row>, tasks: map<nat, Task>, dying: set<nat>)
    requires TasksFit(rows, tasks, dying) && |rows'| == |rows|
    requires forall i :: 0 <= i < |rows| && rows[i].status != Failed ==> rows'[i] == rows[i]
    ensures TasksFit(rows', tasks, dying)
  {
  }

  lemma {:induction false} PcKeepsRetry(s: State, d: Generation)
    requires PcOk(s) && |d.rows| == |s.d.rows|
    requires forall i :: 0 <= i < |s.d.rows| && s.d.rows[i].status != Failed ==> d.rows[i] == s.d.rows[i]
    requires forall i :: 0 <= i < |s.d.rows| && s.d.rows[i].status == Failed ==> d.rows[i].status != Completed
    ensures PcOk(s.(d := d))
  {
  }

  lemma {:induction false} RetryStepKeeps(s: State, d: Generation)
    requires Inv(s) && DataOk(d) && |d.rows| == |s.d.rows|
    requires forall i :: 0 <= i < |s.d.rows| && s.d.rows[i].status != Failed ==> d.rows[i] == s.d.rows[i]
    requires forall i :: 0 <= i < |s.d.rows| && s.d.rows[i].status == Failed ==> d.rows[i].status != Completed
    ensures Inv(s.(d := d))
  {
    hide DataOk, PcOk, TasksFit;
    TasksKeepRetry(s.d.rows, d.rows, s.tasks, s.dying);
    PcKeepsRetry(s, d);
  }

  lemma {:induction false} PauseKeeps(d: Generation)
    requires DataOk(d)
    ensures DataOk(Pause(d)) && |Pause(d).rows| == |d.rows|
    ensures forall k :: 0 <= k < |d.rows| && Pause(d).rows[k].status == Completed ==> d.rows[k].status == Completed
  {
    ReleaseKeeps(d);
    hide DataOk, ReleaseRows;
    if Active(d.status) {
      StatusKeeps(ReleaseRows(d), Pause(d));
    }
  }

  lemma {:induction false} RecoverKeeps(d: Generation)
    requires DataOk(d)
    ensures DataOk(RecoverGeneration(d)) && RecoverGeneration(d).rows == ReleaseRows(d).rows
  {
    ReleaseKeeps(d);
    hide DataOk, ReleaseRows;
    StatusKeeps(ReleaseRows(d), RecoverGeneration(d));
  }

  lemma {:induction false} RestartKeeps(d: Generation, indexed: set<Path>)
    requires DataOk(d)
    ensures DataOk(Restarted(d, indexed)) && Restarted(d, indexed).rows == RecoveredRows(ReleaseRows(d).rows, indexed)
  {
    RecoverKeeps(d);
    var e := RecoverGeneration(d);
    hide PlanOk, RowsOk, CountsOk, ReleaseRows, RecoverGeneration, RecoveredRows, Damaged;
    RecoveryKeepsData(e, indexed);
  }

  lemma NoTasksFit(rows: seq<Row>)
    ensures TasksFit(rows, map[], {})
  {
  }

  // ---------------------------------------------------------------- every step

  lemma {:induction false} ConsumerStepKeeps(s: State, step: Step)
    requires Inv(s) && InRange(s) && Enabled(s, step)
    requires step.Turn? || step.Gathered? || step.WakeWork? || step.WakeOcr? || step.StartTranslating?
               || step.StartRendering?
             || step.FinishWork? || step.FailWork?
    ensures Inv(Next(s, step))
  {
    hide DataOk, TasksFit, TakeTurn, AfterGathering, AfterOcr, Translate, Render, Finish, FailCurrent;
    match step
    case Turn(slots) => TurnKeeps(s, slots);
    case Gathered(slots) => AfterGatheringKeeps(s, s.pc.planned, slots);
    case WakeWork =>
    case WakeOcr => AfterOcrKeeps(s, s.pc.row);
    case StartTranslating => TranslateKeeps(s, s.pc.row);
    case StartRendering(path) => RenderKeeps(s, s.pc.row, path);
    case FinishWork(path, version) => FinishKeeps(s, s.pc.row, path, version);
    case FailWork => FailCurrentKeeps(s, s.pc.row, s.pc.phase);
  }

  lemma {:induction false} RunStepKeeps(s: State, step: Step)
    requires Inv(s) && InRange(s) && Enabled(s, step)
    requires step.Begin? || step.End? || step.Crash? || step.CrashSettled? || step.ForcePause? || step.Restart?
    ensures Inv(Next(s, step))
  {
    hide DataOk, TasksFit, CancelTasks, Pause, Restarted, FailGeneration;
    match step
    case Begin => StatusStepKeeps(s.d, BeginPreparing(s.d));
    case End(producerOk) => StatusStepKeeps(s.d, EndGeneration(s.d, s.pc.ok && producerOk));
    case Crash(failed) => CrashKeeps(s, failed);
    case CrashSettled =>
      FailGenerationKeeps(s.d);
      FailedGenerationFits(s.d);
      NoTasksFit(s.d.rows);
      NoTasksFit(FailGeneration(s.d).rows);
    case ForcePause =>
      PauseKeeps(s.d);
      NoTasksFit(Pause(s.d).rows);
    case Restart(indexed) =>
      RestartKeeps(s.d, indexed);
      NoTasksFit(Restarted(s.d, indexed).rows);
  }

  lemma {:induction false} StatusStepKeeps(d: Generation, d': Generation)
    requires DataOk(d) && d' == d.(status := d'.status, stopRequested := d'.stopRequested, current := d'.current)
    requires d'.status != StoppingAfterPage && (d'.status == Running ==> d.status == Running)
    requires (d'.current.Some? ==> d.current.Some?)
    ensures DataOk(d')
  {
    hide PlanOk, RowsOk, CountStatus;
    StatusKeeps(d, d');
  }

  lemma FailedGenerationFits(d: Generation)
    ensures |FailGeneration(d).rows| == |d.rows|
    ensures forall k :: 0 <= k < |d.rows| ==> FailGeneration(d).rows[k].status == d.rows[k].status
  {
  }

  lemma {:induction false} TaskStepKeeps(s: State, step: Step)
    requires Inv(s) && InRange(s) && Enabled(s, step)
    requires step.TaskClaims? || step.TaskReady? || step.TaskFails? || step.TaskDies?
    ensures Inv(Next(s, step))
  {
    hide DataOk, TasksFit, Claim, Ready, TaskFailure, ResetOcr, PcOk;
    match step
    case TaskClaims(k) => ClaimKeeps(s, k);
    case TaskReady(k, ocr, blocks) => ReadyKeeps(s, k, ocr, blocks);
    case TaskFails(k) => TaskFailureKeeps(s, k);
    case TaskDies(k) => TaskDiesKeeps(s, k);
  }

  lemma {:induction false} OutsideStepKeeps(s: State, step: Step)
    requires Inv(s) && InRange(s) && Enabled(s, step)
    requires step.AppendNext? || step.FinishPlan? || step.Stop? || step.Start? || step.RetryOne? || step.RetryFailed?
    ensures Inv(Next(s, step))
  {
    hide DataOk, TasksFit, Append, CompletePlan, RequestStop, StartGeneration, Retry, RetryEverything;
    match step
    case AppendNext(place, plan) => AppendNextKeeps(s, place, plan);
    case FinishPlan =>
      FinishPlanKeeps(s.d);
      FinishPlanFits(s.d);
    case Stop => RequestStopKeeps(s.d);
    case Start => StartKeeps(s.d);
    case RetryOne(i) =>
      RetryKeeps(s.d, i);
      RetryStepKeeps(s, Retry(s.d, i));
    case RetryFailed =>
      RetryEverythingKeeps(s.d);
      RetryStepKeeps(s, RetryEverything(s.d));
  }

  lemma FinishPlanFits(d: Generation)
    ensures CompletePlan(d).rows == d.rows
  {
  }

  /** Checkpoints, counters, plan and tasks stay consistent through every step of every interleaving:
      prefetching, completing, failing, stopping, retrying, crashing and restarting. */
  lemma {:induction false} StepKeeps(s: State, step: Step)
    requires Inv(s) && Enabled(s, step)
    ensures InRange(s) && Inv(Next(s, step))
  {
    InvInRange(s);
    hide Inv, Next, Enabled, InRange;
    if step.Turn? || step.Gathered? || step.WakeWork? || step.WakeOcr? || step.StartTranslating? || step.StartRendering?
       || step.FinishWork? || step.FailWork? {
      ConsumerStepKeeps(s, step);
    } else if step.Begin? || step.End? || step.Crash? || step.CrashSettled? || step.ForcePause? || step.Restart? {
      RunStepKeeps(s, step);
    } else if step.TaskClaims? || step.TaskReady? || step.TaskFails? || step.TaskDies? {
      TaskStepKeeps(s, step);
    } else {
      OutsideStepKeeps(s, step);
    }
  }

  // ---------------------------------------------------------------- whole runs

  /** A generation as it is created, with no run in progress. */
  function NewRun(pageIndexes: seq<nat>): State {
    State(NewGeneration(pageIndexes), Absent, None, map[], {}, [], [])
  }

  predicate Increasing(pageIndexes: seq<nat>) {
    forall k, l :: 0 <= k < l < |pageIndexes| ==> pageIndexes[k] < pageIndexes[l]
  }

  lemma NewRunIsOk(pageIndexes: seq<nat>)
    requires Increasing(pageIndexes)
    ensures Inv(NewRun(pageIndexes))
  {
  }

  /** An arbitrary interleaving; steps that are not enabled are skipped. */
  ghost function Run(s: State, steps: seq<Step>): (t: State)
    requires Inv(s)
    ensures Inv(t)
    decreases |steps|
  {
    if |steps| == 0 then s
    else if !Enabled(s, steps[0]) then Run(s, steps[1..])
    else
      StepKeeps(s, steps[0]);
      Run(Next(s, steps[0]), steps[1..])
  }
}
