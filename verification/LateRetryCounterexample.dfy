/** A whole run that ends as completed with a segment that is not: it failed, and its retry came after the consumer had
    found nothing more to do, but before the run had ended. */
module LateRetryCounterexample {
  import opened Common
  import opened SegmentRows
  import opened StreamPipeline
  import opened StreamInvariant
  import opened StallCounterexample
  import opened RestartCounterexample

  // ---------------------------------------------------------------- the states

  /** The only segment of the generation has failed in OCR. */
  function AfterFailure(current: Option<nat>, pc: Pc, tasks: map<nat, Task>): State {
    State(Now(Running, current, PageFailed, FailedRow(0)).(failedSegments := 1), pc, current, tasks, {}, [0], [])
  }

  function AfterRetry(status: GenerationStatus, pc: Pc): State {
    State(Now(status, None, PagePending, Released(0)), pc, None, map[], {}, [0], [])
  }

  function States(): seq<State> {
    [ NewRun([0]), StallCounterexample.Started(), Appended(false), Appended(true),
      InOcrTask(Fresh(0), AwaitOcr(0), Task.Created), InOcrTask(InOcr(0), AwaitOcr(0), Claimed),
      AfterFailure(Some(0), AwaitOcr(0), map[0 := Task.Done]), AfterFailure(None, Top, map[0 := Task.Done]),
      AfterFailure(None, Returned(true), map[]), AfterRetry(Running, Returned(true)),
      AfterRetry(AllCompleted, Absent) ]
  }

  function Steps(): seq<Step> {
    [ Begin, AppendNext(0, [Strip(0)]), FinishPlan, Turn(1), TaskClaims(0), TaskFails(0), WakeOcr, Turn(1), RetryOne(0),
      End(true) ]
  }

  // ---------------------------------------------------------------- the steps

  lemma Fails()
    ensures Goes(InOcrTask(InOcr(0), AwaitOcr(0), Claimed), TaskFails(0),
                 AfterFailure(Some(0), AwaitOcr(0), map[0 := Task.Done]))
  {
    CountsOfOne(FailedRow(0));
    assert [InOcr(0)][0 := FailedRow(0)] == [FailedRow(0)];
    assert [FailedRow(0)][0].strip.pageIndex == 0;
    assert OutcomeOf([FailedRow(0)], 0).SomeFailed?;
    assert SetPages([Page(0, true, PagePending)], 0, PageFailed) == [Page(0, true, PageFailed)];
    assert map[0 := Claimed][0 := Task.Done] == map[0 := Task.Done];
  }

  lemma CountsOfOne(row: Row)
    ensures CountStatus([row], Completed) == if row.status == Completed then 1 else 0
    ensures CountStatus([row], Failed) == if row.status == Failed then 1 else 0
  {
    assert [row][..0] == [];
  }

  lemma Closes()
    ensures Goes(AfterFailure(Some(0), AwaitOcr(0), map[0 := Task.Done]), WakeOcr,
                 AfterFailure(None, Top, map[0 := Task.Done]))
  {
  }

  lemma Returns()
    ensures Goes(AfterFailure(None, Top, map[0 := Task.Done]), Turn(1), AfterFailure(None, Returned(true), map[]))
  {
    var d, rows := AfterFailure(None, Top, map[]).d, [FailedRow(0)];
    assert Prefetch(rows, 1, map[], 1) == map[] && Prefetch(rows, 0, map[], 1) == map[];
    assert WithoutDone(map[0 := Task.Done]) == map[];
    assert NextUnfinished(rows, 1) == None && NextUnfinished(rows, 0) == None;
    assert FinalizeAll(d) == d by {
      assert rows[0].strip.pageIndex == 0;
      assert OutcomeOf(rows, 0).SomeFailed?;
      assert FinalizeAll(d).pages == [Page(0, true, PageFailed)];
    }
    hide OutcomeOf, FinalizeAll, NextUnfinished, Prefetch;
  }

  lemma Retries()
    ensures Goes(AfterFailure(None, Returned(true), map[]), RetryOne(0), AfterRetry(Running, Returned(true)))
  {
    CountsOfOne(Released(0));
    assert [FailedRow(0)][0 := Released(0)] == [Released(0)];
    assert ReopenPages([Page(0, true, PageFailed)], {0}) == [Page(0, true, PagePending)];
  }

  lemma Ends()
    ensures Goes(AfterRetry(Running, Returned(true)), End(true), AfterRetry(AllCompleted, Absent))
  {
  }

  // ---------------------------------------------------------------- the run

  lemma CompletedIsNotDone()
    ensures IsRun(States(), Steps()) && States()[0] == NewRun([0])
    ensures States()[10].d.status == AllCompleted && States()[10].d.rows[0].status == Pending
  {
    hide Goes, Appended, InOcrTask;
    StallCounterexample.Plans();
    Appends();
    RestartCounterexample.Plans();
    RestartCounterexample.Prefetches();
    Claims();
    Fails();
    Closes();
    Returns();
    Retries();
    Ends();
  }
}
