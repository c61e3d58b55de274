/** A whole run in which a completed segment is lost, with no retry: its image is gone when the process starts
    again, so that the segment is done a second time. */
module RestartCounterexample {
  import opened Common
  import opened SegmentRows
  import opened CheckpointRecovery
  import opened StreamPipeline
  import opened StreamInvariant
  import opened StallCounterexample

  // ---------------------------------------------------------------- the states

  /** The only segment, with OCR and blocks, and with translations if there are any. */
  function Stored(status: SegmentStatus, translations: Option<Path>): Row {
    Row(Strip(0), 0, status, Some("ocr"), Some("blocks"), translations, None, None, None, 1)
  }

  function Done(): Row {
    Stored(Completed, Some("translations")).(translatedPath := Some("image"), version := Some("1"))
  }

  /** The generation has one prepared page of one segment. */
  function Now(status: GenerationStatus, current: Option<nat>, page: PageStatus, row: Row): Generation {
    Generation(status, false, current, true, 1, if row.status == Completed then 1 else 0, 0,
               [Page(0, true, page)], [row])
  }

  function Working(page: PageStatus, row: Row, phase: Phase, begun: seq<nat>, done: seq<nat>): State {
    State(Now(Running, Some(0), page, row), Pc.Working(0, phase), Some(0), map[], {}, begun, done)
  }

  function InOcrTask(row: Row, pc: Pc, task: Task): State {
    State(Now(Running, Some(0), PagePending, row), pc, Some(0), map[0 := task], {}, [0], [])
  }

  function Idle(status: GenerationStatus, row: Row, pc: Pc): State {
    State(Now(status, None, PageCompleted, row), pc, None, map[], {}, [0], [0])
  }

  function Appended(planned: bool): State {
    State(Now(Preparing, None, PagePending, Fresh(0)).(planningComplete := planned), Top, None, map[], {}, [], [])
  }

  /** Everything but the image. */
  function Left(): set<Path> {
    {"ocr", "blocks", "translations"}
  }

  function States(): seq<State> {
    var waiting, lost := Stored(Pending, None), Stored(Pending, Some("translations"));
    [ NewRun([0]), StallCounterexample.Started(), Appended(false), Appended(true),
      InOcrTask(Fresh(0), AwaitOcr(0), Task.Created), InOcrTask(InOcr(0), AwaitOcr(0), Claimed),
      InOcrTask(waiting, AwaitOcr(0), Task.Done), InOcrTask(waiting, Top, Task.Done),
      Working(PagePending, waiting, Loading, [0], []),
      Working(PagePending, Stored(Translating, None), InTranslation, [0], []),
      Working(PagePending, Stored(Rendering, Some("translations")), InRendering, [0], []),
      Idle(Running, Done(), Top), Idle(Running, Done(), Returned(true)), Idle(AllCompleted, Done(), Absent),
      Idle(Paused, lost, Absent), Idle(Queued, lost, Absent), Idle(Preparing, lost, Top),
      Working(PageCompleted, lost, Loading, [0, 0], [0]),
      Working(PageCompleted, Stored(Translating, Some("translations")), InTranslation, [0, 0], [0]),
      Working(PageCompleted, Stored(Rendering, Some("translations")), InRendering, [0, 0], [0]),
      Idle(Running, Done(), Top).(begun := [0, 0], done := [0, 0]) ]
  }

  function Steps(): seq<Step> {
    [ Begin, AppendNext(0, [Strip(0)]), FinishPlan, Turn(1), TaskClaims(0), TaskReady(0, "ocr", "blocks"), WakeOcr,
      Turn(1), StartTranslating, StartRendering("translations"), FinishWork("image", "1"), Turn(1), End(true),
      Restart(Left()), Start, Begin, Turn(1), StartTranslating, StartRendering("translations"),
      FinishWork("image", "1") ]
  }

  // ---------------------------------------------------------------- the steps

  lemma Appends()
    ensures Goes(StallCounterexample.Started(), AppendNext(0, [Strip(0)]), Appended(false))
  {
    assert [Page(0, false, PagePending)][0 := Page(0, true, PagePending)] == [Page(0, true, PagePending)];
    assert NewRows([Strip(0)], 0) == [Fresh(0)];
  }

  lemma Plans()
    ensures Goes(Appended(false), FinishPlan, Appended(true))
  {
  }

  lemma Prefetches()
    ensures Goes(Appended(true), Turn(1), InOcrTask(Fresh(0), AwaitOcr(0), Task.Created))
  {
    assert Prefetch([Fresh(0)], 1, map[0 := Task.Created], 0) == map[0 := Task.Created];
    assert Prefetch([Fresh(0)], 0, map[], 1) == map[0 := Task.Created];
    assert WithoutDone(map[]) == map[];
    assert NextUnfinished([Fresh(0)], 0) == Some(0);
  }

  lemma Claims()
    ensures Goes(InOcrTask(Fresh(0), AwaitOcr(0), Task.Created), TaskClaims(0),
                 InOcrTask(InOcr(0), AwaitOcr(0), Claimed))
  {
    assert map[0 := Task.Created][0 := Claimed] == map[0 := Claimed];
  }

  lemma Recognises()
    ensures Goes(InOcrTask(InOcr(0), AwaitOcr(0), Claimed), TaskReady(0, "ocr", "blocks"),
                 InOcrTask(Stored(Pending, None), AwaitOcr(0), Task.Done))
  {
    assert map[0 := Claimed][0 := Task.Done] == map[0 := Task.Done];
  }

  lemma Wakes()
    ensures Goes(InOcrTask(Stored(Pending, None), AwaitOcr(0), Task.Done), WakeOcr,
                 InOcrTask(Stored(Pending, None), Top, Task.Done))
  {
  }

  lemma GoesOn()
    ensures Goes(InOcrTask(Stored(Pending, None), Top, Task.Done), Turn(1),
                 Working(PagePending, Stored(Pending, None), Loading, [0], []))
  {
    var rows := [Stored(Pending, None)];
    assert WithoutDone(map[0 := Task.Done]) == map[];
    assert Prefetch(rows, 1, map[], 1) == map[] && Prefetch(rows, 0, map[], 1) == map[];
    assert NextUnfinished(rows, 0) == Some(0);
  }

  lemma Works(page: PageStatus, row: Row, begun: seq<nat>, done: seq<nat>)
    requires row == Stored(Pending, row.translationsPath)
    ensures Goes(Working(page, row, Loading, begun, done), StartTranslating,
                 Working(page, row.(status := Translating), InTranslation, begun, done))
    ensures Goes(Working(page, row.(status := Translating), InTranslation, begun, done), StartRendering("translations"),
                 Working(page, Stored(Rendering, Some("translations")), InRendering, begun, done))
  {
    assert [row][0 := row.(status := Translating)] == [row.(status := Translating)];
    assert [row.(status := Translating)][0 := Stored(Rendering, Some("translations"))]
        == [Stored(Rendering, Some("translations"))];
  }

  lemma Finishes(page: PageStatus, begun: seq<nat>, done: seq<nat>)
    ensures Goes(Working(page, Stored(Rendering, Some("translations")), InRendering, begun, done),
                 FinishWork("image", "1"), Idle(Running, Done(), Top).(begun := begun, done := done + [0]))
  {
    var rows := [Stored(Rendering, Some("translations"))];
    assert rows[0 := Done()] == [Done()];
    assert [Done()][0].strip.pageIndex == 0;
    assert OutcomeOf([Done()], 0).AllReady?;
    assert SetPages([Page(0, true, page)], 0, PageCompleted) == [Page(0, true, PageCompleted)];
  }

  lemma Returns()
    ensures Goes(Idle(Running, Done(), Top), Turn(1), Idle(Running, Done(), Returned(true)))
  {
    var s, rows := Idle(Running, Done(), Top), [Done()];
    assert Prefetch(rows, 1, map[], 1) == map[] && Prefetch(rows, 0, map[], 1) == map[];
    assert WithoutDone(map[]) == map[];
    assert FinalizeAll(s.d) == s.d by {
      assert rows[0].strip.pageIndex == 0;
      assert OutcomeOf(rows, 0).AllReady?;
      assert FinalizeAll(s.d).pages == [Page(0, true, PageCompleted)];
    }
    hide OutcomeOf, FinalizeAll, NextUnfinished, Prefetch;
  }

  lemma Ends()
    ensures Goes(Idle(Running, Done(), Returned(true)), End(true), Idle(AllCompleted, Done(), Absent))
  {
  }

  lemma Restarts()
    ensures Goes(Idle(AllCompleted, Done(), Absent), Restart(Left()),
                 Idle(Paused, Stored(Pending, Some("translations")), Absent))
  {
    var d, lost := Idle(AllCompleted, Done(), Absent).d, Stored(Pending, Some("translations"));
    assert ReleaseRows(d).rows == d.rows;
    assert Damage(d.rows[0], Left()) == Some(FromTranslated);
    assert Damaged(d.rows, Left());
    assert RecoveredRows(d.rows, Left()) == [lost];
  }

  lemma StartsAgain(row: Row)
    ensures Goes(Idle(Paused, row, Absent), Start, Idle(Queued, row, Absent))
    ensures Goes(Idle(Queued, row, Absent), Begin, Idle(Preparing, row, Top))
  {
  }

  lemma TakesUpAgain()
    ensures Goes(Idle(Preparing, Stored(Pending, Some("translations")), Top), Turn(1),
                 Working(PageCompleted, Stored(Pending, Some("translations")), Loading, [0, 0], [0]))
  {
    var rows := [Stored(Pending, Some("translations"))];
    assert WithoutDone(map[]) == map[];
    assert Prefetch(rows, 1, map[], 1) == map[] && Prefetch(rows, 0, map[], 1) == map[];
    assert NextUnfinished(rows, 0) == Some(0);
  }

  // ---------------------------------------------------------------- the run

  /** From a new generation, without a retry: segment 0 is completed, pending again, and completed once more. */
  lemma CompletedSegmentIsLost()
    ensures IsRun(States(), Steps()) && States()[0] == NewRun([0])
    ensures forall i :: 0 <= i < |Steps()| ==> !IsRetry(Steps()[i])
    ensures States()[13].d.rows[0].status == Completed && States()[14].d.rows[0].status == Pending
    ensures States()[20].done == [0, 0]
  {
    hide Goes;
    FirstTime();
    SecondTime();
  }

  lemma FirstTime()
    ensures forall k :: 0 <= k < 11 ==> Goes(States()[k], Steps()[k], States()[k + 1])
  {
    hide Goes, Appended, InOcrTask, Working, Idle;
    StallCounterexample.Plans();
    Appends();
    Plans();
    Prefetches();
    Claims();
    Recognises();
    Wakes();
    GoesOn();
    Works(PagePending, Stored(Pending, None), [0], []);
    Finishes(PagePending, [0], []);
    SameIdle();
  }

  lemma SameIdle()
    ensures Idle(Running, Done(), Top).(begun := [0], done := [] + [0]) == Idle(Running, Done(), Top)
  {
  }

  lemma SecondTime()
    ensures forall k :: 11 <= k < 20 ==> Goes(States()[k], Steps()[k], States()[k + 1])
  {
    hide Goes, Appended, InOcrTask, Working, Idle;
    Returns();
    Ends();
    Restarts();
    StartsAgain(Stored(Pending, Some("translations")));
    TakesUpAgain();
    Works(PageCompleted, Stored(Pending, Some("translations")), [0, 0], [0]);
    Finishes(PageCompleted, [0, 0], [0]);
    assert [0] + [0] == [0, 0];
  }
}
