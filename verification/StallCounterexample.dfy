/** Two whole runs that end in the stall of StreamOrder.StoppingConsumerStalls: the flaw is reachable, with a
    current segment that has failed and with one that is still in OCR. */
module StallCounterexample {
  import opened Common
  import opened SegmentPlanner
  import opened SegmentRows
  import opened StreamPipeline
  import opened StreamInvariant

  ghost predicate Goes(s: State, step: Step, t: State) {
    Enabled(s, step) && InRange(s) && Next(s, step) == t
  }

  ghost predicate IsRun(states: seq<State>, steps: seq<Step>) {
    |states| == |steps| + 1 && forall k :: 0 <= k < |steps| ==> Goes(states[k], steps[k], states[k + 1])
  }

  // ---------------------------------------------------------------- the states

  function Strip(i: nat): PlannedSegment {
    PlannedSegment(0, i, 10 * i, 10 * i + 10, 10 * i, 10 * i + 10)
  }

  function RowAt(i: nat, status: SegmentStatus, attempts: nat, errorStage: Option<string>): Row {
    Row(Strip(i), i, status, None, None, None, None, None, errorStage, attempts)
  }

  function Fresh(i: nat): Row { RowAt(i, Pending, 0, None) }

  function InOcr(i: nat): Row { RowAt(i, Ocr, 1, None) }

  function FailedRow(i: nat): Row { RowAt(i, Failed, 1, Some("ocr")) }

  function Released(i: nat): Row { RowAt(i, Pending, 1, None) }

  /** The generation has one planned page of two segments, and the consumer has begun the first. */
  function Begun(stopping: bool, failed: nat, first: Row, second: Row, pc: Pc, tasks: map<nat, Task>,
                 dying: set<nat>): State {
    State(Generation(if stopping then StoppingAfterSegment else Running, stopping, Some(0), false, 2, 0, failed,
                     [Page(0, true, PagePending)], [first, second]),
          pc, Some(0), tasks, dying, [0], [])
  }

  function Started(): State {
    State(Generation(Preparing, false, None, false, 0, 0, 0, [Page(0, false, PagePending)], []), Top, None, map[], {},
          [], [])
  }

  function Planned(): State {
    State(Generation(Preparing, false, None, false, 2, 0, 0, [Page(0, true, PagePending)], [Fresh(0), Fresh(1)]), Top,
          None, map[], {}, [], [])
  }

  /** The stop arrives while both segments are in OCR; the OCR of the first fails while the cancelled OCR of the
      second winds up. */
  function Steps(): seq<Step> {
    [ Begin, AppendNext(0, [Strip(0), Strip(1)]), Turn(2), TaskClaims(0), TaskClaims(1), Stop, WakeOcr,
      Turn(2), TaskFails(0), TaskDies(1), Gathered(2), Turn(2), Gathered(2) ]
  }

  function Stalled(): State {
    Begun(true, 1, FailedRow(0), Released(1), Top, map[], {})
  }

  function States(): seq<State> {
    var both := (x: Task, y: Task) => map[0 := x, 1 := y];
    [ NewRun([0]), Started(), Planned(),
      Begun(false, 0, Fresh(0), Fresh(1), AwaitOcr(0), map[0 := Created, 1 := Created], {}),
      Begun(false, 0, InOcr(0), Fresh(1), AwaitOcr(0), map[0 := Claimed, 1 := Created], {}),
      Begun(false, 0, InOcr(0), InOcr(1), AwaitOcr(0), map[0 := Claimed, 1 := Claimed], {}),
      Begun(true, 0, InOcr(0), InOcr(1), AwaitOcr(0), map[0 := Claimed, 1 := Claimed], {}),
      Begun(true, 0, InOcr(0), InOcr(1), Top, map[0 := Claimed, 1 := Claimed], {}),
      Begun(true, 0, InOcr(0), InOcr(1), Gathering(false), map[0 := Claimed], {1}),
      Begun(true, 1, FailedRow(0), InOcr(1), Gathering(false), map[0 := Done], {1}),
      Begun(true, 1, FailedRow(0), Released(1), Gathering(false), map[0 := Done], {}),
      Begun(true, 1, FailedRow(0), Released(1), Top, map[0 := Done], {}),
      Begun(true, 1, FailedRow(0), Released(1), Gathering(false), map[], {}),
      Stalled() ]
  }

  // ---------------------------------------------------------------- the steps

  lemma Plans()
    ensures Goes(NewRun([0]), Begin, Started())
    ensures Goes(Started(), AppendNext(0, [Strip(0), Strip(1)]), Planned())
  {
    assert NewRun([0]).d.pages == [Page(0, false, PagePending)];
    assert [Page(0, false, PagePending)][0 := Page(0, true, PagePending)] == [Page(0, true, PagePending)];
    assert NewRows([Strip(0), Strip(1)], 0) == [Fresh(0), Fresh(1)];
  }

  lemma Prefetches()
    ensures Goes(Planned(), Turn(2),
                 Begun(false, 0, Fresh(0), Fresh(1), AwaitOcr(0), map[0 := Created, 1 := Created], {}))
  {
    var rows := [Fresh(0), Fresh(1)];
    assert Prefetch(rows, 2, map[0 := Created, 1 := Created], 0) == map[0 := Created, 1 := Created];
    assert Prefetch(rows, 1, map[0 := Created], 1) == map[0 := Created, 1 := Created];
    assert Prefetch(rows, 0, map[], 2) == map[0 := Created, 1 := Created];
    assert WithoutDone(map[]) == map[];
    assert NextUnfinished(rows, 0) == Some(0);
  }

  lemma ClaimsFirst()
    ensures Goes(Begun(false, 0, Fresh(0), Fresh(1), AwaitOcr(0), map[0 := Created, 1 := Created], {}), TaskClaims(0),
                 Begun(false, 0, InOcr(0), Fresh(1), AwaitOcr(0), map[0 := Claimed, 1 := Created], {}))
  {
    assert [Fresh(0), Fresh(1)][0 := InOcr(0)] == [InOcr(0), Fresh(1)];
    assert map[0 := Created, 1 := Created][0 := Claimed] == map[0 := Claimed, 1 := Created];
  }

  lemma ClaimsSecond()
    ensures Goes(Begun(false, 0, InOcr(0), Fresh(1), AwaitOcr(0), map[0 := Claimed, 1 := Created], {}), TaskClaims(1),
                 Begun(false, 0, InOcr(0), InOcr(1), AwaitOcr(0), map[0 := Claimed, 1 := Claimed], {}))
  {
    assert [InOcr(0), Fresh(1)][1 := InOcr(1)] == [InOcr(0), InOcr(1)];
    assert map[0 := Claimed, 1 := Created][1 := Claimed] == map[0 := Claimed, 1 := Claimed];
  }

  lemma Stops()
    ensures Goes(States()[5], Stop, States()[6]) && Goes(States()[6], WakeOcr, States()[7])
  {
  }

  lemma CancelsSecond()
    ensures Goes(States()[7], Turn(2), States()[8])
  {
    var tasks := map[0 := Claimed, 1 := Claimed];
    assert WithoutDone(tasks) == tasks;
    assert (map k | k in tasks && Some(0) == Some(k) :: tasks[k]) == map[0 := Claimed];
  }

  lemma FirstFails()
    ensures Goes(Begun(true, 0, InOcr(0), InOcr(1), Gathering(false), map[0 := Claimed], {1}), TaskFails(0),
                 Begun(true, 1, FailedRow(0), InOcr(1), Gathering(false), map[0 := Done], {1}))
  {
    CountsOfTwo(FailedRow(0), InOcr(1), Failed);
    CountsOfTwo(FailedRow(0), InOcr(1), Completed);
    hide CountStatus;
    var rows := [FailedRow(0), InOcr(1)];
    assert [InOcr(0), InOcr(1)][0 := FailedRow(0)] == rows;
    assert rows[1].strip.pageIndex == 0 && !Terminal(rows[1]);
  }

  lemma CountsOfTwo(a: Row, b: Row, status: SegmentStatus)
    ensures CountStatus([a, b], status) == (if a.status == status then 1 else 0) + (if b.status == status then 1 else 0)
  {
    assert [a, b][..1] == [a] && [a][..0] == [];
    assert CountStatus([a], status) == CountStatus([], status) + if a.status == status then 1 else 0;
  }

  lemma SecondDies()
    ensures Goes(States()[9], TaskDies(1), States()[10])
  {
    assert [FailedRow(0), InOcr(1)][1 := Released(1)] == [FailedRow(0), Released(1)];
  }

  lemma Spins()
    ensures Goes(States()[10], Gathered(2), States()[11])
    ensures Goes(States()[11], Turn(2), States()[12])
    ensures Goes(States()[12], Gathered(2), Stalled())
  {
    assert NextUnfinished([FailedRow(0), Released(1)], 1) == Some(1);
    assert NextUnfinished([FailedRow(0), Released(1)], 0) == Some(1);
    assert WithoutDone(map[0 := Done]) == map[];
  }

  /** From a new generation of one page the run reaches a state in which the consumer turns for ever without a
      suspension, whatever the limiter's capacity. */
  lemma StallIsReachable(slots: nat)
    ensures IsRun(States(), Steps()) && States()[0] == NewRun([0]) && States()[13] == Stalled()
    ensures AfterGathering(TakeTurn(Stalled(), slots), false, slots) == Stalled()
  {
    hide Goes;
    Plans();
    Prefetches();
    ClaimsFirst();
    ClaimsSecond();
    Stops();
    CancelsSecond();
    FirstFails();
    SecondDies();
    Spins();
    StalledTurns(slots);
  }

  lemma StalledTurns(slots: nat)
    ensures AfterGathering(TakeTurn(Stalled(), slots), false, slots) == Stalled()
  {
    assert NextUnfinished([FailedRow(0), Released(1)], 1) == Some(1);
    assert WithoutDone(map[]) == map[];
  }

  // ---------------------------------------------------------------- a retry before the stop

  /** The first segment has failed, and the consumer has begun the second. */
  function BegunSecond(stopping: bool, failed: nat, first: Row, pc: Pc): State {
    State(Generation(if stopping then StoppingAfterSegment else Running, stopping, Some(1), false, 2, 0, failed,
                     [Page(0, true, PagePending)], [first, InOcr(1)]),
          pc, Some(1), map[1 := Claimed], {}, [0, 1], [])
  }

  function BetweenSegments(): State {
    State(Generation(Running, false, None, false, 2, 0, 1, [Page(0, true, PagePending)], [FailedRow(0), InOcr(1)]),
          Top, None, map[0 := Done, 1 := Claimed], {}, [0], [])
  }

  function StalledInOcr(): State {
    BegunSecond(true, 0, Released(0), Top)
  }

  /** The first segment fails, the consumer waits for the OCR of the second, a retry reopens the first, and then
      the stop arrives. */
  function RetrySteps(): seq<Step> {
    [ Begin, AppendNext(0, [Strip(0), Strip(1)]), Turn(2), TaskClaims(0), TaskClaims(1), TaskFails(0), WakeOcr,
      Turn(2), RetryOne(0), Stop, WakeOcr, Turn(2), Gathered(2) ]
  }

  function RetryStates(): seq<State> {
    [ NewRun([0]), Started(), Planned(),
      Begun(false, 0, Fresh(0), Fresh(1), AwaitOcr(0), map[0 := Created, 1 := Created], {}),
      Begun(false, 0, InOcr(0), Fresh(1), AwaitOcr(0), map[0 := Claimed, 1 := Created], {}),
      Begun(false, 0, InOcr(0), InOcr(1), AwaitOcr(0), map[0 := Claimed, 1 := Claimed], {}),
      Begun(false, 1, FailedRow(0), InOcr(1), AwaitOcr(0), map[0 := Done, 1 := Claimed], {}),
      BetweenSegments(),
      BegunSecond(false, 1, FailedRow(0), AwaitOcr(1)),
      BegunSecond(false, 0, Released(0), AwaitOcr(1)),
      BegunSecond(true, 0, Released(0), AwaitOcr(1)),
      BegunSecond(true, 0, Released(0), Top),
      BegunSecond(true, 0, Released(0), Gathering(false)),
      StalledInOcr() ]
  }

  lemma FirstFailsEarly()
    ensures Goes(Begun(false, 0, InOcr(0), InOcr(1), AwaitOcr(0), map[0 := Claimed, 1 := Claimed], {}), TaskFails(0),
                 Begun(false, 1, FailedRow(0), InOcr(1), AwaitOcr(0), map[0 := Done, 1 := Claimed], {}))
  {
    CountsOfTwo(FailedRow(0), InOcr(1), Failed);
    CountsOfTwo(FailedRow(0), InOcr(1), Completed);
    hide CountStatus;
    var rows := [FailedRow(0), InOcr(1)];
    assert [InOcr(0), InOcr(1)][0 := FailedRow(0)] == rows;
    assert rows[1].strip.pageIndex == 0 && !Terminal(rows[1]);
    assert map[0 := Claimed, 1 := Claimed][0 := Done] == map[0 := Done, 1 := Claimed];
  }

  lemma GoesOnToSecond()
    ensures Goes(Begun(false, 1, FailedRow(0), InOcr(1), AwaitOcr(0), map[0 := Done, 1 := Claimed], {}), WakeOcr,
                 BetweenSegments())
    ensures Goes(BetweenSegments(), Turn(2), BegunSecond(false, 1, FailedRow(0), AwaitOcr(1)))
  {
    var rows := [FailedRow(0), InOcr(1)];
    assert WithoutDone(map[0 := Done, 1 := Claimed]) == map[1 := Claimed];
    assert Prefetch(rows, 2, map[1 := Claimed], 1) == map[1 := Claimed];
    assert Prefetch(rows, 1, map[1 := Claimed], 1) == map[1 := Claimed];
    assert Prefetch(rows, 0, map[1 := Claimed], 1) == map[1 := Claimed];
    assert NextUnfinished(rows, 1) == Some(1) && NextUnfinished(rows, 0) == Some(1);
    assert [0] + [1] == [0, 1];
  }

  lemma Reopens()
    ensures Goes(BegunSecond(false, 1, FailedRow(0), AwaitOcr(1)), RetryOne(0),
                 BegunSecond(false, 0, Released(0), AwaitOcr(1)))
  {
    CountsOfTwo(Released(0), InOcr(1), Failed);
    CountsOfTwo(Released(0), InOcr(1), Completed);
    hide CountStatus;
    assert Retried(FailedRow(0)) == Released(0);
    assert [FailedRow(0), InOcr(1)][0 := Released(0)] == [Released(0), InOcr(1)];
    assert ReopenPages([Page(0, true, PagePending)], {0}) == [Page(0, true, PagePending)];
  }

  lemma StopsInOcr()
    ensures Goes(BegunSecond(false, 0, Released(0), AwaitOcr(1)), Stop, BegunSecond(true, 0, Released(0), AwaitOcr(1)))
    ensures Goes(BegunSecond(true, 0, Released(0), AwaitOcr(1)), WakeOcr, BegunSecond(true, 0, Released(0), Top))
  {
  }

  lemma SpinsInOcr(slots: nat)
    ensures Goes(BegunSecond(true, 0, Released(0), Top), Turn(2), BegunSecond(true, 0, Released(0), Gathering(false)))
    ensures Goes(BegunSecond(true, 0, Released(0), Gathering(false)), Gathered(2), StalledInOcr())
    ensures AfterGathering(TakeTurn(StalledInOcr(), slots), false, slots) == StalledInOcr()
  {
    var tasks := map[1 := Claimed];
    assert NextUnfinished([Released(0), InOcr(1)], 0) == Some(0);
    assert WithoutDone(tasks) == tasks;
    assert (map k | k in tasks && Some(1) == Some(k) :: tasks[k]) == tasks;
  }

  /** From a new generation a run reaches the stall with a current segment that has not failed. */
  lemma StallIsReachableByRetry(slots: nat)
    ensures IsRun(RetryStates(), RetrySteps()) && RetryStates()[0] == NewRun([0]) && RetryStates()[13] == StalledInOcr()
    ensures StalledInOcr().d.rows[1].status == Ocr && StalledInOcr().tasks == map[1 := Claimed]
    ensures AfterGathering(TakeTurn(StalledInOcr(), slots), false, slots) == StalledInOcr()
  {
    hide Goes;
    Plans();
    Prefetches();
    ClaimsFirst();
    ClaimsSecond();
    FirstFailsEarly();
    GoesOnToSecond();
    Reopens();
    StopsInOcr();
    SpinsInOcr(slots);
  }
}
