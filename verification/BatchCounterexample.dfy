/** A run in which a batch comes to work on two chapters: a cancellation that BatchRuns calls unsafe is reachable. */
module BatchCounterexample {
  import opened Common
  import opened BatchRows
  import opened BatchScheduler
  import opened BatchRuns

  /** What the manager shows: whether a reader translates, and the generations of the two items of batch 0. */
  function Seen(interactive: bool, first: Owned, second: Owned): World {
    World(interactive, true, (b: nat, i: nat) => if i == 0 then first else second,
          (b: nat, i: nat) => if i == 0 then Latest(first) else Latest(second), (b: nat, i: nat) => false)
  }

  function Latest(owned: Owned): TaskStatus {
    if owned.Generation? then owned.status else TaskAbsent
  }

  function Two(status: BatchStatus, yielded: bool, first: Item, second: Item, starting: Option<(nat, nat)>): State {
    State([Batch(0, status, None, yielded, false, [first, second])], starting)
  }

  function Errors(): Owned { Generation(TaskCompletedWithErrors, true) }

  function Stopped(): Owned { Generation(TaskPaused, true) }

  lemma Claims(a: Item, b: Item, w: World)
    requires !w.interactive
    ensures Enabled(Two(Queued, false, a, b, None), Ticked(w, 1))
    ensures Next(Two(Queued, false, a, b, None), Ticked(w, 1)) == Two(Running, false, a, b, None)
  {
    hide Work, FinishYield, YieldToReader;
    var s := Two(Queued, false, a, b, None);
    assert Tick(s.rows, w).ops[..1] == [ClaimBatch(0)];
    OneTransaction(s.rows, ClaimBatch(0));
  }

  lemma Begins(a: Item, b: Item, i: nat, w: World)
    requires !w.interactive && w.configured && (w.chapter(0, i) == TaskAbsent || w.chapter(0, i) == TaskPaused)
    requires a.status != ItemRunning && b.status != ItemRunning
    requires (i == 0 && a.status == ItemPending) || (i == 1 && a.status != ItemPending && b.status == ItemPending)
    ensures Enabled(Two(Running, false, a, b, None), Ticked(w, 1))
    ensures Next(Two(Running, false, a, b, None), Ticked(w, 1))
         == if i == 0 then Two(Running, false, Item(ItemRunning, a.attempts + 1), b, Some((0, 0)))
           else Two(Running, false, a, Item(ItemRunning, b.attempts + 1), Some((0, 1)))
  {
    hide FinishYield, YieldToReader;
    var s := Two(Running, false, a, b, None);
    assert s.rows[0].items[0] == a && s.rows[0].items[1] == b;
    assert FirstItem(s.rows[0], ItemRunning) == None && FirstItem(s.rows[0], ItemPending) == Some(i);
    assert RouteItem(w, 0, i) == Plan([], Some((0, i)));
    assert Work(s.rows, w, 0) == Plan([ClaimItem(0, i)], Some((0, i)));
    assert Tick(s.rows, w).ops[..1] == [ClaimItem(0, i)];
    OneTransaction(s.rows, ClaimItem(0, i));
    assert [a, b][i := Item(ItemRunning, [a, b][i].attempts + 1)]
        == if i == 0 then [Item(ItemRunning, a.attempts + 1), b] else [a, Item(ItemRunning, b.attempts + 1)];
  }

  lemma Fails(a: Item, b: Item, i: nat, w: World)
    requires !w.interactive && i < 2 && w.owned(0, i) == Errors()
    requires if i == 0 then a.status == ItemRunning && b.status == ItemPending
               else a.status == ItemFailed && b.status == ItemRunning
    ensures Enabled(Two(Running, false, a, b, None), Ticked(w, 3))
    ensures Next(Two(Running, false, a, b, None), Ticked(w, 3))
         == if i == 0 then Two(Running, false, a.(status := ItemFailed), b, None)
           else Two(CompletedWithErrors, false, a, b.(status := ItemFailed), None)
  {
    hide FinishYield, YieldToReader;
    var s := Two(Running, false, a, b, None);
    var ops := Ended(0, i, ItemFailed);
    assert s.rows[0].items[0] == a && s.rows[0].items[1] == b;
    assert FirstItem(s.rows[0], ItemRunning) == Some(i);
    assert Work(s.rows, w, 0) == Plan(ops, None);
    assert ops[..3] == ops;
    EndsFailed(s.rows, i);
    var items := [a, b][i := [a, b][i].(status := ItemFailed)];
    assert items == if i == 0 then [a.(status := ItemFailed), b] else [a, b.(status := ItemFailed)];
    assert items[i].status == ItemFailed;
    assert i == 0 ==> items[1].status == ItemPending;
  }

  lemma EndsFailed(rows: Rows, i: nat)
    requires |rows| == 1
    ensures ApplyAll(rows, Ended(0, i, ItemFailed))
              == [Settled(Place(rows[0].(resumeRequested := false), i, ItemRunning, ItemFailed))]
  {
    hide Settled, Place, ApplyAll, Apply, HasItem, Changed;
    var cleared := rows[0].(resumeRequested := false);
    ThreeTransactions(rows, ClearResume(0), FinishItem(0, i, ItemFailed), SettleAfterItem(0));
    assert rows == [rows[0]];
    EndingChanges(rows[0], i);
    EndingChanges(cleared, i);
    EndingChanges(Place(cleared, i, ItemRunning, ItemFailed), i);
    OneRow(rows[0], ClearResume(0));
    OneRow(cleared, FinishItem(0, i, ItemFailed));
    OneRow(Place(cleared, i, ItemRunning, ItemFailed), SettleAfterItem(0));
  }

  lemma EndingChanges(batch: Batch, i: nat)
    ensures Changed(batch, ClearResume(0)) == batch.(resumeRequested := false)
    ensures Changed(batch, FinishItem(0, i, ItemFailed)) == Place(batch, i, ItemRunning, ItemFailed)
    ensures Changed(batch, SettleAfterItem(0)) == Settled(batch)
  {
  }

  lemma OneRow(batch: Batch, op: Op)
    requires !op.Create? && op.b == 0
    ensures Apply([batch], op) == [Changed(batch, op)]
  {
    hide Changed;
  }

  lemma ThreeTransactions(rows: Rows, x: Op, y: Op, z: Op)
    ensures ApplyAll(rows, [x, y, z]) == Apply(Apply(Apply(rows, x), y), z)
  {
    hide Apply;
    assert [x, y, z][1..] == [y, z] && [y, z][1..] == [z];
    assert ApplyAll(rows, [x, y, z]) == ApplyAll(Apply(rows, x), [y, z]);
    OneTransaction(Apply(Apply(rows, x), y), z);
  }

  lemma Dispatches(a: Item, b: Item, i: nat)
    ensures Enabled(Two(Running, false, a, b, Some((0, i))), ChapterStarted(Dispatched, 1))
    ensures Next(Two(Running, false, a, b, Some((0, i))), ChapterStarted(Dispatched, 1))
              == Two(Running, false, a, b, None)
  {
    var s := Two(Running, false, a, b, Some((0, i)));
    assert AfterStart(0, i, Dispatched)[..1] == [ClearResume(0)];
    OneTransaction(s.rows, ClearResume(0));
  }

  lemma Yields(a: Item, b: Item, w: World)
    requires w.interactive && a.status == ItemRunning && w.owned(0, 0) == Generation(TaskRunning, true)
    ensures Enabled(Two(Running, false, a, b, None), Ticked(w, 1))
    ensures Next(Two(Running, false, a, b, None), Ticked(w, 1)) == Two(Running, true, a, b, None)
  {
    hide FinishYield, Work;
    var s := Two(Running, false, a, b, None);
    assert s.rows[0].items[0] == a;
    assert Tick(s.rows, w).ops == [SetYielded(0, true)];
    assert Tick(s.rows, w).ops[..1] == [SetYielded(0, true)];
    OneTransaction(s.rows, SetYielded(0, true));
  }

  lemma Acts(s: State, action: Action, w: World, op: Op)
    requires Acted(s.rows, w, action) == Ok([op])
    ensures Next(s, Act(action, w)) == s.(rows := Apply(s.rows, op))
  {
    OneTransaction(s.rows, op);
  }

  /** Both chapters of a batch fail; a reader translates each of them and stops; the batch is retried, makes
      way for another reader while it works on the first chapter, and is then cancelled. */
  function Steps(): seq<Step> {
    var quiet := Seen(false, NoGeneration, NoGeneration);
    var stopped := Seen(false, Stopped(), Stopped());
    [ Act(Submit(0, 2), quiet), Ticked(quiet, 1),
      Ticked(quiet, 1), ChapterStarted(Dispatched, 1), Ticked(Seen(false, Errors(), NoGeneration), 3),
      Ticked(Seen(false, Errors(), NoGeneration), 1), ChapterStarted(Dispatched, 1),
        Ticked(Seen(false, Errors(), Errors()), 3),
      Act(Retry(0), stopped), Ticked(stopped, 1),
      Ticked(stopped, 1), ChapterStarted(Dispatched, 1),
      Ticked(Seen(true, Generation(TaskRunning, true), Stopped()), 1), Act(Cancel(0), stopped) ]
  }

  function States(): seq<State> {
    var p, r, f := (n: nat) => Item(ItemPending, n), (n: nat) => Item(ItemRunning, n), (n: nat) => Item(ItemFailed, n);
    [ State([], None), Two(Queued, false, p(0), p(0), None), Two(Running, false, p(0), p(0), None),
      Two(Running, false, r(1), p(0), Some((0, 0))), Two(Running, false, r(1), p(0), None),
        Two(Running, false, f(1), p(0), None),
      Two(Running, false, f(1), r(1), Some((0, 1))), Two(Running, false, f(1), r(1), None),
        Two(CompletedWithErrors, false, f(1), f(1), None),
      Two(Queued, false, p(1), p(1), None), Two(Running, false, p(1), p(1), None),
      Two(Running, false, r(2), p(1), Some((0, 0))), Two(Running, false, r(2), p(1), None),
      Two(Running, true, r(2), p(1), None), Two(Cancelling, true, r(2), r(1), None) ]
  }

  lemma Submits(w: World)
    requires w.configured
    ensures Next(State([], None), Act(Submit(0, 2), w))
              == Two(Queued, false, Item(ItemPending, 0), Item(ItemPending, 0), None)
  {
    Acts(State([], None), Submit(0, 2), w, Create(0, 2));
    assert seq(2, _ => Item(ItemPending, 0)) == [Item(ItemPending, 0), Item(ItemPending, 0)];
  }

  lemma Retries(w: World)
    requires w.configured
    ensures var f, p := Item(ItemFailed, 1), Item(ItemPending, 1);
            Next(Two(CompletedWithErrors, false, f, f, None), Act(Retry(0), w)) == Two(Queued, false, p, p, None)
  {
    var f, p := Item(ItemFailed, 1), Item(ItemPending, 1);
    var s := Two(CompletedWithErrors, false, f, f, None);
    Acts(s, Retry(0), w, RetryFailed(0));
    assert s.rows[0].items[0].status == ItemFailed;
    assert Moved([f, f], ItemFailed, ItemPending) == [p, p];
  }

  lemma Cancels(w: World)
    requires w.owned(0, 0) == w.owned(0, 1) == Stopped()
    ensures Next(Two(Running, true, Item(ItemRunning, 2), Item(ItemPending, 1), None), Act(Cancel(0), w))
         == Two(Cancelling, true, Item(ItemRunning, 2), Item(ItemRunning, 1), None)
  {
    hide CancelledPending, Unfinished, Next, HasOpenBatch;
    var s := Two(Running, true, Item(ItemRunning, 2), Item(ItemPending, 1), None);
    BothUnfinished(s.rows[0], w);
    CancelsBoth();
    Acts(s, Cancel(0), w, CancelPending(0, {0, 1}));
  }

  lemma BothUnfinished(batch: Batch, w: World)
    requires |batch.items| == 2 && w.owned(0, 0) == w.owned(0, 1) == Stopped()
    ensures Unfinished(batch, 0, w) == {0, 1}
  {
  }

  lemma CancelsBoth()
    ensures CancelledPending(Batch(0, Running, None, true, false, [Item(ItemRunning, 2), Item(ItemPending, 1)]), {0, 1})
         == Batch(0, Cancelling, None, true, false, [Item(ItemRunning, 2), Item(ItemRunning, 1)])
  {
    var revived := [Item(ItemRunning, 2), Item(ItemRunning, 1)];
    assert Revived([Item(ItemRunning, 2), Item(ItemPending, 1)], {0, 1}) == revived;
    assert Moved(revived, ItemPending, ItemCancelled) == revived;
    assert revived[0].status == ItemRunning;
  }

  ghost predicate Follow(states: seq<State>, steps: seq<Step>) {
    |states| == |steps| + 1 && forall k :: 0 <= k < |steps| ==>
      Enabled(states[k], steps[k]) && states[k + 1] == Next(states[k], steps[k])
  }

  /** The run exists and ends with both chapters of the batch running. */
  lemma BothChaptersRun()
    ensures IsRun(States(), Steps())
    ensures !OneRunningEach(States()[14].rows)
  {
    BothFail();
    BothRunAfterRetry();
    hide Enabled, Next, Two;
    var states, steps := States(), Steps();
    forall k | 0 <= k < 14
      ensures Enabled(states[k], steps[k]) && states[k + 1] == Next(states[k], steps[k])
    {
      if k < 8 {
        assert states[..9][k] == states[k] && states[..9][k + 1] == states[k + 1] && steps[..8][k] == steps[k];
      } else {
        assert states[8..][k - 8] == states[k] && states[8..][k - 7] == states[k + 1] && steps[8..][k - 8] == steps[k];
      }
    }
    TwoRun();
  }

  lemma TwoRun()
    ensures !OneRunningEach(States()[14].rows)
  {
    var last := States()[14].rows[0];
    assert last.items[0].status == ItemRunning && last.items[1].status == ItemRunning;
  }

  lemma BothFail()
    ensures Follow(States()[..9], Steps()[..8])
  {
    hide Enabled, Next;
    var p, r, f := (n: nat) => Item(ItemPending, n), (n: nat) => Item(ItemRunning, n), (n: nat) => Item(ItemFailed, n);
    var steps := Steps();
    Shows(false, NoGeneration, NoGeneration, 0, 0);
    Shows(false, Errors(), NoGeneration, 0, 1);
    Submits(steps[0].world);
    Claims(p(0), p(0), steps[1].world);
    Begins(p(0), p(0), 0, steps[2].world);
    Dispatches(r(1), p(0), 0);
    Fails(r(1), p(0), 0, steps[4].world);
    Begins(f(1), p(0), 1, steps[5].world);
    Dispatches(f(1), r(1), 1);
    Fails(f(1), r(1), 1, steps[7].world);
    ActsAnyTime();
  }

  lemma BothRunAfterRetry()
    ensures Follow(States()[8..], Steps()[8..])
  {
    hide Enabled, Next;
    var p, r := (n: nat) => Item(ItemPending, n), (n: nat) => Item(ItemRunning, n);
    var steps := Steps();
    Shows(false, Stopped(), Stopped(), 0, 0);
    Retries(steps[8].world);
    Claims(p(1), p(1), steps[9].world);
    Begins(p(1), p(1), 0, steps[10].world);
    Dispatches(r(2), p(1), 0);
    Yields(r(2), p(1), steps[12].world);
    Cancels(steps[13].world);
    ActsAnyTime();
  }

  lemma Shows(interactive: bool, first: Owned, second: Owned, b: nat, i: nat)
    ensures Seen(interactive, first, second).chapter(b, i) == Latest(if i == 0 then first else second)
  {
  }

  lemma ActsAnyTime()
    ensures forall s, action, w :: Enabled(s, Act(action, w))
  {
  }

  // ---------------------------------------------------------------- a cancellation that is lost

  /** The services are not configured any more, and the current chapter's generation is still being prepared. */
  function Unconfigured(): World {
    Seen(false, Generation(TaskPreparing, true), NoGeneration).(configured := false)
  }

  function PausedByConfig(): State {
    State([Batch(0, Paused, Some(ByConfig), false, false, [Item(ItemPending, 1), Item(ItemCancelled, 0)])], None)
  }

  /** A batch is cancelled while its first chapter is at work, or (`early`) while that chapter is being started. */
  function LosingSteps(early: bool): seq<Step> {
    var quiet := Seen(false, NoGeneration, NoGeneration);
    [Act(Submit(0, 2), quiet), Ticked(quiet, 1), Ticked(quiet, 1)]
    + if early then [Act(Cancel(0), quiet), ChapterStarted(NotConfigured, 1)]
      else [ChapterStarted(Dispatched, 1), Act(Cancel(0), quiet), Ticked(Unconfigured(), 1)]
  }

  function LosingStates(early: bool): seq<State> {
    var p, r, c := Item(ItemPending, 0), Item(ItemRunning, 1), Item(ItemCancelled, 0);
    [State([], None), Two(Queued, false, p, p, None), Two(Running, false, p, p, None),
     Two(Running, false, r, p, Some((0, 0)))]
    + if early then [Two(Cancelling, false, r, c, Some((0, 0))), PausedByConfig()]
      else [Two(Running, false, r, p, None), Two(Cancelling, false, r, c, None), PausedByConfig()]
  }

  lemma CancelsRest(starting: Option<(nat, nat)>, w: World)
    ensures Next(Two(Running, false, Item(ItemRunning, 1), Item(ItemPending, 0), starting), Act(Cancel(0), w))
         == Two(Cancelling, false, Item(ItemRunning, 1), Item(ItemCancelled, 0), starting)
  {
    var s := Two(Running, false, Item(ItemRunning, 1), Item(ItemPending, 0), starting);
    RestCancelled(Unfinished(s.rows[0], 0, w));
    hide CancelledPending, Unfinished, Next, HasOpenBatch;
    Acts(s, Cancel(0), w, CancelPending(0, Unfinished(s.rows[0], 0, w)));
  }

  lemma RestCancelled(unfinished: set<nat>)
    ensures CancelledPending(Batch(0, Running, None, false, false, [Item(ItemRunning, 1), Item(ItemPending, 0)]),
                             unfinished)
         == Batch(0, Cancelling, None, false, false, [Item(ItemRunning, 1), Item(ItemCancelled, 0)])
  {
    var left := [Item(ItemRunning, 1), Item(ItemCancelled, 0)];
    assert Moved([Item(ItemRunning, 1), Item(ItemPending, 0)], ItemPending, ItemCancelled) == left;
    assert left[0].status == ItemRunning;
  }

  lemma PausesCancelled()
    ensures ApplyAll([Batch(0, Cancelling, None, false, false, [Item(ItemRunning, 1), Item(ItemCancelled, 0)])],
                     [PauseForConfig(0, 0)])
         == PausedByConfig().rows
  {
    var rows := [Batch(0, Cancelling, None, false, false, [Item(ItemRunning, 1), Item(ItemCancelled, 0)])];
    OneTransaction(rows, PauseForConfig(0, 0));
    assert rows[0].items[0 := Item(ItemPending, 1)] == [Item(ItemPending, 1), Item(ItemCancelled, 0)];
  }

  lemma TickPauses()
    ensures var s := Two(Cancelling, false, Item(ItemRunning, 1), Item(ItemCancelled, 0), None);
            Enabled(s, Ticked(Unconfigured(), 1)) && Next(s, Ticked(Unconfigured(), 1)) == PausedByConfig()
  {
    hide FinishYield, YieldToReader, ApplyAll, RouteItem;
    var s := Two(Cancelling, false, Item(ItemRunning, 1), Item(ItemCancelled, 0), None);
    assert s.rows[0].items[0].status == ItemRunning;
    assert FirstItem(s.rows[0], ItemRunning) == Some(0);
    OwnedByFirst(Generation(TaskPreparing, true), 0, 0);
    assert Work(s.rows, Unconfigured(), 0) == Plan([PauseForConfig(0, 0)], None);
    assert Tick(s.rows, Unconfigured()).ops[..1] == [PauseForConfig(0, 0)];
    PausesCancelled();
  }

  lemma OwnedByFirst(owned: Owned, b: nat, i: nat)
    ensures Seen(false, owned, NoGeneration).owned(b, i) == if i == 0 then owned else NoGeneration
  {
  }

  lemma StartPauses()
    ensures var s := Two(Cancelling, false, Item(ItemRunning, 1), Item(ItemCancelled, 0), Some((0, 0)));
            Enabled(s, ChapterStarted(NotConfigured, 1))
              && Next(s, ChapterStarted(NotConfigured, 1)) == PausedByConfig()
  {
    hide ApplyAll;
    assert AfterStart(0, 0, NotConfigured)[..1] == [PauseForConfig(0, 0)];
    PausesCancelled();
  }

  /** Both runs exist; the cancelled batch ends paused, with its first chapter pending again. */
  lemma CancellationIsLost(early: bool)
    ensures IsRun(LosingStates(early), LosingSteps(early))
    ensures var states := LosingStates(early);
            states[|states| - 2].rows[0].status == Cancelling && states[|states| - 1].rows[0].status == Paused
  {
    hide Enabled, Next;
    var p, r := Item(ItemPending, 0), Item(ItemRunning, 1);
    var quiet := Seen(false, NoGeneration, NoGeneration);
    Shows(false, NoGeneration, NoGeneration, 0, 0);
    Submits(quiet);
    Claims(p, p, quiet);
    Begins(p, p, 0, quiet);
    Dispatches(r, p, 0);
    CancelsRest(None, quiet);
    CancelsRest(Some((0, 0)), quiet);
    TickPauses();
    StartPauses();
    ActsAnyTime();
  }
}
