/** What the ticks of the coordinator and the actions of its users come to: what becomes of a batch and of its current
    item, told from the batch and from what the translation manager shows. */
module BatchDecisions {
  import opened Common
  import opened BatchRows
  import opened BatchScheduler

  ghost predicate IsBusy(status: TaskStatus) {
    status == TaskPreparing || status == TaskQueued || status == TaskRunning || status == TaskStopping
  }

  lemma FirstOp(rows: Rows, op: Op, ops: seq<Op>)
    ensures ApplyAll(rows, [op] + ops) == ApplyAll(Apply(rows, op), ops) && ApplyAll(rows, []) == rows
  {
    assert ([op] + ops)[1..] == ops;
    hide Apply;
  }

  lemma OneOp(rows: Rows, op: Op)
    ensures ApplyAll(rows, [op]) == Apply(rows, op) && ApplyAll(rows, []) == rows
  {
    FirstOp(rows, op, []);
    FirstOp(Apply(rows, op), op, []);
    assert [op] + [] == [op];
    hide Apply;
  }

  /** No other batch changes. */
  ghost predicate OnlyChanges(rows: Rows, later: Rows, b: nat) {
    |later| == |rows| && forall c :: 0 <= c < |rows| && c != b ==> later[c] == rows[c]
  }

  ghost predicate AllOn(ops: seq<Op>, b: nat) {
    forall k :: 0 <= k < |ops| ==> !ops[k].Create? && ops[k].b == b
  }

  lemma {:induction false} OpsChangeOnly(rows: Rows, ops: seq<Op>, b: nat)
    requires b < |rows| && AllOn(ops, b)
    ensures OnlyChanges(rows, ApplyAll(rows, ops), b)
    decreases |ops|
  {
    hide Changed;
    if ops != [] {
      OpsChangeOnly(Apply(rows, ops[0]), ops[1..], b);
    }
  }

  // ---------------------------------------------------------------- a tick at work on an item

  ghost function Later(rows: Rows, w: World): Rows {
    ApplyAll(rows, Tick(rows, w).ops)
  }

  /** The chapter has to be started, or started again. */
  ghost predicate HasToStart(batch: Batch, w: World, b: nat, i: nat) {
    match w.owned(b, i)
    case NoGeneration => !(w.chapter(b, i) == TaskCompleted && w.clean(b, i)) && !IsBusy(w.chapter(b, i))
    case Generation(status, known) =>
      known && (status == TaskPreparing || status == TaskQueued || (status == TaskPaused && batch.resumeRequested))
  }

  /** Somebody else is at work on the chapter, or on its way to stop it. */
  ghost predicate HasToWait(w: World, b: nat, i: nat) {
    match w.owned(b, i)
    case NoGeneration => !(w.chapter(b, i) == TaskCompleted && w.clean(b, i)) && IsBusy(w.chapter(b, i))
    case Generation(status, known) => known && (status == TaskStopping || status == TaskAbsent)
  }

  ghost predicate PausedForConfig(batch: Batch, later: Batch, i: nat)
    requires i < |batch.items|
  {
    && later.status == Paused && later.pauseReason == Some(ByConfig) && !later.resumeRequested
    && |later.items| == |batch.items| && later.items[i] == batch.items[i].(status := ItemPending)
    && forall k :: 0 <= k < |batch.items| && k != i ==> later.items[k] == batch.items[k]
  }

  /** What a tick makes of a batch at work on item i, and what it starts. */
  ghost predicate IsDecided(batch: Batch, later: Batch, starting: Option<(nat, nat)>, w: World, b: nat, i: nat)
    requires i < |batch.items|
  {
    var owned := w.owned(b, i);
    && (starting == if HasToStart(batch, w, b, i) && w.configured then Some((b, i)) else None)
    && (HasToStart(batch, w, b, i) && w.configured ==> later == batch)
    && (HasToStart(batch, w, b, i) && !w.configured ==> PausedForConfig(batch, later, i))
    && (HasToWait(w, b, i) ==> later == batch)
    && (owned == Generation(TaskRunning, true) ==> later == batch.(resumeRequested := false))
    && (owned == Generation(TaskPaused, true) && !batch.resumeRequested ==>
          && !later.resumeRequested && !later.yielded
          && (batch.status == Cancelling ==>
                later.status == Cancelled && later.items == batch.items[i := batch.items[i].(status := ItemCancelled)])
          && (batch.status != Cancelling ==>
                later.status == Paused && later.pauseReason == Some(ByUser) && later.items == batch.items))
    && (owned.Generation? && !owned.known ==> later.status == Failed && later.items == batch.items)
  }

  /** A tick on the current item of the batch at work starts its chapter, or pauses for lack of configuration; notes
      that it runs; waits; settles the batch when the chapter has been stopped; or gives the batch up when the
      generation is gone. (How it ends an item is in BatchOutcomes.) */
  lemma {:induction false} TickOnCurrentItem(rows: Rows, w: World, b: nat, i: nat)
    requires !w.interactive && YieldedBatch(rows).None? && Scheduled(rows) == Some(b) && b < |rows|
    requires rows[b].status != Queued && FirstItem(rows[b], ItemRunning) == Some(i)
    ensures i < |rows[b].items| && OnlyChanges(rows, Later(rows, w), b)
    ensures IsDecided(rows[b], Later(rows, w)[b], Tick(rows, w).starting, w, b, i)
  {
    CurrentPlan(rows, w, b, i);
    hide Tick, Scheduled, YieldedBatch, FirstItem, HasItem, Apply, ApplyAll;
    CurrentItemLater(rows, w, b, i);
  }

  lemma CurrentPlan(rows: Rows, w: World, b: nat, i: nat)
    requires !w.interactive && YieldedBatch(rows).None? && Scheduled(rows) == Some(b) && b < |rows|
    requires rows[b].status != Queued && FirstItem(rows[b], ItemRunning) == Some(i)
    ensures Tick(rows, w) == ReconcileItem(rows, w, b, i) && IsActive(rows[b])
  {
  }

  lemma PlanIsOnBatch(rows: Rows, w: World, b: nat, i: nat)
    requires b < |rows|
    ensures AllOn(ReconcileItem(rows, w, b, i).ops, b) && AllOn(RouteItem(w, b, i).ops, b)
  {
  }

  /** Starting a chapter, or not. */
  lemma StartLater(rows: Rows, w: World, b: nat, i: nat)
    requires b < |rows| && i < |rows[b].items| && rows[b].items[i].status == ItemRunning && IsOpen(rows[b])
    ensures var plan := StartItem(w, b, i);
            var all := ApplyAll(rows, plan.ops);
            && plan.starting == (if w.configured then Some((b, i)) else None)
            && (w.configured ==> all == rows)
            && (!w.configured ==> |all| == |rows| && PausedForConfig(rows[b], all[b], i))
  {
    OneOp(rows, PauseForConfig(b, i));
    hide ApplyAll;
  }

  lemma {:induction false} CurrentItemLater(rows: Rows, w: World, b: nat, i: nat)
    requires b < |rows| && i < |rows[b].items| && rows[b].items[i].status == ItemRunning && IsActive(rows[b])
    ensures var plan := ReconcileItem(rows, w, b, i);
            var all := ApplyAll(rows, plan.ops);
            OnlyChanges(rows, all, b) && IsDecided(rows[b], all[b], plan.starting, w, b, i)
  {
    hide IsDecided, ReconcileItem, HasItem, Apply, ApplyAll;
    PlanIsOnBatch(rows, w, b, i);
    OpsChangeOnly(rows, ReconcileItem(rows, w, b, i).ops, b);
    if w.owned(b, i).NoGeneration? {
      NewItemLater(rows, w, b, i);
    } else if w.owned(b, i) == Generation(TaskPaused, true) {
      StoppedItemLater(rows, w, b, i);
    } else {
      OwnedItemLater(rows, w, b, i);
    }
  }

  lemma {:induction false} NewItemLater(rows: Rows, w: World, b: nat, i: nat)
    requires b < |rows| && i < |rows[b].items| && rows[b].items[i].status == ItemRunning && IsActive(rows[b])
    requires w.owned(b, i).NoGeneration?
    ensures var plan := ReconcileItem(rows, w, b, i);
            IsDecided(rows[b], ApplyAll(rows, plan.ops)[b], plan.starting, w, b, i)
  {
    StartLater(rows, w, b, i);
    OneOp(rows, ClearResume(b));
    hide Apply, ApplyAll, Ended, PausedForConfig, StartItem;
  }

  lemma {:induction false} StoppedItemLater(rows: Rows, w: World, b: nat, i: nat)
    requires b < |rows| && i < |rows[b].items| && rows[b].items[i].status == ItemRunning && IsActive(rows[b])
    requires w.owned(b, i) == Generation(TaskPaused, true)
    ensures var plan := ReconcileItem(rows, w, b, i);
            IsDecided(rows[b], ApplyAll(rows, plan.ops)[b], plan.starting, w, b, i)
  {
    StartLater(rows, w, b, i);
    OneOp(rows, SettleStopped(b, i));
    hide ApplyAll, HasItem, Ended, PausedForConfig, StartItem;
  }

  lemma {:induction false} OwnedItemLater(rows: Rows, w: World, b: nat, i: nat)
    requires b < |rows| && i < |rows[b].items| && rows[b].items[i].status == ItemRunning && IsActive(rows[b])
    requires w.owned(b, i).Generation? && w.owned(b, i) != Generation(TaskPaused, true)
    ensures var plan := ReconcileItem(rows, w, b, i);
            IsDecided(rows[b], ApplyAll(rows, plan.ops)[b], plan.starting, w, b, i)
  {
    hide IsDecided, Apply, ApplyAll, HasItem, Ended, PausedForConfig, StartItem;
    StartLater(rows, w, b, i);
    OneOp(rows, SetFailed(b));
    OneOp(rows, ClearResume(b));
    SimpleOps(rows, b);
    DecidedIf(rows[b], ApplyAll(rows, ReconcileItem(rows, w, b, i).ops)[b],
              ReconcileItem(rows, w, b, i).starting, w, b, i);
  }

  /** With a generation that is not a paused one. */
  lemma DecidedIf(batch: Batch, later: Batch, starting: Option<(nat, nat)>, w: World, b: nat, i: nat)
    requires i < |batch.items| && w.owned(b, i).Generation? && w.owned(b, i) != Generation(TaskPaused, true)
    requires starting == if HasToStart(batch, w, b, i) && w.configured then Some((b, i)) else None
    requires HasToStart(batch, w, b, i) && w.configured ==> later == batch
    requires HasToStart(batch, w, b, i) && !w.configured ==> PausedForConfig(batch, later, i)
    requires HasToWait(w, b, i) ==> later == batch
    requires w.owned(b, i) == Generation(TaskRunning, true) ==> later == batch.(resumeRequested := false)
    requires !w.owned(b, i).known ==> later.status == Failed && later.items == batch.items
    ensures IsDecided(batch, later, starting, w, b, i)
  {
  }

  lemma SimpleOps(rows: Rows, b: nat)
    requires b < |rows| && IsOpen(rows[b])
    ensures Apply(rows, ClearResume(b)) == rows[b := rows[b].(resumeRequested := false)]
    ensures var failed := rows[b].(status := Failed, yielded := false, resumeRequested := false);
            Apply(rows, SetFailed(b)) == rows[b := failed]
  {
  }

  // ---------------------------------------------------------------- a tick on a batch without a current item

  /** A batch that waits begins to run. */
  lemma {:induction false} TickOnWaitingBatch(rows: Rows, w: World, b: nat)
    requires !w.interactive && YieldedBatch(rows).None? && Scheduled(rows) == Some(b) && b < |rows|
    requires rows[b].status == Queued
    ensures Tick(rows, w).starting.None?
    ensures Later(rows, w) == rows[b := rows[b].(status := Running, pauseReason := None)]
  {
    OneOp(rows, ClaimBatch(b));
    hide ApplyAll, Scheduled, YieldedBatch;
  }

  /** A batch at work without a current item is settled if it was to pause or to be cancelled, or has no item left, and
      otherwise takes up its first pending item. */
  ghost predicate IsTakenUp(batch: Batch, later: Batch, starting: Option<(nat, nat)>, w: World, b: nat) {
    && (batch.status == Pausing ==> later.status == Paused && later.items == batch.items && starting.None?)
    && (batch.status == Cancelling ==>
          starting.None? && later == batch.(status := Cancelled, yielded := false, resumeRequested := false))
    && (batch.status == Running && !HasItem(batch, ItemPending) ==>
          && starting.None? && later.items == batch.items && !later.yielded && !later.resumeRequested
          && later.status == if HasItem(batch, ItemFailed) then CompletedWithErrors else Completed)
    && (batch.status == Running && HasItem(batch, ItemPending) ==>
          var i := FirstItem(batch, ItemPending).value;
          && i < |batch.items| && |later.items| == |batch.items|
          && later.items[i].attempts == batch.items[i].attempts + 1
          && (w.chapter(b, i) == TaskCompleted && w.clean(b, i) ==>
                starting.None? && later.items[i].status == ItemSkipped)
          && (!(w.chapter(b, i) == TaskCompleted && w.clean(b, i)) && IsBusy(w.chapter(b, i)) ==>
                starting.None? && later.status == Running && later.items[i].status == ItemRunning)
          && (!(w.chapter(b, i) == TaskCompleted && w.clean(b, i)) && !IsBusy(w.chapter(b, i)) ==>
                if w.configured then
                  starting == Some((b, i)) && later.status == Running && later.items[i].status == ItemRunning
                else
                  && starting.None? && later.status == Paused && later.pauseReason == Some(ByConfig)
                  && later.items[i].status == ItemPending))
  }

  lemma {:induction false} TickTakesUp(rows: Rows, w: World, b: nat)
    requires !w.interactive && YieldedBatch(rows).None? && Scheduled(rows) == Some(b) && b < |rows|
    requires rows[b].status != Queued && FirstItem(rows[b], ItemRunning).None?
    ensures OnlyChanges(rows, Later(rows, w), b)
    ensures IsTakenUp(rows[b], Later(rows, w)[b], Tick(rows, w).starting, w, b)
  {
    assert Tick(rows, w) == Work(rows, w, b) && IsActive(rows[b]);
    hide Tick, Scheduled, YieldedBatch, FirstItem, HasItem, ApplyAll, IsTakenUp;
    WorkIsOnBatch(rows, w, b);
    OpsChangeOnly(rows, Work(rows, w, b).ops, b);
    if rows[b].status == Running && FirstItem(rows[b], ItemPending).Some? {
      hide Work;
      ItemTakenUp(rows, w, b, FirstItem(rows[b], ItemPending).value);
    } else {
      OneOp(rows, SettleAfterItem(b));
      SettledIsTakenUp(rows, w, b);
    }
  }

  lemma WorkIsOnBatch(rows: Rows, w: World, b: nat)
    requires b < |rows|
    ensures AllOn(Work(rows, w, b).ops, b)
  {
    hide FirstItem;
  }

  lemma SettledIsTakenUp(rows: Rows, w: World, b: nat)
    requires b < |rows| && FirstItem(rows[b], ItemRunning).None? && IsActive(rows[b])
    requires rows[b].status == Running ==> FirstItem(rows[b], ItemPending).None?
    ensures Work(rows, w, b) == Plan([SettleAfterItem(b)], None)
    ensures IsTakenUp(rows[b], Apply(rows, SettleAfterItem(b))[b], None, w, b)
  {
  }

  lemma {:induction false} ItemTakenUp(rows: Rows, w: World, b: nat, i: nat)
    requires b < |rows| && FirstItem(rows[b], ItemRunning).None? && rows[b].status == Running
    requires FirstItem(rows[b], ItemPending) == Some(i)
    ensures IsTakenUp(rows[b], ApplyAll(rows, Work(rows, w, b).ops)[b], Work(rows, w, b).starting, w, b)
  {
    var claimed := Apply(rows, ClaimItem(b, i));
    FirstOp(rows, ClaimItem(b, i), RouteItem(w, b, i).ops);
    ClaimingIs(rows, b, i);
    RoutedLater(claimed, w, b, i);
    hide Apply, ApplyAll, RouteItem;
  }

  lemma ClaimingIs(rows: Rows, b: nat, i: nat)
    requires b < |rows| && FirstItem(rows[b], ItemRunning).None? && rows[b].status == Running
    requires FirstItem(rows[b], ItemPending) == Some(i)
    ensures i < |rows[b].items|
    ensures var items := rows[b].items[i := Item(ItemRunning, rows[b].items[i].attempts + 1)];
            Apply(rows, ClaimItem(b, i)) == rows[b := rows[b].(items := items)]
  {
  }

  /** A chapter that is already translated is skipped, one that somebody is at work on is waited for, and any other is
      started, or pauses the batch for lack of configuration. */
  lemma {:induction false} RoutedLater(rows: Rows, w: World, b: nat, i: nat)
    requires b < |rows| && i < |rows[b].items| && rows[b].items[i].status == ItemRunning && rows[b].status == Running
    ensures var plan := RouteItem(w, b, i);
            var all := ApplyAll(rows, plan.ops);
            var skips := w.chapter(b, i) == TaskCompleted && w.clean(b, i);
            && (skips ==>
                  && |all| == |rows| && plan.starting.None?
                  && all[b].items == rows[b].items[i := rows[b].items[i].(status := ItemSkipped)])
            && (!skips && IsBusy(w.chapter(b, i)) ==> plan == Plan([], None) && all == rows)
            && (!skips && !IsBusy(w.chapter(b, i)) ==>
                  && plan.starting == (if w.configured then Some((b, i)) else None)
                  && (w.configured ==> all == rows)
                  && (!w.configured ==> |all| == |rows| && PausedForConfig(rows[b], all[b], i)))
  {
    StartLater(rows, w, b, i);
    SkippingIs(rows, b, i);
    assert ApplyAll(rows, []) == rows;
    hide Apply, ApplyAll, Ended, StartItem;
  }

  lemma SkippingIs(rows: Rows, b: nat, i: nat)
    requires b < |rows| && i < |rows[b].items| && rows[b].items[i].status == ItemRunning
    ensures |ApplyAll(rows, Ended(b, i, ItemSkipped))| == |rows|
    ensures ApplyAll(rows, Ended(b, i, ItemSkipped))[b].items
         == rows[b].items[i := rows[b].items[i].(status := ItemSkipped)]
  {
    var first := Apply(rows, ClearResume(b));
    var second := Apply(first, FinishItem(b, i, ItemSkipped));
    var ends := [FinishItem(b, i, ItemSkipped), SettleAfterItem(b)];
    FirstOp(rows, ClearResume(b), ends);
    FirstOp(first, FinishItem(b, i, ItemSkipped), [SettleAfterItem(b)]);
    OneOp(second, SettleAfterItem(b));
    assert [ClearResume(b)] + ends == Ended(b, i, ItemSkipped);
    assert [FinishItem(b, i, ItemSkipped)] + [SettleAfterItem(b)] == ends;
    ItemsAfterOps(rows, b, i);
    ItemsAfterOps(first, b, i);
    ItemsAfterOps(second, b, i);
    hide Apply, ApplyAll, Ended;
  }

  lemma ItemsAfterOps(rows: Rows, b: nat, i: nat)
    requires b < |rows| && i < |rows[b].items| && (rows[b].items[i].status in {ItemRunning, ItemSkipped})
    ensures |Apply(rows, ClearResume(b))| == |rows| && Apply(rows, ClearResume(b))[b].items == rows[b].items
    ensures |Apply(rows, SettleAfterItem(b))| == |rows| && Apply(rows, SettleAfterItem(b))[b].items == rows[b].items
    ensures |Apply(rows, FinishItem(b, i, ItemSkipped))| == |rows|
    ensures Apply(rows, FinishItem(b, i, ItemSkipped))[b].items
         == rows[b].items[i := rows[b].items[i].(status := ItemSkipped)]
  {
    hide HasItem;
  }

  // ---------------------------------------------------------------- readers

  /** While somebody reads, the batch at work makes way as soon as its current chapter is seen to be busy: it is marked,
      and if its user has asked it to pause, it is paused with nothing running. Nothing else happens, and nothing is
      started. */
  lemma {:induction false} TickMakesWay(rows: Rows, w: World)
    requires w.interactive
    ensures Tick(rows, w).starting.None?
    ensures match Scheduled(rows)
            case None => Later(rows, w) == rows
            case Some(b) =>
              b < |rows| && OnlyChanges(rows, Later(rows, w), b) && MadeWay(rows[b], Later(rows, w)[b], w, b)
  {
    hide ApplyAll, FirstItem;
    FirstOp(rows, ClearResume(0), []);
    if Scheduled(rows).Some? {
      var b := Scheduled(rows).value;
      assert b < |rows|;
      hide Scheduled;
      OneOp(rows, SetYielded(b, true));
      FirstOp(rows, SetYielded(b, true), [RequestPause(b, ByUser)]);
      OneOp(Apply(rows, SetYielded(b, true)), RequestPause(b, ByUser));
      MakingWay(rows, w, b);
    }
  }

  ghost predicate MadeWay(batch: Batch, later: Batch, w: World, b: nat) {
    var current := FirstItem(batch, ItemRunning);
    var busy := current.Some? && w.owned(b, current.value).Generation? && w.owned(b, current.value).known
                && IsBusy(w.owned(b, current.value).status);
    if !busy || batch.yielded || batch.status in {Completed, Cancelled} then later == batch
    else
      && later.yielded
      && (batch.pauseReason != Some(ByUser) || batch.status in {CompletedWithErrors, Failed} ==>
            later == batch.(yielded := true))
      && (batch.pauseReason == Some(ByUser) && batch.status !in {CompletedWithErrors, Failed} ==>
            && later.status == Paused && !HasItem(later, ItemRunning) && |later.items| == |batch.items|
            && forall k :: 0 <= k < |batch.items| ==>
                 later.items[k] == if batch.items[k].status == ItemRunning then batch.items[k].(status := ItemPending)
                                   else batch.items[k])
  }

  lemma {:induction false} MakingWay(rows: Rows, w: World, b: nat)
    requires b < |rows|
    requires ApplyAll(rows, []) == rows && ApplyAll(rows, [SetYielded(b, true)]) == Apply(rows, SetYielded(b, true))
    requires ApplyAll(rows, [SetYielded(b, true)] + [RequestPause(b, ByUser)])
          == Apply(Apply(rows, SetYielded(b, true)), RequestPause(b, ByUser))
    requires IsActive(rows[b]) || rows[b].status == Queued
    ensures var later := ApplyAll(rows, YieldToReader(rows, w, b).ops);
            OnlyChanges(rows, later, b) && MadeWay(rows[b], later[b], w, b)
    ensures YieldToReader(rows, w, b).starting.None?
  {
    hide ApplyAll;
    assert [SetYielded(b, true)] + [] == [SetYielded(b, true)];
  }

  /** When nobody reads any more, the batch that made way goes on: it waits while the chapter that it finds is busy;
      otherwise it is no longer marked, and a chapter that has been paused is started again unless the user has paused
      the batch. */
  lemma {:induction false} TickComesBack(rows: Rows, w: World, y: nat)
    requires !w.interactive && YieldedBatch(rows) == Some(y)
    ensures y < |rows| && OnlyChanges(rows, Later(rows, w), y)
    ensures CameBack(rows[y], Later(rows, w)[y], Tick(rows, w).starting, w, y, Found(rows[y], w, y))
  {
    assert y < |rows| && rows[y].yielded && IsOpen(rows[y]);
    assert Tick(rows, w) == FinishYield(rows, w, y);
    hide Tick, YieldedBatch, FirstItem, FirstUnfinished, ApplyAll;
    ComingBack(rows, w, y);
  }

  /** The item that the batch finds: the one that was running, or the first that has a generation to go on with. */
  ghost function Found(batch: Batch, w: World, b: nat): Option<nat> {
    if FirstItem(batch, ItemRunning).Some? then FirstItem(batch, ItemRunning) else FirstUnfinished(batch, b, w)
  }

  ghost predicate CameBack(batch: Batch, later: Batch, starting: Option<(nat, nat)>, w: World, b: nat,
                           found: Option<nat>) {
    var owned := if found.Some? then w.owned(b, found.value) else NoGeneration;
    var known := owned.Generation? && owned.known;
    if known && IsBusy(owned.status) then later == batch && starting.None?
    else if known && owned.status == TaskPaused && batch.status != Paused && batch.pauseReason != Some(ByUser) then
      && !later.yielded
      && (starting == if w.configured then Some((b, found.value)) else None)
      && (w.configured ==> later == batch.(yielded := false))
      && (!w.configured ==>
            && later.status == Paused && later.pauseReason == Some(ByConfig) && !later.resumeRequested
            && later.items == Place(batch, found.value, ItemRunning, ItemPending).items)
    else later == batch.(yielded := false) && starting.None?
  }

  lemma {:induction false} ComingBack(rows: Rows, w: World, y: nat)
    requires y < |rows| && rows[y].yielded && IsOpen(rows[y])
    ensures OnlyChanges(rows, ApplyAll(rows, FinishYield(rows, w, y).ops), y)
    ensures CameBack(rows[y], ApplyAll(rows, FinishYield(rows, w, y).ops)[y], FinishYield(rows, w, y).starting, w, y,
                     Found(rows[y], w, y))
  {
    hide FirstItem, FirstUnfinished, HasItem, ApplyAll;
    var none := rows[y := rows[y].(yielded := false)];
    assert Apply(rows, SetYielded(y, false)) == none;
    OneOp(rows, SetYielded(y, false));
    if Found(rows[y], w, y).Some? {
      var i := Found(rows[y], w, y).value;
      FirstOp(rows, SetYielded(y, false), StartItem(w, y, i).ops);
      OneOp(none, PauseForConfig(y, i));
      assert [SetYielded(y, false)] + [] == [SetYielded(y, false)];
    }
  }

  // ---------------------------------------------------------------- users

  /** What an accepted action makes of its batch. */
  ghost predicate IsDone(action: Action, batch: Batch, later: Batch) {
    match action
    case Submit(_, _) => true
    case Pause(_) =>
      && later.status == (if batch.status in {Pausing, Paused} then batch.status
                          else if HasItem(batch, ItemRunning) && !batch.yielded then Pausing else Paused)
      && (batch.status !in {Pausing, Paused} ==>
            && later.pauseReason == Some(ByUser) && !later.resumeRequested
            && (batch.yielded ==> !HasItem(later, ItemRunning)) && (!batch.yielded ==> later.items == batch.items))
    case Resume(_) =>
      if batch.status in {Queued, Running} then later == batch
      else later == batch.(status := Queued, pauseReason := None, resumeRequested := true)
    case Cancel(_) =>
      && (!HasItem(later, ItemPending) || batch.status == Cancelled)
      && (later.status == if batch.status == Cancelled || !HasItem(later, ItemRunning) then Cancelled else Cancelling)
      && (!batch.yielded && batch.status != Cancelled ==>
            |later.items| == |batch.items| && forall k :: 0 <= k < |batch.items| ==>
              later.items[k] == if batch.items[k].status == ItemPending then batch.items[k].(status := ItemCancelled)
                                else batch.items[k])
    case Retry(_) =>
      if batch.status in {Queued, Running} then later == batch
      else
        && later.status == (if HasItem(batch, ItemFailed) then Queued else Completed) && !HasItem(later, ItemFailed)
        && |later.items| == |batch.items| && forall k :: 0 <= k < |batch.items| ==>
             later.items[k] == if batch.items[k].status == ItemFailed then batch.items[k].(status := ItemPending)
                               else batch.items[k]
    case Close(_) => later.status == Cancelled && later.items == batch.items
  }

  /** The statuses in which an action on a batch is accepted, if the services that it needs are configured. */
  ghost predicate IsAccepted(action: Action, batch: Batch, w: World) {
    match action
    case Submit(_, _) => true
    case Pause(_) => batch.status in {Queued, Running, Pausing, Paused}
    case Resume(_) => batch.status in {Queued, Running} || (batch.status in {Paused, Failed} && w.configured)
    case Cancel(_) => batch.status in {Queued, Running, Pausing, Paused, Cancelling, Cancelled}
    case Retry(_) => batch.status in {Queued, Running} || (batch.status == CompletedWithErrors && w.configured)
    case Close(_) => batch.status in {CompletedWithErrors, Failed, Cancelled}
  }

  /** An action on a batch is accepted in exactly these cases, then does what it is for, and touches no other batch. */
  lemma {:induction false} ActionsDoWhatTheyAreFor(rows: Rows, w: World, action: Action)
    requires !action.Submit? && action.b < |rows|
    ensures Acted(rows, w, action).Ok? <==> IsAccepted(action, rows[action.b], w)
    ensures Acted(rows, w, action).Ok? ==>
              var later := ApplyAll(rows, Acted(rows, w, action).value);
              OnlyChanges(rows, later, action.b) && IsDone(action, rows[action.b], later[action.b])
  {
    FirstOp(rows, ClearResume(0), []);
    hide ApplyAll, IsDone, HasItem;
    if Acted(rows, w, action).Ok? {
      var ops := Acted(rows, w, action).value;
      OpsChangeOnly(rows, ops, action.b);
      if ops == [] {
        NothingIsDone(action, rows[action.b]);
      } else {
        OneOp(rows, ops[0]);
        BatchIsDone(rows, w, action);
      }
    }
  }

  /** Actions without anything to do. */
  lemma NothingIsDone(action: Action, batch: Batch)
    requires match action
             case Submit(_, _) => false
             case Pause(_) => batch.status in {Pausing, Paused}
             case Resume(_) => batch.status in {Queued, Running}
             case Cancel(_) => batch.status == Cancelled
             case Retry(_) => batch.status in {Queued, Running}
             case Close(_) => batch.status == Cancelled
    ensures IsDone(action, batch, batch)
  {
  }

  lemma {:induction false} BatchIsDone(rows: Rows, w: World, action: Action)
    requires !action.Submit? && action.b < |rows| && Acted(rows, w, action).Ok? && Acted(rows, w, action).value != []
    ensures |Acted(rows, w, action).value| == 1
    ensures var op := Acted(rows, w, action).value[0];
            !op.Create? && op.b == action.b && IsDone(action, rows[action.b], Changed(rows[action.b], op))
  {
    hide IsDone, HasItem, Changed;
    var batch := rows[action.b];
    match action
    case Pause(_) => PauseIsDone(action, batch);
    case Resume(_) => ResumeIsDone(action, batch);
    case Cancel(_) => CancelIsDone(action, batch, Unfinished(batch, action.b, w));
    case Retry(_) => RetryIsDone(action, batch);
    case Close(_) => CloseIsDone(action, batch);
  }

  lemma PauseIsDone(action: Action, batch: Batch)
    requires action.Pause? && batch.status in {Queued, Running}
    ensures IsDone(action, batch, Changed(batch, RequestPause(action.b, ByUser)))
  {
  }

  lemma ResumeIsDone(action: Action, batch: Batch)
    requires action.Resume? && batch.status in {Paused, Failed}
    ensures IsDone(action, batch, Changed(batch, ResumeBatch(action.b)))
  {
  }

  lemma CancelIsDone(action: Action, batch: Batch, unfinished: set<nat>)
    requires action.Cancel? && batch.status in {Queued, Running, Pausing, Paused, Cancelling}
    ensures IsDone(action, batch, Changed(batch, CancelPending(action.b, unfinished)))
  {
  }

  lemma RetryIsDone(action: Action, batch: Batch)
    requires action.Retry? && batch.status == CompletedWithErrors
    ensures IsDone(action, batch, Changed(batch, RetryFailed(action.b)))
  {
  }

  lemma CloseIsDone(action: Action, batch: Batch)
    requires action.Close? && batch.status in {CompletedWithErrors, Failed}
    ensures IsDone(action, batch, Changed(batch, CloseFailed(action.b)))
  {
  }

  /** Asking for chapters is refused without configured services, without chapters, or while the comic has an open
      batch; otherwise it adds a queued batch with these chapters to do. */
  lemma {:induction false} SubmitAddsBatch(rows: Rows, w: World, comic: nat, chapters: nat)
    ensures Acted(rows, w, Submit(comic, chapters)).Ok? <==>
              && w.configured && chapters > 0
              && !(exists b :: 0 <= b < |rows| && rows[b].comic == comic && IsOpen(rows[b]))
    ensures Acted(rows, w, Submit(comic, chapters)).Ok? ==>
              var later := ApplyAll(rows, Acted(rows, w, Submit(comic, chapters)).value);
              && |later| == |rows| + 1 && later[..|rows|] == rows
              && later[|rows|].comic == comic && later[|rows|].status == Queued && |later[|rows|].items| == chapters
              && forall k :: 0 <= k < chapters ==> later[|rows|].items[k] == Item(ItemPending, 0)
  {
    OneOp(rows, Create(comic, chapters));
    hide ApplyAll;
  }
}
