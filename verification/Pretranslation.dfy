/** The classes of app/repositories/pretranslation.py and app/translation/pretranslation.py. Each repository
    method is proved to be the transaction that BatchRows describes, and each coordinator method to run the
    transactions that BatchScheduler decides; BatchRuns proves what all of them keep. */
module Pretranslation {
  import opened Common
  import opened BatchRows
  import opened BatchScheduler

  class PretranslationRepository {
    var rows: Rows

    constructor ()
      ensures rows == []
    {
      rows := [];
    }

    predicate HasRow(b: nat, i: nat)
      reads this
    {
      b < |rows| && i < |rows[b].items|
    }

    method CreateBatch(comic: nat, chapters: nat)
      modifies this
      ensures rows == Apply(old(rows), Create(comic, chapters))
    {
      if chapters == 0 || HasOpenBatch(rows, comic) {
        return;
      }
      var items := [];
      for position := 0 to chapters
        invariant items == seq(position, _ => Item(ItemPending, 0))
      {
        items := items + [Item(ItemPending, 0)];
      }
      rows := rows + [Batch(comic, Queued, None, false, false, items)];
    }

    method ClaimBatch(b: nat) returns (claimed: bool)
      modifies this
      ensures rows == Apply(old(rows), Op.ClaimBatch(b))
      ensures claimed == (b < |rows| && rows[b].status == Running)
    {
      if b < |rows| && rows[b].status == Queued {
        rows := rows[b := rows[b].(status := Running, pauseReason := None)];
        return true;
      }
      claimed := b < |rows| && rows[b].status == Running;
    }

    method ClaimItem(b: nat, i: nat) returns (claimed: bool)
      modifies this
      ensures rows == Apply(old(rows), Op.ClaimItem(b, i))
      ensures claimed == old(HasRow(b, i) && rows[b].items[i].status == ItemPending && !HasItem(rows[b], ItemRunning))
    {
      if !HasRow(b, i) {
        return false;
      }
      var item := rows[b].items[i];
      claimed := item.status == ItemPending && !HasItem(rows[b], ItemRunning);
      if claimed {
        rows := rows[b := rows[b].(items := rows[b].items[i := Item(ItemRunning, item.attempts + 1)])];
      }
    }

    method FinishItem(b: nat, i: nat, outcome: ItemStatus)
      modifies this
      ensures rows == Apply(old(rows), Op.FinishItem(b, i, outcome))
    {
      if HasRow(b, i) && rows[b].items[i].status == ItemRunning {
        rows := rows[b := rows[b].(items := rows[b].items[i := rows[b].items[i].(status := outcome)])];
      }
    }

    method RequestPause(b: nat, reason: PauseReason)
      modifies this
      ensures rows == Apply(old(rows), Op.RequestPause(b, reason))
    {
      if b >= |rows| {
        return;
      }
      var row := rows[b];
      if row.status in {Completed, CompletedWithErrors, Cancelled, Failed} {
        return;
      }
      var hasRunning := HasItem(row, ItemRunning);
      var next := if hasRunning && reason == ByUser && !row.yielded then Pausing else Paused;
      if next == Paused && hasRunning && reason == ByUser && row.yielded {
        row := row.(items := Moved(row.items, ItemRunning, ItemPending));
      }
      rows := rows[b := row.(status := next, pauseReason := Some(reason), resumeRequested := false)];
    }

    method PauseForConfig(b: nat, i: nat)
      modifies this
      ensures rows == Apply(old(rows), Op.PauseForConfig(b, i))
    {
      if b >= |rows| {
        return;
      }
      if i < |rows[b].items| && rows[b].items[i].status == ItemRunning {
        rows := rows[b := rows[b].(items := rows[b].items[i := rows[b].items[i].(status := ItemPending)])];
      }
      if rows[b].status != Completed && rows[b].status != Cancelled {
        rows := rows[b := rows[b].(status := Paused, pauseReason := Some(ByConfig), resumeRequested := false)];
      }
    }

    method SettleStoppedCurrent(b: nat, i: nat)
      modifies this
      ensures rows == Apply(old(rows), SettleStopped(b, i))
    {
      if b >= |rows| {
        return;
      }
      var status := rows[b].status;
      if status == Cancelling {
        if i < |rows[b].items| && rows[b].items[i].status == ItemRunning {
          rows := rows[b := rows[b].(items := rows[b].items[i := rows[b].items[i].(status := ItemCancelled)])];
        }
        rows := rows[b := rows[b].(status := Cancelled, pauseReason := None, yielded := false,
                                   resumeRequested := false)];
      } else if status in {Queued, Running, Pausing} {
        rows := rows[b := rows[b].(status := Paused, pauseReason := Some(ByUser), yielded := false,
                                   resumeRequested := false)];
      }
    }

    method ResumeBatch(b: nat)
      modifies this
      ensures rows == Apply(old(rows), Op.ResumeBatch(b))
    {
      if b < |rows| && rows[b].status in {Paused, Failed} {
        rows := rows[b := rows[b].(status := Queued, pauseReason := None, resumeRequested := true)];
      }
    }

    method CancelPending(b: nat, unfinished: set<nat>)
      modifies this
      ensures rows == Apply(old(rows), Op.CancelPending(b, unfinished))
    {
      if b >= |rows| {
        return;
      }
      var row := rows[b];
      if row.status in {Completed, Cancelled} {
        return;
      }
      if row.yielded {
        row := row.(items := Revived(row.items, unfinished));
      }
      row := row.(items := Moved(row.items, ItemPending, ItemCancelled));
      var hasRunning := HasItem(row, ItemRunning);
      rows := rows[b := row.(status := if hasRunning then Cancelling else Cancelled, pauseReason := None,
                             yielded := if hasRunning then row.yielded else false, resumeRequested := false)];
    }

    method RetryFailed(b: nat)
      modifies this
      ensures rows == Apply(old(rows), Op.RetryFailed(b))
    {
      if b >= |rows| {
        return;
      }
      var row := rows[b];
      if row.status != CompletedWithErrors {
        return;
      }
      var changed := HasItem(row, ItemFailed);
      rows := rows[b := row.(items := Moved(row.items, ItemFailed, ItemPending),
                             status := if changed then Queued else Completed,
                             pauseReason := None, resumeRequested := false)];
    }

    method CloseFailedBatch(b: nat)
      modifies this
      ensures rows == Apply(old(rows), CloseFailed(b))
    {
      if b < |rows| && rows[b].status in {CompletedWithErrors, Failed} {
        rows := rows[b := rows[b].(status := Cancelled, pauseReason := None, yielded := false,
                                   resumeRequested := false)];
      }
    }

    method SetInteractiveYielded(b: nat, value: bool)
      modifies this
      ensures rows == Apply(old(rows), SetYielded(b, value))
    {
      if b < |rows| && rows[b].status !in {Completed, Cancelled} {
        rows := rows[b := rows[b].(yielded := value)];
      }
    }

    method ClearResumeRequested(b: nat)
      modifies this
      ensures rows == Apply(old(rows), ClearResume(b))
    {
      if b < |rows| {
        rows := rows[b := rows[b].(resumeRequested := false)];
      }
    }

    method SetBatchFailed(b: nat)
      modifies this
      ensures rows == Apply(old(rows), SetFailed(b))
    {
      if b < |rows| && rows[b].status !in {Completed, Cancelled} {
        rows := rows[b := rows[b].(status := Failed, yielded := false, resumeRequested := false)];
      }
    }

    method SettleAfterItem(b: nat)
      modifies this
      ensures rows == Apply(old(rows), Op.SettleAfterItem(b))
    {
      if b >= |rows| {
        return;
      }
      var row := rows[b];
      if row.status == Pausing {
        rows := rows[b := row.(status := Paused, resumeRequested := false)];
      } else if row.status == Cancelling {
        rows := rows[b := row.(status := Cancelled, yielded := false, resumeRequested := false)];
      } else if row.status == Running {
        var remaining := HasItem(row, ItemPending) || HasItem(row, ItemRunning);
        if !remaining {
          rows := rows[b := row.(status := if HasItem(row, ItemFailed) then CompletedWithErrors else Completed,
                                 yielded := false, resumeRequested := false)];
        }
      }
    }
  }

  lemma OneOp(rows: Rows, x: Op)
    ensures ApplyAll(rows, [x]) == Apply(rows, x)
  {
    hide Apply;
    assert [x][1..] == [];
  }

  lemma MoreOps(rows: Rows, x: Op, rest: seq<Op>)
    ensures ApplyAll(rows, [x] + rest) == ApplyAll(Apply(rows, x), rest)
  {
    hide Apply;
    assert ([x] + rest)[1..] == rest;
  }

  class PretranslationCoordinator {
    const repository: PretranslationRepository
    var starting: Option<(nat, nat)>

    constructor (repository: PretranslationRepository)
      ensures this.repository == repository && starting == None
    {
      this.repository, starting := repository, None;
    }

    /** One scheduler tick, up to the start of a chapter. */
    method Tick(w: World)
      requires starting.None?
      modifies this, repository
      ensures repository.rows == ApplyAll(old(repository.rows), BatchScheduler.Tick(old(repository.rows), w).ops)
      ensures starting == BatchScheduler.Tick(old(repository.rows), w).starting
    {
      hide Apply;
      var batch := Scheduled(repository.rows);
      if w.interactive {
        if batch.Some? {
          YieldToInteractive(w, batch.value);
        }
        return;
      }
      var yielded := YieldedBatch(repository.rows);
      if yielded.Some? {
        FinishInteractiveYield(w, yielded.value);
        return;
      }
      if batch.None? {
        return;
      }
      var b := batch.value;
      if repository.rows[b].status == Queued {
        OneOp(repository.rows, ClaimBatch(b));
        var _ := repository.ClaimBatch(b);
        return;
      }
      var current := FirstItem(repository.rows[b], ItemRunning);
      if current.Some? {
        ReconcileCurrent(w, b, current.value);
        return;
      }
      var status := repository.rows[b].status;
      if status in {Pausing, Cancelling} {
        OneOp(repository.rows, SettleAfterItem(b));
        repository.SettleAfterItem(b);
        return;
      }
      if status != Running {
        return;
      }
      var item := FirstItem(repository.rows[b], ItemPending);
      if item.None? {
        OneOp(repository.rows, SettleAfterItem(b));
        repository.SettleAfterItem(b);
        return;
      }
      MoreOps(repository.rows, ClaimItem(b, item.value), RouteItem(w, b, item.value).ops);
      var claimed := repository.ClaimItem(b, item.value);
      if claimed {
        RouteNewItem(w, b, item.value);
      }
    }

    method YieldToInteractive(w: World, b: nat)
      requires b < |repository.rows| && starting.None?
      modifies repository
      ensures repository.rows == ApplyAll(old(repository.rows), YieldToReader(old(repository.rows), w, b).ops)
      ensures YieldToReader(old(repository.rows), w, b).starting.None?
    {
      hide Apply;
      var row := repository.rows[b];
      var current := FirstItem(row, ItemRunning);
      if current.None? {
        return;
      }
      var owned := w.owned(b, current.value);
      if owned.NoGeneration? || !owned.known || !IsActiveTask(owned.status) {
        return;
      }
      if !row.yielded {
        MoreOps(repository.rows, SetYielded(b, true), [RequestPause(b, ByUser)]);
        OneOp(repository.rows, SetYielded(b, true));
        OneOp(Apply(repository.rows, SetYielded(b, true)), RequestPause(b, ByUser));
        repository.SetInteractiveYielded(b, true);
        if row.pauseReason == Some(ByUser) {
          repository.RequestPause(b, ByUser);
        }
      }
    }

    method FinishInteractiveYield(w: World, b: nat)
      requires b < |repository.rows| && starting.None?
      modifies this, repository
      ensures repository.rows == ApplyAll(old(repository.rows), FinishYield(old(repository.rows), w, b).ops)
      ensures starting == FinishYield(old(repository.rows), w, b).starting
    {
      hide Apply;
      var row := repository.rows[b];
      OneOp(repository.rows, SetYielded(b, false));
      var current := FirstItem(row, ItemRunning);
      if current.None? {
        current := FirstUnfinished(row, b, w);
      }
      if current.None? {
        repository.SetInteractiveYielded(b, false);
        return;
      }
      var owned := w.owned(b, current.value);
      if owned.NoGeneration? {
        repository.SetInteractiveYielded(b, false);
        return;
      }
      if owned.known && IsActiveTask(owned.status) {
        return;
      }
      if row.status == Paused || row.pauseReason == Some(ByUser) {
        repository.SetInteractiveYielded(b, false);
        return;
      }
      MoreOps(repository.rows, SetYielded(b, false), BatchScheduler.StartItem(w, b, current.value).ops);
      repository.SetInteractiveYielded(b, false);
      if owned.known && owned.status == TaskPaused {
        StartOrRetryItem(w, b, current.value);
      }
    }

    method RouteNewItem(w: World, b: nat, i: nat)
      requires b < |repository.rows| && i < |repository.rows[b].items| && starting.None?
      modifies this, repository
      ensures repository.rows == ApplyAll(old(repository.rows), RouteItem(w, b, i).ops)
      ensures starting == RouteItem(w, b, i).starting
    {
      if w.chapter(b, i) == TaskCompleted && w.clean(b, i) {
        EndItem(b, i, ItemSkipped);
        return;
      }
      if IsActiveTask(w.chapter(b, i)) {
        return;
      }
      StartOrRetryItem(w, b, i);
    }

    method StartOrRetryItem(w: World, b: nat, i: nat)
      requires b < |repository.rows| && starting.None?
      modifies this, repository
      ensures repository.rows == ApplyAll(old(repository.rows), BatchScheduler.StartItem(w, b, i).ops)
      ensures starting == BatchScheduler.StartItem(w, b, i).starting
    {
      if !w.configured {
        OneOp(repository.rows, PauseForConfig(b, i));
        repository.PauseForConfig(b, i);
        return;
      }
      starting := Some((b, i));
    }

    /** The rest of _start_or_retry_item, once the manager has answered. */
    method FinishStart(outcome: StartOutcome)
      requires starting.Some? && starting.value.0 < |repository.rows|
      requires starting.value.1 < |repository.rows[starting.value.0].items|
      modifies this, repository
      ensures repository.rows == ApplyAll(old(repository.rows),
                                          AfterStart(old(starting.value).0, old(starting.value).1, outcome))
      ensures starting == None
    {
      var (b, i) := starting.value;
      starting := None;
      match outcome
      case NotConfigured =>
        OneOp(repository.rows, PauseForConfig(b, i));
        repository.PauseForConfig(b, i);
      case StartFailed =>
        EndItem(b, i, ItemFailed);
      case Dispatched =>
        OneOp(repository.rows, ClearResume(b));
        repository.ClearResumeRequested(b);
    }

    method EndItem(b: nat, i: nat, outcome: ItemStatus)
      requires b < |repository.rows| && i < |repository.rows[b].items|
      modifies repository
      ensures repository.rows == ApplyAll(old(repository.rows), Ended(b, i, outcome))
    {
      hide Changed;
      EndedIs(repository.rows, b, i, outcome);
      repository.ClearResumeRequested(b);
      repository.FinishItem(b, i, outcome);
      repository.SettleAfterItem(b);
    }

    method ReconcileCurrent(w: World, b: nat, i: nat)
      requires b < |repository.rows| && i < |repository.rows[b].items| && starting.None?
      modifies this, repository
      ensures repository.rows == ApplyAll(old(repository.rows), ReconcileItem(old(repository.rows), w, b, i).ops)
      ensures starting == ReconcileItem(old(repository.rows), w, b, i).starting
    {
      hide Apply;
      var row := repository.rows[b];
      var owned := w.owned(b, i);
      if owned.NoGeneration? {
        RouteNewItem(w, b, i);
        return;
      }
      if !owned.known {
        OneOp(repository.rows, SetFailed(b));
        repository.SetBatchFailed(b);
        return;
      }
      match owned.status
      case TaskPreparing => StartOrRetryItem(w, b, i);
      case TaskQueued => StartOrRetryItem(w, b, i);
      case TaskRunning =>
        if row.resumeRequested {
          OneOp(repository.rows, ClearResume(b));
          repository.ClearResumeRequested(b);
        }
      case TaskStopping =>
      case TaskPaused =>
        if row.status == Paused {
          return;
        }
        if row.resumeRequested {
          StartOrRetryItem(w, b, i);
          return;
        }
        OneOp(repository.rows, SettleStopped(b, i));
        repository.SettleStoppedCurrent(b, i);
      case TaskCompleted => EndItem(b, i, ItemCompleted);
      case TaskCompletedWithErrors => EndItem(b, i, ItemFailed);
      case TaskFailed => EndItem(b, i, ItemFailed);
      case TaskAbsent =>
    }

    /** The user actions. */
    method Perform(w: World, action: Action) returns (result: Result<(), ActionError>)
      modifies repository
      ensures match Acted(old(repository.rows), w, action)
              case Err(e) => result == Err(e) && repository.rows == old(repository.rows)
              case Ok(ops) => result == Ok(()) && repository.rows == ApplyAll(old(repository.rows), ops)
    {
      hide Apply;
      result := Ok(());
      if action.Submit? {
        if HasOpenBatch(repository.rows, action.comic) {
          return Err(BatchExists);
        }
        if !w.configured {
          return Err(ServicesMissing);
        }
        if action.chapters == 0 {
          return Err(NoChapters);
        }
        OneOp(repository.rows, Create(action.comic, action.chapters));
        repository.CreateBatch(action.comic, action.chapters);
        return;
      }
      if action.b >= |repository.rows| {
        return Err(NotFound);
      }
      var b := action.b;
      var status := repository.rows[b].status;
      match action
      case Pause(_) =>
        if status in {Pausing, Paused} {
          return;
        }
        if status !in {Queued, Running} {
          return Err(NotPausable);
        }
        OneOp(repository.rows, RequestPause(b, ByUser));
        repository.RequestPause(b, ByUser);
      case Resume(_) =>
        if status in {Queued, Running} {
          return;
        }
        if status !in {Paused, Failed} {
          return Err(NotResumable);
        }
        if !w.configured {
          return Err(ServicesMissing);
        }
        OneOp(repository.rows, ResumeBatch(b));
        repository.ResumeBatch(b);
      case Cancel(_) =>
        if status == Cancelled {
          return;
        }
        if status !in {Queued, Running, Pausing, Paused, Cancelling} {
          return Err(NotCancellable);
        }
        var unfinished := Unfinished(repository.rows[b], b, w);
        OneOp(repository.rows, CancelPending(b, unfinished));
        repository.CancelPending(b, unfinished);
      case Retry(_) =>
        if status in {Queued, Running} {
          return;
        }
        if status != CompletedWithErrors {
          return Err(NothingFailed);
        }
        if !w.configured {
          return Err(ServicesMissing);
        }
        OneOp(repository.rows, RetryFailed(b));
        repository.RetryFailed(b);
      case Close(_) =>
        if status == Cancelled {
          return;
        }
        if status !in {CompletedWithErrors, Failed} {
          return Err(NotClosable);
        }
        OneOp(repository.rows, CloseFailed(b));
        repository.CloseFailedBatch(b);
    }
  }

  lemma EndedIs(rows: Rows, b: nat, i: nat, outcome: ItemStatus)
    ensures ApplyAll(rows, Ended(b, i, outcome))
              == Apply(Apply(Apply(rows, ClearResume(b)), FinishItem(b, i, outcome)), SettleAfterItem(b))
  {
    hide Apply;
    MoreOps(rows, ClearResume(b), [FinishItem(b, i, outcome), SettleAfterItem(b)]);
    MoreOps(Apply(rows, ClearResume(b)), FinishItem(b, i, outcome), [SettleAfterItem(b)]);
    OneOp(Apply(Apply(rows, ClearResume(b)), FinishItem(b, i, outcome)), SettleAfterItem(b));
  }
}
