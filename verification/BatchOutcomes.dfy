/** That the items of a pre-translation batch end as their chapters do: in every run an item is completed, skipped,
    failed or cancelled only for what the scheduler has seen of its chapter, or by the user. */
module BatchOutcomes {
  import opened Common
  import opened BatchRows
  import opened BatchScheduler
  import opened BatchRuns

  ghost predicate IsItem(rows: Rows, b: nat, i: nat) {
    b < |rows| && i < |rows[b].items|
  }

  /** The item has this status, and has not had it before. */
  ghost predicate Becomes(rows: Rows, later: Rows, b: nat, i: nat, status: ItemStatus) {
    IsItem(rows, b, i) && IsItem(later, b, i) && rows[b].items[i].status != status && later[b].items[i].status == status
  }

  // ---------------------------------------------------------------- which transactions end an item

  /** The transactions that can leave an item with this status. */
  ghost predicate Gives(op: Op, b: nat, i: nat, status: ItemStatus) {
    || op == FinishItem(b, i, status)
    || (status == ItemCancelled && ((op.CancelPending? && op.b == b) || op == SettleStopped(b, i)))
  }

  ghost predicate IsEnd(status: ItemStatus) {
    status in {ItemCompleted, ItemSkipped, ItemFailed, ItemCancelled}
  }

  lemma {:induction false} OpGives(rows: Rows, op: Op, b: nat, i: nat, status: ItemStatus)
    requires IsEnd(status) && Becomes(rows, Apply(rows, op), b, i, status)
    ensures Gives(op, b, i, status)
  {
    hide HasItem;
  }

  lemma {:induction false} OpsGive(rows: Rows, ops: seq<Op>, b: nat, i: nat, status: ItemStatus)
    requires IsEnd(status) && Becomes(rows, ApplyAll(rows, ops), b, i, status)
    ensures exists op :: op in ops && Gives(op, b, i, status)
    decreases |ops|
  {
    hide Apply, Gives;
    if ops != [] {
      var later := Apply(rows, ops[0]);
      if later[b].items[i].status == status {
        OpGives(rows, ops[0], b, i, status);
        assert ops[0] in ops;
      } else {
        OpsGive(later, ops[1..], b, i, status);
        var op :| op in ops[1..] && Gives(op, b, i, status);
        assert op in ops;
      }
    }
  }

  // ---------------------------------------------------------------- what a tick must have seen

  /** What the translation manager shows when an item ends with this status. */
  ghost predicate IsEarned(w: World, b: nat, i: nat, status: ItemStatus) {
    match status
    case ItemCompleted => w.owned(b, i) == Generation(TaskCompleted, true)
    case ItemFailed => w.owned(b, i) in {Generation(TaskCompletedWithErrors, true), Generation(TaskFailed, true)}
    case ItemSkipped => w.chapter(b, i) == TaskCompleted && w.clean(b, i)
    case ItemCancelled => w.owned(b, i) == Generation(TaskPaused, true)
    case _ => true
  }

  ghost predicate AllEarned(w: World, ops: seq<Op>) {
    forall op :: op in ops ==>
      && !op.CancelPending?
      && (op.FinishItem? ==> op.outcome != ItemCancelled && IsEarned(w, op.b, op.i, op.outcome))
      && (op.SettleStopped? ==> IsEarned(w, op.b, op.i, ItemCancelled))
  }

  lemma {:induction false} TickIsEarned(rows: Rows, w: World)
    ensures AllEarned(w, Tick(rows, w).ops)
  {
    hide YieldToReader, FinishYield, Work, AllEarned;
    NothingIsEarned(w);
    var scheduled, yielded := Scheduled(rows), YieldedBatch(rows);
    if scheduled.Some? {
      WorkIsEarned(rows, w, scheduled.value);
      ReadingEarnsNothing(rows, w, scheduled.value);
    }
    if yielded.Some? {
      ReadingEarnsNothing(rows, w, yielded.value);
    }
  }

  lemma NothingIsEarned(w: World)
    ensures AllEarned(w, []) && forall b :: AllEarned(w, [ClaimBatch(b)])
  {
  }

  lemma WorkIsEarned(rows: Rows, w: World, b: nat)
    requires b < |rows|
    ensures AllEarned(w, Work(rows, w, b).ops)
  {
    hide FirstItem;
  }

  lemma ReadingEarnsNothing(rows: Rows, w: World, b: nat)
    requires b < |rows|
    ensures AllEarned(w, YieldToReader(rows, w, b).ops) && AllEarned(w, FinishYield(rows, w, b).ops)
  {
    hide FirstItem, FirstUnfinished;
  }

  /** The converse: a tick at work on an item that is running ends it as its generation has ended. */
  lemma {:induction false} TickEndsItem(rows: Rows, w: World, b: nat, i: nat)
    requires !w.interactive && YieldedBatch(rows).None? && Scheduled(rows) == Some(b) && b < |rows|
    requires rows[b].status != Queued && FirstItem(rows[b], ItemRunning) == Some(i)
    ensures i < |rows[b].items| && b < |ApplyAll(rows, Tick(rows, w).ops)|
    ensures i < |ApplyAll(rows, Tick(rows, w).ops)[b].items|
    ensures w.owned(b, i).Generation? && w.owned(b, i).known ==>
              var status := ApplyAll(rows, Tick(rows, w).ops)[b].items[i].status;
              && (w.owned(b, i).status == TaskCompleted ==> status == ItemCompleted)
              && (w.owned(b, i).status in {TaskCompletedWithErrors, TaskFailed} ==> status == ItemFailed)
  {
    assert Tick(rows, w) == ReconcileItem(rows, w, b, i);
    hide Tick, Scheduled, YieldedBatch, FirstItem, HasItem;
    EndedEnds(rows, b, i, ItemCompleted);
    EndedEnds(rows, b, i, ItemFailed);
  }

  lemma EndedEnds(rows: Rows, b: nat, i: nat, outcome: ItemStatus)
    requires IsItem(rows, b, i) && rows[b].items[i].status == ItemRunning
    ensures var later := ApplyAll(rows, Ended(b, i, outcome));
            IsItem(later, b, i) && later[b].items[i].status == outcome
  {
    var first := Apply(rows, ClearResume(b));
    var second := Apply(first, FinishItem(b, i, outcome));
    assert ApplyAll(second, [SettleAfterItem(b)]) == Apply(second, SettleAfterItem(b)) by {
      assert [SettleAfterItem(b)][1..] == [];
    }
    assert Ended(b, i, outcome)[1..] == [FinishItem(b, i, outcome), SettleAfterItem(b)];
    assert [FinishItem(b, i, outcome), SettleAfterItem(b)][1..] == [SettleAfterItem(b)];
    hide HasItem;
  }

  // ---------------------------------------------------------------- every step of a run

  /** In every step of every run: an item is completed only by a tick that has seen its generation completed, skipped
      only by one that has seen its chapter completed without a failure, failed only by one that has seen its
      generation end with errors, or because its chapter could not be started, and cancelled only by the user or by a
      tick that has seen its generation paused. */
  lemma {:induction false} OutcomesAreEarned(s: State, step: Step, b: nat, i: nat, status: ItemStatus)
    requires Enabled(s, step) && IsEnd(status) && Becomes(s.rows, Next(s, step).rows, b, i, status)
    ensures match step
            case Ticked(w, _) => IsEarned(w, b, i, status)
            case ChapterStarted(outcome, _) =>
              status == ItemFailed && outcome == StartFailed && s.starting == Some((b, i))
            case Act(action, _) => status == ItemCancelled && action == Action.Cancel(b)
            case _ => false
  {
    hide Apply, Tick;
    match step
    case Ticked(w, done) =>
      OpsGive(s.rows, Tick(s.rows, w).ops[..done], b, i, status);
      var op :| op in Tick(s.rows, w).ops[..done] && Gives(op, b, i, status);
      assert op in Tick(s.rows, w).ops;
      TickIsEarned(s.rows, w);
    case ChapterStarted(outcome, done) =>
      var ops := AfterStart(s.starting.value.0, s.starting.value.1, outcome);
      OpsGive(s.rows, ops[..done], b, i, status);
      var op :| op in ops[..done] && Gives(op, b, i, status);
      assert op in ops;
    case Act(action, w) =>
      if Acted(s.rows, w, action).Ok? {
        OpsGive(s.rows, Acted(s.rows, w, action).value, b, i, status);
      }
    case FailActive =>
      if Scheduled(s.rows).Some? {
        OpGives(s.rows, SetFailed(Scheduled(s.rows).value), b, i, status);
      }
    case Restart =>
  }
}
