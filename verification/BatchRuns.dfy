/** Safety of pre-translation batches over every run of the scheduler, the users and crashes
    (app/translation/pretranslation.py over app/repositories/pretranslation.py). */
module BatchRuns {
  import opened Common
  import opened BatchRows
  import opened BatchScheduler

  /** `starting` is the item whose chapter the scheduler is waiting to start. */
  datatype State = State(rows: Rows, starting: Option<(nat, nat)>)

  /** A tick or the end of a start may be cut short after `done` of its transactions, by an exception or
      a crash; an exception is followed by FailActive, a crash by Restart. */
  datatype Step =
    | Act(action: Action, world: World)
    | Ticked(world: World, done: nat)
    | ChapterStarted(outcome: StartOutcome, done: nat)
    | FailActive
    | Restart

  predicate Enabled(s: State, step: Step) {
    match step
    case Ticked(w, done) => s.starting.None? && done <= |Tick(s.rows, w).ops|
    case ChapterStarted(outcome, done) => s.starting.Some?
      && done <= |AfterStart(s.starting.value.0, s.starting.value.1, outcome)|
    case _ => true
  }

  function Next(s: State, step: Step): State
    requires Enabled(s, step)
  {
    match step
    case Act(action, w) =>
      (match Acted(s.rows, w, action)
       case Ok(ops) => s.(rows := ApplyAll(s.rows, ops))
       case Err(_) => s)
    case Ticked(w, done) =>
      var plan := Tick(s.rows, w);
      State(ApplyAll(s.rows, plan.ops[..done]), if done == |plan.ops| then plan.starting else None)
    case ChapterStarted(outcome, done) =>
      State(ApplyAll(s.rows, AfterStart(s.starting.value.0, s.starting.value.1, outcome)[..done]), None)
    case FailActive =>
      State(match Scheduled(s.rows) case Some(b) => Apply(s.rows, SetFailed(b)) case None => s.rows, None)
    case Restart => State(s.rows, None)
  }

  // ---------------------------------------------------------------- one transaction

  ghost predicate Outcome(status: ItemStatus) {
    status in {ItemCompleted, ItemSkipped, ItemFailed, ItemCancelled}
  }

  /** What the coordinator respects: it claims a batch only when none is running. */
  ghost predicate Permitted(rows: Rows, op: Op) {
    && (op.ClaimBatch? ==> forall b :: 0 <= b < |rows| ==> rows[b].status != Running)
    && (op.FinishItem? ==> Outcome(op.outcome))
  }

  /** Batches are only added, and what is closed stays closed. */
  ghost predicate AllFollow(rows: Rows, later: Rows) {
    |rows| <= |later| && forall b :: 0 <= b < |rows| ==> Follows(rows[b], later[b])
  }

  lemma {:induction false} TransactionKeeps(rows: Rows, op: Op)
    requires RowsOk(rows) && Permitted(rows, op)
    ensures RowsOk(Apply(rows, op)) && AllFollow(rows, Apply(rows, op))
  {
    hide Changed, Follows, RowsOk;
    forall b | 0 <= b < |rows|
      ensures Follows(rows[b], rows[b])
    {
      FollowsItself(rows[b]);
    }
    if op.Create? {
      CreationKeeps(rows, op.comic, op.chapters);
    } else if op.b < |rows| {
      ChangeFollows(rows[op.b], op);
      StaysClosed(rows[op.b], Changed(rows[op.b], op));
      ReplacementKeeps(rows, op.b, Changed(rows[op.b], op));
    }
  }

  lemma {:induction false} ReplacementKeeps(rows: Rows, b: nat, batch: Batch)
    requires RowsOk(rows) && b < |rows| && (BatchOk(rows[b]) ==> BatchOk(batch))
    requires batch.comic == rows[b].comic && (IsOpen(batch) ==> IsOpen(rows[b]))
    requires batch.status == Running ==>
               rows[b].status == Running || forall c :: 0 <= c < |rows| ==> rows[c].status != Running
    ensures RowsOk(rows[b := batch])
  {
    hide BatchOk, IsOpen;
  }

  lemma {:induction false} CreationKeeps(rows: Rows, comic: nat, chapters: nat)
    requires RowsOk(rows)
    ensures RowsOk(Apply(rows, Create(comic, chapters)))
  {
    hide Changed, BatchOk;
    FreshIsOk(Batch(comic, Queued, None, false, false, seq(chapters, _ => Item(ItemPending, 0))));
    assert HasOpenBatch(rows, comic) || forall b :: 0 <= b < |rows| && IsOpen(rows[b]) ==> rows[b].comic != comic;
  }

  lemma FollowsItself(batch: Batch)
    ensures Follows(batch, batch)
  {
  }

  lemma FreshIsOk(batch: Batch)
    requires batch.status == Queued
    ensures BatchOk(batch)
  {
  }

  lemma StaysClosed(batch: Batch, later: Batch)
    requires Follows(batch, later)
    ensures later.comic == batch.comic && (IsOpen(later) ==> IsOpen(batch))
  {
  }

  lemma {:induction false} FollowingIsTransitive(rows: Rows, later: Rows, last: Rows)
    requires AllFollow(rows, later) && AllFollow(later, last)
    ensures AllFollow(rows, last)
  {
    forall b | 0 <= b < |rows|
      ensures Follows(rows[b], last[b])
    {
      assert Follows(rows[b], later[b]) && Follows(later[b], last[b]);
    }
  }

  // ---------------------------------------------------------------- sequences of transactions

  ghost predicate Plain(op: Op) {
    !op.ClaimBatch? && (op.FinishItem? ==> Outcome(op.outcome))
  }

  ghost predicate AllPermitted(rows: Rows, ops: seq<Op>) {
    || (|ops| == 1 && Permitted(rows, ops[0]))
    || forall k :: 0 <= k < |ops| ==> Plain(ops[k])
  }

  lemma {:induction false} TransactionsKeep(rows: Rows, ops: seq<Op>)
    requires RowsOk(rows) && AllPermitted(rows, ops)
    ensures RowsOk(ApplyAll(rows, ops)) && AllFollow(rows, ApplyAll(rows, ops))
    decreases |ops|
  {
    hide RowsOk, Follows, Apply;
    if ops == [] {
      NothingFollows(rows);
    } else {
      TransactionKeeps(rows, ops[0]);
      TransactionsKeep(Apply(rows, ops[0]), ops[1..]);
      FollowingIsTransitive(rows, Apply(rows, ops[0]), ApplyAll(rows, ops));
    }
  }

  lemma NothingFollows(rows: Rows)
    ensures AllFollow(rows, rows)
  {
  }

  /** The transactions of ticks are only those of the scheduler. */
  ghost predicate Scheduling(ops: seq<Op>) {
    forall k :: 0 <= k < |ops| ==> Plain(ops[k]) && !ops[k].Create? && !ops[k].CancelPending?
  }

  lemma {:induction false} WorkIsScheduling(rows: Rows, w: World, b: nat)
    requires b < |rows|
    ensures Scheduling(Work(rows, w, b).ops)
  {
    hide FirstItem;
  }

  lemma {:induction false} YieldIsScheduling(rows: Rows, w: World, b: nat)
    requires b < |rows|
    ensures Scheduling(FinishYield(rows, w, b).ops) && Scheduling(YieldToReader(rows, w, b).ops)
  {
    hide FirstItem, FirstUnfinished;
  }

  /** A batch is claimed only when none is at work. */
  lemma {:induction false} TickIsPermitted(rows: Rows, w: World)
    ensures AllPermitted(rows, Tick(rows, w).ops)
    ensures forall op :: op in Tick(rows, w).ops ==> !op.Create? && !op.CancelPending?
  {
    hide Work, FinishYield, YieldToReader;
    forall b: nat | b < |rows|
      ensures Scheduling(Work(rows, w, b).ops) && Scheduling(FinishYield(rows, w, b).ops)
      ensures Scheduling(YieldToReader(rows, w, b).ops)
    {
      WorkIsScheduling(rows, w, b);
      YieldIsScheduling(rows, w, b);
    }
  }

  // ---------------------------------------------------------------- runs

  lemma {:induction false} StepKeeps(s: State, step: Step)
    requires RowsOk(s.rows) && Enabled(s, step)
    ensures RowsOk(Next(s, step).rows) && AllFollow(s.rows, Next(s, step).rows)
  {
    hide RowsOk, Tick, Follows, Scheduled;
    NothingFollows(s.rows);
    match step
    case Act(action, w) =>
      if Acted(s.rows, w, action).Ok? {
        TransactionsKeep(s.rows, Acted(s.rows, w, action).value);
      }
    case Ticked(w, done) =>
      TickIsPermitted(s.rows, w);
      TransactionsKeep(s.rows, Tick(s.rows, w).ops[..done]);
    case ChapterStarted(outcome, done) =>
      TransactionsKeep(s.rows, AfterStart(s.starting.value.0, s.starting.value.1, outcome)[..done]);
    case FailActive =>
      if Scheduled(s.rows).Some? {
        TransactionKeeps(s.rows, SetFailed(Scheduled(s.rows).value));
      }
    case Restart =>
  }

  ghost predicate IsRun(states: seq<State>, steps: seq<Step>) {
    && |states| == |steps| + 1 && states[0] == State([], None)
    && forall k :: 0 <= k < |steps| ==> Enabled(states[k], steps[k]) && states[k + 1] == Next(states[k], steps[k])
  }

  /** In every state of every run at most one batch runs, each comic has at most one open batch, a completed
      batch has nothing pending, running or failed and one with errors only something failed. */
  lemma {:induction false} RunsAreSafe(states: seq<State>, steps: seq<Step>, n: nat)
    requires IsRun(states, steps) && n < |states|
    ensures RowsOk(states[n].rows)
  {
    hide RowsOk, Next, Enabled;
    if n == 0 {
      NoRowsAreOk();
    } else {
      RunsAreSafe(states, steps, n - 1);
      StepKeeps(states[n - 1], steps[n - 1]);
    }
  }

  lemma NoRowsAreOk()
    ensures RowsOk([])
  {
  }

  /** Over every run closed batches and closed items stay as they are, no item is lost and no attempt forgotten. */
  lemma {:induction false} ClosedStaysClosed(states: seq<State>, steps: seq<Step>, m: nat, n: nat)
    requires IsRun(states, steps) && m <= n < |states|
    ensures AllFollow(states[m].rows, states[n].rows)
  {
    hide RowsOk, Next, Enabled, Follows;
    if m == n {
      NothingFollows(states[n].rows);
    } else {
      ClosedStaysClosed(states, steps, m, n - 1);
      RunsAreSafe(states, steps, n - 1);
      StepKeeps(states[n - 1], steps[n - 1]);
      FollowingIsTransitive(states[m].rows, states[n - 1].rows, states[n].rows);
    }
  }

  // ---------------------------------------------------------------- one chapter at a time

  ghost predicate OneRunningEach(rows: Rows) {
    forall b :: 0 <= b < |rows| ==> OneRunningItem(rows[b])
  }

  ghost predicate SafeCancels(rows: Rows, ops: seq<Op>) {
    && (forall k :: 0 <= k < |ops| && ops[k].FinishItem? ==> Outcome(ops[k].outcome))
    && (forall k :: 0 <= k < |ops| && ops[k].CancelPending? ==>
        k == 0 && |ops| == 1 && (ops[0].b < |rows| ==> CancelIsSafe(rows[ops[0].b], ops[0].unfinished)))
  }

  lemma {:induction false} TransactionsKeepOneRunning(rows: Rows, ops: seq<Op>)
    requires OneRunningEach(rows) && SafeCancels(rows, ops)
    ensures OneRunningEach(ApplyAll(rows, ops))
    decreases |ops|
  {
    hide CancelIsSafe, OneRunningItem, Changed;
    if ops != [] {
      if ops[0].Create? {
        NoneRunning(seq(ops[0].chapters, _ => Item(ItemPending, 0)), ops[0].comic);
      } else if ops[0].b < |rows| {
        ChangeKeepsOneRunningItem(rows[ops[0].b], ops[0]);
      }
      TransactionsKeepOneRunning(Apply(rows, ops[0]), ops[1..]);
    }
  }

  lemma NoneRunning(items: seq<Item>, comic: nat)
    requires forall k :: 0 <= k < |items| ==> items[k].status == ItemPending
    ensures OneRunningItem(Batch(comic, Queued, None, false, false, items))
  {
  }

  /** A cancellation is safe unless it revives a second chapter of a batch that made way for a reader. */
  ghost predicate CancelsSafely(s: State, step: Step) {
    step.Act? && step.action.Cancel? && step.action.b < |s.rows| ==>
      CancelIsSafe(s.rows[step.action.b], Unfinished(s.rows[step.action.b], step.action.b, step.world))
  }

  lemma {:induction false} StepKeepsOneRunning(s: State, step: Step)
    requires OneRunningEach(s.rows) && Enabled(s, step) && CancelsSafely(s, step)
    ensures OneRunningEach(Next(s, step).rows)
  {
    hide OneRunningEach, Tick, CancelIsSafe, Scheduled, ApplyAll;
    match step
    case Act(action, w) =>
      if Acted(s.rows, w, action).Ok? {
        TransactionsKeepOneRunning(s.rows, Acted(s.rows, w, action).value);
      }
    case Ticked(w, done) =>
      TickIsPermitted(s.rows, w);
      TransactionsKeepOneRunning(s.rows, Tick(s.rows, w).ops[..done]);
    case ChapterStarted(outcome, done) =>
      TransactionsKeepOneRunning(s.rows, AfterStart(s.starting.value.0, s.starting.value.1, outcome)[..done]);
    case FailActive =>
      if Scheduled(s.rows).Some? {
        var op := SetFailed(Scheduled(s.rows).value);
        OneTransaction(s.rows, op);
        TransactionsKeepOneRunning(s.rows, [op]);
      }
    case Restart =>
  }

  lemma OneTransaction(rows: Rows, op: Op)
    ensures ApplyAll(rows, [op]) == Apply(rows, op)
  {
    assert [op][1..] == [];
  }

  /** Over every run whose cancellations are safe, no batch works on two chapters. */
  lemma {:induction false} OneChapterAtATime(states: seq<State>, steps: seq<Step>, n: nat)
    requires IsRun(states, steps) && n < |states|
    requires forall k :: 0 <= k < |steps| ==> CancelsSafely(states[k], steps[k])
    ensures OneRunningEach(states[n].rows)
  {
    hide Next, Enabled, CancelsSafely;
    if n > 0 {
      OneChapterAtATime(states, steps, n - 1);
      StepKeepsOneRunning(states[n - 1], steps[n - 1]);
    }
  }

  // ---------------------------------------------------------------- order

  /** A tick claims the first pending chapter of the oldest batch at work, which is running, works on no
      other chapter and has not made way for a reader. */
  lemma {:induction false} ChaptersStartInOrder(rows: Rows, w: World, b: nat, i: nat)
    requires ClaimItem(b, i) in Tick(rows, w).ops
    ensures b < |rows| && rows[b].status == Running && i < |rows[b].items| && rows[b].items[i].status == ItemPending
    ensures forall j :: 0 <= j < |rows[b].items| ==> rows[b].items[j].status != ItemRunning
    ensures forall j :: 0 <= j < i ==> rows[b].items[j].status != ItemPending
    ensures forall c :: 0 <= c < b ==> !IsActive(rows[c])
    ensures !w.interactive && forall c :: 0 <= c < |rows| && IsOpen(rows[c]) ==> !rows[c].yielded
  {
  }

  // ---------------------------------------------------------------- what becomes of a cancellation

  predicate IsCancel(status: BatchStatus) {
    status == Cancelling || status == Cancelled
  }

  /** The two transactions that take a batch out of its cancellation. */
  predicate Overrides(op: Op, b: nat) {
    (op.PauseForConfig? && op.b == b) || op == SetFailed(b)
  }

  /** The step performs one of them on batch b. */
  ghost predicate LosesCancellation(s: State, step: Step, b: nat)
    requires Enabled(s, step)
  {
    match step
    case Act(_, _) => false
    case Ticked(w, done) => exists op :: op in Tick(s.rows, w).ops[..done] && Overrides(op, b)
    case ChapterStarted(outcome, done) => outcome == NotConfigured && done == 1 && s.starting.value.0 == b
    case FailActive => Scheduled(s.rows) == Some(b)
    case Restart => false
  }

  lemma {:induction false} ChangeKeepsCancellation(batch: Batch, op: Op, b: nat)
    requires !op.Create? && op.b == b && BatchOk(batch) && IsCancel(batch.status)
    requires op.RequestPause? ==> batch.status == Cancelled
    ensures !Overrides(op, b) ==> IsCancel(Changed(batch, op).status)
    ensures Overrides(op, b) ==> (IsCancel(Changed(batch, op).status) <==> batch.status == Cancelled)
  {
    hide HasItem;
  }

  /** Transactions none of which overrides the cancellation of b, or asks b for a pause. */
  lemma {:induction false} TransactionsKeepCancellation(rows: Rows, ops: seq<Op>, b: nat)
    requires b < |rows| && RowsOk(rows) && AllPermitted(rows, ops) && IsCancel(rows[b].status)
    requires forall op :: op in ops ==> !Overrides(op, b) && !(op.RequestPause? && op.b == b)
    ensures IsCancel(ApplyAll(rows, ops)[b].status)
    decreases |ops|
  {
    hide RowsOk, Changed, BatchOk, Overrides;
    if ops != [] {
      TransactionKeeps(rows, ops[0]);
      BatchIsOk(rows, b);
      if !ops[0].Create? && ops[0].b == b {
        ChangeKeepsCancellation(rows[b], ops[0], b);
      }
      assert forall op :: op in ops[1..] ==> op in ops;
      TransactionsKeepCancellation(Apply(rows, ops[0]), ops[1..], b);
    }
  }

  lemma BatchIsOk(rows: Rows, b: nat)
    requires RowsOk(rows) && b < |rows|
    ensures BatchOk(rows[b])
  {
  }

  /** Starting the chapter would pause batch b for its configuration. */
  predicate StartsUnconfigured(w: World, b: nat, i: nat) {
    !w.configured && !(w.chapter(b, i) == TaskCompleted && w.clean(b, i)) && !IsActiveTask(w.chapter(b, i))
  }

  /** What the manager shows of the current item of b when a tick takes b out of its cancellation. */
  predicate CurrentLoses(w: World, b: nat, i: nat) {
    match w.owned(b, i)
    case NoGeneration => StartsUnconfigured(w, b, i)
    case Generation(status, known) =>
      !known || (!w.configured && (status == TaskPreparing || status == TaskQueued))
  }

  /** The item that a tick finds in b when the reader has finished. */
  function Returning(rows: Rows, w: World, b: nat): Option<nat>
    requires b < |rows|
  {
    var running := FirstItem(rows[b], ItemRunning);
    if running.Some? then running else FirstUnfinished(rows[b], b, w)
  }

  /** Exactly when a tick would take the cancelling batch b out of its cancellation: the batch comes back from
      making way for a reader, or it is the one at work, its current chapter has to be started (again), and the
      services are not configured; or the generation of its current chapter is missing. */
  predicate TickLoses(rows: Rows, w: World, b: nat)
    requires b < |rows|
  {
    && !w.interactive
    && match YieldedBatch(rows)
       case Some(y) =>
         y == b && !w.configured && Returning(rows, w, b).Some?
           && w.owned(b, Returning(rows, w, b).value) == Generation(TaskPaused, true)
       case None =>
         Scheduled(rows) == Some(b) && FirstItem(rows[b], ItemRunning).Some?
           && CurrentLoses(w, b, FirstItem(rows[b], ItemRunning).value)
  }

  lemma {:induction false} WorkOverrides(rows: Rows, w: World, c: nat, b: nat)
    requires b < |rows| && c < |rows| && BatchOk(rows[b]) && rows[b].status == Cancelling
    ensures WorkFacts(rows, w, c, b)
  {
    hide FirstItem;
  }

  lemma {:induction false} YieldOverrides(rows: Rows, w: World, c: nat, b: nat)
    requires b < |rows| && c < |rows| && BatchOk(rows[b]) && rows[b].status == Cancelling
    ensures YieldFacts(rows, w, c, b)
  {
    hide FirstItem, FirstUnfinished;
  }

  /** A tick that overrides a cancellation does so with its last transaction, before which at most the yield ends. */
  lemma {:induction false} TickOverrides(rows: Rows, w: World, b: nat)
    requires b < |rows| && BatchOk(rows[b]) && rows[b].status == Cancelling
    ensures if TickLoses(rows, w, b)
            then exists op ::
              Overrides(op, b) && (Tick(rows, w).ops == [op] || Tick(rows, w).ops == [SetYielded(b, false), op])
            else forall op :: op in Tick(rows, w).ops ==> !Overrides(op, b)
    ensures forall op :: op in Tick(rows, w).ops ==> !(op.RequestPause? && op.b == b)
  {
    hide Work, FinishYield, YieldToReader, CurrentLoses, Returning, Overrides;
    var scheduled, yielded := Scheduled(rows), YieldedBatch(rows);
    NoOtherOverrides(b);
    if w.interactive {
      if scheduled.Some? {
        YieldOverrides(rows, w, scheduled.value, b);
      }
    } else if yielded.Some? {
      YieldOverrides(rows, w, yielded.value, b);
    } else if scheduled.Some? {
      WorkOverrides(rows, w, scheduled.value, b);
    }
  }

  lemma NoOtherOverrides(b: nat)
    ensures forall c, i {:trigger PauseForConfig(c, i)} :: Overrides(PauseForConfig(c, i), b) <==> c == b
    ensures forall c {:trigger SetFailed(c)} :: Overrides(SetFailed(c), b) <==> c == b
    ensures forall c {:trigger ClaimBatch(c)} :: !Overrides(ClaimBatch(c), b)
  {
  }

  ghost predicate WorkFacts(rows: Rows, w: World, c: nat, b: nat)
    requires c < |rows|
  {
    && (forall op :: op in Work(rows, w, c).ops ==> !op.RequestPause?)
    && var i := FirstItem(rows[c], ItemRunning);
       if c == b && i.Some? && CurrentLoses(w, b, i.value)
       then Work(rows, w, c).ops == [PauseForConfig(b, i.value)] || Work(rows, w, c).ops == [SetFailed(b)]
       else forall op :: op in Work(rows, w, c).ops ==> !Overrides(op, b)
  }

  ghost predicate YieldFacts(rows: Rows, w: World, c: nat, b: nat)
    requires c < |rows|
  {
    && (forall op :: op in FinishYield(rows, w, c).ops ==> !op.RequestPause?)
    && (forall op :: op in YieldToReader(rows, w, c).ops ==> !Overrides(op, b) && !(op.RequestPause? && op.b == b))
    && var i := Returning(rows, w, c);
       if c == b && !w.configured && i.Some? && w.owned(b, i.value) == Generation(TaskPaused, true)
       then FinishYield(rows, w, c).ops == [SetYielded(b, false), PauseForConfig(b, i.value)]
       else forall op :: op in FinishYield(rows, w, c).ops ==> !Overrides(op, b)
  }

  /** The last transaction of a tick overrides the cancellation, unless the tick is cut short before it. */
  lemma {:induction false} OverriddenByTick(rows: Rows, w: World, b: nat, done: nat)
    requires b < |rows| && BatchOk(rows[b]) && rows[b].status == Cancelling && TickLoses(rows, w, b)
    requires done == |Tick(rows, w).ops|
    ensures !IsCancel(ApplyAll(rows, Tick(rows, w).ops[..done])[b].status)
  {
    TickOverrides(rows, w, b);
    hide Tick, Overrides, TickLoses;
    var ops := Tick(rows, w).ops;
    var op :| Overrides(op, b) && (ops == [op] || ops == [SetYielded(b, false), op]);
    assert ops[..done] == ops;
    if ops == [op] {
      OneTransaction(rows, op);
      ChangeKeepsCancellation(rows[b], op, b);
    } else {
      assert ops[1..] == [op];
      var u := Apply(rows, SetYielded(b, false));
      OneTransaction(u, op);
      assert u[b] == rows[b].(yielded := false);
      ChangeKeepsCancellation(u[b], op, b);
    }
  }

  /** From a cancelling batch every step leads to a cancelling or cancelled one, unless it performs an override. */
  lemma {:induction false} CancellationFate(s: State, step: Step, b: nat)
    requires RowsOk(s.rows) && Enabled(s, step) && b < |s.rows| && s.rows[b].status == Cancelling
    ensures IsCancel(Next(s, step).rows[b].status) <==> !LosesCancellation(s, step, b)
  {
    BatchIsOk(s.rows, b);
    hide RowsOk, BatchOk, Tick, Overrides, Scheduled, Changed, TickLoses;
    NoOtherOverrides(b);
    match step
    case Act(action, w) =>
      if Acted(s.rows, w, action).Ok? {
        TransactionsKeepCancellation(s.rows, Acted(s.rows, w, action).value, b);
      }
    case Ticked(w, done) => TickFate(s.rows, w, b, done);
    case ChapterStarted(outcome, done) => StartFate(s.rows, s.starting.value.0, s.starting.value.1, outcome, done, b);
    case FailActive => FailureFate(s.rows, b);
    case Restart =>
  }

  lemma {:induction false} TickFate(rows: Rows, w: World, b: nat, done: nat)
    requires RowsOk(rows) && b < |rows| && rows[b].status == Cancelling && done <= |Tick(rows, w).ops|
    ensures IsCancel(ApplyAll(rows, Tick(rows, w).ops[..done])[b].status)
            <==> !exists op :: op in Tick(rows, w).ops[..done] && Overrides(op, b)
    ensures (exists op :: op in Tick(rows, w).ops[..done] && Overrides(op, b)) <==>
              TickLoses(rows, w, b) && done == |Tick(rows, w).ops|
  {
    BatchIsOk(rows, b);
    TickOverrides(rows, w, b);
    TickIsPermitted(rows, w);
    hide RowsOk, BatchOk, Tick, Overrides, TickLoses, ApplyAll;
    var ops := Tick(rows, w).ops;
    if TickLoses(rows, w, b) && done == |ops| {
      OverriddenByTick(rows, w, b, done);
      assert ops[..done] == ops && ops[|ops| - 1] in ops;
    } else {
      TransactionsKeepCancellation(rows, ops[..done], b);
    }
  }

  lemma {:induction false} StartFate(rows: Rows, c: nat, i: nat, outcome: StartOutcome, done: nat, b: nat)
    requires RowsOk(rows) && b < |rows| && rows[b].status == Cancelling && done <= |AfterStart(c, i, outcome)|
    ensures IsCancel(ApplyAll(rows, AfterStart(c, i, outcome)[..done])[b].status) <==>
              !(outcome == NotConfigured && done == 1 && c == b)
  {
    BatchIsOk(rows, b);
    hide RowsOk, BatchOk, Changed;
    var ops := AfterStart(c, i, outcome)[..done];
    if outcome == NotConfigured && done == 1 && c == b {
      assert ops == [PauseForConfig(b, i)];
      OneTransaction(rows, ops[0]);
      ChangeKeepsCancellation(rows[b], ops[0], b);
    } else {
      TransactionsKeepCancellation(rows, ops, b);
    }
  }

  lemma {:induction false} FailureFate(rows: Rows, b: nat)
    requires RowsOk(rows) && b < |rows| && rows[b].status == Cancelling
    ensures var later := match Scheduled(rows) case Some(c) => Apply(rows, SetFailed(c)) case None => rows;
            |later| == |rows| && (IsCancel(later[b].status) <==> Scheduled(rows) != Some(b))
  {
    BatchIsOk(rows, b);
    hide RowsOk, BatchOk, Changed;
    ChangeKeepsCancellation(rows[b], SetFailed(b), b);
  }

  /** In terms of what can be seen before the step. */
  ghost predicate LossForeseen(s: State, step: Step, b: nat)
    requires b < |s.rows| && Enabled(s, step)
  {
    match step
    case Act(_, _) => false
    case Ticked(w, done) => TickLoses(s.rows, w, b) && done == |Tick(s.rows, w).ops|
    case ChapterStarted(outcome, done) => outcome == NotConfigured && done == 1 && s.starting.value.0 == b
    case FailActive => Scheduled(s.rows) == Some(b)
    case Restart => false
  }

  /** A cancellation is lost exactly in these cases, in every state of every run. */
  lemma {:induction false} CancellationIsLostIff(states: seq<State>, steps: seq<Step>, n: nat, step: Step, b: nat)
    requires IsRun(states, steps) && n < |states| && Enabled(states[n], step)
    requires b < |states[n].rows| && states[n].rows[b].status == Cancelling
    ensures IsCancel(Next(states[n], step).rows[b].status) <==> !LossForeseen(states[n], step, b)
  {
    RunsAreSafe(states, steps, n);
    CancellationFate(states[n], step, b);
    if step.Ticked? {
      TickFate(states[n].rows, step.world, b, step.done);
    }
    hide RowsOk, Tick, Next, TickLoses;
  }

  /** In particular, when it arrives while a chapter is being started: it takes effect unless the start ends
      in a configuration error, which pauses the batch with that chapter pending again. */
  lemma {:induction false} CancelDuringStart(rows: Rows, b: nat, i: nat, outcome: StartOutcome)
    requires b < |rows| && i < |rows[b].items| && rows[b].status == Cancelling && rows[b].items[i].status == ItemRunning
    ensures var after := ApplyAll(rows, AfterStart(b, i, outcome))[b];
            && (after.status in {Cancelling, Cancelled} <==> outcome != NotConfigured)
            && (after.status == Cancelled <==> outcome == StartFailed)
            && (outcome == NotConfigured ==> after.status == Paused && after.items[i].status == ItemPending)
  {
    var ops := AfterStart(b, i, outcome);
    if outcome == StartFailed {
      assert ops[1..][1..] == [SettleAfterItem(b)];
      assert ops[1..] == [FinishItem(b, i, ItemFailed), SettleAfterItem(b)];
      OneTransaction(Apply(Apply(rows, ops[0]), ops[1]), ops[2]);
    } else {
      OneTransaction(rows, ops[0]);
    }
  }
}
