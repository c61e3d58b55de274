/** What the coordinator of app/translation/pretranslation.py decides: the transactions of one scheduler
    tick, up to the point where it waits for a chapter to start, and those of each user action. */
module BatchScheduler {
  import opened Common
  import opened BatchRows

  datatype TaskStatus =
    | TaskPreparing | TaskQueued | TaskRunning | TaskStopping | TaskPaused | TaskCompleted
    | TaskCompletedWithErrors | TaskFailed | TaskAbsent

  /** The generation an item owns, if any; `known` says whether the manager still finds it. */
  datatype Owned = NoGeneration | Generation(status: TaskStatus, known: bool)

  /** What a tick sees of the translation manager. `clean` tells chapters translated without failures. */
  datatype World = World(interactive: bool, configured: bool, owned: (nat, nat) -> Owned,
                         chapter: (nat, nat) -> TaskStatus, clean: (nat, nat) -> bool)

  /** The transactions a tick runs, and the item whose chapter it then waits to start. */
  datatype Plan = Plan(ops: seq<Op>, starting: Option<(nat, nat)>)

  predicate IsActiveTask(status: TaskStatus) {
    status in {TaskPreparing, TaskQueued, TaskRunning, TaskStopping}
  }

  predicate IsUnfinished(owned: Owned) {
    owned.Generation? && (IsActiveTask(owned.status) || owned.status == TaskPaused)
  }

  predicate IsActive(batch: Batch) {
    batch.status in {Running, Pausing, Cancelling}
  }

  // ---------------------------------------------------------------- choices

  /** The first place of the `n` first ones that satisfies `p`. */
  function First(n: nat, p: nat -> bool): (found: Option<nat>)
    ensures match found
            case Some(k) => k < n && p(k) && forall j: nat :: j < k ==> !p(j)
            case None => forall j: nat :: j < n ==> !p(j)
  {
    if n == 0 then None
    else
      var earlier := First(n - 1, p);
      if earlier.Some? then earlier else if p(n - 1) then Some(n - 1) else None
  }

  /** The oldest batch at work, or else the oldest one waiting. */
  function Scheduled(rows: Rows): (found: Option<nat>)
    ensures match found
            case None => forall b: nat :: b < |rows| ==> !IsActive(rows[b]) && rows[b].status != Queued
            case Some(b) =>
              && b < |rows|
              && if IsActive(rows[b]) then forall c: nat :: c < b ==> !IsActive(rows[c])
                 else
                   && rows[b].status == Queued && (forall c: nat :: c < |rows| ==> !IsActive(rows[c]))
                   && forall c: nat :: c < b ==> rows[c].status != Queued
  {
    var isActive := (b: nat) => b < |rows| && IsActive(rows[b]);
    var isQueued := (b: nat) => b < |rows| && rows[b].status == Queued;
    var active := First(|rows|, isActive);
    assert forall b: nat :: b < |rows| ==>
             isActive(b) == IsActive(rows[b]) && isQueued(b) == (rows[b].status == Queued);
    if active.Some? then active else First(|rows|, isQueued)
  }

  /** The oldest open batch that made way for a reader. */
  function YieldedBatch(rows: Rows): (found: Option<nat>)
    ensures match found
            case None => forall b: nat :: b < |rows| ==> !(rows[b].yielded && IsOpen(rows[b]))
            case Some(b) =>
              && b < |rows| && rows[b].yielded && IsOpen(rows[b])
              && forall c: nat :: c < b ==> !(rows[c].yielded && IsOpen(rows[c]))
  {
    var isYielded := (b: nat) => b < |rows| && rows[b].yielded && IsOpen(rows[b]);
    assert forall b: nat :: b < |rows| ==> isYielded(b) == (rows[b].yielded && IsOpen(rows[b]));
    First(|rows|, isYielded)
  }

  function FirstItem(batch: Batch, status: ItemStatus): (found: Option<nat>)
    ensures match found
            case None => forall i: nat :: i < |batch.items| ==> batch.items[i].status != status
            case Some(i) =>
              && i < |batch.items| && batch.items[i].status == status
              && forall j: nat :: j < i ==> batch.items[j].status != status
  {
    var isSuch := (i: nat) => i < |batch.items| && batch.items[i].status == status;
    assert forall i: nat :: i < |batch.items| ==> isSuch(i) == (batch.items[i].status == status);
    First(|batch.items|, isSuch)
  }

  predicate WaitsUnfinished(batch: Batch, b: nat, w: World, i: nat)
    requires i < |batch.items|
  {
    IsWaiting(batch.items[i].status) && IsUnfinished(w.owned(b, i))
  }

  function FirstUnfinished(batch: Batch, b: nat, w: World): (found: Option<nat>)
    ensures match found
            case None => forall i: nat :: i < |batch.items| ==> !WaitsUnfinished(batch, b, w, i)
            case Some(i) =>
              && i < |batch.items| && WaitsUnfinished(batch, b, w, i)
              && forall j: nat :: j < i ==> !WaitsUnfinished(batch, b, w, j)
  {
    var isSuch := (i: nat) => i < |batch.items| && WaitsUnfinished(batch, b, w, i);
    assert forall i: nat :: i < |batch.items| ==> isSuch(i) == WaitsUnfinished(batch, b, w, i);
    First(|batch.items|, isSuch)
  }

  // ---------------------------------------------------------------- a tick

  /** _start_or_retry_item up to its await. */
  function StartItem(w: World, b: nat, i: nat): Plan {
    if !w.configured then Plan([PauseForConfig(b, i)], None) else Plan([], Some((b, i)))
  }

  function Ended(b: nat, i: nat, outcome: ItemStatus): seq<Op> {
    [ClearResume(b), FinishItem(b, i, outcome), SettleAfterItem(b)]
  }

  /** _route_new_item. */
  function RouteItem(w: World, b: nat, i: nat): Plan {
    if w.chapter(b, i) == TaskCompleted && w.clean(b, i) then Plan(Ended(b, i, ItemSkipped), None)
    else if IsActiveTask(w.chapter(b, i)) then Plan([], None)
    else StartItem(w, b, i)
  }

  /** _reconcile_current. */
  function ReconcileItem(rows: Rows, w: World, b: nat, i: nat): Plan
    requires b < |rows|
  {
    if w.owned(b, i).NoGeneration? then RouteItem(w, b, i)
    else if !w.owned(b, i).known then Plan([SetFailed(b)], None)
    else match w.owned(b, i).status
      case TaskPreparing => StartItem(w, b, i)
      case TaskQueued => StartItem(w, b, i)
      case TaskRunning => Plan(if rows[b].resumeRequested then [ClearResume(b)] else [], None)
      case TaskStopping => Plan([], None)
      case TaskPaused =>
        if rows[b].status == Paused then Plan([], None)
        else if rows[b].resumeRequested then StartItem(w, b, i)
        else Plan([SettleStopped(b, i)], None)
      case TaskCompleted => Plan(Ended(b, i, ItemCompleted), None)
      case TaskCompletedWithErrors => Plan(Ended(b, i, ItemFailed), None)
      case TaskFailed => Plan(Ended(b, i, ItemFailed), None)
      case TaskAbsent => Plan([], None)
  }

  /** _yield_to_interactive: a reader translates, so the current chapter is asked to stop. */
  function YieldToReader(rows: Rows, w: World, b: nat): Plan
    requires b < |rows|
  {
    match FirstItem(rows[b], ItemRunning)
    case None => Plan([], None)
    case Some(i) =>
      if w.owned(b, i).NoGeneration? || !w.owned(b, i).known || !IsActiveTask(w.owned(b, i).status) || rows[b].yielded
        then Plan([], None)
      else Plan([SetYielded(b, true)] + if rows[b].pauseReason == Some(ByUser) then [RequestPause(b, ByUser)] else [],
                None)
  }

  /** _finish_interactive_yield. */
  function FinishYield(rows: Rows, w: World, b: nat): Plan
    requires b < |rows|
  {
    var running := FirstItem(rows[b], ItemRunning);
    var current := if running.Some? then running else FirstUnfinished(rows[b], b, w);
    var over := [SetYielded(b, false)];
    match current
    case None => Plan(over, None)
    case Some(i) =>
      if w.owned(b, i).NoGeneration? then Plan(over, None)
      else if w.owned(b, i).known && IsActiveTask(w.owned(b, i).status) then Plan([], None)
      else if rows[b].status == Paused || rows[b].pauseReason == Some(ByUser) then Plan(over, None)
      else if w.owned(b, i).known && w.owned(b, i).status == TaskPaused then
        var start := StartItem(w, b, i);
        Plan(over + start.ops, start.starting)
      else Plan(over, None)
  }

  /** _tick once a batch is at work. */
  function Work(rows: Rows, w: World, b: nat): Plan
    requires b < |rows|
  {
    match FirstItem(rows[b], ItemRunning)
    case Some(i) => ReconcileItem(rows, w, b, i)
    case None =>
      if rows[b].status in {Pausing, Cancelling} then Plan([SettleAfterItem(b)], None)
      else if rows[b].status != Running then Plan([], None)
      else match FirstItem(rows[b], ItemPending)
        case None => Plan([SettleAfterItem(b)], None)
        case Some(i) =>
          var route := RouteItem(w, b, i);
          Plan([ClaimItem(b, i)] + route.ops, route.starting)
  }

  function Tick(rows: Rows, w: World): Plan {
    var scheduled := Scheduled(rows);
    if w.interactive then
      (match scheduled case None => Plan([], None) case Some(b) => YieldToReader(rows, w, b))
    else match YieldedBatch(rows)
      case Some(y) => FinishYield(rows, w, y)
      case None =>
        match scheduled
        case None => Plan([], None)
        case Some(b) => if rows[b].status == Queued then Plan([ClaimBatch(b)], None) else Work(rows, w, b)
  }

  datatype StartOutcome = Dispatched | NotConfigured | StartFailed

  /** The rest of _start_or_retry_item, when the chapter has been started or has failed to. */
  function AfterStart(b: nat, i: nat, outcome: StartOutcome): seq<Op> {
    match outcome
    case Dispatched => [ClearResume(b)]
    case NotConfigured => [PauseForConfig(b, i)]
    case StartFailed => Ended(b, i, ItemFailed)
  }

  // ---------------------------------------------------------------- user actions

  datatype Action =
    | Submit(comic: nat, chapters: nat) | Pause(b: nat) | Resume(b: nat) | Cancel(b: nat) | Retry(b: nat)
    | Close(b: nat)

  datatype ActionError =
    | NotFound | NotPausable | NotResumable | NotCancellable | NothingFailed | NotClosable | BatchExists
    | ServicesMissing | NoChapters

  /** The transactions of a user action, none when the batch already is as asked. */
  function Acted(rows: Rows, w: World, action: Action): Result<seq<Op>, ActionError> {
    if action.Submit? then
      if HasOpenBatch(rows, action.comic) then Err(BatchExists)
      else if !w.configured then Err(ServicesMissing)
      else if action.chapters == 0 then Err(NoChapters)
      else Ok([Create(action.comic, action.chapters)])
    else if action.b >= |rows| then Err(NotFound)
    else
      var b := action.b;
      var status := rows[b].status;
      match action
      case Pause(_) =>
        if status in {Pausing, Paused} then Ok([])
        else if status !in {Queued, Running} then Err(NotPausable)
        else Ok([RequestPause(b, ByUser)])
      case Resume(_) =>
        if status in {Queued, Running} then Ok([])
        else if status !in {Paused, Failed} then Err(NotResumable)
        else if !w.configured then Err(ServicesMissing)
        else Ok([ResumeBatch(b)])
      case Cancel(_) =>
        if status == Cancelled then Ok([])
        else if status !in {Queued, Running, Pausing, Paused, Cancelling} then Err(NotCancellable)
        else Ok([CancelPending(b, Unfinished(rows[b], b, w))])
      case Retry(_) =>
        if status in {Queued, Running} then Ok([])
        else if status != CompletedWithErrors then Err(NothingFailed)
        else if !w.configured then Err(ServicesMissing)
        else Ok([RetryFailed(b)])
      case Close(_) =>
        if status == Cancelled then Ok([])
        else if status !in {CompletedWithErrors, Failed} then Err(NotClosable)
        else Ok([CloseFailed(b)])
  }

  function Unfinished(batch: Batch, b: nat, w: World): set<nat> {
    set i: nat | i < |batch.items| && IsUnfinished(w.owned(b, i))
  }
}
