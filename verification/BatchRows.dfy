/** The batch and item rows of app/repositories/pretranslation.py, and what each of its transactions
    does to them. A batch is named by its place in creation order, an item by its position. */
module BatchRows {
  import opened Common

  datatype BatchStatus =
    Queued | Running | Pausing | Paused | Cancelling | Completed | CompletedWithErrors | Cancelled | Failed

  datatype ItemStatus = ItemPending | ItemRunning | ItemCompleted | ItemSkipped | ItemFailed | ItemCancelled

  datatype PauseReason = ByUser | ByConfig

  datatype Item = Item(status: ItemStatus, attempts: nat)

  datatype Batch = Batch(comic: nat, status: BatchStatus, pauseReason: Option<PauseReason>, yielded: bool,
                         resumeRequested: bool, items: seq<Item>)

  type Rows = seq<Batch>

  /** One transaction; `unfinished` are the items whose generation has not finished. */
  datatype Op =
    | Create(comic: nat, chapters: nat)
    | ClaimBatch(b: nat)
    | ClaimItem(b: nat, i: nat)
    | FinishItem(b: nat, i: nat, outcome: ItemStatus)
    | RequestPause(b: nat, reason: PauseReason)
    | PauseForConfig(b: nat, i: nat)
    | SettleStopped(b: nat, i: nat)
    | ResumeBatch(b: nat)
    | CancelPending(b: nat, unfinished: set<nat>)
    | RetryFailed(b: nat)
    | CloseFailed(b: nat)
    | SetYielded(b: nat, value: bool)
    | ClearResume(b: nat)
    | SetFailed(b: nat)
    | SettleAfterItem(b: nat)

  predicate IsOpen(batch: Batch) {
    batch.status != Completed && batch.status != Cancelled
  }

  predicate IsClosedItem(status: ItemStatus) {
    status.ItemCompleted? || status.ItemSkipped? || status.ItemCancelled?
  }

  predicate IsWaiting(status: ItemStatus) {
    status.ItemPending? || status.ItemRunning?
  }

  predicate HasItem(batch: Batch, status: ItemStatus) {
    exists k :: 0 <= k < |batch.items| && batch.items[k].status == status
  }

  predicate HasOpenBatch(rows: Rows, comic: nat) {
    exists b :: 0 <= b < |rows| && rows[b].comic == comic && IsOpen(rows[b])
  }

  // ---------------------------------------------------------------- items

  /** The items with the status `to` wherever `from` is now. */
  function Moved(items: seq<Item>, from: ItemStatus, to: ItemStatus): (moved: seq<Item>)
    ensures |moved| == |items|
    ensures forall k :: 0 <= k < |items| ==>
              moved[k] == if items[k].status == from then items[k].(status := to) else items[k]
  {
    if items == [] then []
    else
      var last := items[|items| - 1];
      Moved(items[..|items| - 1], from, to) + [if last.status == from then last.(status := to) else last]
  }

  /** The pending items among `chosen` become current again. */
  function Revived(items: seq<Item>, chosen: set<nat>): (revived: seq<Item>)
    ensures |revived| == |items|
    ensures forall k :: 0 <= k < |items| ==>
              revived[k] == if items[k].status == ItemPending && k in chosen then items[k].(status := ItemRunning)
                else items[k]
  {
    if items == [] then []
    else
      var k := |items| - 1;
      Revived(items[..k], chosen) + [if items[k].status == ItemPending && k in chosen
                                     then items[k].(status := ItemRunning) else items[k]]
  }

  function Place(batch: Batch, i: nat, from: ItemStatus, to: ItemStatus): Batch {
    if i < |batch.items| && batch.items[i].status == from
      then batch.(items := batch.items[i := batch.items[i].(status := to)]) else batch
  }

  // ---------------------------------------------------------------- transactions

  function PauseAsked(batch: Batch, reason: PauseReason): Batch {
    if batch.status in {Completed, CompletedWithErrors, Cancelled, Failed} then batch
    else
      var asks := HasItem(batch, ItemRunning) && reason == ByUser;
      batch.(status := if asks && !batch.yielded then Pausing else Paused,
             pauseReason := Some(reason), resumeRequested := false,
             items := if asks && batch.yielded then Moved(batch.items, ItemRunning, ItemPending) else batch.items)
  }

  function ConfigPaused(batch: Batch, i: nat): Batch {
    var t := Place(batch, i, ItemRunning, ItemPending);
    if IsOpen(batch) then t.(status := Paused, pauseReason := Some(ByConfig), resumeRequested := false) else t
  }

  function Stopped(batch: Batch, i: nat): Batch {
    if batch.status == Cancelling then
      Place(batch, i, ItemRunning, ItemCancelled).(status := Cancelled, pauseReason := None, yielded := false,
                                                   resumeRequested := false)
    else if batch.status in {Queued, Running, Pausing} then
      batch.(status := Paused, pauseReason := Some(ByUser), yielded := false, resumeRequested := false)
    else batch
  }

  function CancelledPending(batch: Batch, unfinished: set<nat>): Batch {
    if !IsOpen(batch) then batch
    else
      var revived := if batch.yielded then Revived(batch.items, unfinished) else batch.items;
      var items := Moved(revived, ItemPending, ItemCancelled);
      var running := HasItem(batch.(items := items), ItemRunning);
      batch.(items := items, status := if running then Cancelling else Cancelled, pauseReason := None,
             yielded := running && batch.yielded, resumeRequested := false)
  }

  function Retried(batch: Batch): Batch {
    if batch.status != CompletedWithErrors then batch
    else batch.(status := if HasItem(batch, ItemFailed) then Queued else Completed, pauseReason := None,
                resumeRequested := false,
                items := Moved(batch.items, ItemFailed, ItemPending))
  }

  function Settled(batch: Batch): Batch {
    match batch.status
    case Pausing => batch.(status := Paused, resumeRequested := false)
    case Cancelling => batch.(status := Cancelled, yielded := false, resumeRequested := false)
    case Running =>
      if HasItem(batch, ItemPending) || HasItem(batch, ItemRunning) then batch
      else batch.(status := if HasItem(batch, ItemFailed) then CompletedWithErrors else Completed, yielded := false,
                  resumeRequested := false)
    case _ => batch
  }

  /** What a transaction other than Create does to its batch. */
  function Changed(batch: Batch, op: Op): Batch
    requires !op.Create?
  {
    match op
    case ClaimBatch(_) => if batch.status == Queued then batch.(status := Running, pauseReason := None) else batch
    case ClaimItem(_, i) =>
      if i < |batch.items| && batch.items[i].status == ItemPending && !HasItem(batch, ItemRunning)
      then batch.(items := batch.items[i := Item(ItemRunning, batch.items[i].attempts + 1)]) else batch
    case FinishItem(_, i, outcome) => Place(batch, i, ItemRunning, outcome)
    case RequestPause(_, reason) => PauseAsked(batch, reason)
    case PauseForConfig(_, i) => ConfigPaused(batch, i)
    case SettleStopped(_, i) => Stopped(batch, i)
    case ResumeBatch(_) =>
      if batch.status in {Paused, Failed} then batch.(status := Queued, pauseReason := None, resumeRequested := true)
        else batch
    case CancelPending(_, unfinished) => CancelledPending(batch, unfinished)
    case RetryFailed(_) => Retried(batch)
    case CloseFailed(_) =>
      if batch.status in {CompletedWithErrors, Failed}
      then batch.(status := Cancelled, pauseReason := None, yielded := false, resumeRequested := false) else batch
    case SetYielded(_, value) => if IsOpen(batch) then batch.(yielded := value) else batch
    case ClearResume(_) => batch.(resumeRequested := false)
    case SetFailed(_) => if IsOpen(batch) then batch.(status := Failed, yielded := false, resumeRequested := false)
      else batch
    case SettleAfterItem(_) => Settled(batch)
  }

  function Apply(rows: Rows, op: Op): (later: Rows)
    ensures |rows| <= |later| && forall b :: 0 <= b < |rows| ==> |later[b].items| == |rows[b].items|
  {
    if op.Create? then
      if op.chapters == 0 || HasOpenBatch(rows, op.comic) then rows
      else rows + [Batch(op.comic, Queued, None, false, false, seq(op.chapters, _ => Item(ItemPending, 0)))]
    else if op.b < |rows| then rows[op.b := Changed(rows[op.b], op)]
    else rows
  }

  function ApplyAll(rows: Rows, ops: seq<Op>): (later: Rows)
    ensures |rows| <= |later| && forall b :: 0 <= b < |rows| ==> |later[b].items| == |rows[b].items|
    decreases |ops|
  {
    if ops == [] then rows else ApplyAll(Apply(rows, ops[0]), ops[1..])
  }

  // ---------------------------------------------------------------- invariants

  /** A finished batch has nothing left to do, one with errors has something to retry, and a cancelled one is
      neither paused nor to be resumed. */
  ghost predicate BatchOk(batch: Batch) {
    && (batch.status == Cancelling ==> batch.pauseReason == None && !batch.resumeRequested)
    && (batch.status == Completed ==> forall k :: 0 <= k < |batch.items| ==> IsClosedItem(batch.items[k].status))
    && (batch.status == CompletedWithErrors ==>
          && HasItem(batch, ItemFailed)
          && forall k :: 0 <= k < |batch.items| ==> !IsWaiting(batch.items[k].status))
  }

  ghost predicate OneRunningBatch(rows: Rows) {
    forall b, c :: 0 <= b < |rows| && 0 <= c < |rows| && rows[b].status == Running && rows[c].status == Running ==>
      b == c
  }

  ghost predicate OneOpenBatchPerComic(rows: Rows) {
    forall b, c ::
      0 <= b < |rows| && 0 <= c < |rows| && rows[b].comic == rows[c].comic && IsOpen(rows[b]) && IsOpen(rows[c]) ==>
      b == c
  }

  ghost predicate OneRunningItem(batch: Batch) {
    forall i, j ::
      0 <= i < |batch.items| && 0 <= j < |batch.items|
      && batch.items[i].status == ItemRunning && batch.items[j].status == ItemRunning ==>
      i == j
  }

  ghost predicate RowsOk(rows: Rows) {
    && OneRunningBatch(rows) && OneOpenBatchPerComic(rows)
    && forall b :: 0 <= b < |rows| ==> BatchOk(rows[b])
  }

  // ---------------------------------------------------------------- what transactions keep

  /** What can become of a batch: its comic and its number of items are fixed, and what is closed stays closed. */
  ghost predicate Follows(batch: Batch, later: Batch) {
    && later.comic == batch.comic && |later.items| == |batch.items|
    && (!IsOpen(batch) ==> later.status == batch.status)
    && forall k :: 0 <= k < |batch.items| ==>
         && (IsClosedItem(batch.items[k].status) ==> later.items[k].status == batch.items[k].status)
         && later.items[k].attempts >= batch.items[k].attempts
  }

  lemma {:induction false} ChangeFollows(batch: Batch, op: Op)
    requires !op.Create?
    requires op.FinishItem? ==> op.outcome in {ItemCompleted, ItemSkipped, ItemFailed, ItemCancelled}
    ensures Follows(batch, Changed(batch, op))
    ensures BatchOk(batch) ==> BatchOk(Changed(batch, op))
    ensures Changed(batch, op).status == Running ==> batch.status == Running || op.ClaimBatch?
  {
    hide BatchOk, Changed, Follows;
    ItemsFollow(batch, op);
    ChangeRuns(batch, op);
    if BatchOk(batch) {
      ChangeKeepsBatchOk(batch, op);
    }
  }

  lemma {:induction false} ItemsFollow(batch: Batch, op: Op)
    requires !op.Create?
    requires op.FinishItem? ==> op.outcome in {ItemCompleted, ItemSkipped, ItemFailed, ItemCancelled}
    ensures Follows(batch, Changed(batch, op))
  {
    hide HasItem, CancelledPending, PauseAsked;
    if op.CancelPending? {
      CancelFollows(batch, op.unfinished);
    } else if op.RequestPause? {
      PauseFollows(batch, op.reason);
    }
  }

  lemma ChangeRuns(batch: Batch, op: Op)
    requires !op.Create?
    ensures Changed(batch, op).status == Running ==> batch.status == Running || op.ClaimBatch?
  {
    hide HasItem;
  }

  lemma CancelFollows(batch: Batch, unfinished: set<nat>)
    ensures Follows(batch, CancelledPending(batch, unfinished))
    ensures CancelledPending(batch, unfinished).status == Running ==> batch.status == Running
  {
    hide HasItem;
  }

  lemma PauseFollows(batch: Batch, reason: PauseReason)
    ensures Follows(batch, PauseAsked(batch, reason))
    ensures (PauseAsked(batch, reason).status == Running ==> batch.status == Running)
  {
    hide HasItem;
  }

  lemma {:induction false} ChangeKeepsBatchOk(batch: Batch, op: Op)
    requires !op.Create? && BatchOk(batch)
    requires op.FinishItem? ==> op.outcome in {ItemCompleted, ItemSkipped, ItemFailed, ItemCancelled}
    ensures BatchOk(Changed(batch, op))
  {
  }

  /** A transaction keeps a batch to one current item, except that cancelling a batch that made way for a
      reader revives the items whose generation has not finished: then it keeps it if and only if
      no two items are current or unfinished. */
  lemma {:induction false} ChangeKeepsOneRunningItem(batch: Batch, op: Op)
    requires !op.Create? && OneRunningItem(batch)
    requires op.FinishItem? ==> op.outcome != ItemRunning
    ensures OneRunningItem(Changed(batch, op)) <==> (op.CancelPending? ==> CancelIsSafe(batch, op.unfinished))
  {
    if op.CancelPending? {
      hide CancelledPending, CancelIsSafe, OneRunningItem;
      CancelKeepsOneRunningItem(batch, op.unfinished);
    } else {
      hide Changed, HasItem;
      var later := Changed(batch, op);
      forall k: nat
        ensures RunsFor(batch, op, k)
      {
        RunsForReason(batch, op, k);
      }
    }
  }

  /** An item runs after a transaction because it did before, or because it was claimed while none did. */
  ghost predicate RunsFor(batch: Batch, op: Op, k: nat)
    requires !op.Create?
  {
    k < |Changed(batch, op).items| && Changed(batch, op).items[k].status == ItemRunning ==>
      k < |batch.items| && (batch.items[k].status == ItemRunning
                            || (op.ClaimItem? && k == op.i && !HasItem(batch, ItemRunning)))
  }

  lemma {:induction false} RunsForReason(batch: Batch, op: Op, k: nat)
    requires !op.Create? && !op.CancelPending? && (op.FinishItem? ==> op.outcome != ItemRunning)
    ensures RunsFor(batch, op, k)
  {
    hide HasItem;
  }

  lemma {:induction false} CancelKeepsOneRunningItem(batch: Batch, unfinished: set<nat>)
    requires OneRunningItem(batch)
    ensures OneRunningItem(CancelledPending(batch, unfinished)) <==> CancelIsSafe(batch, unfinished)
  {
    hide CancelledPending;
    var later := CancelledPending(batch, unfinished);
    if !IsOpen(batch) {
      ClosedIsNotCancelled(batch, unfinished);
    } else if CancelIsSafe(batch, unfinished) {
      forall i, j | 0 <= i < |later.items| && 0 <= j < |later.items| && later.items[i].status == ItemRunning
        && later.items[j].status == ItemRunning
        ensures i == j
      {
        RunsAfterCancel(batch, unfinished, i);
        RunsAfterCancel(batch, unfinished, j);
      }
    } else {
      var i, j :| 0 <= i < |batch.items| && 0 <= j < |batch.items| && i != j && WouldRun(batch, unfinished, i)
          && WouldRun(batch, unfinished, j);
      RunsAfterCancel(batch, unfinished, i);
      RunsAfterCancel(batch, unfinished, j);
    }
  }

  lemma ClosedIsNotCancelled(batch: Batch, unfinished: set<nat>)
    requires !IsOpen(batch)
    ensures CancelledPending(batch, unfinished) == batch
  {
  }

  lemma RunsAfterCancel(batch: Batch, unfinished: set<nat>, k: nat)
    requires IsOpen(batch)
    ensures var later := CancelledPending(batch, unfinished);
            && |later.items| == |batch.items|
            && (k < |batch.items| ==>
                  (later.items[k].status == ItemRunning <==>
                   if batch.yielded then WouldRun(batch, unfinished, k) else batch.items[k].status == ItemRunning))
  {
    hide HasItem;
  }

  predicate WouldRun(batch: Batch, unfinished: set<nat>, i: nat)
    requires i < |batch.items|
  {
    batch.items[i].status == ItemRunning || (batch.items[i].status == ItemPending && i in unfinished)
  }

  ghost predicate CancelIsSafe(batch: Batch, unfinished: set<nat>) {
    IsOpen(batch) && batch.yielded ==>
      forall i, j ::
        0 <= i < |batch.items| && 0 <= j < |batch.items|
        && WouldRun(batch, unfinished, i) && WouldRun(batch, unfinished, j) ==>
        i == j
  }
}
