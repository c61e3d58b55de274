/** app/translation/concurrency.py: a first-in first-out limiter whose capacity changes at run time
    and whose waiters may be cancelled before or after they are granted a permit. */
module ConcurrencyLimiter {
  import opened Common

  /** An asyncio future, as the limiter sees it. */
  datatype Future = Pending | Granted | Cancelled

  /** The coroutine behind a waiter: suspended in acquire(), suspended with a cancellation on its way,
      past acquire() and holding its permit, or finished. */
  datatype Stage = Suspended | Interrupted | Holding | Finished

  datatype Waiter = Waiter(future: Future, stage: Stage)

  /** One grant, with the number of active permits and the limit at that moment. */
  datatype Grant = Grant(waiter: nat, active: int, limit: int)

  /** Waiters are numbered in the order in which they were enqueued; `queue` is the deque of futures
      and `grants` the history of grants. */
  datatype State = State(limit: nat, active: int, queue: seq<nat>, waiters: seq<Waiter>, grants: seq<Grant>)

  ghost predicate InRange(s: State) {
    forall i :: 0 <= i < |s.queue| ==> s.queue[i] < |s.waiters|
  }

  /** The loop of _grant_available. */
  ghost function GrantAll(s: State): State
    requires InRange(s)
    decreases |s.queue|
  {
    if s.active < s.limit && |s.queue| > 0 then
      var w := s.queue[0];
      var popped := s.(queue := s.queue[1..]);
      if s.waiters[w].future == Cancelled then GrantAll(popped)
      else GrantAll(popped.(active := s.active + 1,
                                  waiters := s.waiters[w := s.waiters[w].(future := Granted)],
                                  grants := s.grants + [Grant(w, s.active, s.limit)]))
    else s
  }

  /** The deque without the first occurrence of w. */
  function Removed(queue: seq<nat>, w: nat): (r: seq<nat>)
    ensures forall i :: 0 <= i < |r| ==> r[i] in queue
  {
    if |queue| == 0 then [] else if queue[0] == w then queue[1..] else [queue[0]] + Removed(queue[1..], w)
  }

  // ---------------------------------------------------------------- atomic steps

  datatype Step =
    | Enqueue               // acquire() up to its suspension
    | Cancel(waiter: nat)   // task.cancel() on a coroutine suspended in acquire()
    | Resume(waiter: nat)   // the coroutine wakes up and runs to the end of acquire()
    | GiveBack(waiter: nat) // the holder leaves its slot
    | Resize(limit: nat)

  /** Which steps the event loop can take. */
  predicate Enabled(s: State, step: Step) {
    match step
    case Enqueue => true
    case Cancel(w) => w < |s.waiters| && s.waiters[w].stage == Suspended
    case Resume(w) => w < |s.waiters| && s.waiters[w].stage in {Suspended, Interrupted}
      && s.waiters[w].future != Pending
    case GiveBack(w) => w < |s.waiters| && s.waiters[w].stage == Holding
    case Resize(limit) => limit >= 1
  }

  function SetStage(s: State, w: nat, stage: Stage): State
    requires w < |s.waiters|
  {
    s.(waiters := s.waiters[w := s.waiters[w].(stage := stage)])
  }

  /** What a step changes before it looks for waiters to grant. */
  function Edit(s: State, step: Step): State
    requires Enabled(s, step)
  {
    match step
    case Enqueue => s.(queue := s.queue + [|s.waiters|], waiters := s.waiters + [Waiter(Pending, Suspended)])
    case Cancel(w) =>
      s.(waiters := s.waiters[w := Waiter(if s.waiters[w].future == Pending then Cancelled else s.waiters[w].future,
                                          Interrupted)])
    case Resume(w) =>
      if s.waiters[w].future == Cancelled then SetStage(s, w, Finished).(queue := Removed(s.queue, w))
      else if s.waiters[w].stage == Suspended then SetStage(s, w, Holding)
      else SetStage(s, w, Finished).(active := s.active - 1)
    case GiveBack(w) => SetStage(s, w, Finished).(active := s.active - 1)
    case Resize(limit) => s.(limit := limit)
  }

  /** Cancelling a task and resuming with the permit leave the queue alone; every other step grants. */
  predicate LooksForWaiters(s: State, step: Step)
    requires Enabled(s, step)
  {
    match step
    case Cancel(_) => false
    case Resume(w) => s.waiters[w] != Waiter(Granted, Suspended)
    case _ => true
  }

  ghost function Next(s: State, step: Step): State
    requires Enabled(s, step) && InRange(Edit(s, step))
  {
    if LooksForWaiters(s, step) then GrantAll(Edit(s, step)) else Edit(s, step)
  }

  // ---------------------------------------------------------------- the invariant

  /** A permit is held from the grant until the coroutine has finished. */
  predicate HasPermit(w: Waiter) {
    w.future == Granted && w.stage != Finished
  }

  ghost function Permits(waiters: seq<Waiter>): nat {
    if |waiters| == 0 then 0
    else Permits(waiters[..|waiters| - 1]) + if HasPermit(waiters[|waiters| - 1]) then 1 else 0
  }

  ghost predicate WaiterOk(s: State, w: nat)
    requires w < |s.waiters|
  {
    match s.waiters[w].future
    case Pending => s.waiters[w].stage == Suspended && w in s.queue
    case Granted => w !in s.queue
    case Cancelled => s.waiters[w].stage == Interrupted || (s.waiters[w].stage == Finished && w !in s.queue)
  }

  /** The deque holds waiters in the order of arrival, all of them later than every granted one. */
  ghost predicate QueueOk(s: State) {
    && InRange(s)
    && (forall i, j :: 0 <= i < j < |s.queue| ==> s.queue[i] < s.queue[j])
    && (forall i, j :: 0 <= i < |s.grants| && 0 <= j < |s.queue| ==> s.grants[i].waiter < s.queue[j])
  }

  /** Grants follow the order of arrival, one for each granted future, each below the limit of its moment. */
  ghost predicate GrantsOk(waiters: seq<Waiter>, grants: seq<Grant>) {
    && (forall i :: 0 <= i < |grants| ==>
          && grants[i].active < grants[i].limit
          && grants[i].waiter < |waiters|
          && waiters[grants[i].waiter].future == Granted)
    && (forall i, j :: 0 <= i < j < |grants| ==> grants[i].waiter < grants[j].waiter)
    && (forall w :: 0 <= w < |waiters| && waiters[w].future == Granted ==>
        exists i :: 0 <= i < |grants| && grants[i].waiter == w)
  }

  ghost predicate Consistent(s: State) {
    && s.limit >= 1
    && QueueOk(s)
    && GrantsOk(s.waiters, s.grants)
    && (forall w :: 0 <= w < |s.waiters| ==> WaiterOk(s, w))
    && s.active == Permits(s.waiters)
  }

  /** What holds between any two steps: besides consistency, a free permit means that nobody waits. */
  ghost predicate Invariant(s: State) {
    Consistent(s) && (s.active < s.limit ==> s.queue == [])
  }

  // ---------------------------------------------------------------- every step keeps it

  lemma {:induction false} PermitsUpdate(waiters: seq<Waiter>, w: nat, x: Waiter)
    requires w < |waiters|
    ensures Permits(waiters[w := x])
            == Permits(waiters) - (if HasPermit(waiters[w]) then 1 else 0) + (if HasPermit(x) then 1 else 0)
  {
    var n := |waiters| - 1;
    if w < n {
      PermitsUpdate(waiters[..n], w, x);
      assert waiters[w := x][..n] == waiters[..n][w := x];
    } else {
      assert waiters[w := x][..n] == waiters[..n];
    }
  }

  /** What one turn of the grant loop does. */
  ghost function GrantOne(s: State): State
    requires InRange(s) && |s.queue| > 0
  {
    var w := s.queue[0];
    var popped := s.(queue := s.queue[1..]);
    if s.waiters[w].future == Cancelled then popped
    else popped.(active := s.active + 1,
                 waiters := s.waiters[w := s.waiters[w].(future := Granted)],
                 grants := s.grants + [Grant(w, s.active, s.limit)])
  }

  lemma {:induction false} GrantOneKeeps(s: State)
    requires Consistent(s) && s.active < s.limit && |s.queue| > 0
    ensures Consistent(GrantOne(s))
  {
    hide GrantsOk, Permits;
    var w := s.queue[0];
    var t := GrantOne(s);
    assert WaiterOk(s, w);
    forall v | 0 <= v < |t.waiters|
      ensures WaiterOk(t, v)
    {
      assert WaiterOk(s, v);
      if v != w && v in s.queue {
        assert v in s.queue[1..];
      }
    }
    if s.waiters[w].future != Cancelled {
      PermitsUpdate(s.waiters, w, s.waiters[w].(future := Granted));
      GrantExtendsGrants(s.waiters, s.grants, Grant(w, s.active, s.limit));
    }
  }

  lemma {:induction false} GrantExtendsGrants(waiters: seq<Waiter>, grants: seq<Grant>, g: Grant)
    requires GrantsOk(waiters, grants) && g.waiter < |waiters| && g.active < g.limit
    requires forall i :: 0 <= i < |grants| ==> grants[i].waiter < g.waiter
    ensures GrantsOk(waiters[g.waiter := waiters[g.waiter].(future := Granted)], grants + [g])
  {
    var more := grants + [g];
    forall v | 0 <= v < |waiters| && (v == g.waiter || waiters[v].future == Granted)
      ensures exists i :: 0 <= i < |more| && more[i].waiter == v
    {
      if v == g.waiter {
        assert more[|grants|].waiter == v;
      } else {
        var i :| 0 <= i < |grants| && grants[i].waiter == v;
        assert more[i].waiter == v;
      }
    }
  }

  /** Granting restores the invariant, and never admits beyond the limit. */
  lemma {:induction false} GrantAllKeeps(s: State)
    requires Consistent(s)
    ensures var t := GrantAll(s);
            && Invariant(t)
            && t.limit == s.limit && |t.waiters| == |s.waiters|
            && s.active <= t.active <= Max(s.active, s.limit)
            && s.grants <= t.grants
            && (forall w :: 0 <= w < |s.waiters| ==>
                  && t.waiters[w].stage == s.waiters[w].stage
                  && (s.waiters[w].future != Pending ==> t.waiters[w] == s.waiters[w]))
    decreases |s.queue|
  {
    if s.active < s.limit && |s.queue| > 0 {
      GrantOneKeeps(s);
      GrantAllKeeps(GrantOne(s));
    }
  }

  lemma {:induction false} RemovedTakesOneOut(queue: seq<nat>, w: nat)
    requires forall i, j :: 0 <= i < j < |queue| ==> queue[i] < queue[j]
    ensures forall v :: v in Removed(queue, w) <==> v in queue && v != w
    ensures forall i, j :: 0 <= i < j < |Removed(queue, w)| ==> Removed(queue, w)[i] < Removed(queue, w)[j]
  {
    if |queue| > 0 {
      var rest := queue[1..];
      assert queue == [queue[0]] + rest;
      if queue[0] == w {
        assert Removed(queue, w) == rest;
      } else {
        RemovedTakesOneOut(rest, w);
        var left := Removed(rest, w);
        assert Removed(queue, w) == [queue[0]] + left;
        forall i | 0 <= i < |left|
          ensures queue[0] < left[i]
        {
          assert left[i] in left;
        }
      }
    }
  }

  /** A coroutine that ends, after its grant, gives back exactly the permit it was granted. */
  lemma {:induction false} FinishKeeps(s: State, w: nat)
    requires Consistent(s) && w < |s.waiters| && HasPermit(s.waiters[w])
    ensures s.active >= 1
    ensures Consistent(SetStage(s, w, Finished).(active := s.active - 1))
  {
    PermitsUpdate(s.waiters, w, s.waiters[w].(stage := Finished));
    var t := SetStage(s, w, Finished).(active := s.active - 1);
    assert WaiterOk(s, w);
    forall v | 0 <= v < |t.waiters|
      ensures WaiterOk(t, v)
    {
      assert WaiterOk(s, v);
    }
    OnlyFuturesMatterToGrants(s.waiters, t.waiters, s.grants);
  }

  lemma {:induction false} OnlyFuturesMatterToGrants(waiters: seq<Waiter>, later: seq<Waiter>, grants: seq<Grant>)
    requires GrantsOk(waiters, grants) && |waiters| <= |later|
    requires forall w :: 0 <= w < |waiters| ==> (later[w].future == Granted <==> waiters[w].future == Granted)
    requires forall w :: |waiters| <= w < |later| ==> later[w].future != Granted
    ensures GrantsOk(later, grants)
  {
  }

  lemma {:induction false} EnqueueKeeps(s: State)
    requires Consistent(s)
    ensures Consistent(s.(queue := s.queue + [|s.waiters|], waiters := s.waiters + [Waiter(Pending, Suspended)]))
  {
    hide GrantsOk;
    var t := s.(queue := s.queue + [|s.waiters|], waiters := s.waiters + [Waiter(Pending, Suspended)]);
    assert t.waiters[..|s.waiters|] == s.waiters;
    forall v | 0 <= v < |t.waiters|
      ensures WaiterOk(t, v)
    {
      if v < |s.waiters| {
        assert WaiterOk(s, v);
      } else {
        assert t.queue[|s.queue|] == v;
      }
    }
    OnlyFuturesMatterToGrants(s.waiters, t.waiters, s.grants);
  }

  lemma {:induction false} CancelKeeps(s: State, w: nat)
    requires Invariant(s) && Enabled(s, Cancel(w))
    ensures Invariant(Edit(s, Cancel(w)))
  {
    var t := Edit(s, Cancel(w));
    PermitsUpdate(s.waiters, w, t.waiters[w]);
    assert WaiterOk(s, w);
    forall v | 0 <= v < |t.waiters|
      ensures WaiterOk(t, v)
    {
      assert WaiterOk(s, v);
    }
    OnlyFuturesMatterToGrants(s.waiters, t.waiters, s.grants);
  }

  lemma {:induction false} ResumeCancelledKeeps(s: State, w: nat)
    requires Consistent(s) && w < |s.waiters| && s.waiters[w].future == Cancelled
    ensures Consistent(SetStage(s, w, Finished).(queue := Removed(s.queue, w)))
  {
    var t := SetStage(s, w, Finished).(queue := Removed(s.queue, w));
    PermitsUpdate(s.waiters, w, s.waiters[w].(stage := Finished));
    RemovedTakesOneOut(s.queue, w);
    forall i | 0 <= i < |t.queue|
      ensures t.queue[i] in s.queue
    {
      assert t.queue[i] in t.queue;
    }
    forall v | 0 <= v < |t.waiters|
      ensures WaiterOk(t, v)
    {
      assert WaiterOk(s, v);
    }
    OnlyFuturesMatterToGrants(s.waiters, t.waiters, s.grants);
  }

  lemma {:induction false} HoldKeeps(s: State, w: nat)
    requires Invariant(s) && w < |s.waiters| && s.waiters[w] == Waiter(Granted, Suspended)
    ensures Invariant(SetStage(s, w, Holding))
  {
    var t := SetStage(s, w, Holding);
    PermitsUpdate(s.waiters, w, Waiter(Granted, Holding));
    forall v | 0 <= v < |t.waiters|
      ensures WaiterOk(t, v)
    {
      assert WaiterOk(s, v);
    }
    OnlyFuturesMatterToGrants(s.waiters, t.waiters, s.grants);
  }

  lemma {:induction false} EditKeeps(s: State, step: Step)
    requires Invariant(s) && Enabled(s, step)
    ensures Consistent(Edit(s, step))
    ensures !LooksForWaiters(s, step) ==> Invariant(Edit(s, step))
    ensures Edit(s, step).active <= s.active && Edit(s, step).grants == s.grants
  {
    match step
    case Enqueue => EnqueueKeeps(s);
    case Cancel(w) => CancelKeeps(s, w);
    case Resume(w) =>
      if s.waiters[w].future == Cancelled {
        ResumeCancelledKeeps(s, w);
      } else if s.waiters[w].stage == Suspended {
        HoldKeeps(s, w);
      } else {
        FinishKeeps(s, w);
      }
    case GiveBack(w) =>
      assert WaiterOk(s, w);
      FinishKeeps(s, w);
    case Resize(limit) =>
      forall v | 0 <= v < |s.waiters|
        ensures WaiterOk(s.(limit := limit), v)
      {
        assert WaiterOk(s, v);
      }
  }

  /** Every atomic step keeps the invariant, and no step admits anybody beyond the limit: the number of
      active permits grows only up to the limit in force, so after a shrink it can only fall. */
  lemma {:induction false} StepKeeps(s: State, step: Step)
    requires Invariant(s) && Enabled(s, step)
    ensures InRange(Edit(s, step))
    ensures var t := Next(s, step);
            && Invariant(t)
            && t.active <= Max(s.active, t.limit)
            && s.grants <= t.grants
  {
    EditKeeps(s, step);
    GrantAllKeeps(Edit(s, step));
  }

  // ---------------------------------------------------------------- whole runs

  function Start(limit: nat): State {
    State(limit, 0, [], [], [])
  }

  /** An arbitrary interleaving; steps that the event loop cannot take are skipped. */
  ghost function Run(s: State, steps: seq<Step>): (t: State)
    requires Invariant(s)
    ensures Invariant(t) && s.grants <= t.grants
    decreases |steps|
  {
    if |steps| == 0 then s
    else if !Enabled(s, steps[0]) then Run(s, steps[1..])
    else
      StepKeeps(s, steps[0]);
      Run(Next(s, steps[0]), steps[1..])
  }

  /** Waiters are served strictly in the order of arrival: whoever arrived before a granted waiter was
      granted or cancelled, and the history of grants is in the order of arrival. */
  lemma {:induction false} FirstComeFirstServed(limit: nat, steps: seq<Step>, v: nat, w: nat)
    requires limit >= 1 && Invariant(Start(limit))
    requires var t := Run(Start(limit), steps); v < w < |t.waiters| && t.waiters[w].future == Granted
    ensures Run(Start(limit), steps).waiters[v].future != Pending
    ensures var g := Run(Start(limit), steps).grants;
            forall i, j :: 0 <= i < j < |g| ==> g[i].waiter < g[j].waiter
  {
    var t := Run(Start(limit), steps);
    assert WaiterOk(t, v);
    var i :| 0 <= i < |t.grants| && t.grants[i].waiter == w;
    assert forall j :: 0 <= j < |t.queue| ==> t.grants[i].waiter < t.queue[j];
  }

  /** Nobody waits while a permit is free, and every permit in use belongs to a coroutine that was
      granted and has not finished: cancelled waiters keep none. */
  lemma {:induction false} PermitsAreUsed(limit: nat, steps: seq<Step>, w: nat)
    requires limit >= 1 && Invariant(Start(limit))
    requires w < |Run(Start(limit), steps).waiters|
    ensures var t := Run(Start(limit), steps);
            && t.active == Permits(t.waiters)
            && (t.active < t.limit ==> t.waiters[w].future != Pending)
            && (t.waiters[w].future == Cancelled ==> !HasPermit(t.waiters[w]))
            && (t.waiters[w].stage == Holding ==> HasPermit(t.waiters[w]) && t.active >= 1)
  {
    var t := Run(Start(limit), steps);
    assert WaiterOk(t, w);
    if HasPermit(t.waiters[w]) {
      FinishKeeps(t, w);
    }
  }

  /** A cancellation that arrives after the grant gives the permit back as soon as the coroutine wakes
      up: what is active afterwards is one less, plus whoever is granted in its place. */
  lemma {:induction false} LateCancellationGivesBack(s: State, w: nat)
    requires Invariant(s) && w < |s.waiters| && s.waiters[w] == Waiter(Granted, Interrupted)
    ensures InRange(Edit(s, Resume(w)))
    ensures var t := Next(s, Resume(w));
            && |t.waiters| == |s.waiters| && !HasPermit(t.waiters[w])
            && t.active == s.active - 1 + (|t.grants| - |s.grants|)
  {
    var e := Edit(s, Resume(w));
    EditKeeps(s, Resume(w));
    GrantAllKeeps(e);
    GrantsCountActive(e);
  }

  lemma {:induction false} GrantsCountActive(s: State)
    requires InRange(s)
    ensures |GrantAll(s).grants| - |s.grants| == GrantAll(s).active - s.active
    decreases |s.queue|
  {
    if s.active < s.limit && |s.queue| > 0 {
      GrantsCountActive(GrantOne(s));
    }
  }

  // ---------------------------------------------------------------- how many are served

  /** How many coroutines wait for their grant. */
  ghost function Waiting(waiters: seq<Waiter>): nat {
    if |waiters| == 0 then 0
    else Waiting(waiters[..|waiters| - 1]) + if waiters[|waiters| - 1].future == Pending then 1 else 0
  }

  lemma {:induction false} WaitingUpdate(waiters: seq<Waiter>, w: nat, x: Waiter)
    requires w < |waiters|
    ensures Waiting(waiters[w := x])
            == Waiting(waiters) - (if waiters[w].future == Pending then 1 else 0)
              + (if x.future == Pending then 1 else 0)
  {
    var n := |waiters| - 1;
    if w < n {
      WaitingUpdate(waiters[..n], w, x);
      assert waiters[w := x][..n] == waiters[..n][w := x];
    } else {
      assert waiters[w := x][..n] == waiters[..n];
    }
  }

  lemma {:induction false} NobodyWaits(waiters: seq<Waiter>)
    requires forall w :: 0 <= w < |waiters| ==> waiters[w].future != Pending
    ensures Waiting(waiters) == 0
  {
    if |waiters| > 0 {
      NobodyWaits(waiters[..|waiters| - 1]);
    }
  }

  /** Granting serves as many waiters as there are free permits, or all of them, and never takes a permit back. */
  lemma {:induction false} GrantAllServes(s: State)
    requires Consistent(s)
    ensures var t := GrantAll(s);
            && t.active == Max(s.active, Min(s.limit, s.active + Waiting(s.waiters)))
            && |t.waiters| == |s.waiters| && t.limit == s.limit
            && forall w :: 0 <= w < |s.waiters| && s.waiters[w].future != Pending ==> t.waiters[w] == s.waiters[w]
    decreases |s.queue|
  {
    hide GrantsOk, Permits, Waiting;
    if s.active < s.limit && |s.queue| > 0 {
      GrantOneKeeps(s);
      GrantOneServes(s);
      hide Consistent;
      GrantAllServes(GrantOne(s));
      hide GrantOne;
    } else if |s.queue| == 0 {
      forall w | 0 <= w < |s.waiters|
        ensures s.waiters[w].future != Pending
      {
        assert WaiterOk(s, w);
      }
      NobodyWaits(s.waiters);
    }
  }

  lemma {:induction false} GrantOneServes(s: State)
    requires Consistent(s) && s.active < s.limit && |s.queue| > 0
    ensures var t := GrantOne(s);
            && t.active + Waiting(t.waiters) == s.active + Waiting(s.waiters) && t.active <= s.limit
            && s.active <= t.active && t.limit == s.limit && |t.waiters| == |s.waiters| && InRange(t)
            && GrantAll(s) == GrantAll(t)
            && forall w :: 0 <= w < |s.waiters| && s.waiters[w].future != Pending ==> t.waiters[w] == s.waiters[w]
  {
    var w := s.queue[0];
    assert WaiterOk(s, w);
    hide GrantsOk, Permits;
    WaitingUpdate(s.waiters, w, s.waiters[w].(future := Granted));
  }

  /** A resize sets the limit at once: as many waiters as now fit are served, and every permit in use stays. */
  lemma {:induction false} ResizeTakesEffect(s: State, limit: nat)
    requires Invariant(s) && limit >= 1
    ensures InRange(Edit(s, Resize(limit)))
    ensures var t := Next(s, Resize(limit));
            && t.limit == limit
            && t.active == Max(s.active, Min(limit, s.active + Waiting(s.waiters)))
            && |t.waiters| == |s.waiters|
            && forall w :: 0 <= w < |s.waiters| && s.waiters[w].future != Pending ==> t.waiters[w] == s.waiters[w]
  {
    EditKeeps(s, Resize(limit));
    GrantAllServes(Edit(s, Resize(limit)));
  }

  /** Who asks for a permit gets it at once if and only if one is free. */
  lemma {:induction false} AcquireIsServedIff(s: State)
    requires Invariant(s)
    ensures InRange(Edit(s, Enqueue))
    ensures var t := Next(s, Enqueue);
            && |t.waiters| == |s.waiters| + 1
            && (t.waiters[|s.waiters|] == if s.active < s.limit then Waiter(Granted, Suspended)
                                          else Waiter(Pending, Suspended))
            && t.active == s.active + if s.active < s.limit then 1 else 0
  {
    EditKeeps(s, Enqueue);
    var e := Edit(s, Enqueue);
    GrantAllKeeps(e);
    if s.active < s.limit {
      assert e.queue == [|s.waiters|];
      assert GrantAll(e) == GrantAll(GrantOne(e)) && GrantOne(e).queue == [];
    }
  }

  /** A holder that leaves frees exactly its permit, which goes to a waiter if there is one. */
  lemma {:induction false} LeavingFreesOne(s: State, w: nat)
    requires Invariant(s) && w < |s.waiters| && s.waiters[w].stage == Holding
    ensures InRange(Edit(s, GiveBack(w)))
    ensures var t := Next(s, GiveBack(w));
            && |t.waiters| == |s.waiters| && !HasPermit(t.waiters[w])
            && t.active == Max(s.active - 1, Min(s.limit, s.active - 1 + Waiting(s.waiters)))
            && forall v :: 0 <= v < |s.waiters| && v != w && HasPermit(s.waiters[v]) ==> HasPermit(t.waiters[v])
  {
    hide GrantsOk, Permits, GrantAll;
    assert WaiterOk(s, w);
    EditKeeps(s, GiveBack(w));
    WaitingUpdate(s.waiters, w, s.waiters[w].(stage := Finished));
    GrantAllServes(Edit(s, GiveBack(w)));
  }

  /** The limit that the last resize of a run asked for, or the one before the run. */
  function LastLimit(limit: nat, steps: seq<Step>): nat
    decreases |steps|
  {
    if |steps| == 0 then limit
    else LastLimit(if steps[0].Resize? && steps[0].limit >= 1 then steps[0].limit else limit, steps[1..])
  }

  lemma {:induction false} OnlyResizesChangeTheLimit(s: State, step: Step)
    requires Invariant(s) && Enabled(s, step)
    ensures InRange(Edit(s, step))
    ensures Next(s, step).limit == if step.Resize? then step.limit else s.limit
  {
    EditKeeps(s, step);
    GrantAllKeeps(Edit(s, step));
  }

  /** The limit in force is that of the last resize. */
  lemma {:induction false} LimitIsLastResize(s: State, steps: seq<Step>)
    requires Invariant(s)
    ensures Run(s, steps).limit == LastLimit(s.limit, steps)
    decreases |steps|
  {
    hide Invariant, Next;
    if |steps| > 0 {
      if Enabled(s, steps[0]) {
        StepKeeps(s, steps[0]);
        OnlyResizesChangeTheLimit(s, steps[0]);
        LimitIsLastResize(Next(s, steps[0]), steps[1..]);
      } else {
        LimitIsLastResize(s, steps[1..]);
      }
    }
  }

  /** A coroutine that is cancelled after its grant has a permit to give back. */
  lemma WakingIsSound(s: State, w: nat)
    requires Invariant(s) && Enabled(s, Resume(w))
    ensures InRange(s)
    ensures s.waiters[w].future == Cancelled ==> s.waiters[w].stage == Interrupted
    ensures s.waiters[w] == Waiter(Granted, Interrupted) ==> s.active >= 1
  {
    assert WaiterOk(s, w);
    if s.waiters[w] == Waiter(Granted, Interrupted) {
      FinishKeeps(s, w);
    }
  }

  // ---------------------------------------------------------------- the limiter itself

  class DynamicConcurrencyLimiter {
    var limit: nat
    var active: int
    var queue: seq<nat>
    var waiters: seq<Waiter>  // the futures, with the coroutines that await them
    ghost var grants: seq<Grant>

    ghost function View(): State
      reads this
    {
      State(limit, active, queue, waiters, grants)
    }

    constructor (capacity: nat)
      requires capacity >= 1
      ensures View() == Start(capacity) && Invariant(View())
    {
      limit, active, queue, waiters, grants := capacity, 0, [], [], [];
    }

    method GrantAvailable()
      requires InRange(View())
      modifies this
      ensures View() == GrantAll(old(View()))
    {
      while active < limit && |queue| > 0
        invariant InRange(View())
        invariant GrantAll(View()) == GrantAll(old(View()))
        decreases |queue|
      {
        var waiter := queue[0];
        queue := queue[1..];
        if waiters[waiter].future == Cancelled {
          continue;
        }
        grants := grants + [Grant(waiter, active, limit)];
        active := active + 1;
        waiters := waiters[waiter := waiters[waiter].(future := Granted)];
      }
    }

    /** acquire() up to the point where it awaits its future. */
    method Acquire() returns (waiter: nat)
      requires Invariant(View())
      modifies this
      ensures waiter == |old(waiters)|
      ensures InRange(Edit(old(View()), Enqueue)) && View() == Next(old(View()), Enqueue)
      ensures Invariant(View())
    {
      StepKeeps(View(), Enqueue);
      waiter := |waiters|;
      waiters := waiters + [Waiter(Pending, Suspended)];
      queue := queue + [waiter];
      GrantAvailable();
    }

    /** task.cancel() on a coroutine that is suspended in acquire(). */
    method Cancel(waiter: nat)
      requires Invariant(View()) && Enabled(View(), Step.Cancel(waiter))
      modifies this
      ensures InRange(Edit(old(View()), Step.Cancel(waiter))) && View() == Next(old(View()), Step.Cancel(waiter))
      ensures Invariant(View())
    {
      StepKeeps(View(), Step.Cancel(waiter));
      var future := waiters[waiter].future;
      waiters := waiters[waiter := Waiter(if future == Pending then Cancelled else future, Interrupted)];
    }

    /** The rest of acquire(): either it returns with a permit, or its except block runs. */
    method Wake(waiter: nat) returns (acquired: bool)
      requires Invariant(View()) && Enabled(View(), Resume(waiter))
      modifies this
      ensures acquired == (old(waiters[waiter]) == Waiter(Granted, Suspended))
      ensures InRange(Edit(old(View()), Resume(waiter))) && View() == Next(old(View()), Resume(waiter))
      ensures Invariant(View())
    {
      hide Invariant, GrantAll;
      StepKeeps(View(), Resume(waiter));
      WakingIsSound(View(), waiter);
      if waiters[waiter] == Waiter(Granted, Suspended) {
        waiters := waiters[waiter := Waiter(Granted, Holding)];
        return true;
      }
      var future := waiters[waiter].future;
      if future == Granted {
        waiters := waiters[waiter := Waiter(future, Finished)];
        var _ := Release();
      } else {
        waiters := waiters[waiter := Waiter(future, Finished)];
        queue := Removed(queue, waiter);
        GrantAvailable();
      }
      return false;
    }

    /** Refuses to release a permit that nobody holds. */
    method Release() returns (ok: bool)
      requires InRange(View())
      modifies this
      ensures ok == (old(active) >= 1)
      ensures View() == if ok then GrantAll(old(View()).(active := old(active) - 1)) else old(View())
    {
      if active < 1 {
        return false;
      }
      active := active - 1;
      GrantAvailable();
      return true;
    }

    /** A holder leaves its slot; its release is never refused. */
    method LeaveSlot(waiter: nat) returns (ok: bool)
      requires Invariant(View()) && Enabled(View(), GiveBack(waiter))
      modifies this
      ensures ok
      ensures InRange(Edit(old(View()), GiveBack(waiter))) && View() == Next(old(View()), GiveBack(waiter))
      ensures Invariant(View())
    {
      StepKeeps(View(), GiveBack(waiter));
      assert WaiterOk(View(), waiter);
      FinishKeeps(View(), waiter);
      waiters := waiters[waiter := waiters[waiter].(stage := Finished)];
      ok := Release();
    }

    method Resize(capacity: int) returns (ok: bool)
      requires Invariant(View())
      modifies this
      ensures ok == (capacity >= 1)
      ensures !ok ==> View() == old(View())
      ensures ok ==>
                && InRange(Edit(old(View()), Step.Resize(capacity)))
                && View() == Next(old(View()), Step.Resize(capacity))
                && limit == capacity
                && active == Max(old(active), Min(capacity, old(active) + Waiting(old(waiters))))
      ensures Invariant(View())
    {
      if capacity < 1 {
        return false;
      }
      StepKeeps(View(), Step.Resize(capacity));
      ResizeTakesEffect(View(), capacity);
      limit := capacity;
      GrantAvailable();
      return true;
    }
  }
}
