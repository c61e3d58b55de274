/** The producer of a streaming run, SegmentPlanner.prepare_incrementally in app/translation/segment_planner.py:
    it prepares the pages that are not prepared yet, in order, until it is asked to stop. Wherever it
    stops, a later run completes the very plan that an uninterrupted one would have made. */
module SegmentProducer {
  import opened Common
  import opened SegmentPlanner
  import opened SegmentRows
  import opened SegmentInvariants
  import opened PageLayers
  import opened TranslationRepositories

  /** `plan` gives the segments each page is cut into, the others the answers of should_stop: before page k
      is prepared, and after. */
  datatype World = World(plan: nat -> seq<PlannedSegment>, stopsBefore: nat -> bool, stopsAfter: nat -> bool)

  /** Every page is cut into at least one segment, numbered from 0. */
  ghost predicate Plans(d: Generation, w: World) {
    forall k :: 0 <= k < |d.pages| ==>
      |w.plan(d.pages[k].pageIndex)| > 0 && NumbersPage(w.plan(d.pages[k].pageIndex), d.pages[k].pageIndex)
  }

  function Uninterrupted(w: World): World {
    w.(stopsBefore := k => false, stopsAfter := k => false)
  }

  function Prepared(d: Generation, place: nat, w: World): (t: Generation)
    requires place < |d.pages|
    ensures |t.pages| == |d.pages|
  {
    var pageIndex := d.pages[place].pageIndex;
    if AppendCheck(d, pageIndex, w.plan(pageIndex)).None? then AppendPage(d, pageIndex, w.plan(pageIndex)) else d
  }

  /** The run from page `place` on: what becomes of the generation, and whether planning is complete. */
  function Produced(d: Generation, place: nat, w: World): (Generation, bool)
    requires place <= |d.pages|
    decreases |d.pages| - place
  {
    if place == |d.pages| then (CompletePlan(d), true)
    else if d.pages[place].prepared then Produced(d, place + 1, w)
    else if w.stopsBefore(place) then (d, false)
    else
      var t := Prepared(d, place, w);
      if w.stopsAfter(place) then (t, false) else Produced(t, place + 1, w)
  }

  // ---------------------------------------------------------------- one page

  /** The pages before `place` are prepared. */
  ghost predicate PreparedUpTo(d: Generation, place: nat) {
    place <= |d.pages| && forall k :: 0 <= k < place ==> d.pages[k].prepared
  }

  lemma {:induction false} PreparingKeeps(d: Generation, place: nat, w: World)
    requires PlanOk(d) && Plans(d, w) && PreparedUpTo(d, place) && place < |d.pages| && !d.pages[place].prepared
    ensures AppendCheck(d, d.pages[place].pageIndex, w.plan(d.pages[place].pageIndex)).None?
    ensures var t := Prepared(d, place, w);
            && PlanOk(t) && Plans(t, w) && PreparedUpTo(t, place + 1)
            && t.rows == d.rows + NewRows(w.plan(d.pages[place].pageIndex), |d.rows|)
            && t.pages == d.pages[place := d.pages[place].(prepared := true, status := PagePending)]
            && t.planningComplete == d.planningComplete
  {
    hide NewRows, PlanOk;
    AppendKeepsPlan(d, place, w.plan(d.pages[place].pageIndex));
  }

  lemma CompletionKeepsPlan(d: Generation)
    requires PlanOk(d) && PreparedUpTo(d, |d.pages|)
    ensures PlanOk(CompletePlan(d))
  {
    forall i | 0 <= i < |d.rows|
      ensures Follows(CompletePlan(d).rows, i)
    {
      assert Follows(d.rows, i);
    }
  }

  // ---------------------------------------------------------------- whole runs

  /** However it is stopped, a run keeps the plan consistent and the segments it finds; when it reports
      completion, every page is prepared. */
  lemma {:induction false} RunsKeepPlan(d: Generation, place: nat, w: World)
    requires PlanOk(d) && Plans(d, w) && PreparedUpTo(d, place)
    ensures var (t, complete) := Produced(d, place, w);
            && PlanOk(t) && d.rows <= t.rows && |t.pages| == |d.pages|
            && (complete ==> t.planningComplete && PreparedUpTo(t, |t.pages|))
    decreases |d.pages| - place
  {
    hide PlanOk, Plans, Prepared;
    if place == |d.pages| {
      CompletionKeepsPlan(d);
    } else if d.pages[place].prepared {
      RunsKeepPlan(d, place + 1, w);
    } else if !w.stopsBefore(place) {
      PreparingKeeps(d, place, w);
      if !w.stopsAfter(place) {
        RunsKeepPlan(Prepared(d, place, w), place + 1, w);
      }
    }
  }

  /** The producer gets to page k: nobody stops it before that page, or before or after an unprepared one above it. */
  ghost predicate IsReached(d: Generation, place: nat, w: World, k: nat)
    requires k < |d.pages|
  {
    && place <= k && !w.stopsBefore(k)
    && forall j :: place <= j < k && !d.pages[j].prepared ==> !w.stopsBefore(j) && !w.stopsAfter(j)
  }

  /** The producer stops when it is asked to, and not otherwise: it prepares exactly the pages that it gets to, and
      reports completion exactly when nobody stops it before or after any page that it has to prepare. */
  lemma {:induction false} StopsAreHeeded(d: Generation, place: nat, w: World)
    requires PlanOk(d) && Plans(d, w) && PreparedUpTo(d, place)
    ensures var (t, complete) := Produced(d, place, w);
            && |t.pages| == |d.pages|
            && (forall k :: 0 <= k < |d.pages| ==>
                  (t.pages[k].prepared <==> d.pages[k].prepared || IsReached(d, place, w, k)))
            && (complete <==>
                  forall k :: place <= k < |d.pages| && !d.pages[k].prepared ==> !w.stopsBefore(k) && !w.stopsAfter(k))
    decreases |d.pages| - place
  {
    hide PlanOk, Plans, Prepared;
    if place < |d.pages| {
      if d.pages[place].prepared {
        StopsAreHeeded(d, place + 1, w);
        ReachedAbove(d, d, place, w);
      } else if !w.stopsBefore(place) {
        PreparingKeeps(d, place, w);
        if !w.stopsAfter(place) {
          StopsAreHeeded(Prepared(d, place, w), place + 1, w);
          ReachedAbove(d, Prepared(d, place, w), place, w);
        } else {
          assert IsReached(d, place, w, place);
        }
      }
    }
  }

  /** Once page `place` is passed, the pages below it are reached as they were from above. */
  lemma ReachedAbove(d: Generation, t: Generation, place: nat, w: World)
    requires place < |d.pages| && |t.pages| == |d.pages| && t.pages[place].prepared
    requires forall k :: 0 <= k < |d.pages| && k != place ==> t.pages[k] == d.pages[k]
    requires d.pages[place].prepared || (!w.stopsBefore(place) && !w.stopsAfter(place))
    ensures forall k :: place < k < |d.pages| ==> (IsReached(t, place + 1, w, k) <==> IsReached(d, place, w, k))
  {
  }

  /** Rows and pages with the same plan lead to the same plan, whatever became of the segments meanwhile. */
  lemma {:induction false} SameRunsSamePlan(d: Generation, e: Generation, place: nat, w: World)
    requires PlanOk(d) && Plans(d, w) && PreparedUpTo(d, place) && SamePlan(d, e)
    ensures Produced(d, place, w).1 == Produced(e, place, w).1
    ensures SamePlan(Produced(d, place, w).0, Produced(e, place, w).0)
    decreases |d.pages| - place
  {
    hide PlanOk, Plans, Prepared, NewRows;
    SamePlanIsConsistent(d, e, place, w);
    if place == |d.pages| {
    } else if d.pages[place].prepared {
      SameRunsSamePlan(d, e, place + 1, w);
    } else if !w.stopsBefore(place) {
      PreparingKeeps(d, place, w);
      PreparingKeeps(e, place, w);
      CountsSegments(Prepared(d, place, w));
      CountsSegments(Prepared(e, place, w));
      SamePreparation(d, e, place, NewRows(w.plan(d.pages[place].pageIndex), |d.rows|), Prepared(d, place, w),
                      Prepared(e, place, w));
      if !w.stopsAfter(place) {
        SameRunsSamePlan(Prepared(d, place, w), Prepared(e, place, w), place + 1, w);
      }
    }
  }

  lemma SamePlanIsConsistent(d: Generation, e: Generation, place: nat, w: World)
    requires PlanOk(d) && Plans(d, w) && PreparedUpTo(d, place) && SamePlan(d, e)
    ensures PlanOk(e) && Plans(e, w) && PreparedUpTo(e, place)
  {
    hide PlanOk;
    SamePlanKeepsPlan(d, e);
  }

  lemma SamePreparation(d: Generation, e: Generation, place: nat, more: seq<Row>, t: Generation, u: Generation)
    requires SamePlan(d, e) && place < |d.pages|
    requires t.rows == d.rows + more && u.rows == e.rows + more && |t.rows| == t.totalSegments
    requires |u.rows| == u.totalSegments
    requires t.pages == d.pages[place := d.pages[place].(prepared := true, status := PagePending)]
    requires u.pages == e.pages[place := e.pages[place].(prepared := true, status := PagePending)]
    requires t.planningComplete == d.planningComplete && u.planningComplete == e.planningComplete
    ensures SamePlan(t, u)
  {
  }

  lemma CountsSegments(d: Generation)
    requires PlanOk(d)
    ensures d.totalSegments == |d.rows|
  {
  }

  /** A run that was stopped anywhere, and the segments of which have been worked on since in any way,
      is completed by the next one to the plan of a run that nothing ever stopped. */
  lemma {:induction false} ResumingIsSeamless(d: Generation, place: nat, w: World, e: Generation)
    requires PlanOk(d) && Plans(d, w) && PreparedUpTo(d, place)
    requires SamePlan(Produced(d, place, w).0, e)
    ensures Produced(e, 0, Uninterrupted(w)).1
    ensures SamePlan(Produced(d, place, Uninterrupted(w)).0, Produced(e, 0, Uninterrupted(w)).0)
  {
    var t := Produced(d, place, w).0;
    RunsKeepPlan(d, place, w);
    PlansStay(d, place, w);
    SameRunsSamePlan(t, e, 0, Uninterrupted(w));
    StoppedRunCanGoOn(d, place, w);
  }

  lemma {:induction false} PlansStay(d: Generation, place: nat, w: World)
    requires PlanOk(d) && Plans(d, w) && PreparedUpTo(d, place)
    ensures Plans(Produced(d, place, w).0, w) && Plans(Produced(d, place, w).0, Uninterrupted(w))
    decreases |d.pages| - place
  {
    hide PlanOk, Prepared;
    if place < |d.pages| {
      if d.pages[place].prepared {
        PlansStay(d, place + 1, w);
      } else if !w.stopsBefore(place) {
        PreparingKeeps(d, place, w);
        if !w.stopsAfter(place) {
          PlansStay(Prepared(d, place, w), place + 1, w);
        }
      }
    }
  }

  /** Preparation skips what is prepared. */
  lemma {:induction false} SkipsPrepared(d: Generation, place: nat, w: World)
    requires PreparedUpTo(d, place)
    ensures Produced(d, 0, w) == Produced(d, place, w)
  {
    if place > 0 {
      SkipsPrepared(d, place - 1, w);
    }
  }

  lemma {:induction false} StoppedRunCanGoOn(d: Generation, place: nat, w: World)
    requires PlanOk(d) && Plans(d, w) && PreparedUpTo(d, place)
    ensures Produced(Produced(d, place, w).0, 0, Uninterrupted(w)) == Produced(d, place, Uninterrupted(w))
    ensures Produced(d, place, Uninterrupted(w)).1
    decreases |d.pages| - place
  {
    hide PlanOk, Plans, Prepared;
    var free := Uninterrupted(w);
    if place == |d.pages| {
      SkipsPrepared(CompletePlan(d), place, free);
    } else if d.pages[place].prepared {
      StoppedRunCanGoOn(d, place + 1, w);
    } else {
      PreparingKeeps(d, place, w);
      NothingStops(d, place, w);
      StoppedRunCanGoOn(Prepared(d, place, w), place + 1, w);
      if w.stopsBefore(place) {
        SkipsPrepared(d, place, free);
      } else if w.stopsAfter(place) {
        SkipsPrepared(Prepared(d, place, w), place + 1, free);
      }
    }
  }

  lemma NothingStops(d: Generation, place: nat, w: World)
    requires place < |d.pages| && !d.pages[place].prepared
    ensures Produced(d, place, Uninterrupted(w)) == Produced(Prepared(d, place, w), place + 1, Uninterrupted(w))
  {
    assert Prepared(d, place, w) == Prepared(d, place, Uninterrupted(w));
    hide Prepared;
  }

  // ---------------------------------------------------------------- the producer itself

  class Planner {
    const repository: TranslationRepository
    const generation: nat

    constructor (repository: TranslationRepository, generation: nat)
      ensures this.repository == repository && this.generation == generation
    {
      this.repository, this.generation := repository, generation;
    }

    method PrepareIncrementally(w: World) returns (complete: bool)
      requires generation in repository.generations
      requires PlanOk(repository.generations[generation]) && Plans(repository.generations[generation], w)
      modifies repository
      ensures repository.View() == SetGeneration(old(repository.View()), generation,
                                                 Produced(old(repository.generations[generation]), 0, w).0)
      ensures complete == Produced(old(repository.generations[generation]), 0, w).1
    {
      hide PlanOk, Plans, AppendPage, AppendCheck;
      ghost var start := repository.View();
      assert SetGeneration(start, generation, start.generations[generation]) == start;
      var places := |repository.generations[generation].pages|;
      for place := 0 to places
        invariant generation in repository.generations && |repository.generations[generation].pages| == places
        invariant repository.View() == SetGeneration(start, generation, repository.generations[generation])
        invariant PlanOk(repository.generations[generation]) && Plans(repository.generations[generation], w)
        invariant PreparedUpTo(repository.generations[generation], place)
        invariant Produced(repository.generations[generation], place, w)
                    == Produced(start.generations[generation], 0, w)
      {
        var d := repository.generations[generation];
        if d.pages[place].prepared {
          continue;
        }
        if w.stopsBefore(place) {
          return false;
        }
        PreparingKeeps(d, place, w);
        var _ := repository.AppendPreparedPageSegments(generation, d.pages[place].pageIndex,
                                                       w.plan(d.pages[place].pageIndex));
        if w.stopsAfter(place) {
          return false;
        }
      }
      repository.CompleteSegmentPlan(generation);
      complete := true;
    }
  }
}
