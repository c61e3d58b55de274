/** The older slice planner of app/translation/image_segments.py, with a fixed slice height. */
module VerticalSlices {
  import opened Common
  import opened ImageSegments
  import opened SegmentPlanner

  const BAND: int := 10
  const STEP: int := 8

  /** Slice height, overlap and search radius in rows. */
  datatype Params = Params(target: int, overlap: int, radius: int)

  /** What is left below a cut must have at least this many rows. */
  function Last(target: int): int {
    Max(320, target / 3)
  }

  function Half(target: int): int {
    Max(420, target / 2)
  }

  /** The overlap that is used when `overlap` is asked for. */
  function EffectiveOverlap(target: int, overlap: int): int {
    Max(0, Min(overlap, Max(0, target / 3)))
  }

  /** The greatest overlap that is neither more than asked for nor more than a third of the slice height. */
  ghost predicate IsOverlapFor(o: int, target: int, overlap: int) {
    && (overlap >= 0 && target >= 0 ==> 0 <= o <= overlap && 3 * o <= target && !(o < overlap && 3 * (o + 1) <= target))
    && (overlap < 0 || target < 0 ==> o == 0)
  }

  lemma EffectiveOverlapIs(o: int, target: int, overlap: int)
    ensures IsOverlapFor(o, target, overlap) <==> o == EffectiveOverlap(target, overlap)
  {
  }

  lemma LimitsAre(n: int, target: int)
    ensures n == Last(target) <==> n >= 320 && (n == 320 || 3 * n <= target) && 3 * (n + 1) > target
    ensures n == Half(target) <==> n >= 420 && (n == 420 || 2 * n <= target) && 2 * (n + 1) > target
  {
  }

  predicate Sound(p: Params) {
    p.radius >= 0 && 0 <= p.overlap <= Max(0, p.target / 3)
  }

  predicate ShouldSplit(width: nat, height: nat, minHeight: int, ratio: real) {
    width > 0 && height >= minHeight && height as real / width as real >= ratio
  }

  /** The code's score: mean brightness around the row, minus a penalty for its distance to the target. */
  function DistanceScore(brightness: int -> real): ScoreFn {
    (targetY: int, y: int) => brightness(y) - (if y < targetY then targetY - y else y - targetY) as real * 0.08
  }

  /** Of two rows the score prefers the one that is brighter by more than 0.08 for each row that it is farther off. */
  lemma DistanceScorePrefers(brightness: int -> real, aim: int, p: int, q: int)
    ensures DistanceScore(brightness)(aim, p) > DistanceScore(brightness)(aim, q) <==>
              brightness(p) - brightness(q) > 0.08 * (Distance(p, aim) - Distance(q, aim)) as real
  {
  }

  lemma SplitsIff(width: nat, height: nat, minHeight: int, ratio: real)
    ensures ShouldSplit(width, height, minHeight, ratio) <==>
              width > 0 && height >= minHeight && height as real >= ratio * width as real
  {
    if width > 0 {
      var x := height as real / width as real;
      assert x * width as real == height as real;
      if x >= ratio {
        assert (x - ratio) * width as real >= 0.0;
      } else {
        assert (x - ratio) * width as real < 0.0;
      }
    }
  }

  ghost function CutOfSlice(score: ScoreFn, height: int, top: int, p: Params): int {
    var low, high := height - Last(p.target), top + Half(p.target);
    Cut(score, height, top + p.target, Min(low, high), Max(high, low), p.radius, BAND, STEP)
  }

  /** Where the slice that starts at `top` ends. */
  ghost function EndOfSlice(score: ScoreFn, height: int, top: int, p: Params): int {
    if top + p.target >= height then height
    else
      var bottom := CutOfSlice(score, height, top, p);
      if height - bottom < Last(p.target) then height else bottom
  }

  /** Where the next slice starts. */
  function NextTop(top: int, bottom: int, overlap: int): int {
    var next := Max(0, bottom - overlap);
    if next <= top then bottom else next
  }

  /** The top of the slice that the loop cuts in turn n, if it gets there. */
  ghost function TopAt(score: ScoreFn, height: int, p: Params, n: nat): Option<int> {
    if n == 0 then Some(0)
    else match TopAt(score, height, p, n - 1)
      case None => None
      case Some(top) =>
        var bottom := EndOfSlice(score, height, top, p);
        if bottom >= height then None else Some(NextTop(top, bottom, p.overlap))
  }

  /** Every slice goes past what it shares with the one before it. */
  predicate Steady(p: Params) {
    p.target - p.radius > p.overlap || p.target + 1 - Last(p.target) > p.overlap
  }

  /** No slice is empty. */
  predicate Advancing(p: Params) {
    Steady(p.(overlap := 0))
  }

  ghost predicate IsVerticalPlan(score: ScoreFn, height: int, p: Params, slices: seq<VerticalSlice>) {
    && |slices| > 0 && slices[0].top == 0 && slices[|slices| - 1].bottom == height
    && (forall i :: 0 <= i < |slices| ==>
          slices[i].index == i + 1 && slices[i].bottom == EndOfSlice(score, height, slices[i].top, p))
    && (forall i, j :: 0 <= i < |slices| && 0 <= j < |slices| && j == i + 1 ==>
          slices[i].bottom < height && slices[j].top == NextTop(slices[i].top, slices[i].bottom, p.overlap))
  }

  // ---------------------------------------------------------------- one slice

  /** Row p is brighter than row q by more than 0.08 for each row that it is farther from the aim. */
  ghost predicate Outshines(brightness: int -> real, aim: int, p: int, q: int) {
    brightness(p) - brightness(q) > 0.08 * (Distance(p, aim) - Distance(q, aim)) as real
  }

  /** Row y is where a slice from `top` is cut: every eighth row within the radius of the aim that leaves enough above
      and below is looked at, and y is the first that none of them outshines; without such rows, y is the row nearest
      to the aim. */
  ghost predicate IsCutOfSlice(brightness: int -> real, height: int, top: int, p: Params, y: int) {
    var aim, least, most := top + p.target, top + Half(p.target), height - Last(p.target);
    var lo, hi := Max(10, Min(least, most)), Min(height - 10, Max(least, most));
    var start, end := Max(lo, aim - p.radius), Min(hi, aim + p.radius);
    if lo >= hi then y == Max(10, Min(height - 10, aim))
    else if start >= end then y == Max(lo, Min(hi, aim))
    else
      && Visited(start, end, 8, y)
      && forall q :: Visited(start, end, 8, q) ==>
           !Outshines(brightness, aim, q, y) && (!Outshines(brightness, aim, y, q) ==> y <= q)
  }

  lemma {:induction false} CutOfSliceIsBest(brightness: int -> real, height: int, top: int, p: Params)
    ensures IsCutOfSlice(brightness, height, top, p, CutOfSlice(DistanceScore(brightness), height, top, p))
  {
    hide Visited, Outshines, CutOfSlice, DistanceScore, Half, Last;
    var aim, least, most := top + p.target, top + Half(p.target), height - Last(p.target);
    var lo, hi := Max(10, Min(least, most)), Min(height - 10, Max(least, most));
    var start, end := Max(lo, aim - p.radius), Min(hi, aim + p.radius);
    var y := CutOfSlice(DistanceScore(brightness), height, top, p);
    if lo < hi && start < end {
      CutIsLookedAt(brightness, height, top, p);
      forall q | Visited(start, end, 8, q)
        ensures !Outshines(brightness, aim, q, y) && (!Outshines(brightness, aim, y, q) ==> y <= q)
      {
        CutBeats(brightness, height, top, p, q);
      }
    } else {
      NothingToLookAt(DistanceScore(brightness), height, top, p);
    }
  }

  lemma NothingToLookAt(score: ScoreFn, height: int, top: int, p: Params)
    ensures var aim, least, most := top + p.target, top + Half(p.target), height - Last(p.target);
            var lo, hi := Max(10, Min(least, most)), Min(height - 10, Max(least, most));
            var y := CutOfSlice(score, height, top, p);
            && (lo >= hi ==> y == Max(10, Min(height - 10, aim)))
            && (lo < hi && Max(lo, aim - p.radius) >= Min(hi, aim + p.radius) ==> y == Max(lo, Min(hi, aim)))
  {
    hide BestFrom, Half, Last;
  }

  lemma {:induction false} CutIsLookedAt(brightness: int -> real, height: int, top: int, p: Params)
    requires var aim, least, most := top + p.target, top + Half(p.target), height - Last(p.target);
             var lo, hi := Max(10, Min(least, most)), Min(height - 10, Max(least, most));
             lo < hi && Max(lo, aim - p.radius) < Min(hi, aim + p.radius)
    ensures var aim, least, most := top + p.target, top + Half(p.target), height - Last(p.target);
            var lo, hi := Max(10, Min(least, most)), Min(height - 10, Max(least, most));
            Visited(Max(lo, aim - p.radius), Min(hi, aim + p.radius), 8,
                    CutOfSlice(DistanceScore(brightness), height, top, p))
  {
    hide Cut, Visited, DistanceScore, Half, Last;
    var aim, least, most := top + p.target, top + Half(p.target), height - Last(p.target);
    var lo, hi := Max(10, Min(least, most)), Min(height - 10, Max(least, most));
    var score := DistanceScore(brightness);
    var won := CutIsFirstBestProbe(score, height, aim, Min(most, least), Max(least, most), p.radius, 10, 8, 0);
    ProbeIsVisited(Max(lo, aim - p.radius), Min(hi, aim + p.radius), 8, won);
  }

  lemma {:induction false} CutBeats(brightness: int -> real, height: int, top: int, p: Params, q: int)
    requires var aim, least, most := top + p.target, top + Half(p.target), height - Last(p.target);
             var lo, hi := Max(10, Min(least, most)), Min(height - 10, Max(least, most));
             var start, end := Max(lo, aim - p.radius), Min(hi, aim + p.radius);
             lo < hi && start < end && Visited(start, end, 8, q)
    ensures var y, aim := CutOfSlice(DistanceScore(brightness), height, top, p), top + p.target;
            !Outshines(brightness, aim, q, y) && (!Outshines(brightness, aim, y, q) ==> y <= q)
  {
    hide Visited, BestFrom, Probe, DistanceScore, Half, Last;
    var score := DistanceScore(brightness);
    var aim, least, most := top + p.target, top + Half(p.target), height - Last(p.target);
    var start := Max(Max(10, Min(most, least)), aim - p.radius);
    var end := Min(Min(height - 10, Max(least, most)), aim + p.radius);
    var k := VisitedIsProbe(start, end, 8, q);
    var _ := CutIsFirstBestProbe(score, height, aim, Min(most, least), Max(least, most), p.radius, 10, 8, k);
    var y := CutOfSlice(score, height, top, p);
    assert y == Cut(score, height, aim, Min(most, least), Max(least, most), p.radius, 10, 8);
    hide Cut, CutOfSlice;
    DistanceScorePrefers(brightness, aim, q, y);
    DistanceScorePrefers(brightness, aim, y, q);
  }


  lemma CutIsInside(score: ScoreFn, height: int, targetY: int, minY: int, maxY: int, radius: int)
    requires radius >= 0
    ensures var lo, hi := Max(BAND, minY), Min(height - BAND, maxY);
            var y := Cut(score, height, targetY, minY, maxY, radius, BAND, STEP);
            && (lo >= hi ==> y == Max(BAND, Min(height - BAND, targetY)))
            && (lo < hi ==> lo <= y <= hi && (lo <= targetY ==> y >= Min(hi, targetY - radius)))
  {
    var start := Max(Max(BAND, minY), targetY - radius);
    var end := Min(Min(height - BAND, maxY), targetY + radius);
    if start < end {
      var _ := BestFromWins(score, targetY, start + STEP, end, STEP, start, 0);
    }
  }

  /** A slice that does not reach the end of the page leaves at least `Last` rows, and goes beyond its top
      by more than the overlap if the parameters are steady. */
  lemma EndBounds(score: ScoreFn, height: int, top: int, p: Params)
    requires Sound(p) && Steady(p) && 0 <= top < height
    ensures var bottom := EndOfSlice(score, height, top, p);
            && top < bottom <= height
            && (bottom < height ==> top + p.overlap < bottom && Last(p.target) <= height - bottom)
  {
    var low, high := height - Last(p.target), top + Half(p.target);
    CutIsInside(score, height, top + p.target, Min(low, high), Max(high, low), p.radius);
    hide Cut;
  }

  lemma TurnAdvances(score: ScoreFn, height: int, top: int, p: Params)
    requires Sound(p) && Advancing(p) && 0 <= top < height
    ensures var bottom := EndOfSlice(score, height, top, p);
            bottom <= height && (bottom < height ==> top < NextTop(top, bottom, p.overlap) < height)
  {
    hide EndOfSlice;
    EndBounds(score, height, top, p.(overlap := 0));
    EndIgnoresOverlap(score, height, top, p, 0);
  }

  lemma EndIgnoresOverlap(score: ScoreFn, height: int, top: int, p: Params, overlap: int)
    ensures EndOfSlice(score, height, top, p.(overlap := overlap)) == EndOfSlice(score, height, top, p)
  {
    hide Cut;
  }

  method FindEnd(score: ScoreFn, height: int, top: int, p: Params) returns (bottom: int)
    ensures bottom == EndOfSlice(score, height, top, p)
  {
    bottom := Min(height, top + p.target);
    if bottom >= height {
      return height;
    }
    bottom := FindCutPosition(score, height, bottom,
                              Min(height - Last(p.target), top + Half(p.target)),
                              Max(top + Half(p.target), height - Last(p.target)), p.radius, BAND, STEP);
    if height - bottom < Last(p.target) {
      bottom := height;
    }
  }

  // ---------------------------------------------------------------- whole pages

  /** The first `turns` turns of the planning loop: the plan, if the loop ends within them. */
  method SliceByHeight(score: ScoreFn, height: nat, p: Params, turns: nat) returns (plan: Option<seq<VerticalSlice>>)
    requires height >= 1
    ensures plan.Some? <==> TopAt(score, height, p, turns).None?
    ensures plan.Some? ==> IsVerticalPlan(score, height, p, plan.value)
  {
    hide EndOfSlice, NextTop;
    var slices: seq<VerticalSlice> := [];
    var top := 0;
    while |slices| < turns
      invariant |slices| <= turns && TopAt(score, height, p, |slices|) == Some(top)
      invariant if |slices| == 0 then top == 0
                else slices[0].top == 0
                     && top == NextTop(slices[|slices| - 1].top, slices[|slices| - 1].bottom, p.overlap)
      invariant forall i :: 0 <= i < |slices| ==>
                  && slices[i].index == i + 1 && slices[i].bottom < height
                  && slices[i].bottom == EndOfSlice(score, height, slices[i].top, p)
      invariant forall i, j :: 0 <= i < |slices| && 0 <= j < |slices| && j == i + 1 ==>
                  slices[j].top == NextTop(slices[i].top, slices[i].bottom, p.overlap)
      decreases turns - |slices|
    {
      var bottom := FindEnd(score, height, top, p);
      EndIsInside(score, height, top, p);
      slices := slices + [VerticalSlice(|slices| + 1, top, bottom)];
      if bottom >= height {
        EndedStaysEnded(score, height, p, |slices|, turns);
        return Some(slices);
      }
      top := NextTop(top, bottom, p.overlap);
    }
    plan := None;
  }

  lemma EndIsInside(score: ScoreFn, height: int, top: int, p: Params)
    ensures EndOfSlice(score, height, top, p) <= height
  {
  }

  lemma {:induction false} EndedStaysEnded(score: ScoreFn, height: int, p: Params, n: nat, m: nat)
    requires TopAt(score, height, p, n).None? && n <= m
    ensures TopAt(score, height, p, m).None?
  {
    if n < m {
      EndedStaysEnded(score, height, p, n, m - 1);
    }
  }

  method PlanVerticalSlices(width: nat, height: nat, brightness: int -> real, target: int, overlap: int,
                            minHeight: int, ratio: real, radius: int, turns: nat)
    returns (plan: Option<seq<VerticalSlice>>)
    requires height >= 1
    ensures var p := Params(target, EffectiveOverlap(target, overlap), radius);
            if ShouldSplit(width, height, minHeight, ratio) then
              && (plan.Some? <==> TopAt(DistanceScore(brightness), height, p, turns).None?)
              && (plan.Some? ==> IsVerticalPlan(DistanceScore(brightness), height, p, plan.value))
            else plan == Some([VerticalSlice(1, 0, height)])
    ensures plan.Some? && |plan.value| > 1 ==>
              forall o :: IsOverlapFor(o, target, overlap) && radius >= 0 && Steady(Params(target, o, radius)) ==>
                OverlapChain(plan.value, height, o)
  {
    if !ShouldSplit(width, height, minHeight, ratio) {
      return Some([VerticalSlice(1, 0, height)]);
    }
    ghost var p := Params(target, EffectiveOverlap(target, overlap), radius);
    plan := SliceByHeight(DistanceScore(brightness), height, Params(target, EffectiveOverlap(target, overlap), radius),
                          turns);
    forall o | IsOverlapFor(o, target, overlap)
      ensures o == p.overlap
    {
      EffectiveOverlapIs(o, target, overlap);
    }
    if plan.Some? && radius >= 0 && Steady(p) {
      VerticalPlanIsChain(DistanceScore(brightness), height, p, plan.value);
    }
  }

  /** If no slice can be empty, the loop ends within as many turns as the page has rows. */
  lemma {:induction false} AdvancingEnds(score: ScoreFn, height: int, p: Params, n: nat)
    requires height >= 1 && Sound(p) && Advancing(p)
    ensures var top := TopAt(score, height, p, n);
            (top.Some? ==> n <= top.value < height) && (n >= height ==> top.None?)
  {
    hide EndOfSlice, Steady, NextTop;
    if n > 0 {
      AdvancingEnds(score, height, p, n - 1);
      var top := TopAt(score, height, p, n - 1);
      if top.Some? {
        TurnAdvances(score, height, top.value, p);
      }
    }
  }

  /** What holds of slice i of a plan and the one before it. */
  lemma {:induction false} SliceAdvances(score: ScoreFn, height: int, p: Params, slices: seq<VerticalSlice>, i: nat)
    requires height >= 1 && Sound(p) && Steady(p) && IsVerticalPlan(score, height, p, slices) && i < |slices|
    ensures slices[i].index == i + 1 && 0 <= slices[i].top < slices[i].bottom <= height
    ensures slices[i].bottom < height ==>
              slices[i].top + p.overlap < slices[i].bottom && Last(p.target) <= height - slices[i].bottom
    ensures i > 0 ==>
              && slices[i - 1].bottom < height && slices[i].top == slices[i - 1].bottom - p.overlap
              && slices[i - 1].top < slices[i].top
  {
    hide EndOfSlice, Steady, Last;
    assert slices[i].bottom == EndOfSlice(score, height, slices[i].top, p);
    if i > 0 {
      SliceAdvances(score, height, p, slices, i - 1);
      assert slices[i].top == NextTop(slices[i - 1].top, slices[i - 1].bottom, p.overlap);
    }
    EndBounds(score, height, slices[i].top, p);
  }

  /** With steady parameters every slice starts exactly `overlap` rows above the end of the one before it, so
      that the displayed strips tile the page, and the last strip of a split page is not too short. */
  lemma {:induction false} VerticalPlanIsChain(score: ScoreFn, height: int, p: Params, slices: seq<VerticalSlice>)
    requires height >= 1 && Sound(p) && Steady(p) && IsVerticalPlan(score, height, p, slices)
    ensures OverlapChain(slices, height, p.overlap)
    ensures |slices| > 1 ==> Last(p.target) <= height - slices[|slices| - 2].bottom
  {
    hide EndOfSlice, Steady, Last, NextTop;
    forall i | 0 <= i < |slices|
      ensures slices[i].index == i + 1 && slices[i].top < slices[i].bottom
      ensures i > 0 ==>
                && slices[i].top == slices[i - 1].bottom - p.overlap
                && slices[i - 1].top < slices[i].top && slices[i - 1].bottom < slices[i].bottom
    {
      SliceAdvances(score, height, p, slices, i);
      if 0 < i {
        SliceAdvances(score, height, p, slices, i - 1);
      }
    }
    if |slices| > 1 {
      SliceAdvances(score, height, p, slices, |slices| - 1);
      SliceAdvances(score, height, p, slices, |slices| - 2);
    }
  }

  lemma VerticalPageTiles(score: ScoreFn, height: int, p: Params, slices: seq<VerticalSlice>, pageIndex: nat,
                          plan: seq<PlannedSegment>)
    requires height >= 1 && Sound(p) && Steady(p)
    requires IsVerticalPlan(score, height, p, slices) && IsPagePlan(plan, pageIndex, slices)
    ensures TilesPage(plan, height) && NumbersPage(plan, pageIndex) && ReadsAbove(plan, p.overlap)
  {
    VerticalPlanIsChain(score, height, p, slices);
    PagePlanTiles(plan, pageIndex, slices, height, p.overlap);
  }

  /** Slice heights from 480 rows are steady whatever the radius and the overlap. */
  lemma TallTargetsAreSteady(p: Params)
    requires p.target >= 480 && Sound(p)
    ensures Steady(p)
  {
  }
}
