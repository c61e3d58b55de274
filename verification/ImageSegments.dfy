/** The ratio slice planner of app/translation/image_segments.py: a tall page is cut into
    overlapping OCR slices whose bounds depend on the brightness of the page. */
module ImageSegments {
  import opened Common

  /** Rows [top, bottom) of the page; `index` counts from 1. */
  datatype VerticalSlice = VerticalSlice(index: nat, top: int, bottom: int)

  datatype PlanError = BadHeightRatio | BadOverlapRatio

  /** All pixel quantities the planner derives once from the page width. */
  datatype Grid = Grid(target: int, overlap: int, tail: int, half: int,
                       radius: int, band: int, step: int)

  /** Python's round(): the nearest integer, ties to the even one. */
  function Round(x: real): int {
    var f := x.Floor;
    var d := x - f as real;
    if d < 0.5 || (d == 0.5 && f % 2 == 0) then f else f + 1
  }

  function Share(width: nat, ratio: real): real {
    width as real * ratio
  }

  function Part(target: int, parts: real): real
    requires parts > 0.0
  {
    target as real / parts
  }

  function RatioGrid(width: nat, heightRatio: real, overlapRatio: real): Grid
    requires width >= 1
  {
    var target := Max(1, Round(Share(width, heightRatio)));
    Grid(target,
         Min(target - 1, Round(Share(width, overlapRatio))),
         Max(1, Round(Part(target, 3.0))),
         Round(Part(target, 2.0)),
         Max(1, Round(Share(width, 0.25))),
         Max(1, Round(Share(width, 0.014))),
         Max(1, Round(Share(width, 0.011))))
  }

  /** What the planning loop relies on. */
  ghost predicate SoundGrid(g: Grid) {
    && 0 <= g.overlap < g.target
    && 1 <= g.tail <= g.target
    && g.half <= g.target
    && 1 <= g.radius && 1 <= g.band && 1 <= g.step
  }

  /** n is the integer nearest to x, the even one if two are equally near. */
  ghost predicate IsNearest(n: int, x: real) {
    && -0.5 <= n as real - x <= 0.5
    && (n as real - x == 0.5 || x - n as real == 0.5 ==> n % 2 == 0)
  }

  lemma RoundIsNearest(x: real, n: int)
    ensures IsNearest(n, x) <==> n == Round(x)
  {
    assert x.Floor as real <= x < x.Floor as real + 1.0;
    if IsNearest(n, x) {
      assert -1.0 <= n as real - Round(x) as real <= 1.0;
      assert n == Round(x) - 1 || n == Round(x) || n == Round(x) + 1;
    }
  }

  /** The quantities that the ratios ask for: every one the integer nearest to its fraction of the page width, or
      of the target, and at least 1; the overlap is shorter than the target. */
  ghost predicate IsRatioGrid(g: Grid, width: nat, heightRatio: real, overlapRatio: real) {
    && IsNearestPositive(g.target, Share(width, heightRatio))
    && IsNearestBelow(g.overlap, Share(width, overlapRatio), g.target)
    && IsNearestPositive(g.tail, Part(g.target, 3.0))
    && IsNearest(g.half, Part(g.target, 2.0))
    && IsNearestPositive(g.radius, Share(width, 0.25))
    && IsNearestPositive(g.band, Share(width, 0.014))
    && IsNearestPositive(g.step, Share(width, 0.011))
  }

  ghost predicate IsNearestPositive(n: int, x: real) {
    n >= 1 && if x < 1.0 then n == 1 else IsNearest(n, x)
  }

  ghost predicate IsNearestBelow(n: int, x: real, bound: int) {
    n < bound && (IsNearest(n, x) || (n == bound - 1 && bound as real <= x + 0.5))
  }

  lemma RatioGridIsSound(width: nat, heightRatio: real, overlapRatio: real)
    requires width >= 1 && heightRatio > 0.0 && 0.0 <= overlapRatio < heightRatio
    ensures SoundGrid(RatioGrid(width, heightRatio, overlapRatio))
  {
    assert width as real * overlapRatio >= 0.0;
  }

  lemma RoundIsNearestPositive(x: real, n: int)
    ensures IsNearestPositive(n, x) <==> n == Max(1, Round(x))
  {
    RoundIsNearest(x, n);
    RoundIsNearest(x, Round(x));
  }

  lemma RoundIsNearestBelow(x: real, n: int, bound: int)
    ensures IsNearestBelow(n, x, bound) <==> n == Min(bound - 1, Round(x))
  {
    RoundIsNearest(x, n);
    RoundIsNearest(x, Round(x));
  }

  /** The quantities of the planner are the only ones that the ratios ask for. */
  lemma RatioGridIsAskedFor(width: nat, heightRatio: real, overlapRatio: real, g: Grid)
    requires width >= 1 && heightRatio > 0.0 && overlapRatio >= 0.0
    ensures IsRatioGrid(g, width, heightRatio, overlapRatio) <==> g == RatioGrid(width, heightRatio, overlapRatio)
  {
    hide Round, IsNearest, IsNearestPositive, IsNearestBelow, Share, Part;
    RoundIsNearestPositive(Share(width, heightRatio), g.target);
    RoundIsNearestBelow(Share(width, overlapRatio), g.overlap, g.target);
    RoundIsNearestPositive(Part(g.target, 3.0), g.tail);
    RoundIsNearest(Part(g.target, 2.0), g.half);
    RoundIsNearestPositive(Share(width, 0.25), g.radius);
    RoundIsNearestPositive(Share(width, 0.014), g.band);
    RoundIsNearestPositive(Share(width, 0.011), g.step);
  }

  // ---------------------------------------------------------------- cut position

  /** The score of a cut at row y for a slice that aims for targetY. */
  type ScoreFn = (int, int) -> real

  /** The code's score: mean brightness around the row, minus a penalty for its distance to the target. */
  function BrightnessScore(width: nat, brightness: int -> real): ScoreFn
    requires width >= 1
  {
    (targetY: int, y: int) =>
      brightness(y) - (if y < targetY then targetY - y else y - targetY) as real * (57.6 / width as real)
  }

  /** The best of `best` and the probes y, y + step, ... up to `end`; ties keep the earlier one. */
  ghost function BestFrom(score: ScoreFn, targetY: int, y: int, end: int, step: int, best: int): int
    requires step >= 1
    decreases end - y
  {
    if y > end then best
    else BestFrom(score, targetY, y + step, end, step, if score(targetY, y) > score(targetY, best) then y else best)
  }

  /** The row at which a slice that aims for `targetY` is cut. */
  ghost function Cut(score: ScoreFn, height: int, targetY: int, minY: int, maxY: int,
                     radius: int, band: int, step: int): int
    requires step >= 1
  {
    var lo := Max(band, minY);
    var hi := Min(height - band, maxY);
    var start := Max(lo, targetY - radius);
    var end := Min(hi, targetY + radius);
    if lo >= hi then Max(band, Min(height - band, targetY))
    else if start >= end then Max(lo, Min(hi, targetY))
    else BestFrom(score, targetY, start + step, end, step, start)
  }

  method FindCutPosition(score: ScoreFn, height: int, targetY: int, minY: int, maxY: int,
                         radius: int, band: int, step: int)
    returns (bestY: int)
    requires step >= 1
    ensures bestY == Cut(score, height, targetY, minY, maxY, radius, band, step)
  {
    var lo := Max(band, minY);
    var hi := Min(height - band, maxY);
    if lo >= hi {
      return Max(band, Min(height - band, targetY));
    }
    var start := Max(lo, targetY - radius);
    var end := Min(hi, targetY + radius);
    if start >= end {
      return Max(lo, Min(hi, targetY));
    }
    bestY := Max(lo, Min(hi, targetY));
    var bestScore: Option<real> := None;
    var y := start;
    while y <= end
      invariant bestScore == None ==> y == start
      invariant bestScore.Some? ==>
                  && bestScore.value == score(targetY, bestY)
                  && BestFrom(score, targetY, y, end, step, bestY)
                     == BestFrom(score, targetY, start + step, end, step, start)
      decreases end - y
    {
      var s := score(targetY, y);
      if bestScore == None || s > bestScore.value {
        bestScore := Some(s);
        bestY := y;
      }
      y := y + step;
    }
  }

  /** The k-th row that a search from `start` visits. */
  ghost function Probe(start: int, step: int, k: nat): int
    requires step >= 1
    decreases k
  {
    if k == 0 then start else Probe(start + step, step, k - 1)
  }

  /** The search returns a probe, or the row it held before; nothing it visits scores better, and
      nothing it visits earlier scores as well. */
  lemma {:induction false} BestFromWins(score: ScoreFn, targetY: int, y: int, end: int, step: int, best: int, k: nat)
    returns (won: nat)
    requires step >= 1 && best < y
    ensures var r := BestFrom(score, targetY, y, end, step, best);
            && (r == best || (y <= r <= end && r == Probe(y, step, won)))
            && score(targetY, best) <= score(targetY, r)
            && (score(targetY, best) == score(targetY, r) ==> r == best)
            && (Probe(y, step, k) <= end ==>
                  && score(targetY, Probe(y, step, k)) <= score(targetY, r)
                  && (score(targetY, Probe(y, step, k)) == score(targetY, r) ==> r <= Probe(y, step, k)))
    decreases end - y
  {
    won := 0;
    if y > end {
      ProbeAtLeast(y, step, k);
    } else {
      var next := if score(targetY, y) > score(targetY, best) then y else best;
      var w := BestFromWins(score, targetY, y + step, end, step, next, if k == 0 then 0 else k - 1);
      if BestFrom(score, targetY, y, end, step, best) != next {
        won := w + 1;
      }
    }
  }

  lemma ProbeAtLeast(y: int, step: int, k: nat)
    requires step >= 1
    ensures y <= Probe(y, step, k)
    decreases k
  {
    if k > 0 {
      ProbeAtLeast(y + step, step, k - 1);
    }
  }

  /** When there is room to search, the cut is the first best-scoring row among start, start + step, ...:
      it is one of them, none of them scores better, and none of the earlier ones scores as well. */
  lemma CutIsFirstBestProbe(score: ScoreFn, height: int, targetY: int, minY: int, maxY: int,
                            radius: int, band: int, step: int, k: nat)
    returns (won: nat)
    requires step >= 1
    requires Max(band, minY) < Min(height - band, maxY)
    requires Max(Max(band, minY), targetY - radius) < Min(Min(height - band, maxY), targetY + radius)
    ensures var start := Max(Max(band, minY), targetY - radius);
            var end := Min(Min(height - band, maxY), targetY + radius);
            var y := Cut(score, height, targetY, minY, maxY, radius, band, step);
            && y == Probe(start, step, won) <= end
            && (Probe(start, step, k) <= end ==>
                  && score(targetY, Probe(start, step, k)) <= score(targetY, y)
                  && (score(targetY, Probe(start, step, k)) == score(targetY, y) ==> y <= Probe(start, step, k)))
  {
    var start := Max(Max(band, minY), targetY - radius);
    var end := Min(Min(height - band, maxY), targetY + radius);
    var w := BestFromWins(score, targetY, start + step, end, step, start, if k == 0 then 0 else k - 1);
    won := if BestFrom(score, targetY, start + step, end, step, start) == start then 0 else w + 1;
  }

  lemma CutIsNear(score: ScoreFn, height: int, targetY: int, minY: int, maxY: int, radius: int, band: int, step: int)
    requires step >= 1 && radius >= 0 && minY <= targetY
    ensures Cut(score, height, targetY, minY, maxY, radius, band, step) <= Max(band, targetY + radius)
  {
    var start := Max(Max(band, minY), targetY - radius);
    var end := Min(Min(height - band, maxY), targetY + radius);
    var _ := BestFromWins(score, targetY, start + step, end, step, start, 0);
  }

  // ---------------------------------------------------------------- slices

  /** Where the slice that starts at `top` is cut, before the page end and the overlap are respected. */
  ghost function SliceCut(g: Grid, score: ScoreFn, height: int, top: int): int
    requires g.step >= 1
  {
    Cut(score, height, top + g.target, Min(height, top + Max(g.overlap + 1, g.half)), height - g.tail,
        g.radius, g.band, g.step)
  }

  /** Where the slice that starts at `top` ends: a remainder shorter than `tail` is absorbed, and
      every other slice advances past the overlap. */
  ghost function Bottom(g: Grid, score: ScoreFn, height: int, top: int): int
    requires g.step >= 1
  {
    if height - Min(height, top + g.target) < g.tail then height
    else
      var bottom := Min(height, Max(top + g.overlap + 1, SliceCut(g, score, height, top)));
      if height - bottom < g.tail then height else bottom
  }

  method NextBottom(g: Grid, height: nat, score: ScoreFn, top: nat) returns (bottom: int)
    requires SoundGrid(g) && top < height
    ensures bottom == Bottom(g, score, height, top)
  {
    bottom := Min(height, top + g.target);
    if height - bottom < g.tail {
      bottom := height;
    }
    if bottom < height {
      bottom := FindCutPosition(score, height, bottom, Min(height, top + Max(g.overlap + 1, g.half)),
                                height - g.tail, g.radius, g.band, g.step);
      bottom := Min(height, Max(top + g.overlap + 1, bottom));
      if height - bottom < g.tail {
        bottom := height;
      }
    }
  }

  /** Slices run from row 0 to `height`, numbered from 1, each `overlap` rows above the end of the one before it. */
  ghost predicate FollowByOverlap(slices: seq<VerticalSlice>, height: int, overlap: int) {
    && |slices| > 0 && slices[0].top == 0 && slices[|slices| - 1].bottom == height
    && (forall i :: 0 <= i < |slices| ==> slices[i].index == i + 1)
    && (forall i, j :: 0 <= i < |slices| && 0 <= j < |slices| && j == i + 1 ==>
          slices[i].bottom < height && slices[j].top == slices[i].bottom - overlap)
  }

  /** The slices follow one another by the rule, `overlap` rows apart, from row 0 to `height`. */
  ghost predicate IsRatioPlan(g: Grid, score: ScoreFn, height: int, slices: seq<VerticalSlice>)
    requires g.step >= 1
  {
    if height <= g.target then slices == [VerticalSlice(1, 0, height)]
    else
      && FollowByOverlap(slices, height, g.overlap)
      && forall i :: 0 <= i < |slices| ==> slices[i].bottom == Bottom(g, score, height, slices[i].top)
  }

  /** The planning loop, once the pixel quantities are known. */
  method SliceOnGrid(g: Grid, height: nat, score: ScoreFn) returns (slices: seq<VerticalSlice>)
    requires SoundGrid(g)
    ensures IsRatioPlan(g, score, height, slices)
  {
    hide Bottom;
    if height <= g.target {
      return [VerticalSlice(1, 0, height)];
    }
    slices := [];
    var top := 0;
    while top < height
      invariant 0 <= top < height
      invariant if |slices| == 0 then top == 0
                else slices[0].top == 0 && top == slices[|slices| - 1].bottom - g.overlap
      invariant forall i :: 0 <= i < |slices| ==>
                  && slices[i].index == i + 1 && slices[i].bottom < height
                  && slices[i].bottom == Bottom(g, score, height, slices[i].top)
      invariant forall i, j :: 0 <= i < |slices| && 0 <= j < |slices| && j == i + 1 ==>
                  slices[j].top == slices[i].bottom - g.overlap
      decreases height - top
    {
      var bottom := NextBottom(g, height, score, top);
      slices := slices + [VerticalSlice(|slices| + 1, top, bottom)];
      if bottom == height {
        break;
      }
      BottomBounds(g, score, height, top);
      top := bottom - g.overlap;
    }
  }

  // ---------------------------------------------------------------- what the ratios ask for

  function Distance(y: int, z: int): int {
    if y < z then z - y else y - z
  }

  /** Row p is a better cut than q for a slice that aims for row `aim`: 57.6 grey levels are worth a distance of
      one page width. */
  ghost predicate Brighter(width: nat, brightness: int -> real, aim: int, p: int, q: int) {
    (brightness(p) - brightness(q)) * width as real > 57.6 * (Distance(p, aim) - Distance(q, aim)) as real
  }

  /** The search visits every step-th row from `start` to `end`. */
  predicate Visited(start: int, end: int, step: int, y: int)
    requires step >= 1
    decreases end - start
  {
    start <= y <= end && (y == start || Visited(start + step, end, step, y))
  }

  /** Row y is where a slice from `top` is cut: the first of the best visited rows when there is room to search, and
      otherwise the row nearest to the aim. */
  ghost predicate IsBestCut(g: Grid, width: nat, brightness: int -> real, height: int, top: int, y: int)
    requires g.step >= 1
  {
    var aim := top + g.target;
    var lo := Max(g.band, Min(height, top + Max(g.overlap + 1, g.half)));
    var hi := Min(height - g.band, height - g.tail);
    var start, end := Max(lo, aim - g.radius), Min(hi, aim + g.radius);
    if lo >= hi then y == Max(g.band, Min(height - g.band, aim))
    else if start >= end then y == Max(lo, Min(hi, aim))
    else
      && Visited(start, end, g.step, y)
      && forall q :: Visited(start, end, g.step, q) ==>
           !Brighter(width, brightness, aim, q, y) && (!Brighter(width, brightness, aim, y, q) ==> y <= q)
  }

  /** The slice ends at the page end if less than a tail would be left, and at its best cut otherwise. */
  ghost predicate EndsWell(g: Grid, width: nat, brightness: int -> real, height: int, slice: VerticalSlice)
    requires g.step >= 1
  {
    if height - (slice.top + g.target) < g.tail then slice.bottom == height
    else
      exists y :: IsBestCut(g, width, brightness, height, slice.top, y)
        && var end := Min(height, Max(slice.top + g.overlap + 1, y));
           slice.bottom == if height - end < g.tail then height else end
  }

  /** A page no taller than the target is one slice; otherwise every slice ends well and the next one starts
      `overlap` rows above that. */
  ghost predicate IsAskedFor(g: Grid, width: nat, brightness: int -> real, height: int, slices: seq<VerticalSlice>)
    requires g.step >= 1
  {
    if height <= g.target then slices == [VerticalSlice(1, 0, height)]
    else
      && FollowByOverlap(slices, height, g.overlap)
      && forall i :: 0 <= i < |slices| ==> EndsWell(g, width, brightness, height, slices[i])
  }

  /** The score prefers one row to another exactly if it is the better cut. */
  lemma ScoreIsBrighter(width: nat, brightness: int -> real, aim: int, p: int, q: int)
    requires width >= 1
    ensures BrightnessScore(width, brightness)(aim, p) > BrightnessScore(width, brightness)(aim, q) <==>
              Brighter(width, brightness, aim, p, q)
  {
    var w := width as real;
    var dp, dq := Distance(p, aim) as real, Distance(q, aim) as real;
    Scaled(brightness(p) - brightness(q), dp - dq, w);
    assert dp * (57.6 / w) - dq * (57.6 / w) == (dp - dq) * (57.6 / w);
  }

  lemma Scaled(gain: real, loss: real, w: real)
    requires w > 0.0
    ensures gain > loss * (57.6 / w) <==> gain * w > 57.6 * loss
  {
    var x := 57.6 / w;
    assert x * w == 57.6;
    assert (gain - loss * x) * w == gain * w - loss * (x * w);
    if gain > loss * x {
      assert (gain - loss * x) * w > 0.0;
    } else {
      assert (gain - loss * x) * w <= 0.0;
    }
  }

  /** Of two rows at the same distance the brighter one is better, and of two equally bright ones the nearer. */
  lemma BrighterOrNearer(width: nat, brightness: int -> real, aim: int, p: int, q: int)
    requires width >= 1
    ensures Distance(p, aim) == Distance(q, aim) ==>
              (Brighter(width, brightness, aim, p, q) <==> brightness(p) > brightness(q))
    ensures brightness(p) == brightness(q) ==>
              (Brighter(width, brightness, aim, p, q) <==> Distance(p, aim) < Distance(q, aim))
  {
    Scaled(brightness(p) - brightness(q), 0.0, width as real);
  }

  lemma {:induction false} ProbeIsVisited(start: int, end: int, step: int, k: nat)
    requires step >= 1 && Probe(start, step, k) <= end
    ensures Visited(start, end, step, Probe(start, step, k))
    decreases k
  {
    ProbeAtLeast(start, step, k);
    if k > 0 {
      ProbeIsVisited(start + step, end, step, k - 1);
    }
  }

  lemma {:induction false} VisitedIsProbe(start: int, end: int, step: int, y: int) returns (k: nat)
    requires step >= 1 && Visited(start, end, step, y)
    ensures y == Probe(start, step, k) <= end
    decreases end - start
  {
    if y == start {
      k := 0;
    } else {
      k := VisitedIsProbe(start + step, end, step, y);
      k := k + 1;
    }
  }

  lemma {:induction false} CutIsBest(g: Grid, width: nat, brightness: int -> real, height: int, top: int)
    requires SoundGrid(g) && width >= 1
    ensures IsBestCut(g, width, brightness, height, top, SliceCut(g, BrightnessScore(width, brightness), height, top))
  {
    var aim := top + g.target;
    var lo := Max(g.band, Min(height, top + Max(g.overlap + 1, g.half)));
    var hi := Min(height - g.band, height - g.tail);
    var start, end := Max(lo, aim - g.radius), Min(hi, aim + g.radius);
    if lo < hi && start < end {
      hide Cut, Brighter, Visited, BrightnessScore;
      CutIsVisited(g, width, brightness, height, top);
      hide SliceCut;
      forall q | Visited(start, end, g.step, q)
        ensures var y := SliceCut(g, BrightnessScore(width, brightness), height, top);
                !Brighter(width, brightness, aim, q, y) && (!Brighter(width, brightness, aim, y, q) ==> y <= q)
      {
        VisitedIsBeaten(g, width, brightness, height, top, q);
      }
    } else {
      hide BestFrom, Brighter, Visited;
    }
  }

  lemma {:induction false} CutIsVisited(g: Grid, width: nat, brightness: int -> real, height: int, top: int)
    requires SoundGrid(g) && width >= 1
    requires var aim := top + g.target;
             var lo := Max(g.band, Min(height, top + Max(g.overlap + 1, g.half)));
             var hi := Min(height - g.band, height - g.tail);
             lo < hi && Max(lo, aim - g.radius) < Min(hi, aim + g.radius)
    ensures var aim := top + g.target;
            var lo := Max(g.band, Min(height, top + Max(g.overlap + 1, g.half)));
            var hi := Min(height - g.band, height - g.tail);
            Visited(Max(lo, aim - g.radius), Min(hi, aim + g.radius), g.step,
                    SliceCut(g, BrightnessScore(width, brightness), height, top))
  {
    hide Cut, BrightnessScore, Visited;
    var aim := top + g.target;
    var minY, maxY := Min(height, top + Max(g.overlap + 1, g.half)), height - g.tail;
    var lo, hi := Max(g.band, minY), Min(height - g.band, maxY);
    var won := CutIsFirstBestProbe(BrightnessScore(width, brightness), height, aim, minY, maxY, g.radius, g.band,
                                   g.step, 0);
    ProbeIsVisited(Max(lo, aim - g.radius), Min(hi, aim + g.radius), g.step, won);
  }

  lemma {:induction false} VisitedIsBeaten(g: Grid, width: nat, brightness: int -> real, height: int, top: int, q: int)
    requires SoundGrid(g) && width >= 1
    requires var aim := top + g.target;
             var lo := Max(g.band, Min(height, top + Max(g.overlap + 1, g.half)));
             var hi := Min(height - g.band, height - g.tail);
             var start, end := Max(lo, aim - g.radius), Min(hi, aim + g.radius);
             lo < hi && start < end && Visited(start, end, g.step, q)
    ensures var y, aim := SliceCut(g, BrightnessScore(width, brightness), height, top), top + g.target;
            !Brighter(width, brightness, aim, q, y) && (!Brighter(width, brightness, aim, y, q) ==> y <= q)
  {
    var score := BrightnessScore(width, brightness);
    var aim := top + g.target;
    var minY, maxY := Min(height, top + Max(g.overlap + 1, g.half)), height - g.tail;
    var start := Max(Max(g.band, minY), aim - g.radius);
    var end := Min(Min(height - g.band, maxY), aim + g.radius);
    var k := VisitedIsProbe(start, end, g.step, q);
    var _ := CutIsFirstBestProbe(score, height, aim, minY, maxY, g.radius, g.band, g.step, k);
    var y := SliceCut(g, score, height, top);
    assert y == Cut(score, height, aim, minY, maxY, g.radius, g.band, g.step);
    hide Cut, SliceCut, BrightnessScore;
    ScoreIsBrighter(width, brightness, aim, q, y);
    ScoreIsBrighter(width, brightness, aim, y, q);
  }

  lemma {:induction false} SliceEndsWell(g: Grid, width: nat, brightness: int -> real, height: int,
                                         slices: seq<VerticalSlice>, i: nat)
    requires SoundGrid(g) && width >= 1 && height > g.target && i < |slices|
    requires IsRatioPlan(g, BrightnessScore(width, brightness), height, slices)
    ensures EndsWell(g, width, brightness, height, slices[i])
  {
    assert slices[i].bottom == Bottom(g, BrightnessScore(width, brightness), height, slices[i].top);
    BottomIsWell(g, width, brightness, height, slices[i]);
  }

  lemma {:induction false} BottomIsWell(g: Grid, width: nat, brightness: int -> real, height: int,
                                        slice: VerticalSlice)
    requires SoundGrid(g) && width >= 1
    requires slice.bottom == Bottom(g, BrightnessScore(width, brightness), height, slice.top)
    ensures EndsWell(g, width, brightness, height, slice)
  {
    hide IsBestCut, SliceCut, BrightnessScore;
    CutIsBest(g, width, brightness, height, slice.top);
    if height - (slice.top + g.target) >= g.tail {
      var y := SliceCut(g, BrightnessScore(width, brightness), height, slice.top);
      var end := Min(height, Max(slice.top + g.overlap + 1, y));
      assert IsBestCut(g, width, brightness, height, slice.top, y);
      assert slice.bottom == if height - end < g.tail then height else end;
    }
  }

  /** The plan that the loop makes is the one that is asked for. */
  lemma {:induction false} RatioPlanIsAskedFor(g: Grid, width: nat, brightness: int -> real, height: int,
                                               slices: seq<VerticalSlice>)
    requires SoundGrid(g) && width >= 1 && IsRatioPlan(g, BrightnessScore(width, brightness), height, slices)
    ensures IsAskedFor(g, width, brightness, height, slices)
  {
    hide EndsWell, FollowByOverlap, Bottom;
    if height > g.target {
      forall i | 0 <= i < |slices|
        ensures EndsWell(g, width, brightness, height, slices[i])
      {
        SliceEndsWell(g, width, brightness, height, slices, i);
      }
    }
  }

  method PlanRatioSlices(width: nat, height: nat, brightness: int -> real, heightRatio: real, overlapRatio: real)
    returns (r: Result<seq<VerticalSlice>, PlanError>)
    requires width >= 1
    ensures heightRatio <= 0.0 ==> r == Err(BadHeightRatio)
    ensures heightRatio > 0.0 && !(0.0 <= overlapRatio < heightRatio) ==> r == Err(BadOverlapRatio)
    ensures heightRatio > 0.0 && 0.0 <= overlapRatio < heightRatio ==>
              && r.Ok?
              && SoundGrid(RatioGrid(width, heightRatio, overlapRatio))
              && IsRatioPlan(RatioGrid(width, heightRatio, overlapRatio), BrightnessScore(width, brightness), height,
                             r.value)
    ensures heightRatio > 0.0 && 0.0 <= overlapRatio < heightRatio ==>
              && r.Ok?
              && forall g :: IsRatioGrid(g, width, heightRatio, overlapRatio) ==>
                   IsAskedFor(g, width, brightness, height, r.value)
  {
    hide IsRatioPlan, IsAskedFor;
    if heightRatio <= 0.0 {
      return Err(BadHeightRatio);
    }
    if !(0.0 <= overlapRatio < heightRatio) {
      return Err(BadOverlapRatio);
    }
    RatioGridIsSound(width, heightRatio, overlapRatio);
    var slices := SliceOnGrid(RatioGrid(width, heightRatio, overlapRatio), height, BrightnessScore(width, brightness));
    RatioPlanIsAskedFor(RatioGrid(width, heightRatio, overlapRatio), width, brightness, height, slices);
    forall g | IsRatioGrid(g, width, heightRatio, overlapRatio)
      ensures g == RatioGrid(width, heightRatio, overlapRatio)
    {
      RatioGridIsAskedFor(width, heightRatio, overlapRatio, g);
    }
    return Ok(slices);
  }

  // ---------------------------------------------------------------- what a plan guarantees

  /** Slices run from row 0 to `height`; each starts exactly `overlap` rows above the end of the
      one before it, and both ends strictly advance. */
  ghost predicate OverlapChain(slices: seq<VerticalSlice>, height: int, overlap: int) {
    && |slices| > 0 && slices[0].top == 0 && slices[|slices| - 1].bottom == height
    && (forall i :: 0 <= i < |slices| ==> slices[i].index == i + 1 && slices[i].top < slices[i].bottom)
    && (forall i, j :: 0 <= i < |slices| && 0 <= j < |slices| && j == i + 1 ==>
          && slices[j].top == slices[i].bottom - overlap
          && slices[i].top < slices[j].top
          && slices[i].bottom < slices[j].bottom)
  }

  lemma BottomBounds(g: Grid, score: ScoreFn, height: int, top: int)
    requires SoundGrid(g) && 0 <= top < height
    ensures var bottom := Bottom(g, score, height, top);
            && top < bottom <= height
            && (bottom < height ==> top + g.overlap < bottom && g.tail <= height - bottom)
            && bottom - top < Max(g.target + g.radius, g.band) + g.tail
  {
    CutIsNear(score, height, top + g.target, Min(height, top + Max(g.overlap + 1, g.half)), height - g.tail,
              g.radius, g.band, g.step);
  }

  /** Every slice of a plan that has to split the page starts inside the page. */
  lemma {:induction false} TopsInside(g: Grid, score: ScoreFn, height: int, slices: seq<VerticalSlice>, i: nat)
    requires SoundGrid(g) && g.target < height && IsRatioPlan(g, score, height, slices)
    requires i < |slices|
    ensures 0 <= slices[i].top < height
  {
    if i > 0 {
      TopsInside(g, score, height, slices, i - 1);
      BottomBounds(g, score, height, slices[i - 1].top);
    }
  }

  lemma {:induction false} RatioPlanIsChain(g: Grid, score: ScoreFn, height: int, slices: seq<VerticalSlice>)
    requires SoundGrid(g) && height >= 1 && IsRatioPlan(g, score, height, slices)
    ensures OverlapChain(slices, height, g.overlap)
  {
    if height > g.target {
      forall i | 0 <= i < |slices|
        ensures slices[i].top < slices[i].bottom <= height
        ensures slices[i].bottom < height ==> slices[i].top + g.overlap < slices[i].bottom
      {
        TopsInside(g, score, height, slices, i);
        BottomBounds(g, score, height, slices[i].top);
      }
    }
  }

  /** No slice is as long as the target (or the band) plus the search radius plus one absorbed tail,
      and when the page is split, the part of it that only the last slice shows has at least `tail` rows. */
  lemma {:induction false} RatioPlanSizes(g: Grid, score: ScoreFn, height: int, slices: seq<VerticalSlice>)
    requires SoundGrid(g) && height >= 1 && IsRatioPlan(g, score, height, slices)
    ensures forall i :: 0 <= i < |slices| ==>
              slices[i].bottom - slices[i].top < Max(g.target + g.radius, g.band) + g.tail
    ensures |slices| > 1 ==> g.tail <= height - slices[|slices| - 2].bottom
  {
    if height > g.target {
      forall i | 0 <= i < |slices|
        ensures slices[i].bottom - slices[i].top < Max(g.target + g.radius, g.band) + g.tail
        ensures slices[i].bottom < height ==> g.tail <= height - slices[i].bottom
      {
        TopsInside(g, score, height, slices, i);
        BottomBounds(g, score, height, slices[i].top);
      }
      if |slices| > 1 {
        var last := |slices| - 1;
        assert slices[last - 1].bottom < height;
      }
    }
  }
}
