/** Exactly which parameters the older slice planner (VerticalSlices) can be given: pages, as rows of grey
    values, on which it fails otherwise. */
module VerticalSliceLimits {
  import opened Common
  import opened ImageSegments
  import opened VerticalSlices

  // ---------------------------------------------------------------- pages

  /** A page gives the mean grey value of each row, between black and white. */
  ghost predicate IsPage(rows: int -> real) {
    forall y :: 0.0 <= rows(y) <= 255.0
  }

  ghost function Sum(rows: int -> real, lo: int, hi: int): real
    decreases hi - lo
  {
    if lo >= hi then 0.0 else Sum(rows, lo, hi - 1) + rows(hi - 1)
  }

  /** The brightness that a cut at row y is judged by: the mean of the band around it. */
  ghost function BandMean(rows: int -> real): int -> real {
    (y: int) => Sum(rows, y - BAND, y + BAND) / 20.0
  }

  ghost function PageScore(rows: int -> real): ScoreFn {
    DistanceScore(BandMean(rows))
  }

  lemma {:induction false} WhiteSum(rows: int -> real, lo: int, hi: int)
    requires lo <= hi && forall y :: lo <= y < hi ==> rows(y) == 255.0
    ensures Sum(rows, lo, hi) == 255.0 * (hi - lo) as real
    decreases hi - lo
  {
    if lo < hi {
      WhiteSum(rows, lo, hi - 1);
    }
  }

  /** At most the rows before `mid` are not black. */
  lemma {:induction false} SumAtMost(rows: int -> real, lo: int, mid: int, hi: int)
    requires lo <= mid && lo <= hi && IsPage(rows) && forall y :: mid <= y < hi ==> rows(y) == 0.0
    ensures Sum(rows, lo, hi) <= 255.0 * (Min(mid, hi) - lo) as real
    decreases hi - lo
  {
    if lo < hi {
      SumAtMost(rows, lo, if mid < hi then mid else hi - 1, hi - 1);
    }
  }

  lemma WhiteBand(rows: int -> real, y: int)
    requires forall r :: y - BAND <= r < y + BAND ==> rows(r) == 255.0
    ensures BandMean(rows)(y) == 255.0
  {
    WhiteSum(rows, y - BAND, y + BAND);
  }

  /** A band of which at most the rows before `mid` are not black. */
  lemma DarkBand(rows: int -> real, mid: int, y: int)
    requires IsPage(rows) && mid + BAND <= y + 12 && forall r :: mid <= r < y + BAND ==> rows(r) == 0.0
    ensures BandMean(rows)(y) <= 153.0
  {
    SumAtMost(rows, y - BAND, Max(mid, y - BAND), y + BAND);
  }

  lemma AnyBand(rows: int -> real, y: int)
    requires IsPage(rows)
    ensures BandMean(rows)(y) <= 255.0
  {
    SumAtMost(rows, y - BAND, y + BAND, y + BAND);
  }

  // ---------------------------------------------------------------- where a bright row is cut

  /** Whatever a slice aims for, no row that is 8 or more rows below y is as good a cut as y. */
  ghost predicate Prefers(score: ScoreFn, y: int) {
    forall targetY, q :: targetY <= y + 1000 && q >= y + STEP ==> score(targetY, q) < score(targetY, y)
  }

  lemma BrightIsPreferred(rows: int -> real, y: int)
    requires BandMean(rows)(y) == 255.0 && forall q :: q >= y + STEP ==> BandMean(rows)(q) <= 153.0
    ensures Prefers(PageScore(rows), y)
  {
    hide BandMean;
    forall targetY, q | targetY <= y + 1000 && q >= y + STEP
      ensures PageScore(rows)(targetY, q) < PageScore(rows)(targetY, y)
    {
      assert BandMean(rows)(q) <= 153.0;
    }
  }

  /** A slice that may be cut `Last` rows above the end of the page is cut there if that row is preferred. */
  lemma {:induction false} PreferredRowWins(score: ScoreFn, height: int, top: int, p: Params)
    requires p.radius >= 0 && p.target <= 960 && Prefers(score, height - Last(p.target))
    requires BAND <= height - Last(p.target) < top + Half(p.target) && 0 <= top <= height - Last(p.target)
    requires top + p.target < height && top + p.target - p.radius <= height - Last(p.target)
    ensures EndOfSlice(score, height, top, p) == height - Last(p.target)
  {
    var y, targetY := height - Last(p.target), top + p.target;
    var end := Min(Min(height - BAND, top + Half(p.target)), targetY + p.radius);
    if y < end {
      var won := BestFromWins(score, targetY, y + STEP, end, STEP, y, 0);
      assert BestFrom(score, targetY, y + STEP, end, STEP, y) == y;
    }
  }

  // ---------------------------------------------------------------- pages that are never finished

  /** White in the band around row y, black elsewhere. */
  ghost function OneBand(y: int): int -> real {
    (row: int) => if y - BAND <= row < y + BAND then 255.0 else 0.0
  }

  lemma OneBandIsBright(y: int)
    ensures IsPage(OneBand(y)) && Prefers(PageScore(OneBand(y)), y)
  {
    hide PageScore, BandMean;
    WhiteBand(OneBand(y), y);
    forall q | q >= y + STEP
      ensures BandMean(OneBand(y))(q) <= 153.0
    {
      DarkBand(OneBand(y), y + BAND, q);
    }
    BrightIsPreferred(OneBand(y), y);
  }

  /** Above the bright row no slice gets past it, whatever the page looks like. */
  lemma StaysAbove(score: ScoreFn, height: int, top: int, p: Params)
    requires Sound(p) && !Advancing(p) && 0 <= top && top + Half(p.target) <= height - Last(p.target)
    ensures 0 <= EndOfSlice(score, height, top, p) <= height - Last(p.target)
  {
    var low, high := height - Last(p.target), top + Half(p.target);
    CutIsInside(score, height, top + p.target, Min(low, high), Max(high, low), p.radius);
  }

  /** If a slice can be empty, then on every page size from 330 rows there is a page that the loop never finishes. */
  lemma {:induction false} TooShortNeverEnds(height: int, p: Params, n: nat)
    requires Sound(p) && !Advancing(p) && height >= 330
    ensures IsPage(OneBand(height - 320))
    ensures var top := TopAt(PageScore(OneBand(height - 320)), height, p, n);
            top.Some? && 0 <= top.value <= height - 320
  {
    hide EndOfSlice, Prefers, Advancing, OneBand, PageScore;
    OneBandIsBright(height - 320);
    ShortTargets(p);
    if n > 0 {
      TooShortNeverEnds(height, p, n - 1);
      var score := PageScore(OneBand(height - 320));
      var top := TopAt(score, height, p, n - 1).value;
      if top + 420 <= height - 320 {
        StaysAbove(score, height, top, p);
      } else {
        PreferredRowWins(score, height, top, p);
      }
    }
  }

  lemma ShortTargets(p: Params)
    requires Sound(p) && !Advancing(p)
    ensures p.target <= 319 && p.target <= p.radius && Last(p.target) == 320 && Half(p.target) == 420
  {
  }

  /** Shorter pages are one slice. */
  lemma ShortPagesEnd(score: ScoreFn, height: int, p: Params)
    requires Sound(p) && !Advancing(p) && 1 <= height < 330
    ensures TopAt(score, height, p, 1).None?
  {
    ShortTargets(p);
    var low, high := height - Last(p.target), Half(p.target);
    CutIsInside(score, height, p.target, Min(low, high), Max(high, low), p.radius);
    assert TopAt(score, height, p, 0) == Some(0);
  }

  ghost predicate Ends(rows: int -> real, height: int, p: Params) {
    exists n: nat :: TopAt(PageScore(rows), height, p, n).None?
  }

  /** The planner finishes every page of a size if and only if it does not split pages of that size, or no slice
      can be empty, or the page is shorter than 330 rows. */
  lemma {:induction false} EndsOnEveryPageIff(width: nat, height: int, minHeight: int, ratio: real, p: Params)
    requires height >= 1 && Sound(p)
    ensures (ShouldSplit(width, height, minHeight, ratio) ==>
               forall rows: int -> real :: IsPage(rows) ==> Ends(rows, height, p))
            <==> !ShouldSplit(width, height, minHeight, ratio) || Advancing(p) || height < 330
  {
    hide Advancing, Sound, TopAt, ShouldSplit, IsPage, PageScore;
    if Advancing(p) || height < 330 {
      forall rows: int -> real | IsPage(rows)
        ensures Ends(rows, height, p)
      {
        if Advancing(p) {
          AdvancingEnds(PageScore(rows), height, p, height);
          assert TopAt(PageScore(rows), height, p, height).None?;
        } else {
          ShortPagesEnd(PageScore(rows), height, p);
          assert TopAt(PageScore(rows), height, p, 1).None?;
        }
      }
    } else {
      TooShortNeverEnds(height, p, 0);
      var rows := OneBand(height - 320);
      forall n: nat
        ensures TopAt(PageScore(rows), height, p, n).Some?
      {
        TooShortNeverEnds(height, p, n);
      }
      assert IsPage(rows) && !Ends(rows, height, p);
    }
  }

  // ---------------------------------------------------------------- pages that lose overlap

  /** Besides the band around y, a white band where each of the slices 0, a, 2a, ... may be cut first. */
  ghost function Bands(y: int, a: int): int -> real
    requires a > 0
  {
    (row: int) => if y - BAND <= row < y + BAND || (410 <= row < y && (row - 410) % a < 20) then 255.0 else 0.0
  }

  /** What parameters that are not steady have in common. */
  ghost predicate Cramped(p: Params) {
    && p.target <= 478 && Last(p.target) == 320 && Half(p.target) == 420 && 0 <= p.overlap <= 159
    && p.target - p.radius <= p.overlap && p.target - 319 <= p.overlap && p.radius >= 0
  }

  lemma UnsteadyIsCramped(p: Params)
    requires Sound(p) && !Steady(p)
    ensures Cramped(p)
  {
  }

  lemma BandsAreBright(y: int, a: int)
    requires a > 0
    ensures IsPage(Bands(y, a)) && Prefers(PageScore(Bands(y, a)), y)
  {
    hide PageScore, BandMean;
    WhiteBand(Bands(y, a), y);
    forall q | q >= y + STEP
      ensures BandMean(Bands(y, a))(q) <= 153.0
    {
      DarkBand(Bands(y, a), y + BAND, q);
    }
    BrightIsPreferred(Bands(y, a), y);
  }

  lemma Multiples(i: int, j: int, a: int)
    requires i < j && a > 0
    ensures i * a + a <= j * a
  {
    assert (j - i - 1) * a >= 0;
    assert (j - i - 1) * a == j * a - i * a - a;
  }

  lemma Remainder(k: nat, a: int, r: int)
    requires 0 <= r < a
    ensures (k * a + r) % a == r
  {
    var x := k * a + r;
    assert x == x / a * a + x % a;
    if x / a < k {
      Multiples(x / a, k, a);
    } else if k < x / a {
      Multiples(k, x / a, a);
    }
  }

  /** The first row where slice k may be cut is bright, and the rows below it are dark up to the next band. */
  lemma {:induction false} StepIsBright(y: int, a: int, k: nat, q: int)
    requires a >= 261 && k * a + 420 + a < y
    ensures BandMean(Bands(y, a))(k * a + 420) == 255.0
    ensures k * a + 428 <= q <= k * a + 420 + a - 20 ==> BandMean(Bands(y, a))(q) <= 153.0
  {
    hide BandMean, IsPage;
    BandsAreBright(y, a);
    var s := k * a + 420;
    assert k * a >= 0;
    forall r | s - 10 <= r < s + a - 10
      ensures Bands(y, a)(r) == if r < s + 10 then 255.0 else 0.0
    {
      Remainder(k, a, r - (s - 10));
      assert r - 410 == k * a + (r - (s - 10));
    }
    hide Bands;
    WhiteBand(Bands(y, a), s);
    if s + 8 <= q <= s + a - 20 {
      DarkBand(Bands(y, a), s + 10, q);
    }
  }

  /** No probe below the first row where slice k may be cut scores better. */
  lemma StepScores(y: int, p: Params, k: nat, q: int)
    requires Cramped(p) && k * (420 - p.overlap) + 420 + 420 - p.overlap < y
    requires k * (420 - p.overlap) + 428 <= q
    ensures var a := 420 - p.overlap;
            var score, targetY := PageScore(Bands(y, a)), k * a + p.target;
            score(targetY, q) <= score(targetY, k * a + 420)
  {
    var a := 420 - p.overlap;
    BandsAreBright(y, a);
    StepIsBright(y, a, k, q);
    AnyBand(Bands(y, a), q);
    hide BandMean, Bands, Prefers, IsPage;
  }

  /** A slice that starts far above the end of the page is cut at the first row where it may be, if none below
      scores better. */
  lemma {:induction false} FirstRowWins(score: ScoreFn, height: int, top: int, targetY: int, p: Params)
    requires Cramped(p) && 0 <= top && top + 420 < height - 320 && targetY == top + p.target
    requires forall q :: q >= top + 428 ==> score(targetY, q) <= score(targetY, top + 420)
    ensures EndOfSlice(score, height, top, p) == top + 420
  {
    hide Last, Half;
    var s := top + 420;
    var end := Min(height - 320, targetY + p.radius);
    if s < end {
      var won := BestFromWins(score, targetY, s + STEP, end, STEP, s, 0);
      assert BestFrom(score, targetY, s + STEP, end, STEP, s) == s;
    }
  }

  /** Far enough above y, slice k ends at the first row where it may be cut. */
  lemma {:induction false} StepsDown(height: int, p: Params, k: nat)
    requires Cramped(p)
    requires k * (420 - p.overlap) + 420 + 420 - p.overlap < height - 320
    ensures var a := 420 - p.overlap;
            EndOfSlice(PageScore(Bands(height - 320, a)), height, k * a, p) == k * a + 420
  {
    var a := 420 - p.overlap;
    var score, top := PageScore(Bands(height - 320, a)), k * a;
    var targetY := top + p.target;
    assert top >= 0;
    hide PageScore, Bands, EndOfSlice;
    forall q | q >= top + 428
      ensures score(targetY, q) <= score(targetY, top + 420)
    {
      StepScores(height - 320, p, k, q);
    }
    FirstRowWins(score, height, top, targetY, p);
  }

  lemma NextTurn(score: ScoreFn, height: int, p: Params, n: nat, top: int, bottom: int)
    requires TopAt(score, height, p, n) == Some(top) && EndOfSlice(score, height, top, p) == bottom < height
    ensures TopAt(score, height, p, n + 1) == Some(NextTop(top, bottom, p.overlap))
  {
    hide EndOfSlice, NextTop;
  }

  lemma {:induction false} ReachesStep(height: int, p: Params, k: nat)
    requires Cramped(p) && k * (420 - p.overlap) + 420 < height - 320
    ensures TopAt(PageScore(Bands(height - 320, 420 - p.overlap)), height, p, k) == Some(k * (420 - p.overlap))
  {
    var a := 420 - p.overlap;
    hide Bands, PageScore, EndOfSlice, TopAt;
    if k == 0 {
      FirstTop(PageScore(Bands(height - 320, a)), height, p);
    } else {
      var above := (k - 1) * a;
      assert k * a == above + a;
      assert above >= 0;
      ReachesStep(height, p, k - 1);
      StepsDown(height, p, k - 1);
      NextTurn(PageScore(Bands(height - 320, a)), height, p, k - 1, above, above + 420);
    }
  }

  lemma FirstTop(score: ScoreFn, height: int, p: Params)
    ensures TopAt(score, height, p, 0) == Some(0)
  {
  }

  /** The slice cut in turn n ends within the overlap of its top. */
  ghost predicate LosesOverlap(score: ScoreFn, height: int, p: Params, n: nat) {
    var top := TopAt(score, height, p, n);
    top.Some? && EndOfSlice(score, height, top.value, p) < height
      && EndOfSlice(score, height, top.value, p) <= top.value + p.overlap
  }

  lemma LosesHere(score: ScoreFn, height: int, p: Params, n: nat, top: int)
    requires TopAt(score, height, p, n) == Some(top) && EndOfSlice(score, height, top, p) < height
    requires EndOfSlice(score, height, top, p) <= top + p.overlap
    ensures LosesOverlap(score, height, p, n)
  {
  }

  /** Close above the preferred row a slice ends at it, and the one after that too. */
  lemma {:induction false} LosesNear(score: ScoreFn, height: int, p: Params, n: nat, top: int) returns (m: nat)
    requires Cramped(p) && Prefers(score, height - 320) && height >= 740
    requires TopAt(score, height, p, n) == Some(top)
    requires 0 <= top <= height - 320 - p.overlap && height - 320 < top + 420
    ensures LosesOverlap(score, height, p, m)
  {
    hide EndOfSlice, Prefers, TopAt, LosesOverlap, Last, Half;
    PreferredRowWins(score, height, top, p);
    if top < height - 320 - p.overlap {
      m := n + 1;
      NextTurn(score, height, p, n, top, height - 320);
      PreferredRowWins(score, height, height - 320 - p.overlap, p);
      LosesHere(score, height, p, m, height - 320 - p.overlap);
    } else {
      m := n;
      LosesHere(score, height, p, m, top);
    }
  }

  /** From the last step above the preferred row the loop comes close to it. */
  lemma {:induction false} LosesFromStep(score: ScoreFn, height: int, p: Params, n: nat, top: int) returns (m: nat)
    requires Cramped(p) && Prefers(score, height - 320) && height >= 742
    requires TopAt(score, height, p, n) == Some(top)
    requires 0 <= top && top + 420 < height - 320 < top + 840 - p.overlap
    ensures LosesOverlap(score, height, p, m)
  {
    EndsBetween(score, height, top, p);
    hide EndOfSlice, Prefers, TopAt, LosesOverlap;
    var bottom := EndOfSlice(score, height, top, p);
    NextTurn(score, height, p, n, top, bottom);
    m := LosesNear(score, height, p, n + 1, NextTop(top, bottom, p.overlap));
  }

  lemma EndsBetween(score: ScoreFn, height: int, top: int, p: Params)
    requires Cramped(p) && 0 <= top && top + 420 < height - 320
    ensures top + 420 <= EndOfSlice(score, height, top, p) <= height - 320
  {
    var low, high := height - 320, top + 420;
    CutIsInside(score, height, top + p.target, high, low, p.radius);
  }

  /** A height, not below `least`, such that no step lands 420 rows above the bright row. */
  function HeightFrom(least: int, a: int): (height: int)
    requires a >= 2
    ensures height >= Max(least, 742) && (height - 740) % a != 0
  {
    var h := Max(least, 742);
    if (h - 740) % a != 0 then h
    else
      Successor(h - 740, a);
      h + 1
  }

  lemma Successor(x: int, a: int)
    requires a >= 2 && x % a == 0
    ensures (x + 1) % a != 0
  {
    var q := (x + 1) / a;
    if (x + 1) % a == 0 {
      assert x == x / a * a && x + 1 == q * a;
      if x / a < q {
        Multiples(x / a, q, a);
      } else if q < x / a {
        Multiples(q, x / a, a);
      }
    }
  }

  /** If the parameters are not steady, the planner gets, at every width and for every split test, a page on which
      some slice ends within the overlap of its top, so that the next one does not overlap it as it should. */
  lemma {:induction false} UnsteadyTargetsFail(width: nat, minHeight: int, ratio: real, p: Params)
    returns (rows: int -> real, height: int, n: nat)
    requires width >= 1 && Sound(p) && !Steady(p)
    ensures IsPage(rows) && height >= 1 && ShouldSplit(width, height, minHeight, ratio)
    ensures LosesOverlap(PageScore(rows), height, p, n)
  {
    UnsteadyIsCramped(p);
    var a := 420 - p.overlap;
    height := HeightFrom(Max(minHeight, (ratio * width as real).Floor + 1), a);
    SplitsFrom(width, height, minHeight, ratio);
    rows := Bands(height - 320, a);
    n := LosesOnBands(height, p);
    BandsAreBright(height - 320, a);
  }

  lemma {:induction false} LosesOnBands(height: int, p: Params) returns (n: nat)
    requires Cramped(p) && height >= 742 && (height - 740) % (420 - p.overlap) != 0
    ensures LosesOverlap(PageScore(Bands(height - 320, 420 - p.overlap)), height, p, n)
  {
    var a := 420 - p.overlap;
    BandsAreBright(height - 320, a);
    hide Bands, PageScore, Prefers, IsPage, LosesOverlap, TopAt;
    LastStep(height, a);
    var k := (height - 741) / a;
    var top := k * a;
    assert top >= 0;
    ReachesStep(height, p, k);
    n := LosesFromStep(PageScore(Bands(height - 320, a)), height, p, k, top);
  }

  lemma SplitsFrom(width: nat, height: nat, minHeight: int, ratio: real)
    requires width >= 1 && height >= minHeight && height > (ratio * width as real).Floor
    ensures ShouldSplit(width, height, minHeight, ratio)
  {
    assert height as real >= ratio * width as real;
  }

  lemma LastStep(height: int, a: int)
    requires a >= 2 && height >= 742 && (height - 740) % a != 0
    ensures var k := (height - 741) / a; 0 <= k && k * a + 420 < height - 320 < k * a + 420 + a
  {
    var k := (height - 741) / a;
    assert height - 741 == k * a + (height - 741) % a;
    assert k * a + a == (k + 1) * a;
    if height - 740 == (k + 1) * a {
      Remainder(k + 1, a, 0);
    }
  }

  /** Every slice of every page that is split goes beyond the overlap if and only if the parameters are steady. */
  lemma {:induction false} OverlapIsExactIff(width: nat, minHeight: int, ratio: real, p: Params)
    requires width >= 1 && Sound(p)
    ensures Steady(p) <==>
            forall rows: int -> real, height: nat, n: nat ::
              IsPage(rows) && height >= 1 && ShouldSplit(width, height, minHeight, ratio) ==>
                !LosesOverlap(PageScore(rows), height, p, n)
  {
    if Steady(p) {
      forall rows: int -> real, height: nat, n: nat | height >= 1
        ensures !LosesOverlap(PageScore(rows), height, p, n)
      {
        SteadyKeepsOverlap(PageScore(rows), height, p, n);
      }
    } else {
      var rows, height, n := UnsteadyTargetsFail(width, minHeight, ratio, p);
      assert LosesOverlap(PageScore(rows), height, p, n);
    }
  }

  lemma SteadyKeepsOverlap(score: ScoreFn, height: nat, p: Params, n: nat)
    requires height >= 1 && Sound(p) && Steady(p)
    ensures !LosesOverlap(score, height, p, n)
  {
    AdvancingEnds(score, height, p, n);
    hide EndOfSlice, TopAt, Steady;
    var top := TopAt(score, height, p, n);
    if top.Some? {
      EndBounds(score, height, top.value, p);
    }
  }
}
