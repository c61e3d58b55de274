/** app/translation/segment_planner.py: the OCR slices of a page become segments, each with the
    strip of the page that it alone displays. */
module SegmentPlanner {
  import opened ImageSegments

  datatype PlannedSegment = PlannedSegment(pageIndex: nat, segmentIndex: nat,
                                           displayTop: int, displayBottom: int,
                                           ocrTop: int, ocrBottom: int)

  /** The strips of a plan, in order, cut the rows [0, height) into non-empty pieces, and every strip
      lies inside the OCR slice of its segment and shares its lower end. */
  ghost predicate TilesPage(plan: seq<PlannedSegment>, height: int) {
    && |plan| > 0 && plan[0].displayTop == 0 && plan[|plan| - 1].displayBottom == height
    && (forall i :: 0 <= i < |plan| ==>
          && plan[i].displayTop < plan[i].displayBottom
          && plan[i].ocrTop <= plan[i].displayTop
          && plan[i].ocrBottom == plan[i].displayBottom)
    && (forall i, j :: 0 <= i < |plan| && 0 <= j < |plan| && j == i + 1 ==> plan[j].displayTop == plan[i].displayBottom)
  }

  /** The segments of one page are numbered from 0 and carry its page index. */
  ghost predicate NumbersPage(plan: seq<PlannedSegment>, pageIndex: nat) {
    forall i :: 0 <= i < |plan| ==> plan[i].pageIndex == pageIndex && plan[i].segmentIndex == i
  }

  /** Every segment but the first is read from exactly `overlap` rows above its strip, the first from the page top. */
  ghost predicate ReadsAbove(plan: seq<PlannedSegment>, overlap: int) {
    forall i :: 0 <= i < |plan| ==> plan[i].ocrTop == if i == 0 then 0 else plan[i].displayTop - overlap
  }

  /** Segment i displays what lies below the slice before it. */
  ghost predicate IsPagePlan(plan: seq<PlannedSegment>, pageIndex: nat, slices: seq<VerticalSlice>) {
    && |plan| == |slices|
    && forall i :: 0 <= i < |plan| ==> plan[i] == Segment(pageIndex, slices, i)
  }

  ghost function Segment(pageIndex: nat, slices: seq<VerticalSlice>, i: nat): PlannedSegment
    requires i < |slices|
  {
    PlannedSegment(pageIndex, i, if i == 0 then 0 else slices[i - 1].bottom, slices[i].bottom,
                   slices[i].top, slices[i].bottom)
  }

  method PlanPage(pageIndex: nat, slices: seq<VerticalSlice>) returns (plan: seq<PlannedSegment>)
    ensures IsPagePlan(plan, pageIndex, slices)
  {
    plan := [];
    var previousBottom := 0;
    for index := 0 to |slices|
      invariant |plan| == index
      invariant previousBottom == if index == 0 then 0 else slices[index - 1].bottom
      invariant forall i :: 0 <= i < index ==> plan[i] == Segment(pageIndex, slices, i)
    {
      var slice := slices[index];
      plan := plan + [PlannedSegment(pageIndex, index, previousBottom, slice.bottom, slice.top, slice.bottom)];
      previousBottom := slice.bottom;
    }
  }

  /** Whatever planner produced the overlapping slices, the displayed strips tile the page. */
  lemma {:induction false} PagePlanTiles(plan: seq<PlannedSegment>, pageIndex: nat, slices: seq<VerticalSlice>,
                                         height: int, overlap: int)
    requires overlap >= 0 && OverlapChain(slices, height, overlap) && IsPagePlan(plan, pageIndex, slices)
    ensures TilesPage(plan, height) && NumbersPage(plan, pageIndex) && ReadsAbove(plan, overlap)
  {
    forall i | 0 < i < |plan|
      ensures plan[i].displayTop == plan[i - 1].displayBottom
      ensures plan[i].ocrTop == plan[i].displayTop - overlap < plan[i].displayBottom - overlap
    {
      assert plan[i] == Segment(pageIndex, slices, i) && plan[i - 1] == Segment(pageIndex, slices, i - 1);
    }
  }

  /** End to end: for every page, every brightness and every accepted ratio, the strips tile the page. */
  lemma {:induction false} RatioPageTiles(width: nat, height: int, brightness: int -> real, heightRatio: real,
                                          overlapRatio: real,
                                          slices: seq<VerticalSlice>, pageIndex: nat, plan: seq<PlannedSegment>)
    requires width >= 1 && height >= 1 && heightRatio > 0.0 && 0.0 <= overlapRatio < heightRatio
    requires IsRatioPlan(RatioGrid(width, heightRatio, overlapRatio), BrightnessScore(width, brightness), height,
                         slices)
    requires IsPagePlan(plan, pageIndex, slices)
    ensures TilesPage(plan, height) && NumbersPage(plan, pageIndex)
    ensures forall g :: IsRatioGrid(g, width, heightRatio, overlapRatio) ==> ReadsAbove(plan, g.overlap)
  {
    forall h | IsRatioGrid(h, width, heightRatio, overlapRatio)
      ensures h == RatioGrid(width, heightRatio, overlapRatio)
    {
      RatioGridIsAskedFor(width, heightRatio, overlapRatio, h);
    }
    var g := RatioGrid(width, heightRatio, overlapRatio);
    RatioGridIsSound(width, heightRatio, overlapRatio);
    RatioPlanIsChain(g, BrightnessScore(width, brightness), height, slices);
    PagePlanTiles(plan, pageIndex, slices, height, g.overlap);
  }

  /** Row y is displayed by strip i. */
  predicate Displays(s: PlannedSegment, y: int) {
    s.displayTop <= y < s.displayBottom
  }

  /** Strips are ordered: whatever lies below strip i starts at its lower end. */
  lemma {:induction false} StripsAreOrdered(plan: seq<PlannedSegment>, height: int, i: nat, j: nat)
    requires TilesPage(plan, height) && i < j < |plan|
    ensures plan[i].displayBottom <= plan[j].displayTop
    decreases j
  {
    if i + 1 < j {
      StripsAreOrdered(plan, height, i, j - 1);
    }
    assert plan[j].displayTop == plan[j - 1].displayBottom;
  }

  /** The strips the reader sees partition the page: each row is in exactly one of them. */
  lemma {:induction false} StripsPartitionPage(plan: seq<PlannedSegment>, height: int, y: int)
    returns (owner: nat)
    requires TilesPage(plan, height) && 0 <= y < height
    ensures owner < |plan| && Displays(plan[owner], y)
    ensures forall j :: 0 <= j < |plan| && Displays(plan[j], y) ==> j == owner
  {
    owner := 0;
    while plan[owner].displayBottom <= y
      invariant owner < |plan| && plan[owner].displayTop <= y
      decreases |plan| - owner
    {
      owner := owner + 1;
      assert plan[owner].displayTop == plan[owner - 1].displayBottom;
    }
    forall j | 0 <= j < |plan| && Displays(plan[j], y)
      ensures j == owner
    {
      if j < owner {
        StripsAreOrdered(plan, height, j, owner);
      } else if owner < j {
        StripsAreOrdered(plan, height, owner, j);
      }
    }
  }
}
