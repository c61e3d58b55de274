/** app/translation/segment_runner.py: each text box that OCR finds in a slice is kept by the one
    segment whose strip holds the centre of the box. */
module SegmentRunner {
  import opened Common
  import opened SegmentPlanner

  /** A recognised text; the runner rewrites its box in place. */
  class TextBlock {
    var bbox: Box
    const text: string

    constructor (box: Box, content: string)
      ensures bbox == box && text == content
    {
      bbox := box;
      text := content;
    }
  }

  /** Twice the vertical centre of a box, so that it stays an integer. */
  function Centre2(b: Box): int {
    b.y1 + b.y2
  }

  /** The centre is as far from the upper end of the box as from the lower one. */
  lemma CentreIs(b: Box, c: int)
    ensures c == Centre2(b) <==> c - 2 * b.y1 == 2 * b.y2 - c
  {
  }

  function MoveDown(b: Box, dy: int): Box {
    Box(b.x1, b.y1 + dy, b.x2, b.y2 + dy)
  }

  /** A box in slice coordinates belongs to the segment: its page centre lies in the strip. */
  predicate Owns(s: PlannedSegment, b: Box) {
    2 * s.displayTop <= Centre2(b) + 2 * s.ocrTop < 2 * s.displayBottom
  }

  /** From slice coordinates to the coordinates of the displayed strip. */
  function Rebase(s: PlannedSegment, b: Box): Box {
    MoveDown(b, s.ocrTop - s.displayTop)
  }

  /** The blocks kept for segment `s` when their boxes are `boxes`, in their order. */
  ghost function OwnedOf(s: PlannedSegment, blocks: seq<TextBlock>, boxes: seq<Box>): seq<TextBlock>
    requires |boxes| == |blocks|
  {
    if |blocks| == 0 then []
    else
      var n := |blocks| - 1;
      OwnedOf(s, blocks[..n], boxes[..n]) + (if Owns(s, boxes[n]) then [blocks[n]] else [])
  }

  /** The boxes they end up with. */
  ghost function Kept(s: PlannedSegment, boxes: seq<Box>): seq<Box> {
    if |boxes| == 0 then []
    else
      var n := |boxes| - 1;
      Kept(s, boxes[..n]) + (if Owns(s, boxes[n]) then [Rebase(s, boxes[n])] else [])
  }

  ghost function Boxes(blocks: seq<TextBlock>): (r: seq<Box>)
    reads blocks
    ensures |r| == |blocks|
  {
    seq(|blocks|, (i: int) requires 0 <= i < |blocks| reads blocks => blocks[i].bbox)
  }

  /** The box of a block, at first b, when the runner has gone through `blocks`: it moves whenever the runner
      comes across the block and finds it owned. */
  ghost function BoxAfter(s: PlannedSegment, blocks: seq<TextBlock>, block: TextBlock, b: Box): Box {
    if |blocks| == 0 then b
    else
      var n := |blocks| - 1;
      var before := BoxAfter(s, blocks[..n], block, b);
      if blocks[n] == block && Owns(s, before) then Rebase(s, before) else before
  }

  /** The blocks that are owned when the runner comes across them. */
  ghost function Chosen(s: PlannedSegment, blocks: seq<TextBlock>, boxes: seq<Box>): seq<TextBlock>
    requires |boxes| == |blocks|
  {
    if |blocks| == 0 then []
    else
      var n := |blocks| - 1;
      Chosen(s, blocks[..n], boxes[..n])
      + (if Owns(s, BoxAfter(s, blocks[..n], blocks[n], boxes[n])) then [blocks[n]] else [])
  }

  ghost predicate Distinct(blocks: seq<TextBlock>) {
    forall i, j :: 0 <= i < j < |blocks| ==> blocks[i] != blocks[j]
  }

  lemma {:induction false} OthersStay(s: PlannedSegment, blocks: seq<TextBlock>, block: TextBlock, b: Box)
    requires block !in blocks
    ensures BoxAfter(s, blocks, block, b) == b
  {
    if |blocks| > 0 {
      OthersStay(s, blocks[..|blocks| - 1], block, b);
    }
  }

  lemma {:induction false} DistinctMovesOnce(s: PlannedSegment, blocks: seq<TextBlock>, k: nat, b: Box)
    requires Distinct(blocks) && k < |blocks|
    ensures BoxAfter(s, blocks, blocks[k], b) == if Owns(s, b) then Rebase(s, b) else b
  {
    var n := |blocks| - 1;
    if k < n {
      assert blocks[..n][k] == blocks[k];
      DistinctMovesOnce(s, blocks[..n], k, b);
    } else {
      OthersStay(s, blocks[..n], blocks[n], b);
    }
  }

  /** When no block comes twice, the runner keeps the blocks that the segment owns, and moves each once. */
  lemma {:induction false} DistinctBlocksAreOwned(s: PlannedSegment, blocks: seq<TextBlock>, boxes: seq<Box>)
    requires Distinct(blocks) && |boxes| == |blocks|
    ensures Chosen(s, blocks, boxes) == OwnedOf(s, blocks, boxes)
  {
    if |blocks| > 0 {
      var n := |blocks| - 1;
      DistinctBlocksAreOwned(s, blocks[..n], boxes[..n]);
      OthersStay(s, blocks[..n], blocks[n], boxes[n]);
    }
  }

  /** Keeps the blocks that are owned, moves their boxes and touches no other. */
  method OwnedBlocks(blocks: seq<TextBlock>, s: PlannedSegment) returns (owned: seq<TextBlock>)
    modifies blocks
    ensures owned == Chosen(s, blocks, old(Boxes(blocks)))
    ensures forall i :: 0 <= i < |blocks| ==> blocks[i].bbox == BoxAfter(s, blocks, blocks[i], old(blocks[i].bbox))
    ensures Distinct(blocks) ==>
              && owned == OwnedOf(s, blocks, old(Boxes(blocks)))
              && Boxes(owned) == Kept(s, old(Boxes(blocks)))
              && forall i :: 0 <= i < |blocks| && !Owns(s, old(blocks[i].bbox)) ==>
                blocks[i].bbox == old(blocks[i].bbox)
  {
    owned := [];
    ghost var boxes := Boxes(blocks);
    for n := 0 to |blocks|
      invariant owned == Chosen(s, blocks[..n], boxes[..n])
      invariant forall i :: 0 <= i < |blocks| ==> blocks[i].bbox == BoxAfter(s, blocks[..n], blocks[i], boxes[i])
    {
      assert blocks[..n + 1][..n] == blocks[..n] && boxes[..n + 1][..n] == boxes[..n];
      var block := blocks[n];
      var b := block.bbox;
      if 2 * s.displayTop <= b.y1 + b.y2 + 2 * s.ocrTop < 2 * s.displayBottom {
        block.bbox := Box(b.x1, b.y1 + s.ocrTop - s.displayTop, b.x2, b.y2 + s.ocrTop - s.displayTop);
        owned := owned + [block];
      }
    }
    assert blocks[..|blocks|] == blocks && boxes[..|blocks|] == boxes;
    if Distinct(blocks) {
      DistinctBlocksAreOwned(s, blocks, boxes);
      forall i | 0 <= i < |blocks|
        ensures blocks[i].bbox == if Owns(s, boxes[i]) then Rebase(s, boxes[i]) else boxes[i]
      {
        DistinctMovesOnce(s, blocks, i, boxes[i]);
      }
      KeptBoxes(s, blocks, boxes);
    }
  }

  /** What the owned blocks hold when each has its final box. */
  lemma {:induction false} KeptBoxes(s: PlannedSegment, blocks: seq<TextBlock>, boxes: seq<Box>)
    requires |boxes| == |blocks|
    requires forall i :: 0 <= i < |blocks| && Owns(s, boxes[i]) ==> blocks[i].bbox == Rebase(s, boxes[i])
    ensures Boxes(OwnedOf(s, blocks, boxes)) == Kept(s, boxes)
  {
    if |blocks| > 0 {
      KeptBoxes(s, blocks[..|blocks| - 1], boxes[..|blocks| - 1]);
    }
  }

  // ---------------------------------------------------------------- exactly one owner

  /** Where OCR reports a box of the page when it looks at the slice of segment `s`. */
  function InSlice(s: PlannedSegment, b: Box): Box {
    MoveDown(b, -s.ocrTop)
  }

  /** A box whose centre is on the page has exactly one owner; the owner's OCR slice contains the
      centre, and the stored box plus the strip's offset is the box on the page. */
  lemma {:induction false} ExactlyOneOwner(plan: seq<PlannedSegment>, height: int, b: Box) returns (owner: nat)
    requires TilesPage(plan, height) && 0 <= Centre2(b) < 2 * height
    ensures owner < |plan| && Owns(plan[owner], InSlice(plan[owner], b))
    ensures forall j :: 0 <= j < |plan| && Owns(plan[j], InSlice(plan[j], b)) ==> j == owner
    ensures 2 * plan[owner].ocrTop <= Centre2(b) < 2 * plan[owner].ocrBottom
    ensures MoveDown(Rebase(plan[owner], InSlice(plan[owner], b)), plan[owner].displayTop) == b
  {
    var y := Centre2(b) / 2;
    owner := StripsPartitionPage(plan, height, y);
    forall j | 0 <= j < |plan| && Owns(plan[j], InSlice(plan[j], b))
      ensures j == owner
    {
      assert Displays(plan[j], y);
    }
  }

  // ---------------------------------------------------------------- nothing lost, nothing doubled

  /** The boxes whose centre lies in rows [lo, hi). */
  ghost function Between(boxes: seq<Box>, lo: int, hi: int): seq<Box> {
    if |boxes| == 0 then []
    else
      var n := |boxes| - 1;
      Between(boxes[..n], lo, hi) + (if 2 * lo <= Centre2(boxes[n]) < 2 * hi then [boxes[n]] else [])
  }

  ghost function Shifted(boxes: seq<Box>, dy: int): seq<Box> {
    if |boxes| == 0 then []
    else Shifted(boxes[..|boxes| - 1], dy) + [MoveDown(boxes[|boxes| - 1], dy)]
  }

  /** What segment `s` contributes to the page: OCR reports the boxes centred in its slice, the
      segment keeps its own, and the reader shows them at the strip's place. */
  ghost function Contribution(s: PlannedSegment, boxes: seq<Box>): seq<Box> {
    Shifted(Kept(s, Shifted(Between(boxes, s.ocrTop, s.ocrBottom), -s.ocrTop)), s.displayTop)
  }

  ghost function Collected(plan: seq<PlannedSegment>, boxes: seq<Box>): seq<Box> {
    if |plan| == 0 then []
    else Collected(plan[..|plan| - 1], boxes) + Contribution(plan[|plan| - 1], boxes)
  }

  lemma {:induction false} ShiftedSnoc(boxes: seq<Box>, b: Box, dy: int)
    ensures Shifted(boxes + [b], dy) == Shifted(boxes, dy) + [MoveDown(b, dy)]
  {
    assert (boxes + [b])[..|boxes|] == boxes;
  }

  lemma {:induction false} KeptSnoc(s: PlannedSegment, boxes: seq<Box>, b: Box)
    ensures Kept(s, boxes + [b]) == if Owns(s, b) then Kept(s, boxes) + [Rebase(s, b)] else Kept(s, boxes)
  {
    assert (boxes + [b])[..|boxes|] == boxes;
  }

  /** A segment contributes exactly the boxes centred in its strip. */
  lemma {:induction false} ContributionIsStrip(s: PlannedSegment, boxes: seq<Box>)
    requires s.ocrTop <= s.displayTop && s.displayBottom == s.ocrBottom
    ensures Contribution(s, boxes) == Between(boxes, s.displayTop, s.displayBottom)
  {
    hide Contribution, Shifted, Kept, Between;
    if |boxes| == 0 {
      NothingContributed(s);
    } else {
      var n := |boxes| - 1;
      ContributionIsStrip(s, boxes[..n]);
      BetweenSnoc(boxes[..n], boxes[n], s.displayTop, s.displayBottom);
      ContributionSnoc(s, boxes[..n], boxes[n]);
      assert boxes[..n] + [boxes[n]] == boxes;
    }
  }

  lemma NothingContributed(s: PlannedSegment)
    ensures Contribution(s, []) == [] && Between([], s.displayTop, s.displayBottom) == []
  {
  }

  lemma {:induction false} ContributionSnoc(s: PlannedSegment, boxes: seq<Box>, b: Box)
    requires s.ocrTop <= s.displayTop && s.displayBottom == s.ocrBottom
    ensures Contribution(s, boxes + [b])
         == if 2 * s.displayTop <= Centre2(b) < 2 * s.displayBottom then Contribution(s, boxes) + [b]
           else Contribution(s, boxes)
  {
    hide Shifted, Kept;
    var seen := Between(boxes, s.ocrTop, s.ocrBottom);
    BetweenSnoc(boxes, b, s.ocrTop, s.ocrBottom);
    if 2 * s.ocrTop <= Centre2(b) < 2 * s.ocrBottom {
      var local := InSlice(s, b);
      ShiftedSnoc(seen, b, -s.ocrTop);
      KeptSnoc(s, Shifted(seen, -s.ocrTop), local);
      if Owns(s, local) {
        ShiftedSnoc(Kept(s, Shifted(seen, -s.ocrTop)), Rebase(s, local), s.displayTop);
      }
    }
  }

  lemma {:induction false} BetweenSnoc(boxes: seq<Box>, b: Box, lo: int, hi: int)
    ensures Between(boxes + [b], lo, hi)
              == if 2 * lo <= Centre2(b) < 2 * hi then Between(boxes, lo, hi) + [b] else Between(boxes, lo, hi)
  {
    assert (boxes + [b])[..|boxes|] == boxes;
  }

  lemma {:induction false} BetweenSplits(boxes: seq<Box>, lo: int, mid: int, hi: int)
    requires lo <= mid <= hi
    ensures multiset(Between(boxes, lo, hi)) == multiset(Between(boxes, lo, mid)) + multiset(Between(boxes, mid, hi))
  {
    if |boxes| > 0 {
      BetweenSplits(boxes[..|boxes| - 1], lo, mid, hi);
    }
  }

  lemma {:induction false} PrefixCollects(plan: seq<PlannedSegment>, height: int, boxes: seq<Box>, k: nat)
    requires TilesPage(plan, height) && 0 < k <= |plan|
    ensures multiset(Collected(plan[..k], boxes)) == multiset(Between(boxes, 0, plan[k - 1].displayBottom))
    ensures 0 <= plan[k - 1].displayBottom
  {
    var s := plan[k - 1];
    assert plan[..k][..k - 1] == plan[..k - 1];
    ContributionIsStrip(s, boxes);
    if k == 1 {
      assert Collected(plan[..0], boxes) == [];
    } else {
      PrefixCollects(plan, height, boxes, k - 1);
      assert plan[k - 1].displayTop == plan[k - 2].displayBottom;
      BetweenSplits(boxes, 0, s.displayTop, s.displayBottom);
    }
  }

  /** Overlapping slices neither lose nor duplicate text: over all segments of a plan, what is kept is
      exactly the boxes of the page, each once. */
  lemma {:induction false} TextIsConserved(plan: seq<PlannedSegment>, height: int, boxes: seq<Box>)
    requires TilesPage(plan, height)
    ensures multiset(Collected(plan, boxes)) == multiset(Between(boxes, 0, height))
  {
    PrefixCollects(plan, height, boxes, |plan|);
    assert plan[..|plan|] == plan;
  }
}
