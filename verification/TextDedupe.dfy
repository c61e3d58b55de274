/** dedupe_text_blocks of app/translation/image_segments.py: overlapping OCR slices report the same text
    twice, and only its first report is kept. */
module TextDedupe {
  import opened Common

  /** A recognised text; `key` is the text with its white space and case normalised. */
  datatype Block = Block(text: string, key: string, box: Box)

  // ---------------------------------------------------------------- looking alike

  function Overlap(a1: int, a2: int, b1: int, b2: int): int {
    Max(0, Min(a2, b2) - Max(a1, b1))
  }

  function Intersection(a: Box, b: Box): int {
    Overlap(a.x1, a.x2, b.x1, b.x2) * Overlap(a.y1, a.y2, b.y1, b.y2)
  }

  function Area(a: Box): int {
    Max(1, (a.x2 - a.x1) * (a.y2 - a.y1))
  }

  /** _bbox_iou. */
  function Iou(a: Box, b: Box): real {
    var common := Intersection(a, b);
    if common <= 0 then 0.0 else common as real / Max(1, Area(a) + Area(b) - common) as real
  }

  /** _vertical_overlap_ratio. */
  function VerticalOverlap(a: Box, b: Box): real {
    Overlap(a.y1, a.y2, b.y1, b.y2) as real / Max(1, Min(a.y2 - a.y1, b.y2 - b.y1)) as real
  }

  function Distance2(a: Box, b: Box): int {
    var d := (a.y1 + a.y2) - (b.y1 + b.y2);
    if d < 0 then -d else d
  }

  /** The same text, at about the same place. */
  predicate Alike(a: Block, b: Block) {
    && a.key == b.key
    && (Iou(a.box, b.box) >= 0.35 || (VerticalOverlap(a.box, b.box) >= 0.65 && Distance2(a.box, b.box) <= 80))
  }

  /** In whole numbers: the same text, and either at least 35 of 100 parts of what both boxes cover is covered by both,
      or at least 65 of 100 rows of the lower box are shared and the centres are at most 40 rows apart. */
  lemma {:induction false} AlikeIff(a: Block, b: Block)
    ensures var both := Intersection(a.box, b.box);
            var rows := Overlap(a.box.y1, a.box.y2, b.box.y1, b.box.y2);
            Alike(a, b) <==>
              && a.key == b.key
              && (|| (both > 0 && 100 * both >= 35 * Max(1, Area(a.box) + Area(b.box) - both))
                  || (100 * rows >= 65 * Max(1, Min(a.box.y2 - a.box.y1, b.box.y2 - b.box.y1))
                      && -80 <= (a.box.y1 + a.box.y2) - (b.box.y1 + b.box.y2) <= 80))
  {
    var both := Intersection(a.box, b.box);
    var rows := Overlap(a.box.y1, a.box.y2, b.box.y1, b.box.y2);
    AtLeastShare(both, Max(1, Area(a.box) + Area(b.box) - both), 0.35);
    AtLeastShare(rows, Max(1, Min(a.box.y2 - a.box.y1, b.box.y2 - b.box.y1)), 0.65);
    hide Intersection, Area, Overlap;
  }

  lemma AtLeastShare(part: int, whole: int, share: real)
    requires whole >= 1
    ensures part as real / whole as real >= share <==> part as real >= share * whole as real
  {
    var x := part as real / whole as real;
    assert x * whole as real == part as real;
    if x >= share {
      assert (x - share) * whole as real >= 0.0;
    } else {
      assert (x - share) * whole as real < 0.0;
    }
  }

  /** Two intervals share what lies in both, as long as one begins in the other. */
  lemma OverlapIs(a1: int, a2: int, b1: int, b2: int)
    ensures b2 <= a1 || a2 <= b1 ==> Overlap(a1, a2, b1, b2) == 0
    ensures a1 <= b1 <= b2 <= a2 ==> Overlap(a1, a2, b1, b2) == b2 - b1
    ensures a1 <= b1 <= a2 <= b2 ==> Overlap(a1, a2, b1, b2) == a2 - b1
  {
  }

  /** Boxes that are apart share nothing, and a box shares all of what lies in it. */
  lemma SharedAreas(a: Box, b: Box)
    ensures b.x2 <= a.x1 || b.y2 <= a.y1 ==> Intersection(a, b) == 0
    ensures a.x1 <= b.x1 <= b.x2 <= a.x2 && a.y1 <= b.y1 <= b.y2 <= a.y2 ==>
              Intersection(a, b) == (b.x2 - b.x1) * (b.y2 - b.y1)
  {
    OverlapIs(a.x1, a.x2, b.x1, b.x2);
    OverlapIs(a.y1, a.y2, b.y1, b.y2);
    hide Overlap;
  }

  /** The area of a box is what it shares with itself, and at least 1. */
  lemma AreaIs(a: Box)
    requires a.x1 <= a.x2 && a.y1 <= a.y2
    ensures Area(a) == Max(1, Intersection(a, a))
  {
    OverlapIs(a.x1, a.x2, a.x1, a.x2);
    OverlapIs(a.y1, a.y2, a.y1, a.y2);
    hide Overlap;
  }

  lemma {:induction false} AlikeIsSymmetric(a: Block, b: Block)
    ensures Alike(a, b) <==> Alike(b, a)
  {
    assert Intersection(a.box, b.box) == Intersection(b.box, a.box) by {
      assert Overlap(a.box.x1, a.box.x2, b.box.x1, b.box.x2) == Overlap(b.box.x1, b.box.x2, a.box.x1, a.box.x2);
      assert Overlap(a.box.y1, a.box.y2, b.box.y1, b.box.y2) == Overlap(b.box.y1, b.box.y2, a.box.y1, a.box.y2);
    }
    hide Intersection;
  }

  method LooksDuplicate(candidate: Block, existing: seq<Block>) returns (duplicate: bool)
    ensures duplicate == IsDuplicate(candidate, existing)
  {
    hide Alike;
    if candidate.key == "" {
      return true;
    }
    for i := 0 to |existing|
      invariant forall j :: 0 <= j < i ==> !Alike(candidate, existing[j])
    {
      if Alike(candidate, existing[i]) {
        return true;
      }
    }
    duplicate := false;
  }

  predicate IsDuplicate(candidate: Block, existing: seq<Block>) {
    candidate.key == "" || exists j :: 0 <= j < |existing| && Alike(candidate, existing[j])
  }

  // ---------------------------------------------------------------- reading order

  /** The sort key: top, left, length of the text. */
  predicate AtMost(a: Block, b: Block) {
    a.box.y1 < b.box.y1 || (a.box.y1 == b.box.y1
                            && (a.box.x1 < b.box.x1 || (a.box.x1 == b.box.x1 && |a.text| <= |b.text|)))
  }

  /** What lies higher is read first, of what is equally high the left, and of what starts at the same place the
      shorter. */
  lemma ReadsFirst(a: Block, b: Block)
    ensures a.box.y1 < b.box.y1 ==> AtMost(a, b) && !AtMost(b, a)
    ensures a.box.y1 == b.box.y1 && a.box.x1 < b.box.x1 ==> AtMost(a, b) && !AtMost(b, a)
    ensures a.box.y1 == b.box.y1 && a.box.x1 == b.box.x1 ==> (AtMost(a, b) <==> |a.text| <= |b.text|)
  {
  }

  ghost predicate Sorted(blocks: seq<Block>) {
    forall i, j :: 0 <= i < j < |blocks| ==> AtMost(blocks[i], blocks[j])
  }

  /** A stable sort: `b` goes behind everything that is at most b. */
  function Insert(sorted: seq<Block>, b: Block): seq<Block> {
    if sorted == [] || AtMost(sorted[|sorted| - 1], b) then sorted + [b]
    else Insert(sorted[..|sorted| - 1], b) + [sorted[|sorted| - 1]]
  }

  function InOrder(blocks: seq<Block>): seq<Block> {
    if blocks == [] then [] else Insert(InOrder(blocks[..|blocks| - 1]), blocks[|blocks| - 1])
  }

  lemma {:induction false} InsertKeepsSorted(sorted: seq<Block>, b: Block)
    requires Sorted(sorted)
    ensures Sorted(Insert(sorted, b)) && multiset(Insert(sorted, b)) == multiset(sorted) + multiset{b}
    ensures |Insert(sorted, b)| == |sorted| + 1
  {
    hide AtMost;
    if sorted == [] {
    } else if AtMost(sorted[|sorted| - 1], b) {
      forall i | 0 <= i < |sorted|
        ensures AtMost(sorted[i], b)
      {
        AtMostOrders(sorted[i], sorted[|sorted| - 1], b);
      }
    } else {
      var n := |sorted| - 1;
      var rest := Insert(sorted[..n], b);
      InsertKeepsSorted(sorted[..n], b);
      assert sorted == sorted[..n] + [sorted[n]];
      AtMostOrders(b, sorted[n], b);
      forall i | 0 <= i < |rest|
        ensures AtMost(rest[i], sorted[n])
      {
        assert rest[i] in multiset(rest);
        assert rest[i] in multiset(sorted[..n]) + multiset{b};
        assert rest[i] == b || rest[i] in sorted[..n];
      }
    }
  }

  lemma AtMostOrders(a: Block, b: Block, c: Block)
    ensures AtMost(a, b) || AtMost(b, a)
    ensures AtMost(a, b) && AtMost(b, c) ==> AtMost(a, c)
  {
  }

  lemma {:induction false} InOrderSorts(blocks: seq<Block>)
    ensures Sorted(InOrder(blocks)) && multiset(InOrder(blocks)) == multiset(blocks)
  {
    if blocks != [] {
      var n := |blocks| - 1;
      InOrderSorts(blocks[..n]);
      InsertKeepsSorted(InOrder(blocks[..n]), blocks[n]);
      assert blocks == blocks[..n] + [blocks[n]];
    }
  }

  lemma {:induction false} SortedStays(blocks: seq<Block>)
    requires Sorted(blocks)
    ensures InOrder(blocks) == blocks
  {
    if blocks != [] {
      var n := |blocks| - 1;
      SortedStays(blocks[..n]);
      assert blocks == blocks[..n] + [blocks[n]];
    }
  }

  // ---------------------------------------------------------------- keeping the first

  /** The kept blocks of a list that is in order. */
  function FirstReports(blocks: seq<Block>): seq<Block> {
    if blocks == [] then []
    else
      var kept := FirstReports(blocks[..|blocks| - 1]);
      if IsDuplicate(blocks[|blocks| - 1], kept) then kept else kept + [blocks[|blocks| - 1]]
  }

  function Deduped(blocks: seq<Block>): seq<Block> {
    FirstReports(InOrder(blocks))
  }

  method DedupeTextBlocks(blocks: seq<Block>) returns (deduped: seq<Block>)
    ensures deduped == Deduped(blocks)
  {
    hide IsDuplicate, InOrder;
    var ordered := InOrder(blocks);
    deduped := [];
    for n := 0 to |ordered|
      invariant deduped == FirstReports(ordered[..n])
    {
      assert ordered[..n + 1][..n] == ordered[..n];
      var duplicate := LooksDuplicate(ordered[n], deduped);
      if !duplicate {
        deduped := deduped + [ordered[n]];
      }
    }
    assert ordered[..|ordered|] == ordered;
  }

  /** No two blocks of the list look alike, and none is blank. */
  ghost predicate Distinct(blocks: seq<Block>) {
    && (forall i :: 0 <= i < |blocks| ==> blocks[i].key != "")
    && forall i, j :: 0 <= i < |blocks| && 0 <= j < |blocks| && i != j ==> !Alike(blocks[i], blocks[j])
  }

  /** Nothing is lost: every block is kept, blank, or looks like a kept block. */
  ghost predicate Represented(b: Block, kept: seq<Block>) {
    b in kept || b.key == "" || exists j :: 0 <= j < |kept| && Alike(b, kept[j])
  }

  lemma {:induction false} FirstReportsAreDistinct(blocks: seq<Block>)
    ensures Distinct(FirstReports(blocks))
    ensures forall b :: b in blocks ==> Represented(b, FirstReports(blocks))
    ensures forall b :: b in FirstReports(blocks) ==> b in blocks
  {
    hide Alike;
    if blocks != [] {
      var n := |blocks| - 1;
      var kept := FirstReports(blocks[..n]);
      FirstReportsAreDistinct(blocks[..n]);
      assert forall b :: b in blocks <==> b in blocks[..n] || b == blocks[n];
      if !IsDuplicate(blocks[n], kept) {
        var more := kept + [blocks[n]];
        forall i | 0 <= i < |kept|
          ensures !Alike(kept[i], blocks[n])
        {
          AlikeIsSymmetric(kept[i], blocks[n]);
        }
        forall b | b in blocks
          ensures Represented(b, more)
        {
          if b in blocks[..n] {
            assert Represented(b, kept);
            if j :| 0 <= j < |kept| && Alike(b, kept[j]) {
              assert Alike(b, more[j]);
            }
          }
        }
      }
    }
  }

  lemma {:induction false} FirstReportsAreSorted(blocks: seq<Block>)
    requires Sorted(blocks)
    ensures Sorted(FirstReports(blocks))
  {
    hide Alike, AtMost;
    if blocks != [] {
      var n := |blocks| - 1;
      FirstReportsAreSorted(blocks[..n]);
      FirstReportsAreDistinct(blocks[..n]);
      forall b | b in FirstReports(blocks[..n])
        ensures AtMost(b, blocks[n])
      {
        assert b in blocks[..n];
      }
    }
  }

  lemma {:induction false} DistinctStays(blocks: seq<Block>)
    requires Distinct(blocks)
    ensures FirstReports(blocks) == blocks
  {
    hide Alike;
    if blocks != [] {
      var n := |blocks| - 1;
      DistinctStays(blocks[..n]);
      assert blocks == blocks[..n] + [blocks[n]];
    }
  }

  /** The result is in reading order, holds blocks of the input only, no two that look alike, and one for every
      text that was reported; deduplicating again changes nothing. */
  lemma {:induction false} DedupeIsSound(blocks: seq<Block>)
    ensures Sorted(Deduped(blocks)) && Distinct(Deduped(blocks))
    ensures forall b :: b in Deduped(blocks) ==> b in blocks
    ensures forall b :: b in blocks ==> Represented(b, Deduped(blocks))
    ensures Deduped(Deduped(blocks)) == Deduped(blocks)
  {
    hide Alike;
    InOrderSorts(blocks);
    forall b: Block
      ensures b in blocks <==> b in InOrder(blocks)
    {
      assert b in multiset(blocks) <==> b in multiset(InOrder(blocks));
    }
    FirstReportsAreSorted(InOrder(blocks));
    FirstReportsAreDistinct(InOrder(blocks));
    SortedStays(Deduped(blocks));
    DistinctStays(Deduped(blocks));
  }
}
