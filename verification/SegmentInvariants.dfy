/** What every statement on the rows of a generation keeps: the numbering of the plan, the order in
    which checkpoints appear, and the counters. */
module SegmentInvariants {
  import opened Common
  import opened SegmentPlanner
  import opened SegmentRows

  // ---------------------------------------------------------------- checkpoints

  /** OCR output and text blocks are stored together, translations only on top of them, and a translated
      image exactly when the segment is completed; the status never runs ahead of the checkpoints. */
  ghost predicate RowOk(row: Row) {
    && (row.ocrPath.Some? <==> row.blocksPath.Some?)
    && (row.translationsPath.Some? ==> row.ocrPath.Some?)
    && (row.translatedPath.Some? <==> row.status == Completed)
    && (row.version.Some? <==> row.status == Completed)
    && (row.status == Completed ==> row.translationsPath.Some?)
    && (row.status == Ocr ==> row.ocrPath.None?)
    && (row.status in {Translating, Rendering} ==> row.ocrPath.Some?)
    && (row.status == Rendering ==> row.translationsPath.Some?)
    && (row.status == Failed ==> row.errorStage.Some?)
  }

  ghost predicate RowsOk(rows: seq<Row>) {
    forall i :: 0 <= i < |rows| ==> RowOk(rows[i])
  }

  ghost predicate CountsOk(d: Generation) {
    && d.completedSegments == CountStatus(d.rows, Completed)
    && d.failedSegments == CountStatus(d.rows, Failed)
  }

  lemma {:induction false} CountUpdate(rows: seq<Row>, i: nat, row: Row, status: SegmentStatus)
    requires i < |rows|
    ensures CountStatus(rows[i := row], status)
            == CountStatus(rows, status) - (if rows[i].status == status then 1 else 0)
              + (if row.status == status then 1 else 0)
  {
    var n := |rows| - 1;
    if i < n {
      CountUpdate(rows[..n], i, row, status);
      assert rows[i := row][..n] == rows[..n][i := row];
    } else {
      assert rows[i := row][..n] == rows[..n];
    }
  }

  /** Statements that neither finish nor reopen a segment leave the counters right. */
  lemma {:induction false} CountsKept(d: Generation, i: nat, row: Row)
    requires CountsOk(d) && i < |d.rows| && !Terminal(d.rows[i]) && !Terminal(row)
    ensures CountsOk(SetRow(d, i, row))
  {
    CountUpdate(d.rows, i, row, Completed);
    CountUpdate(d.rows, i, row, Failed);
  }

  lemma {:induction false} CountsSame(rows: seq<Row>, rows': seq<Row>, status: SegmentStatus)
    requires |rows| == |rows'|
    requires forall i :: 0 <= i < |rows| ==> (rows[i].status == status <==> rows'[i].status == status)
    ensures CountStatus(rows, status) == CountStatus(rows', status)
  {
    if |rows| > 0 {
      CountsSame(rows[..|rows| - 1], rows'[..|rows| - 1], status);
    }
  }

  lemma {:induction false} CountsAppend(rows: seq<Row>, more: seq<Row>, status: SegmentStatus)
    ensures CountStatus(rows + more, status) == CountStatus(rows, status) + CountStatus(more, status)
  {
    if |more| == 0 {
      assert rows + more == rows;
    } else {
      CountsAppend(rows, more[..|more| - 1], status);
      assert (rows + more)[..|rows + more| - 1] == rows + more[..|more| - 1];
    }
  }

  lemma {:induction false} CountIsZero(rows: seq<Row>, status: SegmentStatus)
    ensures CountStatus(rows, status) == 0 <==> forall i :: 0 <= i < |rows| ==> rows[i].status != status
  {
    if |rows| > 0 {
      CountIsZero(rows[..|rows| - 1], status);
    }
  }

  // ---------------------------------------------------------------- the plan

  ghost predicate PreparedPage(pages: seq<Page>, pageIndex: nat) {
    exists k :: 0 <= k < |pages| && pages[k].pageIndex == pageIndex && pages[k].prepared
  }

  ghost predicate PlannedPage(rows: seq<Row>, pageIndex: nat) {
    exists i :: 0 <= i < |rows| && rows[i].strip.pageIndex == pageIndex
  }

  /** Row i continues the row before it, on the same page, or opens a later page with segment 0. */
  ghost predicate Follows(rows: seq<Row>, i: nat)
    requires i < |rows|
  {
    if rows[i].strip.segmentIndex == 0 then i == 0 || rows[i - 1].strip.pageIndex < rows[i].strip.pageIndex
    else
      && i > 0
      && rows[i - 1].strip.pageIndex == rows[i].strip.pageIndex
      && rows[i - 1].strip.segmentIndex + 1 == rows[i].strip.segmentIndex
  }

  /** Prepared pages are a prefix of the pages, exactly they have segments, the segments are numbered
      0, 1, ... in page order, and planning is complete only when every page is prepared. */
  ghost predicate PlanOk(d: Generation) {
    && (forall k, l :: 0 <= k < l < |d.pages| ==> d.pages[k].pageIndex < d.pages[l].pageIndex)
    && (forall k, l :: 0 <= k < l < |d.pages| && d.pages[l].prepared ==> d.pages[k].prepared)
    && (forall i :: 0 <= i < |d.rows| ==> d.rows[i].globalIndex == i)
    && (forall i {:trigger Follows(d.rows, i)} :: 0 <= i < |d.rows| ==> Follows(d.rows, i))
    && (forall i :: 0 <= i < |d.rows| ==> PreparedPage(d.pages, d.rows[i].strip.pageIndex))
    && (forall k :: 0 <= k < |d.pages| && d.pages[k].prepared ==> PlannedPage(d.rows, d.pages[k].pageIndex))
    && d.totalSegments == |d.rows|
    && (d.planningComplete ==> forall k :: 0 <= k < |d.pages| ==> d.pages[k].prepared)
  }

  /** (page, segment) comes before (page', segment'). */
  ghost predicate Before(a: PlannedSegment, b: PlannedSegment) {
    a.pageIndex < b.pageIndex || (a.pageIndex == b.pageIndex && a.segmentIndex < b.segmentIndex)
  }

  /** Global indices order the segments lexicographically by page and segment; in particular no
      (page, segment) pair occurs twice. */
  lemma {:induction false} GlobalIndexIsLexicographic(d: Generation, i: nat, j: nat)
    requires PlanOk(d) && i < j < |d.rows|
    ensures Before(d.rows[i].strip, d.rows[j].strip)
    ensures d.rows[i].globalIndex < d.rows[j].globalIndex
    decreases j
  {
    assert Follows(d.rows, j);
    if i + 1 < j {
      GlobalIndexIsLexicographic(d, i, j - 1);
    }
  }

  lemma {:induction false} NextIndexIsLength(rows: seq<Row>)
    requires forall i :: 0 <= i < |rows| ==> rows[i].globalIndex == i
    ensures NextGlobalIndex(rows) == |rows|
  {
    if |rows| > 0 {
      NextIndexIsLength(rows[..|rows| - 1]);
    }
  }

  lemma {:induction false} CountPageIsZero(rows: seq<Row>, pageIndex: nat)
    ensures CountPage(rows, pageIndex) == 0 <==> !PlannedPage(rows, pageIndex)
  {
    if |rows| > 0 {
      var n := |rows| - 1;
      CountPageIsZero(rows[..n], pageIndex);
      if PlannedPage(rows[..n], pageIndex) {
        var i :| 0 <= i < n && rows[..n][i].strip.pageIndex == pageIndex;
        assert rows[i].strip.pageIndex == pageIndex;
      } else {
        assert forall i :: 0 <= i < n ==> rows[..n][i].strip.pageIndex != pageIndex;
      }
    }
  }

  /** The first page that is not prepared yet. */
  ghost predicate IsNextPage(d: Generation, place: nat) {
    place < |d.pages| && !d.pages[place].prepared && forall k :: 0 <= k < place ==> d.pages[k].prepared
  }

  /** In a consistent plan every segment belongs to a page before the next one to prepare. */
  lemma {:induction false} RowsAreBeforeNextPage(d: Generation, place: nat, i: nat)
    requires PlanOk(d) && IsNextPage(d, place) && i < |d.rows|
    ensures d.rows[i].strip.pageIndex < d.pages[place].pageIndex
  {
    var k :| 0 <= k < |d.pages| && d.pages[k].pageIndex == d.rows[i].strip.pageIndex && d.pages[k].prepared;
    assert k < place;
  }

  /** Appending the plan of the next page is never refused and keeps the plan consistent; the new
      segments take the next global indices. */
  lemma {:induction false} AppendKeepsPlan(d: Generation, place: nat, plan: seq<PlannedSegment>)
    requires PlanOk(d) && IsNextPage(d, place)
    requires |plan| > 0 && NumbersPage(plan, d.pages[place].pageIndex)
    ensures AppendCheck(d, d.pages[place].pageIndex, plan).None?
    ensures var d' := AppendPage(d, d.pages[place].pageIndex, plan);
            && PlanOk(d') && d'.rows == d.rows + NewRows(plan, |d.rows|)
            && d'.pages == d.pages[place := d.pages[place].(prepared := true, status := PagePending)]
  {
    var pageIndex := d.pages[place].pageIndex;
    forall i | 0 <= i < |d.rows|
      ensures d.rows[i].strip.pageIndex < pageIndex
    {
      RowsAreBeforeNextPage(d, place, i);
    }
    assert !PlannedPage(d.rows, pageIndex);
    CountPageIsZero(d.rows, pageIndex);
    NextIndexIsLength(d.rows);
    assert PagePlace(d.pages, pageIndex) == Some(place);
    var d' := AppendPage(d, pageIndex, plan);
    AppendedRowsFollow(d.rows, plan, pageIndex);
    AppendedRowsHavePages(d.rows, d.pages, place, plan);
    AppendedPagesHaveRows(d.rows, d.pages, place, plan);
  }

  /** Why a page is refused. That a page which is not prepared has segments never happens. */
  lemma {:induction false} AppendIsRefusedIff(d: Generation, pageIndex: nat, plan: seq<PlannedSegment>)
    requires PlanOk(d)
    ensures var r := AppendCheck(d, pageIndex, plan);
            var foreign := exists k :: 0 <= k < |plan| && plan[k].pageIndex != pageIndex;
            var known := exists k :: 0 <= k < |d.pages| && d.pages[k].pageIndex == pageIndex;
            && (r == Some(EmptyPlan) <==> |plan| == 0)
            && (r == Some(ForeignSegment) <==> foreign)
            && (r == Some(NoSuchPage) <==> |plan| > 0 && !foreign && !known)
            && (r == Some(InconsistentPlan) <==>
                  |plan| > 0 && !foreign && PreparedPage(d.pages, pageIndex) && CountPage(d.rows, pageIndex) != |plan|)
            && r != Some(StraySegments)
  {
    CountPageIsZero(d.rows, pageIndex);
  }

  lemma {:induction false} AppendedRowsFollow(rows: seq<Row>, plan: seq<PlannedSegment>, pageIndex: nat)
    requires forall i :: 0 <= i < |rows| ==>
               rows[i].globalIndex == i && Follows(rows, i) && rows[i].strip.pageIndex < pageIndex
    requires NumbersPage(plan, pageIndex)
    ensures var all := rows + NewRows(plan, |rows|);
            forall i :: 0 <= i < |all| ==> all[i].globalIndex == i && Follows(all, i)
  {
    var all := rows + NewRows(plan, |rows|);
    forall i | 0 <= i < |all|
      ensures all[i].globalIndex == i && Follows(all, i)
    {
      if i < |rows| {
        assert Follows(rows, i);
      } else {
        assert all[i] == NewRow(plan[i - |rows|], i);
        if i > |rows| {
          assert all[i - 1] == NewRow(plan[i - 1 - |rows|], i - 1);
        }
      }
    }
  }

  lemma {:induction false} AppendedRowsHavePages(rows: seq<Row>, pages: seq<Page>, place: nat,
                                                 plan: seq<PlannedSegment>)
    requires place < |pages| && NumbersPage(plan, pages[place].pageIndex)
    requires forall i :: 0 <= i < |rows| ==> PreparedPage(pages, rows[i].strip.pageIndex)
    ensures var pages' := pages[place := pages[place].(prepared := true, status := PagePending)];
            var rows' := rows + NewRows(plan, |rows|);
            forall i :: 0 <= i < |rows'| ==> PreparedPage(pages', rows'[i].strip.pageIndex)
  {
    var pages' := pages[place := pages[place].(prepared := true, status := PagePending)];
    var rows' := rows + NewRows(plan, |rows|);
    forall i | 0 <= i < |rows'|
      ensures PreparedPage(pages', rows'[i].strip.pageIndex)
    {
      if i < |rows| {
        var k :| 0 <= k < |pages| && pages[k].pageIndex == rows[i].strip.pageIndex && pages[k].prepared;
        assert pages'[k].pageIndex == rows[i].strip.pageIndex && pages'[k].prepared;
      } else {
        assert rows'[i] == NewRow(plan[i - |rows|], i);
        assert pages'[place].prepared;
      }
    }
  }

  lemma {:induction false} AppendedPagesHaveRows(rows: seq<Row>, pages: seq<Page>, place: nat,
                                                 plan: seq<PlannedSegment>)
    requires place < |pages| && |plan| > 0 && NumbersPage(plan, pages[place].pageIndex)
    requires forall k :: 0 <= k < |pages| && pages[k].prepared ==> PlannedPage(rows, pages[k].pageIndex)
    ensures var pages' := pages[place := pages[place].(prepared := true, status := PagePending)];
            var rows' := rows + NewRows(plan, |rows|);
            forall k :: 0 <= k < |pages'| && pages'[k].prepared ==> PlannedPage(rows', pages'[k].pageIndex)
  {
    var rows' := rows + NewRows(plan, |rows|);
    forall k | 0 <= k < |pages| && (k == place || pages[k].prepared)
      ensures PlannedPage(rows', pages[k].pageIndex)
    {
      if k == place {
        assert rows'[|rows|] == NewRow(plan[0], |rows|);
      } else {
        var i :| 0 <= i < |rows| && rows[i].strip.pageIndex == pages[k].pageIndex;
        assert rows'[i] == rows[i];
      }
    }
  }

  /** d' differs from d at most in what segments, pages and the generation have been through. */
  ghost predicate SamePlan(d: Generation, d': Generation) {
    && |d'.rows| == |d.rows| && |d'.pages| == |d.pages|
    && (forall i :: 0 <= i < |d.rows| ==>
        d'.rows[i].strip == d.rows[i].strip && d'.rows[i].globalIndex == d.rows[i].globalIndex)
    && (forall k :: 0 <= k < |d.pages| ==>
        d'.pages[k].pageIndex == d.pages[k].pageIndex && d'.pages[k].prepared == d.pages[k].prepared)
    && d'.totalSegments == d.totalSegments && d'.planningComplete == d.planningComplete
  }

  lemma {:induction false} SamePlanKeepsPlan(d: Generation, d': Generation)
    requires PlanOk(d) && SamePlan(d, d')
    ensures PlanOk(d')
  {
    forall i | 0 <= i < |d'.rows|
      ensures d'.rows[i].globalIndex == i && Follows(d'.rows, i)
      ensures PreparedPage(d'.pages, d'.rows[i].strip.pageIndex)
    {
      assert Follows(d.rows, i) && PreparedPage(d.pages, d.rows[i].strip.pageIndex);
      var k :| 0 <= k < |d.pages| && d.pages[k].pageIndex == d.rows[i].strip.pageIndex && d.pages[k].prepared;
      assert d'.pages[k].prepared;
    }
    forall k | 0 <= k < |d'.pages| && d'.pages[k].prepared
      ensures PlannedPage(d'.rows, d'.pages[k].pageIndex)
    {
      assert PlannedPage(d.rows, d.pages[k].pageIndex);
      var i :| 0 <= i < |d.rows| && d.rows[i].strip.pageIndex == d.pages[k].pageIndex;
      assert d'.rows[i].strip == d.rows[i].strip;
    }
  }

  // ---------------------------------------------------------------- retries

  /** How far along the chain OCR and blocks, translations, translated image a row has come. */
  function Depth(row: Row): nat {
    if row.ocrPath.None? then 0 else if row.translationsPath.None? then 1 else if row.translatedPath.None? then 2 else 3
  }

  /** How much of the chain survives a retry of a failure at this stage. */
  function KeptDepth(stage: string): nat {
    match RetryClears(stage)
    case FromOcr => 0
    case FromTranslations => 1
    case FromTranslated => 2
  }

  /** A retry forgets exactly a suffix of the chain, decided by the stage that failed, and what it keeps
      it keeps unchanged. */
  lemma RetryForgetsSuffix(row: Row)
    requires RowOk(row) && row.status == Failed
    ensures var r := Retried(row);
            && RowOk(r) && r.status == Pending
            && Depth(r) == Min(Depth(row), KeptDepth(FailedStage(row)))
            && (Depth(r) >= 1 ==> r.ocrPath == row.ocrPath && r.blocksPath == row.blocksPath)
            && (Depth(r) >= 2 ==> r.translationsPath == row.translationsPath)
            && r.strip == row.strip && r.globalIndex == row.globalIndex
    ensures KeptDepth("ocr") == 0 && KeptDepth("translating") == 1 && KeptDepth("rendering") == 2
  {
  }

  lemma {:induction false} RetryRowKeeps(d: Generation, i: nat)
    requires PlanOk(d) && RowsOk(d.rows) && i < |d.rows| && d.rows[i].status == Failed
    ensures var d' := RetryRow(d, i);
            && PlanOk(d') && RowsOk(d'.rows) && CountsOk(d')
            && d'.rows == d.rows[i := Retried(d.rows[i])]
  {
    RetryForgetsSuffix(d.rows[i]);
    hide PlanOk, RowOk, Retried, CountStatus;
    SamePlanKeepsPlan(d, RetryRow(d, i));
  }

  lemma {:induction false} RetriedRowsAreOk(rows: seq<Row>)
    requires RowsOk(rows)
    ensures RowsOk(RetriedRows(rows))
    ensures CountStatus(RetriedRows(rows), Failed) == 0
    ensures CountStatus(RetriedRows(rows), Completed) == CountStatus(rows, Completed)
    ensures forall i :: 0 <= i < |rows| ==>
              RetriedRows(rows)[i].strip == rows[i].strip && RetriedRows(rows)[i].globalIndex == rows[i].globalIndex
  {
    forall i | 0 <= i < |rows| && rows[i].status == Failed
      ensures RowOk(Retried(rows[i])) && Retried(rows[i]).status == Pending
    {
      RetryForgetsSuffix(rows[i]);
    }
    CountIsZero(RetriedRows(rows), Failed);
    CountsSame(rows, RetriedRows(rows), Completed);
  }

  /** Retrying all failures reopens exactly the failed segments, leaves every other row as it is, and
      leaves the counters equal to the number of rows they count. */
  lemma {:induction false} RetryAllKeeps(d: Generation)
    requires PlanOk(d) && RowsOk(d.rows) && CountsOk(d)
    ensures var d' := RetryAll(d);
            && PlanOk(d') && RowsOk(d'.rows) && CountsOk(d')
            && d'.failedSegments == 0 && d'.completedSegments == d.completedSegments
            && d'.rows == RetriedRows(d.rows)
  {
    if CountStatus(d.rows, Failed) == 0 {
      CountIsZero(d.rows, Failed);
      assert RetriedRows(d.rows) == d.rows;
    } else {
      RetriedRowsAreOk(d.rows);
      SamePlanKeepsPlan(d, RetryAll(d));
    }
  }
}
