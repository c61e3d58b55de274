/** What a start-up makes of segments whose files are gone: recover_invalid_checkpoints of
    app/repositories/translation.py, for the segments of one generation. */
module CheckpointRecovery {
  import opened Common
  import opened SegmentRows
  import opened SegmentInvariants

  predicate There(path: Option<Path>, indexed: set<Path>) {
    path.Some? && path.value in indexed
  }

  /** From where on the checkpoints of a segment are cleared, if at all. The image of a completed segment stands
      for all of them. */
  function Damage(row: Row, indexed: set<Path>): Option<ClearFrom> {
    if row.status == Completed then
      if There(row.translatedPath, indexed) then None else Some(FromTranslated)
    else if (row.ocrPath.Some? || row.blocksPath.Some?)
         && !(There(row.ocrPath, indexed) && There(row.blocksPath, indexed)) then Some(FromOcr)
    else if row.translationsPath.Some? && !There(row.translationsPath, indexed) then Some(FromTranslations)
    else if row.translatedPath.Some? && !There(row.translatedPath, indexed) then Some(FromTranslated)
    else None
  }

  function RecoveredRow(row: Row, indexed: set<Path>): Row {
    match Damage(row, indexed)
    case None => row
    case Some(from) => RetriedRow(row, from, false)
  }

  function RecoveredRows(rows: seq<Row>, indexed: set<Path>): seq<Row> {
    seq(|rows|, k requires 0 <= k < |rows| => RecoveredRow(rows[k], indexed))
  }

  predicate Damaged(rows: seq<Row>, indexed: set<Path>) {
    exists k :: 0 <= k < |rows| && Damage(rows[k], indexed).Some?
  }

  /** What becomes of a generation of which something had to be repaired. */
  function Repaired(d: Generation): Generation {
    RefreshCounts(d).(status := if d.status in {Preparing, Queued, Running} then Queued else Paused,
                      stopRequested := false, current := None)
  }

  function RecoverCheckpoints(d: Generation, indexed: set<Path>): Generation {
    if Damaged(d.rows, indexed) then Repaired(d.(rows := RecoveredRows(d.rows, indexed))) else d
  }

  // ---------------------------------------------------------------- one segment

  /** The files that a segment still needs are there: its image when it is completed, and otherwise whatever is
      stored for it. */
  predicate Intact(row: Row, indexed: set<Path>) {
    if row.status == Completed then There(row.translatedPath, indexed)
    else
      && (row.ocrPath.Some? ==> There(row.ocrPath, indexed) && There(row.blocksPath, indexed))
      && (row.translationsPath.Some? ==> There(row.translationsPath, indexed))
  }

  /** The files of the first n of OCR with blocks, translations, image. */
  predicate FilesUpTo(row: Row, n: nat, indexed: set<Path>) {
    && (n >= 1 ==> There(row.ocrPath, indexed) && There(row.blocksPath, indexed))
    && (n >= 2 ==> There(row.translationsPath, indexed))
    && (n >= 3 ==> There(row.translatedPath, indexed))
  }

  /** A start-up changes a segment if and only if a file that it needs is missing; then it is pending again, and
      what it keeps it keeps unchanged: a completed one everything but the image, any other exactly the checkpoints
      before the first that has lost a file. */
  lemma RecoveryForgetsSuffix(row: Row, indexed: set<Path>)
    requires RowOk(row)
    ensures var r := RecoveredRow(row, indexed);
            && RowOk(r) && (r == row <==> Intact(row, indexed))
            && (!Intact(row, indexed) ==>
                  && r.status == Pending && r.errorStage.None? && Depth(r) < Depth(row)
                  && (row.status == Completed ==> Depth(r) == 2)
                  && (row.status != Completed ==>
                        FilesUpTo(row, Depth(r), indexed) && !FilesUpTo(row, Depth(r) + 1, indexed)))
            && (Depth(r) >= 1 ==> r.ocrPath == row.ocrPath && r.blocksPath == row.blocksPath)
            && (Depth(r) >= 2 ==> r.translationsPath == row.translationsPath)
            && r.strip == row.strip && r.globalIndex == row.globalIndex && r.attempts == row.attempts
  {
  }

  /** One start-up does not always do: a segment comes out of it with all the files that it needs if and only if
      it was not a completed one that had lost its image together with something before it. */
  lemma RecoverySufficesIff(row: Row, indexed: set<Path>)
    requires RowOk(row)
    ensures Intact(RecoveredRow(row, indexed), indexed) <==>
              || row.status != Completed || There(row.translatedPath, indexed)
              || (There(row.ocrPath, indexed) && There(row.blocksPath, indexed) && There(row.translationsPath, indexed))
    ensures Intact(RecoveredRow(RecoveredRow(row, indexed), indexed), indexed)
  {
  }

  /** The segment as it is when its text blocks could not be read: it had not got beyond its pending state. */
  function BlocksMissing(row: Row): Row {
    row.(status := Failed, errorStage := Some(StageName(row.status)))
  }

  /** Nor does a retry help such a segment: it keeps the path of the missing blocks, so that it fails and comes
      back in the same way, until the next start-up. */
  lemma RetryKeepsWhatIsMissing(row: Row, indexed: set<Path>)
    requires RowOk(row) && row.status == Completed
    requires !There(row.translatedPath, indexed) && !There(row.blocksPath, indexed)
    ensures var r := RecoveredRow(row, indexed);
            && r.status == Pending && r.blocksPath.Some? && r.blocksPath.value !in indexed
            && Retried(BlocksMissing(r)) == r.(attempts := r.attempts + 1)
  {
  }

  // ---------------------------------------------------------------- the generation

  /** Plan, checkpoint order and counters survive. */
  lemma {:induction false} RecoveryKeepsData(d: Generation, indexed: set<Path>)
    requires PlanOk(d) && RowsOk(d.rows) && CountsOk(d)
    ensures var t := RecoverCheckpoints(d, indexed);
            && PlanOk(t) && RowsOk(t.rows) && CountsOk(t) && t.rows == RecoveredRows(d.rows, indexed)
  {
    var t := RecoverCheckpoints(d, indexed);
    hide PlanOk, CountStatus;
    forall k | 0 <= k < |d.rows|
      ensures RowOk(RecoveredRow(d.rows[k], indexed))
    {
      RecoveryForgetsSuffix(d.rows[k], indexed);
    }
    if !Damaged(d.rows, indexed) {
      assert RecoveredRows(d.rows, indexed) == d.rows;
    }
    SamePlanKeepsPlan(d, t);
  }
}
