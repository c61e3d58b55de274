/** The consumer of a streaming run, _consume_streaming_segments in app/translation/manager.py, with the OCR
    tasks it starts. Each method is one stretch of its code between two suspensions and is proved to be the
    step that StreamPipeline describes; StreamInvariant and StreamOrder prove what all of them keep. */
module StreamConsumers {
  import opened Common
  import opened SegmentRows
  import opened TranslationRepositories
  import opened StreamPipeline

  class StreamConsumer {
    const repository: TranslationRepository
    const g: nat
    var pc: Pc
    var current: Option<nat>
    var tasks: map<nat, Task>
    var dying: set<nat>
    ghost var begun: seq<nat>
    ghost var done: seq<nat>

    ghost predicate Valid()
      reads this, repository
    {
      g in repository.generations
    }

    ghost function View(): State
      requires Valid()
      reads this, repository
    {
      State(repository.generations[g], pc, current, tasks, dying, begun, done)
    }

    constructor (repository: TranslationRepository, g: nat)
      requires g in repository.generations
      ensures this.repository == repository && this.g == g && Valid()
      ensures View() == State(repository.generations[g], Absent, None, map[], {}, [], [])
    {
      this.repository, this.g := repository, g;
      pc, current, tasks, dying, begun, done := Absent, None, map[], {}, [], [];
    }

    // -------------------------------------------------------------- the dictionary of tasks

    method DiscardFinishedOcrTasks()
      requires Valid()
      modifies this`tasks
      ensures View() == old(View()).(tasks := WithoutDone(old(tasks)))
    {
      var left := tasks.Keys;
      while left != {}
        invariant left <= tasks.Keys && tasks.Keys <= old(tasks).Keys
        invariant forall k :: k in tasks ==> tasks[k] == old(tasks)[k]
        invariant forall k :: k in old(tasks) ==> (k in tasks <==> k in left || old(tasks)[k] != Done)
        decreases left
      {
        var key :| key in left;
        left := left - {key};
        if tasks[key] == Done {
          tasks := tasks - {key};
        }
      }
      assert tasks == WithoutDone(old(tasks));
    }

    /** Starts OCR for the first segments that need it and have no task, as far as the limit allows. */
    method FillOcrPrefetch(slots: nat)
      requires Valid()
      modifies this`tasks
      ensures View() == FillPrefetch(old(View()), slots)
    {
      var available := slots - |tasks|;
      if available <= 0 {
        return;
      }
      var rows := repository.generations[g].rows;
      for i := 0 to |rows|
        invariant available > 0
        invariant Prefetch(rows, i, tasks, available) == Prefetch(rows, 0, old(tasks), slots - |old(tasks)|)
      {
        if NeedsOcr(rows[i]) && i !in tasks {
          tasks := tasks[i := Created];
          available := available - 1;
          if available == 0 {
            break;
          }
        }
      }
    }

    /** Cancels every task but one; those that have started still have to run their except block. */
    method CancelOcrTasks(keep: Option<nat>)
      requires Valid()
      modifies this`tasks, this`dying
      ensures View() == CancelTasks(old(View()), keep)
    {
      var left := tasks.Keys;
      while left != {}
        invariant left <= tasks.Keys && tasks.Keys <= old(tasks).Keys
        invariant forall k :: k in tasks ==> tasks[k] == old(tasks)[k]
        invariant forall k :: k in old(tasks) ==> (k in tasks <==> k in left || keep == Some(k))
        invariant dying == old(dying) + set k | k in old(tasks) && k !in left && keep != Some(k)
                    && old(tasks)[k] == Claimed
        decreases left
      {
        var key :| key in left;
        left := left - {key};
        if keep != Some(key) {
          if tasks[key] == Claimed {
            dying := dying + {key};
          }
          tasks := tasks - {key};
        }
      }
      assert tasks == map k | k in old(tasks) && keep == Some(k) :: old(tasks)[k];
    }

    // -------------------------------------------------------------- the loop

    /** The consumer's finally block and its result. */
    method ReturnWith(ok: bool)
      requires Valid()
      modifies this
      ensures Valid() && View() == Return(old(View()), ok)
    {
      CancelOcrTasks(None);
      pc := Returned(ok);
    }

    /** One turn of the loop, up to its next suspension. */
    method TakeTurn(slots: nat)
      requires Valid() && pc.Top?
      modifies this, repository
      ensures Valid() && View() == StreamPipeline.TakeTurn(old(View()), slots)
    {
      hide Select, FillPrefetch, CancelTasks, WithoutDone;
      DiscardFinishedOcrTasks();
      var stopping := repository.generations[g].stopRequested;
      var planned := repository.generations[g].planningComplete;
      if stopping {
        CancelOcrTasks(current);
        pc := Gathering(planned);
      } else {
        FillOcrPrefetch(slots);
        SelectSegment(false, planned, slots);
      }
    }

    /** The rest of the turn of a stopping consumer, when the cancelled tasks have ended. */
    method AfterGathering(slots: nat)
      requires Valid() && pc.Gathering?
      modifies this, repository
      ensures Valid() && View() == StreamPipeline.AfterGathering(old(View()), old(pc).planned, slots)
    {
      hide Select, StreamPipeline.Return;
      if current.None? {
        ReturnWith(false);
      } else {
        SelectSegment(true, pc.planned, slots);
      }
    }

    method SelectSegment(stopping: bool, planned: bool, slots: nat)
      requires Valid()
      modifies this, repository
      ensures Valid() && View() == Select(old(View()), stopping, planned, slots)
    {
      hide Process, FinalizeAll, CanBegin, StreamPipeline.Return, SegmentRows.BeginSegment;
      var segment := NextUnfinished(repository.generations[g].rows, 0);
      if segment.None? {
        if planned {
          FinalizeProgressivePages();
          ReturnWith(true);
          return;
        }
        current, pc := None, AwaitWork;
        return;
      }
      if current != segment {
        var ok := repository.BeginSegment(g, segment.value);
        BegunRows(old(repository.generations[g]), segment.value);
        if !ok {
          pc := Top;
          return;
        }
        current := segment;
        begun := begun + [segment.value];
      }
      ProcessSegment(segment.value, stopping, slots);
    }

    method ProcessSegment(i: nat, stopping: bool, slots: nat)
      requires Valid() && i < |repository.generations[g].rows|
      modifies this
      ensures Valid() && View() == Process(old(View()), i, stopping, slots)
    {
      hide StreamPipeline.Return, FillPrefetch;
      var row := repository.generations[g].rows[i];
      if row.status == Ocr || row.ocrPath.None? || row.blocksPath.None? {
        if i !in tasks {
          if stopping {
            ReturnWith(false);
            return;
          }
          FillOcrPrefetch(slots);
        }
        pc := AwaitOcr(i);
      } else {
        pc := Working(i, Loading);
      }
    }

    method FinalizeProgressivePages()
      requires Valid()
      modifies repository
      ensures Valid() && repository.generations[g] == FinalizeAll(old(repository.generations[g]))
    {
      hide OutcomeOf;
      ghost var d := repository.generations[g];
      ghost var final := FinalizeAll(d).pages;
      var places := |repository.generations[g].pages|;
      for place := 0 to places
        invariant Valid() && places == |d.pages| == |repository.generations[g].pages|
        invariant repository.generations[g] == d.(pages := repository.generations[g].pages)
        invariant forall j :: 0 <= j < places ==> repository.generations[g].pages[j].pageIndex == d.pages[j].pageIndex
        invariant forall j :: 0 <= j < places ==>
                    || repository.generations[g].pages[j] == final[j]
                    || (j >= place && repository.generations[g].pages[j] == d.pages[j])
      {
        var page := repository.generations[g].pages[place];
        var outcome := repository.FinalizePageFromSegments(g, page.pageIndex);
        if outcome == AllReady && page.status != PageCompleted {
          var _ := repository.PublishCompletedSegmentPage(g, page.pageIndex);
        }
      }
      assert repository.generations[g].pages == final;
    }

    /** What follows every segment: it is current no longer, and the loop goes on only while the generation runs. */
    method CloseSegment()
      requires Valid()
      modifies this, repository
      ensures Valid() && View() == Close(old(View()))
    {
      hide StreamPipeline.Return;
      current := None;
      var running := repository.FinishSegment(g);
      FinishedRows(old(repository.generations[g]));
      if running {
        pc := Top;
      } else {
        ReturnWith(false);
      }
    }

    /** The consumer wakes up from waiting for a segment's OCR. */
    method WakeFromOcr()
      requires Valid() && pc.AwaitOcr? && pc.row < |repository.generations[g].rows|
      modifies this, repository
      ensures Valid() && View() == AfterOcr(old(View()), old(pc).row)
    {
      hide Close;
      if repository.generations[g].rows[pc.row].status == Failed {
        CloseSegment();
      } else {
        pc := Top;
      }
    }

    method StartTranslating()
      requires Valid() && pc.Working? && pc.phase == Loading && pc.row < |repository.generations[g].rows|
      modifies this, repository
      ensures Valid() && View() == Translate(old(View()), old(pc).row)
    {
      repository.SetSegmentStage(g, pc.row, Translating, false, map[]);
      StagedIs(old(repository.generations[g]), pc.row, repository.generations[g].rows[pc.row], Translating, None);
      pc := Working(pc.row, InTranslation);
    }

    method StartRendering(translations: Path)
      requires Valid() && pc.Working? && pc.phase == InTranslation && pc.row < |repository.generations[g].rows|
      modifies this, repository
      ensures Valid() && View() == Render(old(View()), old(pc).row, translations)
    {
      repository.SetSegmentStage(g, pc.row, Rendering, false, map[TranslationsPath := Some(translations)]);
      StagedIs(old(repository.generations[g]), pc.row, repository.generations[g].rows[pc.row], Rendering,
               Some(translations));
      pc := Working(pc.row, InRendering);
    }

    method FinishWork(path: Path, version: string)
      requires Valid() && pc.Working? && pc.phase == InRendering && pc.row < |repository.generations[g].rows|
      modifies this, repository
      ensures Valid() && View() == Finish(old(View()), old(pc).row, path, version)
    {
      hide Close, MarkPublished, CompleteRow, FinalizePage, OutcomeOf;
      var page := repository.generations[g].rows[pc.row].strip.pageIndex;
      var _ := repository.CompleteSegment(g, pc.row, path, version);
      done := done + [pc.row];
      PublishPageIfComplete(page);
      CloseSegment();
    }

    method PublishPageIfComplete(page: nat)
      requires Valid()
      modifies repository
      ensures Valid() && repository.generations[g] == ClosePage(old(repository.generations[g]), page)
    {
      hide OutcomeOf;
      var outcome := repository.FinalizePageFromSegments(g, page);
      if outcome == AllReady {
        var _ := repository.PublishCompletedSegmentPage(g, page);
      }
    }

    method FailWork()
      requires Valid() && pc.Working? && pc.row < |repository.generations[g].rows|
      modifies this, repository
      ensures Valid() && View() == FailCurrent(old(View()), old(pc).row)
    {
      hide Close, FailTaskRow;
      FailSegmentAndPage(pc.row);
      CloseSegment();
    }

    method FailSegmentAndPage(i: nat)
      requires Valid() && i < |repository.generations[g].rows|
      modifies repository
      ensures Valid() && repository.generations[g] == FailTaskRow(old(repository.generations[g]), i)
    {
      hide FinalizePage;
      var row := repository.generations[g].rows[i];
      repository.FailSegment(g, i, StageName(row.status));
      var _ := repository.FinalizePageFromSegments(g, row.strip.pageIndex);
    }

    // -------------------------------------------------------------- an OCR task

    /** A task starts: it claims its segment, or fails when the segment is not there to be claimed. */
    method StartTask(k: nat)
      requires Valid() && k in tasks && tasks[k] == Created && k < |repository.generations[g].rows|
      modifies this, repository
      ensures Valid() && View() == Claim(old(View()), k)
    {
      hide FailTaskRow;
      var claimed := repository.ClaimSegmentOcr(g, k);
      UnclaimedRows(old(repository.generations[g]), k);
      if claimed {
        tasks := tasks[k := Claimed];
      } else {
        FailSegmentAndPage(k);
        tasks := tasks[k := Done];
      }
    }

    method EndTask(k: nat, ocr: Path, blocks: Path)
      requires Valid() && k in tasks && tasks[k] == Claimed && k < |repository.generations[g].rows|
      modifies this, repository
      ensures Valid() && View() == StreamPipeline.Ready(old(View()), k, ocr, blocks)
    {
      hide FailTaskRow;
      var ready := repository.MarkSegmentOcrReady(g, k, ocr, blocks);
      if !ready {
        FailSegmentAndPage(k);
      }
      tasks := tasks[k := Done];
    }

    method FailTask(k: nat)
      requires Valid() && k in tasks && tasks[k] == Claimed && k < |repository.generations[g].rows|
      modifies this, repository
      ensures Valid() && View() == TaskFailure(old(View()), k)
    {
      hide FailTaskRow;
      FailSegmentAndPage(k);
      tasks := tasks[k := Done];
    }

    /** The except block of a cancelled task. */
    method EndCancelledTask(k: nat)
      requires Valid() && k in dying && k < |repository.generations[g].rows|
      modifies this, repository
      ensures Valid() && View() == old(View()).(d := ResetOcr(old(View()).d, k), dying := old(dying) - {k})
    {
      var _ := repository.ResetSegmentOcr(g, k);
      dying := dying - {k};
    }
  }

  lemma BegunRows(d: Generation, i: nat)
    ensures SegmentRows.BeginSegment(d, i).rows == d.rows
    ensures !CanBegin(d) ==> SegmentRows.BeginSegment(d, i) == d
  {
  }

  lemma FinishedRows(d: Generation)
    ensures !CanFinish(d) ==> SegmentRows.FinishSegment(d) == d
  {
  }

  lemma UnclaimedRows(d: Generation, k: nat)
    requires k < |d.rows|
    ensures |ClaimOcr(d, k).rows| == |d.rows|
    ensures d.rows[k].status != Pending ==> ClaimOcr(d, k) == d
  {
  }
}
