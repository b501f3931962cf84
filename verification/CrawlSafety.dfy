/** Which crawl runs keep the archive ahead of the queue, and exactly which step breaks that. */
module CrawlSafety {
  import opened PartLog
  import opened Archive
  import opened CrawlProtocol

  predicate HeadCovered(s: State) {
    AtHead(s, Written) ==> Covered(s.archive, s.rows[HeadId(s)].matchId)
  }

  // ---------------------------------------------------------------- done means published

  predicate DoneIsPublished(s: State) {
    forall id | id in s.rows && s.rows[id].status == Done :: Published(s.archive, s.rows[id].matchId)
  }

  /** What the batch means to close: a retained row that nobody has reclaimed meanwhile. */
  predicate ToBeClosed(s: State, id: JobId) {
    id in s.rows && s.rows[id].status == Claimed
  }

  predicate RetainedIsSafe(s: State)
    requires Tracked(s)
  {
    match s.phase
    case Working(todo, retained, _) =>
      forall id | id in retained && ToBeClosed(s, id) :: Covered(s.archive, RowOf(s, id).matchId)
    case Tail(todo, retained) =>
      forall id | id in retained && ToBeClosed(s, id) :: Covered(s.archive, RowOf(s, id).matchId)
    case Closing(retained) =>
      forall id | id in retained && ToBeClosed(s, id) :: Published(s.archive, RowOf(s, id).matchId)
    case _ => true
  }

  function RowOf(s: State, id: JobId): Row {
    if id in s.rows then s.rows[id] else Row("", Pending, 0, 0)
  }

  predicate DurableInv(s: State) {
    Tracked(s) && DoneIsPublished(s) && RetainedIsSafe(s) && HeadCovered(s)
  }

  /** A rotation inside this append fails. */
  predicate RotationFails(c: Config, s: State, e: Event) {
    e.Write? && Rotates(LogOf(s.archive, e.dir), c.rowsPerPart, e.faults) && e.faults.finalize
  }

  /** ... and the dropped part held the only copy of a retained row this batch is still to close. */
  predicate LosesRetained(c: Config, s: State, e: Event, id: JobId) {
    && RotationFails(c, s, e) && AtHead(s, Fresh) && id in s.phase.retained && ToBeClosed(s, id)
    && !Published(s.archive, RowOf(s, id).matchId)
    && forall d | d in s.archive && d != e.dir :: RowOf(s, id).matchId !in OpenRows(s.archive[d])
  }

  predicate LossyRotation(c: Config, s: State, e: Event) {
    s.phase.Working? && exists id | id in s.phase.retained :: LosesRetained(c, s, e, id)
  }

  lemma WriteStep(c: Config, s: State, e: Event)
    requires DurableInv(s) && Can(c, s, e) && e.Write?
    ensures DurableInv(Do(c, s, e)) <==> !LossyRotation(c, s, e)
  {
    StaysTracked(c, s, e);
    var t := Do(c, s, e);
    var row := s.rows[HeadId(s)].matchId;
    assert t.rows == s.rows;
    assert forall id | id in s.phase.retained :: id in t.phase.retained;
    forall m: MatchId
      ensures Published(s.archive, m) ==> Published(t.archive, m)
      ensures Buffered(s.archive, m) && !RotationFails(c, s, e) ==> Covered(t.archive, m)
      ensures WriteOk(s.archive, e.dir, row, c.rowsPerPart, e.faults) ==> Covered(t.archive, row)
    {
      WriteKeepsCover(s.archive, e.dir, row, c.rowsPerPart, e.faults, m);
    }
    if RotationFails(c, s, e) {
      AppendEffect(LogOf(s.archive, e.dir), row, c.rowsPerPart, e.faults, row);
      assert t.phase.retained == s.phase.retained;
      forall id | id in s.phase.retained && ToBeClosed(s, id)
        ensures Covered(t.archive, RowOf(s, id).matchId) <==> !LosesRetained(c, s, e, id)
      {
        DroppedByRotation(s.archive, e.dir, row, c.rowsPerPart, e.faults, RowOf(s, id).matchId);
      }
    }
  }

  lemma FlushStep(c: Config, s: State, e: Event)
    requires DurableInv(s) && Can(c, s, e) && e.FlushBatch?
    ensures DurableInv(Do(c, s, e))
  {
    StaysTracked(c, s, e);
    forall m: MatchId
      ensures Published(s.archive, m) ==> Published(AfterFlush(s.archive, e.failing), m)
      ensures Buffered(s.archive, m) && FlushOk(s.archive, e.failing) ==> Published(AfterFlush(s.archive, e.failing), m)
    {
      FlushEffect(s.archive, e.failing, m);
    }
  }

  lemma EndOfProcessStep(c: Config, s: State, e: Event)
    requires DurableInv(s) && Can(c, s, e) && (e.Crash? || e.ShutdownFlush?)
    ensures DurableInv(Do(c, s, e))
  {
    forall m: MatchId | Published(s.archive, m)
      ensures Published(Do(c, s, e).archive, m)
    {
      if e.ShutdownFlush? {
        FlushEffect(s.archive, e.failing, m);
        ExitEffect(AfterFlush(s.archive, e.failing), m);
      } else {
        ExitEffect(s.archive, m);
      }
    }
  }

  /** The known-match shortcut closes a claimed row whose payload is in no part. */
  predicate ClosesAhead(c: Config, s: State, e: Event) {
    && e.KnownClose? && Applied(e.reply) && Can(c, s, e)
    && ToBeClosed(s, HeadId(s)) && !Published(s.archive, s.rows[HeadId(s)].matchId)
  }

  lemma ShortcutStep(c: Config, s: State, e: Event)
    requires DurableInv(s) && Can(c, s, e) && e.KnownClose?
    ensures DoneIsPublished(Do(c, s, e)) <==> !ClosesAhead(c, s, e)
  {
    var t := Do(c, s, e);
    forall id | id in s.rows
      ensures id in t.rows && t.rows[id] == RowAfter(c, s, e, id)
    {
      RowSees(c, s, e, id);
    }
  }

  lemma StoreStep(c: Config, s: State, e: Event)
    requires DurableInv(s) && Can(c, s, e)
    requires !e.Write? && !e.FlushBatch? && !e.Crash? && !e.ShutdownFlush?
    ensures DurableInv(Do(c, s, e)) <==> !ClosesAhead(c, s, e)
  {
    StaysTracked(c, s, e);
    RetainedComesFromTheBatch(c, s, e);
    if e.KnownClose? {
      ShortcutStep(c, s, e);
    } else {
      OtherClosesArePublished(c, s, e);
    }
  }

  lemma OtherClosesArePublished(c: Config, s: State, e: Event)
    requires DurableInv(s) && Can(c, s, e) && !e.KnownClose?
    requires !e.Write? && !e.FlushBatch? && !e.Crash? && !e.ShutdownFlush?
    ensures DoneIsPublished(Do(c, s, e))
  {
    var t := Do(c, s, e);
    assert t.archive == s.archive;
    RowsPersist(c, s, e);
    forall id | id in t.rows && t.rows[id].status == Done
      ensures Published(t.archive, t.rows[id].matchId)
    {
      DoneComesFromAClose(c, s, e, id);
      assert RowOf(s, id) == s.rows[id];
    }
  }

  /** Only a claim claims: with a batch in hand, a row that is claimed now was claimed before. */
  lemma ClaimsAreOld(c: Config, s: State, e: Event, id: JobId)
    requires Can(c, s, e) && !e.Claim? && !e.ClaimLost? && ToBeClosed(Do(c, s, e), id)
    ensures ToBeClosed(s, id)
  {
    if id in s.rows {
      RowSees(c, s, e, id);
    } else {
      NewRowsArePending(c, s, e, id);
    }
  }

  /** An upsert leaves the archive alone and retains at most the written head. */
  lemma UpsertRetainsTheHead(c: Config, s: State, e: Event)
    requires DurableInv(s) && Can(c, s, e) && Tracked(Do(c, s, e)) && e.Upsert?
    ensures RetainedIsSafe(Do(c, s, e))
  {
    var t := Do(c, s, e);
    assert t.rows == s.rows && t.archive == s.archive;
    assert Covered(t.archive, RowOf(t, HeadId(s)).matchId);
    if e.reply.Acked? {
      assert forall id | id in t.phase.retained :: id in s.phase.retained || id == HeadId(s);
    }
  }

  /** Outside writes and flushes a retained row was retained before, or is the written head. */
  lemma RetainedComesFromTheBatch(c: Config, s: State, e: Event)
    requires DurableInv(s) && Can(c, s, e) && Tracked(Do(c, s, e))
    requires !e.Write? && !e.FlushBatch? && !e.Crash? && !e.ShutdownFlush?
    ensures RetainedIsSafe(Do(c, s, e))
  {
    var t := Do(c, s, e);
    if e.Upsert? {
      UpsertRetainsTheHead(c, s, e);
    } else if !e.Claim? && !e.ClaimLost? {
      RowsPersist(c, s, e);
      forall id | id in Batch(t.phase) && ToBeClosed(t, id)
        ensures ToBeClosed(s, id) && RowOf(t, id).matchId == RowOf(s, id).matchId
      {
        ClaimsAreOld(c, s, e, id);
      }
    }
  }

  /**
   * Every step of either loop keeps the invariant, except exactly two that break it: a rotation that drops a
   * retained row, and a shortcut that closes a row of which no part holds the payload.
   */
  lemma DurableStep(c: Config, s: State, e: Event)
    requires DurableInv(s) && Can(c, s, e)
    ensures DurableInv(Do(c, s, e)) <==> !LossyRotation(c, s, e) && !ClosesAhead(c, s, e)
  {
    if e.Write? {
      WriteStep(c, s, e);
    } else if e.FlushBatch? {
      FlushStep(c, s, e);
    } else if e.Crash? || e.ShutdownFlush? {
      EndOfProcessStep(c, s, e);
    } else {
      StoreStep(c, s, e);
    }
  }

  /** The timeline loop has no shortcut. */
  lemma TimelineStep(c: Config, s: State, e: Event)
    requires c.kind.Timeline? && DurableInv(s) && Can(c, s, e)
    ensures DurableInv(Do(c, s, e)) <==> !LossyRotation(c, s, e)
  {
    DurableStep(c, s, e);
  }

  predicate NoLossyRotation(c: Config, s: State, es: seq<Event>)
    requires Runs(c, s, es)
    decreases |es|
  {
    es == [] || (!LossyRotation(c, s, es[0]) && NoLossyRotation(c, Do(c, s, es[0]), es[1..]))
  }

  predicate NothingClosedAhead(c: Config, s: State, es: seq<Event>)
    requires Runs(c, s, es)
    decreases |es|
  {
    es == [] || (!ClosesAhead(c, s, es[0]) && NothingClosedAhead(c, Do(c, s, es[0]), es[1..]))
  }

  lemma {:induction false} DurableRun(c: Config, s: State, es: seq<Event>)
    requires DurableInv(s) && Runs(c, s, es) && NoLossyRotation(c, s, es) && NothingClosedAhead(c, s, es)
    ensures DurableInv(After(c, s, es))
    decreases |es|
  {
    if es != [] {
      DurableStep(c, s, es[0]);
      DurableRun(c, Do(c, s, es[0]), es[1..]);
    }
  }

  lemma {:induction false} TimelineRun(c: Config, s: State, es: seq<Event>)
    requires c.kind.Timeline? && DurableInv(s) && Runs(c, s, es) && NoLossyRotation(c, s, es)
    ensures DurableInv(After(c, s, es))
    decreases |es|
  {
    if es != [] {
      TimelineStep(c, s, es[0]);
      TimelineRun(c, Do(c, s, es[0]), es[1..]);
    }
  }

  /**
   * Timeline loop: whatever crashes, fails or is cut short, a closed row has its payload in a published part,
   * as long as no rotation drops a row the running batch had retained.
   */
  lemma TimelineDoneIsPublished(c: Config, es: seq<Event>)
    requires c.kind.Timeline? && Runs(c, INITIAL, es) && NoLossyRotation(c, INITIAL, es)
    ensures DoneIsPublished(After(c, INITIAL, es))
  {
    TimelineRun(c, INITIAL, es);
  }

  // ---------------------------------------------------------------- matches: recorded means covered

  predicate RecordedIsCovered(s: State) {
    forall m | m in s.matches :: Covered(s.archive, m)
  }

  predicate DoneIsRecorded(s: State) {
    forall id | id in s.rows && s.rows[id].status == Done :: s.rows[id].matchId in s.matches
  }

  ghost predicate RetainedIsRecorded(s: State) {
    forall id | Retains(s.phase, id) :: RowOf(s, id).matchId in s.matches
  }

  ghost predicate MatchInv(s: State) {
    Tracked(s) && RecordedIsCovered(s) && DoneIsRecorded(s) && RetainedIsRecorded(s) && HeadCovered(s)
  }

  /** The directories whose open part this step throws away. */
  function DroppedDirs(c: Config, s: State, e: Event): set<Dir> {
    match e
    case Crash => s.archive.Keys
    case ShutdownFlush(failing) => failing
    case FlushBatch(failing) => failing
    case Write(d, f) => if Rotates(LogOf(s.archive, d), c.rowsPerPart, f) && f.finalize then {d} else {}
    case _ => {}
  }

  /** The step drops the only copy of a match the control plane lists. */
  predicate LosesRecorded(c: Config, s: State, e: Event) {
    exists m | m in s.matches :: OnlyCopyIn(s.archive, DroppedDirs(c, s, e), m)
  }

  predicate OnlyCopyIn(a: Archive, dropped: set<Dir>, m: MatchId) {
    !Published(a, m) && forall d | d in a && d !in dropped :: m !in OpenRows(a[d])
  }

  lemma CoverAfterDrop(c: Config, s: State, e: Event, m: MatchId)
    requires Can(c, s, e) && Covered(s.archive, m)
    ensures Covered(Do(c, s, e).archive, m) <==> !OnlyCopyIn(s.archive, DroppedDirs(c, s, e), m)
  {
    if e.Write? {
      CoverAfterWrite(c, s, e, m);
    } else if e.FlushBatch? {
      FlushEffect(s.archive, e.failing, m);
    } else if e.Crash? || e.ShutdownFlush? {
      CoverAfterExit(c, s, e, m);
    } else {
      ArchiveUntouched(c, s, e);
    }
  }

  lemma CoverAfterExit(c: Config, s: State, e: Event, m: MatchId)
    requires Can(c, s, e) && (e.Crash? || e.ShutdownFlush?) && Covered(s.archive, m)
    ensures Covered(Do(c, s, e).archive, m) <==> !OnlyCopyIn(s.archive, DroppedDirs(c, s, e), m)
  {
    if e.Crash? {
      ExitEffect(s.archive, m);
    } else {
      FlushEffect(s.archive, e.failing, m);
      ExitEffect(AfterFlush(s.archive, e.failing), m);
    }
  }

  lemma ArchiveUntouched(c: Config, s: State, e: Event)
    requires Can(c, s, e) && !e.Crash? && !e.ShutdownFlush? && !e.FlushBatch? && !e.Write?
    ensures Do(c, s, e).archive == s.archive && DroppedDirs(c, s, e) == {}
  {
  }

  lemma CoverAfterWrite(c: Config, s: State, e: Event, m: MatchId)
    requires Can(c, s, e) && e.Write? && Covered(s.archive, m)
    ensures Covered(Do(c, s, e).archive, m) <==> !OnlyCopyIn(s.archive, DroppedDirs(c, s, e), m)
  {
    var row := s.rows[HeadId(s)].matchId;
    if Rotates(LogOf(s.archive, e.dir), c.rowsPerPart, e.faults) && e.faults.finalize {
      DroppedByRotation(s.archive, e.dir, row, c.rowsPerPart, e.faults, m);
    } else {
      WriteKeepsCover(s.archive, e.dir, row, c.rowsPerPart, e.faults, m);
    }
  }

  lemma MatchesGrow(c: Config, s: State, e: Event)
    requires Can(c, s, e)
    ensures s.matches <= Do(c, s, e).matches
  {
  }

  lemma DoneStaysRecorded(c: Config, s: State, e: Event)
    requires MatchInv(s) && Can(c, s, e)
    ensures DoneIsRecorded(Do(c, s, e))
  {
    RowsPersist(c, s, e);
    MatchesGrow(c, s, e);
    var t := Do(c, s, e);
    forall id | id in t.rows && t.rows[id].status == Done
      ensures t.rows[id].matchId in t.matches
    {
      DoneComesFromAClose(c, s, e, id);
      assert RowOf(s, id) == s.rows[id];
    }
  }

  predicate Retains(p: Phase, id: JobId) {
    (p.Working? || p.Tail? || p.Closing?) && id in p.retained
  }

  /** Only a timeline write and an acknowledged upsert retain a row, and then it is the head. */
  lemma RetainedBefore(c: Config, s: State, e: Event, id: JobId)
    requires Can(c, s, e) && Retains(Do(c, s, e).phase, id)
    ensures Retains(s.phase, id)
      || (s.phase.Working? && s.phase.todo != [] && id == HeadId(s)
          && ((e.Upsert? && e.reply.Acked?) || (e.Write? && c.kind.Timeline?)))
  {
  }

  lemma RetainedStaysRecorded(c: Config, s: State, e: Event)
    requires c.kind.Match? && MatchInv(s) && Can(c, s, e)
    ensures RetainedIsRecorded(Do(c, s, e))
  {
    RowsPersist(c, s, e);
    StaysTracked(c, s, e);
    MatchesGrow(c, s, e);
    var t := Do(c, s, e);
    forall id | Retains(t.phase, id)
      ensures RowOf(t, id).matchId in t.matches
    {
      RetainedBefore(c, s, e, id);
      if Retains(s.phase, id) {
        assert RowOf(s, id).matchId in s.matches && id in Batch(s.phase);
      }
    }
  }

  lemma RecordedStep(c: Config, s: State, e: Event)
    requires c.kind.Match? && MatchInv(s) && Can(c, s, e)
    ensures DoneIsRecorded(Do(c, s, e)) && RetainedIsRecorded(Do(c, s, e))
  {
    DoneStaysRecorded(c, s, e);
    RetainedStaysRecorded(c, s, e);
  }

  /** Every step of the match loop keeps the invariant unless it drops the only copy of a recorded match. */
  lemma MatchStep(c: Config, s: State, e: Event)
    requires c.kind.Match? && MatchInv(s) && Can(c, s, e)
    ensures MatchInv(Do(c, s, e)) <==> !LosesRecorded(c, s, e)
  {
    RecordedStep(c, s, e);
    StaysTracked(c, s, e);
    var t := Do(c, s, e);
    forall m | m in s.matches
      ensures Covered(t.archive, m) <==> !OnlyCopyIn(s.archive, DroppedDirs(c, s, e), m)
    {
      CoverAfterDrop(c, s, e, m);
    }
    if e.Write? {
      var row := s.rows[HeadId(s)].matchId;
      WriteKeepsCover(s.archive, e.dir, row, c.rowsPerPart, e.faults, row);
    }
  }

  predicate NothingRecordedLost(c: Config, s: State, es: seq<Event>)
    requires Runs(c, s, es)
    decreases |es|
  {
    es == [] || (!LosesRecorded(c, s, es[0]) && NothingRecordedLost(c, Do(c, s, es[0]), es[1..]))
  }

  lemma {:induction false} MatchRun(c: Config, s: State, es: seq<Event>)
    requires c.kind.Match? && MatchInv(s) && Runs(c, s, es) && NothingRecordedLost(c, s, es)
    ensures MatchInv(After(c, s, es))
    decreases |es|
  {
    if es != [] {
      MatchStep(c, s, es[0]);
      MatchRun(c, Do(c, s, es[0]), es[1..]);
    }
  }

  /** No finalise fails and no crash hits a process that still holds rows. */
  predicate NothingDropped(c: Config, s: State, es: seq<Event>)
    requires Runs(c, s, es)
    decreases |es|
  {
    es == []
    || ((forall d | d in s.archive && d in DroppedDirs(c, s, es[0]) :: OpenRows(s.archive[d]) == [])
        && NothingDropped(c, Do(c, s, es[0]), es[1..]))
  }

  lemma {:induction false} NothingDroppedLosesNothing(c: Config, s: State, es: seq<Event>)
    requires c.kind.Match? && MatchInv(s) && Runs(c, s, es) && NothingDropped(c, s, es)
    ensures NothingRecordedLost(c, s, es)
    decreases |es|
  {
    if es != [] {
      MatchStep(c, s, es[0]);
      NothingDroppedLosesNothing(c, Do(c, s, es[0]), es[1..]);
    }
  }

  /**
   * Match loop: while no finalise has failed and no crash has dropped a buffer, every recorded match and every
   * closed row has its payload in a part or in the live writer, whether the row was closed after a flush or by
   * the known-match shortcut, and whether or not a pass was aborted by the store.
   */
  lemma MatchRowsStayCovered(c: Config, es: seq<Event>)
    requires c.kind.Match? && Runs(c, INITIAL, es) && NothingDropped(c, INITIAL, es)
    ensures RecordedIsCovered(After(c, INITIAL, es))
    ensures forall id | id in After(c, INITIAL, es).rows && After(c, INITIAL, es).rows[id].status == Done ::
      Covered(After(c, INITIAL, es).archive, After(c, INITIAL, es).rows[id].matchId)
  {
    NothingDroppedLosesNothing(c, INITIAL, es);
    MatchRun(c, INITIAL, es);
  }
}
