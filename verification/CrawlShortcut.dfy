/** The known-match shortcut: when a match row is closed with its payload in a part, and when it is not. */
module CrawlShortcut {
  import opened Archive
  import opened CrawlProtocol
  import opened CrawlSafety

  /** A queue never holds a match twice. */
  predicate UniqueMatches(rows: Queue) {
    forall i, j | i in rows && j in rows && i != j :: rows[i].matchId != rows[j].matchId
  }

  /** A job still to be done stands for a match that is unknown, or known and in a part. */
  predicate KnownArePublished(s: State) {
    s.phase.Working? ==> forall id | id in s.phase.todo && id in s.rows && s.rows[id].matchId in s.matches ::
      Published(s.archive, s.rows[id].matchId)
  }

  predicate ShortcutInv(s: State) {
    DurableInv(s) && UniqueMatches(s.rows) && KnownArePublished(s)
  }

  /** The row's match is recorded, and no part holds its payload. */
  predicate RecordedAhead(s: State, id: JobId) {
    id in s.rows && s.rows[id].matchId in s.matches && !Published(s.archive, s.rows[id].matchId)
  }

  /** A claim takes such a row. */
  predicate ClaimsAhead(s: State, e: Event) {
    e.Claim? && exists id | id in e.ids :: RecordedAhead(s, id)
  }

  lemma StaysUnique(c: Config, s: State, e: Event)
    requires UniqueMatches(s.rows) && Can(c, s, e)
    ensures UniqueMatches(Do(c, s, e).rows)
  {
    RowsPersist(c, s, e);
    if !e.Insert? {
      OnlyInsertsAdd(c, s, e);
    }
  }

  lemma OnlyInsertsAdd(c: Config, s: State, e: Event)
    requires Can(c, s, e) && !e.Insert?
    ensures Do(c, s, e).rows.Keys == s.rows.Keys
  {
  }

  /** Published payloads stay published. */
  lemma PartsStay(c: Config, s: State, e: Event, m: MatchId)
    requires Can(c, s, e) && Published(s.archive, m)
    ensures Published(Do(c, s, e).archive, m)
  {
    if e.Write? {
      WriteKeepsCover(s.archive, e.dir, s.rows[HeadId(s)].matchId, c.rowsPerPart, e.faults, m);
    } else if e.FlushBatch? {
      FlushEffect(s.archive, e.failing, m);
    } else if e.Crash? {
      ExitEffect(s.archive, m);
    } else if e.ShutdownFlush? {
      FlushEffect(s.archive, e.failing, m);
      ExitEffect(AfterFlush(s.archive, e.failing), m);
    }
  }

  /** A job that is still to be done was so before, and only an upsert of another job records a match meanwhile. */
  lemma TodoComesFromTheBatch(c: Config, s: State, e: Event, id: JobId)
    requires Tracked(s) && Can(c, s, e) && !e.Claim? && UniqueMatches(s.rows)
    requires Do(c, s, e).phase.Working? && id in Do(c, s, e).phase.todo
    ensures s.phase.Working? && id in s.phase.todo && id in s.rows
    ensures s.rows[id].matchId in Do(c, s, e).matches ==> s.rows[id].matchId in s.matches
  {
    assert id in Batch(s.phase);
    if e.Upsert? {
      NotTheHead(s, id);
    }
  }

  lemma NotTheHead(s: State, id: JobId)
    requires Tracked(s) && s.phase.Working? && s.phase.todo != [] && id in s.phase.todo[1..]
    ensures id != HeadId(s)
  {
    var batch := s.phase.todo + s.phase.retained;
    var j :| 0 <= j < |s.phase.todo[1..]| && s.phase.todo[1..][j] == id;
    assert batch[0] == HeadId(s) && batch[j + 1] == id;
  }

  lemma KnownStayPublished(c: Config, s: State, e: Event)
    requires ShortcutInv(s) && Can(c, s, e) && !ClaimsAhead(s, e)
    ensures KnownArePublished(Do(c, s, e))
  {
    var t := Do(c, s, e);
    RowsPersist(c, s, e);
    if t.phase.Working? {
      forall id | id in t.phase.todo && id in t.rows && t.rows[id].matchId in t.matches
        ensures Published(t.archive, t.rows[id].matchId)
      {
        if e.Claim? {
          assert !RecordedAhead(s, id);
        } else {
          TodoComesFromTheBatch(c, s, e, id);
          PartsStay(c, s, e, s.rows[id].matchId);
        }
      }
    }
  }

  lemma ClaimsAheadBreaks(c: Config, s: State, e: Event)
    requires Can(c, s, e) && ClaimsAhead(s, e)
    ensures !KnownArePublished(Do(c, s, e))
  {
    var id :| id in e.ids && RecordedAhead(s, id);
    RowSees(c, s, e, id);
  }

  /**
   * Every step keeps the invariant, except exactly a lossy rotation and a claim that takes such a row; the
   * shortcut itself never breaks it.
   */
  lemma ShortcutInvStep(c: Config, s: State, e: Event)
    requires ShortcutInv(s) && Can(c, s, e)
    ensures !ClosesAhead(c, s, e)
    ensures ShortcutInv(Do(c, s, e)) <==> !LossyRotation(c, s, e) && !ClaimsAhead(s, e)
  {
    DurableStep(c, s, e);
    StaysUnique(c, s, e);
    if ClaimsAhead(s, e) {
      ClaimsAheadBreaks(c, s, e);
    } else {
      KnownStayPublished(c, s, e);
    }
  }

  predicate NothingClaimedAhead(c: Config, s: State, es: seq<Event>)
    requires Runs(c, s, es)
    decreases |es|
  {
    es == [] || (!ClaimsAhead(s, es[0]) && NothingClaimedAhead(c, Do(c, s, es[0]), es[1..]))
  }

  lemma {:induction false} ShortcutRun(c: Config, s: State, es: seq<Event>)
    requires ShortcutInv(s) && Runs(c, s, es) && NoLossyRotation(c, s, es) && NothingClaimedAhead(c, s, es)
    ensures ShortcutInv(After(c, s, es)) && NothingClosedAhead(c, s, es)
    decreases |es|
  {
    if es != [] {
      ShortcutInvStep(c, s, es[0]);
      ShortcutRun(c, Do(c, s, es[0]), es[1..]);
    }
  }

  /**
   * Either loop, over every run with crashes, failed flushes and aborted passes in it: a closed row has its payload
   * in a published part, as long as no rotation drops a retained row and no claim takes a row whose match was
   * recorded by a pass that never published it.
   */
  lemma DoneIsPublishedUnlessClaimedAhead(c: Config, es: seq<Event>)
    requires Runs(c, INITIAL, es) && NoLossyRotation(c, INITIAL, es) && NothingClaimedAhead(c, INITIAL, es)
    ensures DoneIsPublished(After(c, INITIAL, es))
  {
    ShortcutRun(c, INITIAL, es);
  }

  // ---------------------------------------------------------------- what one stretch of a run guarantees

  /** From a sound state, over any stretch without a losing step, the archive stays ahead of the queue. */
  ghost predicate StaysAhead(c: Config, before: State, es: seq<Event>, after: State) {
    && Runs(c, before, es) && After(c, before, es) == after
    && (c.kind.Timeline? && DurableInv(before) && NoLossyRotation(c, before, es) ==> DurableInv(after))
    && (ShortcutInv(before) && NoLossyRotation(c, before, es) && NothingClaimedAhead(c, before, es)
        ==> ShortcutInv(after))
    && (c.kind.Match? && MatchInv(before) && NothingRecordedLost(c, before, es) ==> MatchInv(after))
  }

  lemma StretchStaysAhead(c: Config, s: State, first: seq<Event>, rest: seq<Event>)
    requires Runs(c, s, first + rest)
    ensures Runs(c, s, first)
    ensures StaysAhead(c, After(c, s, first), rest, After(c, s, first + rest))
  {
    RunsSplit(c, s, first, rest);
    var before := After(c, s, first);
    if c.kind.Timeline? && DurableInv(before) && NoLossyRotation(c, before, rest) {
      TimelineRun(c, before, rest);
    }
    if ShortcutInv(before) && NoLossyRotation(c, before, rest) && NothingClaimedAhead(c, before, rest) {
      ShortcutRun(c, before, rest);
    }
    if c.kind.Match? && MatchInv(before) && NothingRecordedLost(c, before, rest) {
      MatchRun(c, before, rest);
    }
  }
}
