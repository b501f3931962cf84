/**
 * Runs that show the hypotheses of CrawlSafety are needed, and that a lossy rotation can always turn into silent
 * loss.
 */
module CrawlWitnesses {
  import opened Options
  import opened PartLog
  import opened Archive
  import opened CrawlProtocol
  import opened CrawlSafety
  import opened CrawlShortcut

  /** One job can always leave the batch: a call refused by the breaker is refunded, a failed write is settled. */
  lemma HeadLeaves(c: Config, s: State) returns (es: seq<Event>)
    requires Tracked(s) && s.phase.Working? && s.phase.todo != [] && (s.phase.head.Fresh? || s.phase.head.WriteFailed?)
    ensures Runs(c, s, es) && After(c, s, es).phase == Next(s)
    ensures After(c, s, es).archive == s.archive && After(c, s, es).matches == s.matches
    ensures After(c, s, es).rows.Keys == s.rows.Keys
    ensures forall id | id in s.rows && id != HeadId(s) :: After(c, s, es).rows[id] == s.rows[id]
  {
    assert HeadId(s) in Batch(s.phase);
    if s.phase.head.Fresh? {
      var failed := Do(c, s, FetchFails(CircuitOpen));
      es := [FetchFails(CircuitOpen), Refund(Acked)];
      assert es[1..] == [Refund(Acked)] && es[1..][1..] == [];
      assert Can(c, failed, Refund(Acked));
    } else {
      es := [if HeadSpent(c, s) then Retire(Ceiling, Acked) else Requeue(Backoff, Acked)];
      assert es[1..] == [];
    }
  }

  /** The first k jobs of what is left of a batch can always be handed back. */
  lemma {:induction false} HandBackFirst(c: Config, s: State, k: nat) returns (es: seq<Event>)
    requires Tracked(s) && s.phase.Working? && k <= |s.phase.todo|
    requires s.phase.head.Fresh? || (k > 0 && s.phase.head.WriteFailed?)
    ensures Runs(c, s, es)
    ensures After(c, s, es).phase == Working(s.phase.todo[k..], s.phase.retained, Fresh)
    ensures After(c, s, es).archive == s.archive && After(c, s, es).matches == s.matches
    ensures After(c, s, es).rows.Keys == s.rows.Keys
    ensures forall id | id in s.rows && id !in s.phase.todo[..k] :: After(c, s, es).rows[id] == s.rows[id]
    decreases k
  {
    es := [];
    if k > 0 {
      var first := HeadLeaves(c, s);
      RunTracked(c, s, first);
      var t := After(c, s, first);
      var rest := HandBackFirst(c, t, k - 1);
      RunsCompose(c, s, first, rest);
      assert s.phase.todo[..k] == [HeadId(s)] + t.phase.todo[..k - 1];
      assert t.phase.todo[k - 1..] == s.phase.todo[k..];
      es := first + rest;
    }
  }

  lemma {:induction false} CloseUpTo(c: Config, s: State, k: nat) returns (es: seq<Event>)
    requires Tracked(s) && s.phase.Closing? && k < |s.phase.retained|
    requires s.phase.retained[k] in s.rows && s.rows[s.phase.retained[k]].status == Claimed
    ensures Runs(c, s, es) && After(c, s, es).archive == s.archive
    ensures var id := s.phase.retained[k];
      id in After(c, s, es).rows && After(c, s, es).rows[id] == s.rows[id].(status := Done)
    decreases k
  {
    var e := Close(Acked);
    var t := Do(c, s, e);
    StaysTracked(c, s, e);
    es := [];
    if k > 0 {
      assert s.phase.retained[k] != s.phase.retained[0];
      es := CloseUpTo(c, t, k - 1);
    }
    assert ([e] + es)[1..] == es;
    es := [e] + es;
  }

  /**
   * A lossy rotation is not just a broken invariant: from wherever it happens the batch can finish normally and
   * close the row while no part holds its payload.
   */
  lemma LossyRotationBecomesSilentLoss(c: Config, s: State, e: Event, id: JobId) returns (es: seq<Event>)
    requires Tracked(s) && Can(c, s, e) && LosesRetained(c, s, e, id)
    ensures Runs(c, s, [e] + es)
    ensures !DoneIsPublished(After(c, s, [e] + es))
  {
    var m := s.rows[id].matchId;
    var row := s.rows[HeadId(s)].matchId;
    var s1 := Do(c, s, e);
    StaysTracked(c, s, e);
    DroppedByRotation(s.archive, e.dir, row, c.rowsPerPart, e.faults, m);
    AppendEffect(LogOf(s.archive, e.dir), row, c.rowsPerPart, e.faults, row);
    assert !Covered(s1.archive, m) && s1.phase == s.phase.(head := WriteFailed);
    es := FinishesQuietly(c, s1, id);
    assert ([e] + es)[1..] == es;
  }

  /** After a failed write the batch hands back what is left, flushes, and closes what it retained. */
  lemma FinishesQuietly(c: Config, s: State, id: JobId) returns (es: seq<Event>)
    requires Tracked(s) && s.phase.Working? && s.phase.head.WriteFailed? && s.phase.todo != []
    requires id in s.phase.retained && ToBeClosed(s, id) && !Covered(s.archive, s.rows[id].matchId)
    ensures Runs(c, s, es) && !DoneIsPublished(After(c, s, es))
  {
    var k :| 0 <= k < |s.phase.retained| && s.phase.retained[k] == id;
    HeadsAreNotRetained(s, id);
    var handBack := HandBackFirst(c, s, |s.phase.todo|);
    assert s.phase.todo[..|s.phase.todo|] == s.phase.todo;
    var s2 := After(c, s, handBack);
    RunTracked(c, s, handBack);
    FlushEffect(s2.archive, {}, s.rows[id].matchId);
    var s3 := Do(c, s2, FlushBatch({}));
    StaysTracked(c, s2, FlushBatch({}));
    RunsSnoc(c, s, handBack, FlushBatch({}));
    var closes := CloseUpTo(c, s3, k);
    RunsCompose(c, s, handBack + [FlushBatch({})], closes);
    es := handBack + [FlushBatch({})] + closes;
  }

  lemma HeadsAreNotRetained(s: State, id: JobId)
    requires Tracked(s) && s.phase.Working? && id in s.phase.retained
    ensures id !in s.phase.todo
  {
    var batch := s.phase.todo + s.phase.retained;
    var j :| 0 <= j < |s.phase.retained| && s.phase.retained[j] == id;
    assert batch[|s.phase.todo| + j] == id;
    assert forall i | 0 <= i < |s.phase.todo| :: batch[i] == s.phase.todo[i];
  }

  /**
   * A claim that takes a row recorded ahead of its payload is not just a broken invariant either: the jobs before
   * it can be handed back, and then the shortcut closes it while no part holds its payload.
   */
  lemma ClaimAheadBecomesSilentLoss(c: Config, s: State, e: Event, id: JobId) returns (es: seq<Event>)
    requires c.kind.Match? && Can(c, s, e) && e.Claim? && id in e.ids && RecordedAhead(s, id)
    ensures Runs(c, s, [e] + es)
    ensures var t := After(c, s, [e] + es);
      id in t.rows && t.rows[id].status == Done && !Published(t.archive, t.rows[id].matchId)
  {
    var s1 := Do(c, s, e);
    StaysTracked(c, s, e);
    RowSees(c, s, e, id);
    var k :| 0 <= k < |e.ids| && e.ids[k] == id;
    es := ShortcutCloses(c, s1, k);
    assert ([e] + es)[1..] == es;
  }

  lemma ShortcutCloses(c: Config, s: State, k: nat) returns (es: seq<Event>)
    requires c.kind.Match? && Tracked(s) && s.phase.Working? && s.phase.head.Fresh? && k < |s.phase.todo|
    requires RecordedAhead(s, s.phase.todo[k]) && ToBeClosed(s, s.phase.todo[k])
    ensures Runs(c, s, es)
    ensures var (id, t) := (s.phase.todo[k], After(c, s, es));
      id in t.rows && t.rows[id].status == Done && !Published(t.archive, t.rows[id].matchId)
  {
    var id := s.phase.todo[k];
    NotAmongTheFirst(s, k);
    var handBack := HandBackFirst(c, s, k);
    var s2 := After(c, s, handBack);
    assert HeadId(s2) == id && s2.rows[id] == s.rows[id];
    RowSees(c, s2, KnownClose(Acked), id);
    RunsSnoc(c, s, handBack, KnownClose(Acked));
    es := handBack + [KnownClose(Acked)];
  }

  lemma NotAmongTheFirst(s: State, k: nat)
    requires Tracked(s) && s.phase.Working? && k < |s.phase.todo|
    ensures s.phase.todo[k] !in s.phase.todo[..k]
  {
    var batch := s.phase.todo + s.phase.retained;
    assert forall i | 0 <= i <= k :: batch[i] == s.phase.todo[i];
  }

  // ---------------------------------------------------------------- concrete runs

  const DAY := "dt=2026-09-17"

  const ONE := "EUW1_1"
  const TWO := "EUW1_2"

  /** Two queued matches; the worker has claimed both. */
  ghost function Held(): State {
    State(map[1 := Row(ONE, Claimed, 1, 0), 2 := Row(TWO, Claimed, 1, 0)], {}, map[], Working([1, 2], [], Fresh), false)
  }

  /** The states of the runs below: only the first row, the recorded set, the one log and the phase vary. */
  ghost function At(first: Row, second: Status, recorded: set<MatchId>, log: Log<MatchId>, phase: Phase): State {
    State(map[1 := first, 2 := Row(TWO, second, if second.Claimed? then 1 else 0, 0)], recorded, map[DAY := log],
      phase, false)
  }

  /** No finalise is attempted in the run. */
  predicate Unflushed(es: seq<Event>) {
    forall i | 0 <= i < |es| :: !es[i].FlushBatch? && !es[i].FlushRefused? && !es[i].ShutdownFlush?
  }

  lemma SmallSequences()
    ensures [1, 2][1..] == [2] && [2][1..] == [] && [1][1..] == []
    ensures [] + [1] == [1] && [] + [ONE] == [ONE]
  {
  }

  lemma Extend(c: Config, es: seq<Event>, s: State, e: Event, t: State) returns (more: seq<Event>)
    requires Runs(c, INITIAL, es) && After(c, INITIAL, es) == s && Can(c, s, e) && Do(c, s, e) == t
    ensures Runs(c, INITIAL, more) && After(c, INITIAL, more) == t && more == es + [e]
  {
    RunsSnoc(c, INITIAL, es, e);
    more := es + [e];
  }

  /** The state before the claim: both matches queued, nothing written. */
  ghost function Queued(phase: Phase): State {
    State(map[1 := Row(ONE, Pending, 0, 0), 2 := Row(TWO, Pending, 0, 0)], {}, map[], phase, false)
  }

  lemma BothAreClaimed()
    ensures Claimable(Queued(Idle).rows, [1, 2]) == Held().rows
  {
  }

  lemma PairIsQueued(c: Config) returns (es: seq<Event>)
    ensures Runs(c, INITIAL, es) && After(c, INITIAL, es) == Queued(Down) && Unflushed(es)
  {
    var first := State(map[1 := Row(ONE, Pending, 0, 0)], {}, map[], Down, false);
    es := Extend(c, [], INITIAL, Insert(1, ONE), first);
    es := Extend(c, es, first, Insert(2, TWO), Queued(Down));
  }

  lemma ClaimedPairIsReachable(c: Config) returns (es: seq<Event>)
    ensures Runs(c, INITIAL, es) && After(c, INITIAL, es) == Held() && Unflushed(es)
  {
    es := PairIsQueued(c);
    es := Extend(c, es, Queued(Down), Boot, Queued(Idle));
    BothAreClaimed();
    es := Extend(c, es, Queued(Idle), Claim([1, 2]), Held());
  }

  /** The timeline proviso is needed: two rows per part, the second append rotates and fails. */
  lemma TimelineProvisoIsNeeded() returns (c: Config, es: seq<Event>)
    ensures c.kind.Timeline? && Runs(c, INITIAL, es) && !DoneIsPublished(After(c, INITIAL, es))
  {
    c := Config(Timeline, 8, 2);
    es := FirstRetainedIsReachable(c);
    RunTracked(c, INITIAL, es);
    SecondRotationLoses(c);
    var rest := LossyRotationBecomesSilentLoss(c, FirstRetained(), Write(DAY, Faults(false, false, true)), 1);
    RunsCompose(c, INITIAL, es, [Write(DAY, Faults(false, false, true))] + rest);
    es := es + ([Write(DAY, Faults(false, false, true))] + rest);
  }

  /** The first timeline is in the open part and retained, the second is next. */
  ghost function FirstRetained(): State {
    At(Row(ONE, Claimed, 1, 0), Claimed, {}, Log([], Some([ONE]), 1), Working([2], [1], Fresh))
  }

  lemma FirstRetainedIsReachable(c: Config) returns (es: seq<Event>)
    requires c == Config(Timeline, 8, 2)
    ensures Runs(c, INITIAL, es) && After(c, INITIAL, es) == FirstRetained()
  {
    es := ClaimedPairIsReachable(c);
    SmallSequences();
    assert AfterAppend(Empty(), ONE, 2, NO_FAULTS) == (Log([], Some([ONE]), 1), true);
    es := Extend(c, es, Held(), Write(DAY, NO_FAULTS), FirstRetained());
  }

  lemma SecondRotationLoses(c: Config)
    requires c == Config(Timeline, 8, 2)
    ensures Can(c, FirstRetained(), Write(DAY, Faults(false, false, true)))
    ensures LosesRetained(c, FirstRetained(), Write(DAY, Faults(false, false, true)), 1)
  {
    assert RowOf(FirstRetained(), 1).matchId == ONE && LogOf(FirstRetained().archive, DAY).rows == 1;
  }

  /** The first match is written and recorded, the second row is next. */
  ghost function FirstRecorded(): State {
    At(Row(ONE, Claimed, 1, 0), Claimed, {ONE}, Log([], Some([ONE]), 1), Working([2], [1], Fresh))
  }

  lemma FirstRecordedIsReachable(c: Config) returns (es: seq<Event>)
    requires c == Config(Match, 8, 100)
    ensures Runs(c, INITIAL, es) && After(c, INITIAL, es) == FirstRecorded() && Unflushed(es)
  {
    es := ClaimedPairIsReachable(c);
    SmallSequences();
    assert AfterAppend(Empty(), ONE, 100, NO_FAULTS) == (Log([], Some([ONE]), 1), true);
    var s := At(Row(ONE, Claimed, 1, 0), Claimed, {}, Log([], Some([ONE]), 1), Working([1, 2], [], Written));
    es := Extend(c, es, Held(), Write(DAY, NO_FAULTS), s);
    es := Extend(c, es, s, Upsert(Acked), FirstRecorded());
  }

  /** ... and its fetch is refused by the breaker. */
  ghost function SecondRefused(): State {
    FirstRecorded().(phase := Working([2], [1], FetchFailed(CircuitOpen)))
  }

  lemma RefundSecond(c: Config)
    ensures Can(c, SecondRefused(), Refund(Acked)) && Can(c, SecondRefused(), Refund(Failed(false)))
    ensures Do(c, SecondRefused(), Refund(Acked))
         == At(Row(ONE, Claimed, 1, 0), Retry, {ONE}, Log([], Some([ONE]), 1), Working([], [1], Fresh))
    ensures Do(c, SecondRefused(), Refund(Failed(false)))
         == At(Row(ONE, Claimed, 1, 0), Claimed, {ONE}, Log([], Some([ONE]), 1), Idle)
  {
    SmallSequences();
  }

  /** The match hypothesis is needed: upsert, failed flush, requeue, then a close by the known-match shortcut. */
  lemma MatchHypothesisIsNeeded() returns (c: Config, es: seq<Event>)
    ensures c.kind.Match? && Runs(c, INITIAL, es)
    ensures var t := After(c, INITIAL, es);
      1 in t.rows && t.rows[1].status == Done && !Covered(t.archive, t.rows[1].matchId)
  {
    c := Config(Match, 8, 100);
    SmallSequences();
    es := FirstRecordedIsReachable(c);
    var lost := Log([], None, 1);
    es := FlushLoses(c, es);
    es := HandBackAfterFlush(c, es, lost, At(Row(ONE, Claimed, 1, 0), Retry, {ONE}, lost, Abandoning([1])));
    es := Reclose(c, es, Retry, lost, At(Row(ONE, Retry, 1, 0), Retry, {ONE}, lost, Idle));
  }

  /** The second row is handed back, and the flush of the batch fails. */
  lemma FlushLoses(c: Config, es: seq<Event>) returns (more: seq<Event>)
    requires c == Config(Match, 8, 100) && Runs(c, INITIAL, es) && After(c, INITIAL, es) == FirstRecorded()
    ensures Runs(c, INITIAL, more)
    ensures After(c, INITIAL, more) == At(Row(ONE, Claimed, 1, 0), Retry, {ONE}, Log([], None, 1), Abandoning([1]))
  {
    SmallSequences();
    var row := Row(ONE, Claimed, 1, 0);
    var held := Log([], Some([ONE]), 1);
    var s1 := At(row, Retry, {ONE}, held, Working([], [1], Fresh));
    more := Extend(c, es, FirstRecorded(), FetchFails(CircuitOpen), SecondRefused());
    RefundSecond(c);
    more := Extend(c, more, SecondRefused(), Refund(Acked), s1);
    more := Extend(c, more, s1, FlushBatch({DAY}), At(row, Retry, {ONE}, Log([], None, 1), Abandoning([1])));
  }

  /** After a failed flush the row is handed back. */
  lemma HandBackAfterFlush(c: Config, es: seq<Event>, lost: Log<MatchId>, s: State) returns (more: seq<Event>)
    requires c == Config(Match, 8, 100)
    requires s == At(Row(ONE, Claimed, 1, 0), Retry, {ONE}, lost, Abandoning([1]))
    requires Runs(c, INITIAL, es) && After(c, INITIAL, es) == s
    ensures Runs(c, INITIAL, more)
    ensures After(c, INITIAL, more) == At(Row(ONE, Retry, 1, 0), Retry, {ONE}, lost, Idle)
  {
    SmallSequences();
    var s1 := At(Row(ONE, Retry, 1, 0), Retry, {ONE}, lost, Abandoning([]));
    more := Extend(c, es, s, Abandon(Acked), s1);
    more := Extend(c, more, s1, EndBatch, At(Row(ONE, Retry, 1, 0), Retry, {ONE}, lost, Idle));
  }

  lemma ClaimOne(rows: Queue, id: JobId)
    requires id in rows
    ensures Claimable(rows, [id]) == rows[id := rows[id].(status := Claimed, attempts := rows[id].attempts + 1)]
  {
  }

  lemma ClaimFirst(c: Config, second: Status, log: Log<MatchId>)
    ensures var s := At(Row(ONE, Retry, 1, 0), second, {ONE}, log, Idle);
      Can(c, s, Claim([1]))
      && Do(c, s, Claim([1])) == At(Row(ONE, Claimed, 2, 0), second, {ONE}, log, Working([1], [], Fresh))
  {
    var s := At(Row(ONE, Retry, 1, 0), second, {ONE}, log, Idle);
    ClaimOne(s.rows, 1);
    FirstRowReplaced(Row(ONE, Retry, 1, 0), Row(ONE, Claimed, 2, 0), second, log);
  }

  lemma FirstRowReplaced(first: Row, next: Row, second: Status, log: Log<MatchId>)
    ensures At(first, second, {ONE}, log, Idle).rows[1 := next] == At(next, second, {ONE}, log, Idle).rows
    ensures 1 in At(first, second, {ONE}, log, Idle).rows && At(first, second, {ONE}, log, Idle).rows[1] == first
  {
  }

  lemma CloseKnown(c: Config, second: Status, log: Log<MatchId>)
    requires c.kind.Match?
    ensures var s := At(Row(ONE, Claimed, 2, 0), second, {ONE}, log, Working([1], [], Fresh));
      Can(c, s, KnownClose(Acked))
      && Do(c, s, KnownClose(Acked)) == At(Row(ONE, Done, 2, 0), second, {ONE}, log, Working([], [], Fresh))
  {
    SmallSequences();
  }

  /** A recorded match that is claimed again is closed without a fetch, whatever its log holds. */
  lemma Reclose(c: Config, es: seq<Event>, second: Status, log: Log<MatchId>, s: State) returns (more: seq<Event>)
    requires c == Config(Match, 8, 100)
    requires s == At(Row(ONE, Retry, 1, 0), second, {ONE}, log, Idle)
    requires Runs(c, INITIAL, es) && After(c, INITIAL, es) == s
    ensures Runs(c, INITIAL, more) && more == es + [Claim([1])] + [KnownClose(Acked)]
    ensures After(c, INITIAL, more) == At(Row(ONE, Done, 2, 0), second, {ONE}, log, Working([], [], Fresh))
  {
    ClaimFirst(c, second, log);
    var s1 := At(Row(ONE, Claimed, 2, 0), second, {ONE}, log, Working([1], [], Fresh));
    more := Extend(c, es, s, Claim([1]), s1);
    CloseKnown(c, second, log);
    more := Extend(c, more, s1, KnownClose(Acked),
      At(Row(ONE, Done, 2, 0), second, {ONE}, log, Working([], [], Fresh)));
  }

  /**
   * No flush has to fail for the shortcut to close a row ahead of its payload: a pass aborted by the store leaves
   * the payload in the buffer, the reclaimed row is closed by the shortcut, and then the process dies.
   */
  lemma ShortcutCanCloseAheadOfThePayload() returns (c: Config, es: seq<Event>)
    ensures c.kind.Match? && Runs(c, INITIAL, es) && Unflushed(es)
    ensures var t := After(c, INITIAL, es);
      1 in t.rows && t.rows[1].status == Done && !Covered(t.archive, t.rows[1].matchId)
  {
    c := Config(Match, 8, 100);
    SmallSequences();
    es := RecordedThenAborted(c);
    var held := Log([], Some([ONE]), 1);
    es := Reclose(c, es, Claimed, held, At(Row(ONE, Retry, 1, 0), Claimed, {ONE}, held, Idle));
    var s4 := At(Row(ONE, Done, 2, 0), Claimed, {ONE}, held, Working([], [], Fresh));
    es := Extend(c, es, s4, Crash, At(Row(ONE, Done, 2, 0), Claimed, {ONE}, Log([], None, 0), Down));
  }

  /** The first match is recorded, the pass is aborted by the store, and its row is reclaimed. */
  lemma RecordedThenAborted(c: Config) returns (es: seq<Event>)
    requires c == Config(Match, 8, 100)
    ensures Runs(c, INITIAL, es) && Unflushed(es)
    ensures After(c, INITIAL, es) == At(Row(ONE, Retry, 1, 0), Claimed, {ONE}, Log([], Some([ONE]), 1), Idle)
  {
    SmallSequences();
    es := FirstRecordedIsReachable(c);
    var held := Log([], Some([ONE]), 1);
    var s1 := At(Row(ONE, Claimed, 1, 0), Claimed, {ONE}, held, Idle);
    es := Extend(c, es, FirstRecorded(), FetchFails(CircuitOpen), SecondRefused());
    RefundSecond(c);
    es := Extend(c, es, SecondRefused(), Refund(Failed(false)), s1);
    es := Extend(c, es, s1, Reset(1), At(Row(ONE, Retry, 1, 0), Claimed, {ONE}, held, Idle));
  }
}
