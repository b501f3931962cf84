/**
 * The crawl loop as a state machine: one queue, one `matches` table, one worker process with an archive
 * writer. A step is one effect on the store, on the archive or on the process, so a crash between any two
 * effects, a refused store call (applied or not) and a claim reset by maintenance are steps like any other.
 */
module CrawlProtocol {
  import opened Options
  import opened PartLog
  import opened Archive

  type JobId = int

  datatype Status = Pending | Retry | Claimed | Done | Dead

  datatype Row = Row(matchId: MatchId, status: Status, attempts: nat, revivals: nat)

  type Queue = map<JobId, Row>

  datatype Kind = Match | Timeline

  datatype Config = Config(kind: Kind, maxAttempts: nat, rowsPerPart: nat)

  const REVIVAL_BUDGET := 3

  // ---------------------------------------------------------------- classification of a failed fetch

  datatype FetchError = CircuitOpen | RateLimited | Cancelled | HttpStatus(code: int) | OtherError

  datatype FailureClass = Transient | Limited | KeyRefused | Gone | BadRequest | WasCancelled

  function Classify(err: FetchError): FailureClass {
    match err
    case RateLimited => Limited
    case Cancelled => WasCancelled
    case HttpStatus(code) =>
      if code == 404 || code == 410 then Gone
      else if code == 400 || code == 422 then BadRequest
      else if code == 401 || code == 403 then KeyRefused
      else if code == 429 then Limited
      else Transient
    case _ => Transient
  }

  /** The call was refused, which says nothing about the row: the circuit is open, or the key was turned away. */
  predicate CallRefused(err: FetchError) {
    err.CircuitOpen? || Classify(err).KeyRefused?
  }

  /** What was asked for can never be had. */
  predicate NeverServed(err: FetchError) {
    Classify(err).Gone? || Classify(err).BadRequest?
  }

  /** Any other failure is the row's own to pay for. */
  predicate ChargedToRow(err: FetchError) {
    !CallRefused(err) && !NeverServed(err)
  }

  // ---------------------------------------------------------------- the state

  /** How far the job at the head of the batch has come, and what has gone wrong with it. */
  datatype Head =
    | Fresh
    | FetchFailed(err: FetchError)
    | Unjoined(orphan: bool)
    | Written
    | WriteFailed

  datatype Phase =
    | Down
    | Idle
    | Working(todo: seq<JobId>, retained: seq<JobId>, head: Head)
    | Tail(todo: seq<JobId>, retained: seq<JobId>)
    | Closing(retained: seq<JobId>)
    | Abandoning(retained: seq<JobId>)

  datatype State = State(rows: Queue, matches: set<MatchId>, archive: Archive, phase: Phase, stopping: bool)

  /** A store call is acknowledged, or fails after or before it took effect. */
  datatype Reply = Acked | Failed(applied: bool)

  datatype RetireReason = Unfetchable | NoSummary | Ceiling

  datatype RequeueReason = Backoff | HandBack | NoProvenance

  datatype Event =
    // anyone, at any time
    | Insert(id: JobId, m: MatchId)
    | Revive(id: JobId)
    | Replay(id: JobId)
    | Reset(id: JobId)
    // the process
    | Boot
    | Stop
    | Crash
    | ShutdownFlush(failing: set<Dir>)
    // one pass over a batch
    | Claim(ids: seq<JobId>)
    | ClaimLost(ids: seq<JobId>)
    | SeeStop
    | FetchFails(err: FetchError)
    | LookupFails(orphan: bool)
    | ReleaseTail(reply: Reply)
    | Refund(reply: Reply)
    | Retire(why: RetireReason, reply: Reply)
    | Requeue(cause: RequeueReason, reply: Reply)
    | KnownClose(reply: Reply)
    | Write(dir: Dir, faults: Faults)
    | WriteRefused
    | Upsert(reply: Reply)
    | FlushBatch(failing: set<Dir>)
    | FlushRefused
    | Close(reply: Reply)
    | Abandon(reply: Reply)
    | EndBatch

  // ---------------------------------------------------------------- store statements

  predicate Ready(rows: Queue, id: JobId) {
    id in rows && (rows[id].status == Pending || rows[id].status == Retry)
  }

  /** Every statement that ends a claim is guarded by `status = 'claimed'`. */
  function Leave(rows: Queue, id: JobId, to: Status, refund: bool): Queue {
    if id in rows && rows[id].status == Claimed then
      var row := rows[id];
      rows[id := row.(status := to, attempts := if refund && row.attempts > 0 then row.attempts - 1 else row.attempts)]
    else rows
  }

  function LeaveIf(applied: bool, rows: Queue, id: JobId, to: Status, refund: bool): Queue {
    if applied then Leave(rows, id, to, refund) else rows
  }

  /** A claim charges the attempt. */
  function Claimable(rows: Queue, ids: seq<JobId>): Queue
    requires forall id | id in ids :: id in rows
  {
    map id | id in rows ::
      if id in ids then rows[id].(status := Claimed, attempts := rows[id].attempts + 1) else rows[id]
  }

  predicate Distinct(ids: seq<JobId>) {
    forall i, j | 0 <= i < j < |ids| :: ids[i] != ids[j]
  }

  function Applied(reply: Reply): bool {
    reply.Acked? || reply.applied
  }

  // ---------------------------------------------------------------- the step relation

  predicate AtHead(s: State, head: Head) {
    s.phase.Working? && s.phase.todo != [] && s.phase.head == head && s.phase.todo[0] in s.rows
  }

  function HeadId(s: State): JobId
    requires s.phase.Working? && s.phase.todo != []
  {
    s.phase.todo[0]
  }

  /** The head's fetch failed, with an error of this kind. */
  predicate HeadFailed(s: State, kind: FetchError -> bool) {
    s.phase.Working? && s.phase.head.FetchFailed? && AtHead(s, s.phase.head) && kind(s.phase.head.err)
  }

  /** The head has used up its attempts. */
  predicate HeadSpent(c: Config, s: State) {
    s.phase.Working? && s.phase.todo != [] && HeadId(s) in s.rows && s.rows[HeadId(s)].attempts >= c.maxAttempts
  }

  predicate BatchDone(s: State) {
    (s.phase.Working? || s.phase.Tail?) && s.phase.todo == []
  }

  predicate Can(c: Config, s: State, e: Event) {
    match e
    case Insert(id, m) => id !in s.rows && forall k | k in s.rows :: s.rows[k].matchId != m
    case Revive(id) => id in s.rows && s.rows[id].status == Dead && s.rows[id].revivals < REVIVAL_BUDGET
    case Replay(id) => id in s.rows && s.rows[id].status == Dead
    case Reset(id) => id in s.rows && s.rows[id].status == Claimed
    case Boot => s.phase.Down?
    case Stop => !s.phase.Down?
    case Crash => !s.phase.Down?
    case ShutdownFlush(_) => s.phase.Idle? && s.stopping
    case ClaimLost(ids) => s.phase.Idle? && Distinct(ids) && forall id | id in ids :: Ready(s.rows, id)
    case Claim(ids) => s.phase.Idle? && ids != [] && Distinct(ids) && forall id | id in ids :: Ready(s.rows, id)
    case SeeStop => AtHead(s, Fresh) && s.stopping
    case ReleaseTail(_) => s.phase.Tail? && s.phase.todo != []
    case FetchFails(_) => AtHead(s, Fresh)
    case LookupFails(_) => AtHead(s, Fresh) && c.kind.Timeline?
    case Refund(_) => HeadFailed(s, CallRefused)
    case Retire(why, _) =>
      (match why
       case Unfetchable => HeadFailed(s, NeverServed)
       case NoSummary => AtHead(s, Unjoined(true))
       case Ceiling => (HeadFailed(s, ChargedToRow) || AtHead(s, WriteFailed)) && HeadSpent(c, s))
    case Requeue(cause, _) =>
      (match cause
       case Backoff => (HeadFailed(s, ChargedToRow) || AtHead(s, WriteFailed)) && !HeadSpent(c, s)
       case NoProvenance => AtHead(s, Unjoined(false)) && c.kind.Timeline?
       case HandBack =>
         s.stopping
         && (HeadFailed(s, ChargedToRow) || AtHead(s, Unjoined(false)) || (AtHead(s, WriteFailed) && !HeadSpent(c, s))))
    case KnownClose(_) => AtHead(s, Fresh) && c.kind.Match? && s.rows[HeadId(s)].matchId in s.matches
    case Write(_, _) => AtHead(s, Fresh)
    case WriteRefused => AtHead(s, Fresh) && s.stopping
    case Upsert(_) => AtHead(s, Written)
    case FlushBatch(_) => BatchDone(s)
    case FlushRefused => BatchDone(s) && s.stopping
    case Close(_) => s.phase.Closing? && s.phase.retained != []
    case Abandon(_) => s.phase.Abandoning? && s.phase.retained != [] && s.phase.retained[0] in s.rows
    case EndBatch => (s.phase.Closing? || s.phase.Abandoning?) && s.phase.retained == []
  }

  function Next(s: State): Phase
    requires s.phase.Working? && s.phase.todo != []
  {
    Working(s.phase.todo[1..], s.phase.retained, Fresh)
  }

  /** A store call that fails aborts the pass; the rest of the batch stays claimed, the buffers stay open. */
  function NextOrAbort(s: State, reply: Reply): Phase
    requires s.phase.Working? && s.phase.todo != []
  {
    if reply.Acked? then Next(s) else Idle
  }

  function Keep(s: State): Phase
    requires s.phase.Working? && s.phase.todo != []
  {
    Working(s.phase.todo[1..], s.phase.retained + [s.phase.todo[0]], Fresh)
  }

  function AfterFailedFlush(s: State): Phase
    requires BatchDone(s)
  {
    if s.stopping || s.phase.retained == [] then Idle else Abandoning(s.phase.retained)
  }

  function Do(c: Config, s: State, e: Event): State
    requires Can(c, s, e)
  {
    match e
    case Insert(id, m) => s.(rows := s.rows[id := Row(m, Pending, 0, 0)])
    case Revive(id) =>
      s.(rows := s.rows[id := s.rows[id].(status := Pending, attempts := 0, revivals := s.rows[id].revivals + 1)])
    case Replay(id) => s.(rows := s.rows[id := s.rows[id].(status := Pending, attempts := 0)])
    case Reset(id) => s.(rows := Leave(s.rows, id, Retry, false))
    case Boot => s.(phase := Idle, stopping := false)
    case Stop => s.(stopping := true)
    case Crash => s.(phase := Down, archive := AfterExit(s.archive))
    case ShutdownFlush(failing) => s.(phase := Down, archive := AfterExit(AfterFlush(s.archive, failing)))
    case Claim(ids) => s.(rows := Claimable(s.rows, ids), phase := Working(ids, [], Fresh))
    // the claim was committed but its reply never arrived: the rows are claimed by nobody
    case ClaimLost(ids) => s.(rows := Claimable(s.rows, ids))
    case SeeStop => s.(phase := Tail(s.phase.todo, s.phase.retained))
    case FetchFails(err) => s.(phase := s.phase.(head := FetchFailed(err)))
    case LookupFails(orphan) => s.(phase := s.phase.(head := Unjoined(orphan)))
    case ReleaseTail(reply) =>
      s.(rows := LeaveIf(Applied(reply), s.rows, s.phase.todo[0], Retry, true),
         phase := Tail(s.phase.todo[1..], s.phase.retained))
    case Refund(reply) =>
      s.(rows := LeaveIf(Applied(reply), s.rows, HeadId(s), Retry, true), phase := NextOrAbort(s, reply))
    case Retire(_, reply) =>
      s.(rows := LeaveIf(Applied(reply), s.rows, HeadId(s), Dead, false), phase := NextOrAbort(s, reply))
    case Requeue(cause, reply) =>
      s.(rows := LeaveIf(Applied(reply), s.rows, HeadId(s), Retry, false),
         phase := if cause.HandBack? then Next(s) else NextOrAbort(s, reply))
    case KnownClose(reply) =>
      s.(rows := LeaveIf(Applied(reply), s.rows, HeadId(s), Done, false), phase := NextOrAbort(s, reply))
    case Write(d, f) =>
      var m := s.rows[HeadId(s)].matchId;
      s.(archive := AfterWrite(s.archive, d, m, c.rowsPerPart, f),
         phase := if !WriteOk(s.archive, d, m, c.rowsPerPart, f) then s.phase.(head := WriteFailed)
                  else if c.kind.Match? then s.phase.(head := Written)
                  else Keep(s))
    case WriteRefused => s.(phase := s.phase.(head := WriteFailed))
    case Upsert(reply) =>
      s.(matches := if Applied(reply) then s.matches + {s.rows[HeadId(s)].matchId} else s.matches,
         phase := if reply.Acked? then Keep(s) else Idle)
    case FlushBatch(failing) =>
      s.(archive := AfterFlush(s.archive, failing),
         phase := if FlushOk(s.archive, failing) then Closing(s.phase.retained) else AfterFailedFlush(s))
    case FlushRefused => s.(phase := Idle)
    case Close(reply) =>
      s.(rows := LeaveIf(Applied(reply), s.rows, s.phase.retained[0], Done, false),
         phase := if reply.Acked? then Closing(s.phase.retained[1..]) else Idle)
    case Abandon(reply) =>
      var id := s.phase.retained[0];
      var to := if s.rows[id].attempts >= c.maxAttempts then Dead else Retry;
      s.(rows := LeaveIf(Applied(reply), s.rows, id, to, false),
         phase := Abandoning(s.phase.retained[1..]))
    case EndBatch => s.(phase := Idle)
  }

  /** `es` is a run of the protocol from `s`. */
  predicate Runs(c: Config, s: State, es: seq<Event>)
    decreases |es|
  {
    es == [] || (Can(c, s, es[0]) && Runs(c, Do(c, s, es[0]), es[1..]))
  }

  function After(c: Config, s: State, es: seq<Event>): State
    requires Runs(c, s, es)
    decreases |es|
  {
    if es == [] then s else After(c, Do(c, s, es[0]), es[1..])
  }

  /** An empty control plane and archive, nothing running. */
  const INITIAL := State(map[], {}, map[], Down, false)

  // ---------------------------------------------------------------- rows keep their match

  function Batch(p: Phase): seq<JobId> {
    match p
    case Working(todo, retained, _) => todo + retained
    case Tail(todo, retained) => todo + retained
    case Closing(retained) => retained
    case Abandoning(retained) => retained
    case _ => []
  }

  /** The batch names existing rows, each at most once. */
  predicate Tracked(s: State) {
    Distinct(Batch(s.phase)) && forall id | id in Batch(s.phase) :: id in s.rows
  }

  /** A step that ends a claim: on which row, with which status, refunding or not, and how the store answered. */
  datatype Settlement = Settlement(id: JobId, to: Status, refund: bool, reply: Reply)

  function Settles(c: Config, s: State, e: Event): Option<Settlement>
    requires Can(c, s, e)
  {
    match e
    case ReleaseTail(reply) => Some(Settlement(s.phase.todo[0], Retry, true, reply))
    case Refund(reply) => Some(Settlement(HeadId(s), Retry, true, reply))
    case Retire(_, reply) => Some(Settlement(HeadId(s), Dead, false, reply))
    case Requeue(_, reply) => Some(Settlement(HeadId(s), Retry, false, reply))
    case KnownClose(reply) => Some(Settlement(HeadId(s), Done, false, reply))
    case Close(reply) => Some(Settlement(s.phase.retained[0], Done, false, reply))
    case Abandon(reply) =>
      var id := s.phase.retained[0];
      Some(Settlement(id, if s.rows[id].attempts >= c.maxAttempts then Dead else Retry, false, reply))
    case _ => None
  }

  function LeaveRow(row: Row, to: Status, refund: bool): Row {
    if row.status == Claimed
    then row.(status := to, attempts := if refund && row.attempts > 0 then row.attempts - 1 else row.attempts)
    else row
  }

  /** One step as a single row sees it. */
  function RowAfter(c: Config, s: State, e: Event, id: JobId): Row
    requires Can(c, s, e) && id in s.rows
  {
    var row := s.rows[id];
    match e
    case Revive(r) => if r == id then row.(status := Pending, attempts := 0, revivals := row.revivals + 1) else row
    case Replay(r) => if r == id then row.(status := Pending, attempts := 0) else row
    case Reset(r) => if r == id then LeaveRow(row, Retry, false) else row
    case Claim(ids) => if id in ids then row.(status := Claimed, attempts := row.attempts + 1) else row
    case ClaimLost(ids) => if id in ids then row.(status := Claimed, attempts := row.attempts + 1) else row
    case _ =>
      var t := Settles(c, s, e);
      if t.Some? && t.value.id == id && Applied(t.value.reply) then LeaveRow(row, t.value.to, t.value.refund) else row
  }

  /** A step that ends a claim is one guarded statement on that row. */
  lemma SettlementSees(c: Config, s: State, e: Event)
    requires Can(c, s, e) && Settles(c, s, e).Some?
    ensures var t := Settles(c, s, e).value;
      Do(c, s, e).rows == LeaveIf(Applied(t.reply), s.rows, t.id, t.to, t.refund)
  {
  }

  lemma RowSees(c: Config, s: State, e: Event, id: JobId)
    requires Can(c, s, e) && id in s.rows
    ensures id in Do(c, s, e).rows && Do(c, s, e).rows[id] == RowAfter(c, s, e, id)
  {
    if Settles(c, s, e).Some? {
      SettlementSees(c, s, e);
    } else if e.Claim? || e.ClaimLost? {
      assert Do(c, s, e).rows == Claimable(s.rows, e.ids);
    }
  }

  lemma RowsPersist(c: Config, s: State, e: Event)
    requires Can(c, s, e)
    ensures forall id | id in s.rows :: id in Do(c, s, e).rows && Do(c, s, e).rows[id].matchId == s.rows[id].matchId
  {
    forall id | id in s.rows
      ensures id in Do(c, s, e).rows && Do(c, s, e).rows[id].matchId == s.rows[id].matchId
    {
      RowSees(c, s, e, id);
    }
  }

  /** A row that is new after a step was inserted by it. */
  lemma NewRowsArePending(c: Config, s: State, e: Event, id: JobId)
    requires Can(c, s, e) && id in Do(c, s, e).rows && id !in s.rows
    ensures Do(c, s, e).rows[id].status == Pending
  {
  }

  /** A row becomes done by exactly two steps: closing a retained row, or the known-match shortcut. */
  lemma DoneComesFromAClose(c: Config, s: State, e: Event, id: JobId)
    requires Can(c, s, e) && id in Do(c, s, e).rows && Do(c, s, e).rows[id].status == Done
    ensures id in s.rows
    ensures s.rows[id].status == Done
      || (s.rows[id].status == Claimed && e.Close? && id == s.phase.retained[0])
      || (s.rows[id].status == Claimed && e.KnownClose? && id == HeadId(s))
  {
    if id in s.rows {
      RowSees(c, s, e, id);
    } else {
      NewRowsArePending(c, s, e, id);
    }
  }

  lemma DistinctSuffix(ids: seq<JobId>, k: nat)
    requires k <= |ids| && Distinct(ids)
    ensures Distinct(ids[k..])
  {
  }

  /** Moving the head of the batch to the end of the retained rows keeps it duplicate-free. */
  lemma DistinctRotate(todo: seq<JobId>, retained: seq<JobId>)
    requires todo != [] && Distinct(todo + retained)
    ensures Distinct(todo[1..] + (retained + [todo[0]]))
  {
    var was, now := todo + retained, todo[1..] + (retained + [todo[0]]);
    assert forall i | 0 <= i < |was| - 1 :: now[i] == was[i + 1];
    assert now[|now| - 1] == was[0];
  }

  lemma BatchShrinks(c: Config, s: State, e: Event)
    requires Tracked(s) && Can(c, s, e) && !e.Claim?
    ensures var p := Do(c, s, e).phase;
      Distinct(Batch(p)) && forall id | id in Batch(p) :: id in Batch(s.phase)
  {
    var was, now := Batch(s.phase), Batch(Do(c, s, e).phase);
    if now != [] && now != was {
      if now == was[1..] {
        DistinctSuffix(was, 1);
      } else {
        var p := s.phase;
        assert p.Working? || p.Tail?;
        assert (p.todo + p.retained)[1..] == p.todo[1..] + p.retained;
        DistinctRotate(p.todo, p.retained);
      }
    }
  }

  lemma StaysTracked(c: Config, s: State, e: Event)
    requires Tracked(s) && Can(c, s, e)
    ensures Tracked(Do(c, s, e))
  {
    RowsPersist(c, s, e);
    if e.Claim? {
      assert Batch(Do(c, s, e).phase) == e.ids;
    } else {
      BatchShrinks(c, s, e);
    }
  }

  /** So in every state a run reaches. */
  lemma {:induction false} RunTracked(c: Config, s: State, es: seq<Event>)
    requires Tracked(s) && Runs(c, s, es)
    ensures Tracked(After(c, s, es))
    decreases |es|
  {
    if es != [] {
      StaysTracked(c, s, es[0]);
      RunTracked(c, Do(c, s, es[0]), es[1..]);
    }
  }

  lemma {:induction false} RunsCompose(c: Config, s: State, first: seq<Event>, rest: seq<Event>)
    requires Runs(c, s, first) && Runs(c, After(c, s, first), rest)
    ensures Runs(c, s, first + rest) && After(c, s, first + rest) == After(c, After(c, s, first), rest)
    decreases |first|
  {
    if first == [] {
      assert first + rest == rest;
    } else {
      assert (first + rest)[0] == first[0] && (first + rest)[1..] == first[1..] + rest;
      RunsCompose(c, Do(c, s, first[0]), first[1..], rest);
    }
  }

  /** The rest of a run is a run from where its beginning ends. */
  lemma {:induction false} RunsSplit(c: Config, s: State, first: seq<Event>, rest: seq<Event>)
    requires Runs(c, s, first + rest)
    ensures Runs(c, s, first) && Runs(c, After(c, s, first), rest)
    ensures After(c, s, first + rest) == After(c, After(c, s, first), rest)
    decreases |first|
  {
    if first == [] {
      assert first + rest == rest;
    } else {
      assert (first + rest)[0] == first[0] && (first + rest)[1..] == first[1..] + rest;
      RunsSplit(c, Do(c, s, first[0]), first[1..], rest);
    }
  }

  lemma RunsSnoc(c: Config, s: State, es: seq<Event>, e: Event)
    requires Runs(c, s, es) && Can(c, After(c, s, es), e)
    ensures Runs(c, s, es + [e]) && After(c, s, es + [e]) == Do(c, After(c, s, es), e)
  {
    var t := After(c, s, es);
    assert [e][0] == e && [e][1..] == [];
    assert Runs(c, Do(c, t, e), []);
    RunsCompose(c, s, es, [e]);
  }
}
