/** The attempt budget of one row over whole runs: what is charged, what is refunded, when the row retires. */
module CrawlBudget {
  import opened Archive
  import opened CrawlProtocol
  import opened CrawlSafety
  import opened CrawlWitnesses

  /** The row's claim is ended by this step with the effect applied. */
  predicate Ends(s: State, target: JobId, reply: Reply, id: JobId) {
    target == id && Applied(reply) && id in s.rows && s.rows[id].status == Claimed
  }

  function Charge(c: Config, s: State, e: Event, id: JobId): nat
    requires Can(c, s, e)
  {
    if (e.Claim? || e.ClaimLost?) && id in e.ids then 1 else 0
  }

  function RefundOf(c: Config, s: State, e: Event, id: JobId): nat
    requires Can(c, s, e)
  {
    match e
    case ReleaseTail(reply) => if Ends(s, s.phase.todo[0], reply, id) then 1 else 0
    case Refund(reply) => if Ends(s, HeadId(s), reply, id) then 1 else 0
    case _ => 0
  }

  /** Shutdown hand-backs and reclaimed claims: the two ways back to the queue that consult no ceiling. */
  function Interruption(c: Config, s: State, e: Event, id: JobId): nat
    requires Can(c, s, e)
  {
    match e
    case Reset(r) => if r == id then 1 else 0
    case Requeue(cause, reply) => if cause.HandBack? && Ends(s, HeadId(s), reply, id) then 1 else 0
    case _ => 0
  }

  function Charges(c: Config, s: State, es: seq<Event>, id: JobId): nat
    requires Runs(c, s, es)
    decreases |es|
  {
    if es == [] then 0 else Charge(c, s, es[0], id) + Charges(c, Do(c, s, es[0]), es[1..], id)
  }

  function Refunds(c: Config, s: State, es: seq<Event>, id: JobId): nat
    requires Runs(c, s, es)
    decreases |es|
  {
    if es == [] then 0 else RefundOf(c, s, es[0], id) + Refunds(c, Do(c, s, es[0]), es[1..], id)
  }

  function Interruptions(c: Config, s: State, es: seq<Event>, id: JobId): nat
    requires Runs(c, s, es)
    decreases |es|
  {
    if es == [] then 0 else Interruption(c, s, es[0], id) + Interruptions(c, Do(c, s, es[0]), es[1..], id)
  }

  /** The run neither revives nor replays the row, both of which start a new budget. */
  predicate SameLife(es: seq<Event>, id: JobId) {
    Revive(id) !in es && Replay(id) !in es
  }

  /** A claimed row has been charged at least once. */
  predicate ClaimedWasCharged(s: State, id: JobId) {
    id in s.rows && (s.rows[id].status == Claimed ==> s.rows[id].attempts >= 1)
  }

  lemma StepBalances(c: Config, s: State, e: Event, id: JobId)
    requires Can(c, s, e) && ClaimedWasCharged(s, id) && e != Revive(id) && e != Replay(id)
    ensures ClaimedWasCharged(Do(c, s, e), id)
    ensures Do(c, s, e).rows[id].attempts == s.rows[id].attempts + Charge(c, s, e, id) - RefundOf(c, s, e, id)
  {
    RowSees(c, s, e, id);
  }

  /** The attempt counter is exactly what was charged minus what was refunded. */
  lemma {:induction false} AttemptsAreNetCharges(c: Config, s: State, es: seq<Event>, id: JobId)
    requires Runs(c, s, es) && ClaimedWasCharged(s, id) && SameLife(es, id)
    ensures id in After(c, s, es).rows
    ensures After(c, s, es).rows[id].attempts == s.rows[id].attempts + Charges(c, s, es, id) - Refunds(c, s, es, id)
    decreases |es|
  {
    if es != [] {
      StepBalances(c, s, es[0], id);
      AttemptsAreNetCharges(c, Do(c, s, es[0]), es[1..], id);
    }
  }

  /** With n interruptions behind it, a row on the queue still has a claim left, and no row has spent more. */
  predicate WithinBudget(c: Config, s: State, id: JobId, n: nat) {
    && ClaimedWasCharged(s, id)
    && s.rows[id].attempts <= c.maxAttempts + n
    && (Ready(s.rows, id) ==> s.rows[id].attempts < c.maxAttempts + n)
  }

  /** The one way past the ceiling: the lookup failed, and the row goes back without a look at what it has spent. */
  predicate Overdraws(c: Config, s: State, e: Event, id: JobId, n: nat)
    requires Can(c, s, e)
  {
    e.Requeue? && e.cause.NoProvenance? && Ends(s, HeadId(s), e.reply, id) && s.rows[id].attempts >= c.maxAttempts + n
  }

  /** Either loop: a step keeps the budget, charging interruptions to it, except exactly such a requeue. */
  lemma BudgetStep(c: Config, s: State, e: Event, id: JobId, n: nat)
    requires c.maxAttempts >= 1
    requires Can(c, s, e) && WithinBudget(c, s, id, n) && e != Revive(id) && e != Replay(id)
    ensures WithinBudget(c, Do(c, s, e), id, n + Interruption(c, s, e, id)) <==> !Overdraws(c, s, e, id, n)
  {
    StepBalances(c, s, e, id);
    RowSees(c, s, e, id);
  }

  /** ... and with that requeue charged to it as well, every step does. */
  lemma ExtendedBudgetStep(c: Config, s: State, e: Event, id: JobId, n: nat)
    requires c.maxAttempts >= 1
    requires Can(c, s, e) && WithinBudget(c, s, id, n) && e != Revive(id) && e != Replay(id)
    ensures WithinBudget(c, Do(c, s, e), id, n + Extension(c, s, e, id, n))
  {
    BudgetStep(c, s, e, id, n);
    if Overdraws(c, s, e, id, n) {
      StepBalances(c, s, e, id);
    }
  }

  function Overdraft(c: Config, s: State, e: Event, id: JobId, n: nat): nat
    requires Can(c, s, e)
  {
    if Overdraws(c, s, e, id, n) then 1 else 0
  }

  function Extension(c: Config, s: State, e: Event, id: JobId, n: nat): nat
    requires Can(c, s, e)
  {
    Interruption(c, s, e, id) + Overdraft(c, s, e, id, n)
  }

  /** The requeues past the ceiling as it stands when they happen: n, plus everything that has extended it. */
  function Overdrafts(c: Config, s: State, es: seq<Event>, id: JobId, n: nat): nat
    requires Runs(c, s, es)
    decreases |es|
  {
    if es == [] then 0
    else Overdraft(c, s, es[0], id, n) + Overdrafts(c, Do(c, s, es[0]), es[1..], id, n + Extension(c, s, es[0], id, n))
  }

  lemma {:induction false} BudgetRun(c: Config, s: State, es: seq<Event>, id: JobId, n: nat)
    requires c.maxAttempts >= 1
    requires Runs(c, s, es) && WithinBudget(c, s, id, n) && SameLife(es, id)
    ensures WithinBudget(c, After(c, s, es), id, n + Interruptions(c, s, es, id) + Overdrafts(c, s, es, id, n))
    decreases |es|
  {
    if es != [] {
      ExtendedBudgetStep(c, s, es[0], id, n);
      BudgetRun(c, Do(c, s, es[0]), es[1..], id, n + Extension(c, s, es[0], id, n));
    }
  }

  /** Nothing but interruptions ever extended the budget. */
  predicate AlwaysWithin(c: Config, s: State, es: seq<Event>, id: JobId, n: nat)
    requires Runs(c, s, es)
    decreases |es|
  {
    WithinBudget(c, s, id, n)
    && (es == [] || AlwaysWithin(c, Do(c, s, es[0]), es[1..], id, n + Interruption(c, s, es[0], id)))
  }

  /**
   * Either loop: a row keeps within MaxAttempts and its interruptions, all the way, exactly on runs without an
   * overdraft.
   */
  lemma {:induction false} WithinUnlessOverdrawn(c: Config, s: State, es: seq<Event>, id: JobId, n: nat)
    requires c.maxAttempts >= 1
    requires Runs(c, s, es) && WithinBudget(c, s, id, n) && SameLife(es, id)
    ensures AlwaysWithin(c, s, es, id, n) <==> Overdrafts(c, s, es, id, n) == 0
    decreases |es|
  {
    if es != [] {
      BudgetStep(c, s, es[0], id, n);
      if !Overdraws(c, s, es[0], id, n) {
        WithinUnlessOverdrawn(c, Do(c, s, es[0]), es[1..], id, n + Interruption(c, s, es[0], id));
      }
    }
  }

  /**
   * Either loop: a row is claimed, net of refunds, at most MaxAttempts times plus once per interruption and per
   * overdraft; when that many charged claims are spent it is off the queue.
   */
  lemma RowsRetire(c: Config, s: State, es: seq<Event>, id: JobId)
    requires c.maxAttempts >= 1
    requires id in s.rows && s.rows[id].status == Pending && s.rows[id].attempts == 0
    requires Runs(c, s, es) && SameLife(es, id)
    ensures id in After(c, s, es).rows
    ensures var budget := c.maxAttempts + Interruptions(c, s, es, id) + Overdrafts(c, s, es, id, 0);
      var net := Charges(c, s, es, id) - Refunds(c, s, es, id);
      net <= budget && (net == budget ==> !Ready(After(c, s, es).rows, id))
  {
    AttemptsAreNetCharges(c, s, es, id);
    BudgetRun(c, s, es, id, 0);
  }

  lemma {:induction false} MatchesNeverOverdraw(c: Config, s: State, es: seq<Event>, id: JobId, n: nat)
    requires c.kind.Match? && Runs(c, s, es)
    ensures Overdrafts(c, s, es, id, n) == 0
    decreases |es|
  {
    if es != [] {
      MatchesNeverOverdraw(c, Do(c, s, es[0]), es[1..], id, n + Extension(c, s, es[0], id, n));
    }
  }

  /** The match loop has no such requeue: its rows are bounded by MaxAttempts and their interruptions. */
  lemma MatchRowsRetire(c: Config, s: State, es: seq<Event>, id: JobId)
    requires c.kind.Match? && c.maxAttempts >= 1
    requires id in s.rows && s.rows[id].status == Pending && s.rows[id].attempts == 0
    requires Runs(c, s, es) && SameLife(es, id)
    ensures id in After(c, s, es).rows
    ensures Charges(c, s, es, id) - Refunds(c, s, es, id) <= c.maxAttempts + Interruptions(c, s, es, id)
    ensures Charges(c, s, es, id) - Refunds(c, s, es, id) == c.maxAttempts + Interruptions(c, s, es, id)
      ==> !Ready(After(c, s, es).rows, id)
  {
    RowsRetire(c, s, es, id);
    MatchesNeverOverdraw(c, s, es, id, 0);
  }

  // ---------------------------------------------------------------- refused calls cost nothing

  predicate InHand(s: State, id: JobId) {
    s.phase.Working? && s.phase.todo != [] && HeadId(s) == id
  }

  /** The row fails, and not because the call was refused: of its own fetch or lookup, or of the archive. */
  predicate FailsOtherwise(c: Config, s: State, e: Event, id: JobId)
    requires Can(c, s, e)
  {
    match e
    case FetchFails(err) => InHand(s, id) && !CallRefused(err)
    case LookupFails(_) => InHand(s, id)
    case Write(d, f) => InHand(s, id) && !WriteOk(s.archive, d, s.rows[id].matchId, c.rowsPerPart, f)
    case WriteRefused => InHand(s, id)
    case FlushBatch(failing) => id in s.phase.retained && !FlushOk(s.archive, failing)
    case _ => false
  }

  /** Every failure the row meets in this run is an open circuit or a refused key. */
  predicate OnlyRefused(c: Config, s: State, es: seq<Event>, id: JobId)
    requires Runs(c, s, es)
    decreases |es|
  {
    es == [] || (!FailsOtherwise(c, s, es[0], id) && OnlyRefused(c, Do(c, s, es[0]), es[1..], id))
  }

  predicate Blameless(head: Head) {
    head.Fresh? || head.Written? || (head.FetchFailed? && CallRefused(head.err))
  }

  /** The row is alive, and nothing the worker is about to do with it answers a failure of its own. */
  predicate Unblamed(s: State, id: JobId) {
    && id in s.rows && !s.rows[id].status.Dead?
    && (InHand(s, id) ==> Blameless(s.phase.head))
    && (s.phase.Abandoning? ==> id !in s.phase.retained)
  }

  /**
   * What the counter says of such a row: nothing but the claim it is under, or was closed under, and the reclaimed
   * ones.
   */
  predicate Billed(s: State, id: JobId, budget: nat) {
    id in s.rows
    && s.rows[id].attempts == budget + if s.rows[id].status.Claimed? || s.rows[id].status.Done? then 1 else 0
  }

  /** A head that answers for a failure of its own got there by such a failure. */
  lemma BlameNeedsAFailure(c: Config, s: State, e: Event, id: JobId)
    requires Can(c, s, e) && Unblamed(s, id) && !FailsOtherwise(c, s, e, id)
    ensures var t := Do(c, s, e);
      (InHand(t, id) ==> Blameless(t.phase.head))
      && (t.phase.Abandoning? ==> id !in t.phase.retained)
  {
  }

  /** And only then is it retired. */
  lemma DeathNeedsBlame(c: Config, s: State, e: Event, id: JobId)
    requires Can(c, s, e) && Unblamed(s, id)
    ensures !RowAfter(c, s, e, id).status.Dead?
  {
  }

  lemma BilledStep(c: Config, s: State, e: Event, id: JobId, budget: nat)
    requires Can(c, s, e) && Unblamed(s, id) && Billed(s, id, budget)
    ensures Billed(Do(c, s, e), id, budget + Interruption(c, s, e, id))
  {
    RowSees(c, s, e, id);
    DeathNeedsBlame(c, s, e, id);
  }

  lemma {:induction false} RefusedRun(c: Config, s: State, es: seq<Event>, id: JobId, budget: nat)
    requires Runs(c, s, es) && OnlyRefused(c, s, es, id) && Unblamed(s, id) && Billed(s, id, budget)
    ensures Unblamed(After(c, s, es), id) && Billed(After(c, s, es), id, budget + Interruptions(c, s, es, id))
    decreases |es|
  {
    if es != [] {
      RowSees(c, s, es[0], id);
      DeathNeedsBlame(c, s, es[0], id);
      BlameNeedsAFailure(c, s, es[0], id);
      BilledStep(c, s, es[0], id, budget);
      RefusedRun(c, Do(c, s, es[0]), es[1..], id, budget + Interruption(c, s, es[0], id));
    }
  }

  /**
   * However long the outage, with crashes, restarts, lost replies and aborted passes in it: a row whose every
   * failure is an open circuit or a refused key is never dead-lettered, and its counter is what it was, plus the
   * claim it is under or was closed under, plus the claims that were interrupted.
   */
  lemma RefusedRowsKeepTheirBudget(c: Config, s: State, es: seq<Event>, id: JobId)
    requires Runs(c, s, es) && OnlyRefused(c, s, es, id)
    requires Ready(s.rows, id) && id !in Batch(s.phase)
    ensures id in After(c, s, es).rows && !After(c, s, es).rows[id].status.Dead?
    ensures After(c, s, es).rows[id].attempts == s.rows[id].attempts + Interruptions(c, s, es, id)
      + if After(c, s, es).rows[id].status.Claimed? || After(c, s, es).rows[id].status.Done? then 1 else 0
  {
    assert InHand(s, id) ==> id in Batch(s.phase);
    RefusedRun(c, s, es, id, s.rows[id].attempts);
  }

  // ---------------------------------------------------------------- the bound is tight, and timelines have none

  /** One row, claimed by nobody, in an idle worker. */
  ghost function Waiting(status: Status, attempts: nat): State {
    State(map[1 := Row(ONE, status, attempts, 0)], {}, map[], Idle, false)
  }

  lemma ClaimWaiting(c: Config, status: Status, attempts: nat)
    requires status == Pending || status == Retry
    ensures var s := Waiting(status, attempts);
      Can(c, s, Claim([1])) && Charge(c, s, Claim([1]), 1) == 1
      && Do(c, s, Claim([1])) == Waiting(Claimed, attempts + 1).(phase := Working([1], [], Fresh))
  {
    var s := Waiting(status, attempts);
    assert Claimable(s.rows, [1]) == s.rows[1 := Row(ONE, Claimed, attempts + 1, 0)];
  }

  lemma Prepend(c: Config, s: State, e: Event, t: State, rest: seq<Event>) returns (es: seq<Event>)
    requires Can(c, s, e) && Do(c, s, e) == t && Runs(c, t, rest)
    ensures es == [e] + rest && Runs(c, s, es) && After(c, s, es) == After(c, t, rest)
    ensures Interruptions(c, s, es, 1) == Interruption(c, s, e, 1) + Interruptions(c, t, rest, 1)
  {
    es := [e] + rest;
    assert es[1..] == rest;
  }

  /** An empty batch is flushed and ended. */
  lemma EndOfLap(c: Config, attempts: nat) returns (es: seq<Event>)
    ensures var s := Waiting(Retry, attempts).(phase := Working([], [], Fresh));
      && Runs(c, s, es) && After(c, s, es) == Waiting(Retry, attempts) && Interruptions(c, s, es, 1) == 0
      && SameLife(es, 1)
  {
    var last := Waiting(Retry, attempts);
    es := Prepend(c, last.(phase := Closing([])), EndBatch, last, []);
    assert AfterFlush(map[], {}) == map[];
    es := Prepend(c, last.(phase := Working([], [], Fresh)), FlushBatch({}), last.(phase := Closing([])), es);
  }

  /** Claim the row, put it back without consulting the ceiling, finish the empty batch. */
  lemma TimelineLap(c: Config, status: Status, attempts: nat) returns (es: seq<Event>)
    requires c.kind.Timeline? && (status == Pending || status == Retry)
    ensures Runs(c, Waiting(status, attempts), es) && SameLife(es, 1)
    ensures After(c, Waiting(status, attempts), es) == Waiting(Retry, attempts + 1)
    ensures Interruptions(c, Waiting(status, attempts), es, 1) == 0
  {
    es := EndOfLap(c, attempts + 1);
    es := LookupLap(c, attempts, es);
    ClaimWaiting(c, status, attempts);
    var claimed := Waiting(Claimed, attempts + 1).(phase := Working([1], [], Fresh));
    es := Prepend(c, Waiting(status, attempts), Claim([1]), claimed, es);
  }

  lemma RequeueUnjoined(c: Config, attempts: nat)
    requires c.kind.Timeline?
    ensures var s := Waiting(Claimed, attempts + 1).(phase := Working([1], [], Unjoined(false)));
      Can(c, s, Requeue(NoProvenance, Acked))
      && Do(c, s, Requeue(NoProvenance, Acked)) == Waiting(Retry, attempts + 1).(phase := Working([], [], Fresh))
  {
    assert [1][1..] == [];
  }

  /** The lookup of the one claimed row fails and the row goes back. */
  lemma LookupLap(c: Config, attempts: nat, rest: seq<Event>) returns (es: seq<Event>)
    requires c.kind.Timeline? && SameLife(rest, 1)
    requires Runs(c, Waiting(Retry, attempts + 1).(phase := Working([], [], Fresh)), rest)
    ensures var (s, t) := (Waiting(Claimed, attempts + 1).(phase := Working([1], [], Fresh)),
                           Waiting(Retry, attempts + 1).(phase := Working([], [], Fresh)));
      && Runs(c, s, es) && SameLife(es, 1) && After(c, s, es) == After(c, t, rest)
      && Interruptions(c, s, es, 1) == Interruptions(c, t, rest, 1)
  {
    var claimed := Waiting(Claimed, attempts + 1).(phase := Working([1], [], Fresh));
    var failed := claimed.(phase := Working([1], [], Unjoined(false)));
    RequeueUnjoined(c, attempts);
    es := Prepend(c, failed, Requeue(NoProvenance, Acked),
      Waiting(Retry, attempts + 1).(phase := Working([], [], Fresh)), rest);
    es := Prepend(c, claimed, LookupFails(false), failed, es);
  }

  lemma {:induction false} InterruptionsCompose(c: Config, s: State, first: seq<Event>, rest: seq<Event>, id: JobId)
    requires Runs(c, s, first) && Runs(c, After(c, s, first), rest)
    ensures Runs(c, s, first + rest)
    ensures Interruptions(c, s, first + rest, id)
         == Interruptions(c, s, first, id) + Interruptions(c, After(c, s, first), rest, id)
    decreases |first|
  {
    RunsCompose(c, s, first, rest);
    if first == [] {
      assert first + rest == rest;
    } else {
      assert (first + rest)[0] == first[0] && (first + rest)[1..] == first[1..] + rest;
      InterruptionsCompose(c, Do(c, s, first[0]), first[1..], rest, id);
    }
  }

  /**
   * The match-only hypothesis is needed: a timeline row whose provenance lookup keeps failing is requeued without
   * a look at the ceiling, so its attempts pass every bound although nothing ever interrupted it.
   */
  lemma {:induction false} TimelineAttemptsAreUnbounded(c: Config, n: nat) returns (es: seq<Event>)
    requires c.kind.Timeline?
    ensures Runs(c, Waiting(Pending, 0), es) && SameLife(es, 1)
    ensures Interruptions(c, Waiting(Pending, 0), es, 1) == 0
    ensures After(c, Waiting(Pending, 0), es) == Waiting(if n == 0 then Pending else Retry, n)
  {
    es := [];
    if n > 0 {
      es := TimelineAttemptsAreUnbounded(c, n - 1);
      var lap := TimelineLap(c, if n == 1 then Pending else Retry, n - 1);
      RunsCompose(c, Waiting(Pending, 0), es, lap);
      InterruptionsCompose(c, Waiting(Pending, 0), es, lap, 1);
      es := es + lap;
    }
  }
}
