/** One API call: bounded retries, a budget for the waiting a 429 asks for, and what limiter and breaker are told. */
module Client {
  import opened Collections
  import opened Options
  import opened Breaker

  /** What a round trip brings back: nothing usable, or a status with the wait its Retry-After header asks for. */
  datatype Response = Broken | Answered(status: int, retryAfter: int)

  /** One round trip, with the jittered backoff drawn for its attempt number. */
  datatype Exchange = Exchange(response: Response, backoff: int)

  predicate Success(r: Response) {
    r.Answered? && 200 <= r.status < 300
  }

  predicate Limited(r: Response) {
    r.Answered? && r.status == 429
  }

  predicate Retryable(r: Response) {
    r.Broken? || r.status == 429 || r.status >= 500
  }

  /** The wait after a 429: the server's instruction when it gave one, else the backoff. */
  function WaitOf(x: Exchange): int
    requires x.response.Answered?
  {
    if x.response.retryAfter <= 0 then x.backoff else x.response.retryAfter
  }

  function Waits(h: seq<Exchange>): seq<int> {
    if h == [] then []
    else
      var last := h[|h| - 1];
      Waits(h[..|h| - 1]) + if Limited(last.response) then [WaitOf(last)] else []
  }

  function Sum(s: seq<int>): int {
    if s == [] then 0 else Sum(s[..|s| - 1]) + s[|s| - 1]
  }

  /** What the breaker has been told: a success closes it, 429 and 403 count against it, nothing else is reported. */
  function FailuresAfter(consecutive: nat, h: seq<Exchange>): nat {
    if h == [] then consecutive
    else
      var (before, last) := (FailuresAfter(consecutive, h[..|h| - 1]), h[|h| - 1].response);
      if Success(last) then 0
      else if last.Answered? && (last.status == 429 || last.status == 403) then before + 1
      else before
  }

  datatype Outcome =
    | Body
    | Refused
    | NoKey
    | RunEnded
    | CallDeadline
    | LimiterFailed
    | SleepEnded
    | TransportFailed
    | RateLimited(attempts: nat, retryAfter: int, suspended: bool)
    | StatusError(status: int)
    | NoAttempt

  datatype Settings = Settings(maxAttempts: int, retryWaitBudget: int)

  class Limiter {
    var penalties: seq<int>

    constructor ()
      ensures penalties == []
    {
      penalties := [];
    }

    method Penalize(wait: int)
      modifies this
      ensures penalties == old(penalties) + [wait]
    {
      penalties := penalties + [wait];
    }
  }

  /** `ownDeadline`: the run's own end is told apart from the call's, and anything else is passed through. */
  method OwnDeadline(other: Outcome) returns (o: Outcome)
    ensures o == RunEnded || o == CallDeadline || o == other
  {
    var parent: bool, deadline: bool := *, *;
    o := if parent then RunEnded else if deadline then CallDeadline else other;
  }

  /** How an attempt ends: with the call's answer, or with the error the next attempt may replace. */
  datatype Step = Return(o: Outcome) | Continue(lastErr: Outcome)

  /** The error a retryable answer leaves behind if no later attempt does better. */
  function ErrorOf(x: Exchange, attempt: nat): Outcome
    requires Retryable(x.response)
  {
    if x.response.Broken? then TransportFailed
    else if x.response.status == 429 then RateLimited(attempt, WaitOf(x), false)
    else StatusError(x.response.status)
  }

  predicate EndsWithoutAnswer(o: Outcome) {
    o == RunEnded || o == CallDeadline || o == Refused || o == NoKey || o == LimiterFailed || o == SleepEnded
  }

  /** The answers an exchange may end the call with, `left` being what remains of the wait budget. */
  predicate Concludes(x: Exchange, attempt: nat, left: int, o: Outcome) {
    match x.response
    case Broken => o == RunEnded || o == CallDeadline || o == SleepEnded || o == TransportFailed
    case Answered(status, _) =>
      if 200 <= status < 300 then o == Body
      else if status == 429 then
        o == RateLimited(attempt, WaitOf(x), true) || (WaitOf(x) <= left && o == RunEnded)
      else if status >= 500 then o == SleepEnded
      else o == StatusError(status)
  }

  /** What one answered attempt may do: end the call, or ask for another attempt after paying the wait. */
  predicate Settled(x: Exchange, attempt: nat, paid: int, step: Step, slept: seq<int>, opts: Settings) {
    && (step.Return? ==> Concludes(x, attempt, opts.retryWaitBudget - paid, step.o))
    && (step.Continue? ==> Retryable(x.response) && step.lastErr == ErrorOf(x, attempt))
    && (step.Continue? && Limited(x.response) ==> WaitOf(x) <= opts.retryWaitBudget - paid)
    && (step.Continue? && attempt < opts.maxAttempts ==> slept == Waits([x]))
    && (slept == [] || (slept == Waits([x]) && Limited(x.response) && paid + WaitOf(x) <= opts.retryWaitBudget))
  }

  /** Between attempts: every exchange asked for another, and every wait they asked for was paid within the budget. */
  ghost predicate Ongoing(h: seq<Exchange>, slept: seq<int>, paid: int, opts: Settings) {
    && (forall i | 0 <= i < |h| :: Retryable(h[i].response))
    && slept == Waits(h)
    && paid == Sum(slept) <= opts.retryWaitBudget
  }

  lemma JustOne(x: Exchange, consecutive: nat)
    ensures Waits([x]) == if Limited(x.response) then [WaitOf(x)] else []
    ensures Limited(x.response) ==> Sum(Waits([x])) == WaitOf(x)
    ensures FailuresAfter(consecutive, [x])
         == if Success(x.response) then 0
            else if x.response.Answered? && (x.response.status == 429 || x.response.status == 403) then consecutive + 1
            else consecutive
  {
    assert [x][..0] == [];
    if Limited(x.response) {
      assert [WaitOf(x)][..0] == [];
    }
  }

  lemma Extends(h: seq<Exchange>, x: Exchange, consecutive: nat)
    ensures Waits(h + [x]) == Waits(h) + Waits([x])
    ensures FailuresAfter(consecutive, h + [x]) == FailuresAfter(FailuresAfter(consecutive, h), [x])
  {
    assert (h + [x])[..|h|] == h;
    JustOne(x, FailuresAfter(consecutive, h));
  }

  lemma SumSnoc(s: seq<int>, w: int)
    ensures Sum(s + [w]) == Sum(s) + w
  {
    assert (s + [w])[..|s|] == s;
  }

  /** What the history says once one more exchange has been settled. */
  lemma Concluding(front: seq<Exchange>, x: Exchange, attempt: nat, paid: int, step: Step, more: seq<int>,
      opts: Settings)
    requires Ongoing(front, Waits(front), paid, opts) && Settled(x, attempt, paid, step, more, opts)
    ensures Waits(front + [x]) == Waits(front) + Waits([x])
    ensures Waits(front) + more <= Waits(front + [x])
    ensures |Waits(front + [x])| <= |Waits(front) + more| + 1
    ensures Sum(Waits(front) + more) == paid + Sum(more) <= opts.retryWaitBudget
    ensures Limited(x.response) ==> Sum(Waits(front + [x])) == paid + WaitOf(x)
  {
    Extends(front, x, 0);
    JustOne(x, 0);
    if Limited(x.response) {
      SumSnoc(Waits(front), WaitOf(x));
    }
    if more == [] {
      assert Waits(front) + more == Waits(front);
    }
  }

  /** What the outcome tells about the last of `n` round trips, `total` being all the waits the call was asked for. */
  predicate Verdict(o: Outcome, last: Exchange, n: nat, total: int, opts: Settings) {
    && (o == Body <==> Success(last.response))
    && (o.StatusError? ==> last.response.Answered? && last.response.status == o.status)
    && (o.RateLimited? ==> Limited(last.response) && o.attempts == n && o.retryAfter == WaitOf(last))
    && (Limited(last.response) && total > opts.retryWaitBudget ==> o == RateLimited(n, WaitOf(last), true))
  }

  /** The waits the call slept: all it was asked for except perhaps the last, and never more than the budget. */
  predicate Afforded(h: seq<Exchange>, slept: seq<int>, opts: Settings) {
    slept <= Waits(h) && |Waits(h)| <= |slept| + 1 && Sum(slept) <= opts.retryWaitBudget
  }

  predicate Retried(h: seq<Exchange>) {
    forall i | 0 <= i < |h| - 1 :: Retryable(h[i].response)
  }

  /** Without any round trip there is no success, no status and no 429 to report. */
  predicate Explained(o: Outcome, h: seq<Exchange>, opts: Settings) {
    if h == [] then o != Body && !o.StatusError? && !o.RateLimited?
    else Verdict(o, h[|h| - 1], |h|, Sum(Waits(h)), opts)
  }

  lemma NoAnswer(h: seq<Exchange>, paid: int, o: Outcome, opts: Settings)
    requires Ongoing(h, Waits(h), paid, opts) && EndsWithoutAnswer(o)
    ensures Afforded(h, Waits(h), opts) && Retried(h) && Explained(o, h, opts)
  {
  }

  predicate LastWordOf(step: Step, o: Outcome) {
    match step
    case Return(answer) => o == answer
    case Continue(lastErr) => o == lastErr || (lastErr.RateLimited? && o == lastErr.(suspended := true))
  }

  lemma SettledVerdict(x: Exchange, attempt: nat, paid: int, step: Step, more: seq<int>, opts: Settings, o: Outcome)
    requires Settled(x, attempt, paid, step, more, opts) && LastWordOf(step, o)
    ensures Verdict(o, x, attempt, paid + (if Limited(x.response) then WaitOf(x) else 0), opts)
  {
  }

  lemma Affords(front: seq<Exchange>, x: Exchange, attempt: nat, paid: int, step: Step, more: seq<int>, opts: Settings)
    requires Ongoing(front, Waits(front), paid, opts) && Settled(x, attempt, paid, step, more, opts)
    ensures Afforded(front + [x], Waits(front) + more, opts) && Retried(front + [x])
  {
    Concluding(front, x, attempt, paid, step, more, opts);
    assert forall i | 0 <= i < |front| :: (front + [x])[i] == front[i];
  }

  lemma Explains(front: seq<Exchange>, x: Exchange, attempt: nat, paid: int, step: Step, more: seq<int>,
      opts: Settings, o: Outcome)
    requires Ongoing(front, Waits(front), paid, opts) && Settled(x, attempt, paid, step, more, opts)
    requires attempt == |front| + 1
    requires LastWordOf(step, o)
    ensures Explained(o, front + [x], opts)
  {
    Concluding(front, x, attempt, paid, step, more, opts);
    SettledVerdict(x, attempt, paid, step, more, opts, o);
    assert (front + [x])[|front|] == x;
  }

  lemma Concluded(front: seq<Exchange>, x: Exchange, attempt: nat, paid: int, step: Step, more: seq<int>,
      opts: Settings, o: Outcome)
    requires Ongoing(front, Waits(front), paid, opts) && Settled(x, attempt, paid, step, more, opts)
    requires attempt == |front| + 1
    requires LastWordOf(step, o)
    ensures Afforded(front + [x], Waits(front) + more, opts) && Retried(front + [x]) && Explained(o, front + [x], opts)
  {
    Affords(front, x, attempt, paid, step, more, opts);
    Explains(front, x, attempt, paid, step, more, opts, o);
  }

  lemma GoesOn(front: seq<Exchange>, x: Exchange, attempt: nat, paid: int, step: Step, more: seq<int>, opts: Settings)
    requires Ongoing(front, Waits(front), paid, opts) && Settled(x, attempt, paid, step, more, opts)
    requires step.Continue? && attempt < opts.maxAttempts
    ensures Ongoing(front + [x], Waits(front) + more, paid + Sum(more), opts)
  {
    Concluding(front, x, attempt, paid, step, more, opts);
    assert forall i | 0 <= i < |front| :: (front + [x])[i] == front[i];
  }

  class Caller {
    const opts: Settings
    const breaker: CircuitBreaker
    const limiter: Limiter

    constructor (opts: Settings, breaker: CircuitBreaker, limiter: Limiter)
      ensures this.opts == opts && this.breaker == breaker && this.limiter == limiter
    {
      this.opts := opts;
      this.breaker := breaker;
      this.limiter := limiter;
    }

    predicate Valid()
      reads this
    {
      Sane(breaker.cfg) && opts.retryWaitBudget >= 0
    }

    /** One HTTP round trip. Nothing may be sent while the breaker is open. */
    method RoundTrip() returns (x: Exchange)
      requires breaker.openUntil <= breaker.clock.now
      modifies breaker.clock
      ensures breaker.clock.now >= old(breaker.clock.now)
      ensures x.backoff >= 0
    {
      breaker.clock.Tick();
      var response: Response := *;
      var backoff: int :| backoff >= 0;
      x := Exchange(response, backoff);
    }

    /** `sleep`: a wait that is not positive returns at once. */
    method Pause(d: int) returns (ok: bool)
      modifies breaker.clock
      ensures breaker.clock.now >= old(breaker.clock.now)
      ensures ok && d > 0 ==> breaker.clock.now >= old(breaker.clock.now) + d
      ensures d <= 0 ==> ok
    {
      if d <= 0 {
        return true;
      }
      ok := breaker.clock.Sleep(d);
    }

    /** Everything before the request goes out: the breaker, the key, the limiter's slot. */
    method Prepare() returns (stopped: Option<Outcome>)
      requires Valid()
      modifies breaker.clock
      ensures breaker.View() == old(breaker.View())
      ensures breaker.clock.now >= old(breaker.clock.now)
      ensures stopped.None? ==> breaker.openUntil <= breaker.clock.now
      ensures stopped.Some? ==> EndsWithoutAnswer(stopped.value)
      ensures old(breaker.openUntil > breaker.clock.now && breaker.backoff >= breaker.cfg.maxWait)
        <==> stopped == Some(Refused)
    {
      var verdict := breaker.Allow();
      if verdict == CircuitOpen {
        return Some(Refused);
      }
      if verdict == ContextEnded {
        return Some(RunEnded);
      }
      var keyed: bool := *;
      if !keyed {
        return Some(NoKey);
      }
      breaker.clock.Tick();
      var waited: bool := *;
      if !waited {
        var o := OwnDeadline(LimiterFailed);
        return Some(o);
      }
      stopped := None;
    }

    /** What a 429 sets in motion: the limiter is penalised, the breaker told, and the wait paid if it fits. */
    method AfterLimited(x: Exchange, attempt: nat, paid: int) returns (step: Step, slept: seq<int>)
      requires Valid() && Limited(x.response)
      modifies breaker, breaker.clock, limiter
      ensures limiter.penalties == old(limiter.penalties) + [WaitOf(x)]
      ensures breaker.consecutive == old(breaker.consecutive) + 1
      ensures slept == [] || (slept == [WaitOf(x)] && paid + WaitOf(x) <= opts.retryWaitBudget)
      ensures step.Return? ==> Concludes(x, attempt, opts.retryWaitBudget - paid, step.o)
      ensures step.Continue? ==> step.lastErr == ErrorOf(x, attempt) && WaitOf(x) <= opts.retryWaitBudget - paid
      ensures step.Continue? && attempt < opts.maxAttempts ==> slept == [WaitOf(x)]
    {
      slept := [];
      var wait := WaitOf(x);
      var suspended := wait > opts.retryWaitBudget - paid;
      limiter.Penalize(wait);
      var tripped := breaker.Record(false);
      if suspended {
        return Return(RateLimited(attempt, wait, true)), slept;
      }
      if attempt >= opts.maxAttempts {
        return Continue(RateLimited(attempt, wait, false)), slept;
      }
      slept := [wait];
      var ok := Pause(wait);
      if !ok {
        var parent: bool := *;
        return Return(if parent then RunEnded else RateLimited(attempt, wait, true)), slept;
      }
      step := Continue(RateLimited(attempt, wait, false));
    }

    method AfterRetryable(x: Exchange, attempt: nat) returns (step: Step)
      requires Retryable(x.response) && !Limited(x.response)
      modifies breaker.clock
      ensures step.Return? ==> step.o == SleepEnded
      ensures step.Continue? ==> step.lastErr == ErrorOf(x, attempt)
    {
      if attempt >= opts.maxAttempts {
        return Continue(ErrorOf(x, attempt));
      }
      var ok := Pause(x.backoff);
      step := if ok then Continue(ErrorOf(x, attempt)) else Return(SleepEnded);
    }

    /** One round trip and what follows from it. */
    method Answer(x: Exchange, attempt: nat, paid: int) returns (step: Step, slept: seq<int>)
      requires Valid()
      modifies breaker, breaker.clock, limiter
      ensures limiter.penalties == old(limiter.penalties) + Waits([x])
      ensures breaker.consecutive == FailuresAfter(old(breaker.consecutive), [x])
      ensures Settled(x, attempt, paid, step, slept, opts)
    {
      JustOne(x, breaker.consecutive);
      slept := [];
      if x.response.Broken? {
        var cut: bool := *;
        if cut {
          var o := OwnDeadline(CallDeadline);
          return Return(o), slept;
        }
        step := AfterRetryable(x, attempt);
      } else if Success(x.response) {
        breaker.Succeed();
        step := Return(Body);
      } else if Limited(x.response) {
        step, slept := AfterLimited(x, attempt, paid);
      } else if x.response.status >= 500 {
        step := AfterRetryable(x, attempt);
      } else {
        if x.response.status == 403 {
          var tripped := breaker.Record(true);
        }
        step := Return(StatusError(x.response.status));
      }
    }

    /** One turn of the loop. */
    method Attempt(attempt: nat, paid: int) returns (sent: seq<Exchange>, step: Step, slept: seq<int>)
      requires Valid()
      modifies breaker, breaker.clock, limiter
      ensures |sent| <= 1
      ensures limiter.penalties == old(limiter.penalties) + Waits(sent)
      ensures breaker.consecutive == FailuresAfter(old(breaker.consecutive), sent)
      ensures old(breaker.openUntil > breaker.clock.now && breaker.backoff >= breaker.cfg.maxWait) ==>
                sent == [] && step == Return(Refused)
      ensures sent == [] ==> step.Return? && EndsWithoutAnswer(step.o) && slept == []
      ensures sent != [] ==> Settled(sent[0], attempt, paid, step, slept, opts)
    {
      var stopped := Prepare();
      if stopped.Some? {
        return [], Return(stopped.value), [];
      }
      var x := RoundTrip();
      sent := [x];
      step, slept := Answer(x, attempt, paid);
    }

    /**
     * The whole call. `h` is every round trip it made and `slept` every wait it paid for a 429: at most
     * MaxAttempts round trips, waits within the budget, a success only for a 2xx answer, a 429 whose wait
     * does not fit given back as suspended, and every 429's wait, no more and no less, told to the limiter.
     */
    method Do() returns (o: Outcome, ghost h: seq<Exchange>, ghost slept: seq<int>)
      requires Valid()
      modifies breaker, breaker.clock, limiter
      ensures |h| <= if opts.maxAttempts < 0 then 0 else opts.maxAttempts
      ensures limiter.penalties == old(limiter.penalties) + Waits(h)
      ensures breaker.consecutive == FailuresAfter(old(breaker.consecutive), h)
      ensures Afforded(h, slept, opts) && Retried(h) && Explained(o, h, opts)
    {
      var paid, attempt := 0, 1;
      h, slept := [], [];
      while attempt <= opts.maxAttempts
        invariant 1 <= attempt && |h| == attempt - 1 <= if opts.maxAttempts < 0 then 0 else opts.maxAttempts
        invariant limiter.penalties == old(limiter.penalties) + Waits(h)
        invariant breaker.consecutive == FailuresAfter(old(breaker.consecutive), h)
        invariant Ongoing(h, slept, paid, opts)
        invariant attempt > opts.maxAttempts ==> opts.maxAttempts < 1
      {
        var done;
        done, o, paid, h, slept := Turn(attempt, paid, h, slept, old(breaker.consecutive), old(limiter.penalties));
        if done {
          return;
        }
        attempt := attempt + 1;
      }
      o := NoAttempt;
    }

    /** One pass through the loop, with the history the call has so far. */
    method Turn(attempt: nat, paid: int, ghost h: seq<Exchange>, ghost slept: seq<int>, ghost failures: nat,
        ghost penalties: seq<int>)
      returns (done: bool, o: Outcome, spent: int, ghost now: seq<Exchange>, ghost paidFor: seq<int>)
      requires Valid() && attempt == |h| + 1 <= opts.maxAttempts && Ongoing(h, slept, paid, opts)
      requires limiter.penalties == penalties + Waits(h) && breaker.consecutive == FailuresAfter(failures, h)
      modifies breaker, breaker.clock, limiter
      ensures limiter.penalties == penalties + Waits(now) && breaker.consecutive == FailuresAfter(failures, now)
      ensures done ==> |now| <= attempt && Afforded(now, paidFor, opts) && Retried(now) && Explained(o, now, opts)
      ensures !done ==> |now| == attempt < opts.maxAttempts && Ongoing(now, paidFor, spent, opts)
    {
      var sent, step, more := Attempt(attempt, paid);
      o, spent, now, paidFor := NoAttempt, paid, h, slept;
      if sent == [] {
        NoAnswer(h, paid, step.o, opts);
        return true, step.o, spent, now, paidFor;
      }
      var x := sent[0];
      assert sent == [x];
      Extends(h, x, failures);
      Regroup(penalties, Waits(h), Waits([x]));
      now, paidFor := h + [x], slept + more;
      done := step.Return? || attempt == opts.maxAttempts;
      if done {
        o := LastWord(step);
        Concluded(h, x, attempt, paid, step, more, opts, o);
      } else {
        GoesOn(h, x, attempt, paid, step, more, opts);
        spent := paid + Sum(more);
      }
    }

    /** The answer of a concluded call: after the last attempt a 429 whose call ran out of time is marked suspended. */
    method LastWord(step: Step) returns (o: Outcome)
      ensures LastWordOf(step, o)
    {
      if step.Return? {
        return step.o;
      }
      var expired: bool := *;
      o := if step.lastErr.RateLimited? && expired then step.lastErr.(suspended := true) else step.lastErr;
    }
  }
}
