/** The circuit breaker: how long it holds a caller whose requests keep failing. Times are nanoseconds. */
module Breaker {
  import opened Doubling

  const SECOND := 1000000000

  datatype Config = Config(threshold: int, cooldown: int, maxWait: int)

  predicate Sane(cfg: Config) {
    cfg.threshold >= 1 && cfg.cooldown >= 1 && cfg.maxWait >= 1
  }

  /** `newBreaker`: a setting that is not positive falls back to its default. */
  function Defaulted(cfg: Config): (r: Config)
    ensures Sane(r)
  {
    Config(if cfg.threshold <= 0 then 5 else cfg.threshold,
           if cfg.cooldown <= 0 then 30 * SECOND else cfg.cooldown,
           if cfg.maxWait <= 0 then 120 * SECOND else cfg.maxWait)
  }

  /** `openUntil` is 0 for the zero time, which lies before every clock reading. */
  datatype State = State(consecutive: nat, openUntil: nat, backoff: nat, trips: nat)

  const CLOSED := State(0, 0, 0, 0)

  function NextBackoff(backoff: nat, cfg: Config, auth: bool): nat
    requires Sane(cfg)
  {
    if auth then cfg.maxWait
    else if backoff <= 0 then Min(cfg.cooldown, cfg.maxWait)
    else if backoff < cfg.maxWait then Min(backoff * 2, cfg.maxWait)
    else backoff
  }

  function Recorded(s: State, cfg: Config, auth: bool, now: nat): State
    requires Sane(cfg)
  {
    if s.consecutive + 1 < cfg.threshold then s.(consecutive := s.consecutive + 1)
    else
      var b := NextBackoff(s.backoff, cfg, auth);
      State(s.consecutive + 1, now + b, b, s.trips + 1)
  }

  class Clock {
    var now: nat

    constructor (start: nat)
      ensures now == start
    {
      now := start;
    }

    /** Sleeping takes at least the time asked for unless the context ends first; time never runs backwards. */
    method Sleep(d: nat) returns (ok: bool)
      modifies this
      ensures now >= old(now)
      ensures ok ==> now >= old(now) + d
    {
      var elapsed: int :| elapsed >= 0;
      now := now + elapsed;
      ok := elapsed >= d;
    }

    method Tick()
      modifies this
      ensures now >= old(now)
    {
      var elapsed: int :| elapsed >= 0;
      now := now + elapsed;
    }
  }

  datatype Verdict = Admitted | ContextEnded | CircuitOpen

  class CircuitBreaker {
    const cfg: Config
    const clock: Clock
    var consecutive: nat
    var openUntil: nat
    var backoff: nat
    var trips: nat

    constructor (clock: Clock, cfg: Config)
      ensures this.clock == clock && this.cfg == Defaulted(cfg)
      ensures View() == CLOSED
    {
      this.clock := clock;
      this.cfg := Defaulted(cfg);
      consecutive, openUntil, backoff, trips := 0, 0, 0, 0;
    }

    function View(): State
      reads this
    {
      State(consecutive, openUntil, backoff, trips)
    }

    method Record(auth: bool) returns (tripped: bool)
      requires Sane(cfg)
      modifies this
      ensures View() == Recorded(old(View()), cfg, auth, clock.now)
      ensures tripped <==> old(consecutive) + 1 >= cfg.threshold
    {
      consecutive := consecutive + 1;
      if consecutive < cfg.threshold {
        return false;
      }
      if auth {
        backoff := cfg.maxWait;
      } else if backoff <= 0 {
        backoff := Min(cfg.cooldown, cfg.maxWait);
      } else if backoff < cfg.maxWait {
        backoff := Min(backoff * 2, cfg.maxWait);
      }
      openUntil := clock.now + backoff;
      trips := trips + 1;
      tripped := true;
    }

    /** One good answer forgets every failure; only the trip counter stays. */
    method Succeed()
      modifies this
      ensures View() == CLOSED.(trips := old(trips))
    {
      consecutive, openUntil, backoff := 0, 0, 0;
    }

    method Probe() returns (wait: nat, stop: bool)
      ensures wait == if openUntil <= clock.now then 0 else openUntil - clock.now
      ensures stop <==> openUntil > clock.now && backoff >= cfg.maxWait
    {
      if openUntil <= clock.now {
        return 0, false;
      }
      wait, stop := openUntil - clock.now, backoff >= cfg.maxWait;
    }

    /**
     * Nothing is admitted inside a window. A caller that meets an open breaker sleeps the window out
     * while the backoff can still grow, and is refused at once, without sleeping, when it cannot.
     */
    method Allow() returns (v: Verdict)
      modifies clock
      ensures View() == old(View())
      ensures clock.now >= old(clock.now)
      ensures v == Admitted ==> openUntil <= clock.now
      ensures old(openUntil > clock.now && backoff >= cfg.maxWait) <==> v == CircuitOpen
      ensures v == CircuitOpen ==> clock.now == old(clock.now)
    {
      while true
        invariant View() == old(View())
        invariant clock.now >= old(clock.now)
        invariant openUntil > clock.now ==> clock.now == old(clock.now)
        invariant clock.now != old(clock.now) ==> !old(openUntil > clock.now && backoff >= cfg.maxWait)
        decreases if openUntil > clock.now then 1 else 0
      {
        var wait, stop := Probe();
        if wait <= 0 {
          var ended: bool := *;
          return if ended then ContextEnded else Admitted;
        }
        if stop {
          return CircuitOpen;
        }
        var ok := clock.Sleep(wait);
        if !ok {
          return ContextEnded;
        }
      }
    }
  }

  // ---------------------------------------------------------------- runs of failures

  /** One request of a sequential caller: when it was let through, when its failure was recorded, and of which kind. */
  datatype Failure = Failure(admitted: nat, answered: nat, auth: bool)

  function After(cfg: Config, start: State, run: seq<Failure>): State
    requires Sane(cfg)
  {
    if run == [] then start
    else
      var last := run[|run| - 1];
      Recorded(After(cfg, start, run[..|run| - 1]), cfg, last.auth, last.answered)
  }

  /** Request i met no open window: it was admitted by `Allow` on the state the earlier answers left. */
  predicate LetThrough(cfg: Config, start: State, run: seq<Failure>, i: nat)
    requires Sane(cfg) && i < |run|
  {
    After(cfg, start, run[..i]).openUntil <= run[i].admitted
  }

  /** One request at a time, each let through. */
  predicate Sequential(cfg: Config, start: State, run: seq<Failure>)
    requires Sane(cfg)
  {
    && (forall i | 0 <= i < |run| :: run[i].admitted <= run[i].answered)
    && (forall i | 0 < i < |run| :: run[i - 1].answered <= run[i].admitted)
    && (forall i | 0 <= i < |run| :: LetThrough(cfg, start, run, i))
  }

  predicate JustClosed(s: State) {
    s.consecutive == 0 && s.openUntil == 0 && s.backoff == 0
  }

  lemma BackoffClimbs(cfg: Config, backoff: nat, k: nat, auth: bool)
    requires Sane(cfg) && backoff <= cfg.maxWait
    requires if k == 0 then backoff == 0 else backoff >= Capped(cfg.cooldown, cfg.maxWait, k)
    ensures Capped(cfg.cooldown, cfg.maxWait, k + 1) <= NextBackoff(backoff, cfg, auth) <= cfg.maxWait
    ensures !auth && (k == 0 || backoff == Capped(cfg.cooldown, cfg.maxWait, k)) ==>
              NextBackoff(backoff, cfg, auth) == Capped(cfg.cooldown, cfg.maxWait, k + 1)
  {
    if k == 0 {
      assert cfg.cooldown * Pow2(0) == cfg.cooldown;
    } else {
      CappedDoubles(cfg.cooldown, cfg.maxWait, k);
    }
  }

  function TripsOf(cfg: Config, n: nat): nat
    requires Sane(cfg)
  {
    if n < cfg.threshold then 0 else n - cfg.threshold + 1
  }

  /**
   * After n failures in a row the k-th window is at least the k-th capped doubling, and exactly it without
   * refusals.
   */
  lemma {:induction false} BackoffAfter(cfg: Config, start: State, run: seq<Failure>)
    requires Sane(cfg) && JustClosed(start)
    ensures After(cfg, start, run).consecutive == |run|
    ensures After(cfg, start, run).trips == start.trips + TripsOf(cfg, |run|)
    ensures After(cfg, start, run).backoff <= cfg.maxWait
    ensures |run| < cfg.threshold ==> After(cfg, start, run).backoff == 0 && After(cfg, start, run).openUntil == 0
    ensures |run| >= cfg.threshold ==>
      After(cfg, start, run).backoff >= Capped(cfg.cooldown, cfg.maxWait, TripsOf(cfg, |run|))
    ensures |run| >= cfg.threshold ==>
      After(cfg, start, run).openUntil == run[|run| - 1].answered + After(cfg, start, run).backoff
    ensures |run| >= cfg.threshold && (forall f | f in run :: !f.auth) ==>
      After(cfg, start, run).backoff == Capped(cfg.cooldown, cfg.maxWait, TripsOf(cfg, |run|))
  {
    if run != [] {
      var front, last := run[..|run| - 1], run[|run| - 1];
      BackoffAfter(cfg, start, front);
      assert last in run && forall f | f in front :: f in run;
      if |run| >= cfg.threshold {
        BackoffClimbs(cfg, After(cfg, start, front).backoff, TripsOf(cfg, |front|), last.auth);
      }
    }
  }

  /** b1 + ... + bk. */
  function Windows(cfg: Config, k: nat): nat
    requires Sane(cfg)
  {
    if k == 0 then 0
    else
      CappedDoubles(cfg.cooldown, cfg.maxWait, k);
      Windows(cfg, k - 1) + Capped(cfg.cooldown, cfg.maxWait, k)
  }

  /** Request number threshold + k is let through no earlier than the first one plus the first k windows. */
  lemma {:induction false} AdmissionsAreSpaced(cfg: Config, start: State, run: seq<Failure>, k: nat)
    requires Sane(cfg) && JustClosed(start) && Sequential(cfg, start, run)
    requires cfg.threshold - 1 + k < |run|
    ensures run[cfg.threshold - 1 + k].admitted >= run[0].admitted + Windows(cfg, k)
    decreases k
  {
    var i := cfg.threshold - 1 + k;
    if k == 0 {
      InOrder(cfg, start, run, i);
    } else {
      AdmissionsAreSpaced(cfg, start, run, k - 1);
      BackoffAfter(cfg, start, run[..i]);
      assert TripsOf(cfg, i) == k && LetThrough(cfg, start, run, i);
      assert run[..i][i - 1] == run[i - 1];
    }
  }

  lemma {:induction false} InOrder(cfg: Config, start: State, run: seq<Failure>, i: nat)
    requires Sane(cfg) && Sequential(cfg, start, run) && i < |run|
    ensures run[0].admitted <= run[i].admitted
  {
    if i > 0 {
      InOrder(cfg, start, run, i - 1);
    }
  }

  /** How many windows fit into a span: the number of k >= 1 with b1 + ... + bk within it, counted from `k`. */
  function Fitting(cfg: Config, span: nat, k: nat): nat
    requires Sane(cfg) && Windows(cfg, k) <= span
    decreases span - Windows(cfg, k)
  {
    CappedDoubles(cfg.cooldown, cfg.maxWait, k + 1);
    if Windows(cfg, k + 1) > span then k else Fitting(cfg, span, k + 1)
  }

  lemma {:induction false} WindowsGrow(cfg: Config, j: nat, k: nat)
    requires Sane(cfg) && j <= k
    ensures Windows(cfg, j) <= Windows(cfg, k)
    decreases k
  {
    if j < k {
      WindowsGrow(cfg, j, k - 1);
      CappedDoubles(cfg.cooldown, cfg.maxWait, k);
    }
  }

  /** `Fitting` is that count: exactly the first so many windows fit. */
  lemma {:induction false} FittingCounts(cfg: Config, span: nat, from: nat, k: nat)
    requires Sane(cfg) && Windows(cfg, from) <= span
    ensures Windows(cfg, k) <= span <==> k <= Fitting(cfg, span, from)
    decreases span - Windows(cfg, from)
  {
    CappedDoubles(cfg.cooldown, cfg.maxWait, from + 1);
    if Windows(cfg, from + 1) > span {
      if k <= from {
        WindowsGrow(cfg, k, from);
      } else {
        WindowsGrow(cfg, from + 1, k);
      }
    } else {
      FittingCounts(cfg, span, from + 1, k);
    }
  }

  /** The rate a broken key is used at: by time t, threshold requests and one more for every window that has passed. */
  lemma RequestsAreBounded(cfg: Config, start: State, run: seq<Failure>, span: nat)
    requires Sane(cfg) && JustClosed(start) && Sequential(cfg, start, run) && run != []
    requires run[|run| - 1].admitted <= run[0].admitted + span
    ensures |run| <= cfg.threshold + Fitting(cfg, span, 0)
  {
    if |run| > cfg.threshold {
      var k := |run| - cfg.threshold;
      AdmissionsAreSpaced(cfg, start, run, k);
      FittingCounts(cfg, span, 0, k);
    }
  }

  /** A refused key is answered with the longest window at its first trip, after which the breaker stops callers. */
  lemma RefusalSaturates(cfg: Config, start: State, run: seq<Failure>)
    requires Sane(cfg) && JustClosed(start) && |run| >= cfg.threshold && run[|run| - 1].auth
    ensures After(cfg, start, run).backoff == cfg.maxWait
    ensures After(cfg, start, run).openUntil == run[|run| - 1].answered + cfg.maxWait
  {
    BackoffAfter(cfg, start, run[..|run| - 1]);
  }

  lemma AfterOneMore(cfg: Config, start: State, run: seq<Failure>, f: Failure)
    requires Sane(cfg)
    ensures After(cfg, start, run + [f]) == Recorded(After(cfg, start, run), cfg, f.auth, f.answered)
  {
    assert (run + [f])[..|run|] == run;
  }

  lemma OneMoreFailure(cfg: Config, start: State, run: seq<Failure>, f: Failure)
    requires Sane(cfg) && Sequential(cfg, start, run) && f.admitted <= f.answered
    requires run != [] ==> run[|run| - 1].answered <= f.admitted
    requires After(cfg, start, run).openUntil <= f.admitted
    ensures Sequential(cfg, start, run + [f])
  {
    forall i | 0 <= i < |run + [f]|
      ensures LetThrough(cfg, start, run + [f], i)
    {
      AdmittedStill(cfg, start, run, f, i);
    }
  }

  lemma AdmittedStill(cfg: Config, start: State, run: seq<Failure>, f: Failure, i: nat)
    requires Sane(cfg) && i <= |run|
    requires i < |run| ==> LetThrough(cfg, start, run, i)
    requires After(cfg, start, run).openUntil <= f.admitted
    ensures LetThrough(cfg, start, run + [f], i)
  {
    if i < |run| {
      assert (run + [f])[..i] == run[..i];
    } else {
      assert (run + [f])[..i] == run;
    }
  }

  /**
   * A sequential caller asks the breaker itself, `tries` times, and every request that is let through is limited or
   * refused. What it does is such a run, and so it gets no more through than the windows allow.
   */
  method MeetOnlyFailures(breaker: CircuitBreaker, tries: nat) returns (sent: nat, first: nat, ghost run: seq<Failure>)
    requires Sane(breaker.cfg) && JustClosed(breaker.View())
    modifies breaker, breaker.clock
    ensures sent == |run| <= tries && Sequential(breaker.cfg, old(breaker.View()), run)
    ensures breaker.View() == After(breaker.cfg, old(breaker.View()), run)
    ensures sent > 0 ==> first == run[0].admitted <= breaker.clock.now
    ensures sent > 0 ==> sent <= breaker.cfg.threshold + Fitting(breaker.cfg, breaker.clock.now - first, 0)
  {
    ghost var start := breaker.View();
    sent, first, run := 0, 0, [];
    for i := 0 to tries
      invariant sent == |run| <= i && Sequential(breaker.cfg, start, run)
      invariant breaker.View() == After(breaker.cfg, start, run)
      invariant run != [] ==> run[|run| - 1].answered <= breaker.clock.now
      invariant run != [] ==> first == run[0].admitted <= run[|run| - 1].admitted
    {
      breaker.clock.Tick();
      var verdict := breaker.Allow();
      if verdict == Admitted {
        var admitted := breaker.clock.now;
        if sent == 0 {
          first := admitted;
        }
        breaker.clock.Tick();
        var auth: bool := *;
        ghost var f := Failure(admitted, breaker.clock.now, auth);
        OneMoreFailure(breaker.cfg, start, run, f);
        AfterOneMore(breaker.cfg, start, run, f);
        var _ := breaker.Record(auth);
        run := run + [f];
        sent := sent + 1;
      }
    }
    if sent > 0 {
      RequestsAreBounded(breaker.cfg, start, run, breaker.clock.now - first);
    }
  }
}
