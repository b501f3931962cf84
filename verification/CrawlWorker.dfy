/**
 * The crawl worker itself: the store's guarded statements, the archive writer and the batch loop. Every effect
 * the worker has is recorded as a step of CrawlProtocol, so what is proved there for all runs holds for it.
 */
module CrawlWorker {
  import opened Options
  import opened PartLog
  import opened Archive
  import opened CrawlProtocol
  import opened CrawlSafety
  import opened CrawlShortcut

  /** One claimed row as the claim statement returned it. */
  datatype Item = Item(id: JobId, matchId: MatchId, attempts: nat)

  datatype Fetch = Fetched | NotFetched(err: FetchError)

  datatype Provenance = Known | Orphan | Unavailable

  // ---------------------------------------------------------------- the control plane

  /** What a claim query may return: distinct ready rows, no more than asked for. */
  predicate Sensible(rows: Queue, ids: seq<JobId>, limit: nat) {
    |ids| <= limit && Distinct(ids) && forall id | id in ids :: Ready(rows, id)
  }

  /** The claimed rows as the worker sees them, the charged attempt included. */
  function ItemsOf(rows: Queue, ids: seq<JobId>): seq<Item>
    requires forall i | 0 <= i < |ids| :: ids[i] in rows
  {
    seq(|ids|, i requires 0 <= i < |ids| => Item(ids[i], rows[ids[i]].matchId, rows[ids[i]].attempts + 1))
  }

  /** `fetch_queue` and `matches`. A call may fail, before or after it took effect. */
  class Store {
    var rows: Queue
    var matches: set<MatchId>

    constructor ()
      ensures rows == map[] && matches == {}
    {
      rows, matches := map[], {};
    }

    /** Complete, retry, dead-letter or release: one update guarded by `status = 'claimed'`. */
    method Update(id: JobId, to: Status, refund: bool) returns (ok: bool, ghost reply: Reply)
      modifies this`rows
      ensures ok == reply.Acked?
      ensures rows == LeaveIf(Applied(reply), old(rows), id, to, refund)
    {
      ok, reply := true, Acked;
      if * {
        ok, reply := false, Failed(false);
        return;
      }
      if id in rows && rows[id].status == Claimed {
        var row := rows[id];
        var attempts := if refund && row.attempts > 0 then row.attempts - 1 else row.attempts;
        rows := rows[id := row.(status := to, attempts := attempts)];
      }
      if * {
        ok, reply := false, Failed(true);
      }
    }

    method UpsertMatch(m: MatchId) returns (ok: bool, ghost reply: Reply)
      modifies this`matches
      ensures ok == reply.Acked?
      ensures matches == if Applied(reply) then old(matches) + {m} else old(matches)
    {
      ok, reply := true, Acked;
      if * {
        ok, reply := false, Failed(false);
        return;
      }
      matches := matches + {m};
      if * {
        ok, reply := false, Failed(true);
      }
    }

    /** Reserves some ready rows, at most `limit`; a failed call may have reserved them all the same. */
    method ClaimJobs(limit: nat) returns (ok: bool, items: seq<Item>, ghost ids: seq<JobId>)
      modifies this`rows
      ensures |ids| <= limit && Distinct(ids)
      ensures forall id | id in ids :: id in old(rows) && Ready(old(rows), id)
      ensures rows == Claimable(old(rows), ids)
      ensures ok ==> |items| == |ids|
      ensures ok ==> forall i | 0 <= i < |ids| ::
        items[i] == Item(ids[i], old(rows)[ids[i]].matchId, old(rows)[ids[i]].attempts + 1)
    {
      var found: seq<JobId> := *;
      if !Sensible(rows, found, limit) {
        found := [];
      }
      ids := found;
      assert forall i | 0 <= i < |found| :: found[i] in found && Ready(rows, found[i]);
      items := ItemsOf(rows, found);
      rows := Claimable(rows, found);
      ok := *;
    }

    /** `MatchExists`; a lookup that fails answers no. */
    method MatchExists(m: MatchId) returns (known: bool)
      ensures known ==> m in matches
    {
      known := false;
      if * {
        known := m in matches;
      }
    }
  }

  // ---------------------------------------------------------------- the archive writer of this process

  class RawWriter {
    var archive: Archive
    const rowsPerPart: nat

    constructor (onDisk: Archive, rowsPerPart: nat)
      ensures archive == AfterExit(onDisk) && this.rowsPerPart == rowsPerPart
    {
      archive := map d | d in onDisk :: Log(onDisk[d].published, None, 0);
      this.rowsPerPart := rowsPerPart;
    }

    method Write(d: Dir, m: MatchId, f: Faults) returns (ok: bool)
      modifies this
      ensures archive == AfterWrite(old(archive), d, m, rowsPerPart, f)
      ensures ok == WriteOk(old(archive), d, m, rowsPerPart, f)
    {
      var log := if d in archive then archive[d] else Empty();
      var (next, accepted) := AfterAppend(log, m, rowsPerPart, f);
      archive := archive[d := next];
      ok := accepted;
    }

    method Flush(failing: set<Dir>) returns (ok: bool)
      modifies this
      ensures archive == AfterFlush(old(archive), failing)
      ensures ok == FlushOk(old(archive), failing)
    {
      ok := forall d | d in archive && d in failing :: archive[d].open.None?;
      archive := map d | d in archive :: AfterFinalize(archive[d], d in failing);
    }
  }

  // ---------------------------------------------------------------- what others may do to the rows

  /** Rows are never removed, a live row keeps its counter, others only reclaim it, and only the worker claims. */
  ghost predicate RowsEvolve(before: Queue, now: Queue, own: set<JobId>) {
    forall id | id in before ::
      && id in now && now[id].matchId == before[id].matchId
      && (id !in own && before[id].status != Claimed ==> now[id].status != Claimed)
      && (id !in own && before[id].status != Dead ==>
            now[id] == before[id] || (before[id].status == Claimed && now[id] == before[id].(status := Retry)))
  }

  lemma EvolvesOn(a: Queue, b: Queue, c: Queue)
    requires RowsEvolve(a, b, {}) && RowsEvolve(b, c, {})
    ensures RowsEvolve(a, c, {})
  {
  }

  ghost predicate Holds(rows: Queue, item: Item) {
    && item.id in rows && rows[item.id].matchId == item.matchId && rows[item.id].attempts == item.attempts
    && (rows[item.id].status == Claimed || rows[item.id].status == Retry)
  }

  lemma HoldsSurvives(before: Queue, now: Queue, own: set<JobId>, item: Item)
    requires Holds(before, item) && RowsEvolve(before, now, own) && item.id !in own
    ensures Holds(now, item)
  {
  }

  /**
   * What holds of the rows when a batch has come to item i: claims in hand, and everything behind retained or
   * settled.
   */
  ghost predicate Standing(rows: Queue, items: seq<Item>, i: nat, retained: seq<Item>, stopped: bool)
    requires i <= |items|
  {
    && Distinct(Ids(items))
    && (forall j | i <= j < |items| :: Holds(rows, items[j]))
    && (forall j | 0 <= j < |retained| :: Holds(rows, retained[j]) && retained[j] in items[..i])
    && (!stopped ==> forall j | 0 <= j < i :: items[j] in retained || NotClaimed(rows, items[j].id))
  }

  predicate NotClaimed(rows: Queue, id: JobId) {
    id in rows && rows[id].status != Claimed
  }

  lemma NotClaimedSurvives(before: Queue, now: Queue, own: set<JobId>, id: JobId)
    requires NotClaimed(before, id) && RowsEvolve(before, now, own) && id !in own
    ensures NotClaimed(now, id)
  {
  }

  lemma StandingStays(before: Queue, now: Queue, items: seq<Item>, i: nat, retained: seq<Item>, was: bool,
      stopped: bool)
    requires i <= |items| && Standing(before, items, i, retained, was) && RowsEvolve(before, now, {})
    requires (was ==> stopped)
    ensures Standing(now, items, i, retained, stopped)
  {
    forall j | i <= j < |items|
      ensures Holds(now, items[j])
    {
      HoldsSurvives(before, now, {}, items[j]);
    }
    forall j | 0 <= j < |retained|
      ensures Holds(now, retained[j])
    {
      HoldsSurvives(before, now, {}, retained[j]);
    }
    forall j | 0 <= j < i && NotClaimed(before, items[j].id)
      ensures NotClaimed(now, items[j].id)
    {
      NotClaimedSurvives(before, now, {}, items[j].id);
    }
  }

  lemma StandingHeld(before: Queue, now: Queue, items: seq<Item>, i: nat, retained: seq<Item>, was: bool, stopped: bool)
    requires i < |items| && Standing(before, items, i, retained, was) && RowsEvolve(before, now, {})
    requires (was ==> stopped)
    ensures Standing(now, items, i + 1, retained + [items[i]], stopped)
    ensures Ids(retained + [items[i]]) == Ids(retained) + [items[i].id]
  {
    StandingStays(before, now, items, i, retained, was, stopped);
    assert items[..i + 1] == items[..i] + [items[i]];
  }

  lemma OthersHaveOtherIds(items: seq<Item>, i: nat, j: nat)
    requires Distinct(Ids(items)) && i < |items| && j < |items| && i != j
    ensures items[i].id != items[j].id
  {
    assert Ids(items)[j] == items[j].id && Ids(items)[i] == items[i].id;
  }

  /** A step that touches one item's row leaves the claims on the others as they are. */
  lemma HoldsAside(before: Queue, now: Queue, items: seq<Item>, k: nat)
    requires k < |items| && Distinct(Ids(items)) && before.Keys == now.Keys
    requires forall id | id in now && id != items[k].id :: now[id] == before[id]
    requires forall i | k <= i < |items| :: Holds(before, items[i])
    ensures forall i | k < i < |items| :: Holds(now, items[i])
  {
    forall i | k < i < |items|
      ensures Holds(now, items[i])
    {
      OthersHaveOtherIds(items, k, i);
    }
  }

  lemma StandingLeft(before: Queue, now: Queue, items: seq<Item>, i: nat, retained: seq<Item>, was: bool, stopped: bool)
    requires i < |items| && Standing(before, items, i, retained, was)
    requires RowsEvolve(before, now, {items[i].id}) && (was ==> stopped)
    requires !stopped ==> NotClaimed(now, items[i].id)
    ensures Standing(now, items, i + 1, retained, stopped)
  {
    var own := {items[i].id};
    assert items[..i + 1] == items[..i] + [items[i]];
    forall j | i < j < |items|
      ensures Holds(now, items[j])
    {
      OthersHaveOtherIds(items, i, j);
      HoldsSurvives(before, now, own, items[j]);
    }
    forall j | 0 <= j < |retained|
      ensures Holds(now, retained[j])
    {
      var k :| 0 <= k < i && items[k] == retained[j];
      OthersHaveOtherIds(items, i, k);
      HoldsSurvives(before, now, own, retained[j]);
    }
    forall j | 0 <= j < i && NotClaimed(before, items[j].id)
      ensures NotClaimed(now, items[j].id)
    {
      OthersHaveOtherIds(items, i, j);
      NotClaimedSurvives(before, now, own, items[j].id);
    }
  }

  // ---------------------------------------------------------------- one statement per row

  /** The rows after a series of guarded statements, each of which took effect or did not. */
  function LeaveEach(rows: Queue, ts: seq<Settlement>): Queue {
    if ts == [] then rows
    else
      var t := ts[|ts| - 1];
      LeaveIf(Applied(t.reply), LeaveEach(rows, ts[..|ts| - 1]), t.id, t.to, t.refund)
  }

  lemma OneMoreLeft(rows: Queue, ts: seq<Settlement>, t: Settlement)
    ensures LeaveEach(rows, ts + [t]) == LeaveIf(Applied(t.reply), LeaveEach(rows, ts), t.id, t.to, t.refund)
  {
    assert (ts + [t])[..|ts|] == ts;
  }

  predicate Names(ts: seq<Settlement>, id: JobId) {
    exists i | 0 <= i < |ts| :: ts[i].id == id
  }

  lemma {:induction false} UnnamedRowsStay(rows: Queue, ts: seq<Settlement>, id: JobId)
    requires id in rows && !Names(ts, id)
    ensures id in LeaveEach(rows, ts) && LeaveEach(rows, ts)[id] == rows[id]
  {
    if ts != [] {
      var front := ts[..|ts| - 1];
      assert forall i | 0 <= i < |front| :: front[i] == ts[i];
      UnnamedRowsStay(rows, front, id);
    }
  }

  /** With one statement per row, each row it reached is off its claim, and no row is touched by another's statement. */
  lemma {:induction false} EachRowLeavesOnItsOwn(rows: Queue, ts: seq<Settlement>, k: nat)
    requires k < |ts| && ts[k].id in rows && forall i, j | 0 <= i < j < |ts| :: ts[i].id != ts[j].id
    ensures ts[k].id in LeaveEach(rows, ts)
    ensures LeaveEach(rows, ts)[ts[k].id]
         == if Applied(ts[k].reply) then LeaveRow(rows[ts[k].id], ts[k].to, ts[k].refund) else rows[ts[k].id]
  {
    var front := ts[..|ts| - 1];
    assert forall i | 0 <= i < |front| :: front[i] == ts[i];
    if k == |ts| - 1 {
      UnnamedRowsStay(rows, front, ts[k].id);
    } else {
      EachRowLeavesOnItsOwn(rows, front, k);
    }
  }

  /** What is decided about a retained row whose flush failed: retired at the ceiling, requeued below it. */
  function Decision(item: Item, maxAttempts: nat, reply: Reply): Settlement {
    Settlement(item.id, if item.attempts >= maxAttempts then Dead else Retry, false, reply)
  }

  /** The first k items have had their decision carried to the store, one statement each, whatever it answered. */
  ghost predicate Abandoned(before: Queue, now: Queue, items: seq<Item>, k: nat, done: seq<Settlement>,
      maxAttempts: nat)
    requires k <= |items|
  {
    && |done| == k && now == LeaveEach(before, done)
    && forall i | 0 <= i < k :: done[i] == Decision(items[i], maxAttempts, done[i].reply)
  }

  lemma AbandonedOn(before: Queue, mid: Queue, now: Queue, items: seq<Item>, k: nat, done: seq<Settlement>,
      t: Settlement, maxAttempts: nat)
    requires k < |items| && Abandoned(before, mid, items, k, done, maxAttempts)
    requires t == Decision(items[k], maxAttempts, t.reply)
    requires now == LeaveIf(Applied(t.reply), mid, t.id, t.to, t.refund)
    ensures Abandoned(before, now, items, k + 1, done + [t], maxAttempts)
  {
    OneMoreLeft(before, done, t);
  }

  /** The first k items have been handed back with their attempt, whatever the store answered. */
  ghost predicate HandedBack(before: Queue, now: Queue, items: seq<Item>, k: nat, done: seq<Settlement>)
    requires k <= |items|
  {
    && |done| == k && now == LeaveEach(before, done)
    && forall i | 0 <= i < k :: done[i] == Settlement(items[i].id, Retry, true, done[i].reply)
  }

  lemma HandedBackOn(before: Queue, mid: Queue, now: Queue, items: seq<Item>, k: nat, done: seq<Settlement>,
      t: Settlement)
    requires k < |items| && HandedBack(before, mid, items, k, done)
    requires t == Settlement(items[k].id, Retry, true, t.reply)
    requires now == LeaveIf(Applied(t.reply), mid, t.id, t.to, t.refund)
    ensures HandedBack(before, now, items, k + 1, done + [t])
  {
    OneMoreLeft(before, done, t);
  }

  /** No row but those of the items may have changed. */
  ghost predicate OnlyThese(before: Queue, now: Queue, items: seq<Item>) {
    before.Keys == now.Keys && forall id | id in now && id !in Ids(items) :: now[id] == before[id]
  }

  /** The first k items are closed, the others are as they were. */
  ghost predicate Closed(before: Queue, now: Queue, items: seq<Item>, k: nat)
    requires k <= |items|
  {
    && OnlyThese(before, now, items)
    && (forall i | 0 <= i < |items| :: items[i].id in now)
    && (forall i | 0 <= i < k :: now[items[i].id] == LeaveRow(before[items[i].id], Done, false))
    && (forall i | k <= i < |items| :: now[items[i].id] == before[items[i].id])
  }

  lemma NothingClosed(rows: Queue, items: seq<Item>)
    requires forall id | id in Ids(items) :: id in rows
    ensures Closed(rows, rows, items, 0)
  {
    assert forall i | 0 <= i < |items| :: Ids(items)[i] == items[i].id && Ids(items)[i] in Ids(items);
  }

  /** Whatever the close of item k did, it did to that row. */
  lemma ClosedAside(before: Queue, mid: Queue, now: Queue, items: seq<Item>, k: nat)
    requires k < |items| && Distinct(Ids(items)) && Closed(before, mid, items, k)
    requires mid.Keys == now.Keys && forall id | id in now && id != items[k].id :: now[id] == mid[id]
    ensures OnlyThese(before, now, items)
  {
    assert Ids(items)[k] in Ids(items);
  }

  lemma ClosedOn(before: Queue, mid: Queue, now: Queue, items: seq<Item>, k: nat)
    requires k < |items| && Distinct(Ids(items)) && Closed(before, mid, items, k)
    requires mid.Keys == now.Keys && forall id | id in now && id != items[k].id :: now[id] == mid[id]
    requires now[items[k].id] == LeaveRow(mid[items[k].id], Done, false)
    ensures Closed(before, now, items, k + 1)
  {
    ClosedAside(before, mid, now, items, k);
    forall i | 0 <= i < |items| && i != k
      ensures now[items[i].id] == mid[items[i].id]
    {
      OthersHaveOtherIds(items, i, k);
    }
  }

  class Worker {
    const cfg: Config
    const jobBatch: nat
    const store: Store
    const writer: RawWriter
    /** Whether the run's context is cancelled. */
    var stopping: bool
    ghost const start: State
    ghost var phase: Phase
    ghost var trace: seq<Event>

    ghost function View(): State
      reads this, store, writer
    {
      State(store.rows, store.matches, writer.archive, phase, stopping)
    }

    /** The history is a run of the protocol that ends in the present state. */
    ghost predicate Valid()
      reads this, store, writer
    {
      && writer.rowsPerPart == cfg.rowsPerPart
      && Runs(cfg, start, trace) && After(cfg, start, trace) == View()
      && Tracked(View())
    }

    constructor (cfg: Config, jobBatch: nat, store: Store, writer: RawWriter)
      requires writer.rowsPerPart == cfg.rowsPerPart
      ensures Valid() && phase == Idle && trace == [] && !stopping
      ensures this.cfg == cfg && this.store == store && this.writer == writer && this.jobBatch == jobBatch
    {
      this.cfg, this.jobBatch, this.store, this.writer := cfg, jobBatch, store, writer;
      stopping, phase, trace := false, Idle, [];
      start := State(store.rows, store.matches, writer.archive, Idle, false);
    }

    /** Records one effect that has just been made. */
    ghost method Record(s: State, e: Event)
      requires writer.rowsPerPart == cfg.rowsPerPart
      requires Runs(cfg, start, trace) && After(cfg, start, trace) == s && Tracked(s) && Can(cfg, s, e)
      requires View().(phase := Do(cfg, s, e).phase) == Do(cfg, s, e)
      modifies this`phase, this`trace
      ensures Valid() && View() == Do(cfg, s, e) && trace == old(trace) + [e]
    {
      RunsSnoc(cfg, start, trace, e);
      StaysTracked(cfg, s, e);
      trace := trace + [e];
      phase := Do(cfg, s, e).phase;
    }

    /** Time passes: the run may be stopped, maintenance may reclaim a row, a walk may enqueue or revive one. */
    method Environment()
      requires Valid() && !phase.Down?
      modifies this`stopping, this`phase, this`trace, store`rows
      ensures Valid() && phase == old(phase) && old(trace) <= trace
      ensures old(stopping) ==> stopping
      ensures RowsEvolve(old(store.rows), store.rows, {})
    {
      var rounds: nat := *;
      while rounds > 0
        invariant Valid() && phase == old(phase) && old(trace) <= trace
        invariant old(stopping) ==> stopping
        invariant RowsEvolve(old(store.rows), store.rows, {})
      {
        rounds := rounds - 1;
        if * {
          StopArrives();
        } else {
          ghost var before := store.rows;
          OthersAct();
          EvolvesOn(old(store.rows), before, store.rows);
        }
      }
    }

    /** The run's context ends. */
    method StopArrives()
      requires Valid() && !phase.Down?
      modifies this`stopping, this`phase, this`trace
      ensures Valid() && phase == old(phase) && old(trace) <= trace && stopping
    {
      ghost var s := View();
      stopping := true;
      Record(s, Event.Stop);
    }

    /** Maintenance reclaims or revives a row, or a walk enqueues one. */
    method OthersAct()
      requires Valid() && !phase.Down?
      modifies this`phase, this`trace, store`rows
      ensures Valid() && phase == old(phase) && old(trace) <= trace
      ensures RowsEvolve(old(store.rows), store.rows, {})
    {
      ghost var s := View();
      var id: JobId := *;
      var m: MatchId := *;
      if id in store.rows && store.rows[id].status == Claimed {
        store.rows := store.rows[id := store.rows[id].(status := Retry)];
        Record(s, Reset(id));
      } else if id in store.rows && store.rows[id].status == Dead && store.rows[id].revivals < REVIVAL_BUDGET {
        var row := store.rows[id];
        store.rows := store.rows[id := row.(status := Pending, attempts := 0, revivals := row.revivals + 1)];
        Record(s, Revive(id));
      } else if id !in store.rows && forall k | k in store.rows :: store.rows[k].matchId != m {
        store.rows := store.rows[id := Row(m, Pending, 0, 0)];
        Record(s, Insert(id, m));
      }
    }

    /** `ctx.Err() != nil`, read at some moment. */
    method Cancelled() returns (cancelled: bool)
      requires Valid() && !phase.Down?
      modifies this`stopping, this`phase, this`trace, store`rows
      ensures Valid() && phase == old(phase) && old(trace) <= trace
      ensures cancelled == stopping && (old(stopping) ==> stopping)
      ensures RowsEvolve(old(store.rows), store.rows, {})
    {
      Environment();
      cancelled := stopping;
    }

    /** The worker is on this item: it is the head of the batch and its claim is as it was handed out. */
    ghost predicate On(item: Item, head: Head)
      reads this, store, writer
    {
      && Valid() && phase.Working? && phase.todo != [] && phase.todo[0] == item.id && phase.head == head
      && Holds(store.rows, item)
    }

    /** How an item leaves the batch: `next` when it is settled, idle when a failed store call aborts the pass. */
    twostate predicate Left(item: Item, before: Phase, err: bool)
      requires before.Working? && before.todo != []
      reads this, store, writer
    {
      && Valid() && old(trace) <= trace && (old(stopping) ==> stopping)
      && RowsEvolve(old(store.rows), store.rows, {item.id})
      && phase == (if err then Idle else Working(before.todo[1..], before.retained, Fresh))
      && item.id in store.rows && (!err && !stopping ==> store.rows[item.id].status != Claimed)
    }

    /** The last step charged the failure to the row: it was retired at its ceiling, or it went back on the queue. */
    ghost predicate ByBudget(item: Item)
      reads this
    {
      trace != []
      && var e := trace[|trace| - 1];
      e.Requeue? || (e.Retire? && e.why.Ceiling? && item.attempts >= cfg.maxAttempts)
    }

    /** `release`: the attempt is refunded. */
    method Release(item: Item, ghost error: FetchError) returns (err: bool, ghost reply: Reply)
      requires On(item, FetchFailed(error)) && CallRefused(error)
      modifies this`phase, this`trace, this`stopping, store`rows
      ensures Left(item, old(phase), err) && trace == old(trace) + [Refund(reply)]
    {
      ghost var s := View();
      var ok;
      ok, reply := store.Update(item.id, Retry, true);
      Record(s, Refund(reply));
      err := !ok;
    }

    /** The failure is the row's own to pay for: of its fetch, or of the write. */
    static predicate ChargedHead(head: Head) {
      head.WriteFailed? || (head.FetchFailed? && ChargedToRow(head.err))
    }

    /** What `why` presupposes of the item and of what went wrong with it. */
    ghost predicate MayRetire(item: Item, why: RetireReason, head: Head) {
      match why
      case Unfetchable => head.FetchFailed? && NeverServed(head.err)
      case NoSummary => head == Unjoined(true)
      case Ceiling => ChargedHead(head) && item.attempts >= cfg.maxAttempts
    }

    method DeadLetter(item: Item, ghost why: RetireReason, ghost head: Head) returns (err: bool, ghost reply: Reply)
      requires On(item, head) && MayRetire(item, why, head)
      modifies this`phase, this`trace, this`stopping, store`rows
      ensures Left(item, old(phase), err) && trace == old(trace) + [Retire(why, reply)]
    {
      ghost var s := View();
      var ok;
      ok, reply := store.Update(item.id, Dead, false);
      Record(s, Retire(why, reply));
      err := !ok;
    }

    /** The item may go back on the queue at its own expense. */
    ghost predicate MayRequeue(item: Item, cause: RequeueReason, head: Head) {
      match cause
      case Backoff => ChargedHead(head) && item.attempts < cfg.maxAttempts
      case NoProvenance => head == Unjoined(false) && cfg.kind.Timeline?
      case HandBack => false
    }

    /** `requeueAfter`: a retry on schedule, or a hand-back whose failure is only logged when the run is stopping. */
    method RequeueAfter(item: Item, ghost cause: RequeueReason, ghost head: Head) returns (err: bool)
      requires On(item, head) && MayRequeue(item, cause, head)
      modifies this`phase, this`trace, this`stopping, store`rows
      ensures Left(item, old(phase), err) && trace != [] && trace[|trace| - 1].Requeue?
    {
      ghost var rows0 := store.rows;
      var cancelled := Cancelled();
      HoldsSurvives(rows0, store.rows, {}, item);
      if cancelled {
        err := RetryDetached(item, head);
      } else {
        err := RetryOnSchedule(item, cause, head);
      }
    }

    method RetryOnSchedule(item: Item, ghost cause: RequeueReason, ghost head: Head) returns (err: bool)
      requires On(item, head) && MayRequeue(item, cause, head)
      modifies this`phase, this`trace, store`rows
      ensures Left(item, old(phase), err) && trace != [] && trace[|trace| - 1].Requeue?
    {
      ghost var s := View();
      var ok, reply := store.Update(item.id, Retry, false);
      Record(s, Requeue(cause, reply));
      err := !ok;
    }

    method RetryDetached(item: Item, ghost head: Head) returns (err: bool)
      requires On(item, head) && stopping
      requires (head.FetchFailed? && ChargedToRow(head.err)) || head == Unjoined(false)
        || (head.WriteFailed? && item.attempts < cfg.maxAttempts)
      modifies this`phase, this`trace, this`stopping, store`rows
      ensures Left(item, old(phase), err) && !err && stopping && trace != [] && trace[|trace| - 1].Requeue?
    {
      ghost var s := View();
      var ok, reply := store.Update(item.id, Retry, false);
      Record(s, Requeue(HandBack, reply));
      err := false;
    }

    /** The head's fetch, or its lookup, has failed; nothing else has happened. */
    method NoteFailure(item: Item, ghost e: Event, ghost head: Head)
      requires On(item, Fresh)
      requires e == (if head.FetchFailed? then FetchFails(head.err) else LookupFails(head == Unjoined(true)))
      requires head.FetchFailed? || (head.Unjoined? && cfg.kind.Timeline?)
      modifies this`phase, this`trace
      ensures On(item, head) && trace == old(trace) + [e] && phase == old(phase).(head := head)
    {
      ghost var s := View();
      Record(s, e);
    }

    method HandleFetchFailure(item: Item, error: FetchError) returns (err: bool)
      requires On(item, Fresh)
      modifies this`phase, this`trace, this`stopping, store`rows
      ensures Left(item, old(phase), err)
      ensures CallRefused(error) ==> exists reply :: trace == old(trace) + [FetchFails(error)] + [Refund(reply)]
      ensures NeverServed(error) ==>
        exists reply :: trace == old(trace) + [FetchFails(error)] + [Retire(Unfetchable, reply)]
      ensures ChargedToRow(error) ==> ByBudget(item)
    {
      NoteFailure(item, FetchFails(error), FetchFailed(error));
      if error.CircuitOpen? {
        ghost var reply;
        err, reply := Release(item, error);
        return;
      }
      match Classify(error) {
        case Gone =>
          ghost var reply;
          err, reply := DeadLetter(item, Unfetchable, FetchFailed(error));
          return;
        case BadRequest =>
          ghost var reply;
          err, reply := DeadLetter(item, Unfetchable, FetchFailed(error));
          return;
        case KeyRefused =>
          ghost var reply;
          err, reply := Release(item, error);
          return;
        case _ =>
      }
      err := SettleByBudget(item, error);
    }

    /** A failure the row pays for: handed back when the run is stopping, retired at the ceiling, else requeued. */
    method SettleByBudget(item: Item, ghost error: FetchError) returns (err: bool)
      requires On(item, FetchFailed(error)) && ChargedToRow(error)
      modifies this`phase, this`trace, this`stopping, store`rows
      ensures Left(item, old(phase), err) && ByBudget(item)
    {
      ghost var rows0 := store.rows;
      var cancelled := Cancelled();
      HoldsSurvives(rows0, store.rows, {}, item);
      if cancelled {
        err := RetryDetached(item, FetchFailed(error));
      } else if item.attempts >= cfg.maxAttempts {
        ghost var reply;
        err, reply := DeadLetter(item, Ceiling, FetchFailed(error));
      } else {
        err := RequeueAfter(item, Backoff, FetchFailed(error));
      }
    }

    method HandleArchiveFailure(item: Item) returns (err: bool)
      requires On(item, WriteFailed)
      modifies this`phase, this`trace, this`stopping, store`rows
      ensures Left(item, old(phase), err) && ByBudget(item)
    {
      if item.attempts >= cfg.maxAttempts {
        ghost var reply;
        err, reply := DeadLetter(item, Ceiling, WriteFailed);
      } else {
        err := RequeueAfter(item, Backoff, WriteFailed);
      }
    }

    // -------------------------------------------------------------- one job

    /** The item is retained: its payload is in the writer and, for a match, its row is recorded. */
    twostate predicate Retained(item: Item, before: Phase)
      requires before.Working? && before.todo != []
      reads this, store, writer
    {
      && Valid() && old(trace) <= trace && (old(stopping) ==> stopping)
      && RowsEvolve(old(store.rows), store.rows, {})
      && phase == Working(before.todo[1..], before.retained + [item.id], Fresh)
      && Covered(writer.archive, item.matchId)
    }

    /** A cancelled context fails the write before it is tried. */
    method RefuseWrite(item: Item) returns (err: bool)
      requires On(item, Fresh) && stopping
      modifies this`phase, this`trace, this`stopping, store`rows
      ensures Left(item, old(phase), err)
    {
      ghost var s := View();
      Record(s, WriteRefused);
      err := HandleArchiveFailure(item);
    }

    /** The write half of a job. It leaves the item written, retained (a timeline), or settled as a failure. */
    method Archive(item: Item) returns (ok: bool, err: bool)
      requires On(item, Fresh)
      modifies this`phase, this`trace, this`stopping, store`rows, writer
      ensures ok && cfg.kind.Timeline? ==> Retained(item, old(phase)) && !err
      ensures ok && cfg.kind.Match? ==>
        On(item, Written) && !err && phase == old(phase).(head := Written) && Covered(writer.archive, item.matchId)
      ensures ok && cfg.kind.Match? ==>
        old(trace) <= trace && (old(stopping) ==> stopping) && RowsEvolve(old(store.rows), store.rows, {})
      ensures !ok ==> Left(item, old(phase), err)
    {
      ghost var rows0 := store.rows;
      var cancelled := Cancelled();
      HoldsSurvives(rows0, store.rows, {}, item);
      if cancelled {
        err := RefuseWrite(item);
        ok := false;
        return;
      }
      ok := WriteOut(item);
      err := false;
      if !ok {
        err := HandleArchiveFailure(item);
      }
    }

    method WriteOut(item: Item) returns (ok: bool)
      requires On(item, Fresh)
      modifies this`phase, this`trace, writer
      ensures ok && cfg.kind.Timeline? ==> Retained(item, old(phase))
      ensures ok && cfg.kind.Match? ==> On(item, Written) && phase == old(phase).(head := Written)
      ensures ok ==> Covered(writer.archive, item.matchId)
      ensures !ok ==> On(item, WriteFailed) && phase == old(phase).(head := WriteFailed)
      ensures Valid() && old(trace) <= trace
    {
      ghost var s := View();
      var dir: Dir := *;
      var f: Faults := *;
      WriteKeepsCover(writer.archive, dir, item.matchId, cfg.rowsPerPart, f, item.matchId);
      ok := writer.Write(dir, item.matchId, f);
      Record(s, Event.Write(dir, f));
    }

    method ProcessTimelineJob(item: Item) returns (held: bool, err: bool)
      requires On(item, Fresh) && cfg.kind.Timeline?
      modifies this`phase, this`trace, this`stopping, store`rows, writer
      ensures held ==> Retained(item, old(phase)) && !err
      ensures !held ==> Left(item, old(phase), err)
    {
      held, err := false, false;
      var lookup: Provenance := *;
      if lookup.Orphan? {
        NoteFailure(item, LookupFails(true), Unjoined(true));
        ghost var reply;
        err, reply := DeadLetter(item, NoSummary, Unjoined(true));
        return;
      }
      if lookup.Unavailable? {
        NoteFailure(item, LookupFails(false), Unjoined(false));
        err := RequeueAfter(item, NoProvenance, Unjoined(false));
        return;
      }
      var fetch: Fetch := *;
      if fetch.NotFetched? {
        err := HandleFetchFailure(item, fetch.err);
        return;
      }
      held, err := Archive(item);
    }

    /** The match job: known-match shortcut, fetch, archive, then the `matches` row. */
    method ProcessMatchJob(item: Item) returns (held: bool, err: bool)
      requires On(item, Fresh) && cfg.kind.Match?
      modifies this`phase, this`trace, this`stopping, store`rows, store`matches, writer
      ensures held ==> Retained(item, old(phase)) && !err && item.matchId in store.matches
      ensures !held && !err ==> Left(item, old(phase), err)
      ensures !held && err ==> Valid() && phase == Idle && old(trace) <= trace
    {
      held, err := false, false;
      var known := store.MatchExists(item.matchId);
      if known {
        err := CloseKnown(item);
        return;
      }
      var fetch: Fetch := *;
      if fetch.NotFetched? {
        err := HandleFetchFailure(item, fetch.err);
        return;
      }
      var written: bool;
      written, err := Archive(item);
      if written {
        held := RecordMatch(item);
        err := !held;
      }
    }

    /** The known-match shortcut: the row is closed without a fetch. */
    method CloseKnown(item: Item) returns (err: bool)
      requires On(item, Fresh) && cfg.kind.Match? && item.matchId in store.matches
      modifies this`phase, this`trace, store`rows
      ensures Left(item, old(phase), err)
    {
      ghost var s := View();
      var ok, reply := store.Update(item.id, Done, false);
      Record(s, KnownClose(reply));
      err := !ok;
    }

    method RecordMatch(item: Item) returns (ok: bool)
      requires On(item, Written)
      modifies this`phase, this`trace, store`matches
      ensures Valid() && old(trace) <= trace
      ensures ok ==> phase == Keep(old(View())) && item.matchId in store.matches
      ensures !ok ==> phase == Idle
    {
      ghost var s := View();
      ghost var reply;
      ok, reply := store.UpsertMatch(item.matchId);
      Record(s, Upsert(reply));
    }

    method ProcessJob(item: Item) returns (held: bool, err: bool)
      requires On(item, Fresh)
      modifies this`phase, this`trace, this`stopping, store`rows, store`matches, writer
      ensures held ==> Retained(item, old(phase)) && !err
      ensures !held && !err ==> Left(item, old(phase), err)
      ensures !held && err ==> Valid() && phase == Idle && old(trace) <= trace
    {
      if cfg.kind.Timeline? {
        held, err := ProcessTimelineJob(item);
      } else {
        held, err := ProcessMatchJob(item);
      }
    }

    // -------------------------------------------------------------- one batch

    method ReleaseOne(item: Item) returns (ghost t: Settlement)
      requires Valid() && phase.Tail? && phase.todo != [] && phase.todo[0] == item.id
      modifies this`phase, this`trace, store`rows
      ensures Valid() && old(trace) <= trace && phase == Tail(old(phase).todo[1..], old(phase).retained)
      ensures t == Settlement(item.id, Retry, true, t.reply)
      ensures store.rows == LeaveIf(Applied(t.reply), old(store.rows), t.id, t.to, t.refund)
    {
      ghost var s := View();
      var _, reply := store.Update(item.id, Retry, true);
      Record(s, ReleaseTail(reply));
      t := Settlement(item.id, Retry, true, reply);
    }

    /** The unstarted tail of an interrupted batch goes back with its attempts refunded; failures are logged. */
    method ReleaseUnstarted(items: seq<Item>) returns (ghost done: seq<Settlement>)
      requires Valid() && phase.Tail? && phase.todo == Ids(items)
      modifies this`phase, this`trace, store`rows
      ensures Valid() && old(trace) <= trace && stopping == old(stopping)
      ensures phase == Tail([], old(phase).retained)
      ensures HandedBack(old(store.rows), store.rows, items, |items|, done)
    {
      done := [];
      var k := 0;
      while k < |items|
        invariant 0 <= k <= |items| && Valid() && old(trace) <= trace && stopping == old(stopping)
        invariant phase == Tail(Ids(items)[k..], old(phase).retained)
        invariant HandedBack(old(store.rows), store.rows, items, k, done)
      {
        ghost var before := store.rows;
        NextId(items, k);
        ghost var t := ReleaseOne(items[k]);
        HandedBackOn(old(store.rows), before, store.rows, items, k, done, t);
        done := done + [t];
        k := k + 1;
      }
    }

    /** The flush of the batch: refused on a context cancelled in between, otherwise every open part is finalised. */
    method FlushArchive() returns (ok: bool, refused: bool)
      requires Valid() && BatchDone(View())
      modifies this`phase, this`trace, this`stopping, store`rows, writer
      ensures Valid() && old(trace) <= trace && (old(stopping) ==> stopping)
      ensures refused ==> stopping && !ok && phase == Idle
      ensures ok ==> phase == Closing(old(phase).retained)
      ensures !ok ==> phase == Idle || phase == Abandoning(old(phase).retained)
      ensures !ok && (stopping || old(phase).retained == []) ==> phase == Idle
      ensures !ok && !(stopping || old(phase).retained == []) ==> phase == Abandoning(old(phase).retained)
      ensures RowsEvolve(old(store.rows), store.rows, {})
    {
      var detached := Cancelled();
      refused := false;
      if !detached {
        refused := Cancelled();
      }
      if refused {
        ghost var s := View();
        Record(s, FlushRefused);
        ok := false;
      } else {
        ok := FlushOpenParts();
      }
    }

    method FlushOpenParts() returns (ok: bool)
      requires Valid() && BatchDone(View())
      modifies this`phase, this`trace, writer
      ensures Valid() && old(trace) <= trace
      ensures phase == if ok then Closing(old(phase).retained) else AfterFailedFlush(old(View()))
    {
      ghost var s := View();
      var failing: set<Dir> := *;
      ok := writer.Flush(failing);
      Record(s, FlushBatch(failing));
    }

    /** Only this row may have changed. */
    twostate predicate OnlyRow(id: JobId)
      reads store
    {
      && old(store.rows).Keys == store.rows.Keys
      && forall k | k in store.rows && k != id :: store.rows[k] == old(store.rows)[k]
    }

    method AbandonOne(item: Item) returns (ghost t: Settlement)
      requires Valid() && phase.Abandoning? && phase.retained != [] && phase.retained[0] == item.id
      requires Holds(store.rows, item)
      modifies this`phase, this`trace, store`rows
      ensures Valid() && old(trace) <= trace && phase == Abandoning(old(phase).retained[1..]) && OnlyRow(item.id)
      ensures t == Decision(item, cfg.maxAttempts, t.reply)
      ensures store.rows == LeaveIf(Applied(t.reply), old(store.rows), t.id, t.to, t.refund)
    {
      ghost var s := View();
      var to := if item.attempts >= cfg.maxAttempts then Dead else Retry;
      var _, reply := store.Update(item.id, to, false);
      Record(s, Abandon(reply));
      t := Settlement(item.id, to, false, reply);
    }

    ghost method EndOfBatch()
      requires Valid() && (phase.Closing? || phase.Abandoning?) && phase.retained == []
      modifies this`phase, this`trace
      ensures Valid() && old(trace) <= trace && phase == Idle
    {
      ghost var s := View();
      Record(s, EndBatch);
    }

    /** After a failed flush every retained row is requeued or, at the ceiling, retired; failures are logged. */
    method AbandonRetained(items: seq<Item>) returns (ghost done: seq<Settlement>)
      requires Valid() && phase == Abandoning(Ids(items))
      requires forall i | 0 <= i < |items| :: Holds(store.rows, items[i])
      modifies this`phase, this`trace, store`rows
      ensures Valid() && phase == Idle && old(trace) <= trace
      ensures Abandoned(old(store.rows), store.rows, items, |items|, done, cfg.maxAttempts)
    {
      assert Distinct(Ids(items));
      done := [];
      var k := 0;
      while k < |items|
        invariant 0 <= k <= |items| && Valid() && old(trace) <= trace && phase == Abandoning(Ids(items)[k..])
        invariant forall i | k <= i < |items| :: Holds(store.rows, items[i])
        invariant Abandoned(old(store.rows), store.rows, items, k, done, cfg.maxAttempts)
      {
        ghost var before := store.rows;
        ghost var t := AbandonOne(items[k]);
        HoldsAside(before, store.rows, items, k);
        AbandonedOn(old(store.rows), before, store.rows, items, k, done, t, cfg.maxAttempts);
        done := done + [t];
        k := k + 1;
      }
      EndOfBatch();
    }

    method CloseOne(id: JobId) returns (err: bool)
      requires Valid() && phase.Closing? && phase.retained != [] && phase.retained[0] == id
      modifies this`phase, this`trace, store`rows
      ensures Valid() && old(trace) <= trace && OnlyRow(id)
      ensures phase == if err then Idle else Closing(old(phase).retained[1..])
      ensures id in old(store.rows) && (!err ==> store.rows[id] == LeaveRow(old(store.rows)[id], Done, false))
    {
      ghost var s := View();
      assert id in Batch(s.phase);
      var ok, reply := store.Update(id, Done, false);
      Record(s, Close(reply));
      err := !ok;
    }

    /** Closes the flushed rows in order: each that is still claimed becomes done; a failed close ends the pass. */
    method CompleteRetained(items: seq<Item>) returns (err: bool)
      requires Valid() && phase == Closing(Ids(items))
      modifies this`phase, this`trace, store`rows
      ensures Valid() && phase == Idle && old(trace) <= trace
      ensures OnlyThese(old(store.rows), store.rows, items)
      ensures !err ==> Closed(old(store.rows), store.rows, items, |items|)
    {
      err := false;
      assert Distinct(Ids(items)) && forall id | id in Batch(phase) :: id in store.rows;
      NothingClosed(store.rows, items);
      var k := 0;
      while k < |items|
        invariant 0 <= k <= |items| && Valid() && old(trace) <= trace && phase == Closing(Ids(items)[k..])
        invariant Closed(old(store.rows), store.rows, items, k)
      {
        err := CloseNext(items, k, old(store.rows));
        if err {
          return;
        }
        k := k + 1;
      }
      EndOfBatch();
    }

    method CloseNext(items: seq<Item>, k: nat, ghost first: Queue) returns (err: bool)
      requires Valid() && k < |items| && Distinct(Ids(items)) && phase == Closing(Ids(items)[k..])
      requires Closed(first, store.rows, items, k)
      modifies this`phase, this`trace, store`rows
      ensures Valid() && old(trace) <= trace && phase == if err then Idle else Closing(Ids(items)[k + 1..])
      ensures OnlyThese(first, store.rows, items)
      ensures !err ==> Closed(first, store.rows, items, k + 1)
    {
      ghost var before := store.rows;
      NextId(items, k);
      err := CloseOne(items[k].id);
      ClosedAside(first, before, store.rows, items, k);
      if !err {
        ClosedOn(first, before, store.rows, items, k);
      }
    }

    /** The batch has come to item i; what is behind it is retained or settled. */
    ghost predicate Reached(items: seq<Item>, i: nat, retained: seq<Item>)
      requires i <= |items|
      reads this, store, writer
    {
      Valid() && phase == Working(Ids(items)[i..], Ids(retained), Fresh)
      && Standing(store.rows, items, i, retained, stopping)
    }

    /** One turn of the loop. */
    method ProcessNext(items: seq<Item>, i: nat, retained: seq<Item>) returns (kept: seq<Item>, err: bool)
      requires i < |items| && Reached(items, i, retained)
      modifies this`phase, this`trace, this`stopping, store`rows, store`matches, writer
      ensures old(trace) <= trace && Valid()
      ensures err ==> phase == Idle
      ensures !err ==> (old(stopping) ==> stopping) && Reached(items, i + 1, kept)
    {
      ghost var rows0, was := store.rows, stopping;
      NextId(items, i);
      var held;
      held, err := ProcessJob(items[i]);
      kept := retained;
      if err {
        return;
      }
      if held {
        StandingHeld(rows0, store.rows, items, i, retained, was, stopping);
        kept := retained + [items[i]];
      } else {
        StandingLeft(rows0, store.rows, items, i, retained, was, stopping);
      }
    }

    /** The jobs of a batch, one by one, until they are through, the store fails, or the run is stopped. */
    method ProcessBatch(items: seq<Item>) returns (processed: nat, retained: seq<Item>, err: bool)
      requires Reached(items, 0, [])
      modifies this`phase, this`trace, this`stopping, store`rows, store`matches, writer
      ensures Valid() && old(trace) <= trace && processed <= |items|
      ensures err ==> phase == Idle
      ensures !err ==> BatchDone(View()) && phase.retained == Ids(retained)
      ensures !err && !stopping ==> processed == |items| && Reached(items, |items|, retained)
    {
      processed, retained, err := 0, [], false;
      while processed < |items|
        invariant 0 <= processed <= |items| && !err && old(trace) <= trace
        invariant Reached(items, processed, retained)
      {
        ghost var rows0, was := store.rows, stopping;
        var cancelled := Cancelled();
        if cancelled {
          StopBatch(items, processed, retained);
          return;
        }
        StandingStays(rows0, store.rows, items, processed, retained, was, stopping);
        retained, err := ProcessNext(items, processed, retained);
        if err {
          return;
        }
        processed := processed + 1;
      }
    }

    /** The run was stopped: what was not started goes back. */
    method StopBatch(items: seq<Item>, processed: nat, ghost retained: seq<Item>)
      requires processed < |items| && Valid() && stopping
      requires phase == Working(Ids(items)[processed..], Ids(retained), Fresh)
      modifies this`phase, this`trace, store`rows
      ensures Valid() && old(trace) <= trace && BatchDone(View()) && phase.retained == Ids(retained)
    {
      ghost var v := View();
      Record(v, SeeStop);
      assert Ids(items[processed..]) == Ids(items)[processed..];
      ghost var done := ReleaseUnstarted(items[processed..]);
    }

    /** Claims a batch. No rows, or a failed call, leave the worker idle. */
    method ClaimBatch() returns (ok: bool, items: seq<Item>, ghost claimed: seq<JobId>)
      requires Valid() && phase == Idle
      modifies this`phase, this`trace, store`rows
      ensures Valid() && |claimed| <= jobBatch && stopping == old(stopping)
      ensures !ok ==> phase == Idle && trace == old(trace) + [ClaimLost(claimed)]
      ensures ok && items == [] ==> phase == Idle && trace == old(trace) && claimed == []
      ensures ok && items != [] ==>
        Reached(items, 0, []) && Ids(items) == claimed && trace == old(trace) + [Claim(claimed)]
    {
      ghost var s := View();
      ok, items, claimed := store.ClaimJobs(jobBatch);
      if !ok {
        Record(s, ClaimLost(claimed));
        return;
      }
      if |items| == 0 {
        assert store.rows == s.rows;
        return;
      }
      Record(s, Claim(claimed));
      assert Ids(items) == claimed && Ids([]) == [];
      assert Ids(items)[0..] == Ids(items);
      forall j | 0 <= j < |items|
        ensures Holds(store.rows, items[j])
      {
        assert claimed[j] in claimed;
      }
    }

    /**
     * `drainQueue`: claim, process, flush, and only then close. The whole pass is a run of the protocol that ends
     * idle, and a pass that reports no error and was not stopped has settled every row it claimed.
     */
    method DrainQueue() returns (processed: nat, err: bool, ghost claimed: seq<JobId>)
      requires Valid() && phase == Idle
      modifies this`phase, this`trace, this`stopping, store`rows, store`matches, writer
      ensures Valid() && phase == Idle
      ensures |claimed| <= jobBatch && processed <= |claimed|
      ensures old(trace) + [Claim(claimed)] <= trace || (err && trace == old(trace) + [ClaimLost(claimed)])
        || (claimed == [] && !err && trace == old(trace))
      ensures !err && !stopping ==> processed == |claimed|
      ensures !err && !stopping ==> forall i | 0 <= i < |claimed| :: Settled(claimed[i])
    {
      processed, err := 0, false;
      var ok, items;
      ok, items, claimed := ClaimBatch();
      if !ok {
        err := true;
        return;
      }
      if items == [] {
        return;
      }
      var retained;
      processed, retained, err := ProcessBatch(items);
      if err {
        return;
      }
      err := FinishBatch(items, retained);
      if !err && !stopping {
        assert forall i | 0 <= i < |claimed| :: claimed[i] == items[i].id;
      }
    }

    /**
     * A pass, and what it means for the archive: started in a sound state, and unless one of its own steps was a
     * losing one, it ends sound. Every done row is then published; for matches also under the weaker hypothesis,
     * which lets claims take what an earlier pass left behind, published or buffered.
     */
    method Pass() returns (processed: nat, err: bool)
      requires Valid() && phase == Idle
      modifies this`phase, this`trace, this`stopping, store`rows, store`matches, writer
      ensures Valid() && phase == Idle && old(trace) <= trace
      ensures StaysAhead(cfg, old(View()), trace[|old(trace)|..], View())
    {
      ghost var claimed;
      processed, err, claimed := DrainQueue();
      assert trace == old(trace) + trace[|old(trace)|..];
      StretchStaysAhead(cfg, start, old(trace), trace[|old(trace)|..]);
    }

    /** The second half of a pass: flush, then close what was retained or hand it back. */
    method FinishBatch(items: seq<Item>, retained: seq<Item>) returns (err: bool)
      requires Valid() && BatchDone(View()) && phase.retained == Ids(retained)
      requires !stopping ==> Reached(items, |items|, retained)
      modifies this`phase, this`trace, this`stopping, store`rows, writer
      ensures Valid() && phase == Idle && old(trace) <= trace && (old(stopping) ==> stopping)
      ensures !err && !stopping ==> forall i | 0 <= i < |items| :: Settled(items[i].id)
    {
      ghost var before := store.rows;
      ghost var was := stopping;
      var ok, refused := FlushArchive();
      if !was {
        StillHeld(before, items, retained);
      }
      if ok {
        ghost var flushed := store.rows;
        err := CompleteRetained(retained);
        if !err && !stopping {
          AllSettled(flushed, items, retained);
        }
      } else {
        if |retained| > 0 && !stopping {
          ghost var done := AbandonRetained(retained);
        }
        err := true;
      }
    }

    lemma StillHeld(before: Queue, items: seq<Item>, retained: seq<Item>)
      requires RowsEvolve(before, store.rows, {})
      requires forall j | 0 <= j < |retained| :: Holds(before, retained[j])
      requires forall j | 0 <= j < |items| ::
        items[j] in retained || (items[j].id in before && before[items[j].id].status != Claimed)
      ensures forall j | 0 <= j < |retained| :: Holds(store.rows, retained[j])
      ensures forall j | 0 <= j < |items| :: items[j] in retained || Settled(items[j].id)
    {
      forall j | 0 <= j < |retained|
        ensures Holds(store.rows, retained[j])
      {
        HoldsSurvives(before, store.rows, {}, retained[j]);
      }
    }

    lemma AllSettled(flushed: Queue, items: seq<Item>, retained: seq<Item>)
      requires OnlyThese(flushed, store.rows, retained)
      requires forall j | 0 <= j < |items| ::
        items[j] in retained || (items[j].id in flushed && flushed[items[j].id].status != Claimed)
      requires forall j | 0 <= j < |retained| :: Settled(retained[j].id)
      ensures forall i | 0 <= i < |items| :: Settled(items[i].id)
    {
      forall i | 0 <= i < |items|
        ensures Settled(items[i].id)
      {
        if items[i] in retained {
          var j :| 0 <= j < |retained| && retained[j] == items[i];
        }
      }
    }

    predicate Settled(id: JobId)
      reads store
    {
      id in store.rows && store.rows[id].status != Claimed
    }
  }

  function Ids(items: seq<Item>): seq<JobId> {
    seq(|items|, i requires 0 <= i < |items| => items[i].id)
  }

  lemma NextId(items: seq<Item>, k: nat)
    requires k < |items|
    ensures Ids(items)[k..] != [] && Ids(items)[k..][0] == items[k].id && Ids(items)[k..][1..] == Ids(items)[k + 1..]
  {
  }
}
