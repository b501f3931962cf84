/** The archive of one process, a log per partition directory, as the crawl protocol sees it. */
module Archive {
  import opened Options
  import opened PartLog

  type MatchId = string
  type Dir = string
  type Archive = map<Dir, Log<MatchId>>

  predicate InParts(parts: seq<seq<MatchId>>, m: MatchId) {
    exists i | 0 <= i < |parts| :: m in parts[i]
  }

  predicate Published(a: Archive, m: MatchId) {
    exists d | d in a :: InParts(a[d].published, m)
  }

  predicate Buffered(a: Archive, m: MatchId) {
    exists d | d in a :: m in OpenRows(a[d])
  }

  predicate Covered(a: Archive, m: MatchId) {
    Published(a, m) || Buffered(a, m)
  }

  function LogOf(a: Archive, d: Dir): Log<MatchId> {
    if d in a then a[d] else Empty()
  }

  /** `WriteMatch` / `WriteTimeline`: the partition's writer is created on its first row. */
  function AfterWrite(a: Archive, d: Dir, m: MatchId, rowsPerPart: nat, f: Faults): Archive {
    a[d := AfterAppend(LogOf(a, d), m, rowsPerPart, f).0]
  }

  predicate WriteOk(a: Archive, d: Dir, m: MatchId, rowsPerPart: nat, f: Faults) {
    AfterAppend(LogOf(a, d), m, rowsPerPart, f).1
  }

  /** `Flush`: every open part is finalised on its own; `failing` names the directories where that fails. */
  function AfterFlush(a: Archive, failing: set<Dir>): Archive {
    map d | d in a :: AfterFinalize(a[d], d in failing)
  }

  predicate FlushOk(a: Archive, failing: set<Dir>) {
    forall d | d in a && d in failing :: a[d].open.None?
  }

  /** A process that ends takes its buffers with it. */
  function AfterExit(a: Archive): Archive {
    map d | d in a :: AfterCrash(a[d])
  }

  lemma FinalizePublishes(log: Log<MatchId>, m: MatchId)
    ensures InParts(AfterFinalize(log, false).published, m) <==> InParts(log.published, m) || m in OpenRows(log)
  {
    if log.open.Some? {
      var next := log.published + [log.open.value];
      assert forall i | 0 <= i < |log.published| :: next[i] == log.published[i];
      assert next[|log.published|] == log.open.value;
    }
  }

  /** One append, seen from one match id. */
  lemma AppendEffect(log: Log<MatchId>, row: MatchId, rowsPerPart: nat, f: Faults, m: MatchId)
    ensures var (next, ok) := AfterAppend(log, row, rowsPerPart, f);
      var lost := Rotates(log, rowsPerPart, f) && f.finalize;
      && (InParts(log.published, m) ==> InParts(next.published, m))
      && (ok ==> InParts(next.published, row) || row in OpenRows(next))
      && (!lost ==> (m in OpenRows(log) ==> InParts(next.published, m) || m in OpenRows(next)))
      && (lost ==> !ok && next.published == log.published && OpenRows(next) == [])
  {
    var written := Log(log.published, Some(OpenRows(log) + [row]), log.rows + 1);
    FinalizePublishes(written, m);
    FinalizePublishes(written, row);
  }

  /** A write whose rotation does not fail keeps everything covered and, when it succeeds, covers its own row. */
  lemma WriteKeepsCover(a: Archive, d: Dir, row: MatchId, rowsPerPart: nat, f: Faults, m: MatchId)
    ensures var b := AfterWrite(a, d, row, rowsPerPart, f);
      && (Published(a, m) ==> Published(b, m))
      && (WriteOk(a, d, row, rowsPerPart, f) ==> Covered(b, row))
      && (Buffered(a, m) && !(Rotates(LogOf(a, d), rowsPerPart, f) && f.finalize) ==> Covered(b, m))
  {
    var b := AfterWrite(a, d, row, rowsPerPart, f);
    AppendEffect(LogOf(a, d), row, rowsPerPart, f, m);
    AppendEffect(LogOf(a, d), row, rowsPerPart, f, row);
    if Published(a, m) {
      var e :| e in a && InParts(a[e].published, m);
      assert InParts(b[e].published, m);
    }
    if Buffered(a, m) && !(Rotates(LogOf(a, d), rowsPerPart, f) && f.finalize) {
      var e :| e in a && m in OpenRows(a[e]);
      assert InParts(b[e].published, m) || m in OpenRows(b[e]);
    }
    assert d in b;
  }

  /** The rows a rotation drops are exactly the ones held by no other buffer and no part. */
  lemma DroppedByRotation(a: Archive, d: Dir, row: MatchId, rowsPerPart: nat, f: Faults, m: MatchId)
    requires Rotates(LogOf(a, d), rowsPerPart, f) && f.finalize
    ensures Covered(AfterWrite(a, d, row, rowsPerPart, f), m)
      <==> Published(a, m) || exists e | e in a && e != d :: m in OpenRows(a[e])
  {
    var b := AfterWrite(a, d, row, rowsPerPart, f);
    AppendEffect(LogOf(a, d), row, rowsPerPart, f, m);
    if Published(a, m) {
      var e :| e in a && InParts(a[e].published, m);
      assert InParts(b[e].published, m);
    }
    if e :| e in a && e != d && m in OpenRows(a[e]) {
      assert m in OpenRows(b[e]);
    }
    if Published(b, m) {
      var e :| e in b && InParts(b[e].published, m);
      assert InParts(LogOf(a, e).published, m);
    }
    if Buffered(b, m) {
      var e :| e in b && m in OpenRows(b[e]);
      assert e != d;
    }
  }

  /** A flush publishes what is covered outside the failing directories, and nothing else. */
  lemma FlushEffect(a: Archive, failing: set<Dir>, m: MatchId)
    ensures Published(AfterFlush(a, failing), m)
      <==> Published(a, m) || exists d | d in a && d !in failing :: m in OpenRows(a[d])
    ensures !Buffered(AfterFlush(a, failing), m)
  {
    var b := AfterFlush(a, failing);
    forall d | d in a
      ensures InParts(b[d].published, m) <==> InParts(a[d].published, m) || (d !in failing && m in OpenRows(a[d]))
    {
      FinalizePublishes(a[d], m);
    }
    if Published(a, m) {
      var e :| e in a && InParts(a[e].published, m);
      assert InParts(b[e].published, m);
    }
    if d :| d in a && d !in failing && m in OpenRows(a[d]) {
      assert InParts(b[d].published, m);
    }
    if Published(b, m) {
      var e :| e in b && InParts(b[e].published, m);
      assert InParts(a[e].published, m) || (e !in failing && m in OpenRows(a[e]));
    }
  }

  lemma ExitEffect(a: Archive, m: MatchId)
    ensures Published(AfterExit(a), m) <==> Published(a, m)
    ensures !Buffered(AfterExit(a), m)
  {
    var b := AfterExit(a);
    assert forall d | d in a :: b[d].published == a[d].published;
    if Published(a, m) {
      var e :| e in a && InParts(a[e].published, m);
      assert InParts(b[e].published, m);
    }
  }
}
