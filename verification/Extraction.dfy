/**
 * From archive records to feature rows: one envelope row per match, the payload joined back batch by batch, the
 * participants unfolded; and the two patch lists that must agree. `None` is an SQL NULL.
 */
module Extraction {
  import opened Collections
  import opened Options

  datatype Participant = Participant(
    champion: Option<int>, teamPosition: Option<string>, individualPosition: Option<string>,
    win: Option<bool>, team: Option<int>)

  /** The participants member of a payload: absent (or null), some other JSON, or an array. */
  datatype Roster = Missing | NotAnArray | Members(list: seq<Participant>)

  /** What the statements read from a payload that is valid JSON. */
  datatype Payload = Payload(
    matchId: Option<string>, version: Option<string>, platform: Option<string>, queue: Option<int>,
    createdMs: Option<int>, participants: Roster)

  /** An archive record at its file and row number; `None` is a payload that is not JSON. */
  datatype Located = Located(part: int, row: nat, payload: Option<Payload>)

  predicate Before(a: Located, b: Located) {
    a.part < b.part || (a.part == b.part && a.row < b.row)
  }

  predicate UniqueLocations(rows: seq<Located>) {
    forall i, j | 0 <= i < j < |rows| :: rows[i].part != rows[j].part || rows[i].row != rows[j].row
  }

  // ---------------------------------------------------------------- envelopeSQL

  /** COALESCE(match_id, part and row): a record without an id is a group of its own. */
  datatype Key = Id(m: string) | Place(part: int, row: nat)

  function MatchIdOf(l: Located): Option<string> {
    if l.payload.Some? then l.payload.value.matchId else None
  }

  function KeyOf(l: Located): Key {
    if MatchIdOf(l).Some? then Id(MatchIdOf(l).value) else Place(l.part, l.row)
  }

  /** ROW_NUMBER() OVER (PARTITION BY key ORDER BY part, part_row) = 1. */
  predicate First(all: seq<Located>, l: Located) {
    forall k | k in all && KeyOf(k) == KeyOf(l) :: !Before(k, l)
  }

  function Kept(all: seq<Located>, rows: seq<Located>): seq<Located> {
    if rows == [] then []
    else (if First(all, rows[0]) then [rows[0]] else []) + Kept(all, rows[1..])
  }

  datatype EnvelopeRow = EnvelopeRow(
    part: int, row: nat, matchId: Option<string>, version: Option<string>, platform: Option<string>,
    queue: Option<int>, createdMs: Option<int>, valid: bool, participants: Option<nat>)

  function EnvelopeRowOf(l: Located): EnvelopeRow {
    match l.payload
    case None => EnvelopeRow(l.part, l.row, None, None, None, None, None, false, None)
    case Some(p) => EnvelopeRow(l.part, l.row, p.matchId, p.version, p.platform, p.queue, p.createdMs, true,
      if p.participants.Members? then Some(|p.participants.list|) else None)
  }

  function EnvelopeRows(kept: seq<Located>): seq<EnvelopeRow> {
    if kept == [] then [] else [EnvelopeRowOf(kept[0])] + EnvelopeRows(kept[1..])
  }

  function Envelope(all: seq<Located>): seq<EnvelopeRow> {
    EnvelopeRows(Kept(all, all))
  }

  // ---------------------------------------------------------------- payloadSQL

  datatype Spilled = Spilled(
    matchId: Option<string>, version: Option<string>, platform: Option<string>, queue: Option<int>,
    createdMs: Option<int>, payload: Option<Payload>)

  /** One archive record joined with every envelope row at its location. */
  function JoinOne(a: Located, envelope: seq<EnvelopeRow>): seq<Spilled> {
    if envelope == [] then []
    else
      var e := envelope[0];
      var payload := if e.valid then a.payload else None;
      (if a.part == e.part && a.row == e.row
       then [Spilled(e.matchId, e.version, e.platform, e.queue, e.createdMs, payload)] else [])
      + JoinOne(a, envelope[1..])
  }

  function PayloadRows(batch: seq<Located>, envelope: seq<EnvelopeRow>): seq<Spilled> {
    if batch == [] then [] else JoinOne(batch[0], envelope) + PayloadRows(batch[1..], envelope)
  }

  // ---------------------------------------------------------------- the window and participantsSQL

  /** Region spellings, queue (zero for every queue that has an id) and the inclusive date range in days. */
  datatype Scope = Scope(platforms: set<string>, queue: int, fromDay: int, toDay: int)

  const DAY_MS := 86400000

  predicate InScope(s: Scope, platform: Option<string>, queue: Option<int>, createdMs: Option<int>) {
    && platform.Some? && platform.value in s.platforms
    && queue.Some? && (if s.queue <= 0 then queue.value > 0 else queue.value == s.queue)
    && createdMs.Some? && s.fromDay <= createdMs.value / DAY_MS <= s.toDay
  }

  /** split_part(version, '.', 1): up to the first dot. */
  function UpToDot(s: string): string {
    if s == "" || s[0] == '.' then "" else [s[0]] + UpToDot(s[1..])
  }

  function AfterDot(s: string): string {
    if s == "" then "" else if s[0] == '.' then s[1..] else AfterDot(s[1..])
  }

  /** The first two dotted parts of the game version; a missing part is the empty string. */
  function PatchOf(version: string): string {
    UpToDot(version) + "." + UpToDot(AfterDot(version))
  }

  datatype Feature = Feature(matchId: string, patch: string, p: Participant)

  function Unnest(m: string, patch: string, ps: seq<Participant>): seq<Feature> {
    if ps == [] then [] else [Feature(m, patch, ps[0])] + Unnest(m, patch, ps[1..])
  }

  /** `filterSQL`: a readable identity and a payload, inside the window. */
  predicate InWindow(s: Spilled, scope: Scope) {
    s.version.Some? && s.matchId.Some? && s.payload.Some? && InScope(scope, s.platform, s.queue, s.createdMs)
  }

  /** One row per member of the participants array; no array gives no rows. */
  function Unfold(s: Spilled, scope: Scope): seq<Feature> {
    if InWindow(s, scope) && s.payload.value.participants.Members?
    then Unnest(s.matchId.value, PatchOf(s.version.value), s.payload.value.participants.list)
    else []
  }

  function Features(spilled: seq<Spilled>, scope: Scope): seq<Feature> {
    if spilled == [] then [] else Unfold(spilled[0], scope) + Features(spilled[1..], scope)
  }

  /** The payload spill of the whole archive. */
  function Spill(all: seq<Located>): seq<Spilled> {
    PayloadRows(all, Envelope(all))
  }

  /** The extraction in one pass over the whole archive. */
  function WholeFeatures(all: seq<Located>, scope: Scope): seq<Feature> {
    Features(Spill(all), scope)
  }

  // ---------------------------------------------------------------- batching by parts

  datatype Part = Part(name: int, records: seq<Option<Payload>>)

  function LocatePart(name: int, records: seq<Option<Payload>>, from: nat): seq<Located> {
    if records == [] then [] else [Located(name, from, records[0])] + LocatePart(name, records[1..], from + 1)
  }

  function Locate(parts: seq<Part>): seq<Located> {
    if parts == [] then [] else LocatePart(parts[0].name, parts[0].records, 0) + Locate(parts[1..])
  }

  lemma {:induction false} LocateConcat(a: seq<Part>, b: seq<Part>)
    ensures Locate(a + b) == Locate(a) + Locate(b)
  {
    if a == [] {
      assert a + b == b;
    } else {
      assert (a + b)[1..] == a[1..] + b;
      LocateConcat(a[1..], b);
      Regroup(LocatePart(a[0].name, a[0].records, 0), Locate(a[1..]), Locate(b));
    }
  }

  lemma {:induction false} PayloadConcat(a: seq<Located>, b: seq<Located>, envelope: seq<EnvelopeRow>)
    ensures PayloadRows(a + b, envelope) == PayloadRows(a, envelope) + PayloadRows(b, envelope)
  {
    if a == [] {
      assert a + b == b;
    } else {
      assert (a + b)[1..] == a[1..] + b;
      PayloadConcat(a[1..], b, envelope);
      Regroup(JoinOne(a[0], envelope), PayloadRows(a[1..], envelope), PayloadRows(b, envelope));
    }
  }

  lemma {:induction false} FeaturesConcat(a: seq<Spilled>, b: seq<Spilled>, scope: Scope)
    ensures Features(a + b, scope) == Features(a, scope) + Features(b, scope)
  {
    if a == [] {
      assert a + b == b;
    } else {
      assert (a + b)[1..] == a[1..] + b;
      FeaturesConcat(a[1..], b, scope);
      Regroup(Unfold(a[0], scope), Features(a[1..], scope), Features(b, scope));
    }
  }

  /** A spilled payload has a participants member that cannot be unnested. */
  predicate HoldsNonArray(spilled: seq<Spilled>) {
    exists s | s in spilled :: s.payload.Some? && s.payload.value.participants.NotAnArray?
  }

  lemma SpillOfTwo(a: seq<Part>, b: seq<Part>, envelope: seq<EnvelopeRow>)
    ensures PayloadRows(Locate(a + b), envelope) == PayloadRows(Locate(a), envelope) + PayloadRows(Locate(b), envelope)
  {
    LocateConcat(a, b);
    PayloadConcat(Locate(a), Locate(b), envelope);
  }

  lemma BatchIsSpilled(parts: seq<Part>, start: nat, end: nat)
    requires start <= end <= |parts|
    requires HoldsNonArray(PayloadRows(Locate(parts[start..end]), Envelope(Locate(parts))))
    ensures HoldsNonArray(Spill(Locate(parts)))
  {
    var envelope := Envelope(Locate(parts));
    assert parts[..end] == parts[..start] + parts[start..end] && parts == parts[..end] + parts[end..];
    SpillOfTwo(parts[..start], parts[start..end], envelope);
    SpillOfTwo(parts[..end], parts[end..], envelope);
    HoldsOn(PayloadRows(Locate(parts[..start]), envelope), PayloadRows(Locate(parts[start..end]), envelope));
    HoldsBefore(PayloadRows(Locate(parts[..end]), envelope), PayloadRows(Locate(parts[end..]), envelope));
  }

  lemma HoldsOn(before: seq<Spilled>, batch: seq<Spilled>)
    requires HoldsNonArray(batch)
    ensures HoldsNonArray(before + batch)
  {
    var s :| s in batch && s.payload.Some? && s.payload.value.participants.NotAnArray?;
    assert s in before + batch;
  }

  lemma HoldsBefore(batch: seq<Spilled>, after: seq<Spilled>)
    requires HoldsNonArray(batch)
    ensures HoldsNonArray(batch + after)
  {
    var s :| s in batch && s.payload.Some? && s.payload.value.participants.NotAnArray?;
    assert s in batch + after;
  }

  /**
   * `extractScript`: the payload and feature statements once per batch of parts, every batch appending its rows.
   * A statement may fail, but only over a participants member that is there and is not an array.
   */
  method ExtractInBatches(parts: seq<Part>, batchParts: nat, scope: Scope) returns (extracted: Option<seq<Feature>>)
    requires batchParts >= 1
    ensures extracted.Some? ==> extracted.value == WholeFeatures(Locate(parts), scope)
    ensures extracted.None? ==> HoldsNonArray(Spill(Locate(parts)))
  {
    var envelope := Envelope(Locate(parts));
    var features := [];
    var start := 0;
    while start < |parts|
      invariant 0 <= start <= |parts|
      invariant features == Features(PayloadRows(Locate(parts[..start]), envelope), scope)
    {
      var end := if |parts| - start > batchParts then start + batchParts else |parts|;
      var batch := Locate(parts[start..end]);
      var matches := PayloadRows(batch, envelope);
      var refused: bool := *;
      if refused && HoldsNonArray(matches) {
        BatchIsSpilled(parts, start, end);
        return None;
      }
      features := features + Features(matches, scope);
      assert parts[..end] == parts[..start] + parts[start..end];
      SpillOfTwo(parts[..start], parts[start..end], envelope);
      FeaturesConcat(PayloadRows(Locate(parts[..start]), envelope), matches, scope);
      start := end;
    }
    assert parts[..start] == parts;
    extracted := Some(features);
  }

  // ---------------------------------------------------------------- the join is a filter

  function SpilledOf(l: Located): Spilled {
    var e := EnvelopeRowOf(l);
    Spilled(e.matchId, e.version, e.platform, e.queue, e.createdMs, l.payload)
  }

  function SpilledAll(kept: seq<Located>): seq<Spilled> {
    if kept == [] then [] else [SpilledOf(kept[0])] + SpilledAll(kept[1..])
  }

  predicate SamePlace(a: Located, b: Located) {
    a.part == b.part && a.row == b.row
  }

  lemma {:induction false} KeptFacts(all: seq<Located>, rows: seq<Located>)
    requires UniqueLocations(rows)
    ensures UniqueLocations(Kept(all, rows))
    ensures forall l :: l in Kept(all, rows) <==> l in rows && First(all, l)
  {
    if rows != [] {
      KeptFacts(all, rows[1..]);
      var rest := Kept(all, rows[1..]);
      assert rows == [rows[0]] + rows[1..];
      forall j | 0 <= j < |rest|
        ensures !SamePlace(rows[0], rest[j])
      {
        assert rest[j] in rows[1..];
      }
    }
  }

  lemma {:induction false} JoinMisses(a: Located, kept: seq<Located>)
    requires forall k | k in kept :: !SamePlace(a, k)
    ensures JoinOne(a, EnvelopeRows(kept)) == []
  {
    if kept != [] {
      assert kept[0] in kept;
      JoinMisses(a, kept[1..]);
      assert EnvelopeRows(kept)[1..] == EnvelopeRows(kept[1..]);
    }
  }

  /** A record meets its own envelope row and no other. */
  lemma {:induction false} JoinHits(a: Located, kept: seq<Located>)
    requires UniqueLocations(kept) && a in kept
    ensures JoinOne(a, EnvelopeRows(kept)) == [SpilledOf(a)]
  {
    assert EnvelopeRows(kept)[1..] == EnvelopeRows(kept[1..]);
    if a == kept[0] {
      JoinMisses(a, kept[1..]);
    } else {
      assert a in kept[1..];
      var i :| 0 <= i < |kept[1..]| && kept[1..][i] == a;
      assert !SamePlace(kept[0], kept[i + 1]);
      JoinHits(a, kept[1..]);
    }
  }

  lemma SamePlaceSame(all: seq<Located>, a: Located, b: Located)
    requires UniqueLocations(all) && a in all && b in all && SamePlace(a, b)
    ensures a == b
  {
    var i :| 0 <= i < |all| && all[i] == a;
    var j :| 0 <= j < |all| && all[j] == b;
    assert i == j || i < j || j < i;
  }

  lemma {:induction false} PayloadIsKept(all: seq<Located>, rows: seq<Located>)
    requires UniqueLocations(all) && forall l | l in rows :: l in all
    ensures PayloadRows(rows, Envelope(all)) == SpilledAll(Kept(all, rows))
  {
    if rows != [] {
      var a := rows[0];
      PayloadIsKept(all, rows[1..]);
      KeptFacts(all, all);
      if First(all, a) {
        JoinHits(a, Kept(all, all));
        assert ([a] + Kept(all, rows[1..]))[1..] == Kept(all, rows[1..]);
      } else {
        forall k | k in Kept(all, all)
          ensures !SamePlace(a, k)
        {
          if SamePlace(a, k) {
            SamePlaceSame(all, a, k);
          }
        }
        JoinMisses(a, Kept(all, all));
        assert [] + Kept(all, rows[1..]) == Kept(all, rows[1..]);
      }
    }
  }

  /** The two-statement extraction unfolds exactly the first record of every match. */
  lemma WholeIsKept(all: seq<Located>, scope: Scope)
    requires UniqueLocations(all)
    ensures WholeFeatures(all, scope) == Features(SpilledAll(Kept(all, all)), scope)
  {
    PayloadIsKept(all, all);
  }

  // ---------------------------------------------------------------- crawler duplicates

  function Without(rows: seq<Located>, extra: set<Located>): seq<Located> {
    if rows == [] then [] else (if rows[0] in extra then [] else [rows[0]]) + Without(rows[1..], extra)
  }

  lemma {:induction false} WithoutFacts(rows: seq<Located>, extra: set<Located>)
    requires UniqueLocations(rows)
    ensures UniqueLocations(Without(rows, extra))
    ensures forall l :: l in Without(rows, extra) <==> l in rows && l !in extra
  {
    if rows != [] {
      WithoutFacts(rows[1..], extra);
      var rest := Without(rows[1..], extra);
      assert rows == [rows[0]] + rows[1..];
      forall j | 0 <= j < |rest|
        ensures !SamePlace(rows[0], rest[j])
      {
        assert rest[j] in rows[1..];
      }
    }
  }

  /** Each extra record repeats a match whose earlier copy is not itself an extra. */
  predicate LaterCopies(rows: seq<Located>, extra: set<Located>) {
    forall d | d in extra :: MatchIdOf(d).Some?
      && exists a | a in rows && a !in extra :: MatchIdOf(a) == MatchIdOf(d) && Before(a, d)
  }

  lemma FirstIgnoresCopies(rows: seq<Located>, extra: set<Located>, l: Located)
    requires UniqueLocations(rows) && LaterCopies(rows, extra) && l in rows
    ensures l in extra ==> !First(rows, l)
    ensures l !in extra ==> (First(rows, l) <==> First(Without(rows, extra), l))
  {
    WithoutFacts(rows, extra);
    if l in extra {
      var a :| a in rows && a !in extra && MatchIdOf(a) == MatchIdOf(l) && Before(a, l);
      assert KeyOf(a) == KeyOf(l);
    } else if First(Without(rows, extra), l) {
      forall k | k in rows && KeyOf(k) == KeyOf(l)
        ensures !Before(k, l)
      {
        if k in extra {
          var a :| a in rows && a !in extra && MatchIdOf(a) == MatchIdOf(k) && Before(a, k);
          assert a in Without(rows, extra) && KeyOf(a) == KeyOf(l);
        } else {
          assert k in Without(rows, extra);
        }
      }
    }
  }

  lemma {:induction false} KeptIgnoresCopies(all: seq<Located>, extra: set<Located>, rows: seq<Located>)
    requires UniqueLocations(all) && LaterCopies(all, extra) && forall l | l in rows :: l in all
    ensures Kept(all, rows) == Kept(Without(all, extra), Without(rows, extra))
  {
    if rows != [] {
      var l := rows[0];
      FirstIgnoresCopies(all, extra, l);
      KeptIgnoresCopies(all, extra, rows[1..]);
      if l in extra {
        assert [] + Kept(all, rows[1..]) == Kept(all, rows[1..]);
        assert [] + Without(rows[1..], extra) == Without(rows[1..], extra);
      } else {
        assert Without(rows, extra)[1..] == Without(rows[1..], extra);
      }
    }
  }

  /** Second copies of archived matches, wherever they were written later, change no feature row and so no tally. */
  lemma DuplicatesChangeNothing(rows: seq<Located>, extra: set<Located>, scope: Scope)
    requires UniqueLocations(rows) && LaterCopies(rows, extra)
    ensures Spill(rows) == Spill(Without(rows, extra))
    ensures WholeFeatures(rows, scope) == WholeFeatures(Without(rows, extra), scope)
  {
    WithoutFacts(rows, extra);
    PayloadIsKept(rows, rows);
    PayloadIsKept(Without(rows, extra), Without(rows, extra));
    KeptIgnoresCopies(rows, extra, rows);
  }

  // ---------------------------------------------------------------- the archive as it is read

  predicate DistinctNames(parts: seq<Part>) {
    forall i, j | 0 <= i < j < |parts| :: parts[i].name != parts[j].name
  }

  predicate Named(parts: seq<Part>, name: int) {
    exists p | p in parts :: p.name == name
  }

  lemma {:induction false} RowsCountUp(name: int, records: seq<Option<Payload>>, from: nat)
    ensures UniqueLocations(LocatePart(name, records, from))
    ensures forall l | l in LocatePart(name, records, from) :: l.part == name && l.row >= from
  {
    if records != [] {
      RowsCountUp(name, records[1..], from + 1);
      var rest := LocatePart(name, records[1..], from + 1);
      forall j | 0 <= j < |rest|
        ensures rest[j].row != from
      {
        assert rest[j] in rest;
      }
    }
  }

  lemma UniqueConcat(a: seq<Located>, b: seq<Located>)
    requires UniqueLocations(a) && UniqueLocations(b)
    requires forall k, l | k in a && l in b :: k.part != l.part
    ensures UniqueLocations(a + b)
  {
    forall i, j | 0 <= i < j < |a + b|
      ensures !SamePlace((a + b)[i], (a + b)[j])
    {
      if i < |a| <= j {
        assert a[i] in a && b[j - |a|] in b;
      }
    }
  }

  /** Parts of different names: no two records of the archive share a location. */
  lemma {:induction false} ArchiveLocationsAreUnique(parts: seq<Part>)
    requires DistinctNames(parts)
    ensures UniqueLocations(Locate(parts))
    ensures forall l | l in Locate(parts) :: Named(parts, l.part)
  {
    if parts != [] {
      var first := LocatePart(parts[0].name, parts[0].records, 0);
      RowsCountUp(parts[0].name, parts[0].records, 0);
      ArchiveLocationsAreUnique(parts[1..]);
      forall l | l in Locate(parts[1..])
        ensures l.part != parts[0].name && Named(parts, l.part)
      {
        var p :| p in parts[1..] && p.name == l.part;
        var i :| 0 <= i < |parts[1..]| && parts[1..][i] == p;
        assert parts[i + 1] == p;
      }
      assert parts[0] in parts;
      UniqueConcat(first, Locate(parts[1..]));
    }
  }

  lemma {:induction false} WithoutTail(a: seq<Located>, b: seq<Located>, extra: set<Located>)
    requires forall l | l in a :: l !in extra
    requires forall l | l in b :: l in extra
    ensures Without(a + b, extra) == a
  {
    if a != [] {
      assert (a + b)[1..] == a[1..] + b;
      WithoutTail(a[1..], b, extra);
    } else if b != [] {
      assert a + b == b;
      WithoutTail([], b[1..], extra);
      assert [] + b[1..] == b[1..];
    }
  }

  /** Every record of `copies` carries the id of a record in `parts`. */
  predicate Copies(parts: seq<Part>, copies: seq<Part>) {
    forall d | d in Locate(copies) :: MatchIdOf(d).Some?
      && exists a | a in Locate(parts) :: MatchIdOf(a) == MatchIdOf(d)
  }

  /** Every part of `after` is numbered above every part of `parts`. */
  predicate NumberedAbove(parts: seq<Part>, after: seq<Part>) {
    forall p, q | p in parts && q in after :: p.name < q.name
  }

  lemma PartsAreBefore(parts: seq<Part>, copies: seq<Part>, a: Located, d: Located)
    requires DistinctNames(parts) && DistinctNames(copies) && NumberedAbove(parts, copies)
    requires a in Locate(parts) && d in Locate(copies)
    ensures a.part < d.part
  {
    ArchiveLocationsAreUnique(parts);
    ArchiveLocationsAreUnique(copies);
    var p :| p in parts && p.name == a.part;
    var q :| q in copies && q.name == d.part;
  }

  /** A crawl that writes parts of matches already archived adds nothing to what is extracted. */
  lemma PartsOfCopiesChangeNothing(parts: seq<Part>, copies: seq<Part>, scope: Scope)
    requires DistinctNames(parts) && DistinctNames(copies) && NumberedAbove(parts, copies)
    requires Copies(parts, copies)
    ensures Spill(Locate(parts + copies)) == Spill(Locate(parts))
    ensures WholeFeatures(Locate(parts + copies), scope) == WholeFeatures(Locate(parts), scope)
  {
    var a, b := Locate(parts), Locate(copies);
    var extra := set l | l in b;
    LocateConcat(parts, copies);
    ArchiveLocationsAreUnique(parts);
    ArchiveLocationsAreUnique(copies);
    forall k, l | k in a && l in b
      ensures k.part < l.part
    {
      PartsAreBefore(parts, copies, k, l);
    }
    UniqueConcat(a, b);
    CopiesComeLater(a, b, extra);
    WithoutTail(a, b, extra);
    DuplicatesChangeNothing(a + b, extra, scope);
  }

  lemma CopiesComeLater(a: seq<Located>, b: seq<Located>, extra: set<Located>)
    requires forall k, l | k in a && l in b :: k.part < l.part
    requires forall l | l in b :: MatchIdOf(l).Some? && exists k | k in a :: MatchIdOf(k) == MatchIdOf(l)
    requires extra == set l | l in b
    ensures LaterCopies(a + b, extra)
  {
    forall d | d in extra
      ensures exists k | k in a + b && k !in extra :: MatchIdOf(k) == MatchIdOf(d) && Before(k, d)
    {
      var k :| k in a && MatchIdOf(k) == MatchIdOf(d);
      assert k in a + b;
    }
  }
}
