/** The manifest: merging the live document, the tree and the partition just built, and checking the result. */
module Manifest {
  import opened Collections
  import opened Options
  import opened PartitionOrder
  import Sorting

  datatype Document = Document(source: string, partitions: seq<Partition>, latest: Partition)

  /** What reading `v1/manifest.json` gives. */
  datatype Live = Absent | Unreadable | Present(doc: Document)

  datatype Discovered = Discovered(partition: Partition, source: string)

  datatype Error = UnknownSource | ManifestUnreadable | MixedSources

  datatype Result<T> = Ok(value: T) | Err(error: Error)

  predicate ValidSource(s: string) {
    s == "riot-match-v5" || s == "demo"
  }

  /** `mergeSource`: an artifact that names no source is taken along. */
  predicate Mixes(seen: string, source: string) {
    seen != "" && seen != source
  }

  // ---------------------------------------------------------------- what each layer says about a key

  /** The document's entry: the last one, should it list a key twice. */
  function Listed(ps: seq<Partition>, k: Key): Option<Partition> {
    if ps == [] then None
    else if KeyOf(ps[|ps| - 1]) == k then Some(ps[|ps| - 1])
    else Listed(ps[..|ps| - 1], k)
  }

  /** The tree's entry: the first one found. */
  function Scanned(found: seq<Discovered>, k: Key): Option<Partition> {
    if found == [] then None
    else
      var before := Scanned(found[..|found| - 1], k);
      if before.Some? then before
      else if KeyOf(found[|found| - 1].partition) == k then Some(found[|found| - 1].partition)
      else None
  }

  function LiveEntries(live: Live): seq<Partition> {
    if live.Present? then live.doc.partitions else []
  }

  /** Built over live over discovered; a build without a patch adds nothing. */
  function Expected(live: Live, found: seq<Discovered>, built: Partition, k: Key): Option<Partition> {
    if built.patch != "" && KeyOf(built) == k then Some(built)
    else if Listed(LiveEntries(live), k).Some? then Listed(LiveEntries(live), k)
    else Scanned(found, k)
  }

  function Lookup(known: map<Key, Partition>, k: Key): Option<Partition> {
    if k in known then Some(known[k]) else None
  }

  lemma {:induction false} ListedHasKey(ps: seq<Partition>, k: Key)
    ensures Listed(ps, k).Some? ==> KeyOf(Listed(ps, k).value) == k && Listed(ps, k).value in ps
    ensures Listed(ps, k).None? <==> forall p | p in ps :: KeyOf(p) != k
  {
    if ps != [] {
      ListedHasKey(ps[..|ps| - 1], k);
      assert ps == ps[..|ps| - 1] + [ps[|ps| - 1]];
    }
  }

  lemma {:induction false} ScannedHasKey(found: seq<Discovered>, k: Key)
    ensures Scanned(found, k).Some? ==> KeyOf(Scanned(found, k).value) == k
    ensures Scanned(found, k).None? <==> forall d | d in found :: KeyOf(d.partition) != k
  {
    if found != [] {
      ScannedHasKey(found[..|found| - 1], k);
      assert found == found[..|found| - 1] + [found[|found| - 1]];
    }
  }

  lemma ExpectedHasKey(live: Live, found: seq<Discovered>, built: Partition, k: Key)
    ensures Expected(live, found, built, k).Some? ==> KeyOf(Expected(live, found, built, k).value) == k
  {
    ListedHasKey(LiveEntries(live), k);
    ScannedHasKey(found, k);
  }

  // ---------------------------------------------------------------- UpdateManifest

  predicate AnyMixes(found: seq<Discovered>, source: string) {
    exists d | d in found :: Mixes(d.source, source)
  }

  /** Every reason to refuse the merge. */
  predicate Refused(live: Live, found: seq<Discovered>, source: string) {
    !ValidSource(source) || live.Unreadable? || (live.Present? && Mixes(live.doc.source, source))
    || AnyMixes(found, source)
  }

  method LayerLive(ps: seq<Partition>) returns (known: map<Key, Partition>)
    ensures forall k :: Lookup(known, k) == Listed(ps, k)
  {
    known := map[];
    var i := 0;
    while i < |ps|
      invariant 0 <= i <= |ps|
      invariant forall k :: Lookup(known, k) == Listed(ps[..i], k)
    {
      assert ps[..i + 1][..i] == ps[..i];
      known := known[KeyOf(ps[i]) := ps[i]];
      i := i + 1;
    }
    assert ps[..i] == ps;
  }

  function Under(live: Option<Partition>, scanned: Option<Partition>): Option<Partition> {
    if live.Some? then live else scanned
  }

  method LayerFound(lower: map<Key, Partition>, found: seq<Discovered>, source: string)
    returns (mixed: bool, known: map<Key, Partition>)
    ensures mixed <==> AnyMixes(found, source)
    ensures !mixed ==> forall k :: Lookup(known, k) == Under(Lookup(lower, k), Scanned(found, k))
  {
    known := lower;
    var i := 0;
    while i < |found|
      invariant 0 <= i <= |found|
      invariant forall d | d in found[..i] :: !Mixes(d.source, source)
      invariant forall k :: Lookup(known, k) == Under(Lookup(lower, k), Scanned(found[..i], k))
    {
      if Mixes(found[i].source, source) {
        assert found[i] in found;
        return true, known;
      }
      assert found[..i + 1][..i] == found[..i];
      assert found[..i + 1] == found[..i] + [found[i]];
      var k := KeyOf(found[i].partition);
      if k !in known {
        known := known[k := found[i].partition];
      }
      i := i + 1;
    }
    assert found[..i] == found;
    mixed := false;
  }

  ghost predicate Keyed(known: map<Key, Partition>) {
    forall k | k in known :: KeyOf(known[k]) == k
  }

  /** The entries of the map, in whatever order it yields them. */
  method Entries(known: map<Key, Partition>) returns (ps: seq<Partition>)
    requires Keyed(known)
    ensures UniqueKeys(ps)
    ensures forall p :: p in ps <==> Lookup(known, KeyOf(p)) == Some(p)
  {
    ps := [];
    var rest := known.Keys;
    while rest != {}
      invariant UniqueKeys(ps)
      invariant rest <= known.Keys
      invariant forall p :: p in ps <==> KeyOf(p) !in rest && Lookup(known, KeyOf(p)) == Some(p)
      decreases |rest|
    {
      var k := AnyMember(rest);
      assert forall i | 0 <= i < |ps| :: ps[i] in ps;
      ps := ps + [known[k]];
      rest := rest - {k};
    }
  }

  lemma {:induction false} UniqueHoldsOnce(ps: seq<Partition>, p: Partition)
    requires UniqueKeys(ps)
    ensures multiset(ps)[p] <= 1
  {
    if ps != [] {
      var front, last := ps[..|ps| - 1], ps[|ps| - 1];
      assert ps == front + [last];
      UniqueHoldsOnce(front, p);
      if p == last {
        assert forall i | 0 <= i < |front| :: front[i] == ps[i] && KeyOf(ps[i]) != KeyOf(last);
        assert last !in front;
      }
    }
  }

  lemma UniqueSurvivesPermutation(a: seq<Partition>, b: seq<Partition>)
    requires multiset(a) == multiset(b) && UniqueKeys(a)
    ensures UniqueKeys(b)
  {
    forall i, j | 0 <= i < j < |b|
      ensures KeyOf(b[i]) != KeyOf(b[j])
    {
      Sorting.SameElements(a, b);
      assert b[i] in b && b[j] in b;
      var k :| 0 <= k < |a| && a[k] == b[i];
      var m :| 0 <= m < |a| && a[m] == b[j];
      if b[i] == b[j] {
        UniqueHoldsOnce(a, b[i]);
        HeldTwice(b, i, j);
      } else {
        assert k < m || m < k;
      }
    }
  }

  method LatestOf(read: Reader, ps: seq<Partition>, built: Partition) returns (latest: Partition)
    ensures latest == Latest(read, ps, built)
  {
    if |ps| == 0 {
      return built;
    }
    var best := ps[0];
    var i := 1;
    while i < |ps|
      invariant 1 <= i <= |ps|
      invariant best == Best(read, ps[..i])
    {
      assert ps[..i + 1][..i] == ps[..i];
      if ComparePatch(read, ps[i].patch, best.patch) > 0 {
        best := ps[i];
      }
      i := i + 1;
    }
    assert ps[..i] == ps;
    if built.patch != "" && ComparePatch(read, built.patch, best.patch) >= 0 {
      return built;
    }
    latest := best;
  }

  /** The first partition no later one improves on. */
  function Best(read: Reader, ps: seq<Partition>): Partition
    requires ps != []
  {
    if |ps| == 1 then ps[0]
    else
      var best := Best(read, ps[..|ps| - 1]);
      if ComparePatch(read, ps[|ps| - 1].patch, best.patch) > 0 then ps[|ps| - 1] else best
  }

  function Latest(read: Reader, ps: seq<Partition>, built: Partition): Partition {
    if ps == [] then built
    else if built.patch != "" && ComparePatch(read, built.patch, Best(read, ps).patch) >= 0 then built
    else Best(read, ps)
  }

  /** The published list: sorted, and holding for every key exactly what the layers say. */
  ghost predicate Merged(read: Reader, doc: Document, live: Live, found: seq<Discovered>, built: Partition) {
    && UniqueKeys(doc.partitions)
    && (forall p :: p in doc.partitions <==> Expected(live, found, built, KeyOf(p)) == Some(p))
    && (AllReadable(read, doc.partitions) ==> InOrder(read, doc.partitions))
    && doc.latest == Latest(read, doc.partitions, built)
  }

  method UpdateManifest(read: Reader, live: Live, found: seq<Discovered>, built: Partition, source: string)
    returns (r: Result<Document>)
    ensures r.Err? <==> Refused(live, found, source)
    ensures r.Err? ==>
      r.error == if !ValidSource(source) then UnknownSource
                 else if live.Unreadable? then ManifestUnreadable else MixedSources
    ensures r.Ok? ==> r.value.source == source && Merged(read, r.value, live, found, built)
  {
    if !ValidSource(source) {
      return Err(UnknownSource);
    }
    if live.Unreadable? {
      return Err(ManifestUnreadable);
    }
    if live.Present? && Mixes(live.doc.source, source) {
      return Err(MixedSources);
    }
    var lower := LayerLive(LiveEntries(live));
    var mixed, known := LayerFound(lower, found, source);
    if mixed {
      return Err(MixedSources);
    }
    if built.patch != "" {
      known := known[KeyOf(built) := built];
    }
    assert forall k :: Lookup(known, k) == Expected(live, found, built, k);
    forall k | k in known
      ensures KeyOf(known[k]) == k
    {
      assert Lookup(known, k) == Some(known[k]);
      ExpectedHasKey(live, found, built, k);
    }
    var entries := Entries(known);
    var sorted := Sorting.Sorted(Order(read), entries);
    SortedKeepsEntries(read, entries);
    var latest := LatestOf(read, sorted, built);
    r := Ok(Document(source, sorted, latest));
  }

  lemma SortedKeepsEntries(read: Reader, ps: seq<Partition>)
    requires UniqueKeys(ps)
    ensures UniqueKeys(Sorting.Sorted(Order(read), ps))
    ensures forall p :: p in Sorting.Sorted(Order(read), ps) <==> p in ps
    ensures AllReadable(read, Sorting.Sorted(Order(read), ps)) ==> InOrder(read, Sorting.Sorted(Order(read), ps))
  {
    Sorting.SortedIsPermutation(Order(read), ps);
    UniqueSurvivesPermutation(ps, Sorting.Sorted(Order(read), ps));
    if AllReadable(read, Sorting.Sorted(Order(read), ps)) {
      SortedIsInOrder(read, ps);
    }
  }

  // ---------------------------------------------------------------- what a merge keeps

  /** No partition the document or the tree knows is lost, and the build just made is listed as it was built. */
  lemma NothingIsLost(read: Reader, doc: Document, live: Live, found: seq<Discovered>, built: Partition)
    requires Merged(read, doc, live, found, built)
    ensures forall p | p in LiveEntries(live) :: exists q | q in doc.partitions :: KeyOf(q) == KeyOf(p)
    ensures forall d | d in found :: exists q | q in doc.partitions :: KeyOf(q) == KeyOf(d.partition)
    ensures built.patch != "" ==> built in doc.partitions
    ensures forall q | q in doc.partitions :: q.patch == "" ==>
              (exists p | p in LiveEntries(live) :: p == q) || exists d | d in found :: d.partition == q
  {
    forall k | Expected(live, found, built, k).Some?
      ensures exists q | q in doc.partitions :: KeyOf(q) == k
    {
      ExpectedHasKey(live, found, built, k);
      var q := Expected(live, found, built, k).value;
      assert q in doc.partitions && KeyOf(q) == k;
    }
    forall p | p in LiveEntries(live)
      ensures Expected(live, found, built, KeyOf(p)).Some?
    {
      ListedHasKey(LiveEntries(live), KeyOf(p));
    }
    forall d | d in found
      ensures Expected(live, found, built, KeyOf(d.partition)).Some?
    {
      ScannedHasKey(found, KeyOf(d.partition));
    }
    forall q | q in doc.partitions && q.patch == ""
      ensures (exists p | p in LiveEntries(live) :: p == q) || exists d | d in found :: d.partition == q
    {
      ListedHasKey(LiveEntries(live), KeyOf(q));
      ScannedIsFound(found, KeyOf(q));
    }
  }

  lemma {:induction false} ScannedIsFound(found: seq<Discovered>, k: Key)
    ensures Scanned(found, k).Some? ==> exists d | d in found :: d.partition == Scanned(found, k).value
  {
    if found != [] {
      ScannedIsFound(found[..|found| - 1], k);
      assert found == found[..|found| - 1] + [found[|found| - 1]];
    }
  }

  lemma {:induction false} BestIsMaximal(read: Reader, ps: seq<Partition>)
    requires ps != [] && AllReadable(read, ps)
    ensures Best(read, ps) in ps
    ensures forall p | p in ps :: ComparePatch(read, p.patch, Best(read, ps).patch) <= 0
  {
    if |ps| > 1 {
      var front, last := ps[..|ps| - 1], ps[|ps| - 1];
      assert ps == front + [last];
      assert last in ps && forall p | p in front :: p in ps;
      BestIsMaximal(read, front);
    } else {
      assert ps == [ps[0]];
    }
  }

  /** `latest` is listed, no listed patch is newer, and a build as new as any other is the one it names. */
  lemma LatestIsNewest(read: Reader, doc: Document, live: Live, found: seq<Discovered>, built: Partition)
    requires Merged(read, doc, live, found, built) && AllReadable(read, doc.partitions) && doc.partitions != []
    ensures doc.latest in doc.partitions
    ensures forall p | p in doc.partitions :: ComparePatch(read, p.patch, doc.latest.patch) <= 0
    ensures built.patch != "" && ComparePatch(read, built.patch, doc.latest.patch) == 0 ==> doc.latest == built
  {
    BestIsMaximal(read, doc.partitions);
    if built.patch != "" {
      NothingIsLost(read, doc, live, found, built);
    }
  }

  lemma FirstIsBest(read: Reader, ps: seq<Partition>)
    requires ps != [] && AllReadable(read, ps) && InOrder(read, ps)
    ensures Best(read, ps) == ps[0]
  {
    if |ps| > 1 {
      var front := ps[..|ps| - 1];
      assert forall p | p in front :: p in ps;
      assert ps[0] in ps && ps[|ps| - 1] in ps;
      FirstIsBest(read, front);
      assert !Before(read, ps[|ps| - 1], ps[0]);
    }
  }

  /**
   * Re-indexing a written manifest leaves its list as it is: with no build of its own, over a tree that holds
   * nothing the manifest does not list, the merge gives back the very same sequence.
   */
  lemma ReindexChangesNothing(read: Reader, doc: Document, again: Document, found: seq<Discovered>, zero: Partition)
    requires UniqueKeys(doc.partitions) && Canonical(read, doc.partitions) && InOrder(read, doc.partitions)
    requires zero.patch == "" && Merged(read, again, Present(doc), found, zero)
    requires forall d | d in found :: exists p | p in doc.partitions :: KeyOf(p) == KeyOf(d.partition)
    ensures again.partitions == doc.partitions
  {
    forall p
      ensures p in again.partitions <==> p in doc.partitions
    {
      ReindexedEntry(doc, found, zero, p);
    }
    OrderIsDetermined(read, doc.partitions, again.partitions);
  }

  lemma ReindexedEntry(doc: Document, found: seq<Discovered>, zero: Partition, p: Partition)
    requires UniqueKeys(doc.partitions) && zero.patch == ""
    requires forall d | d in found :: exists p | p in doc.partitions :: KeyOf(p) == KeyOf(d.partition)
    ensures Expected(Present(doc), found, zero, KeyOf(p)) == Some(p) <==> p in doc.partitions
  {
    var k := KeyOf(p);
    ListedHasKey(doc.partitions, k);
    ScannedHasKey(found, k);
    if p in doc.partitions {
      ListedOnce(doc.partitions, p);
    } else if Listed(doc.partitions, k).None? {
      assert Scanned(found, k).None?;
    }
  }

  lemma ListedOnce(ps: seq<Partition>, p: Partition)
    requires UniqueKeys(ps) && p in ps
    ensures Listed(ps, KeyOf(p)) == Some(p)
  {
    ListedHasKey(ps, KeyOf(p));
    var q := Listed(ps, KeyOf(p)).value;
    var i :| 0 <= i < |ps| && ps[i] == p;
    var j :| 0 <= j < |ps| && ps[j] == q;
    assert i == j || KeyOf(ps[i]) != KeyOf(ps[j]);
  }

  // ---------------------------------------------------------------- the verifier's reading of the manifest

  datatype Problem = NoPartitions | ListedTwice(key: Key) | WrongLatest

  class Verifier {
    var problems: seq<Problem>

    constructor ()
      ensures problems == []
    {
      problems := [];
    }

    /** Complains once for every entry whose key an earlier entry carries. */
    method DuplicatePartitions(ps: seq<Partition>)
      modifies this
      ensures problems == old(problems) + Repeats(ps)
    {
      var seen: set<Key> := {};
      var i := 0;
      while i < |ps|
        invariant 0 <= i <= |ps|
        invariant seen == KeysOf(ps[..i])
        invariant problems == old(problems) + Repeats(ps[..i])
      {
        OneMoreEntry(ps, i);
        if KeyOf(ps[i]) in seen {
          problems := problems + [ListedTwice(KeyOf(ps[i]))];
        } else {
          seen := seen + {KeyOf(ps[i])};
        }
        i := i + 1;
      }
      assert ps[..i] == ps;
    }

    method CheckLatest(read: Reader, doc: Document)
      modifies this
      ensures problems == old(problems) + LatestProblems(read, doc)
    {
      if |doc.partitions| == 0 {
        problems := problems + [NoPartitions];
        return;
      }
      var name := NewestPatch(read, doc.partitions);
      var newest := FirstOf(doc.partitions, name);
      if KeyOf(doc.latest) != KeyOf(newest) {
        problems := problems + [WrongLatest];
      }
    }
  }

  function KeysOf(ps: seq<Partition>): set<Key> {
    if ps == [] then {} else KeysOf(ps[..|ps| - 1]) + {KeyOf(ps[|ps| - 1])}
  }

  lemma {:induction false} KeysAreNamed(ps: seq<Partition>, k: Key)
    ensures k in KeysOf(ps) <==> Names(ps, k)
  {
    if ps != [] {
      KeysAreNamed(ps[..|ps| - 1], k);
      assert ps == ps[..|ps| - 1] + [ps[|ps| - 1]];
    }
  }

  lemma OneMoreEntry(ps: seq<Partition>, i: nat)
    requires i < |ps|
    ensures KeysOf(ps[..i + 1]) == KeysOf(ps[..i]) + {KeyOf(ps[i])}
    ensures Repeats(ps[..i + 1])
      == Repeats(ps[..i]) + if KeyOf(ps[i]) in KeysOf(ps[..i]) then [ListedTwice(KeyOf(ps[i]))] else []
  {
    assert ps[..i + 1][..i] == ps[..i];
    KeysAreNamed(ps[..i], KeyOf(ps[i]));
  }

  function Repeats(ps: seq<Partition>): seq<Problem> {
    if ps == [] then []
    else
      var (front, last) := (ps[..|ps| - 1], ps[|ps| - 1]);
      Repeats(front) + if Names(front, KeyOf(last)) then [ListedTwice(KeyOf(last))] else []
  }

  /** `newestPatch` over the listed patches: the first that no later one improves on. */
  method NewestPatch(read: Reader, ps: seq<Partition>) returns (newest: string)
    ensures newest == Newest(read, ps)
  {
    newest := "";
    var i := 0;
    while i < |ps|
      invariant 0 <= i <= |ps|
      invariant newest == Newest(read, ps[..i])
    {
      assert ps[..i + 1][..i] == ps[..i];
      if newest == "" || ComparePatch(read, ps[i].patch, newest) > 0 {
        newest := ps[i].patch;
      }
      i := i + 1;
    }
    assert ps[..i] == ps;
  }

  function Newest(read: Reader, ps: seq<Partition>): string {
    if ps == [] then ""
    else
      var (before, last) := (Newest(read, ps[..|ps| - 1]), ps[|ps| - 1].patch);
      if before == "" || ComparePatch(read, last, before) > 0 then last else before
  }

  /** The first partition of that patch, or the first of all. */
  method FirstOf(ps: seq<Partition>, patch: string) returns (p: Partition)
    requires ps != []
    ensures p == FirstNamed(ps, patch, ps[0])
  {
    p := ps[0];
    var i := 0;
    while i < |ps|
      invariant 0 <= i <= |ps|
      invariant FirstNamed(ps, patch, ps[0]) == FirstNamed(ps[i..], patch, ps[0])
    {
      assert ps[i..][1..] == ps[i + 1..];
      if ps[i].patch == patch {
        return ps[i];
      }
      i := i + 1;
    }
  }

  function FirstNamed(ps: seq<Partition>, patch: string, default: Partition): Partition {
    if ps == [] then default else if ps[0].patch == patch then ps[0] else FirstNamed(ps[1..], patch, default)
  }

  function LatestProblems(read: Reader, doc: Document): seq<Problem> {
    if doc.partitions == [] then [NoPartitions]
    else
      var newest := FirstNamed(doc.partitions, Newest(read, doc.partitions), doc.partitions[0]);
      if KeyOf(doc.latest) != KeyOf(newest) then [WrongLatest] else []
  }

  predicate Names(ps: seq<Partition>, k: Key) {
    exists p | p in ps :: KeyOf(p) == k
  }

  lemma UniqueSnoc(front: seq<Partition>, last: Partition)
    ensures UniqueKeys(front + [last]) <==> UniqueKeys(front) && !Names(front, KeyOf(last))
  {
    var ps := front + [last];
    assert forall i | 0 <= i < |front| :: front[i] == ps[i];
    if Names(front, KeyOf(last)) {
      var p :| p in front && KeyOf(p) == KeyOf(last);
      var i :| 0 <= i < |front| && front[i] == p;
      assert KeyOf(ps[i]) == KeyOf(ps[|front|]);
    } else {
      assert forall i | 0 <= i < |front| :: front[i] in front;
    }
  }

  lemma {:induction false} NoRepeats(ps: seq<Partition>)
    ensures Repeats(ps) == [] <==> UniqueKeys(ps)
  {
    if ps != [] {
      var front, last := ps[..|ps| - 1], ps[|ps| - 1];
      assert ps == front + [last];
      NoRepeats(front);
      UniqueSnoc(front, last);
    }
  }

  lemma {:induction false} NewestIsFirst(read: Reader, ps: seq<Partition>)
    requires ps != [] && AllReadable(read, ps) && InOrder(read, ps) && forall p | p in ps :: p.patch != ""
    ensures Newest(read, ps) == ps[0].patch
  {
    var front := ps[..|ps| - 1];
    if |ps| > 1 {
      assert forall p | p in front :: p in ps;
      assert ps[0] in ps && ps[|ps| - 1] in ps;
      NewestIsFirst(read, front);
      assert !Before(read, ps[|ps| - 1], ps[0]);
    } else {
      assert Newest(read, front) == "";
    }
  }

  /** The build is as new as the first entry without being it: `latest` and the head of the list part ways. */
  predicate BehindTheFirst(read: Reader, ps: seq<Partition>, built: Partition)
    requires ps != []
  {
    && built.patch != ""
    && ComparePatch(read, built.patch, ps[0].patch) >= 0
    && KeyOf(built) != KeyOf(ps[0])
  }

  /** The verifier looks for `latest` at the head of the list; the merge gives it to the build that wins a tie. */
  lemma LatestPassesUnlessBehindTheFirst(read: Reader, doc: Document, live: Live, found: seq<Discovered>,
      built: Partition)
    requires Merged(read, doc, live, found, built) && AllReadable(read, doc.partitions) && doc.partitions != []
    requires forall p | p in doc.partitions :: p.patch != ""
    ensures Repeats(doc.partitions) == []
    ensures LatestProblems(read, doc) == [] <==> !BehindTheFirst(read, doc.partitions, built)
  {
    NoRepeats(doc.partitions);
    FirstIsBest(read, doc.partitions);
    NewestIsFirst(read, doc.partitions);
  }

  // ---------------------------------------------------------------- the same, before the merge

  /** Known to the live document or found in the tree. */
  predicate Offered(live: Live, found: seq<Discovered>, p: Partition) {
    p in LiveEntries(live) || exists d | d in found :: d.partition == p
  }

  predicate Entry(live: Live, found: seq<Discovered>, built: Partition, p: Partition) {
    (built.patch != "" && p == built) || Offered(live, found, p)
  }

  /** Every patch that goes into the merge is one that reads, in its one spelling. */
  ghost predicate OneSpelling(read: Reader, live: Live, found: seq<Discovered>, built: Partition) {
    && (forall p | Entry(live, found, built, p) :: p.patch != "" && Readable(read, p))
    && forall p, q | Entry(live, found, built, p) && Entry(live, found, built, q) && read(p.patch) == read(q.patch) ::
      p.patch == q.patch
  }

  /** The build ties with the newest patch known, and some region, queue or bracket of it goes before the built one. */
  ghost predicate WinsATieFromBehind(read: Reader, live: Live, found: seq<Discovered>, built: Partition) {
    && built.patch != ""
    && (forall p | Offered(live, found, p) :: ComparePatch(read, p.patch, built.patch) <= 0)
    && exists p | Offered(live, found, p) :: ComparePatch(read, p.patch, built.patch) == 0 && Before(read, p, built)
  }

  lemma ListedWasEntered(read: Reader, doc: Document, live: Live, found: seq<Discovered>, built: Partition,
      q: Partition)
    requires Merged(read, doc, live, found, built) && q in doc.partitions
    ensures Entry(live, found, built, q)
    ensures KeyOf(q) != KeyOf(built) ==> Offered(live, found, q)
  {
    assert Expected(live, found, built, KeyOf(q)) == Some(q);
    ListedHasKey(LiveEntries(live), KeyOf(q));
    ScannedIsFound(found, KeyOf(q));
  }

  lemma EnteredIsListed(read: Reader, doc: Document, live: Live, found: seq<Discovered>, built: Partition, p: Partition)
    returns (q: Partition)
    requires Merged(read, doc, live, found, built) && Entry(live, found, built, p)
    ensures q in doc.partitions && KeyOf(q) == KeyOf(p)
  {
    NothingIsLost(read, doc, live, found, built);
    q :| q in doc.partitions && KeyOf(q) == KeyOf(p);
  }

  lemma ListedIsCanonical(read: Reader, doc: Document, live: Live, found: seq<Discovered>, built: Partition)
    requires Merged(read, doc, live, found, built) && OneSpelling(read, live, found, built)
    ensures Canonical(read, doc.partitions) && InOrder(read, doc.partitions)
    ensures forall p | p in doc.partitions :: p.patch != ""
  {
    forall q | q in doc.partitions
      ensures Entry(live, found, built, q)
    {
      ListedWasEntered(read, doc, live, found, built, q);
    }
  }

  /** Nothing listed is newer than a build that no known entry is newer than, and the other way round. */
  lemma NewestBothWays(read: Reader, doc: Document, live: Live, found: seq<Discovered>, built: Partition)
    requires Merged(read, doc, live, found, built) && OneSpelling(read, live, found, built)
    requires doc.partitions != [] && built.patch != ""
    ensures ComparePatch(read, built.patch, doc.partitions[0].patch) >= 0
      <==> forall p | Offered(live, found, p) :: ComparePatch(read, p.patch, built.patch) <= 0
  {
    var first := doc.partitions[0];
    ListedIsCanonical(read, doc, live, found, built);
    ListedWasEntered(read, doc, live, found, built, first);
    FirstIsBest(read, doc.partitions);
    BestIsMaximal(read, doc.partitions);
    forall p | Offered(live, found, p)
      ensures ComparePatch(read, p.patch, first.patch) <= 0
    {
      var q := EnteredIsListed(read, doc, live, found, built, p);
    }
  }

  lemma BehindWasOffered(read: Reader, doc: Document, live: Live, found: seq<Discovered>, built: Partition)
    requires Merged(read, doc, live, found, built) && OneSpelling(read, live, found, built)
    requires doc.partitions != [] && BehindTheFirst(read, doc.partitions, built)
    ensures WinsATieFromBehind(read, live, found, built)
  {
    var ps, first := doc.partitions, doc.partitions[0];
    ListedIsCanonical(read, doc, live, found, built);
    ListedWasEntered(read, doc, live, found, built, first);
    NewestBothWays(read, doc, live, found, built);
    NothingIsLost(read, doc, live, found, built);
    var i :| 0 <= i < |ps| && ps[i] == built;
    assert !Before(read, ps[i], ps[0]);
    if !Before(read, first, built) {
      KeyDecides(read, first, built);
    }
  }

  lemma OfferedIsBehind(read: Reader, doc: Document, live: Live, found: seq<Discovered>, built: Partition)
    requires Merged(read, doc, live, found, built) && OneSpelling(read, live, found, built)
    requires doc.partitions != [] && WinsATieFromBehind(read, live, found, built)
    ensures BehindTheFirst(read, doc.partitions, built)
  {
    var ps, first := doc.partitions, doc.partitions[0];
    ListedIsCanonical(read, doc, live, found, built);
    NewestBothWays(read, doc, live, found, built);
    var p :| Offered(live, found, p) && ComparePatch(read, p.patch, built.patch) == 0 && Before(read, p, built);
    if KeyOf(first) == KeyOf(built) {
      var q := EnteredIsListed(read, doc, live, found, built, p);
      var i :| 0 <= i < |ps| && ps[i] == q;
      assert Before(read, q, first);
      BeforeAsymmetric(read, q, first);
      assert false;
    }
  }

  /**
   * `latest` passes the verifier exactly when the build is older than something known, goes before everything
   * it ties with, or was not made; what was known and what was built decide it before the merge.
   */
  lemma LatestPassesUnlessTieWonFromBehind(read: Reader, doc: Document, live: Live, found: seq<Discovered>,
      built: Partition)
    requires Merged(read, doc, live, found, built) && OneSpelling(read, live, found, built) && doc.partitions != []
    ensures Repeats(doc.partitions) == []
    ensures LatestProblems(read, doc) == [] <==> !WinsATieFromBehind(read, live, found, built)
  {
    ListedIsCanonical(read, doc, live, found, built);
    LatestPassesUnlessBehindTheFirst(read, doc, live, found, built);
    if BehindTheFirst(read, doc.partitions, built) {
      BehindWasOffered(read, doc, live, found, built);
    } else if WinsATieFromBehind(read, live, found, built) {
      OfferedIsBehind(read, doc, live, found, built);
    }
  }

  /** A second region published for the newest patch is such a build: its merge is refused by the verifier. */
  lemma ASecondRegionFailsTheCheck(read: Reader)
    requires read("16.9").Some?
    ensures var first, built := Partition("16.9", "euw1", 420, "all", ""), Partition("16.9", "na1", 420, "all", "");
      var doc := Document("riot-match-v5", [first, built], built);
      Merged(read, doc, Present(Document("riot-match-v5", [first], first)), [], built)
      && LatestProblems(read, doc) == [WrongLatest]
  {
    var first, built := Partition("16.9", "euw1", 420, "all", ""), Partition("16.9", "na1", 420, "all", "");
    var doc := Document("riot-match-v5", [first, built], built);
    var live := Present(Document("riot-match-v5", [first], first));
    assert "euw1"[0] < "na1"[0];
    assert !Before(read, built, first);
    assert [first][..0] == [] && [first, built][..1] == [first];
    assert Best(read, [first]) == first && Best(read, [first, built]) == first;
    forall p
      ensures p in doc.partitions <==> Expected(live, [], built, KeyOf(p)) == Some(p)
    {
      assert Listed([first], KeyOf(p)) == if KeyOf(first) == KeyOf(p) then Some(first) else None;
    }
    assert Merged(read, doc, live, [], built);
    assert forall p | p in doc.partitions :: p == first || p == built;
    assert BehindTheFirst(read, doc.partitions, built);
    LatestPassesUnlessBehindTheFirst(read, doc, live, [], built);
  }
}
