/**
 * The patch list counted from the envelope before any payload is unfolded, the one counted from the unfolded
 * feature rows, and the comparison that must accept them.
 */
module PatchEvidence {
  import opened Options
  import opened Extraction

  // ---------------------------------------------------------------- envelopePatchListSQL

  /** `envelopeFilterSQL`: a readable identity, a valid payload, at least one participant, inside the window. */
  predicate Accepted(e: EnvelopeRow, scope: Scope) {
    e.version.Some? && e.matchId.Some? && e.valid && e.participants.Some? && e.participants.value > 0
    && InScope(scope, e.platform, e.queue, e.createdMs)
  }

  predicate AcceptedIn(e: EnvelopeRow, scope: Scope, patch: string) {
    Accepted(e, scope) && PatchOf(e.version.value) == patch
  }

  /** count(*) of the patch's envelope rows. */
  function EnvelopeMatches(rows: seq<EnvelopeRow>, scope: Scope, patch: string): nat {
    if rows == [] then 0
    else (if AcceptedIn(rows[0], scope, patch) then 1 else 0) + EnvelopeMatches(rows[1..], scope, patch)
  }

  /** sum(participants) of the patch's envelope rows. */
  function EnvelopeParticipants(rows: seq<EnvelopeRow>, scope: Scope, patch: string): nat {
    if rows == [] then 0
    else
      var here := if AcceptedIn(rows[0], scope, patch) then rows[0].participants.value else 0;
      here + EnvelopeParticipants(rows[1..], scope, patch)
  }

  // ---------------------------------------------------------------- patchListSQL

  /** The match ids a patch's feature rows carry; `count(DISTINCT match_id)` is their number. */
  function FeatureIds(rows: seq<Feature>, patch: string): set<string> {
    if rows == [] then {} else (if rows[0].patch == patch then {rows[0].matchId} else {}) + FeatureIds(rows[1..], patch)
  }

  function FeatureRows(rows: seq<Feature>, patch: string): nat {
    if rows == [] then 0 else (if rows[0].patch == patch then 1 else 0) + FeatureRows(rows[1..], patch)
  }

  // ---------------------------------------------------------------- the two counts agree

  lemma {:induction false} UnnestCounts(m: string, g: string, ps: seq<Participant>, patch: string)
    ensures FeatureRows(Unnest(m, g, ps), patch) == if g == patch then |ps| else 0
    ensures FeatureIds(Unnest(m, g, ps), patch) == if g == patch && ps != [] then {m} else {}
  {
    if ps != [] {
      UnnestCounts(m, g, ps[1..], patch);
      assert Unnest(m, g, ps)[1..] == Unnest(m, g, ps[1..]);
    }
  }

  lemma {:induction false} CountsConcat(a: seq<Feature>, b: seq<Feature>, patch: string)
    ensures FeatureRows(a + b, patch) == FeatureRows(a, patch) + FeatureRows(b, patch)
    ensures FeatureIds(a + b, patch) == FeatureIds(a, patch) + FeatureIds(b, patch)
  {
    if a == [] {
      assert a + b == b;
    } else {
      assert (a + b)[1..] == a[1..] + b;
      CountsConcat(a[1..], b, patch);
    }
  }

  /** No two kept records carry the same match id. */
  predicate DistinctMatches(rows: seq<Located>) {
    forall i, j | 0 <= i < j < |rows| :: MatchIdOf(rows[i]).Some? ==> MatchIdOf(rows[i]) != MatchIdOf(rows[j])
  }

  lemma FirstIsUnique(all: seq<Located>, a: Located, b: Located)
    requires First(all, a) && First(all, b) && a in all && b in all && KeyOf(a) == KeyOf(b)
    ensures SamePlace(a, b)
  {
  }

  lemma KeptMatchesAreDistinct(all: seq<Located>)
    requires UniqueLocations(all)
    ensures DistinctMatches(Kept(all, all))
  {
    var kept := Kept(all, all);
    KeptFacts(all, all);
    forall i, j | 0 <= i < j < |kept| && MatchIdOf(kept[i]).Some?
      ensures MatchIdOf(kept[i]) != MatchIdOf(kept[j])
    {
      assert kept[i] in kept && kept[j] in kept;
      if KeyOf(kept[i]) == KeyOf(kept[j]) {
        FirstIsUnique(all, kept[i], kept[j]);
      }
    }
  }

  /** What one kept record contributes to both counts. */
  lemma OneRecord(l: Located, scope: Scope, patch: string)
    ensures var (e, fs) := (EnvelopeRowOf(l), Unfold(SpilledOf(l), scope));
      && FeatureRows(fs, patch) == (if AcceptedIn(e, scope, patch) then e.participants.value else 0)
      && FeatureIds(fs, patch) == (if AcceptedIn(e, scope, patch) then {MatchIdOf(l).value} else {})
  {
    if l.payload.Some? && l.payload.value.version.Some? && l.payload.value.matchId.Some?
      && l.payload.value.participants.Members? {
      var p := l.payload.value;
      UnnestCounts(p.matchId.value, PatchOf(p.version.value), p.participants.list, patch);
    }
  }

  /** A match id no record carries is carried by no feature row. */
  lemma {:induction false} IdsComeFromRecords(kept: seq<Located>, scope: Scope, patch: string, m: string)
    requires forall l | l in kept :: MatchIdOf(l) != Some(m)
    ensures m !in FeatureIds(Features(SpilledAll(kept), scope), patch)
  {
    if kept != [] {
      OneRecord(kept[0], scope, patch);
      CountsConcat(Unfold(SpilledOf(kept[0]), scope), Features(SpilledAll(kept[1..]), scope), patch);
      assert SpilledAll(kept)[1..] == SpilledAll(kept[1..]);
      assert kept[0] in kept;
      IdsComeFromRecords(kept[1..], scope, patch, m);
    }
  }

  /** Over the kept records both halves count the same participants and the same matches, patch by patch. */
  lemma {:induction false} CountsAgree(kept: seq<Located>, scope: Scope, patch: string)
    requires DistinctMatches(kept)
    ensures var fs := Features(SpilledAll(kept), scope);
      && FeatureRows(fs, patch) == EnvelopeParticipants(EnvelopeRows(kept), scope, patch)
      && |FeatureIds(fs, patch)| == EnvelopeMatches(EnvelopeRows(kept), scope, patch)
  {
    if kept != [] {
      var here, rest := Unfold(SpilledOf(kept[0]), scope), Features(SpilledAll(kept[1..]), scope);
      OneRecord(kept[0], scope, patch);
      CountsAgree(kept[1..], scope, patch);
      CountsConcat(here, rest, patch);
      assert SpilledAll(kept)[1..] == SpilledAll(kept[1..]);
      assert EnvelopeRows(kept)[1..] == EnvelopeRows(kept[1..]);
      var ids := FeatureIds(rest, patch);
      if AcceptedIn(EnvelopeRowOf(kept[0]), scope, patch) {
        var m := MatchIdOf(kept[0]).value;
        forall l | l in kept[1..]
          ensures MatchIdOf(l) != Some(m)
        {
          var j :| 0 <= j < |kept[1..]| && kept[1..][j] == l;
          assert MatchIdOf(kept[0]) != MatchIdOf(kept[j + 1]);
        }
        IdsComeFromRecords(kept[1..], scope, patch, m);
        assert |{m} + ids| == 1 + |ids|;
      } else {
        assert {} + ids == ids;
      }
    }
  }

  // ---------------------------------------------------------------- checkPatchEvidence

  datatype PatchRow = PatchRow(patch: string, matches: nat, participantRows: nat)

  predicate UniquePatches(rows: seq<PatchRow>) {
    forall i, j | 0 <= i < j < |rows| :: rows[i].patch != rows[j].patch
  }

  /** The list as a map; a later row of the same patch would win. */
  function AsMap(rows: seq<PatchRow>): map<string, (nat, nat)> {
    if rows == [] then map[]
    else
      var last := rows[|rows| - 1];
      AsMap(rows[..|rows| - 1])[last.patch := (last.matches, last.participantRows)]
  }

  lemma {:induction false} AsMapKeys(rows: seq<PatchRow>, g: string)
    ensures g in AsMap(rows) <==> exists i | 0 <= i < |rows| :: rows[i].patch == g
  {
    if rows != [] {
      var front := rows[..|rows| - 1];
      AsMapKeys(front, g);
      if g in AsMap(front) {
        var i :| 0 <= i < |front| && front[i].patch == g;
        assert rows[i].patch == g;
      }
      if i :| 0 <= i < |rows| && rows[i].patch == g && i < |rows| - 1 {
        assert front[i].patch == g;
      }
    }
  }

  lemma {:induction false} AsMapValue(rows: seq<PatchRow>, i: nat)
    requires UniquePatches(rows) && i < |rows|
    ensures rows[i].patch in AsMap(rows) && AsMap(rows)[rows[i].patch] == (rows[i].matches, rows[i].participantRows)
  {
    if i < |rows| - 1 {
      AsMapValue(rows[..|rows| - 1], i);
    }
  }

  lemma {:induction false} AsMapSize(rows: seq<PatchRow>)
    requires UniquePatches(rows)
    ensures |AsMap(rows)| == |rows|
  {
    if rows != [] {
      var front := rows[..|rows| - 1];
      AsMapSize(front);
      var g := rows[|rows| - 1].patch;
      AsMapKeys(front, g);
      assert forall i | 0 <= i < |front| :: front[i] == rows[i];
      assert AsMap(rows).Keys == AsMap(front).Keys + {g};
    }
  }

  lemma SubmapOfSameSize(small: map<string, (nat, nat)>, big: map<string, (nat, nat)>)
    requires forall g | g in small :: g in big && big[g] == small[g]
    requires |small| == |big|
    ensures small == big
  {
    assert small.Keys <= big.Keys;
    if small.Keys != big.Keys {
      SubsetSmaller(small.Keys, big.Keys);
    }
  }

  lemma SubsetSmaller(a: set<string>, b: set<string>)
    requires a < b
    ensures |a| < |b|
  {
    assert b == a + (b - a);
    assert |b| == |a| + |b - a|;
  }

  lemma ListsCoincide(envelope: seq<PatchRow>, features: seq<PatchRow>)
    requires UniquePatches(envelope) && UniquePatches(features) && |features| == |envelope|
    requires forall j | 0 <= j < |features| :: InMap(features[j], AsMap(envelope))
    ensures AsMap(envelope) == AsMap(features)
  {
    AsMapSize(envelope);
    AsMapSize(features);
    forall g | g in AsMap(features)
      ensures g in AsMap(envelope) && AsMap(envelope)[g] == AsMap(features)[g]
    {
      AsMapKeys(features, g);
      var j :| 0 <= j < |features| && features[j].patch == g;
      AsMapValue(features, j);
    }
    SubmapOfSameSize(AsMap(features), AsMap(envelope));
  }

  predicate InMap(row: PatchRow, m: map<string, (nat, nat)>) {
    row.patch in m && m[row.patch] == (row.matches, row.participantRows)
  }

  method CountByPatch(rows: seq<PatchRow>) returns (counted: map<string, PatchRow>)
    ensures counted.Keys == AsMap(rows).Keys
    ensures forall g | g in counted :: AsMap(rows)[g] == (counted[g].matches, counted[g].participantRows)
  {
    counted := map[];
    for i := 0 to |rows|
      invariant counted.Keys == AsMap(rows[..i]).Keys
      invariant forall g | g in counted :: AsMap(rows[..i])[g] == (counted[g].matches, counted[g].participantRows)
    {
      assert rows[..i + 1][..i] == rows[..i];
      counted := counted[rows[i].patch := rows[i]];
    }
    assert rows[..|rows|] == rows;
  }

  /** Every extracted row is the envelope's, and neither list is longer than the other. */
  predicate Agree(envelope: seq<PatchRow>, features: seq<PatchRow>) {
    |features| == |envelope| && forall j | 0 <= j < |features| :: InMap(features[j], AsMap(envelope))
  }

  method CheckPatchEvidence(envelope: seq<PatchRow>, features: seq<PatchRow>) returns (ok: bool)
    ensures ok <==> Agree(envelope, features)
    ensures UniquePatches(envelope) && UniquePatches(features) ==> (ok <==> AsMap(envelope) == AsMap(features))
  {
    var counted := CountByPatch(envelope);
    for i := 0 to |features|
      invariant forall j | 0 <= j < i :: InMap(features[j], AsMap(envelope))
    {
      MapsDecide(envelope, features);
      var row := features[i];
      if row.patch !in counted {
        return false;
      }
      var other := counted[row.patch];
      if other.matches != row.matches || other.participantRows != row.participantRows {
        return false;
      }
    }
    MapsDecide(envelope, features);
    ok := |features| == |envelope|;
  }

  /** For lists that name each patch once, agreeing is being the same map from patches to counts. */
  lemma MapsDecide(envelope: seq<PatchRow>, features: seq<PatchRow>)
    ensures UniquePatches(envelope) && UniquePatches(features) ==>
      (Agree(envelope, features) <==> AsMap(envelope) == AsMap(features))
  {
    if UniquePatches(envelope) && UniquePatches(features) {
      AsMapSize(envelope);
      AsMapSize(features);
      if Agree(envelope, features) {
        ListsCoincide(envelope, features);
      }
      forall j | 0 <= j < |features|
        ensures InMap(features[j], AsMap(features))
      {
        AsMapValue(features, j);
        AsMapKeys(features, features[j].patch);
      }
    }
  }

  // ---------------------------------------------------------------- the lists of one archive

  /** `rows` is the grouped list of the envelope: every patch that has an accepted row, once, with its counts. */
  predicate ListsEnvelope(rows: seq<PatchRow>, envelope: seq<EnvelopeRow>, scope: Scope) {
    && UniquePatches(rows)
    && (forall r | r in rows :: r.matches == EnvelopeMatches(envelope, scope, r.patch) > 0
          && r.participantRows == EnvelopeParticipants(envelope, scope, r.patch))
    && forall e | e in envelope && Accepted(e, scope) :: exists r | r in rows :: r.patch == PatchOf(e.version.value)
  }

  predicate ListsFeatures(rows: seq<PatchRow>, features: seq<Feature>) {
    && UniquePatches(rows)
    && (forall r | r in rows :: r.participantRows == FeatureRows(features, r.patch) > 0
          && r.matches == |FeatureIds(features, r.patch)|)
    && forall f | f in features :: exists r | r in rows :: r.patch == f.patch
  }

  lemma {:induction false} AcceptedExists(envelope: seq<EnvelopeRow>, scope: Scope, patch: string)
    requires EnvelopeMatches(envelope, scope, patch) > 0
    ensures exists e | e in envelope :: AcceptedIn(e, scope, patch)
  {
    if !AcceptedIn(envelope[0], scope, patch) {
      AcceptedExists(envelope[1..], scope, patch);
    } else {
      assert envelope[0] in envelope;
    }
  }

  lemma {:induction false} FeatureExists(features: seq<Feature>, patch: string)
    requires FeatureRows(features, patch) > 0
    ensures exists f | f in features :: f.patch == patch
    ensures FeatureIds(features, patch) != {}
  {
    if features[0].patch != patch {
      FeatureExists(features[1..], patch);
    } else {
      assert features[0] in features;
    }
  }

  lemma {:induction false} EnvelopePositive(envelope: seq<EnvelopeRow>, scope: Scope, patch: string)
    ensures EnvelopeParticipants(envelope, scope, patch) >= EnvelopeMatches(envelope, scope, patch)
  {
    if envelope != [] {
      EnvelopePositive(envelope[1..], scope, patch);
    }
  }

  /** Patch by patch the whole extraction and the envelope count the same. */
  lemma PatchCountsAgree(all: seq<Located>, scope: Scope, g: string)
    requires UniqueLocations(all)
    ensures FeatureRows(WholeFeatures(all, scope), g) == EnvelopeParticipants(Envelope(all), scope, g)
    ensures |FeatureIds(WholeFeatures(all, scope), g)| == EnvelopeMatches(Envelope(all), scope, g)
  {
    KeptFacts(all, all);
    KeptMatchesAreDistinct(all);
    WholeIsKept(all, scope);
    CountsAgree(Kept(all, all), scope, g);
  }

  lemma EnvelopeListed(all: seq<Located>, scope: Scope, envelope: seq<PatchRow>, features: seq<PatchRow>, g: string)
    requires UniqueLocations(all)
    requires ListsEnvelope(envelope, Envelope(all), scope) && ListsFeatures(features, WholeFeatures(all, scope))
    requires g in AsMap(envelope)
    ensures g in AsMap(features) && AsMap(features)[g] == AsMap(envelope)[g]
  {
    PatchCountsAgree(all, scope, g);
    EnvelopePositive(Envelope(all), scope, g);
    AsMapKeys(envelope, g);
    var i :| 0 <= i < |envelope| && envelope[i].patch == g;
    AsMapValue(envelope, i);
    FeatureExists(WholeFeatures(all, scope), g);
    var f :| f in WholeFeatures(all, scope) && f.patch == g;
    var r :| r in features && r.patch == g;
    var j :| 0 <= j < |features| && features[j] == r;
    AsMapKeys(features, g);
    AsMapValue(features, j);
  }

  lemma FeatureListed(all: seq<Located>, scope: Scope, envelope: seq<PatchRow>, features: seq<PatchRow>, g: string)
    requires UniqueLocations(all)
    requires ListsEnvelope(envelope, Envelope(all), scope) && ListsFeatures(features, WholeFeatures(all, scope))
    requires g in AsMap(features)
    ensures g in AsMap(envelope)
  {
    PatchCountsAgree(all, scope, g);
    AsMapKeys(features, g);
    var k :| 0 <= k < |features| && features[k].patch == g;
    assert features[k] in features;
    FeatureExists(WholeFeatures(all, scope), g);
    AcceptedExists(Envelope(all), scope, g);
    var e :| e in Envelope(all) && AcceptedIn(e, scope, g);
    var x :| x in envelope && x.patch == PatchOf(e.version.value);
    var i :| 0 <= i < |envelope| && envelope[i] == x;
    AsMapKeys(envelope, g);
  }

  /** On every archive the two lists are one map, so the check accepts what was extracted. */
  lemma EvidenceAgrees(all: seq<Located>, scope: Scope, envelope: seq<PatchRow>, features: seq<PatchRow>)
    requires UniqueLocations(all)
    requires ListsEnvelope(envelope, Envelope(all), scope) && ListsFeatures(features, WholeFeatures(all, scope))
    ensures AsMap(envelope) == AsMap(features)
  {
    forall g | g in AsMap(envelope)
      ensures g in AsMap(features) && AsMap(features)[g] == AsMap(envelope)[g]
    {
      EnvelopeListed(all, scope, envelope, features, g);
    }
    forall g | g in AsMap(features)
      ensures g in AsMap(envelope)
    {
      FeatureListed(all, scope, envelope, features, g);
    }
  }
}
