/**
 * From the archive to the tier list in one piece: the batched extraction, the role normalisation its statement
 * carries, the tallies, the cells and the gates on them.
 */
module Pipeline {
  import opened CellAgreement
  import opened Cells
  import opened Extraction
  import opened Options
  import opened PatchEvidence
  import opened Tallies

  // ---------------------------------------------------------------- participantRoleSQL

  /** COALESCE(NULLIF(team, ''), individual): the assigned position unless it is empty. */
  function ChosenPosition(p: Participant): Option<string> {
    if p.teamPosition.Some? && p.teamPosition.value != "" then p.teamPosition else p.individualPosition
  }

  function RoleOf(p: Participant): Option<string> {
    var chosen := ChosenPosition(p);
    if chosen.None? then None
    else if chosen.value == "TOP" then Some("TOP")
    else if chosen.value == "JUNGLE" then Some("JUNGLE")
    else if chosen.value == "MIDDLE" || chosen.value == "MID" then Some("MID")
    else if chosen.value == "BOTTOM" || chosen.value == "ADC" then Some("BOTTOM")
    else if chosen.value == "UTILITY" || chosen.value == "SUPPORT" then Some("SUPPORT")
    else None
  }

  /** The statement accepts the spellings the policy reads, one for one, and what it writes reads as the same role. */
  lemma RoleMirrorsThePolicy(p: Participant)
    ensures RoleOf(p).Some? <==> ChosenPosition(p).Some? && RoleFromRiotPosition(ChosenPosition(p).value).Some?
    ensures RoleOf(p).Some? ==> CanonicalSpelling(RoleOf(p).value)
    ensures RoleOf(p).Some? ==> RoleFromRiotPosition(RoleOf(p).value) == RoleFromRiotPosition(ChosenPosition(p).value)
  {
  }

  // ---------------------------------------------------------------- the feature rows the reductions read

  function AsRow(f: Feature): FeatureRow {
    FeatureRow(f.p.champion, RoleOf(f.p), f.p.win, Some(f.patch))
  }

  function AsRows(fs: seq<Feature>): seq<FeatureRow> {
    if fs == [] then [] else [AsRow(fs[0])] + AsRows(fs[1..])
  }

  lemma {:induction false} RolesAreNormalised(fs: seq<Feature>)
    ensures RolesNormalised(AsRows(fs))
  {
    if fs != [] {
      RoleMirrorsThePolicy(fs[0].p);
      RolesAreNormalised(fs[1..]);
    }
  }

  /** The rows of a patch are the same whether they are counted for the patch list or for the window. */
  lemma {:induction false} RowsOfAPatch(fs: seq<Feature>, patch: string)
    requires patch != ""
    ensures ParticipantRows(AsRows(fs), patch) == FeatureRows(fs, patch)
  {
    if fs != [] {
      RowsOfAPatch(fs[1..], patch);
      assert AsRows(fs)[1..] == AsRows(fs[1..]);
    }
  }

  // ---------------------------------------------------------------- matches_used

  /** The matches of the window and patch; no patch condition when none is named. */
  function MatchesUsed(spilled: seq<Spilled>, scope: Scope, patch: string): set<string> {
    if spilled == [] then {}
    else
      var s := spilled[0];
      (if InWindow(s, scope) && (patch == "" || PatchOf(s.version.value) == patch) then {s.matchId.value} else {})
      + MatchesUsed(spilled[1..], scope, patch)
  }

  lemma {:induction false} UnnestCarries(m: string, g: string, ps: seq<Participant>)
    ensures forall f | f in Unnest(m, g, ps) :: f.matchId == m && f.patch == g
  {
    if ps != [] {
      UnnestCarries(m, g, ps[1..]);
    }
  }

  /** Every feature row of the patch belongs to a match that is counted. */
  lemma {:induction false} RowsBelongToMatches(spilled: seq<Spilled>, scope: Scope, patch: string)
    ensures forall f | f in Features(spilled, scope) && (patch == "" || f.patch == patch) ::
      f.matchId in MatchesUsed(spilled, scope, patch)
  {
    if spilled != [] {
      var s := spilled[0];
      RowsBelongToMatches(spilled[1..], scope, patch);
      if InWindow(s, scope) && s.payload.value.participants.Members? {
        UnnestCarries(s.matchId.value, PatchOf(s.version.value), s.payload.value.participants.list);
      }
    }
  }

  lemma {:induction false} ClassifiedComesFromARow(fs: seq<Feature>, patch: string) returns (f: Feature)
    requires ClassifiedRows(AsRows(fs), patch) > 0
    ensures f in fs && (patch == "" || f.patch == patch)
  {
    assert AsRows(fs)[1..] == AsRows(fs[1..]);
    if FeatureFilter(AsRow(fs[0]), patch) == Yes {
      f := fs[0];
    } else {
      f := ClassifiedComesFromARow(fs[1..], patch);
    }
  }

  /** A window with a classified row has a match to divide by. */
  lemma ClassifiedNeedsAMatch(spilled: seq<Spilled>, scope: Scope, patch: string)
    requires ClassifiedRows(AsRows(Features(spilled, scope)), patch) > 0
    ensures |MatchesUsed(spilled, scope, patch)| >= 1
  {
    var f := ClassifiedComesFromARow(Features(spilled, scope), patch);
    RowsBelongToMatches(spilled, scope, patch);
    assert MatchesUsed(spilled, scope, patch) != {};
  }

  // ---------------------------------------------------------------- the whole build

  ghost function RowsOf(parts: seq<Part>, scope: Scope): seq<FeatureRow> {
    AsRows(WholeFeatures(Locate(parts), scope))
  }

  /** The participants of a patch in the envelope are the participant rows its window counts. */
  lemma ParticipantsReachTheWindow(parts: seq<Part>, scope: Scope, patch: string)
    requires DistinctNames(parts) && patch != ""
    ensures ParticipantRows(RowsOf(parts, scope), patch) == EnvelopeParticipants(Envelope(Locate(parts)), scope, patch)
  {
    var all := Locate(parts);
    ArchiveLocationsAreUnique(parts);
    WholeIsKept(all, scope);
    Extraction.KeptFacts(all, all);
    KeptMatchesAreDistinct(all);
    CountsAgree(Extraction.Kept(all, all), scope, patch);
    RowsOfAPatch(WholeFeatures(all, scope), patch);
  }

  /** What the cell policy is given: the tallies of the archive's rows and the matches to divide by. */
  ghost function InputOf(parts: seq<Part>, scope: Scope, patch: string, bans: seq<BanCount>, minCellN: int): CellInput {
    CellInput(CellCounts(RowsOf(parts, scope), patch), bans, |MatchesUsed(Spill(Locate(parts)), scope, patch)|,
      minCellN)
  }

  /** Crawling archived matches again hands the cell policy the very same input. */
  lemma ARecrawlChangesNoTierList(parts: seq<Part>, copies: seq<Part>, scope: Scope, patch: string,
      bans: seq<BanCount>, minCellN: int)
    requires DistinctNames(parts) && DistinctNames(copies) && NumberedAbove(parts, copies) && Copies(parts, copies)
    ensures InputOf(parts + copies, scope, patch, bans, minCellN) == InputOf(parts, scope, patch, bans, minCellN)
  {
    PartsOfCopiesChangeNothing(parts, copies, scope);
  }

  /**
   * One build over an archive read in batches. Once extracted, it succeeds exactly when a row can be classified;
   * then every participant the envelope counts for the patch is in a tally or rejected, and no reconciliation
   * gate fires.
   */
  method BuildTierList(parts: seq<Part>, batchParts: nat, scope: Scope, patch: string, bans: seq<BanCount>,
      minCellN: int,
                       root: nat -> real, cfg: GateConfig)
    returns (built: Option<Result<CellOutput>>, errors: seq<GateError>)
    requires batchParts >= 1 && IsSquareRoot(root) && cfg.reconcileTolerance >= 0
    ensures built.None? ==> HoldsNonArray(Spill(Locate(parts)))
    ensures built.Some? ==> (built.value.Ok? <==> minCellN >= 1 && ClassifiedRows(RowsOf(parts, scope), patch) > 0)
    ensures built.Some? && built.value.Ok? && patch != "" && DistinctNames(parts) ==>
      built.value.value.sumN + RejectedRows(RowsOf(parts, scope), patch)
      == EnvelopeParticipants(Envelope(Locate(parts)), scope, patch)
    ensures built.Some? && built.value.Ok? ==>
      var input := InputOf(parts, scope, patch, bans, minCellN);
      Computable(input) && built.value.value.cells == PublishedCells(input, root)
    ensures built.Some? && built.value.Ok? ==> DistinctKeys(built.value.value.cells)
    ensures Reconciliation !in errors
  {
    var extracted := ExtractInBatches(parts, batchParts, scope);
    if extracted.None? {
      return None, [];
    }
    var features := extracted.value;
    var spilled := Spill(Locate(parts));
    var matches := |MatchesUsed(spilled, scope, patch)|;
    RolesAreNormalised(features);
    if ClassifiedRows(AsRows(features), patch) > 0 {
      ClassifiedNeedsAMatch(spilled, scope, patch);
    }
    var r;
    r, errors := ReduceRows(AsRows(features), patch, bans, matches, minCellN, root, cfg);
    if patch != "" && DistinctNames(parts) {
      ParticipantsReachTheWindow(parts, scope, patch);
    }
    built := Some(r);
  }
}
