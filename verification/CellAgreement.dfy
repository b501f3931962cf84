/** When the verifier accepts what the policy publishes, and the reconciliation of both with the feature rows. */
module CellAgreement {
  import opened Collections
  import opened Options
  import opened Tallies
  import opened Cells
  import opened CellVerifier

  // ---------------------------------------------------------------- one cell

  /** What real tallies satisfy: a champion, at most two of it per match, bans counted once per match. */
  predicate Plausible(input: CellInput, c: CellCount) {
    && c.champion > 0
    && c.n <= 2 * input.matches
    && 0 <= BansOf(input.bans, c.champion) <= input.matches
  }

  predicate AllPlausible(input: CellInput) {
    forall c | c in input.counts :: Plausible(input, c)
  }

  predicate SameCell(a: CellCount, b: CellCount) {
    a.champion == b.champion && RoleFromRiotPosition(a.role) == RoleFromRiotPosition(b.role)
  }

  predicate DistinctCells(counts: seq<CellCount>) {
    forall i, j | 0 <= i < j < |counts| :: !SameCell(counts[i], counts[j])
  }

  lemma ShareIsInUnit(part: int, whole: int)
    requires 0 <= part <= whole && whole > 0
    ensures 0.0 <= Round4(part as real / whole as real) <= 1.0
  {
    var share := part as real / whole as real;
    assert share * whole as real == part as real;
    assert 0.0 <= share <= 1.0;
    Round4KeepsTheUnitInterval(share);
  }

  lemma CellPasses(input: CellInput, w: Window, c: CellCount)
    requires WindowOk(w) && w.bans == input.bans && w.matches == input.matches
    requires Plausible(input, c) && SoundTally(c) && RoleFromRiotPosition(c.role).Some? && w.root(c.n) != 0.0
    requires c.n >= w.minCellN
    ensures CellProblems(CellOf(w, c), w.minCellN, w.root) == []
  {
    ShareIsInUnit(c.wins, c.n);
    ShareIsInUnit(c.n, 2 * input.matches);
    ShareIsInUnit(BansOf(input.bans, c.champion), input.matches);
    TierIsMonotone(w.baseline, RawRate(c), RawRate(c));
    var cell := CellOf(w, c);
    assert RateMatches(cell) && HalfWidthMatches(cell, w.root);
    assert TallyProblems(cell, w.minCellN) == [];
    assert RateProblems(cell, w.root) == [];
    assert ShareProblems(cell) == [];
  }

  /** The published cells are exactly the kept tallies, seen through `CellOf`. */
  lemma PublishedComeFromKept(input: CellInput, root: nat -> real)
    requires Computable(input) && IsSquareRoot(root)
    ensures SumN(input.counts) > 0 && Cellable(WindowFor(input, root), Kept(input.counts, input.minCellN))
    ensures multiset(PublishedCells(input, root))
      == multiset(CellsOf(WindowFor(input, root), Kept(input.counts, input.minCellN)))
    ensures InOrder(PublishedCells(input, root))
  {
    ComputableIsCellable(input, root);
    SortedIsAnOrderedPermutation(CellsOf(WindowFor(input, root), Kept(input.counts, input.minCellN)));
  }

  lemma KeptOf(input: CellInput, root: nat -> real, cell: Cell) returns (k: nat)
    requires Computable(input) && IsSquareRoot(root) && cell in PublishedCells(input, root)
    ensures SumN(input.counts) > 0 && Cellable(WindowFor(input, root), Kept(input.counts, input.minCellN))
    ensures k < |Kept(input.counts, input.minCellN)|
    ensures cell == CellsOf(WindowFor(input, root), Kept(input.counts, input.minCellN))[k]
    ensures Kept(input.counts, input.minCellN)[k] in input.counts
    ensures Kept(input.counts, input.minCellN)[k].n >= input.minCellN
  {
    PublishedComeFromKept(input, root);
    var kept := Kept(input.counts, input.minCellN);
    var cells := CellsOf(WindowFor(input, root), kept);
    assert cell in multiset(PublishedCells(input, root));
    assert cell in cells;
    k :| 0 <= k < |cells| && cells[k] == cell;
    KeptFacts(input.counts, input.minCellN);
    assert kept[k] in kept;
  }

  lemma {:induction false} NoComplaints(cells: seq<Cell>, minCellN: int, root: nat -> real)
    requires forall c | c in cells :: CellProblems(c, minCellN, root) == []
    ensures AllCellProblems(cells, minCellN, root) == []
    ensures Publishable(cells, minCellN, root) == |cells|
  {
    if cells != [] {
      NoComplaints(cells[..|cells| - 1], minCellN, root);
      assert cells[|cells| - 1] in cells;
    }
  }

  /** Every published cell is publishable to the verifier, and all of them are counted. */
  lemma EveryPublishedCellPasses(input: CellInput, root: nat -> real)
    requires Computable(input) && IsSquareRoot(root) && AllPlausible(input)
    ensures AllCellProblems(PublishedCells(input, root), input.minCellN, root) == []
    ensures Publishable(PublishedCells(input, root), input.minCellN, root) == |PublishedCells(input, root)|
  {
    var cells := PublishedCells(input, root);
    forall cell | cell in cells
      ensures CellProblems(cell, input.minCellN, root) == []
    {
      var k := KeptOf(input, root, cell);
      CellPasses(input, WindowFor(input, root), Kept(input.counts, input.minCellN)[k]);
    }
    NoComplaints(cells, input.minCellN, root);
  }

  // ---------------------------------------------------------------- the order of any graded list

  predicate Graded(cells: seq<Cell>) {
    forall i | 0 <= i < |cells| :: !cells[i].role.OtherRole? && TierRank(cells[i].tier) >= 0
  }

  predicate DistinctKeys(cells: seq<Cell>) {
    forall i, j | 0 <= i < j < |cells| :: !SameKey(cells[i], cells[j])
  }

  /** Neighbours of one role never go from a worse grade to a better one. */
  predicate GradesAscend(cells: seq<Cell>) {
    forall i | 0 < i < |cells| && cells[i - 1].role == cells[i].role ::
      TierRank(cells[i - 1].tier) <= TierRank(cells[i].tier)
  }

  lemma {:induction false} AllKnown(cells: seq<Cell>)
    requires Graded(cells)
    ensures Known(cells) == cells
    ensures CarriedRank(cells) == if cells == [] then -1 else TierRank(cells[|cells| - 1].tier)
  {
    if cells != [] {
      AllKnown(cells[..|cells| - 1]);
    }
  }

  lemma RoleRankIsInjective(a: Role, b: Role)
    requires !a.OtherRole? && !b.OtherRole? && RoleRank(a) == RoleRank(b)
    ensures a == b
  {
  }

  lemma NothingRepeats(cells: seq<Cell>, cell: Cell)
    requires DistinctKeys(cells + [cell])
    ensures !Repeats(cells, cell)
  {
    var all, n := cells + [cell], |cells|;
    assert all[n] == cell;
    forall i | 0 <= i < n
      ensures !SameKey(cells[i], cell)
    {
      assert !SameKey(all[i], all[n]);
    }
  }

  lemma StepIsClean(cells: seq<Cell>, cell: Cell)
    requires Graded(cells) && Graded([cell]) && DistinctKeys(cells + [cell]) && InOrder(cells + [cell])
    ensures StepProblems(cells, cell) == [] <==> !GradeFalls(cells, cell)
  {
    assert [cell][0] == cell;
    AllKnown(cells);
    NothingRepeats(cells, cell);
    if cells != [] {
      var all := cells + [cell];
      assert all[|cells| - 1] == cells[|cells| - 1] && all[|cells|] == cell && !Before(all[|cells|], all[|cells| - 1]);
    }
  }

  /** The three properties a list must have for the order check to come down to its grades. */
  predicate WellKept(cells: seq<Cell>) {
    Graded(cells) && DistinctKeys(cells) && InOrder(cells)
  }

  lemma KeptPrefix(front: seq<Cell>, cell: Cell)
    requires WellKept(front + [cell])
    ensures WellKept(front) && Graded([cell])
  {
    var all := front + [cell];
    assert all[|front|] == cell;
    assert forall i | 0 <= i < |front| :: front[i] == all[i];
  }

  /** On a graded, ordered list without repeats, the order check complains exactly when a grade goes the wrong way. */
  lemma {:induction false} OrderCheckReadsGrades(cells: seq<Cell>)
    requires WellKept(cells)
    ensures OrderProblems(cells) == [] <==> GradesAscend(cells)
  {
    if cells != [] {
      var front, cell := cells[..|cells| - 1], cells[|cells| - 1];
      assert cells == front + [cell];
      KeptPrefix(front, cell);
      OrderCheckReadsGrades(front);
      AllKnown(front);
      StepIsClean(front, cell);
      GradesAscendSnoc(front, cell);
    }
  }

  /** The cell follows one of its own role and is graded better than it. */
  predicate GradeFalls(front: seq<Cell>, cell: Cell) {
    front != [] && front[|front| - 1].role == cell.role && TierRank(cell.tier) < TierRank(front[|front| - 1].tier)
  }

  lemma GradesAscendSnoc(front: seq<Cell>, cell: Cell)
    ensures GradesAscend(front + [cell]) <==> (GradesAscend(front) && !GradeFalls(front, cell))
  {
    var all, n := front + [cell], |front|;
    assert forall i | 0 <= i < n :: all[i] == front[i];
    if GradesAscend(all) {
      assert n > 0 ==> all[n - 1] == front[n - 1] && all[n] == cell;
      assert forall i | 0 < i < n && front[i - 1].role == front[i].role :: all[i - 1].role == all[i].role;
    }
  }

  // ---------------------------------------------------------------- ties

  /** Two cells of one role showing one win rate: the lower id, which is listed first, is graded no worse. */
  predicate TiesAgreeOn(cells: seq<Cell>) {
    forall a, b | a in cells && b in cells && a.role == b.role && a.winRate == b.winRate && a.champion < b.champion ::
      TierRank(a.tier) <= TierRank(b.tier)
  }

  /** What grading before rounding guarantees: a strictly better shown rate is never graded worse. */
  predicate GradesFollowRates(cells: seq<Cell>) {
    forall a, b | a in cells && b in cells && a.winRate > b.winRate :: TierRank(a.tier) <= TierRank(b.tier)
  }

  lemma {:induction false} GradesAscendAcross(cells: seq<Cell>, i: nat, j: nat)
    requires Graded(cells) && InOrder(cells) && GradesAscend(cells)
    requires i <= j < |cells| && cells[i].role == cells[j].role
    ensures TierRank(cells[i].tier) <= TierRank(cells[j].tier)
    decreases j - i
  {
    if i < j {
      assert !Before(cells[j], cells[j - 1]);
      assert i < j - 1 ==> !Before(cells[j - 1], cells[i]);
      RoleRankIsInjective(cells[j - 1].role, cells[j].role);
      GradesAscendAcross(cells, i, j - 1);
    }
  }

  lemma TiesDecide(cells: seq<Cell>)
    requires Graded(cells) && DistinctKeys(cells) && InOrder(cells) && GradesFollowRates(cells)
    ensures GradesAscend(cells) <==> TiesAgreeOn(cells)
  {
    if GradesAscend(cells) {
      forall a, b | a in cells && b in cells && a.role == b.role && a.winRate == b.winRate && a.champion < b.champion
        ensures TierRank(a.tier) <= TierRank(b.tier)
      {
        var i :| 0 <= i < |cells| && cells[i] == a;
        var j :| 0 <= j < |cells| && cells[j] == b;
        assert Before(cells[i], cells[j]);
        assert i <= j;
        GradesAscendAcross(cells, i, j);
      }
    }
    if TiesAgreeOn(cells) {
      forall i | 0 < i < |cells| && cells[i - 1].role == cells[i].role
        ensures TierRank(cells[i - 1].tier) <= TierRank(cells[i].tier)
      {
        assert !Before(cells[i], cells[i - 1]) && !SameKey(cells[i - 1], cells[i]);
        assert cells[i - 1] in cells && cells[i] in cells;
      }
    }
  }

  // ---------------------------------------------------------------- the policy's own list

  function Grade(input: CellInput, c: CellCount): int
    requires SumN(input.counts) != 0 && c.n > 0
  {
    TierRank(TierForRate(Baseline(input.counts), RawRate(c)))
  }

  /** Readable off the tallies: of two kept ones in a role that round to one rate, the lower id grades no worse. */
  predicate TiesAgree(input: CellInput)
    requires SumN(input.counts) != 0
    requires forall c | c in Kept(input.counts, input.minCellN) :: c.n > 0
  {
    forall a, b | a in Kept(input.counts, input.minCellN) && b in Kept(input.counts, input.minCellN)
        && RoleFromRiotPosition(a.role) == RoleFromRiotPosition(b.role) && a.champion < b.champion
        && Round4(RawRate(a)) == Round4(RawRate(b)) ::
      Grade(input, a) <= Grade(input, b)
  }

  lemma {:induction false} KeptStaysDistinct(counts: seq<CellCount>, minCellN: int)
    requires DistinctCells(counts)
    ensures DistinctCells(Kept(counts, minCellN))
  {
    if counts != [] {
      var front, last := counts[..|counts| - 1], counts[|counts| - 1];
      KeptStaysDistinct(front, minCellN);
      var kept := Kept(front, minCellN);
      KeptFacts(front, minCellN);
      forall k | 0 <= k < |kept|
        ensures !SameCell(kept[k], last)
      {
        assert kept[k] in front;
        var i :| 0 <= i < |front| && front[i] == kept[k];
        assert counts[i] == kept[k];
      }
    }
  }

  lemma {:induction false} DistinctListHoldsEachOnce(cells: seq<Cell>, c: Cell)
    requires forall i, j | 0 <= i < j < |cells| :: cells[i] != cells[j]
    ensures multiset(cells)[c] <= 1
  {
    if cells != [] {
      var front, last := cells[..|cells| - 1], cells[|cells| - 1];
      assert cells == front + [last];
      DistinctListHoldsEachOnce(front, c);
      if c == last {
        assert last !in front;
      }
    }
  }

  lemma KeysStayDistinct(before: seq<Cell>, after: seq<Cell>)
    requires multiset(before) == multiset(after) && DistinctKeys(before)
    ensures DistinctKeys(after)
  {
    forall i, j | 0 <= i < j < |after|
      ensures !SameKey(after[i], after[j])
    {
      assert after[i] in multiset(before) && after[j] in multiset(before);
      var k :| 0 <= k < |before| && before[k] == after[i];
      var m :| 0 <= m < |before| && before[m] == after[j];
      if after[i] == after[j] {
        DistinctListHoldsEachOnce(before, after[i]);
        HeldTwice(after, i, j);
      } else {
        assert k < m || m < k;
      }
    }
  }

  lemma PublishedKeysAreDistinct(input: CellInput, root: nat -> real)
    requires Computable(input) && IsSquareRoot(root) && DistinctCells(input.counts)
    ensures DistinctKeys(PublishedCells(input, root))
  {
    PublishedComeFromKept(input, root);
    KeptStaysDistinct(input.counts, input.minCellN);
    var kept := Kept(input.counts, input.minCellN);
    var cells := CellsOf(WindowFor(input, root), kept);
    assert DistinctKeys(cells) by {
      forall i, j | 0 <= i < j < |cells|
        ensures !SameKey(cells[i], cells[j])
      {
        assert !SameCell(kept[i], kept[j]);
        assert kept[i] in kept && kept[j] in kept;
      }
    }
    KeysStayDistinct(cells, PublishedCells(input, root));
  }

  lemma PublishedAreGraded(input: CellInput, root: nat -> real)
    requires Computable(input) && IsSquareRoot(root)
    ensures Graded(PublishedCells(input, root))
    ensures GradesFollowRates(PublishedCells(input, root))
  {
    var cells := PublishedCells(input, root);
    forall i | 0 <= i < |cells|
      ensures !cells[i].role.OtherRole? && TierRank(cells[i].tier) >= 0
    {
      var k := KeptOf(input, root, cells[i]);
    }
    forall a, b | a in cells && b in cells && a.winRate > b.winRate
      ensures TierRank(a.tier) <= TierRank(b.tier)
    {
      var j := KeptOf(input, root, a);
      var k := KeptOf(input, root, b);
      var kept := Kept(input.counts, input.minCellN);
      assert kept[j] in kept && kept[k] in kept;
      BetterShownIsBetterGraded(Baseline(input.counts), RawRate(kept[j]), RawRate(kept[k]));
    }
  }

  /** A rate that shows better after rounding is graded no worse before it. */
  lemma BetterShownIsBetterGraded(baseline: real, better: real, worse: real)
    requires Round4(better) > Round4(worse)
    ensures TierRank(TierForRate(baseline, better)) <= TierRank(TierForRate(baseline, worse))
  {
    if better < worse {
      Round4IsMonotone(better, worse);
    } else {
      TierIsMonotone(baseline, worse, better);
    }
  }

  lemma TiesTransfer(input: CellInput, root: nat -> real)
    requires Computable(input) && IsSquareRoot(root)
    ensures SumN(input.counts) > 0 && forall c | c in Kept(input.counts, input.minCellN) :: c.n > 0
    ensures TiesAgreeOn(PublishedCells(input, root)) <==> TiesAgree(input)
  {
    PublishedComeFromKept(input, root);
    var kept := Kept(input.counts, input.minCellN);
    var w := WindowFor(input, root);
    var cells := CellsOf(w, kept);
    var list := PublishedCells(input, root);
    forall c | c in kept
      ensures CellOf(w, c) in list
    {
      var k :| 0 <= k < |kept| && kept[k] == c;
      assert cells[k] == CellOf(w, c);
      assert cells[k] in multiset(cells);
    }
    forall cell | cell in list
      ensures exists c | c in kept :: CellOf(w, c) == cell
    {
      var k := KeptOf(input, root, cell);
      assert kept[k] in kept && CellOf(w, kept[k]) == cell;
    }
    if TiesAgreeOn(list) {
      forall a, b | a in kept && b in kept && RoleFromRiotPosition(a.role) == RoleFromRiotPosition(b.role)
        && a.champion < b.champion && Round4(RawRate(a)) == Round4(RawRate(b))
        ensures Grade(input, a) <= Grade(input, b)
      {
        assert CellOf(w, a) in list && CellOf(w, b) in list;
      }
    }
    if TiesAgree(input) {
      forall x, y | x in list && y in list && x.role == y.role && x.winRate == y.winRate && x.champion < y.champion
        ensures TierRank(x.tier) <= TierRank(y.tier)
      {
        var a :| a in kept && CellOf(w, a) == x;
        var b :| b in kept && CellOf(w, b) == y;
        assert Grade(input, a) <= Grade(input, b);
      }
    }
  }

  /** The verifier finds nothing wrong with the policy's list exactly when rounding hides no change of grade. */
  lemma VerifierAcceptsExactlyWhenTiesAgree(input: CellInput, root: nat -> real)
    requires Computable(input) && IsSquareRoot(root) && AllPlausible(input) && DistinctCells(input.counts)
    ensures SumN(input.counts) > 0 && forall c | c in Kept(input.counts, input.minCellN) :: c.n > 0
    ensures TierListProblems(PublishedCells(input, root), |PublishedCells(input, root)|, input.minCellN, root) == []
       <==> TiesAgree(input)
  {
    var cells := PublishedCells(input, root);
    PublishedComeFromKept(input, root);
    PublishedKeysAreDistinct(input, root);
    PublishedAreGraded(input, root);
    EveryPublishedCellPasses(input, root);
    OrderCheckReadsGrades(cells);
    TiesDecide(cells);
    TiesTransfer(input, root);
  }

  /** One build and one check of it, end to end: what the verifier says about what the policy wrote. */
  method BuildThenVerify(input: CellInput, root: nat -> real) returns (built: bool, accepted: bool)
    requires IsSquareRoot(root) && AllPlausible(input) && DistinctCells(input.counts)
    ensures built <==> Computable(input)
    ensures built ==> SumN(input.counts) > 0 && forall c | c in Kept(input.counts, input.minCellN) :: c.n > 0
    ensures built ==> (accepted <==> TiesAgree(input))
  {
    accepted := false;
    var r := ComputeCells(input, root);
    built := r.Ok?;
    if built {
      var verifier := new Verifier();
      var published := verifier.CheckTierList(r.value.cells, |r.value.cells|, input.minCellN, root);
      accepted := verifier.problems == [];
      VerifierAcceptsExactlyWhenTiesAgree(input, root);
    }
  }

  // ---------------------------------------------------------------- the proviso bites

  /** Two middle laners that both show 50.60 per cent: 127 of 251 grades B and 253 of 500 grades A. */
  function SplitByRounding(): CellInput {
    CellInput([CellCount(1, "MIDDLE", 251, 127), CellCount(2, "MIDDLE", 500, 253), CellCount(3, "TOP", 29, 10)],
              [], 400, 100)
  }

  lemma RoundIs(x: real, n: int)
    requires x >= 0.0 && n as real <= x + 0.5 < n as real + 1.0
    ensures Round(x) == n
  {
  }

  lemma KeptOfThree(a: CellCount, b: CellCount, c: CellCount, minCellN: int)
    requires a.n >= minCellN && b.n >= minCellN && c.n < minCellN
    ensures Kept([a, b, c], minCellN) == [a, b]
  {
    assert [a, b, c][..2] == [a, b] && [a, b][..1] == [a] && [a][..0] == [];
    assert Kept([a], minCellN) == [a];
    assert Kept([a, b], minCellN) == [a, b];
  }

  lemma SumsOfThree(a: CellCount, b: CellCount, c: CellCount)
    ensures SumN([a, b, c]) == a.n + b.n + c.n && SumWins([a, b, c]) == a.wins + b.wins + c.wins
  {
    assert [a, b, c][1..] == [b, c] && [b, c][1..] == [c] && [c][1..] == [];
    assert SumN([c]) == c.n && SumWins([c]) == c.wins;
    assert SumN([b, c]) == b.n + c.n && SumWins([b, c]) == b.wins + c.wins;
  }

  lemma SplitIsASoundInput()
    ensures Computable(SplitByRounding()) && AllPlausible(SplitByRounding()) && DistinctCells(SplitByRounding().counts)
  {
    assert SplitByRounding().bans == [];
  }

  lemma SplitGradesApart()
    ensures var counts := SplitByRounding().counts;
      SumN(counts) == 780 && Kept(counts, 100) == [counts[0], counts[1]]
      && Round4(RawRate(counts[0])) == Round4(RawRate(counts[1]))
      && Grade(SplitByRounding(), counts[0]) == 3 && Grade(SplitByRounding(), counts[1]) == 2
  {
    var counts := SplitByRounding().counts;
    KeptOfThree(counts[0], counts[1], counts[2], 100);
    SumsOfThree(counts[0], counts[1], counts[2]);
    assert Baseline(counts) == 0.5;
    RoundIs(RawRate(counts[0]) * 10000.0, 5060);
    RoundIs(RawRate(counts[1]) * 10000.0, 5060);
  }

  lemma SplitTiesDisagree()
    ensures SumN(SplitByRounding().counts) == 780 && forall c | c in Kept(SplitByRounding().counts, 100) :: c.n > 0
    ensures !TiesAgree(SplitByRounding())
  {
    SplitGradesApart();
    var a, b := SplitByRounding().counts[0], SplitByRounding().counts[1];
    assert a in [a, b] && b in [a, b];
  }

  /** The agreement really needs its proviso: here the policy publishes a list the verifier rejects. */
  lemma RoundingCanHideAGrade(root: nat -> real)
    requires IsSquareRoot(root)
    ensures Computable(SplitByRounding()) && AllPlausible(SplitByRounding()) && DistinctCells(SplitByRounding().counts)
    ensures var cells := PublishedCells(SplitByRounding(), root);
      TierListProblems(cells, |cells|, SplitByRounding().minCellN, root) != []
  {
    SplitIsASoundInput();
    SplitTiesDisagree();
    VerifierAcceptsExactlyWhenTiesAgree(SplitByRounding(), root);
  }

  // ---------------------------------------------------------------- reconciliation with the rows

  datatype GateError = Reconciliation | NoPublishedCells | SuppressionMajority

  datatype GateCounts = GateCounts(sumN: int, classifiedRows: int, cellsTotal: int, cellsPublished: int)

  datatype GateConfig = GateConfig(reconcileTolerance: int, minConfidentShare: real)

  function Abs(x: int): int {
    if x < 0 then -x else x
  }

  /** The gates that need the finished cells. */
  function CheckOutput(c: GateCounts, cfg: GateConfig): seq<GateError> {
    (if Abs(c.sumN - c.classifiedRows) > cfg.reconcileTolerance then [Reconciliation] else [])
    + (if c.cellsTotal > 0 && c.cellsPublished == 0 then [NoPublishedCells]
       else if c.cellsTotal > 0 && c.cellsPublished as real / c.cellsTotal as real < cfg.minConfidentShare
       then [SuppressionMajority] else [])
  }

  /** The five spellings the extraction writes. */
  predicate CanonicalSpelling(role: string) {
    role == "TOP" || role == "JUNGLE" || role == "MID" || role == "BOTTOM" || role == "SUPPORT"
  }

  predicate RolesNormalised(rows: seq<FeatureRow>) {
    forall r | r in rows && r.role.Some? :: CanonicalSpelling(r.role.value)
  }

  lemma CanonicalSpellingsAreInjective(a: string, b: string)
    requires CanonicalSpelling(a) && CanonicalSpelling(b)
    ensures RoleFromRiotPosition(a).Some?
    ensures RoleFromRiotPosition(a) == RoleFromRiotPosition(b) ==> a == b
  {
  }

  lemma {:induction false} AddKeepsRoles(groups: seq<CellCount>, champion: int, role: string, won: bool)
    requires CanonicalSpelling(role) && forall g | g in groups :: CanonicalSpelling(g.role)
    ensures forall g | g in Add(groups, champion, role, won) :: CanonicalSpelling(g.role)
  {
    if groups != [] {
      assert groups[0] in groups;
      AddKeepsRoles(groups[1..], champion, role, won);
    }
  }

  lemma {:induction false} TalliesKeepRoles(rows: seq<FeatureRow>, patch: string)
    requires RolesNormalised(rows)
    ensures forall g | g in CellCounts(rows, patch) :: CanonicalSpelling(g.role)
  {
    if rows != [] {
      var front, r := rows[..|rows| - 1], rows[|rows| - 1];
      TalliesKeepRoles(front, patch);
      assert r in rows;
      if FeatureFilter(r, patch) == Yes {
        AddKeepsRoles(CellCounts(front, patch), r.champion.value, r.role.value, r.win.value);
      }
    }
  }

  lemma {:induction false} UniqueKeysAreDistinctCells(counts: seq<CellCount>)
    requires UniqueKeys(counts) && forall g | g in counts :: CanonicalSpelling(g.role)
    ensures DistinctCells(counts)
  {
    if counts != [] {
      var rest := counts[1..];
      UniqueKeysAreDistinctCells(rest);
      forall j | 0 <= j < |rest|
        ensures !SameCell(counts[0], rest[j])
      {
        assert counts[0] in counts && rest[j] in counts;
        CanonicalSpellingsAreInjective(counts[0].role, rest[j].role);
        NotHeld(rest, counts[0].champion, counts[0].role, j);
      }
    }
  }

  lemma {:induction false} NotHeld(counts: seq<CellCount>, champion: int, role: string, j: nat)
    requires j < |counts| && !HasKey(counts, champion, role)
    ensures counts[j].champion != champion || counts[j].role != role
  {
    if j > 0 {
      NotHeld(counts[1..], champion, role, j - 1);
    }
  }

  /**
   * From feature rows with any NULLs to the gates: the tallies are fit for the policy, the reconciliation
   * gate holds at tolerance zero, and published and suppressed cells account for every tally.
   */
  method ReduceRows(rows: seq<FeatureRow>, patch: string, bans: seq<BanCount>, matches: int, minCellN: int,
                    root: nat -> real, cfg: GateConfig) returns (r: Result<CellOutput>, errors: seq<GateError>)
    requires IsSquareRoot(root) && RolesNormalised(rows) && cfg.reconcileTolerance >= 0
    ensures r.Ok? <==> minCellN >= 1 && matches >= 1 && ClassifiedRows(rows, patch) > 0
    ensures r.Ok? ==> r.value.sumN == ParticipantRows(rows, patch) - RejectedRows(rows, patch)
    ensures r.Ok? ==> |r.value.cells| + r.value.suppressed == r.value.total
    ensures r.Ok? ==> var input := CellInput(CellCounts(rows, patch), bans, matches, minCellN);
      Computable(input) && r.value.cells == PublishedCells(input, root)
    ensures r.Ok? ==> DistinctKeys(r.value.cells)
    ensures Reconciliation !in errors
    ensures r.Ok? ==> (NoPublishedCells in errors <==> r.value.cells == [])
  {
    errors := [];
    TalliesAreComputable(rows, patch, bans, matches, minCellN);
    var input := CellInput(CellCounts(rows, patch), bans, matches, minCellN);
    r := ComputeCells(input, root);
    if r.Ok? {
      PublishedKeysAreDistinct(input, root);
      var classified := ParticipantRows(rows, patch) - RejectedRows(rows, patch);
      errors := CheckOutput(GateCounts(r.value.sumN, classified, r.value.total, |r.value.cells|), cfg);
    }
  }

  lemma TalliesAreComputable(rows: seq<FeatureRow>, patch: string, bans: seq<BanCount>, matches: int, minCellN: int)
    requires RolesNormalised(rows)
    ensures var input := CellInput(CellCounts(rows, patch), bans, matches, minCellN);
      Computable(input) <==> minCellN >= 1 && matches >= 1 && ClassifiedRows(rows, patch) > 0
    ensures DistinctCells(CellCounts(rows, patch))
    ensures SumN(CellCounts(rows, patch)) == ParticipantRows(rows, patch) - RejectedRows(rows, patch)
  {
    var counts := CellCounts(rows, patch);
    TalliesConserveRows(rows, patch);
    CellCountsFacts(rows, patch);
    TalliesKeepRoles(rows, patch);
    UniqueKeysAreDistinctCells(counts);
    BadTallyNone(counts);
    forall c | c in counts
      ensures SoundTally(c) && RoleFromRiotPosition(c.role).Some?
    {
      CanonicalSpellingsAreInjective(c.role, c.role);
    }
    if counts != [] {
      assert counts[0] in counts;
      assert BadTally(counts).None?;
    }
  }
}
