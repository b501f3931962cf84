/** The independent check of a published tier list, and its agreement with the policy that produced it. */
module CellVerifier {
  import opened Collections
  import opened Options
  import opened Tallies
  import opened Cells

  datatype Problem =
    | BadChampion
    | BadRoleName
    | BelowMinCellN
    | BadWins
    | RateOutsideUnit
    | RateNotWinsOverN
    | WrongHalfWidth
    | PickRateOutsideUnit
    | BanRateOutsideUnit
    | UnknownTier
    | DuplicateCell
    | RateOrder
    | IdOrder
    | GradeOrder
    | PublishedCount

  function If(c: bool, p: Problem): seq<Problem> {
    if c then [p] else []
  }

  predicate CloseEnough(got: real, want: real) {
    -0.000000001 <= got - want <= 0.000000001
  }

  /** A quotient by zero is NaN or infinite in float64, and nothing is close to either. */
  predicate RateMatches(cell: Cell) {
    cell.n != 0 && CloseEnough(cell.winRate, Round4(cell.wins as real / cell.n as real))
  }

  predicate HalfWidthMatches(cell: Cell, root: nat -> real) {
    cell.n > 0 && root(cell.n) != 0.0 && CloseEnough(cell.halfWidth, HalfWidth(root, cell.n))
  }

  function TallyProblems(cell: Cell, minCellN: int): seq<Problem> {
    If(cell.champion <= 0, BadChampion) + If(cell.role.OtherRole?, BadRoleName)
    + If(cell.n < minCellN, BelowMinCellN) + If(cell.wins < 0 || cell.wins > cell.n, BadWins)
  }

  function RateProblems(cell: Cell, root: nat -> real): seq<Problem> {
    If(cell.winRate < 0.0 || cell.winRate > 1.0, RateOutsideUnit) + If(!RateMatches(cell), RateNotWinsOverN)
    + If(!HalfWidthMatches(cell, root), WrongHalfWidth)
  }

  function ShareProblems(cell: Cell): seq<Problem> {
    If(cell.pickRate < 0.0 || cell.pickRate > 1.0, PickRateOutsideUnit)
    + If(cell.banRate < 0.0 || cell.banRate > 1.0, BanRateOutsideUnit) + If(TierRank(cell.tier) < 0, UnknownTier)
  }

  /** The complaints about one cell, in the order they are made. */
  function CellProblems(cell: Cell, minCellN: int, root: nat -> real): seq<Problem> {
    TallyProblems(cell, minCellN) + RateProblems(cell, root) + ShareProblems(cell)
  }

  lemma RegroupThree(start: seq<Problem>, a: seq<Problem>, b: seq<Problem>, c: seq<Problem>)
    ensures start + a + b + c == start + (a + b + c)
    ensures a + b + c == [] <==> a == [] && b == [] && c == []
  {
  }

  // ---------------------------------------------------------------- the order check, over what came before

  /** The cells the order check looks at: it skips a role it does not know. */
  function Known(cells: seq<Cell>): seq<Cell> {
    if cells == [] then []
    else
      var front := Known(cells[..|cells| - 1]);
      if cells[|cells| - 1].role.OtherRole? then front else front + [cells[|cells| - 1]]
  }

  /** The grade carried forward: that of the latest cell with a published tier, whatever its role. */
  function CarriedRank(known: seq<Cell>): int {
    if known == [] then -1
    else if TierRank(known[|known| - 1].tier) >= 0 then TierRank(known[|known| - 1].tier)
    else CarriedRank(known[..|known| - 1])
  }

  predicate SameKey(a: Cell, b: Cell) {
    a.role == b.role && a.champion == b.champion
  }

  predicate Repeats(known: seq<Cell>, cell: Cell) {
    exists k | 0 <= k < |known| :: SameKey(known[k], cell)
  }

  function LastOf(known: seq<Cell>): Option<Cell> {
    if known == [] then None else Some(known[|known| - 1])
  }

  function StepProblems(known: seq<Cell>, cell: Cell): seq<Problem> {
    var beside := known != [] && known[|known| - 1].role == cell.role;
    If(Repeats(known, cell), DuplicateCell)
    + If(beside && cell.winRate > known[|known| - 1].winRate, RateOrder)
    + If(beside && cell.winRate == known[|known| - 1].winRate && cell.champion < known[|known| - 1].champion, IdOrder)
    + If(beside && 0 <= TierRank(cell.tier) < CarriedRank(known), GradeOrder)
  }

  function OrderProblems(cells: seq<Cell>): seq<Problem> {
    if cells == [] then []
    else
      var front, cell := cells[..|cells| - 1], cells[|cells| - 1];
      OrderProblems(front) + if cell.role.OtherRole? then [] else StepProblems(Known(front), cell)
  }

  function AllCellProblems(cells: seq<Cell>, minCellN: int, root: nat -> real): seq<Problem> {
    if cells == [] then []
    else AllCellProblems(cells[..|cells| - 1], minCellN, root) + CellProblems(cells[|cells| - 1], minCellN, root)
  }

  function TierListProblems(list: seq<Cell>, cellsPublished: int, minCellN: int, root: nat -> real): seq<Problem> {
    AllCellProblems(list, minCellN, root)
    + If(Publishable(list, minCellN, root) != cellsPublished, PublishedCount)
    + OrderProblems(list)
  }

  /** Cells that draw no complaint of their own. */
  function Publishable(cells: seq<Cell>, minCellN: int, root: nat -> real): nat {
    if cells == [] then 0
    else
      Publishable(cells[..|cells| - 1], minCellN, root)
      + if CellProblems(cells[|cells| - 1], minCellN, root) == [] then 1 else 0
  }

  class Verifier {
    var problems: seq<Problem>
    var cells: nat

    constructor ()
      ensures problems == [] && cells == 0
    {
      problems, cells := [], 0;
    }

    method Problem(p: Problem)
      modifies this`problems
      ensures problems == old(problems) + [p]
    {
      problems := problems + [p];
    }

    method Note(c: bool, p: Problem) returns (fine: bool)
      modifies this`problems
      ensures problems == old(problems) + If(c, p)
      ensures fine == !c
    {
      if c {
        Problem(p);
      }
      fine := !c;
    }

    method CheckTally(cell: Cell, minCellN: int) returns (ok: bool)
      modifies this`problems
      ensures problems == old(problems) + TallyProblems(cell, minCellN)
      ensures ok <==> TallyProblems(cell, minCellN) == []
    {
      var a := Note(cell.champion <= 0, BadChampion);
      var b := Note(cell.role.OtherRole?, BadRoleName);
      var c := Note(cell.n < minCellN, BelowMinCellN);
      var d := Note(cell.wins < 0 || cell.wins > cell.n, BadWins);
      ok := a && b && c && d;
    }

    method CheckRates(cell: Cell, root: nat -> real) returns (ok: bool)
      modifies this`problems
      ensures problems == old(problems) + RateProblems(cell, root)
      ensures ok <==> RateProblems(cell, root) == []
    {
      var a := Note(cell.winRate < 0.0 || cell.winRate > 1.0, RateOutsideUnit);
      var b := Note(!RateMatches(cell), RateNotWinsOverN);
      var c := Note(!HalfWidthMatches(cell, root), WrongHalfWidth);
      ok := a && b && c;
    }

    method CheckShares(cell: Cell) returns (ok: bool)
      modifies this`problems
      ensures problems == old(problems) + ShareProblems(cell)
      ensures ok <==> ShareProblems(cell) == []
    {
      var a := Note(cell.pickRate < 0.0 || cell.pickRate > 1.0, PickRateOutsideUnit);
      var b := Note(cell.banRate < 0.0 || cell.banRate > 1.0, BanRateOutsideUnit);
      var c := Note(TierRank(cell.tier) < 0, UnknownTier);
      ok := a && b && c;
    }

    method CheckCell(cell: Cell, minCellN: int, root: nat -> real) returns (ok: bool)
      modifies this
      ensures cells == old(cells) + 1
      ensures problems == old(problems) + CellProblems(cell, minCellN, root)
      ensures ok <==> CellProblems(cell, minCellN, root) == []
    {
      RegroupThree(problems, TallyProblems(cell, minCellN), RateProblems(cell, root), ShareProblems(cell));
      cells := cells + 1;
      var tally := CheckTally(cell, minCellN);
      var rates := CheckRates(cell, root);
      var shares := CheckShares(cell);
      ok := tally && rates && shares;
    }

    method CheckCellOrder(list: seq<Cell>)
      modifies this`problems
      ensures problems == old(problems) + OrderProblems(list)
    {
      var seen: set<(nat, int)> := {};
      var previous: Option<Cell> := None;
      var previousRank := -1;
      var i := 0;
      while i < |list|
        invariant 0 <= i <= |list|
        invariant problems == old(problems) + OrderProblems(list[..i])
        invariant Carries(Known(list[..i]), seen, previous, previousRank)
      {
        OneMore(list, i);
        Regroup(old(problems), OrderProblems(list[..i]), StepProblems(Known(list[..i]), list[i]));
        if !list[i].role.OtherRole? {
          seen, previousRank := CheckStep(list[i], seen, previous, previousRank, Known(list[..i]));
          previous := Some(list[i]);
        }
        i := i + 1;
      }
      assert list[..i] == list;
    }

    /** One round of the order check: the four comparisons against what the loop carries, and what it carries next. */
    method CheckStep(cell: Cell, seen: set<(nat, int)>, previous: Option<Cell>, previousRank: int,
        ghost known: seq<Cell>)
      returns (nowSeen: set<(nat, int)>, rank: int)
      requires Carries(known, seen, previous, previousRank) && !cell.role.OtherRole?
      modifies this`problems
      ensures problems == old(problems) + StepProblems(known, cell)
      ensures Carries(known + [cell], nowSeen, Some(cell), rank)
    {
      OneKeyOneCell(known, seen, cell);
      CarriesOn(known, cell, seen, previous, previousRank);
      Compare(cell, (RoleRank(cell.role), cell.champion) in seen, previous, previousRank, known);
      nowSeen := seen + {(RoleRank(cell.role), cell.champion)};
      rank := if TierRank(cell.tier) >= 0 then TierRank(cell.tier) else previousRank;
    }

    method Compare(cell: Cell, repeated: bool, previous: Option<Cell>, previousRank: int, ghost known: seq<Cell>)
      requires repeated <==> Repeats(known, cell)
      requires previous == LastOf(known) && previousRank == CarriedRank(known)
      modifies this`problems
      ensures problems == old(problems) + StepProblems(known, cell)
    {
      var beside := previous.Some? && previous.value.role == cell.role;
      var a := Note(repeated, DuplicateCell);
      var b := Note(beside && cell.winRate > previous.value.winRate, RateOrder);
      var lower := beside && cell.winRate == previous.value.winRate && cell.champion < previous.value.champion;
      var c := Note(lower, IdOrder);
      var d := Note(beside && 0 <= TierRank(cell.tier) < previousRank, GradeOrder);
    }

    /** The tier list part of the partition check: every cell, their number, and their order. */
    method CheckTierList(list: seq<Cell>, cellsPublished: int, minCellN: int, root: nat -> real)
      returns (published: nat)
      modifies this
      ensures published == Publishable(list, minCellN, root)
      ensures problems == old(problems) + TierListProblems(list, cellsPublished, minCellN, root)
    {
      RegroupThree(problems, AllCellProblems(list, minCellN, root),
                   If(Publishable(list, minCellN, root) != cellsPublished, PublishedCount), OrderProblems(list));
      published := CheckEveryCell(list, minCellN, root);
      var counted := Note(published != cellsPublished, PublishedCount);
      CheckCellOrder(list);
    }

    method CheckEveryCell(list: seq<Cell>, minCellN: int, root: nat -> real) returns (published: nat)
      modifies this
      ensures published == Publishable(list, minCellN, root)
      ensures problems == old(problems) + AllCellProblems(list, minCellN, root)
    {
      published := 0;
      var i := 0;
      while i < |list|
        invariant 0 <= i <= |list|
        invariant published == Publishable(list[..i], minCellN, root)
        invariant problems == old(problems) + AllCellProblems(list[..i], minCellN, root)
      {
        assert list[..i + 1][..i] == list[..i];
        Regroup(old(problems), AllCellProblems(list[..i], minCellN, root), CellProblems(list[i], minCellN, root));
        var ok := CheckCell(list[i], minCellN, root);
        if ok {
          published := published + 1;
        }
        i := i + 1;
      }
      assert list[..i] == list;
    }
  }

  lemma OneMore(list: seq<Cell>, i: nat)
    requires i < |list|
    ensures Known(list[..i + 1]) == if list[i].role.OtherRole? then Known(list[..i]) else Known(list[..i]) + [list[i]]
    ensures OrderProblems(list[..i + 1])
         == OrderProblems(list[..i]) + if list[i].role.OtherRole? then [] else StepProblems(Known(list[..i]), list[i])
  {
    assert list[..i + 1][..i] == list[..i];
  }

  /** What the order check's loop variables say about the cells it has looked at. */
  ghost predicate Carries(known: seq<Cell>, seen: set<(nat, int)>, previous: Option<Cell>, previousRank: int) {
    && previous == LastOf(known)
    && previousRank == CarriedRank(known)
    && (forall k | 0 <= k < |known| :: !known[k].role.OtherRole?)
    && (forall k | 0 <= k < |known| :: (RoleRank(known[k].role), known[k].champion) in seen)
    && (forall key | key in seen :: exists k | 0 <= k < |known| :: key == (RoleRank(known[k].role), known[k].champion))
  }

  lemma OneKeyOneCell(known: seq<Cell>, seen: set<(nat, int)>, cell: Cell)
    requires forall k | 0 <= k < |known| :: !known[k].role.OtherRole?
    requires forall k | 0 <= k < |known| :: (RoleRank(known[k].role), known[k].champion) in seen
    requires forall key | key in seen ::
      exists k | 0 <= k < |known| :: key == (RoleRank(known[k].role), known[k].champion)
    requires !cell.role.OtherRole?
    ensures (RoleRank(cell.role), cell.champion) in seen <==> Repeats(known, cell)
  {
    if Repeats(known, cell) {
      var k :| 0 <= k < |known| && SameKey(known[k], cell);
      assert (RoleRank(known[k].role), known[k].champion) in seen;
    }
    if (RoleRank(cell.role), cell.champion) in seen {
      var k :| 0 <= k < |known| && (RoleRank(cell.role), cell.champion) == (RoleRank(known[k].role), known[k].champion);
      assert SameKey(known[k], cell);
    }
  }

  lemma CarriesOn(known: seq<Cell>, cell: Cell, seen: set<(nat, int)>, previous: Option<Cell>, previousRank: int)
    requires Carries(known, seen, previous, previousRank) && !cell.role.OtherRole?
    ensures Carries(known + [cell], seen + {(RoleRank(cell.role), cell.champion)}, Some(cell),
                    if TierRank(cell.tier) >= 0 then TierRank(cell.tier) else previousRank)
  {
    var next, keys := known + [cell], seen + {(RoleRank(cell.role), cell.champion)};
    assert next[..|known|] == known;
    forall key | key in keys
      ensures exists k | 0 <= k < |next| :: key == (RoleRank(next[k].role), next[k].champion)
    {
      if key in seen {
        var k :| 0 <= k < |known| && key == (RoleRank(known[k].role), known[k].champion);
        assert next[k] == known[k];
      } else {
        assert next[|known|] == cell;
      }
    }
  }
}
