/** The reductions over feature rows: one tally per champion and role, and the counts the gates compare it with. */
module Tallies {
  import opened Options

  /** SQL's three truth values; a WHERE clause keeps a row only when its condition is `Yes`. */
  datatype Truth = Yes | No | Unknown

  function And(a: Truth, b: Truth): Truth {
    if a == No || b == No then No else if a == Yes && b == Yes then Yes else Unknown
  }

  function Or(a: Truth, b: Truth): Truth {
    if a == Yes || b == Yes then Yes else if a == No && b == No then No else Unknown
  }

  function Is(b: bool): Truth {
    if b then Yes else No
  }

  function GreaterThanZero(x: Option<int>): Truth {
    if x.None? then Unknown else Is(x.value > 0)
  }

  function AtMostZero(x: Option<int>): Truth {
    if x.None? then Unknown else Is(x.value <= 0)
  }

  function Equals(x: Option<string>, s: string): Truth {
    if x.None? then Unknown else Is(x.value == s)
  }

  datatype FeatureRow = FeatureRow(champion: Option<int>, role: Option<string>, win: Option<bool>,
    patch: Option<string>)

  /** `patchOnlyFilter`: no condition at all when no patch is named. */
  function PatchCondition(r: FeatureRow, patch: string): Truth {
    if patch == "" then Yes else Equals(r.patch, patch)
  }

  /** `featureFilter`. */
  function FeatureFilter(r: FeatureRow, patch: string): Truth {
    And(And(And(Is(r.role.Some?), GreaterThanZero(r.champion)), Is(r.win.Some?)), PatchCondition(r, patch))
  }

  /** The rejected rows of `windowStatsSQL`. */
  function RejectFilter(r: FeatureRow, patch: string): Truth {
    And(PatchCondition(r, patch),
        Or(Or(Or(Is(r.role.None?), Is(r.champion.None?)), AtMostZero(r.champion)), Is(r.win.None?)))
  }

  function CountWhere(rows: seq<FeatureRow>, f: FeatureRow -> Truth): nat {
    if rows == [] then 0 else (if f(rows[0]) == Yes then 1 else 0) + CountWhere(rows[1..], f)
  }

  function ParticipantRows(rows: seq<FeatureRow>, patch: string): nat {
    CountWhere(rows, (r: FeatureRow) => PatchCondition(r, patch))
  }

  function RejectedRows(rows: seq<FeatureRow>, patch: string): nat {
    CountWhere(rows, (r: FeatureRow) => RejectFilter(r, patch))
  }

  function ClassifiedRows(rows: seq<FeatureRow>, patch: string): nat {
    CountWhere(rows, (r: FeatureRow) => FeatureFilter(r, patch))
  }

  /** Every row of the patch is classified or rejected, never both, whatever is NULL in it. */
  lemma {:induction false} RowsSplit(rows: seq<FeatureRow>, patch: string)
    ensures ParticipantRows(rows, patch) == ClassifiedRows(rows, patch) + RejectedRows(rows, patch)
  {
    if rows != [] {
      RowsSplit(rows[1..], patch);
      var r := rows[0];
      assert PatchCondition(r, patch) == Yes <==> (FeatureFilter(r, patch) == Yes || RejectFilter(r, patch) == Yes);
    }
  }

  // ---------------------------------------------------------------- cellCountsSQL

  datatype CellCount = CellCount(champion: int, role: string, n: int, wins: int)

  function Add(groups: seq<CellCount>, champion: int, role: string, won: bool): seq<CellCount> {
    if groups == [] then [CellCount(champion, role, 1, if won then 1 else 0)]
    else
      var g := groups[0];
      if g.champion == champion && g.role == role
      then [g.(n := g.n + 1, wins := g.wins + if won then 1 else 0)] + groups[1..]
      else [g] + Add(groups[1..], champion, role, won)
  }

  function CellCounts(rows: seq<FeatureRow>, patch: string): seq<CellCount> {
    if rows == [] then []
    else
      var (front, r) := (CellCounts(rows[..|rows| - 1], patch), rows[|rows| - 1]);
      if FeatureFilter(r, patch) == Yes then Add(front, r.champion.value, r.role.value, r.win.value) else front
  }

  function SumN(counts: seq<CellCount>): int {
    if counts == [] then 0 else counts[0].n + SumN(counts[1..])
  }

  predicate HasKey(counts: seq<CellCount>, champion: int, role: string) {
    counts != [] && ((counts[0].champion == champion && counts[0].role == role) || HasKey(counts[1..], champion, role))
  }

  predicate UniqueKeys(counts: seq<CellCount>) {
    counts == [] || (!HasKey(counts[1..], counts[0].champion, counts[0].role) && UniqueKeys(counts[1..]))
  }

  /** What a tally of real rows looks like: a champion, at least one game, no more wins than games. */
  predicate WellFormed(counts: seq<CellCount>) {
    forall c | c in counts :: c.champion > 0 && c.n >= 1 && 0 <= c.wins <= c.n
  }

  function NOf(counts: seq<CellCount>, champion: int, role: string): int {
    if counts == [] then 0
    else
      (if counts[0].champion == champion && counts[0].role == role then counts[0].n else 0)
      + NOf(counts[1..], champion, role)
  }

  function WinsOf(counts: seq<CellCount>, champion: int, role: string): int {
    if counts == [] then 0
    else
      (if counts[0].champion == champion && counts[0].role == role then counts[0].wins else 0)
      + WinsOf(counts[1..], champion, role)
  }

  lemma {:induction false} AddSums(groups: seq<CellCount>, champion: int, role: string, won: bool)
    ensures SumN(Add(groups, champion, role, won)) == SumN(groups) + 1
  {
    if groups != [] {
      AddSums(groups[1..], champion, role, won);
      assert Add(groups, champion, role, won)[1..] == groups[1..]
        || Add(groups, champion, role, won)[1..] == Add(groups[1..], champion, role, won);
    }
  }

  lemma {:induction false} AddKeys(groups: seq<CellCount>, champion: int, role: string, won: bool, c: int, r: string)
    ensures HasKey(Add(groups, champion, role, won), c, r) <==> HasKey(groups, c, r) || (c == champion && r == role)
  {
    var next := Add(groups, champion, role, won);
    if groups != [] {
      AddKeys(groups[1..], champion, role, won, c, r);
      if groups[0].champion == champion && groups[0].role == role {
        assert next[1..] == groups[1..];
      } else {
        assert next[1..] == Add(groups[1..], champion, role, won);
      }
    }
  }

  lemma {:induction false} AddKeepsKeysUnique(groups: seq<CellCount>, champion: int, role: string, won: bool)
    requires UniqueKeys(groups)
    ensures UniqueKeys(Add(groups, champion, role, won))
  {
    var next := Add(groups, champion, role, won);
    if groups != [] {
      var g := groups[0];
      AddKeepsKeysUnique(groups[1..], champion, role, won);
      if g.champion == champion && g.role == role {
        assert next[1..] == groups[1..];
      } else {
        assert next[1..] == Add(groups[1..], champion, role, won);
        AddKeys(groups[1..], champion, role, won, g.champion, g.role);
      }
    }
  }

  lemma {:induction false} AddKeepsWellFormed(groups: seq<CellCount>, champion: int, role: string, won: bool)
    requires WellFormed(groups) && champion > 0
    ensures WellFormed(Add(groups, champion, role, won))
  {
    if groups != [] {
      assert groups[0] in groups;
      assert forall c | c in groups[1..] :: c in groups;
      AddKeepsWellFormed(groups[1..], champion, role, won);
    }
  }

  lemma {:induction false} AddCounts(groups: seq<CellCount>, champion: int, role: string, won: bool, c: int, r: string)
    ensures NOf(Add(groups, champion, role, won), c, r)
      == NOf(groups, c, r) + if c == champion && r == role then 1 else 0
  {
    var next := Add(groups, champion, role, won);
    if groups != [] {
      AddCounts(groups[1..], champion, role, won, c, r);
      if groups[0].champion == champion && groups[0].role == role {
        assert next[1..] == groups[1..];
      } else {
        assert next[1..] == Add(groups[1..], champion, role, won);
      }
    } else {
      assert next[1..] == [];
    }
  }

  lemma {:induction false} AddWins(groups: seq<CellCount>, champion: int, role: string, won: bool, c: int, r: string)
    ensures WinsOf(Add(groups, champion, role, won), c, r)
      == WinsOf(groups, c, r) + if c == champion && r == role && won then 1 else 0
  {
    var next := Add(groups, champion, role, won);
    if groups != [] {
      AddWins(groups[1..], champion, role, won, c, r);
      if groups[0].champion == champion && groups[0].role == role {
        assert next[1..] == groups[1..];
      } else {
        assert next[1..] == Add(groups[1..], champion, role, won);
      }
    } else {
      assert next[1..] == [];
    }
  }

  lemma {:induction false} CountWhereSnoc(rows: seq<FeatureRow>, r: FeatureRow, f: FeatureRow -> Truth)
    ensures CountWhere(rows + [r], f) == CountWhere(rows, f) + if f(r) == Yes then 1 else 0
  {
    if rows == [] {
      assert [] + [r] == [r] && [r][1..] == [];
    } else {
      assert (rows + [r])[1..] == rows[1..] + [r];
      CountWhereSnoc(rows[1..], r, f);
    }
  }

  lemma {:induction false} CellCountsFacts(rows: seq<FeatureRow>, patch: string)
    ensures SumN(CellCounts(rows, patch)) == ClassifiedRows(rows, patch)
    ensures UniqueKeys(CellCounts(rows, patch)) && WellFormed(CellCounts(rows, patch))
  {
    if rows != [] {
      var front, r := rows[..|rows| - 1], rows[|rows| - 1];
      CellCountsFacts(front, patch);
      assert rows == front + [r];
      CountWhereSnoc(front, r, (x: FeatureRow) => FeatureFilter(x, patch));
      if FeatureFilter(r, patch) == Yes {
        var groups := CellCounts(front, patch);
        AddSums(groups, r.champion.value, r.role.value, r.win.value);
        AddKeepsKeysUnique(groups, r.champion.value, r.role.value, r.win.value);
        AddKeepsWellFormed(groups, r.champion.value, r.role.value, r.win.value);
      }
    }
  }

  /** The tallies hold exactly the participant rows that were not rejected. */
  lemma TalliesConserveRows(rows: seq<FeatureRow>, patch: string)
    ensures SumN(CellCounts(rows, patch)) == ParticipantRows(rows, patch) - RejectedRows(rows, patch)
    ensures UniqueKeys(CellCounts(rows, patch)) && WellFormed(CellCounts(rows, patch))
  {
    CellCountsFacts(rows, patch);
    RowsSplit(rows, patch);
  }

  function Of(r: FeatureRow, patch: string, champion: int, role: string): Truth {
    And(FeatureFilter(r, patch), And(Is(r.champion == Some(champion)), Is(r.role == Some(role))))
  }

  function WonBy(r: FeatureRow, patch: string, champion: int, role: string): Truth {
    And(Of(r, patch, champion, role), Is(r.win == Some(true)))
  }

  /**
   * Each tally is the direct count of that champion's classified rows, and of the won ones among them, in that
   * role.
   */
  lemma {:induction false} EachTallyIsItsDirectCount(rows: seq<FeatureRow>, patch: string, champion: int, role: string)
    ensures NOf(CellCounts(rows, patch), champion, role)
      == CountWhere(rows, (r: FeatureRow) => Of(r, patch, champion, role))
    ensures WinsOf(CellCounts(rows, patch), champion, role)
      == CountWhere(rows, (r: FeatureRow) => WonBy(r, patch, champion, role))
  {
    if rows != [] {
      var front, r := rows[..|rows| - 1], rows[|rows| - 1];
      EachTallyIsItsDirectCount(front, patch, champion, role);
      assert rows == front + [r];
      CountWhereSnoc(front, r, (x: FeatureRow) => Of(x, patch, champion, role));
      CountWhereSnoc(front, r, (x: FeatureRow) => WonBy(x, patch, champion, role));
      if FeatureFilter(r, patch) == Yes {
        var groups := CellCounts(front, patch);
        AddCounts(groups, r.champion.value, r.role.value, r.win.value, champion, role);
        AddWins(groups, r.champion.value, r.role.value, r.win.value, champion, role);
      }
    }
  }
}
