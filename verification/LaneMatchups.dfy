/** Every participant beside the opposing laner: a self-join by role, then six left joins on checkpoint picks. */
module LaneMatchups {
  import opened Options
  import opened Checkpoints

  datatype Participant = Participant(
    matchId: string, participant: int, team: Option<int>, role: Option<string>,
    champion: Option<int>, win: Option<bool>)

  /** The join condition; a NULL role or team on either side makes it unknown and drops the pair. */
  predicate Opposes(a: Participant, b: Participant) {
    && a.matchId == b.matchId
    && a.role.Some? && b.role == a.role
    && a.team.Some? && b.team.Some? && a.team != b.team
  }

  datatype Pair = Pair(mine: Participant, theirs: Participant)

  function PairsWith(a: Participant, all: seq<Participant>): seq<Pair> {
    if all == [] then [] else (if Opposes(a, all[0]) then [Pair(a, all[0])] else []) + PairsWith(a, all[1..])
  }

  function Pairs(left: seq<Participant>, all: seq<Participant>): seq<Pair> {
    if left == [] then [] else PairsWith(left[0], all) + Pairs(left[1..], all)
  }

  /** `p`: the participants of matches whose ledger row is timeline eligible. */
  function Eligible(participants: seq<Participant>, ledger: set<string>): seq<Participant> {
    if participants == [] then []
    else (if participants[0].matchId in ledger then [participants[0]] else []) + Eligible(participants[1..], ledger)
  }

  // ---------------------------------------------------------------- the left joins

  datatype Joined = Joined(pair: Pair, picks: seq<Option<Pick>>)

  datatype Side = Mine | Theirs

  function SideKey(pair: Pair, side: Side, minute: int): Key {
    Key(pair.mine.matchId, if side == Mine then pair.mine.participant else pair.theirs.participant, minute)
  }

  function Extend(row: Joined, found: seq<Pick>): seq<Joined> {
    if found == [] then [] else [row.(picks := row.picks + [Some(found[0])])] + Extend(row, found[1..])
  }

  /** One row per match found, and one row with NULLs when none is. */
  function LeftJoinRow(row: Joined, picks: seq<Pick>, side: Side, minute: int): seq<Joined> {
    var found := Matching(picks, SideKey(row.pair, side, minute));
    if found == [] then [row.(picks := row.picks + [None])] else Extend(row, found)
  }

  function LeftJoin(rows: seq<Joined>, picks: seq<Pick>, side: Side, minute: int): seq<Joined> {
    if rows == [] then [] else LeftJoinRow(rows[0], picks, side, minute) + LeftJoin(rows[1..], picks, side, minute)
  }

  function Unjoined(pairs: seq<Pair>): seq<Joined> {
    if pairs == [] then [] else [Joined(pairs[0], [])] + Unjoined(pairs[1..])
  }

  function BothSides(rows: seq<Joined>, picks: seq<Pick>, minute: int): seq<Joined> {
    LeftJoin(LeftJoin(rows, picks, Mine, minute), picks, Theirs, minute)
  }

  function LaneMatchupRows(participants: seq<Participant>, ledger: set<string>, frames: seq<Frame>): seq<Joined> {
    var p := Eligible(participants, ledger);
    var picks := CheckpointPicks(frames);
    BothSides(BothSides(BothSides(Unjoined(Pairs(p, p)), picks, 5), picks, 10), picks, 15)
  }

  function Find(picks: seq<Pick>, key: Key): Option<Pick> {
    var found := Matching(picks, key);
    if found == [] then None else Some(found[0])
  }

  /** Checkpoint picks hold a key at most once, so a row is joined once. */
  lemma OneRowJoins(row: Joined, frames: seq<Frame>, side: Side, minute: int)
    requires minute in MINUTES
    ensures var picks := CheckpointPicks(frames);
      LeftJoinRow(row, picks, side, minute)
        == [Joined(row.pair, row.picks + [Find(picks, SideKey(row.pair, side, minute))])]
  {
    var found := Matching(CheckpointPicks(frames), SideKey(row.pair, side, minute));
    EachKeyOnce(frames, SideKey(row.pair, side, minute));
    if found != [] {
      assert found[1..] == [];
      assert Extend(row, found[1..]) == [];
    }
  }

  lemma {:induction false} LeftJoinKeepsRows(rows: seq<Joined>, frames: seq<Frame>, side: Side, minute: int)
    requires minute in MINUTES
    ensures |LeftJoin(rows, CheckpointPicks(frames), side, minute)| == |rows|
    ensures forall i | 0 <= i < |rows| ::
      LeftJoin(rows, CheckpointPicks(frames), side, minute)[i]
      == Joined(rows[i].pair, rows[i].picks + [Find(CheckpointPicks(frames), SideKey(rows[i].pair, side, minute))])
  {
    if rows != [] {
      OneRowJoins(rows[0], frames, side, minute);
      LeftJoinKeepsRows(rows[1..], frames, side, minute);
    }
  }

  lemma {:induction false} UnjoinedRows(pairs: seq<Pair>)
    ensures |Unjoined(pairs)| == |pairs|
    ensures forall i | 0 <= i < |pairs| :: Unjoined(pairs)[i] == Joined(pairs[i], [])
  {
    if pairs != [] {
      UnjoinedRows(pairs[1..]);
    }
  }

  /** What the six joins attach to one pair. */
  function PicksOf(pair: Pair, frames: seq<Frame>, minutes: seq<int>): seq<Option<Pick>> {
    if minutes == [] then []
    else
      var m := minutes[|minutes| - 1];
      PicksOf(pair, frames, minutes[..|minutes| - 1])
      + [Find(CheckpointPicks(frames), SideKey(pair, Mine, m)), Find(CheckpointPicks(frames), SideKey(pair, Theirs, m))]
  }

  lemma BothSidesKeepRows(pairs: seq<Pair>, rows: seq<Joined>, frames: seq<Frame>, minutes: seq<int>, minute: int)
    requires minute in MINUTES && |rows| == |pairs|
    requires forall i | 0 <= i < |pairs| :: rows[i] == Joined(pairs[i], PicksOf(pairs[i], frames, minutes))
    ensures |BothSides(rows, CheckpointPicks(frames), minute)| == |pairs|
    ensures forall i | 0 <= i < |pairs| ::
      BothSides(rows, CheckpointPicks(frames), minute)[i]
        == Joined(pairs[i], PicksOf(pairs[i], frames, minutes + [minute]))
  {
    var picks := CheckpointPicks(frames);
    var half := LeftJoin(rows, picks, Mine, minute);
    LeftJoinKeepsRows(rows, frames, Mine, minute);
    LeftJoinKeepsRows(half, frames, Theirs, minute);
    forall i | 0 <= i < |pairs|
      ensures BothSides(rows, picks, minute)[i] == Joined(pairs[i], PicksOf(pairs[i], frames, minutes + [minute]))
    {
      assert (minutes + [minute])[..|minutes|] == minutes;
      assert half[i].pair == pairs[i];
    }
  }

  /** The checkpoint joins neither lose a pairing nor multiply one, whatever frames the archive holds. */
  lemma JoinsNeverMultiply(participants: seq<Participant>, ledger: set<string>, frames: seq<Frame>)
    ensures var p := Eligible(participants, ledger);
      var rows := LaneMatchupRows(participants, ledger, frames);
      |rows| == |Pairs(p, p)|
      && forall i | 0 <= i < |rows| :: rows[i] == Joined(Pairs(p, p)[i], PicksOf(Pairs(p, p)[i], frames, MINUTES))
  {
    var p := Eligible(participants, ledger);
    var picks := CheckpointPicks(frames);
    var pairs := Pairs(p, p);
    UnjoinedRows(pairs);
    var five := BothSides(Unjoined(pairs), picks, 5);
    BothSidesKeepRows(pairs, Unjoined(pairs), frames, [], 5);
    var ten := BothSides(five, picks, 10);
    BothSidesKeepRows(pairs, five, frames, [5], 10);
    assert [5] + [10] == [5, 10] && [5, 10] + [15] == MINUTES && [] + [5] == [5];
    BothSidesKeepRows(pairs, ten, frames, [5, 10], 15);
  }

  // ---------------------------------------------------------------- the difference columns

  datatype Column = Cs | Xp | Gold | Level

  function Value(pick: Option<Pick>, c: Column): Option<int> {
    if pick.None? then None
    else
      match c
      case Cs => pick.value.stats.cs
      case Xp => pick.value.stats.xp
      case Gold => pick.value.stats.gold
      case Level => pick.value.stats.level
  }

  /** SQL subtraction: NULL when either side is. */
  function Minus(a: Option<int>, b: Option<int>): Option<int> {
    if a.Some? && b.Some? then Some(a.value - b.value) else None
  }

  function Diff(pair: Pair, frames: seq<Frame>, minute: int, c: Column): Option<int> {
    Minus(Value(Find(CheckpointPicks(frames), SideKey(pair, Mine, minute)), c),
          Value(Find(CheckpointPicks(frames), SideKey(pair, Theirs, minute)), c))
  }

  function Mirror(pair: Pair): Pair {
    Pair(pair.theirs, pair.mine)
  }

  lemma {:induction false} PairsWithHolds(a: Participant, all: seq<Participant>, pair: Pair)
    ensures pair in PairsWith(a, all) <==> pair.mine == a && pair.theirs in all && Opposes(a, pair.theirs)
  {
    if all != [] {
      PairsWithHolds(a, all[1..], pair);
      assert all == [all[0]] + all[1..];
      assert Opposes(a, all[0]) ==> PairsWith(a, all)[0] == Pair(a, all[0]);
    }
  }

  lemma {:induction false} PairsHold(left: seq<Participant>, all: seq<Participant>, pair: Pair)
    ensures pair in Pairs(left, all) <==> pair.mine in left && pair.theirs in all && Opposes(pair.mine, pair.theirs)
  {
    if left != [] {
      PairsHold(left[1..], all, pair);
      PairsWithHolds(left[0], all, pair);
      assert left == [left[0]] + left[1..];
    }
  }

  lemma MinusIsAntisymmetric(a: Option<int>, b: Option<int>)
    ensures Minus(a, b).None? <==> Minus(b, a).None?
    ensures Minus(a, b).Some? ==> Minus(b, a) == Some(-Minus(a, b).value)
  {
  }

  lemma MirrorIsListed(p: seq<Participant>, pair: Pair)
    requires pair in Pairs(p, p)
    ensures Mirror(pair) in Pairs(p, p) && Mirror(pair).mine.matchId == pair.mine.matchId
  {
    PairsHold(p, p, pair);
    PairsHold(p, p, Mirror(pair));
  }

  /**
   * Every pairing is listed from both sides, and its differences are opposite: one is NULL exactly when the other
   * is.
   */
  lemma DifferencesAreAntisymmetric(p: seq<Participant>, pair: Pair, frames: seq<Frame>, minute: int, c: Column)
    requires pair in Pairs(p, p)
    ensures Mirror(pair) in Pairs(p, p)
    ensures Diff(pair, frames, minute, c).None? <==> Diff(Mirror(pair), frames, minute, c).None?
    ensures Diff(pair, frames, minute, c).Some? ==>
      Diff(Mirror(pair), frames, minute, c) == Some(-Diff(pair, frames, minute, c).value)
  {
    MirrorIsListed(p, pair);
    MinusIsAntisymmetric(Value(Find(CheckpointPicks(frames), SideKey(pair, Mine, minute)), c),
                         Value(Find(CheckpointPicks(frames), SideKey(pair, Theirs, minute)), c));
  }

  // ---------------------------------------------------------------- how many pairings a match has

  predicate Holds(r: Participant, m: string, team: int, role: string) {
    r.matchId == m && r.team == Some(team) && r.role == Some(role)
  }

  function Holders(rows: seq<Participant>, m: string, team: int, role: string): nat {
    if rows == [] then 0 else (if Holds(rows[0], m, team, role) then 1 else 0) + Holders(rows[1..], m, team, role)
  }

  function Of(rows: seq<Participant>, m: string): seq<Participant> {
    if rows == [] then [] else (if rows[0].matchId == m then [rows[0]] else []) + Of(rows[1..], m)
  }

  const ROLES: seq<string> := ["TOP", "JUNGLE", "MID", "BOTTOM", "SUPPORT"]

  /** The match is played by two teams in the five roles; a row may lack a team or a role. */
  predicate TwoTeams(rows: seq<Participant>, m: string, blue: int, red: int) {
    blue != red && forall r | r in rows && r.matchId == m ::
      (r.team.Some? ==> r.team.value == blue || r.team.value == red) && (r.role.Some? ==> r.role.value in ROLES)
  }

  lemma {:induction false} OpponentsOf(a: Participant, all: seq<Participant>, blue: int, red: int)
    requires TwoTeams(all, a.matchId, blue, red) && a.role.Some? && (a.team == Some(blue) || a.team == Some(red))
    ensures |PairsWith(a, all)| == Holders(all, a.matchId, if a.team == Some(blue) then red else blue, a.role.value)
  {
    if all != [] {
      assert all[0] in all;
      assert forall r | r in all[1..] :: r in all;
      OpponentsOf(a, all[1..], blue, red);
    }
  }

  lemma {:induction false} NoOpponents(a: Participant, all: seq<Participant>)
    requires a.role.None? || a.team.None?
    ensures PairsWith(a, all) == []
  {
    if all != [] {
      NoOpponents(a, all[1..]);
    }
  }

  /** Pairings of one role: each of blue's holders meets each of red's, and the other way round. */
  function Meetings(left: seq<Participant>, all: seq<Participant>, m: string, blue: int, red: int, role: string): nat {
    Holders(left, m, blue, role) * Holders(all, m, red, role)
    + Holders(left, m, red, role) * Holders(all, m, blue, role)
  }

  function MeetingsIn(left: seq<Participant>, all: seq<Participant>, m: string, blue: int, red: int,
      roles: seq<string>): nat {
    if roles == [] then 0
    else Meetings(left, all, m, blue, red, roles[0]) + MeetingsIn(left, all, m, blue, red, roles[1..])
  }

  predicate Distinct(roles: seq<string>) {
    roles == [] || (roles[0] !in roles[1..] && Distinct(roles[1..]))
  }

  /** What one more participant on the left adds to the meetings of one role. */
  function Added(a: Participant, all: seq<Participant>, m: string, blue: int, red: int, role: string): nat {
    if Holds(a, m, blue, role) then Holders(all, m, red, role)
    else if Holds(a, m, red, role) then Holders(all, m, blue, role)
    else 0
  }

  lemma MeetingsStep(left: seq<Participant>, all: seq<Participant>, m: string, blue: int, red: int, role: string)
    requires left != [] && blue != red
    ensures Meetings(left, all, m, blue, red, role)
         == Added(left[0], all, m, blue, red, role) + Meetings(left[1..], all, m, blue, red, role)
  {
    var x, y := Holders(left[1..], m, blue, role), Holders(left[1..], m, red, role);
    var u, v := Holders(all, m, red, role), Holders(all, m, blue, role);
    assert (1 + x) * u == u + x * u && (1 + y) * v == v + y * v;
  }

  lemma {:induction false} MeetingsInStep(left: seq<Participant>, all: seq<Participant>, m: string, blue: int,
      red: int, roles: seq<string>)
    requires left != [] && blue != red && Distinct(roles)
    ensures MeetingsIn(left, all, m, blue, red, roles) == MeetingsIn(left[1..], all, m, blue, red, roles)
      + (if left[0].role.Some? && left[0].role.value in roles
         then Added(left[0], all, m, blue, red, left[0].role.value) else 0)
  {
    if roles != [] {
      MeetingsStep(left, all, m, blue, red, roles[0]);
      MeetingsInStep(left, all, m, blue, red, roles[1..]);
      assert roles == [roles[0]] + roles[1..];
    }
  }

  lemma {:induction false} NoMeetings(all: seq<Participant>, m: string, blue: int, red: int, roles: seq<string>)
    ensures MeetingsIn([], all, m, blue, red, roles) == 0
  {
    if roles != [] {
      NoMeetings(all, m, blue, red, roles[1..]);
    }
  }

  lemma RolesAreDistinct()
    ensures Distinct(ROLES)
  {
    assert ROLES[1..] == ["JUNGLE", "MID", "BOTTOM", "SUPPORT"];
    assert ROLES[1..][1..] == ["MID", "BOTTOM", "SUPPORT"];
    assert ROLES[1..][1..][1..] == ["BOTTOM", "SUPPORT"];
    assert ROLES[1..][1..][1..][1..] == ["SUPPORT"];
    assert ROLES[1..][1..][1..][1..][1..] == [];
  }

  lemma OneParticipantsPairs(a: Participant, all: seq<Participant>, m: string, blue: int, red: int)
    requires a.matchId == m && TwoTeams(all, m, blue, red)
    requires a.team.Some? ==> a.team.value == blue || a.team.value == red
    requires a.role.Some? ==> a.role.value in ROLES
    ensures |PairsWith(a, all)| == if a.role.Some? then Added(a, all, m, blue, red, a.role.value) else 0
  {
    if a.role.Some? && a.team.Some? {
      OpponentsOf(a, all, blue, red);
    } else {
      NoOpponents(a, all);
    }
  }

  /** The exact number of rows of a match: twice, over the roles, what one team fields times what the other does. */
  lemma {:induction false} PairingsAreMeetings(left: seq<Participant>, all: seq<Participant>, m: string, blue: int,
      red: int)
    requires TwoTeams(all, m, blue, red) && TwoTeams(left, m, blue, red)
    ensures |Pairs(Of(left, m), all)| == MeetingsIn(left, all, m, blue, red, ROLES)
  {
    if left == [] {
      NoMeetings(all, m, blue, red, ROLES);
    } else {
      var a, rest := left[0], left[1..];
      assert a in left;
      assert forall r | r in rest :: r in left;
      PairingsAreMeetings(rest, all, m, blue, red);
      RolesAreDistinct();
      MeetingsInStep(left, all, m, blue, red, ROLES);
      if a.matchId == m {
        OneParticipantsPairs(a, all, m, blue, red);
        assert Of(left, m)[0] == a && Of(left, m)[1..] == Of(rest, m);
      } else {
        assert Of(left, m) == Of(rest, m);
      }
    }
  }

  /** Each of the two teams fields each of the five roles exactly once. */
  predicate FullLineup(rows: seq<Participant>, m: string, blue: int, red: int) {
    TwoTeams(rows, m, blue, red)
    && forall i | 0 <= i < |ROLES| :: Holders(rows, m, blue, ROLES[i]) == 1 && Holders(rows, m, red, ROLES[i]) == 1
  }

  lemma {:induction false} TwoPerRole(all: seq<Participant>, m: string, blue: int, red: int, roles: seq<string>)
    requires forall r | r in roles :: Holders(all, m, blue, r) == 1 && Holders(all, m, red, r) == 1
    ensures MeetingsIn(all, all, m, blue, red, roles) == 2 * |roles|
  {
    if roles != [] {
      assert roles[0] in roles;
      TwoPerRole(all, m, blue, red, roles[1..]);
      assert 1 * 1 == 1;
    }
  }

  lemma TenRows(p: seq<Participant>, m: string, blue: int, red: int)
    requires FullLineup(p, m, blue, red)
    ensures |Pairs(Of(p, m), p)| == 10
  {
    PairingsAreMeetings(p, p, m, blue, red);
    TwoPerRole(p, m, blue, red, ROLES);
  }

  /** The opponent is a person: exactly one, on the other team, and theirs in turn is the participant. */
  lemma OpponentIsAnInvolution(p: seq<Participant>, a: Participant, blue: int, red: int)
    requires FullLineup(p, a.matchId, blue, red) && a in p && a.role.Some? && a.team.Some?
    ensures |PairsWith(a, p)| == 1
    ensures var b := PairsWith(a, p)[0].theirs;
      b in p && b.team != a.team && PairsWith(b, p) == [Pair(b, a)]
  {
    OpponentsOf(a, p, blue, red);
    var i :| 0 <= i < |ROLES| && ROLES[i] == a.role.value;
    var pair := PairsWith(a, p)[0];
    PairsWithHolds(a, p, pair);
    var b := pair.theirs;
    OpponentsOf(b, p, blue, red);
    PairsWithHolds(b, p, Pair(b, a));
  }

  // ---------------------------------------------------------------- the reconciliation gate

  function RowsOver(ms: seq<string>, left: seq<Participant>, all: seq<Participant>): nat {
    if ms == [] then 0 else |Pairs(Of(left, ms[0]), all)| + RowsOver(ms[1..], left, all)
  }

  lemma {:induction false} RowsOverNothing(ms: seq<string>, all: seq<Participant>)
    ensures RowsOver(ms, [], all) == 0
  {
    if ms != [] {
      RowsOverNothing(ms[1..], all);
    }
  }

  lemma {:induction false} RowsOverStep(ms: seq<string>, left: seq<Participant>, all: seq<Participant>)
    requires left != [] && Distinct(ms)
    ensures RowsOver(ms, left, all) == RowsOver(ms, left[1..], all)
      + if left[0].matchId in ms then |PairsWith(left[0], all)| else 0
  {
    if ms != [] {
      RowsOverStep(ms[1..], left, all);
      assert ms == [ms[0]] + ms[1..];
      if left[0].matchId == ms[0] {
        assert Of(left, ms[0])[0] == left[0] && Of(left, ms[0])[1..] == Of(left[1..], ms[0]);
      } else {
        assert Of(left, ms[0]) == Of(left[1..], ms[0]);
      }
    }
  }

  lemma {:induction false} RowsByMatch(ms: seq<string>, left: seq<Participant>, all: seq<Participant>)
    requires Distinct(ms) && forall r | r in left :: r.matchId in ms
    ensures |Pairs(left, all)| == RowsOver(ms, left, all)
  {
    if left == [] {
      RowsOverNothing(ms, all);
    } else {
      assert left[0] in left;
      assert forall r | r in left[1..] :: r in left;
      RowsByMatch(ms, left[1..], all);
      RowsOverStep(ms, left, all);
    }
  }

  ghost predicate AllLineupsFull(p: seq<Participant>, ms: seq<string>) {
    forall m | m in ms :: exists blue: int, red: int :: FullLineup(p, m, blue, red)
  }

  lemma {:induction false} TenRowsEach(p: seq<Participant>, ms: seq<string>)
    requires AllLineupsFull(p, ms)
    ensures RowsOver(ms, p, p) == 10 * |ms|
  {
    if ms != [] {
      assert ms[0] in ms;
      var blue: int, red: int :| FullLineup(p, ms[0], blue, red);
      TenRows(p, ms[0], blue, red);
      assert forall m | m in ms[1..] :: m in ms;
      TenRowsEach(p, ms[1..]);
    }
  }

  lemma {:induction false} EligibleRows(participants: seq<Participant>, ledger: set<string>)
    ensures forall r :: r in Eligible(participants, ledger) <==> r in participants && r.matchId in ledger
  {
    if participants != [] {
      EligibleRows(participants[1..], ledger);
      assert participants == [participants[0]] + participants[1..];
    }
  }

  /** `count(DISTINCT match_id)` over the built table. */
  function MatchupMatches(rows: seq<Joined>): set<string> {
    set i | 0 <= i < |rows| :: rows[i].pair.mine.matchId
  }

  function Ledger(ms: seq<string>): set<string> {
    set m | m in ms
  }

  /**
   * With full lineups the table holds ten rows a match and names every match of the ledger: the build's gate
   * passes.
   */
  lemma ReconciliationHolds(participants: seq<Participant>, ms: seq<string>, frames: seq<Frame>)
    requires Distinct(ms)
    requires AllLineupsFull(Eligible(participants, Ledger(ms)), ms)
    ensures var rows := LaneMatchupRows(participants, Ledger(ms), frames);
      |rows| == 10 * |ms| && MatchupMatches(rows) == Ledger(ms)
  {
    var ledger := Ledger(ms);
    var p := Eligible(participants, ledger);
    var rows := LaneMatchupRows(participants, ledger, frames);
    EligibleRows(participants, ledger);
    JoinsNeverMultiply(participants, ledger, frames);
    RowsByMatch(ms, p, p);
    TenRowsEach(p, ms);
    forall m | m in ms
      ensures m in MatchupMatches(rows)
    {
      var pair := SomePairOf(p, m);
      var i :| 0 <= i < |Pairs(p, p)| && Pairs(p, p)[i] == pair;
      assert rows[i].pair == pair;
    }
    forall i | 0 <= i < |rows|
      ensures rows[i].pair.mine.matchId in ms
    {
      PairsHold(p, p, Pairs(p, p)[i]);
    }
  }

  lemma {:induction false} OfHolds(rows: seq<Participant>, m: string)
    ensures forall r :: r in Of(rows, m) <==> r in rows && r.matchId == m
  {
    if rows != [] {
      OfHolds(rows[1..], m);
      assert rows == [rows[0]] + rows[1..];
    }
  }

  lemma SomePairOf(p: seq<Participant>, m: string) returns (pair: Pair)
    requires exists blue: int, red: int :: FullLineup(p, m, blue, red)
    ensures pair in Pairs(p, p) && pair.mine.matchId == m
  {
    var blue: int, red: int :| FullLineup(p, m, blue, red);
    TenRows(p, m, blue, red);
    pair := Pairs(Of(p, m), p)[0];
    PairsHold(Of(p, m), p, pair);
    OfHolds(p, m);
    PairsHold(p, p, pair);
  }
}
