/**
 * The running kills, deaths and assists of a frame row: kill points in long form, grouped by timestamp, summed
 * along each participant's timeline and looked up as of the frame. A missing value (`None`) is an SQL NULL.
 */
module RunningKda {
  import opened Options
  import Sorting

  datatype Tally = Tally(kills: nat, deaths: nat, assists: nat)

  const ZERO := Tally(0, 0, 0)

  function Plus(a: Tally, b: Tally): Tally {
    Tally(a.kills + b.kills, a.deaths + b.deaths, a.assists + b.assists)
  }

  datatype GameEvent = GameEvent(
    matchId: string, kind: string, timestamp: Option<int>,
    actor: Option<int>, target: Option<int>, assisting: Option<seq<Option<int>>>)

  datatype Point = Point(matchId: string, participant: Option<int>, timestamp: Option<int>, tally: Tally)

  const CHAMPION_KILL := "CHAMPION_KILL"

  // ---------------------------------------------------------------- killPointsSQL

  /** `participant > 0` is true; a NULL participant makes it unknown, which a WHERE clause drops. */
  predicate Positive(participant: Option<int>) {
    participant.Some? && participant.value > 0
  }

  function ActorPoint(e: GameEvent): seq<Point> {
    if e.kind == CHAMPION_KILL && Positive(e.actor)
    then [Point(e.matchId, e.actor, e.timestamp, Tally(1, 0, 0))] else []
  }

  function TargetPoint(e: GameEvent): seq<Point> {
    if e.kind == CHAMPION_KILL && Positive(e.target)
    then [Point(e.matchId, e.target, e.timestamp, Tally(0, 1, 0))] else []
  }

  function Unnest(e: GameEvent, ids: seq<Option<int>>): seq<Point> {
    if ids == [] then []
    else [Point(e.matchId, ids[0], e.timestamp, Tally(0, 0, 1))] + Unnest(e, ids[1..])
  }

  /** The assist branch filters nothing: every member of the list becomes a point. */
  function AssistPoints(e: GameEvent): seq<Point> {
    if e.kind == CHAMPION_KILL && e.assisting.Some? then Unnest(e, e.assisting.value) else []
  }

  function Branch(f: GameEvent -> seq<Point>, events: seq<GameEvent>): seq<Point> {
    if events == [] then [] else f(events[0]) + Branch(f, events[1..])
  }

  /** Three branches over the same events, united without removing duplicates. */
  function KillPoints(events: seq<GameEvent>): seq<Point> {
    Branch(ActorPoint, events) + Branch(TargetPoint, events) + Branch(AssistPoints, events)
  }

  // ---------------------------------------------------------------- which branch lets participant 0 through

  /** The event lists this participant among its assistants. */
  predicate Assists(e: GameEvent, x: int) {
    e.kind == CHAMPION_KILL && e.assisting.Some? && Some(x) in e.assisting.value
  }

  predicate HasPointOf(points: seq<Point>, x: int) {
    exists k | 0 <= k < |points| :: points[k].participant == Some(x)
  }

  lemma PointsOfConcat(a: seq<Point>, b: seq<Point>, x: int)
    ensures HasPointOf(a + b, x) <==> HasPointOf(a, x) || HasPointOf(b, x)
  {
    assert forall k | 0 <= k < |a| :: (a + b)[k] == a[k];
    assert forall k | 0 <= k < |b| :: (a + b)[|a| + k] == b[k];
  }

  lemma {:induction false} UnnestHolds(e: GameEvent, ids: seq<Option<int>>, x: int)
    ensures HasPointOf(Unnest(e, ids), x) <==> Some(x) in ids
  {
    if ids != [] {
      UnnestHolds(e, ids[1..], x);
      PointsOfConcat([Point(e.matchId, ids[0], e.timestamp, Tally(0, 0, 1))], Unnest(e, ids[1..]), x);
      assert [Point(e.matchId, ids[0], e.timestamp, Tally(0, 0, 1))][0].participant == ids[0];
      assert ids == [ids[0]] + ids[1..];
    }
  }

  lemma {:induction false} BranchHolds(f: GameEvent -> seq<Point>, events: seq<GameEvent>, x: int)
    ensures HasPointOf(Branch(f, events), x) <==> exists i | 0 <= i < |events| :: HasPointOf(f(events[i]), x)
  {
    if events != [] {
      BranchHolds(f, events[1..], x);
      PointsOfConcat(f(events[0]), Branch(f, events[1..]), x);
      if HasPointOf(Branch(f, events[1..]), x) {
        var i :| 0 <= i < |events[1..]| && HasPointOf(f(events[1..][i]), x);
        assert events[i + 1] == events[1..][i];
      }
      if i :| 0 <= i < |events| && HasPointOf(f(events[i]), x) {
        if i > 0 {
          assert events[1..][i - 1] == events[i];
        }
      }
    }
  }

  /** A participant that is not positive gets a point exactly when a kill lists it among its assistants. */
  lemma OnlyAssistsLetNobodyThrough(events: seq<GameEvent>, x: int)
    requires x <= 0
    ensures HasPointOf(KillPoints(events), x) <==> exists i | 0 <= i < |events| :: Assists(events[i], x)
  {
    PointsOfConcat(Branch(ActorPoint, events) + Branch(TargetPoint, events), Branch(AssistPoints, events), x);
    PointsOfConcat(Branch(ActorPoint, events), Branch(TargetPoint, events), x);
    BranchHolds(ActorPoint, events, x);
    BranchHolds(TargetPoint, events, x);
    BranchHolds(AssistPoints, events, x);
    forall i | 0 <= i < |events|
      ensures HasPointOf(AssistPoints(events[i]), x) <==> Assists(events[i], x)
    {
      if events[i].assisting.Some? {
        UnnestHolds(events[i], events[i].assisting.value, x);
      }
    }
  }

  /** Participant 0, who stands for nobody, does get one. */
  lemma ParticipantZeroCanAssist()
    ensures var e := GameEvent("EUW1_1", CHAMPION_KILL, Some(60000), Some(1), Some(6), Some([Some(0)]));
      HasPointOf(KillPoints([e]), 0)
  {
    var e := GameEvent("EUW1_1", CHAMPION_KILL, Some(60000), Some(1), Some(6), Some([Some(0)]));
    assert Some(0) == [Some(0)][0];
    assert Assists([e][0], 0);
    OnlyAssistsLetNobodyThrough([e], 0);
  }

  // ---------------------------------------------------------------- merged: GROUP BY match, participant, timestamp

  predicate SameKey(a: Point, b: Point) {
    a.matchId == b.matchId && a.participant == b.participant && a.timestamp == b.timestamp
  }

  function AddToGroup(groups: seq<Point>, p: Point): seq<Point> {
    if groups == [] then [p]
    else if SameKey(groups[0], p) then [groups[0].(tally := Plus(groups[0].tally, p.tally))] + groups[1..]
    else [groups[0]] + AddToGroup(groups[1..], p)
  }

  function GroupBy(points: seq<Point>): seq<Point> {
    if points == [] then [] else AddToGroup(GroupBy(points[..|points| - 1]), points[|points| - 1])
  }

  // ---------------------------------------------------------------- running: windowed prefix sums

  /** `ORDER BY timestamp_ms`, NULLs last. */
  predicate NotAfter(a: Option<int>, b: Option<int>) {
    b.None? || (a.Some? && a.value <= b.value)
  }

  function Partition(groups: seq<Point>, m: string, participant: int): seq<Point> {
    if groups == [] then []
    else (if groups[0].matchId == m && groups[0].participant == Some(participant) then [groups[0]] else [])
         + Partition(groups[1..], m, participant)
  }

  predicate Earlier(a: Point, b: Point) {
    !NotAfter(b.timestamp, a.timestamp)
  }

  /** ROWS BETWEEN UNBOUNDED PRECEDING AND CURRENT ROW, `before` being the sum of the preceding rows. */
  function PrefixSums(sorted: seq<Point>, before: Tally): seq<Point> {
    if sorted == [] then []
    else
      var here := Plus(before, sorted[0].tally);
      [sorted[0].(tally := here)] + PrefixSums(sorted[1..], here)
  }

  function Running(groups: seq<Point>, m: string, participant: int): seq<Point> {
    PrefixSums(Sorting.Sorted(Earlier, Partition(groups, m, participant)), ZERO)
  }

  // ---------------------------------------------------------------- ASOF LEFT JOIN and COALESCE

  /** The row with the latest timestamp at or before `at`; a NULL timestamp never qualifies. */
  function AsOf(running: seq<Point>, at: int): Option<Point> {
    if running == [] then None
    else
      var rest := AsOf(running[1..], at);
      var r := running[0];
      if r.timestamp.None? || r.timestamp.value > at then rest
      else if rest.Some? && NotAfter(r.timestamp, rest.value.timestamp) then rest
      else Some(r)
  }

  function FrameTally(events: seq<GameEvent>, m: string, participant: int, at: Option<int>): Tally {
    if at.None? then ZERO
    else
      match AsOf(Running(GroupBy(KillPoints(events)), m, participant), at.value)
      case None => ZERO
      case Some(r) => r.tally
  }

  // ---------------------------------------------------------------- the meaning: counting events

  datatype Stat = Kills | Deaths | Assists

  function Of(t: Tally, stat: Stat): nat {
    match stat
    case Kills => t.kills
    case Deaths => t.deaths
    case Assists => t.assists
  }

  /** Whose events are counted, up to when, and which of the three numbers. */
  datatype Query = Query(matchId: string, participant: int, at: int, stat: Stat)

  function Count(ids: seq<Option<int>>, participant: int): nat {
    if ids == [] then 0 else (if ids[0] == Some(participant) then 1 else 0) + Count(ids[1..], participant)
  }

  predicate Happened(e: GameEvent, q: Query) {
    e.kind == CHAMPION_KILL && e.matchId == q.matchId && e.timestamp.Some? && e.timestamp.value <= q.at
  }

  /** What one event adds: a kill to its actor, a death to its target, an assist per mention in the list. */
  function Share(e: GameEvent, q: Query): nat {
    if !Happened(e, q) then 0
    else
      match q.stat
      case Kills => if q.participant > 0 && e.actor == Some(q.participant) then 1 else 0
      case Deaths => if q.participant > 0 && e.target == Some(q.participant) then 1 else 0
      case Assists => if e.assisting.Some? then Count(e.assisting.value, q.participant) else 0
  }

  /** The direct count over the match's kill events at or before the moment. */
  function Direct(events: seq<GameEvent>, q: Query): nat {
    if events == [] then 0 else Share(events[0], q) + Direct(events[1..], q)
  }

  // ---------------------------------------------------------------- sums over points

  predicate Counts(p: Point, q: Query) {
    p.matchId == q.matchId && p.participant == Some(q.participant) && p.timestamp.Some? && p.timestamp.value <= q.at
  }

  function Value(p: Point, q: Query): nat {
    if Counts(p, q) then Of(p.tally, q.stat) else 0
  }

  function Sum(points: seq<Point>, q: Query): nat {
    if points == [] then 0 else Value(points[0], q) + Sum(points[1..], q)
  }

  lemma {:induction false} SumConcat(a: seq<Point>, b: seq<Point>, q: Query)
    ensures Sum(a + b, q) == Sum(a, q) + Sum(b, q)
  {
    if a == [] {
      assert a + b == b;
    } else {
      assert (a + b)[0] == a[0] && (a + b)[1..] == a[1..] + b;
      SumConcat(a[1..], b, q);
    }
  }

  lemma SumOne(p: Point, q: Query)
    ensures Sum([p], q) == Value(p, q)
  {
    assert [p][1..] == [];
  }

  lemma {:induction false} SumUnnest(e: GameEvent, ids: seq<Option<int>>, q: Query)
    requires e.kind == CHAMPION_KILL
    ensures Sum(Unnest(e, ids), q) == if Happened(e, q) && q.stat.Assists? then Count(ids, q.participant) else 0
  {
    if ids != [] {
      SumUnnest(e, ids[1..], q);
      var p := Point(e.matchId, ids[0], e.timestamp, Tally(0, 0, 1));
      SumOne(p, q);
      SumConcat([p], Unnest(e, ids[1..]), q);
    }
  }

  /** The three branches of one event add up to the event's share. */
  lemma EventShare(e: GameEvent, q: Query)
    ensures Share(e, q) == Sum(ActorPoint(e), q) + Sum(TargetPoint(e), q) + Sum(AssistPoints(e), q)
  {
    SumOne(Point(e.matchId, e.actor, e.timestamp, Tally(1, 0, 0)), q);
    SumOne(Point(e.matchId, e.target, e.timestamp, Tally(0, 1, 0)), q);
    if e.kind == CHAMPION_KILL && e.assisting.Some? {
      SumUnnest(e, e.assisting.value, q);
    }
  }

  lemma {:induction false} BranchesShare(events: seq<GameEvent>, q: Query)
    ensures Direct(events, q)
         == Sum(Branch(ActorPoint, events), q) + Sum(Branch(TargetPoint, events), q)
           + Sum(Branch(AssistPoints, events), q)
  {
    if events != [] {
      EventShare(events[0], q);
      BranchesShare(events[1..], q);
      SumConcat(ActorPoint(events[0]), Branch(ActorPoint, events[1..]), q);
      SumConcat(TargetPoint(events[0]), Branch(TargetPoint, events[1..]), q);
      SumConcat(AssistPoints(events[0]), Branch(AssistPoints, events[1..]), q);
    }
  }

  lemma PointsCountEvents(events: seq<GameEvent>, q: Query)
    ensures Sum(KillPoints(events), q) == Direct(events, q)
  {
    BranchesShare(events, q);
    SumConcat(Branch(ActorPoint, events) + Branch(TargetPoint, events), Branch(AssistPoints, events), q);
    SumConcat(Branch(ActorPoint, events), Branch(TargetPoint, events), q);
  }

  lemma {:induction false} AddToGroupSums(groups: seq<Point>, p: Point, q: Query)
    ensures Sum(AddToGroup(groups, p), q) == Sum(groups, q) + Value(p, q)
  {
    if groups == [] {
      SumOne(p, q);
    } else if SameKey(groups[0], p) {
      var merged := groups[0].(tally := Plus(groups[0].tally, p.tally));
      SumOne(merged, q);
      SumConcat([merged], groups[1..], q);
    } else {
      AddToGroupSums(groups[1..], p, q);
      SumOne(groups[0], q);
      SumConcat([groups[0]], AddToGroup(groups[1..], p), q);
    }
  }

  lemma {:induction false} GroupBySums(points: seq<Point>, q: Query)
    ensures Sum(GroupBy(points), q) == Sum(points, q)
  {
    if points != [] {
      var front, last := points[..|points| - 1], points[|points| - 1];
      GroupBySums(front, q);
      AddToGroupSums(GroupBy(front), last, q);
      assert points == front + [last];
      SumConcat(front, [last], q);
      SumOne(last, q);
    }
  }

  /** All rows belong to the query's participant. */
  predicate AllOf(points: seq<Point>, q: Query) {
    forall p | p in points :: p.matchId == q.matchId && p.participant == Some(q.participant)
  }

  lemma {:induction false} PartitionSums(groups: seq<Point>, q: Query)
    ensures Sum(Partition(groups, q.matchId, q.participant), q) == Sum(groups, q)
    ensures AllOf(Partition(groups, q.matchId, q.participant), q)
  {
    if groups != [] {
      PartitionSums(groups[1..], q);
      SumOne(groups[0], q);
      var rest := Partition(groups[1..], q.matchId, q.participant);
      SumConcat([groups[0]], rest, q);
      assert [] + rest == rest;
    }
  }

  // ---------------------------------------------------------------- sorting

  predicate InTimeOrder(points: seq<Point>) {
    forall i, j | 0 <= i < j < |points| :: NotAfter(points[i].timestamp, points[j].timestamp)
  }

  lemma {:induction false} InsertSums(sorted: seq<Point>, p: Point, q: Query)
    ensures Sum(Sorting.Insert(Earlier, sorted, p), q) == Sum(sorted, q) + Value(p, q)
  {
    SumOne(p, q);
    SumConcat(sorted, [p], q);
    if sorted != [] && Earlier(p, sorted[|sorted| - 1]) {
      var front, last := sorted[..|sorted| - 1], sorted[|sorted| - 1];
      assert sorted == front + [last];
      InsertSums(front, p, q);
      SumConcat(front, [last], q);
      SumConcat(Sorting.Insert(Earlier, front, p), [last], q);
    }
  }

  lemma {:induction false} SortSums(points: seq<Point>, q: Query)
    ensures Sum(Sorting.Sorted(Earlier, points), q) == Sum(points, q)
  {
    if points != [] {
      var front, last := points[..|points| - 1], points[|points| - 1];
      assert points == front + [last];
      SortSums(front, q);
      InsertSums(Sorting.Sorted(Earlier, front), last, q);
      SumConcat(front, [last], q);
      SumOne(last, q);
    }
  }

  lemma SortKeeps(points: seq<Point>)
    ensures InTimeOrder(Sorting.Sorted(Earlier, points))
    ensures forall r :: r in Sorting.Sorted(Earlier, points) <==> r in points
  {
    var on := set p | p in points;
    var sorted := Sorting.Sorted(Earlier, points);
    assert Sorting.WeakOrder(Earlier, on);
    Sorting.SortedIsInOrder(Earlier, on, points);
    Sorting.SortedIsPermutation(Earlier, points);
    assert forall i, j | 0 <= i < j < |sorted| :: !Earlier(sorted[j], sorted[i]);
  }

  // ---------------------------------------------------------------- one row per timestamp

  predicate UniqueKeys(groups: seq<Point>) {
    forall i, j | 0 <= i < j < |groups| :: !SameKey(groups[i], groups[j])
  }

  lemma {:induction false} AddToGroupKeys(groups: seq<Point>, p: Point)
    requires UniqueKeys(groups)
    ensures UniqueKeys(AddToGroup(groups, p))
    ensures forall r | r in AddToGroup(groups, p) :: SameKey(r, p) || exists g | g in groups :: SameKey(r, g)
  {
    if groups != [] && SameKey(groups[0], p) {
      assert groups == [groups[0]] + groups[1..];
    } else if groups != [] {
      var rest := AddToGroup(groups[1..], p);
      AddToGroupKeys(groups[1..], p);
      assert groups[0] in groups && forall g | g in groups[1..] :: g in groups;
      forall r | r in AddToGroup(groups, p)
        ensures SameKey(r, p) || exists g | g in groups :: SameKey(r, g)
      {
        if r in rest && !SameKey(r, p) {
          var g :| g in groups[1..] && SameKey(r, g);
        } else {
          assert SameKey(groups[0], groups[0]);
        }
      }
      forall k | 0 <= k < |rest|
        ensures !SameKey(groups[0], rest[k])
      {
        assert rest[k] in rest;
      }
    }
  }

  lemma {:induction false} GroupByKeys(points: seq<Point>)
    ensures UniqueKeys(GroupBy(points))
  {
    if points != [] {
      GroupByKeys(points[..|points| - 1]);
      AddToGroupKeys(GroupBy(points[..|points| - 1]), points[|points| - 1]);
    }
  }

  predicate OneRowPerTime(points: seq<Point>) {
    forall i, j | 0 <= i < j < |points| :: points[i].timestamp != points[j].timestamp
  }

  lemma {:induction false} PartitionTimes(groups: seq<Point>, m: string, participant: int)
    requires UniqueKeys(groups)
    ensures OneRowPerTime(Partition(groups, m, participant))
    ensures forall r | r in Partition(groups, m, participant) ::
      r in groups && r.matchId == m && r.participant == Some(participant)
  {
    if groups != [] {
      var rest := Partition(groups[1..], m, participant);
      PartitionTimes(groups[1..], m, participant);
      if groups[0].matchId == m && groups[0].participant == Some(participant) {
        forall k | 0 <= k < |rest|
          ensures groups[0].timestamp != rest[k].timestamp
        {
          assert rest[k] in groups[1..];
          assert !SameKey(groups[0], rest[k]);
        }
      }
    }
  }

  lemma {:induction false} InsertTimes(sorted: seq<Point>, p: Point)
    requires OneRowPerTime(sorted) && forall r | r in sorted :: r.timestamp != p.timestamp
    ensures OneRowPerTime(Sorting.Insert(Earlier, sorted, p))
  {
    if sorted != [] && Earlier(p, sorted[|sorted| - 1]) {
      var front, last := sorted[..|sorted| - 1], sorted[|sorted| - 1];
      var next := Sorting.Insert(Earlier, front, p);
      assert last in sorted && forall r | r in front :: r in sorted;
      InsertTimes(front, p);
      Sorting.InsertIsPermutation(Earlier, front, p);
      forall k | 0 <= k < |next|
        ensures next[k].timestamp != last.timestamp
      {
        assert next[k] in multiset(next);
        assert next[k] == p || next[k] in front;
      }
    }
  }

  lemma {:induction false} SortTimes(points: seq<Point>)
    requires OneRowPerTime(points)
    ensures OneRowPerTime(Sorting.Sorted(Earlier, points))
  {
    if points != [] {
      var front, last := points[..|points| - 1], points[|points| - 1];
      SortTimes(front);
      SortKeeps(front);
      InsertTimes(Sorting.Sorted(Earlier, front), last);
    }
  }

  lemma {:induction false} PrefixSumTimes(sorted: seq<Point>, before: Tally)
    ensures |PrefixSums(sorted, before)| == |sorted|
    ensures forall i | 0 <= i < |sorted| :: PrefixSums(sorted, before)[i].timestamp == sorted[i].timestamp
  {
    if sorted != [] {
      PrefixSumTimes(sorted[1..], Plus(before, sorted[0].tally));
    }
  }

  /** Grouping first is what makes the as-of row unique: the running relation holds one row per timestamp. */
  lemma RunningHasOneRowPerTime(events: seq<GameEvent>, m: string, participant: int)
    ensures OneRowPerTime(Running(GroupBy(KillPoints(events)), m, participant))
  {
    var groups := GroupBy(KillPoints(events));
    GroupByKeys(KillPoints(events));
    PartitionTimes(groups, m, participant);
    SortTimes(Partition(groups, m, participant));
    PrefixSumTimes(Sorting.Sorted(Earlier, Partition(groups, m, participant)), ZERO);
  }

  // ---------------------------------------------------------------- the lookup

  lemma {:induction false} PrefixSumsLater(sorted: seq<Point>, before: Tally, q: Query)
    requires forall i | 0 <= i < |sorted| :: sorted[i].timestamp.None? || sorted[i].timestamp.value > q.at
    ensures AsOf(PrefixSums(sorted, before), q.at) == None && Sum(sorted, q) == 0
  {
    if sorted != [] {
      var here := Plus(before, sorted[0].tally);
      PrefixSumsLater(sorted[1..], here, q);
      assert PrefixSums(sorted, before)[1..] == PrefixSums(sorted[1..], here);
    }
  }

  /** In a sorted run the rows at or before the moment come first, and the last of them carries their sum. */
  lemma {:induction false} AsOfPrefixSum(sorted: seq<Point>, before: Tally, q: Query)
    requires InTimeOrder(sorted) && AllOf(sorted, q)
    ensures var r := AsOf(PrefixSums(sorted, before), q.at);
      && (r.None? ==> Sum(sorted, q) == 0)
      && (r.Some? ==> Of(r.value.tally, q.stat) == Of(before, q.stat) + Sum(sorted, q))
      && (r.Some? ==> sorted != [] && NotAfter(sorted[0].timestamp, r.value.timestamp))
  {
    if sorted != [] {
      var first := sorted[0];
      var here := Plus(before, first.tally);
      var rest := PrefixSums(sorted[1..], here);
      assert first in sorted;
      assert PrefixSums(sorted, before) == [first.(tally := here)] + rest;
      if first.timestamp.None? || first.timestamp.value > q.at {
        forall i | 0 <= i < |sorted|
          ensures sorted[i].timestamp.None? || sorted[i].timestamp.value > q.at
        {
          assert i == 0 || NotAfter(first.timestamp, sorted[i].timestamp);
        }
        PrefixSumsLater(sorted, before, q);
      } else {
        AsOfPrefixSum(sorted[1..], here, q);
        if |sorted| > 1 {
          assert NotAfter(first.timestamp, sorted[1..][0].timestamp);
        }
      }
    }
  }

  /**
   * Grouping, windowing and the as-of lookup with its default of zero give exactly the direct count of the
   * participant's kill events at or before the frame, for any events with any NULLs.
   */
  lemma FrameTallyIsTheDirectCount(events: seq<GameEvent>, q: Query)
    ensures Of(FrameTally(events, q.matchId, q.participant, Some(q.at)), q.stat) == Direct(events, q)
  {
    var groups := GroupBy(KillPoints(events));
    var rows := Partition(groups, q.matchId, q.participant);
    PointsCountEvents(events, q);
    GroupBySums(KillPoints(events), q);
    PartitionSums(groups, q);
    SortSums(rows, q);
    SortKeeps(rows);
    AsOfPrefixSum(Sorting.Sorted(Earlier, rows), ZERO, q);
  }

  lemma {:induction false} DirectGrows(events: seq<GameEvent>, q: Query, later: int)
    requires q.at <= later
    ensures Direct(events, q) <= Direct(events, q.(at := later))
  {
    if events != [] {
      DirectGrows(events[1..], q, later);
    }
  }

  /** Along a match the running numbers never go down. */
  lemma FrameTalliesNeverDecrease(events: seq<GameEvent>, q: Query, later: int)
    requires q.at <= later
    ensures Of(FrameTally(events, q.matchId, q.participant, Some(q.at)), q.stat)
         <= Of(FrameTally(events, q.matchId, q.participant, Some(later)), q.stat)
  {
    FrameTallyIsTheDirectCount(events, q);
    FrameTallyIsTheDirectCount(events, q.(at := later));
    DirectGrows(events, q, later);
  }
}
