/** Which frame stands for minute 5, 10 and 15 of a participant, and the joins that read it. `None` is an SQL NULL. */
module Checkpoints {
  import opened Options
  import RunningKda

  datatype Stats = Stats(cs: Option<int>, xp: Option<int>, gold: Option<int>, level: Option<int>, kda: RunningKda.Tally)

  datatype Frame = Frame(matchId: string, participant: int, timestamp: Option<int>, stats: Stats)

  datatype Pick = Pick(matchId: string, participant: int, minute: int, timestamp: int, stats: Stats)

  const MINUTES: seq<int> := [5, 10, 15]

  function Distance(f: Frame, minute: int): int
    requires f.timestamp.Some?
  {
    var d := f.timestamp.value - minute * 60000;
    if d < 0 then -d else d
  }

  /** From one minute before the checkpoint to thirty seconds after it. */
  predicate InWindow(f: Frame, minute: int) {
    f.timestamp.Some? && minute * 60000 - 60000 <= f.timestamp.value <= minute * 60000 + 30000
  }

  /** `checkpoint * 60000 <= max(frame_timestamp_ms)`: some frame of the match lies at or after the checkpoint. */
  predicate Reached(frames: seq<Frame>, m: string, minute: int) {
    exists k | 0 <= k < |frames| ::
      frames[k].matchId == m && frames[k].timestamp.Some? && minute * 60000 <= frames[k].timestamp.value
  }

  predicate Qualifies(frames: seq<Frame>, i: nat, minute: int)
    requires i < |frames|
  {
    InWindow(frames[i], minute) && Reached(frames, frames[i].matchId, minute)
  }

  predicate SamePartition(a: Frame, b: Frame) {
    a.matchId == b.matchId && a.participant == b.participant
  }

  /**
   * The window's order: nearer first, then earlier; rows equal in both fall in storage order, as row_number breaks
   * them.
   */
  predicate RanksBefore(frames: seq<Frame>, i: nat, j: nat, minute: int)
    requires i < |frames| && j < |frames| && frames[i].timestamp.Some? && frames[j].timestamp.Some?
  {
    var (di, dj) := (Distance(frames[i], minute), Distance(frames[j], minute));
    var (ti, tj) := (frames[i].timestamp.value, frames[j].timestamp.value);
    di < dj || (di == dj && (ti < tj || (ti == tj && i < j)))
  }

  predicate Precedes(frames: seq<Frame>, j: nat, i: nat, minute: int)
    requires i < |frames| && j < |frames| && frames[i].timestamp.Some?
  {
    Qualifies(frames, j, minute) && SamePartition(frames[j], frames[i]) && RanksBefore(frames, j, i, minute)
  }

  /** How many of the first `upto` frames precede frame `i` in its partition. */
  function Preceding(frames: seq<Frame>, i: nat, minute: int, upto: nat): nat
    requires i < |frames| && upto <= |frames| && frames[i].timestamp.Some?
  {
    if upto == 0 then 0
    else Preceding(frames, i, minute, upto - 1) + if Precedes(frames, upto - 1, i, minute) then 1 else 0
  }

  function RowNumber(frames: seq<Frame>, i: nat, minute: int): nat
    requires i < |frames| && frames[i].timestamp.Some?
  {
    1 + Preceding(frames, i, minute, |frames|)
  }

  predicate Picked(frames: seq<Frame>, i: nat, minute: int)
    requires i < |frames|
  {
    Qualifies(frames, i, minute) && RowNumber(frames, i, minute) == 1
  }

  function PickAt(frames: seq<Frame>, i: nat, minute: int): Pick
    requires i < |frames| && frames[i].timestamp.Some?
  {
    Pick(frames[i].matchId, frames[i].participant, minute, frames[i].timestamp.value, frames[i].stats)
  }

  function PicksUpTo(frames: seq<Frame>, minute: int, upto: nat): seq<Pick>
    requires upto <= |frames|
  {
    if upto == 0 then []
    else
      PicksUpTo(frames, minute, upto - 1)
      + if Picked(frames, upto - 1, minute) then [PickAt(frames, upto - 1, minute)] else []
  }

  /** The whole relation. */
  function CheckpointPicks(frames: seq<Frame>): seq<Pick> {
    PicksUpTo(frames, 5, |frames|) + PicksUpTo(frames, 10, |frames|) + PicksUpTo(frames, 15, |frames|)
  }

  // ---------------------------------------------------------------- a picked frame is the nearest one

  lemma {:induction false} PrecedingZero(frames: seq<Frame>, i: nat, minute: int, upto: nat)
    requires i < |frames| && upto <= |frames| && frames[i].timestamp.Some?
    ensures Preceding(frames, i, minute, upto) == 0 <==> forall j | 0 <= j < upto :: !Precedes(frames, j, i, minute)
  {
    if upto > 0 {
      PrecedingZero(frames, i, minute, upto - 1);
    }
  }

  lemma PickedIsFirst(frames: seq<Frame>, i: nat, j: nat, minute: int)
    requires i < |frames| && j < |frames| && Picked(frames, i, minute)
    requires Qualifies(frames, j, minute) && SamePartition(frames[i], frames[j])
    ensures i == j || RanksBefore(frames, i, j, minute)
    ensures Distance(frames[i], minute) <= Distance(frames[j], minute)
  {
    PrecedingZero(frames, i, minute, |frames|);
    assert !Precedes(frames, j, i, minute);
  }

  lemma OnePickPerPartition(frames: seq<Frame>, i: nat, j: nat, minute: int)
    requires i < |frames| && j < |frames| && Picked(frames, i, minute) && Picked(frames, j, minute)
    requires SamePartition(frames[i], frames[j])
    ensures i == j
  {
    PickedIsFirst(frames, i, j, minute);
    PickedIsFirst(frames, j, i, minute);
  }

  /** The frame that ranks first among the first `upto`, if any of them qualifies. */
  lemma {:induction false} SomeFrameRanksFirst(frames: seq<Frame>, i: nat, minute: int, upto: nat) returns (best: nat)
    requires i < upto <= |frames| && Qualifies(frames, i, minute)
    ensures best < upto && Qualifies(frames, best, minute) && SamePartition(frames[best], frames[i])
    ensures forall j | 0 <= j < upto && Qualifies(frames, j, minute) && SamePartition(frames[j], frames[i]) ::
              !RanksBefore(frames, j, best, minute)
  {
    best := i;
    var k := 0;
    while k < upto
      invariant 0 <= k <= upto && best < upto
      invariant Qualifies(frames, best, minute) && SamePartition(frames[best], frames[i])
      invariant forall j | 0 <= j < k && Qualifies(frames, j, minute) && SamePartition(frames[j], frames[i]) ::
                  !RanksBefore(frames, j, best, minute)
    {
      if Qualifies(frames, k, minute) && SamePartition(frames[k], frames[i]) && RanksBefore(frames, k, best, minute) {
        best := k;
      }
      k := k + 1;
    }
  }

  /** A participant has a pick at a checkpoint exactly when one of its frames qualifies for it. */
  lemma PickedWheneverOneQualifies(frames: seq<Frame>, i: nat, minute: int) returns (best: nat)
    requires i < |frames| && Qualifies(frames, i, minute)
    ensures best < |frames| && Picked(frames, best, minute) && SamePartition(frames[best], frames[i])
  {
    best := SomeFrameRanksFirst(frames, i, minute, |frames|);
    PrecedingZero(frames, best, minute, |frames|);
  }

  // ---------------------------------------------------------------- the relation has one row per key

  datatype Key = Key(matchId: string, participant: int, minute: int)

  function KeyOf(p: Pick): Key {
    Key(p.matchId, p.participant, p.minute)
  }

  /** The rows of a relation a join on the checkpoint key finds. */
  function Matching(picks: seq<Pick>, key: Key): seq<Pick> {
    if picks == [] then []
    else Matching(picks[..|picks| - 1], key) + if KeyOf(picks[|picks| - 1]) == key then [picks[|picks| - 1]] else []
  }

  lemma {:induction false} MatchingConcat(a: seq<Pick>, b: seq<Pick>, key: Key)
    ensures Matching(a + b, key) == Matching(a, key) + Matching(b, key)
  {
    if b == [] {
      assert a + b == a;
    } else {
      var front, last := b[..|b| - 1], b[|b| - 1];
      assert (a + b)[..|a + b| - 1] == a + front && (a + b)[|a + b| - 1] == last;
      MatchingConcat(a, front, key);
    }
  }

  predicate IsPickOf(frames: seq<Frame>, i: nat, minute: int, key: Key)
    requires i < |frames|
  {
    Picked(frames, i, minute) && KeyOf(PickAt(frames, i, minute)) == key
  }

  lemma MatchingStep(frames: seq<Frame>, minute: int, upto: nat, key: Key)
    requires 0 < upto <= |frames|
    ensures Matching(PicksUpTo(frames, minute, upto), key)
         == Matching(PicksUpTo(frames, minute, upto - 1), key)
            + if IsPickOf(frames, upto - 1, minute, key) then [PickAt(frames, upto - 1, minute)] else []
  {
    if Picked(frames, upto - 1, minute) {
      var last := PickAt(frames, upto - 1, minute);
      MatchingConcat(PicksUpTo(frames, minute, upto - 1), [last], key);
      assert [last][..0] == [] && Matching([], key) == [];
      assert Matching([last], key) == if KeyOf(last) == key then [last] else [];
    } else {
      assert PicksUpTo(frames, minute, upto) == PicksUpTo(frames, minute, upto - 1);
    }
  }

  lemma {:induction false} MatchingFinds(frames: seq<Frame>, minute: int, upto: nat, key: Key)
    requires upto <= |frames|
    ensures Matching(PicksUpTo(frames, minute, upto), key) != []
      <==> exists i | 0 <= i < upto :: IsPickOf(frames, i, minute, key)
  {
    if upto > 0 {
      MatchingStep(frames, minute, upto, key);
      MatchingFinds(frames, minute, upto - 1, key);
    }
  }

  lemma {:induction false} MatchingOne(frames: seq<Frame>, minute: int, upto: nat, key: Key)
    requires upto <= |frames|
    ensures |Matching(PicksUpTo(frames, minute, upto), key)| <= 1
  {
    if upto > 0 {
      MatchingStep(frames, minute, upto, key);
      MatchingOne(frames, minute, upto - 1, key);
      MatchingFinds(frames, minute, upto - 1, key);
      if IsPickOf(frames, upto - 1, minute, key) && exists i | 0 <= i < upto - 1 :: IsPickOf(frames, i, minute, key) {
        var i :| 0 <= i < upto - 1 && IsPickOf(frames, i, minute, key);
        OnePickPerPartition(frames, i, upto - 1, minute);
      }
    }
  }

  lemma {:induction false} OtherMinute(frames: seq<Frame>, minute: int, upto: nat, key: Key)
    requires upto <= |frames| && key.minute != minute
    ensures Matching(PicksUpTo(frames, minute, upto), key) == []
  {
    if upto > 0 {
      MatchingStep(frames, minute, upto, key);
      OtherMinute(frames, minute, upto - 1, key);
    }
  }

  /** Some frame of that participant lies in the checkpoint's window, in a game that reached the checkpoint. */
  predicate HasCandidate(frames: seq<Frame>, key: Key) {
    exists i | 0 <= i < |frames| ::
      Qualifies(frames, i, key.minute) && frames[i].matchId == key.matchId && frames[i].participant == key.participant
  }

  /** A checkpoint key finds at most one row, and finds one exactly when the participant has a candidate frame. */
  lemma EachKeyOnce(frames: seq<Frame>, key: Key)
    requires key.minute in MINUTES
    ensures |Matching(CheckpointPicks(frames), key)| <= 1
    ensures Matching(CheckpointPicks(frames), key) != [] <==> HasCandidate(frames, key)
  {
    var n := |frames|;
    var (five, ten, fifteen) := (PicksUpTo(frames, 5, n), PicksUpTo(frames, 10, n), PicksUpTo(frames, 15, n));
    MatchingConcat(five + ten, fifteen, key);
    MatchingConcat(five, ten, key);
    MatchingOne(frames, key.minute, n, key);
    MatchingFinds(frames, key.minute, n, key);
    if key.minute != 5 {
      OtherMinute(frames, 5, n, key);
    }
    if key.minute != 10 {
      OtherMinute(frames, 10, n, key);
    }
    if key.minute != 15 {
      OtherMinute(frames, 15, n, key);
    }
    assert Matching(CheckpointPicks(frames), key) == Matching(PicksUpTo(frames, key.minute, n), key);
    if HasCandidate(frames, key) {
      var i :| 0 <= i < n && Qualifies(frames, i, key.minute) && frames[i].matchId == key.matchId
        && frames[i].participant == key.participant;
      var best := PickedWheneverOneQualifies(frames, i, key.minute);
      assert IsPickOf(frames, best, key.minute, key);
    }
  }

  /** What a pick never is: a frame from a game that ended before the checkpoint, or one farther off than another. */
  lemma {:induction false} PickIsNearest(frames: seq<Frame>, minute: int, upto: nat, p: Pick)
    requires upto <= |frames| && p in PicksUpTo(frames, minute, upto)
    ensures Reached(frames, p.matchId, minute) && -60000 <= p.timestamp - minute * 60000 <= 30000
    ensures forall j | 0 <= j < |frames| && Qualifies(frames, j, minute) && frames[j].matchId == p.matchId
              && frames[j].participant == p.participant ::
              (if p.timestamp < minute * 60000 then minute * 60000 - p.timestamp else p.timestamp - minute * 60000)
              <= Distance(frames[j], minute)
  {
    if p in PicksUpTo(frames, minute, upto - 1) {
      PickIsNearest(frames, minute, upto - 1, p);
    } else {
      forall j | 0 <= j < |frames| && Qualifies(frames, j, minute) && frames[j].matchId == p.matchId
        && frames[j].participant == p.participant
        ensures Distance(frames[upto - 1], minute) <= Distance(frames[j], minute)
      {
        PickedIsFirst(frames, upto - 1, j, minute);
      }
    }
  }

  // ---------------------------------------------------------------- how early a pick can be

  /** A frame of that participant qualifies and lies within thirty seconds of the mark. */
  predicate HasCloseCandidate(frames: seq<Frame>, key: Key) {
    exists i | 0 <= i < |frames| ::
      Qualifies(frames, i, key.minute) && frames[i].matchId == key.matchId && frames[i].participant == key.participant
      && Distance(frames[i], key.minute) <= 30000
  }

  lemma {:induction false} PickIsACandidate(frames: seq<Frame>, minute: int, upto: nat, p: Pick) returns (i: nat)
    requires upto <= |frames| && p in PicksUpTo(frames, minute, upto)
    ensures i < |frames| && Qualifies(frames, i, minute) && p == PickAt(frames, i, minute)
  {
    if p in PicksUpTo(frames, minute, upto - 1) {
      i := PickIsACandidate(frames, minute, upto - 1, p);
    } else {
      i := upto - 1;
    }
  }

  /** A pick lies more than thirty seconds before its mark exactly when no qualifying frame is closer than that. */
  lemma EarlyPickWhenNothingIsCloser(frames: seq<Frame>, minute: int, p: Pick)
    requires p in PicksUpTo(frames, minute, |frames|)
    ensures p.timestamp < minute * 60000 - 30000 <==> !HasCloseCandidate(frames, Key(p.matchId, p.participant, minute))
  {
    PickIsNearest(frames, minute, |frames|, p);
    var i := PickIsACandidate(frames, minute, |frames|, p);
    if p.timestamp >= minute * 60000 - 30000 {
      assert Distance(frames[i], minute) <= 30000;
    }
  }

  const NOTHING := Stats(None, None, None, None, RunningKda.ZERO)

  /** And that happens: frames 45 seconds before the five-minute mark and 40 seconds after it give the first. */
  lemma APickCanBe45SecondsEarly()
    ensures var frames := [Frame("EUW1_1", 1, Some(255000), NOTHING), Frame("EUW1_1", 1, Some(340000), NOTHING)];
      PicksUpTo(frames, 5, 2) == [Pick("EUW1_1", 1, 5, 255000, NOTHING)]
  {
    var frames := [Frame("EUW1_1", 1, Some(255000), NOTHING), Frame("EUW1_1", 1, Some(340000), NOTHING)];
    assert frames[1].timestamp.value >= 300000 && Reached(frames, "EUW1_1", 5);
    assert Qualifies(frames, 0, 5) && !Qualifies(frames, 1, 5);
    PrecedingZero(frames, 0, 5, 2);
    assert Picked(frames, 0, 5) && !Picked(frames, 1, 5);
    assert PicksUpTo(frames, 5, 0) == [] && PicksUpTo(frames, 5, 1) == [PickAt(frames, 0, 5)];
  }
}
