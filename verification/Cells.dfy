/** The cell policy: from one tally per champion and role to the graded, sorted tier list. Reals stand for float64. */
module Cells {
  import opened Collections
  import opened Options
  import Sorting
  import opened Tallies

  datatype Role = Top | Jungle | Mid | Bottom | Support | OtherRole(text: string)

  /** `roleRankOf`, and the position of a role in the canonical order. */
  function RoleRank(r: Role): nat {
    match r
    case Top => 0
    case Jungle => 1
    case Mid => 2
    case Bottom => 3
    case Support => 4
    case OtherRole(_) => 5
  }

  function RoleFromRiotPosition(position: string): Option<Role> {
    if position == "TOP" then Some(Top)
    else if position == "JUNGLE" then Some(Jungle)
    else if position == "MIDDLE" || position == "MID" then Some(Mid)
    else if position == "BOTTOM" || position == "ADC" then Some(Bottom)
    else if position == "UTILITY" || position == "SUPPORT" then Some(Support)
    else None
  }

  datatype Tier = SPlus | S | A | B | C | D | OtherTier(text: string)

  /** `tierRankOf`: best grade first, -1 for a grade that is not published. */
  function TierRank(t: Tier): int {
    match t
    case SPlus => 0
    case S => 1
    case A => 2
    case B => 3
    case C => 4
    case D => 5
    case OtherTier(_) => -1
  }

  function TierForRate(baseline: real, rate: real): Tier {
    var diff := (rate - baseline) * 100.0;
    if diff >= 2.0 then SPlus
    else if diff >= 1.2 then S
    else if diff >= 0.6 then A
    else if diff >= -0.6 then B
    else if diff >= -1.5 then C
    else D
  }

  /** A better win rate never earns a worse grade. */
  lemma TierIsMonotone(baseline: real, low: real, high: real)
    requires low <= high
    ensures 0 <= TierRank(TierForRate(baseline, high)) <= TierRank(TierForRate(baseline, low)) <= 5
  {
    assert (low - baseline) * 100.0 <= (high - baseline) * 100.0;
  }

  /** `math.Round`: to the nearest integer, halves away from zero. */
  function Round(x: real): int {
    if x >= 0.0 then (x + 0.5).Floor else -((0.5 - x).Floor)
  }

  function Round4(x: real): real {
    Round(x * 10000.0) as real / 10000.0
  }

  /** Rounding lands within half a unit of its argument: the reference the monotonicity below rests on. */
  lemma RoundIsNearest(x: real)
    ensures -0.5 <= Round(x) as real - x <= 0.5
    ensures Round(x) as real - x == -0.5 ==> x < 0.0
    ensures Round(x) as real - x == 0.5 ==> x > 0.0
  {
    if x < 0.0 {
      assert (0.5 - x).Floor as real <= 0.5 - x < (0.5 - x).Floor as real + 1.0;
    }
  }

  lemma Round4IsMonotone(low: real, high: real)
    requires low <= high
    ensures Round4(low) <= Round4(high)
  {
    var (x, y) := (low * 10000.0, high * 10000.0);
    RoundIsNearest(x);
    RoundIsNearest(y);
  }

  lemma Round4KeepsTheUnitInterval(x: real)
    requires 0.0 <= x <= 1.0
    ensures 0.0 <= Round4(x) <= 1.0
  {
    Round4IsMonotone(0.0, x);
    Round4IsMonotone(x, 1.0);
    assert Round(0.0) == 0 && Round(10000.0) == 10000;
  }

  /** What the sources' square root is assumed to satisfy. */
  ghost predicate IsSquareRoot(root: nat -> real) {
    forall n: nat :: root(n) >= 0.0 && root(n) * root(n) == n as real
  }

  function HalfWidth(root: nat -> real, n: nat): real
    requires root(n) != 0.0
  {
    Round4(0.98 / root(n))
  }

  lemma RootIsPositive(root: nat -> real, n: nat)
    requires IsSquareRoot(root) && n > 0
    ensures root(n) > 0.0
  {
    assert root(n) * root(n) == n as real;
  }

  datatype BanCount = BanCount(champion: int, bans: int)

  datatype CellInput = CellInput(counts: seq<CellCount>, bans: seq<BanCount>, matches: int, minCellN: int)

  datatype Cell = Cell(champion: int, role: Role, n: int, wins: int,
                       winRate: real, pickRate: real, banRate: real, tier: Tier, halfWidth: real)

  datatype CellOutput = CellOutput(cells: seq<Cell>, championsAscending: seq<int>, total: nat, suppressed: nat,
                                   sumN: int, sumNPublished: int, baseline: real)

  datatype CellError =
    | MinCellNTooSmall
    | NoMatches
    | EmptyTally(champion: int)
    | WinsOutOfRange(champion: int)
    | NoParticipantRows
    | UnknownRole(champion: int)

  datatype Result<T> = Ok(value: T) | Err(error: CellError)

  function BansOf(bans: seq<BanCount>, champion: int): int {
    if bans == [] then 0
    else
      BansOf(bans[..|bans| - 1], champion)
      + if bans[|bans| - 1].champion == champion then bans[|bans| - 1].bans else 0
  }

  function SumWins(counts: seq<CellCount>): int {
    if counts == [] then 0 else counts[0].wins + SumWins(counts[1..])
  }

  // ---------------------------------------------------------------- when the policy refuses

  function BadTally(counts: seq<CellCount>): Option<CellError> {
    if counts == [] then None
    else if counts[0].n <= 0 then Some(EmptyTally(counts[0].champion))
    else if counts[0].wins < 0 || counts[0].wins > counts[0].n then Some(WinsOutOfRange(counts[0].champion))
    else BadTally(counts[1..])
  }

  function BadRole(counts: seq<CellCount>): Option<CellError> {
    if counts == [] then None
    else if RoleFromRiotPosition(counts[0].role).None? then Some(UnknownRole(counts[0].champion))
    else BadRole(counts[1..])
  }

  /** The first complaint in the order the policy looks for them: every tally is weighed before any role is read. */
  function Refusal(input: CellInput): Option<CellError> {
    if input.minCellN < 1 then Some(MinCellNTooSmall)
    else if input.matches <= 0 then Some(NoMatches)
    else if BadTally(input.counts).Some? then BadTally(input.counts)
    else if SumN(input.counts) == 0 then Some(NoParticipantRows)
    else BadRole(input.counts)
  }

  predicate SoundTally(c: CellCount) {
    c.n >= 1 && 0 <= c.wins <= c.n
  }

  predicate Computable(input: CellInput) {
    && input.minCellN >= 1
    && input.matches >= 1
    && input.counts != []
    && (forall c | c in input.counts :: SoundTally(c) && RoleFromRiotPosition(c.role).Some?)
  }

  lemma {:induction false} BadTallyNone(counts: seq<CellCount>)
    ensures BadTally(counts).None? <==> forall c | c in counts :: SoundTally(c)
    ensures BadTally(counts).None? ==> SumN(counts) >= |counts| && 0 <= SumWins(counts) <= SumN(counts)
  {
    if counts != [] {
      BadTallyNone(counts[1..]);
      assert counts == [counts[0]] + counts[1..];
      assert SoundTally(counts[0]) <==> !(counts[0].n <= 0 || counts[0].wins < 0 || counts[0].wins > counts[0].n);
    }
  }

  lemma {:induction false} BadRoleNone(counts: seq<CellCount>)
    ensures BadRole(counts).None? <==> forall c | c in counts :: RoleFromRiotPosition(c.role).Some?
  {
    if counts != [] {
      BadRoleNone(counts[1..]);
      assert counts == [counts[0]] + counts[1..];
    }
  }

  /** The policy computes exactly the inputs that are sound; anything else it refuses. */
  lemma RefusesExactlyTheUnsound(input: CellInput)
    ensures Refusal(input).None? <==> Computable(input)
  {
    BadTallyNone(input.counts);
    BadRoleNone(input.counts);
  }

  // ---------------------------------------------------------------- the published cells

  function RawRate(c: CellCount): real
    requires c.n > 0
  {
    c.wins as real / c.n as real
  }

  /** What is common to every cell of one window. */
  datatype Window = Window(bans: seq<BanCount>, matches: int, minCellN: int, baseline: real, root: nat -> real)

  predicate WindowOk(w: Window) {
    w.matches >= 1 && w.minCellN >= 1
  }

  function CellOf(w: Window, c: CellCount): Cell
    requires WindowOk(w) && SoundTally(c) && RoleFromRiotPosition(c.role).Some? && w.root(c.n) != 0.0
  {
    Cell(c.champion, RoleFromRiotPosition(c.role).value, c.n, c.wins,
         Round4(RawRate(c)),
         Round4(c.n as real / (2 * w.matches) as real),
         Round4(BansOf(w.bans, c.champion) as real / w.matches as real),
         TierForRate(w.baseline, RawRate(c)),
         HalfWidth(w.root, c.n))
  }

  function Kept(counts: seq<CellCount>, minCellN: int): seq<CellCount> {
    if counts == [] then []
    else
      var front := Kept(counts[..|counts| - 1], minCellN);
      if counts[|counts| - 1].n < minCellN then front else front + [counts[|counts| - 1]]
  }

  ghost predicate Cellable(w: Window, counts: seq<CellCount>) {
    && WindowOk(w)
    && IsSquareRoot(w.root)
    && (forall c | c in counts :: SoundTally(c) && RoleFromRiotPosition(c.role).Some?)
    && (forall c | c in counts :: w.root(c.n) != 0.0)
  }

  ghost function CellsOf(w: Window, kept: seq<CellCount>): seq<Cell>
    requires Cellable(w, kept)
    ensures |CellsOf(w, kept)| == |kept|
  {
    seq(|kept|, i requires 0 <= i < |kept| => assert kept[i] in kept; CellOf(w, kept[i]))
  }

  lemma {:induction false} KeptFacts(counts: seq<CellCount>, minCellN: int)
    ensures |Kept(counts, minCellN)| <= |counts|
    ensures forall c :: c in Kept(counts, minCellN) <==> c in counts && c.n >= minCellN
  {
    if counts != [] {
      KeptFacts(counts[..|counts| - 1], minCellN);
      assert counts == counts[..|counts| - 1] + [counts[|counts| - 1]];
    }
  }

  // ---------------------------------------------------------------- sortCells

  /** The published order: canonical role, then the better rate, then the lower id. */
  predicate Before(a: Cell, b: Cell) {
    RoleRank(a.role) < RoleRank(b.role)
    || (RoleRank(a.role) == RoleRank(b.role)
        && (a.winRate > b.winRate || (a.winRate == b.winRate && a.champion < b.champion)))
  }

  predicate InOrder(cells: seq<Cell>) {
    forall i, j | 0 <= i < j < |cells| :: !Before(cells[j], cells[i])
  }

  /** Sorting keeps exactly the cells it was given and leaves them in the published order. */
  lemma SortedIsAnOrderedPermutation(cells: seq<Cell>)
    ensures InOrder(Sorting.Sorted(Before, cells))
    ensures multiset(Sorting.Sorted(Before, cells)) == multiset(cells)
    ensures |Sorting.Sorted(Before, cells)| == |cells|
  {
    var on := set c | c in cells;
    assert Sorting.WeakOrder(Before, on);
    Sorting.SortedIsInOrder(Before, on, cells);
    Sorting.SortedIsPermutation(Before, cells);
  }

  // ---------------------------------------------------------------- ComputeCells

  function Baseline(counts: seq<CellCount>): real
    requires SumN(counts) != 0
  {
    SumWins(counts) as real / SumN(counts) as real
  }

  function WindowFor(input: CellInput, root: nat -> real): Window
    requires SumN(input.counts) != 0
  {
    Window(input.bans, input.matches, input.minCellN, Baseline(input.counts), root)
  }

  lemma ComputableIsCellable(input: CellInput, root: nat -> real)
    requires Computable(input) && IsSquareRoot(root)
    ensures SumN(input.counts) > 0
    ensures Cellable(WindowFor(input, root), input.counts)
    ensures Cellable(WindowFor(input, root), Kept(input.counts, input.minCellN))
  {
    BadTallyNone(input.counts);
    KeptFacts(input.counts, input.minCellN);
    forall c | c in input.counts
      ensures root(c.n) != 0.0
    {
      RootIsPositive(root, c.n);
    }
  }

  /** The tier list of a computable input: the kept tallies as cells, sorted. */
  ghost function PublishedCells(input: CellInput, root: nat -> real): seq<Cell>
    requires Computable(input) && IsSquareRoot(root)
  {
    ComputableIsCellable(input, root);
    Sorting.Sorted(Before, CellsOf(WindowFor(input, root), Kept(input.counts, input.minCellN)))
  }

  predicate Ascending(ids: seq<int>) {
    forall i, j | 0 <= i < j < |ids| :: ids[i] < ids[j]
  }

  predicate Lower(a: int, b: int) {
    a < b
  }

  lemma OrderedKeysAscend(ids: seq<int>, keys: set<int>)
    requires Sorting.InOrder(Lower, ids) && multiset(ids) == multiset(keys)
    ensures Ascending(ids)
    ensures forall k :: k in ids <==> k in keys
  {
    forall i, j | 0 <= i < j < |ids|
      ensures ids[i] < ids[j]
    {
      assert !Lower(ids[j], ids[i]);
      if ids[i] == ids[j] {
        HeldTwice(ids, i, j);
      }
    }
    assert forall k :: k in ids <==> k in multiset(ids);
  }

  /** The keys of a set, which come out in any order, sorted. */
  method SortedKeys(keys: set<int>) returns (ids: seq<int>)
    ensures Ascending(ids)
    ensures forall k :: k in ids <==> k in keys
  {
    ids := [];
    var rest := keys;
    while rest != {}
      invariant Sorting.InOrder(Lower, ids)
      invariant rest <= keys && multiset(ids) == multiset(keys - rest)
      decreases |rest|
    {
      var k := AnyMember(rest);
      assert keys - (rest - {k}) == keys - rest + {k};
      Sorting.InsertIsPermutation(Lower, ids, k);
      Sorting.InsertKeepsOrder(Lower, keys + (set i | i in ids), ids, k);
      ids := Sorting.Insert(Lower, ids, k);
      rest := rest - {k};
    }
    assert keys - rest == keys;
    OrderedKeysAscend(ids, keys);
  }

  method CollectBans(bans: seq<BanCount>) returns (total: map<int, int>)
    ensures forall c :: (if c in total then total[c] else 0) == BansOf(bans, c)
  {
    total := map[];
    var i := 0;
    while i < |bans|
      invariant 0 <= i <= |bans|
      invariant forall c :: (if c in total then total[c] else 0) == BansOf(bans[..i], c)
    {
      assert bans[..i + 1][..i] == bans[..i];
      var held := if bans[i].champion in total then total[bans[i].champion] else 0;
      total := total[bans[i].champion := held + bans[i].bans];
      i := i + 1;
    }
    assert bans[..i] == bans;
  }

  /** The first pass: refuse the first bad tally, else total the games and the wins. */
  method WeighTallies(counts: seq<CellCount>) returns (error: Option<CellError>, totalN: int, totalWins: int)
    ensures error == BadTally(counts)
    ensures error.None? ==> totalN == SumN(counts) && totalWins == SumWins(counts)
  {
    totalN, totalWins := 0, 0;
    var i := 0;
    while i < |counts|
      invariant 0 <= i <= |counts|
      invariant BadTally(counts) == BadTally(counts[i..])
      invariant totalN + SumN(counts[i..]) == SumN(counts)
      invariant totalWins + SumWins(counts[i..]) == SumWins(counts)
    {
      assert counts[i..][1..] == counts[i + 1..];
      if counts[i].n <= 0 {
        return Some(EmptyTally(counts[i].champion)), totalN, totalWins;
      }
      if counts[i].wins < 0 || counts[i].wins > counts[i].n {
        return Some(WinsOutOfRange(counts[i].champion)), totalN, totalWins;
      }
      totalWins := totalWins + counts[i].wins;
      totalN := totalN + counts[i].n;
      i := i + 1;
    }
    error := None;
  }

  /** What the second pass has gathered after some prefix of the tallies. */
  datatype Gathered = Gathered(cells: seq<Cell>, seen: set<int>, suppressed: nat, sumNPublished: int)

  ghost predicate GatheredFrom(g: Gathered, w: Window, prefix: seq<CellCount>) {
    && Cellable(w, Kept(prefix, w.minCellN))
    && g.cells == CellsOf(w, Kept(prefix, w.minCellN))
    && |g.cells| + g.suppressed == |prefix|
    && g.sumNPublished == SumN(Kept(prefix, w.minCellN))
    && (forall k :: k in g.seen <==> exists c | c in prefix :: c.champion == k)
  }

  lemma {:induction false} SumNAppend(counts: seq<CellCount>, c: CellCount)
    ensures SumN(counts + [c]) == SumN(counts) + c.n
  {
    if counts == [] {
      assert [] + [c] == [c] && [c][1..] == [];
    } else {
      assert (counts + [c])[1..] == counts[1..] + [c];
      SumNAppend(counts[1..], c);
    }
  }

  lemma GatherSuppressed(g: Gathered, w: Window, prefix: seq<CellCount>, c: CellCount)
    requires GatheredFrom(g, w, prefix) && c.n < w.minCellN
    ensures GatheredFrom(g.(seen := g.seen + {c.champion}, suppressed := g.suppressed + 1), w, prefix + [c])
  {
    assert (prefix + [c])[..|prefix|] == prefix;
    assert Kept(prefix + [c], w.minCellN) == Kept(prefix, w.minCellN);
    SeenAfter(g.seen, prefix, c);
  }

  lemma SeenAfter(seen: set<int>, prefix: seq<CellCount>, c: CellCount)
    requires forall k :: k in seen <==> exists x | x in prefix :: x.champion == k
    ensures forall k :: k in seen + {c.champion} <==> exists x | x in prefix + [c] :: x.champion == k
  {
    assert c in prefix + [c];
    assert forall x :: x in prefix + [c] <==> x in prefix || x == c;
  }

  lemma GatherPublished(g: Gathered, w: Window, prefix: seq<CellCount>, c: CellCount)
    requires GatheredFrom(g, w, prefix) && c.n >= w.minCellN
    requires SoundTally(c) && RoleFromRiotPosition(c.role).Some? && w.root(c.n) != 0.0
    ensures GatheredFrom(g.(seen := g.seen + {c.champion}, cells := g.cells + [CellOf(w, c)],
                            sumNPublished := g.sumNPublished + c.n), w, prefix + [c])
  {
    var kept := Kept(prefix, w.minCellN);
    assert (prefix + [c])[..|prefix|] == prefix;
    assert Kept(prefix + [c], w.minCellN) == kept + [c];
    SumNAppend(kept, c);
    SeenAfter(g.seen, prefix, c);
    assert Cellable(w, kept + [c]);
    assert g.cells + [CellOf(w, c)] == CellsOf(w, kept + [c]);
  }

  method Measure(count: CellCount, role: Role, input: CellInput, w: Window, bans: map<int, int>) returns (cell: Cell)
    requires SumN(input.counts) != 0 && w == WindowFor(input, w.root) && WindowOk(w)
    requires SoundTally(count) && RoleFromRiotPosition(count.role) == Some(role) && w.root(count.n) != 0.0
    requires forall c :: (if c in bans then bans[c] else 0) == BansOf(input.bans, c)
    ensures cell == CellOf(w, count)
  {
    var rawRate := count.wins as real / count.n as real;
    var banned := if count.champion in bans then bans[count.champion] else 0;
    cell := Cell(count.champion, role, count.n, count.wins, Round4(rawRate),
                 Round4(count.n as real / (2 * input.matches) as real),
                 Round4(banned as real / input.matches as real),
                 TierForRate(w.baseline, rawRate),
                 Round4(0.98 / w.root(count.n)));
  }

  /** One tally of the second pass: suppressed when it is thin, measured and kept otherwise. */
  method GatherOne(input: CellInput, w: Window, bans: map<int, int>, g: Gathered, count: CellCount, role: Role,
                   ghost prefix: seq<CellCount>)
    returns (next: Gathered)
    requires SumN(input.counts) != 0 && w == WindowFor(input, w.root) && WindowOk(w) && IsSquareRoot(w.root)
    requires SoundTally(count) && RoleFromRiotPosition(count.role) == Some(role)
    requires forall c :: (if c in bans then bans[c] else 0) == BansOf(input.bans, c)
    requires GatheredFrom(g, w, prefix)
    ensures GatheredFrom(next, w, prefix + [count])
  {
    if count.n < w.minCellN {
      GatherSuppressed(g, w, prefix, count);
      return g.(seen := g.seen + {count.champion}, suppressed := g.suppressed + 1);
    }
    RootIsPositive(w.root, count.n);
    GatherPublished(g, w, prefix, count);
    var cell := Measure(count, role, input, w, bans);
    return g.(seen := g.seen + {count.champion}, cells := g.cells + [cell], sumNPublished := g.sumNPublished + count.n);
  }

  /** The second pass: name every role, keep or suppress each tally, and grade what is kept. */
  method Gather(input: CellInput, w: Window, bans: map<int, int>) returns (error: Option<CellError>, g: Gathered)
    requires SumN(input.counts) != 0 && w == WindowFor(input, w.root)
    requires WindowOk(w) && IsSquareRoot(w.root)
    requires forall c | c in input.counts :: SoundTally(c)
    requires forall c :: (if c in bans then bans[c] else 0) == BansOf(input.bans, c)
    ensures error == BadRole(input.counts)
    ensures error.None? ==> GatheredFrom(g, w, input.counts)
  {
    g := Gathered([], {}, 0, 0);
    var i := 0;
    while i < |input.counts|
      invariant 0 <= i <= |input.counts|
      invariant BadRole(input.counts) == BadRole(input.counts[i..])
      invariant GatheredFrom(g, w, input.counts[..i])
    {
      var count := input.counts[i];
      assert input.counts[i..][1..] == input.counts[i + 1..];
      assert input.counts[..i + 1] == input.counts[..i] + [count];
      var role := RoleFromRiotPosition(count.role);
      if role.None? {
        return Some(UnknownRole(count.champion)), g;
      }
      g := GatherOne(input, w, bans, g, count, role.value, input.counts[..i]);
      i := i + 1;
    }
    assert input.counts[..i] == input.counts;
    error := None;
  }

  method SortCells(cells: seq<Cell>) returns (sorted: seq<Cell>)
    ensures sorted == Sorting.Sorted(Before, cells)
  {
    sorted := [];
    var i := 0;
    while i < |cells|
      invariant 0 <= i <= |cells|
      invariant sorted == Sorting.Sorted(Before, cells[..i])
    {
      assert cells[..i + 1][..i] == cells[..i];
      sorted := Sorting.Insert(Before, sorted, cells[i]);
      i := i + 1;
    }
    assert cells[..i] == cells;
  }

  method ComputeCells(input: CellInput, root: nat -> real) returns (r: Result<CellOutput>)
    requires IsSquareRoot(root)
    ensures r.Ok? <==> Computable(input)
    ensures r.Err? ==> Refusal(input) == Some(r.error)
    ensures r.Ok? ==> r.value.cells == PublishedCells(input, root)
    ensures r.Ok? ==> |r.value.cells| + r.value.suppressed == r.value.total == |input.counts|
    ensures r.Ok? ==> r.value.sumN == SumN(input.counts) > 0 && r.value.baseline == Baseline(input.counts)
    ensures r.Ok? ==> r.value.sumNPublished == SumN(Kept(input.counts, input.minCellN))
    ensures r.Ok? ==> Ascending(r.value.championsAscending)
    ensures r.Ok? ==> forall k :: k in r.value.championsAscending <==> exists c | c in input.counts :: c.champion == k
  {
    RefusesExactlyTheUnsound(input);
    if input.minCellN < 1 {
      return Err(MinCellNTooSmall);
    }
    if input.matches <= 0 {
      return Err(NoMatches);
    }
    var bans := CollectBans(input.bans);
    var bad, totalN, totalWins := WeighTallies(input.counts);
    if bad.Some? {
      return Err(bad.value);
    }
    if totalN == 0 {
      return Err(NoParticipantRows);
    }
    BadTallyNone(input.counts);
    var w := Window(input.bans, input.matches, input.minCellN, totalWins as real / totalN as real, root);
    var unknown, g := Gather(input, w, bans);
    if unknown.Some? {
      return Err(unknown.value);
    }
    SortedIsAnOrderedPermutation(g.cells);
    var cells := SortCells(g.cells);
    var champions := SortedKeys(g.seen);
    r := Ok(CellOutput(cells, champions, |input.counts|, g.suppressed, totalN, g.sumNPublished, w.baseline));
  }
}
