/**
 * The fixture calendar: the circle method on four team indices, one pass with
 * natural home/away and one pass swapped per six-week block, the block played
 * three times, giving eighteen weeks of two matches.
 */
module Fixtures {
  import opened TeamState

  /** One scheduled match. Home and away are references into the league's teams. */
  datatype Match = Match(
    homeTeam: Team,
    awayTeam: Team,
    homeGoals: int,
    awayGoals: int,
    isPlayed: bool,
    isFixed: bool,
    week: int)

  const TeamCount: nat := 4
  const RoundsPerPass: nat := 3
  const MatchesPerWeek: nat := 2
  const BlockWeeks: nat := 6
  const Repeats: nat := 3
  const SeasonWeeks: nat := 18

  /** One step of the circle method: index 0 stays, the others move one place left. */
  function Rotate(idx: seq<nat>): (r: seq<nat>)
    requires |idx| >= 2
    ensures |r| == |idx|
  {
    [idx[0]] + idx[2..] + [idx[1]]
  }

  /** The index order used in a given round of a pass. */
  function CircleOrder(round: nat): (order: seq<nat>)
    ensures |order| == TeamCount
    ensures forall i :: 0 <= i < |order| ==> order[i] < TeamCount
  {
    if round == 0 then [0, 1, 2, 3] else Rotate(CircleOrder(round - 1))
  }

  /** Slot i of a round pairs position i with position 3 - i; the second pass swaps them. */
  function PairAt(order: seq<nat>, half: nat, i: nat): (nat, nat)
    requires |order| == TeamCount && i < MatchesPerWeek
  {
    if half == 1 then (order[TeamCount - 1 - i], order[i])
    else (order[i], order[TeamCount - 1 - i])
  }

  /** The index pairs of calendar week k (0-based). */
  function WeekPairs(k: nat): seq<(nat, nat)> {
    var order := CircleOrder(k % RoundsPerPass);
    var half := (k % BlockWeeks) / RoundsPerPass;
    [PairAt(order, half, 0), PairAt(order, half, 1)]
  }

  predicate ValidPair(p: (nat, nat)) {
    p.0 < TeamCount && p.1 < TeamCount
  }

  function ToMatch(teams: seq<Team>, p: (nat, nat)): Match
    requires |teams| == TeamCount && ValidPair(p)
  {
    Match(teams[p.0], teams[p.1], 0, 0, false, false, 0)
  }

  function RoundMatches(teams: seq<Team>, order: seq<nat>, half: nat, count: nat): (week: seq<Match>)
    requires |teams| == TeamCount && |order| == TeamCount && count <= MatchesPerWeek
    requires forall i :: 0 <= i < |order| ==> order[i] < TeamCount
    ensures |week| == count
  {
    seq(count, j requires 0 <= j < count => ToMatch(teams, PairAt(order, half, j)))
  }

  function ScheduleWeek(teams: seq<Team>, k: nat): seq<Match>
    requires |teams| == TeamCount
  {
    RoundMatches(teams, CircleOrder(k % RoundsPerPass), (k % BlockWeeks) / RoundsPerPass, MatchesPerWeek)
  }

  /** The calendar the generator returns, week by week. */
  function Schedule(teams: seq<Team>): seq<seq<Match>>
    requires |teams| == TeamCount
  {
    seq(SeasonWeeks, k requires 0 <= k < SeasonWeeks => ScheduleWeek(teams, k))
  }

  /**
   * The generator. The source panics unless there are exactly four teams;
   * that is the precondition here.
   */
  method GenerateFixtures(teams: seq<Team>) returns (allWeeks: seq<seq<Match>>)
    requires |teams| == TeamCount
    ensures allWeeks == Schedule(teams)
  {
    var numTeams := |teams|;
    var indices := new nat[numTeams];
    for i := 0 to numTeams
      invariant forall j :: 0 <= j < i ==> indices[j] == j
    {
      indices[i] := i;
    }
    assert indices[..] == [0, 1, 2, 3];

    allWeeks := [];
    for repeat := 0 to Repeats
      invariant indices[..] == [0, 1, 2, 3]
      invariant allWeeks == Schedule(teams)[..repeat * BlockWeeks]
    {
      for half := 0 to 2
        invariant indices[..] == [0, 1, 2, 3]
        invariant allWeeks == Schedule(teams)[..repeat * BlockWeeks + half * RoundsPerPass]
      {
        var pass := PassRounds(teams, indices, half);
        PassPosition(teams, repeat, half);
        allWeeks := allWeeks + pass;
      }
    }
  }

  /** The three rounds of one pass, from a fresh copy of the starting indices. */
  method PassRounds(teams: seq<Team>, indices: array<nat>, half: nat) returns (weeks: seq<seq<Match>>)
    requires |teams| == TeamCount && indices.Length == TeamCount
    requires indices[..] == [0, 1, 2, 3]
    ensures weeks == seq(RoundsPerPass, round requires 0 <= round < RoundsPerPass =>
      RoundMatches(teams, CircleOrder(round), half, MatchesPerWeek))
  {
    var numTeams := |teams|;
    var idx := new nat[numTeams];
    for j := 0 to numTeams
      invariant forall k :: 0 <= k < j ==> idx[k] == indices[k]
    {
      idx[j] := indices[j];
    }
    assert idx[..] == CircleOrder(0);
    weeks := [];
    for round := 0 to numTeams - 1
      invariant idx[..] == CircleOrder(round)
      invariant weeks == seq(round, r requires 0 <= r < round =>
        RoundMatches(teams, CircleOrder(r), half, MatchesPerWeek))
    {
      var week := PairRound(teams, idx, half);
      weeks := weeks + [week];
      RotateIndices(idx);
    }
  }

  /** The matches of one round: position i against position 3 - i, swapped in the second pass. */
  method PairRound(teams: seq<Team>, idx: array<nat>, half: nat) returns (week: seq<Match>)
    requires |teams| == TeamCount && idx.Length == TeamCount
    requires forall i :: 0 <= i < idx.Length ==> idx[i] < TeamCount
    ensures week == RoundMatches(teams, idx[..], half, MatchesPerWeek)
  {
    var numTeams := |teams|;
    week := [];
    for i := 0 to numTeams / 2
      invariant week == RoundMatches(teams, idx[..], half, i)
    {
      var home := idx[i];
      var away := idx[numTeams - 1 - i];
      if half == 1 {
        home, away := away, home;
      }
      week := week + [Match(teams[home], teams[away], 0, 0, false, false, 0)];
    }
  }

  /** Keeps index 0 fixed and moves the others one place left, the second one to the end. */
  method RotateIndices(idx: array<nat>)
    requires idx.Length == TeamCount
    modifies idx
    ensures idx[..] == Rotate(old(idx[..]))
  {
    var numTeams := idx.Length;
    var tmp := idx[1];
    for j := 1 to numTeams - 1
      invariant idx[0] == old(idx[0])
      invariant forall m :: 1 <= m < j ==> idx[m] == old(idx[m + 1])
      invariant forall m :: j <= m < numTeams ==> idx[m] == old(idx[m])
    {
      idx[j] := idx[j + 1];
    }
    idx[numTeams - 1] := tmp;
  }

  /** The pass `half` of repeat `repeat` fills calendar weeks repeat * 6 + half * 3 onwards. */
  lemma PassPosition(teams: seq<Team>, repeat: nat, half: nat)
    requires |teams| == TeamCount && repeat < Repeats && half < 2
    ensures var k := repeat * BlockWeeks + half * RoundsPerPass;
      Schedule(teams)[..k + RoundsPerPass] == Schedule(teams)[..k]
        + seq(RoundsPerPass, round requires 0 <= round < RoundsPerPass =>
            RoundMatches(teams, CircleOrder(round), half, MatchesPerWeek))
  {
    var k := repeat * BlockWeeks + half * RoundsPerPass;
    var pass := seq(RoundsPerPass, round requires 0 <= round < RoundsPerPass =>
      RoundMatches(teams, CircleOrder(round), half, MatchesPerWeek));
    var whole := Schedule(teams);
    forall n | 0 <= n < k + RoundsPerPass
      ensures whole[n] == (whole[..k] + pass)[n]
    {
      if n >= k {
        WeekInPass(teams, repeat, half, n - k);
      }
    }
  }

  lemma WeekInPass(teams: seq<Team>, repeat: nat, half: nat, round: nat)
    requires |teams| == TeamCount && repeat < Repeats && half < 2 && round < RoundsPerPass
    ensures Schedule(teams)[repeat * BlockWeeks + half * RoundsPerPass + round]
      == RoundMatches(teams, CircleOrder(round), half, MatchesPerWeek)
  {
    var k := repeat * BlockWeeks + half * RoundsPerPass + round;
    WeekPosition(repeat, half, round);
    assert Schedule(teams)[k] == ScheduleWeek(teams, k);
  }

  /** Calendar week repeat * 6 + half * 3 + round is that round of that half. */
  lemma WeekPosition(repeat: nat, half: nat, round: nat)
    requires half < 2 && round < RoundsPerPass
    ensures var k := repeat * BlockWeeks + half * RoundsPerPass + round;
      k % RoundsPerPass == round && (k % BlockWeeks) / RoundsPerPass == half
  {
    var k := repeat * BlockWeeks + half * RoundsPerPass + round;
    assert k % BlockWeeks == half * RoundsPerPass + round;
  }

  // ---------------------------------------------------------------------
  // Properties of the calendar
  // ---------------------------------------------------------------------

  /** The six weeks of one block, as index pairs. */
  const BlockPairs: seq<seq<(nat, nat)>> := [
    [(0, 3), (1, 2)], [(0, 1), (2, 3)], [(0, 2), (3, 1)],
    [(3, 0), (2, 1)], [(1, 0), (3, 2)], [(2, 0), (1, 3)]]

  lemma WeekPairsInBlock(k: nat)
    ensures WeekPairs(k) == BlockPairs[k % BlockWeeks]
  {
    assert CircleOrder(1) == [0, 2, 3, 1];
    assert CircleOrder(2) == [0, 3, 1, 2];
  }

  lemma ScheduleWeekPairs(teams: seq<Team>, k: nat)
    requires |teams| == TeamCount
    ensures var ps := BlockPairs[k % BlockWeeks];
      ScheduleWeek(teams, k) == [ToMatch(teams, ps[0]), ToMatch(teams, ps[1])]
  {
    WeekPairsInBlock(k);
    assert CircleOrder(1) == [0, 2, 3, 1];
    assert CircleOrder(2) == [0, 3, 1, 2];
  }

  /** Eighteen weeks of two unplayed, unfixed, goalless matches. */
  lemma ScheduleShape(teams: seq<Team>)
    requires |teams| == TeamCount
    ensures |Schedule(teams)| == SeasonWeeks
    ensures forall k :: 0 <= k < SeasonWeeks ==> |Schedule(teams)[k]| == MatchesPerWeek
    ensures forall k, i :: 0 <= k < SeasonWeeks && 0 <= i < |Schedule(teams)[k]| ==>
      var m := Schedule(teams)[k][i];
      !m.isPlayed && !m.isFixed && m.homeGoals == 0 && m.awayGoals == 0 && m.week == 0
  {
  }

  /** Only the league's own teams appear in the calendar. */
  lemma ScheduleUsesLeagueTeams(teams: seq<Team>)
    requires |teams| == TeamCount
    ensures forall k, i :: 0 <= k < |Schedule(teams)| && 0 <= i < |Schedule(teams)[k]| ==>
      Schedule(teams)[k][i].homeTeam in teams && Schedule(teams)[k][i].awayTeam in teams
  {
    forall k, i | 0 <= k < |Schedule(teams)| && 0 <= i < |Schedule(teams)[k]|
      ensures Schedule(teams)[k][i].homeTeam in teams && Schedule(teams)[k][i].awayTeam in teams
    {
      ScheduleWeekPairs(teams, k);
    }
  }

  /** The calendar with every match's week field set to its 1-based week. */
  function Numbered(weeks: seq<seq<Match>>): (r: seq<seq<Match>>)
    ensures |r| == |weeks|
    ensures forall w :: 0 <= w < |r| ==> |r[w]| == |weeks[w]|
  {
    seq(|weeks|, w requires 0 <= w < |weeks| =>
      seq(|weeks[w]|, i requires 0 <= i < |weeks[w]| => weeks[w][i].(week := w + 1)))
  }

  predicate DistinctTeams(teams: seq<Team>) {
    forall i, j :: 0 <= i < j < |teams| ==> teams[i] != teams[j]
  }

  /** How often t plays in a list of matches (home and away both count). */
  function Appearances(ms: seq<Match>, t: Team): nat {
    if ms == [] then 0
    else
      Appearances(ms[..|ms| - 1], t)
      + (if ms[|ms| - 1].homeTeam == t then 1 else 0)
      + (if ms[|ms| - 1].awayTeam == t then 1 else 0)
  }

  lemma AppearancesInWeek(m0: Match, m1: Match, t: Team)
    ensures Appearances([m0, m1], t)
      == (if m0.homeTeam == t then 1 else 0) + (if m0.awayTeam == t then 1 else 0)
       + (if m1.homeTeam == t then 1 else 0) + (if m1.awayTeam == t then 1 else 0)
  {
    assert [m0, m1][..1] == [m0];
    assert [m0][..0] == [];
    assert Appearances([m0], t) == (if m0.homeTeam == t then 1 else 0) + (if m0.awayTeam == t then 1 else 0);
  }

  /** Every team plays exactly once a week and no team meets itself. */
  lemma EachTeamOncePerWeek(teams: seq<Team>, k: nat, x: nat)
    requires |teams| == TeamCount && DistinctTeams(teams)
    requires k < SeasonWeeks && x < TeamCount
    ensures Appearances(Schedule(teams)[k], teams[x]) == 1
    ensures forall i :: 0 <= i < |Schedule(teams)[k]| ==>
      Schedule(teams)[k][i].homeTeam != Schedule(teams)[k][i].awayTeam
  {
    ScheduleWeekPairs(teams, k);
    var ps := BlockPairs[k % BlockWeeks];
    AppearancesInWeek(ToMatch(teams, ps[0]), ToMatch(teams, ps[1]), teams[x]);
  }

  function Swapped(m: Match): Match {
    m.(homeTeam := m.awayTeam, awayTeam := m.homeTeam)
  }

  /** Within a block the second three weeks replay the first three with home and away swapped. */
  lemma SecondPassSwapsHomeAway(teams: seq<Team>, k: nat)
    requires |teams| == TeamCount
    requires k + 3 < SeasonWeeks && k % BlockWeeks < 3
    ensures |Schedule(teams)[k + 3]| == |Schedule(teams)[k]|
    ensures forall i :: 0 <= i < |Schedule(teams)[k]| ==>
      Schedule(teams)[k + 3][i] == Swapped(Schedule(teams)[k][i])
  {
    assert (k + 3) % RoundsPerPass == k % RoundsPerPass;
    assert (k + 3) % BlockWeeks == k % BlockWeeks + 3;
  }

  /** The calendar repeats every six weeks. */
  lemma ScheduleRepeatsEverySixWeeks(teams: seq<Team>, k: nat)
    requires |teams| == TeamCount
    requires k + BlockWeeks < SeasonWeeks
    ensures Schedule(teams)[k + BlockWeeks] == Schedule(teams)[k]
  {
    assert (k + BlockWeeks) % RoundsPerPass == k % RoundsPerPass;
    assert (k + BlockWeeks) % BlockWeeks == k % BlockWeeks;
  }

  function Flatten(weeks: seq<seq<Match>>): seq<Match> {
    if weeks == [] then [] else Flatten(weeks[..|weeks| - 1]) + weeks[|weeks| - 1]
  }

  /** How often the ordered pairing (home h, away a) occurs. */
  function PairingCount(ms: seq<Match>, h: Team, a: Team): nat {
    if ms == [] then 0
    else
      PairingCount(ms[..|ms| - 1], h, a)
      + (if ms[|ms| - 1].homeTeam == h && ms[|ms| - 1].awayTeam == a then 1 else 0)
  }

  lemma {:induction false} PairingCountAppend(xs: seq<Match>, ys: seq<Match>, h: Team, a: Team)
    ensures PairingCount(xs + ys, h, a) == PairingCount(xs, h, a) + PairingCount(ys, h, a)
    decreases |ys|
  {
    if ys == [] {
      assert xs + ys == xs;
    } else {
      assert (xs + ys)[..|xs + ys| - 1] == xs + ys[..|ys| - 1];
      PairingCountAppend(xs, ys[..|ys| - 1], h, a);
    }
  }

  lemma PairingCountInWeek(m0: Match, m1: Match, h: Team, a: Team)
    ensures PairingCount([m0, m1], h, a)
      == (if m0.homeTeam == h && m0.awayTeam == a then 1 else 0)
       + (if m1.homeTeam == h && m1.awayTeam == a then 1 else 0)
  {
    assert [m0, m1][..1] == [m0];
    assert [m0][..0] == [];
    assert PairingCount([m0], h, a) == (if m0.homeTeam == h && m0.awayTeam == a then 1 else 0);
  }

  /** How often index pair (i, j) occurs in a week of index pairs. */
  function Hits(ps: seq<(nat, nat)>, i: nat, j: nat): nat
    requires |ps| == MatchesPerWeek
  {
    (if ps[0] == (i, j) then 1 else 0) + (if ps[1] == (i, j) then 1 else 0)
  }

  function BlockHits(q: nat, i: nat, j: nat): nat
    requires q <= BlockWeeks
  {
    if q == 0 then 0 else BlockHits(q - 1, i, j) + Hits(BlockPairs[q - 1], i, j)
  }

  /** In one block every ordered pair of distinct indices occurs exactly once. */
  lemma BlockHitsOnce(i: nat, j: nat)
    requires i < TeamCount && j < TeamCount
    ensures BlockHits(BlockWeeks, i, j) == (if i != j then 1 else 0)
  {
    assert BlockHits(1, i, j) == Hits(BlockPairs[0], i, j);
    assert BlockHits(2, i, j) == BlockHits(1, i, j) + Hits(BlockPairs[1], i, j);
    assert BlockHits(3, i, j) == BlockHits(2, i, j) + Hits(BlockPairs[2], i, j);
    assert BlockHits(4, i, j) == BlockHits(3, i, j) + Hits(BlockPairs[3], i, j);
    assert BlockHits(5, i, j) == BlockHits(4, i, j) + Hits(BlockPairs[4], i, j);
  }

  lemma WeekPairingCount(teams: seq<Team>, k: nat, i: nat, j: nat)
    requires |teams| == TeamCount && DistinctTeams(teams)
    requires i < TeamCount && j < TeamCount
    ensures PairingCount(ScheduleWeek(teams, k), teams[i], teams[j]) == Hits(BlockPairs[k % BlockWeeks], i, j)
  {
    ScheduleWeekPairs(teams, k);
    var ps := BlockPairs[k % BlockWeeks];
    PairingCountInWeek(ToMatch(teams, ps[0]), ToMatch(teams, ps[1]), teams[i], teams[j]);
  }

  lemma BlockOffset(b: nat, q: nat)
    requires q < BlockWeeks
    ensures (b * BlockWeeks + q) % BlockWeeks == q
  {
    assert b * BlockWeeks + q == BlockWeeks * b + q;
  }

  /** Extending a prefix of block b by its next week adds that week's hits. */
  lemma BlockPrefixStep(teams: seq<Team>, b: nat, q: nat, i: nat, j: nat)
    requires |teams| == TeamCount && DistinctTeams(teams)
    requires b < Repeats && q < BlockWeeks && i < TeamCount && j < TeamCount
    ensures var block := Schedule(teams)[b * BlockWeeks .. (b + 1) * BlockWeeks];
      PairingCount(Flatten(block[..q + 1]), teams[i], teams[j])
      == PairingCount(Flatten(block[..q]), teams[i], teams[j]) + Hits(BlockPairs[q], i, j)
  {
    var block := Schedule(teams)[b * BlockWeeks .. (b + 1) * BlockWeeks];
    assert block[..q + 1][..q] == block[..q];
    assert block[q] == ScheduleWeek(teams, b * BlockWeeks + q);
    PairingCountAppend(Flatten(block[..q]), block[q], teams[i], teams[j]);
    BlockOffset(b, q);
    WeekPairingCount(teams, b * BlockWeeks + q, i, j);
  }

  /** Every ordered pair of distinct teams meets exactly once in each six-week block. */
  lemma EachPairingOncePerBlock(teams: seq<Team>, b: nat, i: nat, j: nat)
    requires |teams| == TeamCount && DistinctTeams(teams)
    requires b < Repeats && i < TeamCount && j < TeamCount
    ensures PairingCount(Flatten(Schedule(teams)[b * BlockWeeks .. (b + 1) * BlockWeeks]), teams[i], teams[j])
      == (if i != j then 1 else 0)
  {
    var block := Schedule(teams)[b * BlockWeeks .. (b + 1) * BlockWeeks];
    var h, a := teams[i], teams[j];
    for q := 0 to BlockWeeks
      invariant PairingCount(Flatten(block[..q]), h, a) == BlockHits(q, i, j)
    {
      BlockPrefixStep(teams, b, q, i, j);
    }
    assert block[..BlockWeeks] == block;
    BlockHitsOnce(i, j);
  }
}
