/**
 * League-table arithmetic over records keyed by team: replaying the counted
 * matches of a calendar, the per-team tallies that replay must agree with,
 * and the order in which the table is shown.
 */
module Standings {
  import opened TeamState
  import opened Fixtures

  /** The records of the league's teams, keyed by the team objects. */
  type Table = map<Team, TeamRecord>

  /** Both sides of every match are teams of the table. */
  predicate Covers(tbl: Table, ms: seq<Match>) {
    forall i :: 0 <= i < |ms| ==> ms[i].homeTeam in tbl && ms[i].awayTeam in tbl
  }

  /** A match enters the table once it was played or its score was set by hand. */
  predicate Counted(m: Match) {
    m.isPlayed || m.isFixed
  }

  /** Home side first, then away side, each through the team update. */
  function ApplyScore(tbl: Table, home: Team, away: Team, homeGoals: int, awayGoals: int): (r: Table)
    requires home in tbl && away in tbl
    ensures r.Keys == tbl.Keys
  {
    var afterHome := tbl[home := ApplyResult(tbl[home], homeGoals, awayGoals)];
    afterHome[away := ApplyResult(afterHome[away], awayGoals, homeGoals)]
  }

  function ApplyMatch(tbl: Table, m: Match): (r: Table)
    requires m.homeTeam in tbl && m.awayTeam in tbl
    ensures r.Keys == tbl.Keys
  {
    if Counted(m) then ApplyScore(tbl, m.homeTeam, m.awayTeam, m.homeGoals, m.awayGoals) else tbl
  }

  /** The table after the counted matches of ms, in order. */
  function Replay(tbl: Table, ms: seq<Match>): (r: Table)
    requires Covers(tbl, ms)
    ensures r.Keys == tbl.Keys
    decreases |ms|
  {
    if ms == [] then tbl
    else ApplyMatch(Replay(tbl, ms[..|ms| - 1]), ms[|ms| - 1])
  }

  lemma ReplaySnoc(tbl: Table, xs: seq<Match>, m: Match)
    requires Covers(tbl, xs) && m.homeTeam in tbl && m.awayTeam in tbl
    ensures Covers(tbl, xs + [m])
    ensures Replay(tbl, xs + [m]) == ApplyMatch(Replay(tbl, xs), m)
  {
    assert (xs + [m])[..|xs|] == xs;
  }

  /** The replay of a prefix of ms extended by the next match. */
  lemma ReplayPrefixStep(tbl: Table, ms: seq<Match>, i: nat)
    requires i < |ms| && Covers(tbl, ms[..i]) && ms[i].homeTeam in tbl && ms[i].awayTeam in tbl
    ensures Covers(tbl, ms[..i + 1])
    ensures Replay(tbl, ms[..i + 1]) == ApplyMatch(Replay(tbl, ms[..i]), ms[i])
  {
    assert ms[..i + 1] == ms[..i] + [ms[i]];
    ReplaySnoc(tbl, ms[..i], ms[i]);
  }

  lemma {:induction false} ReplayAppend(tbl: Table, xs: seq<Match>, ys: seq<Match>)
    requires Covers(tbl, xs) && Covers(tbl, ys)
    ensures Covers(tbl, xs + ys) && Covers(Replay(tbl, xs), ys)
    ensures Replay(tbl, xs + ys) == Replay(Replay(tbl, xs), ys)
    decreases |ys|
  {
    if ys != [] {
      var init := ys[..|ys| - 1];
      assert (xs + ys)[..|xs + ys| - 1] == xs + init;
      ReplayAppend(tbl, xs, init);
    } else {
      assert xs + ys == xs;
    }
  }

  /** Replaying the first w + 1 weeks is replaying the first w, then week w. */
  lemma ReplayWeeksStep(tbl: Table, fixtures: seq<seq<Match>>, w: nat)
    requires w < |fixtures| && Covers(tbl, Flatten(fixtures[..w]))
    requires Covers(Replay(tbl, Flatten(fixtures[..w])), fixtures[w])
    ensures Covers(tbl, Flatten(fixtures[..w + 1]))
    ensures Replay(tbl, Flatten(fixtures[..w + 1])) == Replay(Replay(tbl, Flatten(fixtures[..w])), fixtures[w])
  {
    assert fixtures[..w + 1][..w] == fixtures[..w];
    assert Flatten(fixtures[..w + 1]) == Flatten(fixtures[..w]) + fixtures[w];
    ReplayAppend(tbl, Flatten(fixtures[..w]), fixtures[w]);
  }

  function ResetAll(tbl: Table): (r: Table)
    ensures r.Keys == tbl.Keys
    ensures forall t :: t in r ==> r[t] == ResetStats(tbl[t])
  {
    map t | t in tbl :: ResetStats(tbl[t])
  }

  /** A table that resets every record of tbl, key by key, is ResetAll(tbl). */
  lemma ResetAllPointwise(tbl: Table, r: Table)
    requires r.Keys == tbl.Keys
    requires forall t :: t in r ==> r[t] == ResetStats(tbl[t])
    ensures r == ResetAll(tbl)
  {
  }

  /** How many leading weeks the rebuild walks: the first `week`, cut at the calendar's end. */
  function WeeksReplayed(fixtureWeeks: nat, week: int): nat {
    if week <= 0 then 0 else if week < fixtureWeeks then week else fixtureWeeks
  }

  function PlayedMatches(fixtures: seq<seq<Match>>, week: int): seq<Match> {
    Flatten(fixtures[..WeeksReplayed(|fixtures|, week)])
  }

  /** Both sides of every match of the calendar are teams of the table. */
  predicate CoversAll(tbl: Table, fixtures: seq<seq<Match>>) {
    forall w, i :: 0 <= w < |fixtures| && 0 <= i < |fixtures[w]| ==>
      fixtures[w][i].homeTeam in tbl && fixtures[w][i].awayTeam in tbl
  }

  lemma {:induction false} CoversFlatten(tbl: Table, fixtures: seq<seq<Match>>)
    requires CoversAll(tbl, fixtures)
    ensures Covers(tbl, Flatten(fixtures))
    decreases |fixtures|
  {
    if fixtures != [] {
      var prefix := fixtures[..|fixtures| - 1];
      assert CoversAll(tbl, prefix) by {
        forall w, i | 0 <= w < |prefix| && 0 <= i < |prefix[w]|
          ensures prefix[w][i].homeTeam in tbl && prefix[w][i].awayTeam in tbl
        {
          assert prefix[w] == fixtures[w];
        }
      }
      CoversFlatten(tbl, prefix);
    }
  }

  lemma CoversPlayed(tbl: Table, fixtures: seq<seq<Match>>, week: int)
    requires CoversAll(tbl, fixtures)
    ensures Covers(tbl, PlayedMatches(fixtures, week))
  {
    var n := WeeksReplayed(|fixtures|, week);
    var prefix := fixtures[..n];
    assert CoversAll(tbl, prefix) by {
      forall w, i | 0 <= w < |prefix| && 0 <= i < |prefix[w]|
        ensures prefix[w][i].homeTeam in tbl && prefix[w][i].awayTeam in tbl
      {
        assert prefix[w] == fixtures[w];
      }
    }
    CoversFlatten(tbl, prefix);
  }

  // ---------------------------------------------------------------------
  // Tallies: what the rebuilt counters must add up to
  // ---------------------------------------------------------------------

  function AddCounters(a: Counters, b: Counters): Counters {
    Counters(a.played + b.played, a.won + b.won, a.drawn + b.drawn, a.lost + b.lost,
      a.goalsFor + b.goalsFor, a.goalsAgainst + b.goalsAgainst,
      a.goalDifference + b.goalDifference, a.points + b.points)
  }

  lemma AddCountersAssociative(a: Counters, b: Counters, c: Counters)
    ensures AddCounters(AddCounters(a, b), c) == AddCounters(a, AddCounters(b, c))
  {
  }

  lemma AddZeroCounters(c: Counters)
    ensures AddCounters(ZeroCounters, c) == c
  {
  }

  /** The counters contributed by one game with the given score, seen from one side. */
  function ResultCounters(goalsFor: int, goalsAgainst: int): Counters {
    Counters(1,
      if goalsFor > goalsAgainst then 1 else 0,
      if goalsFor == goalsAgainst then 1 else 0,
      if goalsFor < goalsAgainst then 1 else 0,
      goalsFor, goalsAgainst, goalsFor - goalsAgainst, PointsFor(goalsFor, goalsAgainst))
  }

  function MatchTally(m: Match, t: Team): Counters {
    if !Counted(m) then ZeroCounters
    else AddCounters(
      if m.homeTeam == t then ResultCounters(m.homeGoals, m.awayGoals) else ZeroCounters,
      if m.awayTeam == t then ResultCounters(m.awayGoals, m.homeGoals) else ZeroCounters)
  }

  /** Team t's share of the counted matches of ms, summed match by match. */
  function Tally(ms: seq<Match>, t: Team): Counters {
    if ms == [] then ZeroCounters
    else AddCounters(Tally(ms[..|ms| - 1], t), MatchTally(ms[|ms| - 1], t))
  }

  /** The identities the team update re-establishes: played is W+D+L, GD is GF-GA. */
  predicate Balanced(r: TeamRecord) {
    r.played == r.won + r.drawn + r.lost && r.goalDifference == r.goalsFor - r.goalsAgainst
  }

  /** On a balanced record the team update adds exactly one game's counters. */
  lemma ApplyResultCounters(r: TeamRecord, goalsFor: int, goalsAgainst: int)
    requires Balanced(r)
    ensures CountersOf(ApplyResult(r, goalsFor, goalsAgainst))
      == AddCounters(CountersOf(r), ResultCounters(goalsFor, goalsAgainst))
    ensures Balanced(ApplyResult(r, goalsFor, goalsAgainst))
  {
  }

  /** One side of a match applied at key k, seen from team t. */
  lemma UpdateCounters(tbl: Table, k: Team, goalsFor: int, goalsAgainst: int, t: Team)
    requires k in tbl && t in tbl && Balanced(tbl[t])
    ensures var r := tbl[k := ApplyResult(tbl[k], goalsFor, goalsAgainst)][t];
      && Balanced(r)
      && CountersOf(r) == AddCounters(CountersOf(tbl[t]),
           if k == t then ResultCounters(goalsFor, goalsAgainst) else ZeroCounters)
  {
    if k == t {
      ApplyResultCounters(tbl[t], goalsFor, goalsAgainst);
    }
  }

  lemma ApplyMatchCounters(tbl: Table, m: Match, t: Team)
    requires m.homeTeam in tbl && m.awayTeam in tbl && t in tbl && Balanced(tbl[t])
    ensures Balanced(ApplyMatch(tbl, m)[t])
    ensures CountersOf(ApplyMatch(tbl, m)[t]) == AddCounters(CountersOf(tbl[t]), MatchTally(m, t))
  {
    if Counted(m) {
      var h, a := m.homeTeam, m.awayTeam;
      var afterHome := tbl[h := ApplyResult(tbl[h], m.homeGoals, m.awayGoals)];
      UpdateCounters(tbl, h, m.homeGoals, m.awayGoals, t);
      UpdateCounters(afterHome, a, m.awayGoals, m.homeGoals, t);
      assert ApplyMatch(tbl, m) == afterHome[a := ApplyResult(afterHome[a], m.awayGoals, m.homeGoals)];
    }
  }

  /** Replaying adds each team's tally to its counters and keeps its record balanced. */
  lemma {:induction false} ReplayCounters(tbl: Table, ms: seq<Match>, t: Team)
    requires Covers(tbl, ms) && t in tbl && Balanced(tbl[t])
    ensures Balanced(Replay(tbl, ms)[t])
    ensures CountersOf(Replay(tbl, ms)[t]) == AddCounters(CountersOf(tbl[t]), Tally(ms, t))
    decreases |ms|
  {
    if ms != [] {
      var prefix, m := ms[..|ms| - 1], ms[|ms| - 1];
      ReplayCounters(tbl, prefix, t);
      var before := Replay(tbl, prefix);
      ApplyMatchCounters(before, m, t);
      AddCountersAssociative(CountersOf(tbl[t]), Tally(prefix, t), MatchTally(m, t));
    }
  }

  /**
   * The rebuild from zeroed counters leaves every team with exactly its tally
   * of the counted matches, whatever the counters held before.
   */
  lemma RebuildIsTally(tbl: Table, ms: seq<Match>, t: Team)
    requires Covers(tbl, ms) && t in tbl
    ensures ResetAll(tbl).Keys == tbl.Keys
    ensures CountersOf(Replay(ResetAll(tbl), ms)[t]) == Tally(ms, t)
    ensures Balanced(Replay(ResetAll(tbl), ms)[t])
  {
    var reset := ResetAll(tbl);
    assert Covers(reset, ms);
    ReplayCounters(reset, ms, t);
    assert CountersOf(reset[t]) == ZeroCounters;
    AddZeroCounters(Tally(ms, t));
  }

  /** Rebuilding twice gives the same counters as rebuilding once. */
  lemma RebuildCountersIdempotent(tbl: Table, ms: seq<Match>, t: Team)
    requires Covers(tbl, ms) && t in tbl
    ensures var once := Replay(ResetAll(tbl), ms);
      CountersOf(Replay(ResetAll(once), ms)[t]) == CountersOf(once[t])
  {
    RebuildIsTally(tbl, ms, t);
    var once := Replay(ResetAll(tbl), ms);
    RebuildIsTally(once, ms, t);
  }

  lemma ReplayOne(tbl: Table, m: Match)
    requires m.homeTeam in tbl && m.awayTeam in tbl
    ensures Covers(tbl, [m]) && Replay(tbl, [m]) == ApplyMatch(tbl, m)
  {
    assert [m][..0] == [];
  }

  /**
   * The form is not rebuilt: with one counted home win over another team, a
   * second rebuild pushes a second "W" on top of the first.
   */
  lemma RebuildShiftsForm(tbl: Table, m: Match)
    requires m.homeTeam in tbl && m.awayTeam in tbl
    requires m.homeTeam != m.awayTeam && Counted(m) && m.homeGoals > m.awayGoals
    requires tbl[m.homeTeam].form[0] != Win
    ensures var once := Replay(ResetAll(tbl), [m]);
      Replay(ResetAll(once), [m])[m.homeTeam].form != once[m.homeTeam].form
  {
    var h := m.homeTeam;
    var reset := ResetAll(tbl);
    assert reset[h] == ResetStats(tbl[h]);
    var once := Replay(reset, [m]);
    ReplayOne(reset, m);
    assert once[h] == ApplyResult(reset[h], m.homeGoals, m.awayGoals);
    assert once[h].form[0] == Win && once[h].form[1] == tbl[h].form[0];
    var reset2 := ResetAll(once);
    assert reset2[h] == ResetStats(once[h]);
    var twice := Replay(reset2, [m]);
    ReplayOne(reset2, m);
    assert twice[h] == ApplyResult(reset2[h], m.homeGoals, m.awayGoals);
    assert twice[h].form[1] == Win;
  }

  lemma MatchTallyConsistent(m: Match, t: Team)
    ensures var c := MatchTally(m, t);
      && c.played == c.won + c.drawn + c.lost
      && c.goalDifference == c.goalsFor - c.goalsAgainst
      && c.points == WinPoints * c.won + DrawPoints * c.drawn
      && c.played >= 0 && c.won >= 0 && c.drawn >= 0 && c.lost >= 0
  {
  }

  /** Tallied counters satisfy the bookkeeping identities, points included. */
  lemma {:induction false} TallyConsistent(ms: seq<Match>, t: Team)
    ensures var c := Tally(ms, t);
      && c.played == c.won + c.drawn + c.lost
      && c.goalDifference == c.goalsFor - c.goalsAgainst
      && c.points == WinPoints * c.won + DrawPoints * c.drawn
      && c.played >= 0 && c.won >= 0 && c.drawn >= 0 && c.lost >= 0
    decreases |ms|
  {
    if ms != [] {
      TallyConsistent(ms[..|ms| - 1], t);
      MatchTallyConsistent(ms[|ms| - 1], t);
    }
  }

  // ---------------------------------------------------------------------
  // Standings order
  // ---------------------------------------------------------------------

  /** a is listed above b: more points, or equal points and a better goal difference. */
  predicate RanksAbove(a: TeamRecord, b: TeamRecord) {
    a.points > b.points || (a.points == b.points && a.goalDifference > b.goalDifference)
  }

  /** The comparator is a strict weak order whose ties are equal points and goal difference. */
  lemma RanksAboveIsStrictWeakOrder(a: TeamRecord, b: TeamRecord, c: TeamRecord)
    ensures !RanksAbove(a, a)
    ensures RanksAbove(a, b) ==> !RanksAbove(b, a)
    ensures RanksAbove(a, b) && RanksAbove(b, c) ==> RanksAbove(a, c)
    ensures !RanksAbove(a, b) && !RanksAbove(b, a) <==>
      a.points == b.points && a.goalDifference == b.goalDifference
  {
  }

  /** Goals scored never separate two teams level on points and goal difference. */
  lemma GoalsForIsNoTiebreak(a: TeamRecord, b: TeamRecord)
    requires a.points == b.points && a.goalDifference == b.goalDifference
    ensures !RanksAbove(a, b) && !RanksAbove(b, a)
  {
  }

  /** No team is ranked above an earlier one. */
  predicate SortedStandings(rs: seq<TeamRecord>) {
    forall i, j :: 0 <= i < j < |rs| ==> !RanksAbove(rs[j], rs[i])
  }
}
