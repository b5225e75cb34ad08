/**
 * The season: a league of four teams, the week counter and the calendar,
 * advanced one week at a time, rebuilt from the played and hand-set results,
 * and edited by hand. Random draws are passed in, one per match slot.
 */
module Season {
  import opened TeamState
  import opened Sampler
  import opened Fixtures
  import opened Standings
  import opened GoalEntry
  import Probability

  // ---------------------------------------------------------------------
  // Specifications of one week's play
  // ---------------------------------------------------------------------

  /** A match of the current week after the GUI samples it: hand-set scores are kept. */
  function SampleMatch(tbl: Table, m: Match, d: Draw): Match
    requires m.homeTeam in tbl && m.awayTeam in tbl
  {
    if m.isFixed then m
    else
      var score := PredictMatchResult(tbl[m.homeTeam].currentStrength, tbl[m.awayTeam].currentStrength, d);
      m.(homeGoals := score.0, awayGoals := score.1, isPlayed := true)
  }

  /** The current week after sampling; every match reads the strengths of the same table. */
  function SampleWeek(tbl: Table, ms: seq<Match>, draws: seq<Draw>): seq<Match>
    requires Covers(tbl, ms) && |draws| >= |ms|
  {
    seq(|ms|, i requires 0 <= i < |ms| => SampleMatch(tbl, ms[i], draws[i]))
  }

  /**
   * Sampling keeps the pairings, leaves hand-set matches alone, and marks
   * every other match played with a score of at most three goals a side.
   */
  lemma SampleWeekEffect(tbl: Table, ms: seq<Match>, draws: seq<Draw>)
    requires Covers(tbl, ms) && |draws| >= |ms|
    ensures var r := SampleWeek(tbl, ms, draws);
      && |r| == |ms|
      && Covers(tbl, r)
      && (forall i :: 0 <= i < |ms| ==>
            && r[i].homeTeam == ms[i].homeTeam && r[i].awayTeam == ms[i].awayTeam
            && r[i].week == ms[i].week && r[i].isFixed == ms[i].isFixed
            && Counted(r[i]))
      && (forall i :: 0 <= i < |ms| && ms[i].isFixed ==> r[i] == ms[i])
      && (forall i :: 0 <= i < |ms| && !ms[i].isFixed ==>
            r[i].isPlayed && 0 <= r[i].homeGoals <= 3 && 0 <= r[i].awayGoals <= 3)
  {
  }

  /** The rebuilt table: counters zeroed, then the counted matches of the first `week` weeks replayed. */
  function Rebuilt(tbl: Table, fixtures: seq<seq<Match>>, week: int): (r: Table)
    requires CoversAll(tbl, fixtures)
    ensures r.Keys == tbl.Keys
  {
    CoversPlayed(ResetAll(tbl), fixtures, week);
    Replay(ResetAll(tbl), PlayedMatches(fixtures, week))
  }

  /** One console match: the score is drawn from the table's strengths and both teams are updated. */
  function ConsoleMove(tbl: Table, m: Match, d: Draw): (r: Table)
    requires m.homeTeam in tbl && m.awayTeam in tbl
    ensures r.Keys == tbl.Keys
  {
    var score := PredictMatchResult(tbl[m.homeTeam].currentStrength, tbl[m.awayTeam].currentStrength, d);
    ApplyScore(tbl, m.homeTeam, m.awayTeam, score.0, score.1)
  }

  /**
   * The console round: each match is sampled from the strengths left by the
   * matches before it, and both teams are updated at once.
   */
  function ConsoleRound(tbl: Table, ms: seq<Match>, draws: seq<Draw>): (r: Table)
    requires Covers(tbl, ms) && |draws| >= |ms|
    ensures r.Keys == tbl.Keys
    decreases |ms|
  {
    if ms == [] then tbl
    else ConsoleMove(ConsoleRound(tbl, ms[..|ms| - 1], draws), ms[|ms| - 1], draws[|ms| - 1])
  }

  /** The console round's matches with the scores it drew, marked played. */
  function ConsoleResults(tbl: Table, ms: seq<Match>, draws: seq<Draw>): (r: seq<Match>)
    requires Covers(tbl, ms) && |draws| >= |ms|
    ensures |r| == |ms|
    decreases |ms|
  {
    if ms == [] then []
    else
      var before := ConsoleRound(tbl, ms[..|ms| - 1], draws);
      var m := ms[|ms| - 1];
      var score := PredictMatchResult(before[m.homeTeam].currentStrength, before[m.awayTeam].currentStrength, draws[|ms| - 1]);
      ConsoleResults(tbl, ms[..|ms| - 1], draws) + [m.(homeGoals := score.0, awayGoals := score.1, isPlayed := true)]
  }

  /**
   * The console round updates the teams exactly as replaying its results
   * would, although it records none of them in the calendar.
   */
  lemma {:induction false} ConsoleRoundIsReplay(tbl: Table, ms: seq<Match>, draws: seq<Draw>)
    requires Covers(tbl, ms) && |draws| >= |ms|
    ensures Covers(tbl, ConsoleResults(tbl, ms, draws))
    ensures ConsoleRound(tbl, ms, draws) == Replay(tbl, ConsoleResults(tbl, ms, draws))
    decreases |ms|
  {
    if ms != [] {
      var prefix := ms[..|ms| - 1];
      ConsoleRoundIsReplay(tbl, prefix, draws);
      var prev := ConsoleResults(tbl, prefix, draws);
      var last := ConsoleResults(tbl, ms, draws)[|ms| - 1];
      assert ConsoleResults(tbl, ms, draws) == prev + [last];
      ReplaySnoc(tbl, prev, last);
    }
  }

  // ---------------------------------------------------------------------
  // The league
  // ---------------------------------------------------------------------

  /** The records of the teams, keyed by team. */
  function TableOf(ts: seq<Team>): Table
    reads ts
  {
    map t | t in ts :: t.Record()
  }

  /** Two lists of the same teams give the same table. */
  lemma SameTeamsSameTable(a: seq<Team>, b: seq<Team>)
    requires forall t :: t in a <==> t in b
    ensures TableOf(a) == TableOf(b)
  {
  }

  function RecordsOf(ts: seq<Team>): (rs: seq<TeamRecord>)
    reads ts
    ensures |rs| == |ts| && forall i :: 0 <= i < |ts| ==> rs[i] == ts[i].Record()
  {
    if ts == [] then [] else RecordsOf(ts[..|ts| - 1]) + [ts[|ts| - 1].Record()]
  }

  // ---------------------------------------------------------------------
  // The calendar of a league
  // ---------------------------------------------------------------------

  /** Two matches a week, all between teams of the table. */
  predicate CalendarFits(tbl: Table, fixtures: seq<seq<Match>>) {
    && (forall w :: 0 <= w < |fixtures| ==> |fixtures[w]| == MatchesPerWeek)
    && CoversAll(tbl, fixtures)
  }

  /** Two matches a week, all between the given teams. */
  predicate CalendarOn(members: set<Team>, fixtures: seq<seq<Match>>) {
    && (forall w :: 0 <= w < |fixtures| ==> |fixtures[w]| == MatchesPerWeek)
    && (forall w, i :: 0 <= w < |fixtures| && 0 <= i < |fixtures[w]| ==>
          fixtures[w][i].homeTeam in members && fixtures[w][i].awayTeam in members)
  }

  lemma OnMembersFits(members: set<Team>, tbl: Table, fixtures: seq<seq<Match>>)
    requires CalendarOn(members, fixtures) && forall t :: t in members ==> t in tbl
    ensures CalendarFits(tbl, fixtures)
  {
  }

  lemma FitsOnMembers(tbl: Table, members: set<Team>, fixtures: seq<seq<Match>>)
    requires CalendarFits(tbl, fixtures) && forall t :: t in tbl ==> t in members
    ensures CalendarOn(members, fixtures)
  {
  }

  lemma ScheduleOn(members: set<Team>, teams: seq<Team>)
    requires |teams| == TeamCount && forall t :: t in teams ==> t in members
    ensures |Schedule(teams)| == SeasonWeeks && CalendarOn(members, Schedule(teams))
    ensures |Numbered(Schedule(teams))| == SeasonWeeks && CalendarOn(members, Numbered(Schedule(teams)))
  {
    ScheduleShape(teams);
    ScheduleUsesLeagueTeams(teams);
  }

  lemma ScheduleFits(tbl: Table, teams: seq<Team>)
    requires |teams| == TeamCount && forall t :: t in teams ==> t in tbl
    ensures |Schedule(teams)| == SeasonWeeks && CalendarFits(tbl, Schedule(teams))
    ensures |Numbered(Schedule(teams))| == SeasonWeeks && CalendarFits(tbl, Numbered(Schedule(teams)))
  {
    ScheduleShape(teams);
    ScheduleUsesLeagueTeams(teams);
  }

  lemma ReplaceWeekFits(tbl: Table, fixtures: seq<seq<Match>>, w: nat, ms: seq<Match>)
    requires CalendarFits(tbl, fixtures) && w < |fixtures|
    requires Covers(tbl, ms) && |ms| == MatchesPerWeek
    ensures CalendarFits(tbl, fixtures[w := ms])
  {
  }

  /** The week a GUI advance plays: week 0 plays week 1. */
  function CurrentWeek(week: int): int {
    if week == 0 then 1 else week
  }

  /** The calendar a GUI advance plays from: a league at week 0 first gets a fresh one numbered 1..18. */
  function StartingCalendar(teams: seq<Team>, fixtures: seq<seq<Match>>, week: int): seq<seq<Match>>
    requires |teams| == TeamCount
  {
    if week == 0 then Numbered(Schedule(teams)) else fixtures
  }

  /** The calendar after the GUI's week advance from `week` (18 at most). */
  function AdvanceCalendar(tbl: Table, teams: seq<Team>, fixtures: seq<seq<Match>>, week: int, draws: seq<Draw>): seq<seq<Match>>
    requires |teams| == TeamCount && (forall t :: t in teams ==> t in tbl)
    requires 0 <= week <= SeasonWeeks && |draws| >= MatchesPerWeek
    requires week >= 1 ==> |fixtures| == SeasonWeeks && CalendarFits(tbl, fixtures)
  {
    ScheduleFits(tbl, teams);
    var calendar := StartingCalendar(teams, fixtures, week);
    var current := CurrentWeek(week) - 1;
    calendar[current := SampleWeek(tbl, calendar[current], draws)]
  }

  lemma AdvanceCalendarIs(tbl: Table, teams: seq<Team>, fixtures: seq<seq<Match>>, week: int, draws: seq<Draw>)
    requires |teams| == TeamCount && (forall t :: t in teams ==> t in tbl)
    requires 0 <= week <= SeasonWeeks && |draws| >= MatchesPerWeek
    requires week >= 1 ==> |fixtures| == SeasonWeeks && CalendarFits(tbl, fixtures)
    ensures |StartingCalendar(teams, fixtures, week)| == SeasonWeeks
    ensures CalendarFits(tbl, StartingCalendar(teams, fixtures, week))
    ensures var calendar := StartingCalendar(teams, fixtures, week);
      AdvanceCalendar(tbl, teams, fixtures, week, draws) ==
        calendar[CurrentWeek(week) - 1 := SampleWeek(tbl, calendar[CurrentWeek(week) - 1], draws)]
  {
    ScheduleFits(tbl, teams);
  }

  /**
   * What one week advance does to the calendar: a week-0 league plays week 1
   * of a calendar numbered 1..18; only the current week changes; its
   * hand-set matches keep their scores, its other matches are played, and
   * every one of its matches then counts.
   */
  lemma AdvanceEffect(tbl: Table, teams: seq<Team>, fixtures: seq<seq<Match>>, week: int, draws: seq<Draw>)
    requires |teams| == TeamCount && (forall t :: t in teams ==> t in tbl)
    requires 0 <= week <= SeasonWeeks && |draws| >= MatchesPerWeek
    requires week >= 1 ==> |fixtures| == SeasonWeeks && CalendarFits(tbl, fixtures)
    ensures |StartingCalendar(teams, fixtures, week)| == SeasonWeeks
    ensures |AdvanceCalendar(tbl, teams, fixtures, week, draws)| == SeasonWeeks
    ensures CalendarFits(tbl, AdvanceCalendar(tbl, teams, fixtures, week, draws))
    ensures forall v :: 0 <= v < SeasonWeeks && v != CurrentWeek(week) - 1 ==>
      AdvanceCalendar(tbl, teams, fixtures, week, draws)[v] == StartingCalendar(teams, fixtures, week)[v]
    ensures var played := AdvanceCalendar(tbl, teams, fixtures, week, draws)[CurrentWeek(week) - 1];
      var before := StartingCalendar(teams, fixtures, week)[CurrentWeek(week) - 1];
      && |played| == |before| == MatchesPerWeek
      && (forall i :: 0 <= i < MatchesPerWeek ==>
            && Counted(played[i])
            && played[i].homeTeam == before[i].homeTeam && played[i].awayTeam == before[i].awayTeam
            && (before[i].isFixed ==> played[i] == before[i])
            && (!before[i].isFixed ==> played[i].isPlayed))
    ensures week == 0 ==> forall v, i :: 0 <= v < SeasonWeeks && 0 <= i < MatchesPerWeek ==>
      AdvanceCalendar(tbl, teams, fixtures, week, draws)[v][i].week == v + 1
  {
    ScheduleFits(tbl, teams);
    var calendar := StartingCalendar(teams, fixtures, week);
    SampleWeekEffect(tbl, calendar[CurrentWeek(week) - 1], draws);
  }

  /** Every team of the table holds exactly its tally of ms. */
  predicate TallyTable(tbl: Table, ms: seq<Match>) {
    forall t :: t in tbl ==> CountersOf(tbl[t]) == Tally(ms, t)
  }

  /** A rebuilt table holds every team's tally of the counted matches replayed. */
  lemma RebuiltCounters(tbl: Table, fixtures: seq<seq<Match>>, week: int)
    requires CoversAll(tbl, fixtures)
    ensures TallyTable(Rebuilt(tbl, fixtures, week), PlayedMatches(fixtures, week))
  {
    forall t | t in Rebuilt(tbl, fixtures, week)
      ensures CountersOf(Rebuilt(tbl, fixtures, week)[t]) == Tally(PlayedMatches(fixtures, week), t)
    {
      CoversPlayed(ResetAll(tbl), fixtures, week);
      CoversPlayed(tbl, fixtures, week);
      RebuildIsTally(tbl, PlayedMatches(fixtures, week), t);
    }
  }

  /** Every match of weeks a..b-1 (0-based) counts. */
  predicate CountedWeeks(fixtures: seq<seq<Match>>, a: int, b: int) {
    forall v, i :: a <= v < b && 0 <= v < |fixtures| && 0 <= i < |fixtures[v]| ==> Counted(fixtures[v][i])
  }

  /** The first n weeks of two calendars agree. */
  predicate SameWeeksBefore(f: seq<seq<Match>>, g: seq<seq<Match>>, n: int) {
    forall v :: 0 <= v < n && v < |f| && v < |g| ==> f[v] == g[v]
  }

  /** An advance from week w (1..18) keeps the weeks before it and makes week w count. */
  lemma AdvanceCountsWeek(tbl: Table, teams: seq<Team>, fixtures: seq<seq<Match>>, w: int, draws: seq<Draw>)
    requires |teams| == TeamCount && (forall t :: t in teams ==> t in tbl)
    requires 1 <= w <= SeasonWeeks && |draws| >= MatchesPerWeek
    requires |fixtures| == SeasonWeeks && CalendarFits(tbl, fixtures)
    ensures var r := AdvanceCalendar(tbl, teams, fixtures, w, draws);
      |r| == |fixtures| && SameWeeksBefore(r, fixtures, w - 1) && CountedWeeks(r, w - 1, w)
  {
    AdvanceEffect(tbl, teams, fixtures, w, draws);
  }

  /** Counted weeks a..w-2 of the old calendar and counted week w-1 of the new one, which keeps the rest, join up. */
  lemma CountedWeeksJoin(f: seq<seq<Match>>, g: seq<seq<Match>>, a: int, w: int)
    requires CountedWeeks(f, a, w - 1) && SameWeeksBefore(g, f, w - 1) && CountedWeeks(g, w - 1, w)
    requires |g| == |f|
    ensures CountedWeeks(g, a, w)
  {
  }

  lemma SameWeeksBeforeTrans(f: seq<seq<Match>>, g: seq<seq<Match>>, h: seq<seq<Match>>, a: int, n: int)
    requires a <= n && |f| == |g| == |h|
    requires SameWeeksBefore(g, f, n) && SameWeeksBefore(f, h, a)
    ensures SameWeeksBefore(g, h, a)
  {
  }

  /** A hand-set score in a week not yet reached does not enter the rebuilt table. */
  lemma EditBeyondWeekIgnored(tbl: Table, fixtures: seq<seq<Match>>, week: int, w: nat, ms: seq<Match>)
    requires CoversAll(tbl, fixtures) && w < |fixtures| && w >= week
    requires Covers(tbl, ms)
    ensures CoversAll(tbl, fixtures[w := ms])
    ensures Rebuilt(tbl, fixtures[w := ms], week) == Rebuilt(tbl, fixtures, week)
  {
    var n := WeeksReplayed(|fixtures|, week);
    assert fixtures[w := ms][..n] == fixtures[..n];
  }

  /** A hand-set result: the entered scores, marked fixed and played. */
  function Override(m: Match, homeGoals: int, awayGoals: int): Match {
    m.(homeGoals := homeGoals, awayGoals := awayGoals, isFixed := true, isPlayed := true)
  }

  /** A hand-set result counts for both teams with exactly the entered scores, whatever the match held. */
  lemma OverrideCounts(m: Match, homeGoals: int, awayGoals: int)
    requires m.homeTeam != m.awayTeam
    ensures Counted(Override(m, homeGoals, awayGoals))
    ensures MatchTally(Override(m, homeGoals, awayGoals), m.homeTeam) == ResultCounters(homeGoals, awayGoals)
    ensures MatchTally(Override(m, homeGoals, awayGoals), m.awayTeam) == ResultCounters(awayGoals, homeGoals)
  {
  }

  /** One more match of the console round. */
  lemma ConsoleStep(tbl: Table, ms: seq<Match>, i: nat, draws: seq<Draw>)
    requires Covers(tbl, ms) && |draws| >= |ms| && i < |ms|
    ensures Covers(tbl, ms[..i]) && Covers(tbl, ms[..i + 1])
    ensures ConsoleRound(tbl, ms[..i + 1], draws) == ConsoleMove(ConsoleRound(tbl, ms[..i], draws), ms[i], draws[i])
  {
    assert ms[..i + 1][..i] == ms[..i];
  }

  /** One more match of the sampled week. */
  lemma SpliceStep(sampled: seq<Match>, ms: seq<Match>, i: nat)
    requires |sampled| == |ms| && i < |ms|
    ensures (sampled[..i] + ms[i..])[i] == ms[i]
    ensures (sampled[..i] + ms[i..])[i := sampled[i]] == sampled[..i + 1] + ms[i + 1..]
  {
  }

  lemma MultisetMembers(a: seq<Team>, b: seq<Team>)
    requires multiset(a) == multiset(b)
    ensures |a| == |b| && forall t :: t in a <==> t in b
  {
    assert |a| == |multiset(a)| && |b| == |multiset(b)|;
    forall t
      ensures t in a <==> t in b
    {
      assert t in a <==> t in multiset(a);
      assert t in b <==> t in multiset(b);
    }
  }

  // ---------------------------------------------------------------------
  // The standings sort
  // ---------------------------------------------------------------------

  /** Team s is listed above team t by the standings comparator. */
  predicate Above(s: Team, t: Team)
    reads s, t
  {
    RanksAbove(s.Record(), t.Record())
  }

  /** No team among the first n is listed above an earlier one. */
  predicate SortedPrefix(ts: seq<Team>, n: nat)
    requires n <= |ts|
    reads ts
  {
    forall a, b :: 0 <= a < b < n ==> !Above(ts[b], ts[a])
  }

  /** No team is listed above an earlier one. */
  predicate SortedTeams(ts: seq<Team>)
    reads ts
  {
    SortedPrefix(ts, |ts|)
  }

  lemma SortedTeamsRecords(ts: seq<Team>)
    ensures SortedTeams(ts) <==> SortedStandings(RecordsOf(ts))
  {
    var rs := RecordsOf(ts);
    assert forall i :: 0 <= i < |ts| ==> rs[i] == ts[i].Record();
  }

  /**
   * The state of an insertion of ts[..i+1]'s last team, now at j: the other
   * teams of the prefix are in order, and the moving team is listed above
   * every team it has passed.
   */
  predicate Sinking(ts: seq<Team>, i: nat, j: nat)
    requires j <= i < |ts|
    reads ts
  {
    && (forall a, b :: 0 <= a < b <= i && a != j && b != j ==> !Above(ts[b], ts[a]))
    && (forall b :: j < b <= i ==> Above(ts[j], ts[b]))
  }

  /** Exchanging two neighbours keeps the teams and their distinctness. */
  lemma SwapKeepsTeams(ts: seq<Team>, j: nat)
    requires 0 < j < |ts|
    ensures var r := ts[j - 1 := ts[j]][j := ts[j - 1]];
      multiset(r) == multiset(ts) && (DistinctTeams(ts) ==> DistinctTeams(r))
  {
    var r := ts[j - 1 := ts[j]][j := ts[j - 1]];
    SwapMultiset(ts[..j - 1], ts[j - 1], ts[j], ts[j + 1..]);
    assert ts == ts[..j - 1] + [ts[j - 1], ts[j]] + ts[j + 1..];
    assert r == ts[..j - 1] + [ts[j], ts[j - 1]] + ts[j + 1..];
    if DistinctTeams(ts) {
      forall a, b | 0 <= a < b < |r|
        ensures r[a] != r[b]
      {
        var a' := if a == j - 1 then j else if a == j then j - 1 else a;
        var b' := if b == j - 1 then j else if b == j then j - 1 else b;
        assert r[a] == ts[a'] && r[b] == ts[b'] && a' != b';
      }
    }
  }

  lemma SwapMultiset(xs: seq<Team>, x: Team, y: Team, ys: seq<Team>)
    ensures multiset(xs + [y, x] + ys) == multiset(xs + [x, y] + ys)
  {
    assert xs + [y, x] + ys == xs + ([y, x] + ys);
    assert xs + [x, y] + ys == xs + ([x, y] + ys);
  }

  lemma SinkStart(ts: seq<Team>, i: nat)
    requires i < |ts| && SortedPrefix(ts, i)
    ensures Sinking(ts, i, i)
  {
  }

  /** Moving the team one place up past a team it ranks above keeps the insertion state. */
  lemma SinkStep(ts: seq<Team>, i: nat, j: nat)
    requires 0 < j <= i < |ts| && Sinking(ts, i, j) && Above(ts[j], ts[j - 1])
    ensures Sinking(ts[j - 1 := ts[j]][j := ts[j - 1]], i, j - 1)
  {
    var r := ts[j - 1 := ts[j]][j := ts[j - 1]];
    forall b | j - 1 < b <= i
      ensures Above(r[j - 1], r[b])
    {
      if b > j {
        assert r[b] == ts[b];
      }
    }
  }

  /** The insertion stops at the top or below a team it does not rank above. */
  lemma SinkDone(ts: seq<Team>, i: nat, j: nat)
    requires j <= i < |ts| && Sinking(ts, i, j)
    requires j == 0 || !Above(ts[j], ts[j - 1])
    ensures SortedPrefix(ts, i + 1)
  {
    forall a, b | 0 <= a < b <= i
      ensures !Above(ts[b], ts[a])
    {
      RanksAboveIsStrictWeakOrder(ts[a].Record(), ts[j].Record(), ts[b].Record());
      if a != j && b != j {
      } else if b == j {
        RanksAboveIsStrictWeakOrder(ts[a].Record(), ts[j - 1].Record(), ts[j].Record());
        if a < j - 1 {
          assert !Above(ts[j - 1], ts[a]);
        }
      }
    }
  }

  /**
   * Sorts the teams with the standings comparator by exchanging neighbours.
   * The order among teams level on points and goal difference is whatever the
   * exchanges leave.
   */
  method SortTeams(input: seq<Team>) returns (ts: seq<Team>)
    ensures multiset(ts) == multiset(input)
    ensures DistinctTeams(input) ==> DistinctTeams(ts)
    ensures SortedTeams(ts)
  {
    ts := input;
    for i := 0 to |ts|
      invariant |ts| == |input| && multiset(ts) == multiset(input)
      invariant DistinctTeams(input) ==> DistinctTeams(ts)
      invariant SortedPrefix(ts, i)
    {
      SinkStart(ts, i);
      var j := i;
      while j > 0 && Above(ts[j], ts[j - 1])
        invariant 0 <= j <= i && |ts| == |input|
        invariant multiset(ts) == multiset(input)
        invariant DistinctTeams(input) ==> DistinctTeams(ts)
        invariant Sinking(ts, i, j)
      {
        SwapKeepsTeams(ts, j);
        SinkStep(ts, i, j);
        ts := ts[j - 1 := ts[j]][j := ts[j - 1]];
        j := j - 1;
      }
      SinkDone(ts, i, j);
    }
  }

  /** Sets every match's week field to its 1-based week, week by week. */
  method NumberWeeks(weeks: seq<seq<Match>>) returns (r: seq<seq<Match>>)
    ensures r == Numbered(weeks)
  {
    r := weeks;
    for w := 0 to |r|
      invariant |r| == |weeks|
      invariant forall v :: 0 <= v < |r| ==> r[v] == if v < w then Numbered(weeks)[v] else weeks[v]
    {
      var row := NumberWeek(r[w], w + 1);
      r := r[w := row];
    }
  }

  method NumberWeek(ms: seq<Match>, week: int) returns (r: seq<Match>)
    ensures r == seq(|ms|, i requires 0 <= i < |ms| => ms[i].(week := week))
  {
    r := ms;
    for i := 0 to |r|
      invariant |r| == |ms|
      invariant forall k :: 0 <= k < |r| ==> r[k] == if k < i then ms[k].(week := week) else ms[k]
    {
      r := r[i := r[i].(week := week)];
    }
  }

  /**
   * Samples the matches of one week that were not set by hand, each from the
   * current strengths of its two teams, which the table holds.
   */
  method SampleMatches(ghost tbl: Table, ms: seq<Match>, draws: seq<Draw>) returns (r: seq<Match>)
    requires Covers(tbl, ms) && |draws| >= |ms|
    requires forall t :: t in tbl ==> tbl[t].currentStrength == t.currentStrength
    ensures r == SampleWeek(tbl, ms, draws)
  {
    ghost var sampled := SampleWeek(tbl, ms, draws);
    r := ms;
    for i := 0 to |r|
      invariant |r| == |ms| && r == sampled[..i] + ms[i..]
    {
      SpliceStep(sampled, ms, i);
      var m := r[i];
      if !m.isFixed {
        var score := PredictMatchResult(m.homeTeam.currentStrength, m.awayTeam.currentStrength, draws[i]);
        r := r[i := m.(homeGoals := score.0, awayGoals := score.1, isPlayed := true)];
      }
    }
    assert sampled[..|ms|] + ms[|ms|..] == sampled;
  }

  class League {
    var teams: seq<Team>
    var week: int
    var fixtures: seq<seq<Match>>
    /** The league's team objects; the list of teams is only ever reordered. */
    ghost const squad: set<Team>

    /** The teams' records, keyed by team. */
    function Table(): Table
      reads this`teams, teams
    {
      TableOf(teams)
    }

    function Records(): seq<TeamRecord>
      reads this`teams, teams
    {
      RecordsOf(teams)
    }

    ghost predicate Valid()
      reads this
    {
      && |teams| == TeamCount && DistinctTeams(teams)
      && (forall t :: t in teams ==> t in squad) && (forall t :: t in squad ==> t in teams)
      && 0 <= week <= SeasonWeeks + 1
      && (week >= 1 ==> |fixtures| == SeasonWeeks)
      && CalendarOn(squad, fixtures)
    }

    /** The table's teams are the squad, so the calendar fits the table. */
    lemma TableFits()
      requires Valid()
      ensures forall t :: t in Table() ==> t in squad
      ensures CalendarFits(Table(), fixtures)
    {
      OnMembersFits(squad, Table(), fixtures);
    }

    /**
     * A new league of the four picked teams (name and base strength), each
     * with zero counters, strength at base and five empty form slots.
     */
    constructor (picks: seq<(string, int)>)
      requires |picks| == TeamCount
      ensures Valid() && week == 0 && fixtures == []
      ensures Records() == seq(|picks|, i requires 0 <= i < |picks| => NewRecord(picks[i].0, picks[i].1))
    {
      var created: seq<Team> := [];
      for i := 0 to |picks|
        invariant |created| == i && DistinctTeams(created)
        invariant forall j :: 0 <= j < i ==> fresh(created[j])
        invariant forall j :: 0 <= j < i ==> created[j].Record() == NewRecord(picks[j].0, picks[j].1)
      {
        var t := new Team(picks[i].0, picks[i].1);
        created := created + [t];
      }
      teams := created;
      squad := set t | t in created;
      week := 0;
      fixtures := [];
    }

    /** One team object updated in place; the table changes at that key only. */
    method UpdateRecord(t: Team, goalsFor: int, goalsAgainst: int)
      requires t in teams
      modifies t
      ensures Table() == old(Table())[t := ApplyResult(old(Table())[t], goalsFor, goalsAgainst)]
    {
      t.UpdateTeamStats(goalsFor, goalsAgainst);
    }

    /** Zeroes the counters of every team. */
    method ResetTeams()
      requires Valid()
      modifies teams
      ensures Valid()
      ensures Table() == ResetAll(old(Table()))
    {
      for i := 0 to |teams|
        invariant forall j :: 0 <= j < |teams| ==>
          teams[j].Record() == if j < i then ResetStats(old(teams[j].Record())) else old(teams[j].Record())
      {
        teams[i].ResetTeamStats();
      }
      ghost var before := old(Table());
      forall t | t in teams
        ensures Table()[t] == ResetStats(before[t])
      {
        var j :| 0 <= j < |teams| && teams[j] == t;
      }
      ResetAllPointwise(before, Table());
    }

    /** A played or hand-set match updates the home team, then the away team. */
    method ApplyCounted(m: Match)
      requires m.homeTeam in teams && m.awayTeam in teams
      modifies teams
      ensures Table() == ApplyMatch(old(Table()), m)
    {
      if m.isPlayed || m.isFixed {
        UpdateRecord(m.homeTeam, m.homeGoals, m.awayGoals);
        UpdateRecord(m.awayTeam, m.awayGoals, m.homeGoals);
      }
    }

    /**
     * One match of the console week: the score is drawn from the teams'
     * current strengths, then the home team and the away team are updated.
     */
    method PlayConsoleMatch(m: Match, d: Draw)
      requires m.homeTeam in teams && m.awayTeam in teams
      modifies teams
      ensures Table() == ConsoleMove(old(Table()), m, d)
    {
      var score := PredictMatchResult(m.homeTeam.currentStrength, m.awayTeam.currentStrength, d);
      UpdateRecord(m.homeTeam, score.0, score.1);
      UpdateRecord(m.awayTeam, score.1, score.0);
    }

    /** Applies the counted matches of calendar week w (0-based), in order. */
    method ReplayWeek(w: int)
      requires Valid() && 0 <= w < |fixtures|
      modifies teams
      ensures Valid()
      ensures Covers(old(Table()), fixtures[w])
      ensures Table() == Replay(old(Table()), fixtures[w])
    {
      TableFits();
      ghost var start := Table();
      ghost var ms := fixtures[w];
      for i := 0 to |fixtures[w]|
        invariant Covers(start, ms[..i])
        invariant Table() == Replay(start, ms[..i])
      {
        ReplayPrefixStep(start, ms, i);
        ApplyCounted(fixtures[w][i]);
      }
      assert ms[..|ms|] == ms;
    }

    /** Extends a replay of the first w weeks by week w. */
    method ReplayNextWeek(w: int, ghost start: Table)
      requires Valid() && 0 <= w < |fixtures|
      requires Table().Keys == start.Keys
      requires Covers(start, Flatten(fixtures[..w]))
      requires Table() == Replay(start, Flatten(fixtures[..w]))
      modifies teams
      ensures Valid() && Table().Keys == start.Keys
      ensures Covers(start, Flatten(fixtures[..w + 1]))
      ensures Table() == Replay(start, Flatten(fixtures[..w + 1]))
    {
      ReplayWeek(w);
      ReplayWeeksStep(start, fixtures, w);
    }

    /** Applies the counted matches of the first `week` weeks, stopping at the calendar's end. */
    method ReplayPlayedWeeks()
      requires Valid()
      modifies teams
      ensures Valid()
      ensures Covers(old(Table()), PlayedMatches(fixtures, week))
      ensures Table() == Replay(old(Table()), PlayedMatches(fixtures, week))
    {
      ghost var start := Table();
      var w := 0;
      while w < week
        invariant 0 <= w <= |fixtures| && w <= week
        invariant Table().Keys == start.Keys
        invariant Covers(start, Flatten(fixtures[..w]))
        invariant Table() == Replay(start, Flatten(fixtures[..w]))
      {
        if w >= |fixtures| {
          break;
        }
        ReplayNextWeek(w, start);
        w := w + 1;
      }
      assert w == WeeksReplayed(|fixtures|, week);
    }

    /**
     * Rebuilds every team's counters: all counters zeroed, then each counted
     * match of the first `week` weeks applied, home side first.
     */
    method RecalculateAllStats()
      requires Valid()
      modifies teams
      ensures Valid()
      ensures Table() == Rebuilt(old(Table()), fixtures, week)
    {
      ResetTeams();
      ReplayPlayedWeeks();
    }

    /** The sort that precedes every display of the table. */
    method SortStandings()
      requires Valid()
      modifies this`teams
      ensures Valid() && multiset(teams) == multiset(old(teams))
      ensures SortedTeams(teams)
      ensures Table() == old(Table())
    {
      var sorted := SortTeams(teams);
      MultisetMembers(teams, sorted);
      teams := sorted;
      SameTeamsSameTable(old(teams), teams);
      assert Table() == old(Table());
    }

    /**
     * Every team rebuilt from the counted matches of the weeks played so far,
     * then the table sorted for display.
     */
    method RefreshTable()
      requires Valid()
      modifies this`teams, teams
      ensures Valid() && multiset(teams) == multiset(old(teams)) && SortedTeams(teams)
      ensures Table().Keys == old(Table()).Keys
      ensures Table() == Rebuilt(old(Table()), fixtures, week)
      ensures TallyTable(Table(), PlayedMatches(fixtures, week))
    {
      ghost var tbl := Table();
      RecalculateAllStats();
      RebuiltCounters(tbl, fixtures, week);
      ghost var rebuilt := Table();
      SortStandings();
      assert Table() == rebuilt;
    }

    /** Week 0 becomes week 1, with a fresh calendar whose matches carry their week numbers. */
    method StartSeason()
      requires Valid() && week == 0
      modifies this`week, this`fixtures
      ensures Valid() && week == 1
      ensures fixtures == Numbered(Schedule(teams))
    {
      week := 1;
      var generated := GenerateFixtures(teams);
      fixtures := NumberWeeks(generated);
      ScheduleOn(squad, teams);
    }

    /** Samples every match of the current week that was not set by hand, and marks it played. */
    method SampleCurrentWeek(draws: seq<Draw>)
      requires Valid() && 1 <= week <= SeasonWeeks && |draws| >= MatchesPerWeek
      modifies this`fixtures
      ensures Valid()
      ensures fixtures == old(fixtures)[week - 1 := SampleWeek(Table(), old(fixtures)[week - 1], draws)]
    {
      TableFits();
      var current := SampleMatches(Table(), fixtures[week - 1], draws);
      SampleWeekEffect(Table(), old(fixtures)[week - 1], draws);
      ReplaceWeekFits(Table(), fixtures, week - 1, current);
      FitsOnMembers(Table(), squad, fixtures[week - 1 := current]);
      fixtures := fixtures[week - 1 := current];
    }

    /**
     * Plays the current week: its matches are sampled when the calendar has
     * that week, the week moves on by one, every team is rebuilt from the
     * calendar and the table is sorted.
     */
    method AdvanceWeek(draws: seq<Draw>)
      requires Valid() && 1 <= week <= SeasonWeeks && |draws| >= MatchesPerWeek
      modifies this, teams
      ensures Valid() && multiset(teams) == multiset(old(teams)) && SortedTeams(teams)
      ensures week == old(week) + 1
      ensures fixtures == AdvanceCalendar(old(Table()), old(teams), old(fixtures), old(week), draws)
      ensures Table().Keys == old(Table()).Keys
      ensures Table() == Rebuilt(old(Table()), fixtures, week)
      ensures TallyTable(Table(), PlayedMatches(fixtures, week))
      ensures SameWeeksBefore(fixtures, old(fixtures), old(week) - 1)
      ensures CountedWeeks(fixtures, old(week) - 1, old(week))
    {
      AdvanceCountsWeek(Table(), teams, fixtures, week, draws);
      SampleAndMoveOn(draws);
      RefreshTable();
    }

    /** The current week is sampled when the calendar has it, and the week moves on by one. */
    method SampleAndMoveOn(draws: seq<Draw>)
      requires Valid() && 1 <= week <= SeasonWeeks && |draws| >= MatchesPerWeek
      modifies this`fixtures, this`week
      ensures Valid() && week == old(week) + 1 && Table() == old(Table())
      ensures fixtures == AdvanceCalendar(old(Table()), teams, old(fixtures), old(week), draws)
    {
      ghost var tbl := Table();
      ghost var advanced := AdvanceCalendar(tbl, teams, fixtures, week, draws);
      AdvanceCalendarIs(tbl, teams, fixtures, week, draws);
      if week - 1 < |fixtures| {
        SampleCurrentWeek(draws);
      }
      assert fixtures == advanced && Table() == tbl;
      week := week + 1;
    }

    /**
     * The GUI's week advance. Week 0 starts the season; past week 18 only the
     * table is re-sorted; otherwise the current week is sampled, the week
     * moves on by one, every team is rebuilt from the calendar and the table
     * is sorted.
     */
    method PlayNextWeek(draws: seq<Draw>)
      requires Valid() && |draws| >= MatchesPerWeek
      modifies this, teams
      ensures Valid() && multiset(teams) == multiset(old(teams))
      ensures SortedTeams(teams)
      ensures old(week) > SeasonWeeks ==>
        week == old(week) && fixtures == old(fixtures) && Table() == old(Table())
      ensures old(week) <= SeasonWeeks ==>
        && week == (if old(week) == 0 then 1 else old(week)) + 1
        && fixtures == AdvanceCalendar(old(Table()), old(teams), old(fixtures), old(week), draws)
        && Table().Keys == old(Table()).Keys
        && Table() == Rebuilt(old(Table()), fixtures, week)
    {
      ghost var tbl := Table();
      ghost var calendar := StartingCalendar(teams, fixtures, week);
      if week == 0 {
        StartSeason();
      }
      if week > SeasonWeeks {
        SortStandings();
        return;
      }
      assert fixtures == calendar && Table() == tbl && week == CurrentWeek(old(week));
      AdvanceCalendarIs(tbl, old(teams), old(fixtures), old(week), draws);
      AdvanceWeek(draws);
    }

    /**
     * One step of the week-by-week run: past week 18 only the table is
     * re-sorted; otherwise the current week is sampled when the calendar has
     * it, the week moves on by one, every team is rebuilt and the table is
     * sorted.
     */
    method PlayWeekStep(draws: seq<Draw>)
      requires Valid() && week >= 1 && |draws| >= MatchesPerWeek
      modifies this, teams
      ensures Valid() && multiset(teams) == multiset(old(teams))
      ensures SortedTeams(teams)
      ensures old(week) > SeasonWeeks ==>
        week == old(week) && fixtures == old(fixtures) && Table() == old(Table())
      ensures old(week) <= SeasonWeeks ==>
        && week == old(week) + 1
        && fixtures == AdvanceCalendar(old(Table()), old(teams), old(fixtures), old(week), draws)
        && Table().Keys == old(Table()).Keys
        && Table() == Rebuilt(old(Table()), fixtures, week)
      ensures old(week) <= SeasonWeeks ==>
        && TallyTable(Table(), PlayedMatches(fixtures, week))
        && SameWeeksBefore(fixtures, old(fixtures), old(week) - 1)
        && CountedWeeks(fixtures, old(week) - 1, old(week))
    {
      if week > SeasonWeeks {
        SortStandings();
        return;
      }
      AdvanceWeek(draws);
    }

    /**
     * The "play all remaining weeks" run: week 0 starts the season, then week
     * steps follow until the season is over, and a last step re-sorts the
     * table. The draws of the step at week w are draws[w - 1].
     */
    method PlayRemainingWeeks(draws: seq<seq<Draw>>)
      requires Valid() && |draws| == SeasonWeeks + 1
      requires forall k :: 0 <= k < |draws| ==> |draws[k]| >= MatchesPerWeek
      modifies this, squad
      ensures Valid() && week == SeasonWeeks + 1
      ensures multiset(teams) == multiset(old(teams)) && SortedTeams(teams)
      ensures SameWeeksBefore(fixtures, old(fixtures), old(week) - 1)
      ensures old(week) <= SeasonWeeks ==> CountedWeeks(fixtures, CurrentWeek(old(week)) - 1, SeasonWeeks)
      ensures old(week) <= SeasonWeeks ==> TallyTable(Table(), Flatten(fixtures))
    {
      if week == 0 {
        StartSeason();
      }
      ghost var first := week;
      ghost var calendar := fixtures;
      assert old(week) >= 1 ==> calendar == old(fixtures);
      while week <= SeasonWeeks
        invariant Valid() && 1 <= first <= week <= SeasonWeeks + 1
        invariant multiset(teams) == multiset(old(teams))
        invariant SameWeeksBefore(fixtures, calendar, first - 1)
        invariant CountedWeeks(fixtures, first - 1, week - 1)
        invariant week > first ==> TallyTable(Table(), PlayedMatches(fixtures, week))
        decreases SeasonWeeks + 1 - week
      {
        ghost var before := fixtures;
        ghost var w := week;
        PlayWeekStep(draws[week - 1]);
        CountedWeeksJoin(before, fixtures, first - 1, w);
        SameWeeksBeforeTrans(before, fixtures, calendar, first - 1, w - 1);
      }
      ghost var tally := Table();
      ghost var final := fixtures;
      assert final[..SeasonWeeks] == final;
      assert first <= SeasonWeeks ==> TallyTable(tally, Flatten(final));
      PlayWeekStep(draws[week - 1]);
      assert fixtures == final && Table() == tally;
    }

    /**
     * The save path of the result editor for match i of calendar week w
     * (0-based): both fields are read as Sscanf's %d reads them, and if either
     * fails nothing changes. Otherwise the match gets the entered scores and
     * is marked fixed and played, every team is rebuilt and the table sorted.
     */
    method EditMatchResult(w: int, i: int, homeText: string, awayText: string) returns (saved: bool)
      requires Valid() && 0 <= w < |fixtures| && 0 <= i < |fixtures[w]|
      modifies this, teams
      ensures Valid() && week == old(week)
      ensures saved <==> ScanInt(homeText).Some? && ScanInt(awayText).Some?
      ensures !saved ==> fixtures == old(fixtures) && teams == old(teams) && Table() == old(Table())
      ensures saved ==>
        fixtures == old(fixtures)[w := old(fixtures)[w][i := Override(old(fixtures)[w][i], ScanInt(homeText).value, ScanInt(awayText).value)]]
      ensures saved ==>
        && multiset(teams) == multiset(old(teams)) && SortedTeams(teams)
        && Table().Keys == old(Table()).Keys
        && Table() == Rebuilt(old(Table()), fixtures, week)
    {
      var homeGoals := ScanInt(homeText);
      if homeGoals.None? {
        return false;
      }
      var awayGoals := ScanInt(awayText);
      if awayGoals.None? {
        return false;
      }
      var m := fixtures[w][i];
      ReplaceMatch(w, i, m.(homeGoals := homeGoals.value, awayGoals := awayGoals.value, isFixed := true, isPlayed := true));
      RefreshTable();
      saved := true;
    }

    /** Puts a match with the same two teams in place of match i of calendar week w. */
    method ReplaceMatch(w: int, i: int, edited: Match)
      requires Valid() && 0 <= w < |fixtures| && 0 <= i < |fixtures[w]|
      requires edited.homeTeam == fixtures[w][i].homeTeam && edited.awayTeam == fixtures[w][i].awayTeam
      modifies this`fixtures
      ensures Valid() && fixtures == old(fixtures)[w := old(fixtures)[w][i := edited]]
      ensures Table() == old(Table())
    {
      TableFits();
      ReplaceWeekFits(Table(), fixtures, w, fixtures[w][i := edited]);
      FitsOnMembers(Table(), squad, fixtures[w := fixtures[w][i := edited]]);
      fixtures := fixtures[w := fixtures[w][i := edited]];
    }

    /**
     * The console week: week 0 becomes 1; at week 1 the calendar is generated
     * afresh (without week numbers); past the calendar's end nothing is
     * played. Otherwise each match of the current week is sampled from the
     * strengths its teams have at that moment and both teams are updated at
     * once; the calendar records nothing; the week moves on by one.
     */
    method SimulateNextWeek(draws: seq<Draw>) returns (played: bool)
      requires Valid() && |draws| >= MatchesPerWeek
      modifies this`week, this`fixtures, teams
      ensures Valid() && teams == old(teams)
      ensures fixtures == if CurrentWeek(old(week)) == 1 then Schedule(teams) else old(fixtures)
      ensures played <==> CurrentWeek(old(week)) <= |fixtures|
      ensures Table().Keys == old(Table()).Keys
      ensures played ==> week == CurrentWeek(old(week)) + 1
      ensures played ==> Table() == ConsoleRound(old(Table()), fixtures[CurrentWeek(old(week)) - 1], draws)
      ensures !played ==> week == CurrentWeek(old(week)) && Table() == old(Table())
    {
      OpenConsoleWeek();
      if week > |fixtures| {
        return false;
      }
      ghost var round := fixtures[week - 1];
      PlayConsoleWeek(draws);
      assert Table() == ConsoleRound(old(Table()), round, draws);
      played := true;
    }

    /** Week 0 becomes 1; at week 1 the calendar is generated afresh, without week numbers. */
    method OpenConsoleWeek()
      requires Valid()
      modifies this`week, this`fixtures
      ensures Valid() && week == CurrentWeek(old(week)) && Table() == old(Table())
      ensures fixtures == if week == 1 then Schedule(teams) else old(fixtures)
    {
      if week == 0 {
        week := 1;
      }
      if week == 1 {
        fixtures := GenerateFixtures(teams);
        ScheduleOn(squad, teams);
      }
    }

    /** Plays the given matches in order, each from the strengths left by the ones before it. */
    method PlayConsoleMatches(ms: seq<Match>, draws: seq<Draw>)
      requires Covers(Table(), ms) && |draws| >= |ms|
      modifies teams
      ensures Table() == ConsoleRound(old(Table()), ms, draws)
    {
      ghost var start := Table();
      for i := 0 to |ms|
        invariant Covers(start, ms[..i]) && Table().Keys == start.Keys
        invariant Table() == ConsoleRound(start, ms[..i], draws)
      {
        ConsoleStep(start, ms, i, draws);
        PlayConsoleMatch(ms[i], draws[i]);
      }
      assert ms[..|ms|] == ms;
    }

    /** Plays every match of the current console week in order, then moves the week on by one. */
    method PlayConsoleWeek(draws: seq<Draw>)
      requires Valid() && 1 <= week <= |fixtures| && |draws| >= MatchesPerWeek
      modifies this`week, teams
      ensures Valid() && week == old(week) + 1
      ensures Table().Keys == old(Table()).Keys && Covers(old(Table()), fixtures[old(week) - 1])
      ensures Table() == ConsoleRound(old(Table()), fixtures[old(week) - 1], draws)
    {
      TableFits();
      week := week + 1;
      assert Table() == old(Table());
      PlayConsoleMatches(fixtures[week - 2], draws);
    }

    /**
     * The championship table of the league in its current week, over its
     * teams in their current order; `trials` are the champion lists of the
     * Monte Carlo runs.
     */
    method ChampionshipProbabilities(trials: seq<seq<string>>) returns (counts: Probability.Shares)
      requires Probability.ColdStartDefined(week, Records())
      ensures counts == Probability.Probabilities(week, Records(), trials)
    {
      counts := Probability.ChampionshipProbabilities(week, Records(), trials);
    }
  }
}
