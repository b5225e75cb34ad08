# Premier League simulation — a verified model of the league engine

This project models the league engine of a small four-team Premier League
simulator written in Go. The engine covers:

- the team record and its update, undo and reset;
- the form-weighted strength;
- the random score sampler, with its random numbers passed in as draws;
- the fixture generator (the circle method, 18 weeks);
- the season's week advance, the rebuild of every team from the calendar, the hand-set result path and the console week;
- the standings order;
- the championship probability table;
- the string and grouping helpers of the database layer.

The modules follow the program's structure:

| module | file | what it holds |
|---|---|---|
| `TeamState` | `team_state.dfy` | `TeamRecord` (value view) and `Team` (class whose fields the methods update in place); form score and strength |
| `Sampler` | `sampler.dfy` | `PredictMatchResult` on injected draws |
| `Fixtures` | `fixtures.dfy` | `Match`, the generator over an index array rotated in place, and the calendar's structure |
| `Standings` | `standings.dfy` | replay of a calendar over a table `map<Team, TeamRecord>`, tallies, the standings comparator |
| `GoalEntry` | `goal_entry.dfy` | the goal-field validator and the `%d` scan used by the save path |
| `Season` | `season.dfy` | the `League` class: week advance, rebuild, sort, edit, console week, run to the end of the season |
| `Probability` | `probability.dfy` | the championship table: specification by branch, and the loops that compute it |
| `Persistence` | `persistence.dfy` | form column join and parse, short names, the team-save guard, grouping of match rows into weeks |

Modelling choices:

- Floating-point values are exact reals.
- Go's `int(x)` truncates toward zero, and the model spells this out (`Truncate`).
- `rand.Float64` and `rand.Intn` become a `Draw(r, first, second)` passed in per match slot.
- A panic in the source (a generator called with other than four teams, `Form[:4]` on a short form, a short name cut from a name whose UTF-8 encoding is under three bytes) becomes a precondition.

## Model

| member | source | states |
|---|---|---|
| TeamState.Team.UpdateTeamStats | simulation.go:150-169 | the team's record becomes `ApplyResult` of the old one: goals added, W/D/L and points by result, code pushed at the head of the form, strength recomputed |
| TeamState.ApplyResultEffect | simulation.go:150-169 | after one result: played = W+D+L, GD = GF−GA, goals added, exactly one of W/D/L up by one and the other two unchanged, with +3/+1/+0 points, the code at form[0] and the old first four behind it, consistency preserved |
| TeamState.Team.ReverseTeamStats | simulation.go:172-187 | the record becomes `ReverseResult` of the old one (counters only) |
| TeamState.ReverseUndoesApply | simulation.go:150-187 | undo after update restores all eight counters, while form and strength stay as the update left them |
| TeamState.ReverseKeepsForm | simulation.go:150-187 | the undo is not a full inverse: a win's "W" remains in the form |
| TeamState.Team.ResetTeamStats | simulation.go:977-986 | the record becomes `ResetStats` of the old one |
| TeamState.ResetStatsEffect | simulation.go:977-986 | exactly the eight counters become zero; name, strengths and form are kept; reset is idempotent |
| TeamState.Team.UpdateTeamStrength | simulation.go:117-147 | the strength becomes the clamped, truncated form-weighted base strength |
| TeamState.FormMultiplier | simulation.go:122-133 | the accumulated multiplier equals 1 + Σ(5−i)·v_i/300 |
| TeamState.FormScoreBounded | simulation.go:123-133 | with five slots the weighted score is in [−15, 15] and the multiplier in [0.95, 1.05] |
| TeamState.StrengthWithinBounds | simulation.go:136-146 | the strength always lies in [int(0.85·base), int(1.15·base)] |
| TeamState.NeutralFormKeepsBase | simulation.go:117-147 | a form without W or L leaves the strength at the base strength |
| TeamState.ClampInactive | simulation.go:136-146 | with a five-slot form the clamp never changes the scaled strength |
| TeamState.Team.constructor | simulation.go:95-107 | a new team has zero counters, strength at base and five empty form slots |
| Sampler.Intn | simulation.go:206-215 | an injected integer draw reduced into [0, n) |
| Sampler.PredictMatchResult | simulation.go:190-219 | both goal counts are in 0..3 |
| Sampler.ScoreMatchesBranch | simulation.go:204-216 | the score lies in its branch: home win 1 ≤ h ≤ 3 and a < h, a draw h = a ∈ {0,1}, away win mirrored; the branch can be read off the score |
| Sampler.BranchScoresReachable | simulation.go:204-216 | every score of a branch is produced by some pair of integer draws |
| Sampler.BandsForPositiveStrengths | simulation.go:192-212 | with positive strengths the home band is r < p and the draw band p ≤ r < p+0.2; at four times the away strength no draw reaches the away branch |
| Fixtures.GenerateFixtures | simulation.go:222-267 | the generator (requiring four teams) returns `Schedule(teams)` |
| Fixtures.PassRounds | simulation.go:240-263 | one pass yields its three rounds from a fresh copy of the starting indices |
| Fixtures.PairRound | simulation.go:245-257 | a round pairs position i with position 3−i, swapped in the second pass |
| Fixtures.RotateIndices | simulation.go:258-261 | the index array is rotated in place: index 0 stays, the others move one place left |
| Fixtures.ScheduleShape | simulation.go:222-267 | 18 weeks of two unplayed, unfixed, goalless matches with week field 0 |
| Fixtures.ScheduleUsesLeagueTeams | simulation.go:253-254 | only the league's teams appear in the calendar |
| Fixtures.EachTeamOncePerWeek | simulation.go:244-257 | every team plays exactly once a week and never against itself |
| Fixtures.SecondPassSwapsHomeAway | simulation.go:240-251 | week k+3 is week k with home and away swapped within each six-week block |
| Fixtures.ScheduleRepeatsEverySixWeeks | simulation.go:238 | week k+6 equals week k |
| Fixtures.EachPairingOncePerBlock | simulation.go:238-264 | every ordered pair of distinct teams meets exactly once per six-week block |
| Standings.Replay | simulation.go:496-507 | replaying keeps the table's teams |
| Standings.ReplayCounters | simulation.go:500-506 | replaying adds each team's tally of the counted matches to its counters and keeps the record balanced |
| Standings.RebuildIsTally | simulation.go:489-508 | after the reset and the replay every team holds exactly its tally, whatever it held before |
| Standings.RebuildCountersIdempotent | simulation.go:489-508 | rebuilding twice gives the same counters as rebuilding once |
| Standings.RebuildShiftsForm | simulation.go:489-508 | the form is not rebuilt: a second rebuild pushes a second "W" on top of the first |
| Standings.TallyConsistent | simulation.go:150-169 | tallied counters satisfy played = W+D+L, GD = GF−GA and points = 3W + D |
| Standings.ResetAll | simulation.go:491-493 | every record of the table has its counters reset, no team added or dropped |
| Standings.RanksAboveIsStrictWeakOrder | simulation.go:646-651 | the comparator is a strict weak order whose ties are equal points and equal goal difference |
| Standings.GoalsForIsNoTiebreak | simulation.go:646-651 | goals scored never separate two teams level on points and goal difference |
| GoalEntry.ValidateGoals | simulation.go:557-574 | the validator method returns the verdict `Validation` gives |
| GoalEntry.ValidationAccepts | simulation.go:557-574 | accepted exactly when empty or a digit run worth at most 9; "only numbers" exactly on a non-digit; the other two errors exactly by value |
| GoalEntry.ScanOfDigits | simulation.go:612-619 | `%d` on a digit run yields its value unless it overflows 64 bits |
| GoalEntry.TrailingTextIgnored | simulation.go:612-619 | text after the digits does not change the scan |
| GoalEntry.EmptyPassesButDoesNotScan | simulation.go:557-619 | "" passes the validator, yet the save scan fails on it and nothing is saved |
| GoalEntry.SaveStoresRejectedCount | simulation.go:557-625 | a count above 9 is refused by the validator, yet the save stores it |
| GoalEntry.SaveStoresNegativeCount | simulation.go:557-625 | a minus sign is refused by the validator, yet the save stores the negative count |
| GoalEntry.SaveSkipsLeadingBlank | simulation.go:557-619 | leading blanks are refused by the validator but skipped by the save scan |
| Season.League.constructor | simulation.go:90-114 | a new league at week 0, with no calendar and four fresh teams |
| Season.League.UpdateRecord | simulation.go:503-504 | one team updated in place changes the table at that key only |
| Season.League.ResetTeams | simulation.go:491-493 | every team's counters zeroed |
| Season.League.ApplyCounted | simulation.go:502-505 | a counted match updates the home team, then the away team |
| Season.League.ReplayWeek | simulation.go:500-506 | one calendar week's counted matches replayed in order |
| Season.League.ReplayPlayedWeeks | simulation.go:496-507 | the counted matches of the first `week` weeks, cut at the calendar's end, replayed in order |
| Season.League.RecalculateAllStats | simulation.go:489-508 | the table becomes `Rebuilt`: counters zeroed, then the counted matches of the first `week` weeks replayed |
| Season.RebuiltCounters | simulation.go:489-508 | a rebuilt table holds every team's tally of the played matches |
| Season.League.SortStandings | simulation.go:646-651 | the teams are sorted by the comparator (a permutation, records unchanged) |
| Season.SortTeams | simulation.go:646-651 | the sort returns a permutation of its input with no team listed above an earlier one |
| Season.SortedTeamsRecords | simulation.go:646-651 | the sorted team list is exactly sorted standings over its records |
| Season.League.RefreshTable | simulation.go:482-486 | rebuild and sort: the table is `Rebuilt` and every team holds its tally |
| Season.League.StartSeason | simulation.go:446-455 | week 0 becomes 1 with a fresh calendar whose matches carry week numbers 1..18 |
| Season.NumberWeeks | simulation.go:450-454 | every match gets its 1-based week number |
| Season.League.SampleCurrentWeek | simulation.go:466-475 | only the current week changes: it becomes `SampleWeek` of itself |
| Season.SampleMatches | simulation.go:467-475 | the sampling loop yields `SampleWeek` |
| Season.SampleWeekEffect | simulation.go:467-475 | sampling keeps pairings and week fields, leaves hand-set matches alone, marks every other match played with at most three goals a side |
| Season.League.AdvanceWeek | simulation.go:466-485 | one advance: the week moves on by one, the calendar becomes `AdvanceCalendar`, the table is rebuilt and sorted, earlier weeks are kept and the played week counts |
| Season.AdvanceEffect | simulation.go:445-486 | only the current week of the calendar changes; a week-0 league plays week 1 of a calendar numbered 1..18 |
| Season.AdvanceCountsWeek | simulation.go:466-479 | an advance keeps the earlier weeks and makes the played week count |
| Season.League.PlayNextWeek | simulation.go:445-486 | past week 18 nothing but the sort changes; otherwise the week moves on by one, the current week is played and every team is rebuilt |
| Season.League.PlayWeekStep | simulation.go:1006-1036 | one week-by-week step: past week 18 only the sort; otherwise sample, advance, rebuild and sort |
| Season.League.PlayRemainingWeeks | simulation.go:989-1047 | the run ends at week 19 with every week from the starting one counted and every team holding its tally of the whole calendar |
| Season.EditBeyondWeekIgnored | simulation.go:496-507 | a hand-set score in a week not yet reached does not enter the rebuilt table |
| Season.OverrideCounts | simulation.go:622-625 | a hand-set result counts for both teams with exactly the entered scores |
| Season.League.EditMatchResult | simulation.go:610-631 | saved exactly when both fields scan; if not, nothing changes; otherwise only that match changes (scores set, fixed, played) and the table is rebuilt and sorted |
| Season.League.ReplaceMatch | simulation.go:622-625 | only match i of week w is replaced |
| Season.League.SimulateNextWeek | simulation.go:270-299 | week 0 → 1; at week 1 a fresh unnumbered calendar; past its end nothing is played; otherwise the teams become `ConsoleRound` of the week and the week moves on |
| Season.ConsoleRoundIsReplay | simulation.go:289-295 | the console round updates the teams exactly as replaying its results would, though the calendar records none of them |
| Season.League.PlayConsoleMatches | simulation.go:289-295 | the console matches played in order, each from the strengths the previous ones left |
| Season.League.ChampionshipProbabilities | simulation.go:806-974 | the league's table is `Probabilities` of its week and its records in current order |
| Probability.ChampionshipProbabilities | simulation.go:806-974 | the loops compute `Probabilities`, branch by branch in the source's order |
| Probability.FindTopPoints | simulation.go:816-820 | the scan from −1 finds `TopPoints` |
| Probability.TopPoints | simulation.go:814-820 | at least −1, no team above it, and reached by a team unless −1 |
| Probability.BestGoalDifference | simulation.go:815-831 | at least −999, no max-points team above it, reached unless −999 |
| Probability.FindChampions | simulation.go:822-833 | the restart-on-better scan yields exactly the max-points teams with the best goal difference, in list order |
| Probability.ChampionScanIsLeaders | simulation.go:822-833 | the scan as written (restart on a new best, append on a tie) equals the filter by top points and best goal difference |
| Probability.LeadersMembers | simulation.go:822-833 | a name is a champion iff some record with it has the top points and the best goal difference |
| Probability.ChampionsExist | simulation.go:814-833 | with non-negative points and goal differences above −1000 there is a champion |
| Probability.SeasonOverTable | simulation.go:813-844 | the season-over loops yield `SeasonOverShares` |
| Probability.SeasonOverEffect | simulation.go:813-844 | every team is present; each of the k champions has 100/k, everyone else 0 |
| Probability.SeasonOverSum | simulation.go:834-844 | with distinct names and a champion the table adds up to 100 |
| Probability.CheckLeaderUnreachable | simulation.go:847-865 | the loop with `break` decides `LeaderUnreachable` |
| Probability.TabulateByName | simulation.go:847-856 | the by-name maps of current and reachable points |
| Probability.CertaintyCriterion | simulation.go:850-865 | with distinct names: certain iff every other team's points + 3·(18 − played) is below the first team's points; a tie keeps the race open |
| Probability.CertainTable | simulation.go:867-876 | the certainty loop yields `CertainShares` |
| Probability.CertainEffect | simulation.go:867-876 | 100 for the leader's name, 0 for the others, summing to 100 |
| Probability.SumBase | simulation.go:881-884 | the total of the base strengths |
| Probability.ColdStartTable | simulation.go:885-887 | the cold-start loop yields `ColdStartShares` |
| Probability.ColdStartEffect | simulation.go:880-889 | each team's share is base/total·100, and the shares add up to 100 |
| Probability.CollectCredits | simulation.go:893-961 | the trial loop yields `Credits` and counts the valid trials |
| Probability.CreditsTotal | simulation.go:954-960 | every valid trial hands out exactly one unit of credit, so credits add up to the valid trials |
| Probability.CreditsKeys | simulation.go:954-960 | the credited names are exactly the trial champions |
| Probability.CreditsPositive | simulation.go:954-960 | every credit is positive |
| Probability.Normalise | simulation.go:963-966 | each credit divided by the valid trials and scaled by 100, in any key order |
| Probability.ZeroTable | simulation.go:967-971 | every team's name set to zero |
| Probability.MonteCarloEffect | simulation.go:890-972 | with a valid trial: exactly the champions, each with a percentage in (0, 100]; with none: every team at 0 |
| Probability.ProbabilitiesArePercentages | simulation.go:806-974 | every entry of the table lies in [0, 100], whichever branch produced it |
| Probability.ProbabilitiesCoverTeams | simulation.go:806-974 | except a Monte Carlo run with a valid trial, the table names exactly the teams |
| Persistence.JoinForm | database.go:136-146 | the form column is the non-empty entries, in order, joined by commas |
| Persistence.ParseFormString | database.go:367-379 | five slots: slot i holds the i-th character when there is one, else "" |
| Persistence.SaveThenLoadForm | database.go:367-379 | save then load puts the commas in slots 1 and 3 (with ≥2 and ≥3 results) and the results in slots 0, 2, 4 |
| Persistence.SaveThenLoadSingle | database.go:367-379 | a form with at most one result, in slot 0, survives save and load |
| Persistence.SaveThenLoadExample | database.go:367-379 | W, D comes back as W , D |
| Persistence.GetShortName | database.go:347-365 | the short name is always three bytes: a known club's code, or the first three bytes of the name's UTF-8 encoding |
| Persistence.ShortNameCutsBytes | database.go:364 | the cut counts bytes: "Ñu" (two characters, three bytes) has a short name, "Aéb" is cut to "Aé", "Ab" has none |
| Persistence.ShortNameSplitsCharacter | database.go:364 | the cut can split a multi-byte character: "日本" gives the bytes of "日", "Ab€" gives "Ab" and the first byte of "€" |
| Persistence.ShortNamesAreCodes | database.go:347-365 | the ten known clubs get distinct codes; an unknown club's code is a prefix of its name's bytes |
| Persistence.SaveTeam | database.go:124-151 | refused exactly for a missing team or an empty name; otherwise the row holds the name, its short name, both strengths, the counters and the joined form |
| Persistence.SaveThenLoadTeam | database.go:252-271 | saving then loading keeps everything but the form, which comes back parsed |
| Persistence.GroupByWeek | database.go:293-333 | exactly 18 weeks; week w holds the rows of week w in read order |
| Persistence.RowsOfWeekMembers | database.go:318 | a row is in week w iff it was read with week w |
| Persistence.GroupingKeepsRows | database.go:296-333 | the 18 weeks together hold exactly the rows whose week is in 1..18 |

## Left out

- The Fyne UI is not modelled: widget and layout construction, the label texts, window sizing, and the text tables. This is presentation only.
- Printing in the console week is not modelled.
- `fyne.Do` and the 500 ms `time.AfterFunc` chain in `simulateWeekByWeek` are not modelled. `PlayRemainingWeeks` runs the chain's steps in sequence.
- `rand.Seed(time.Now())` and `rand.Shuffle` in `selectRandomTeams` are not modelled. The league is built from four given (name, base strength) picks, and every random number is a draw passed in.
- All SQL is not modelled: table creation, `Exec`/`Query`/`Scan`, `getTeamID`, `SaveLeague`, `SaveMatch`, `SaveChampionshipProbabilities`, `InitDatabase`, `Close`. This is a foreign library and I/O.
- main.go is not part of this model.
- Floating point is modelled as exact reals. Float results can differ at integer boundaries of `int(base·m)`, `int(0.85·base)` and `int(1.15·base)`, and in the percentages.
- The remaining-season simulation of each Monte Carlo trial is not modelled: a trial enters the model as the champion list it produced.
- Probability.MonteCarloEffect: does not prove that the normalised Monte Carlo table adds up to 100. It proves that the credits add up to the number of valid trials and that each entry is at most 100.
- Probability.Probabilities: when the cold-start branch is reached, the total base strength must be nonzero. Otherwise the source divides by zero and produces NaN or Inf, which exact reals cannot represent.
- Duplicate team names are handled as the source's maps do: a later record overwrites an earlier one. The sums to 100 are proved for distinct names only.
- Season.SortTeams: the order among teams level on points and goal difference is whatever its exchanges leave. `sort.Slice` is not stable, and its tie order is not modelled.
- Season.League.EditMatchResult: the match is addressed by week and position rather than through a reference to the match value.
- Form entries are strings, taken one byte per character. Multi-byte characters in a form column are not modelled; the source's `range` then indexes by byte offset.
- `NewGUI` generates an unnumbered calendar at startup. That calendar is replaced at week 0 by the numbered one, so it is not modelled separately.
- The console week applies its updates to the teams the matches point to, and never records scores or `IsPlayed` in the calendar. The model captures this as `ConsoleRound` over the table. It moves the week counter before playing the matches, which gives the same final state as the source's order.
- `maxWeek` in the row grouping is computed but never used, so the model tracks it without a contract.
