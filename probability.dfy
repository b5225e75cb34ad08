/**
 * The championship table: the percentage chance each team is given of
 * finishing first. The branches are tried in order: the season is over, the
 * leader can no longer be caught, the season has not started, and otherwise
 * a Monte Carlo run over the remaining fixtures. Results are keyed by team
 * name, so two records with the same name share one entry.
 *
 * The records passed in are the league's teams in their displayed order
 * (sorted by points, then goal difference). The Monte Carlo trials are
 * given as the champion list each trial produced.
 */
module Probability {
  import opened TeamState
  import opened Fixtures

  /** Games each team plays in a season: one a week. */
  const SeasonGames: int := 18

  /** The starting value of the best goal difference in the champion scan. */
  const NoGoalDifference: int := -999

  /** Points for a win, as used for the points a team can still reach. */
  const PointsPerWin: int := 3

  type Shares = map<string, real>

  /** The value a name reads as: a missing name reads as zero. */
  function Get(m: Shares, name: string): real {
    if name in m then m[name] else 0.0
  }

  function Names(rs: seq<TeamRecord>): set<string> {
    set i | 0 <= i < |rs| :: rs[i].name
  }

  predicate DistinctNames(rs: seq<TeamRecord>) {
    forall i, j :: 0 <= i < j < |rs| ==> rs[i].name != rs[j].name
  }

  // ---------------------------------------------------------------------
  // Sum of a share map
  // ---------------------------------------------------------------------

  /** The sum of all values of a map, in whatever order its keys come. */
  ghost function MapSum(m: Shares): real
    decreases |m|
  {
    if m == map[] then 0.0
    else
      var k :| k in m;
      m[k] + MapSum(m - {k})
  }

  /** Any key can be taken out first. */
  lemma {:induction false} MapSumPick(m: Shares, k: string)
    requires k in m
    ensures MapSum(m) == m[k] + MapSum(m - {k})
    decreases |m|
  {
    var j :| j in m && MapSum(m) == m[j] + MapSum(m - {j});
    if j != k {
      assert |m - {j}| == |m| - 1 && |m - {k}| == |m| - 1;
      MapSumPick(m - {j}, k);
      MapSumPick(m - {k}, j);
      assert m - {j} - {k} == m - {k} - {j};
    }
  }

  /** Setting a key replaces its old value (zero when absent) in the sum. */
  lemma MapSumUpdate(m: Shares, k: string, v: real)
    ensures MapSum(m[k := v]) == MapSum(m) - Get(m, k) + v
  {
    MapSumPick(m[k := v], k);
    assert m[k := v] - {k} == m - {k};
    if k in m {
      MapSumPick(m, k);
    } else {
      assert m - {k} == m;
    }
  }

  /** A map of non-negative values sums to at least each of them. */
  lemma {:induction false} MapSumBoundsValues(m: Shares, k: string)
    requires forall n :: n in m ==> m[n] >= 0.0
    ensures MapSum(m) >= 0.0
    ensures k in m ==> m[k] <= MapSum(m)
    decreases |m|
  {
    if m != map[] {
      var j :| j in m;
      MapSumPick(m, j);
      assert |m - {j}| == |m| - 1;
      MapSumBoundsValues(m - {j}, k);
      if k in m && k != j {
        assert k in m - {j};
      }
    }
  }
  /** The names of a non-empty list: those of all but the last record, and the last one's. */
  lemma NamesSnoc(rs: seq<TeamRecord>)
    requires rs != []
    ensures Names(rs) == Names(rs[..|rs| - 1]) + {rs[|rs| - 1].name}
  {
    var front := rs[..|rs| - 1];
    assert forall i :: 0 <= i < |front| ==> front[i] == rs[i];
  }

  /** With distinct names, the last record's name is not among the others'. */
  lemma LastNameIsNew(rs: seq<TeamRecord>)
    requires rs != [] && DistinctNames(rs)
    ensures rs[|rs| - 1].name !in Names(rs[..|rs| - 1])
    ensures DistinctNames(rs[..|rs| - 1])
  {
  }

  // ---------------------------------------------------------------------
  // Season over: the champions
  // ---------------------------------------------------------------------

  /** The best points total, where the scan starts from -1. */
  function TopPoints(rs: seq<TeamRecord>): (top: int)
    ensures top >= -1
    ensures forall i :: 0 <= i < |rs| ==> rs[i].points <= top
    ensures top == -1 || exists i :: 0 <= i < |rs| && rs[i].points == top
  {
    if rs == [] then -1
    else
      var front := rs[..|rs| - 1];
      var before := TopPoints(front);
      assert forall i :: 0 <= i < |front| ==> front[i] == rs[i];
      if rs[|rs| - 1].points > before then rs[|rs| - 1].points else before
  }

  /** The best goal difference among the teams on `top` points, where the scan starts from -999. */
  function BestGoalDifference(rs: seq<TeamRecord>, top: int): (g: int)
    ensures g >= NoGoalDifference
    ensures forall i :: 0 <= i < |rs| && rs[i].points == top ==> rs[i].goalDifference <= g
    ensures g == NoGoalDifference ||
      exists i :: 0 <= i < |rs| && rs[i].points == top && rs[i].goalDifference == g
  {
    if rs == [] then NoGoalDifference
    else
      var front := rs[..|rs| - 1];
      var before := BestGoalDifference(front, top);
      var last := rs[|rs| - 1];
      assert forall i :: 0 <= i < |front| ==> front[i] == rs[i];
      if last.points == top && last.goalDifference > before then last.goalDifference else before
  }

  /** The names, in list order, of the teams on `top` points with goal difference g. */
  function Leaders(rs: seq<TeamRecord>, top: int, g: int): seq<string> {
    if rs == [] then []
    else
      var last := rs[|rs| - 1];
      Leaders(rs[..|rs| - 1], top, g) + (if last.points == top && last.goalDifference == g then [last.name] else [])
  }

  /** One step of the champion scan over a team, given the best goal difference and champions so far. */
  function ChampionStep(acc: (int, seq<string>), r: TeamRecord, top: int): (int, seq<string>) {
    if r.points != top then acc
    else if r.goalDifference > acc.0 then (r.goalDifference, [r.name])
    else if r.goalDifference == acc.0 then (acc.0, acc.1 + [r.name])
    else acc
  }

  /** The champion scan as the source runs it: a new best goal difference restarts the list. */
  function ChampionScan(rs: seq<TeamRecord>, top: int): (int, seq<string>) {
    if rs == [] then (NoGoalDifference, [])
    else ChampionStep(ChampionScan(rs[..|rs| - 1], top), rs[|rs| - 1], top)
  }

  function Champions(rs: seq<TeamRecord>): seq<string> {
    var top := TopPoints(rs);
    Leaders(rs, top, BestGoalDifference(rs, top))
  }

  /** A name is a leader exactly when some team of that name has those points and that goal difference. */
  lemma {:induction false} LeadersMembers(rs: seq<TeamRecord>, top: int, g: int, name: string)
    ensures name in Leaders(rs, top, g) <==>
      exists i :: 0 <= i < |rs| && rs[i].name == name && rs[i].points == top && rs[i].goalDifference == g
  {
    if rs != [] {
      var front := rs[..|rs| - 1];
      LeadersMembers(front, top, g, name);
      assert forall i :: 0 <= i < |front| ==> front[i] == rs[i];
    }
  }

  /** Every leader's name belongs to a team. */
  lemma LeadersAreTeams(rs: seq<TeamRecord>, top: int, g: int)
    ensures forall name :: name in Leaders(rs, top, g) ==> name in Names(rs)
  {
    forall name | name in Leaders(rs, top, g)
      ensures name in Names(rs)
    {
      LeadersMembers(rs, top, g, name);
      var i :| 0 <= i < |rs| && rs[i].name == name && rs[i].points == top && rs[i].goalDifference == g;
      assert rs[i] in rs;
    }
  }

  /** No team on `top` points has a goal difference above the best one. */
  lemma LeadersNoneAbove(rs: seq<TeamRecord>, top: int, g: int)
    requires g > BestGoalDifference(rs, top)
    ensures Leaders(rs, top, g) == []
  {
    if Leaders(rs, top, g) != [] {
      LeadersMembers(rs, top, g, Leaders(rs, top, g)[0]);
    }
  }

  /** The scan ends on the best goal difference, with exactly the teams that reach it, in list order. */
  lemma {:induction false} ChampionScanIsLeaders(rs: seq<TeamRecord>, top: int)
    ensures ChampionScan(rs, top) == (BestGoalDifference(rs, top), Leaders(rs, top, BestGoalDifference(rs, top)))
  {
    if rs != [] {
      var front := rs[..|rs| - 1];
      var last := rs[|rs| - 1];
      ChampionScanIsLeaders(front, top);
      if last.points == top && last.goalDifference > BestGoalDifference(front, top) {
        LeadersNoneAbove(front, top, last.goalDifference);
        assert Leaders(rs, top, last.goalDifference) == [last.name];
      } else {
        var g := BestGoalDifference(front, top);
        assert BestGoalDifference(rs, top) == g;
        if last.points == top && last.goalDifference == g {
          assert Leaders(rs, top, g) == Leaders(front, top, g) + [last.name];
        } else {
          assert Leaders(rs, top, g) == Leaders(front, top, g);
        }
      }
    }
  }
  /** With non-negative points and goal differences of at least -999, someone is champion. */
  lemma ChampionsExist(rs: seq<TeamRecord>)
    requires rs != []
    requires forall i :: 0 <= i < |rs| ==> rs[i].points >= 0 && rs[i].goalDifference >= NoGoalDifference
    ensures Champions(rs) != []
  {
    var top := TopPoints(rs);
    var g := BestGoalDifference(rs, top);
    assert rs[0].points <= top;
    var i :| 0 <= i < |rs| && rs[i].points == top;
    if g == NoGoalDifference {
      LeadersMembers(rs, top, g, rs[i].name);
    } else {
      var j :| 0 <= j < |rs| && rs[j].points == top && rs[j].goalDifference == g;
      LeadersMembers(rs, top, g, rs[j].name);
    }
  }

  /** With distinct team names, no name is a leader twice. */
  lemma {:induction false} LeadersDistinct(rs: seq<TeamRecord>, top: int, g: int)
    requires DistinctNames(rs)
    ensures Distinct(Leaders(rs, top, g))
  {
    if rs != [] {
      var front := rs[..|rs| - 1];
      LastNameIsNew(rs);
      LeadersDistinct(front, top, g);
      LeadersAreTeams(front, top, g);
    }
  }

  predicate Distinct(names: seq<string>) {
    forall i, j :: 0 <= i < j < |names| ==> names[i] != names[j]
  }

  /** Every name of the list set to the same share, in order. */
  function SetAll(m: Shares, names: seq<string>, share: real): (r: Shares)
    ensures r.Keys == m.Keys + set n | n in names
  {
    if names == [] then m
    else SetAll(m, names[..|names| - 1], share)[names[|names| - 1] := share]
  }

  /** Each team whose name reads as zero is set to zero. */
  function ZeroUnset(m: Shares, rs: seq<TeamRecord>): (r: Shares)
    ensures r.Keys == m.Keys + Names(rs)
  {
    if rs == [] then m
    else
      var before := ZeroUnset(m, rs[..|rs| - 1]);
      var name := rs[|rs| - 1].name;
      NamesSnoc(rs);
      if Get(before, name) == 0.0 then before[name := 0.0] else before
  }

  /** The champions' shares: 100/k each for k champions. */
  function ChampionShares(champions: seq<string>): Shares {
    if champions == [] then map[] else SetAll(map[], champions, 100.0 / |champions| as real)
  }

  function SeasonOverShares(rs: seq<TeamRecord>): Shares {
    ZeroUnset(ChampionShares(Champions(rs)), rs)
  }

  lemma {:induction false} SetAllValues(m: Shares, names: seq<string>, share: real, n: string)
    requires n in SetAll(m, names, share)
    ensures SetAll(m, names, share)[n] == if n in names then share else m[n]
  {
    if names != [] {
      var front := names[..|names| - 1];
      if n != names[|names| - 1] {
        SetAllValues(m, front, share, n);
        assert n in names <==> n in front;
      }
    }
  }

  lemma {:induction false} ZeroUnsetValues(m: Shares, rs: seq<TeamRecord>, n: string)
    requires n in ZeroUnset(m, rs)
    ensures ZeroUnset(m, rs)[n] == Get(m, n)
  {
    if rs != [] {
      var front := rs[..|rs| - 1];
      if n in ZeroUnset(m, front) {
        ZeroUnsetValues(m, front, n);
      }
    }
  }

  /**
   * After the season: every team's name is present; the champions (the teams
   * on the most points, and among them on the best goal difference) have
   * 100/k each, everyone else 0.
   */
  lemma SeasonOverEffect(rs: seq<TeamRecord>, n: string)
    ensures SeasonOverShares(rs).Keys == Names(rs)
    ensures n in SeasonOverShares(rs) ==>
      SeasonOverShares(rs)[n] == if n in Champions(rs) then 100.0 / |Champions(rs)| as real else 0.0
    ensures n in Champions(rs) <==>
      exists i :: 0 <= i < |rs| && rs[i].name == n && rs[i].points == TopPoints(rs)
        && rs[i].goalDifference == BestGoalDifference(rs, TopPoints(rs))
  {
    var champions := Champions(rs);
    var top := TopPoints(rs);
    LeadersAreTeams(rs, top, BestGoalDifference(rs, top));
    LeadersMembers(rs, top, BestGoalDifference(rs, top), n);
    if n in SeasonOverShares(rs) {
      ZeroUnsetValues(ChampionShares(champions), rs, n);
      if champions != [] && n in SetAll(map[], champions, 100.0 / |champions| as real) {
        SetAllValues(map[], champions, 100.0 / |champions| as real, n);
      }
    }
  }
  /** n copies of the same share, added up. */
  function Repeat(share: real, n: nat): real {
    if n == 0 then 0.0 else Repeat(share, n - 1) + share
  }

  lemma {:induction false} RepeatIsProduct(share: real, n: nat)
    ensures Repeat(share, n) == n as real * share
  {
    if n > 0 {
      RepeatIsProduct(share, n - 1);
      assert (n - 1) as real * share + share == n as real * share;
    }
  }

  /** k equal parts of a whole add back up to the whole. */
  lemma EqualParts(whole: real, k: nat)
    requires k > 0
    ensures Repeat(whole / k as real, k) == whole
  {
    RepeatIsProduct(whole / k as real, k);
  }

  lemma {:induction false} SetAllSum(names: seq<string>, share: real)
    requires Distinct(names)
    ensures MapSum(SetAll(map[], names, share)) == Repeat(share, |names|)
  {
    if names != [] {
      var front := names[..|names| - 1];
      var last := names[|names| - 1];
      SetAllSum(front, share);
      assert last !in front;
      MapSumUpdate(SetAll(map[], front, share), last, share);
    } else {
      assert SetAll(map[], names, share) == map[];
    }
  }

  lemma {:induction false} ZeroUnsetSum(m: Shares, rs: seq<TeamRecord>)
    ensures MapSum(ZeroUnset(m, rs)) == MapSum(m)
  {
    if rs != [] {
      var before := ZeroUnset(m, rs[..|rs| - 1]);
      ZeroUnsetSum(m, rs[..|rs| - 1]);
      MapSumUpdate(before, rs[|rs| - 1].name, 0.0);
    }
  }

  /** With distinct names and at least one champion, the shares after the season add up to 100. */
  lemma SeasonOverSum(rs: seq<TeamRecord>)
    requires DistinctNames(rs) && Champions(rs) != []
    ensures MapSum(SeasonOverShares(rs)) == 100.0
  {
    var champions := Champions(rs);
    var top := TopPoints(rs);
    LeadersDistinct(rs, top, BestGoalDifference(rs, top));
    SetAllSum(champions, 100.0 / |champions| as real);
    EqualParts(100.0, |champions|);
    ZeroUnsetSum(ChampionShares(champions), rs);
  }
  // ---------------------------------------------------------------------
  // Certainty: the leader can no longer be caught
  // ---------------------------------------------------------------------

  /** The points each team can still reach: three for each of its remaining games. */
  function Ceiling(r: TeamRecord): int {
    r.points + (SeasonGames - r.played) * PointsPerWin
  }

  /** Current points keyed by name; a later record overwrites an earlier one of the same name. */
  function PointsByName(rs: seq<TeamRecord>): (m: map<string, int>)
    ensures m.Keys == Names(rs)
  {
    if rs == [] then map[]
    else
      NamesSnoc(rs);
      PointsByName(rs[..|rs| - 1])[rs[|rs| - 1].name := rs[|rs| - 1].points]
  }

  /** Reachable points keyed by name; a later record overwrites an earlier one of the same name. */
  function CeilingByName(rs: seq<TeamRecord>): (m: map<string, int>)
    ensures m.Keys == Names(rs)
  {
    if rs == [] then map[]
    else
      NamesSnoc(rs);
      CeilingByName(rs[..|rs| - 1])[rs[|rs| - 1].name := Ceiling(rs[|rs| - 1])]
  }

  /**
   * The certainty test as the source makes it: every team after the first
   * (looked up by name) can reach fewer points than the first team has now.
   */
  predicate LeaderUnreachable(rs: seq<TeamRecord>)
    requires rs != []
  {
    forall j :: 1 <= j < |rs| ==> CeilingByName(rs)[rs[j].name] < PointsByName(rs)[rs[0].name]
  }

  /** With distinct names the by-name tables hold each record's own values. */
  lemma {:induction false} ByNameLookup(rs: seq<TeamRecord>, i: int)
    requires DistinctNames(rs) && 0 <= i < |rs|
    ensures PointsByName(rs)[rs[i].name] == rs[i].points
    ensures CeilingByName(rs)[rs[i].name] == Ceiling(rs[i])
  {
    if i < |rs| - 1 {
      var front := rs[..|rs| - 1];
      LastNameIsNew(rs);
      ByNameLookup(front, i);
    }
  }

  /**
   * With distinct names: the leader is certain exactly when every other team,
   * winning all its remaining games, still ends below the first team's
   * current points; a rival who can draw level keeps the race open. With
   * at most 18 games played, a certain leader is strictly ahead of everyone.
   */
  lemma CertaintyCriterion(rs: seq<TeamRecord>)
    requires rs != [] && DistinctNames(rs)
    ensures LeaderUnreachable(rs) <==>
      forall j :: 1 <= j < |rs| ==> rs[j].points + PointsPerWin * (SeasonGames - rs[j].played) < rs[0].points
    ensures LeaderUnreachable(rs) && (forall j :: 0 <= j < |rs| ==> rs[j].played <= SeasonGames) ==>
      forall j :: 1 <= j < |rs| ==> rs[j].points < rs[0].points
  {
    ByNameLookup(rs, 0);
    forall j | 0 <= j < |rs| {
      ByNameLookup(rs, j);
    }
  }

  /** 100 for the leader's name, 0 for every other team's. */
  function CertainShares(rs: seq<TeamRecord>, leader: string): (r: Shares)
    ensures r.Keys == Names(rs)
  {
    if rs == [] then map[]
    else
      NamesSnoc(rs);
      var name := rs[|rs| - 1].name;
      CertainShares(rs[..|rs| - 1], leader)[name := if name == leader then 100.0 else 0.0]
  }

  /** The certain table: the leader's name has 100 and the others 0, so it adds up to 100. */
  lemma {:induction false} CertainEffect(rs: seq<TeamRecord>, leader: string)
    ensures forall n :: n in CertainShares(rs, leader) ==>
      CertainShares(rs, leader)[n] == if n == leader then 100.0 else 0.0
    ensures MapSum(CertainShares(rs, leader)) == if leader in Names(rs) then 100.0 else 0.0
  {
    if rs != [] {
      var front := rs[..|rs| - 1];
      NamesSnoc(rs);
      CertainEffect(front, leader);
      var name := rs[|rs| - 1].name;
      MapSumUpdate(CertainShares(front, leader), name, if name == leader then 100.0 else 0.0);
    } else {
      assert CertainShares(rs, leader) == map[];
    }
  }

  // ---------------------------------------------------------------------
  // Cold start: shares in proportion to base strength
  // ---------------------------------------------------------------------

  function TotalBase(rs: seq<TeamRecord>): int {
    if rs == [] then 0 else TotalBase(rs[..|rs| - 1]) + rs[|rs| - 1].baseStrength
  }

  function BaseShare(base: int, total: int): real
    requires total != 0
  {
    base as real / total as real * 100.0
  }

  function ColdStartShares(rs: seq<TeamRecord>, total: int): (r: Shares)
    requires total != 0
    ensures r.Keys == Names(rs)
  {
    if rs == [] then map[]
    else
      NamesSnoc(rs);
      var last := rs[|rs| - 1];
      ColdStartShares(rs[..|rs| - 1], total)[last.name := BaseShare(last.baseStrength, total)]
  }

  lemma BaseShareAdds(a: int, b: int, total: int)
    requires total != 0
    ensures BaseShare(a, total) + BaseShare(b, total) == BaseShare(a + b, total)
  {
  }

  lemma BaseShareOfTotal(total: int)
    requires total != 0
    ensures BaseShare(total, total) == 100.0
  {
    var t := total as real;
    assert t / t == 1.0;
  }

  lemma {:induction false} ColdStartPartialSum(rs: seq<TeamRecord>, total: int)
    requires total != 0 && DistinctNames(rs)
    ensures MapSum(ColdStartShares(rs, total)) == BaseShare(TotalBase(rs), total)
  {
    if rs != [] {
      var front := rs[..|rs| - 1];
      var last := rs[|rs| - 1];
      LastNameIsNew(rs);
      ColdStartPartialSum(front, total);
      MapSumUpdate(ColdStartShares(front, total), last.name, BaseShare(last.baseStrength, total));
      BaseShareAdds(TotalBase(front), last.baseStrength, total);
    } else {
      assert ColdStartShares(rs, total) == map[];
    }
  }

  lemma {:induction false} ColdStartLookup(rs: seq<TeamRecord>, total: int, i: int)
    requires total != 0 && DistinctNames(rs) && 0 <= i < |rs|
    ensures ColdStartShares(rs, total)[rs[i].name] == BaseShare(rs[i].baseStrength, total)
  {
    if i < |rs| - 1 {
      LastNameIsNew(rs);
      ColdStartLookup(rs[..|rs| - 1], total, i);
    }
  }

  /** Before the first week each team's share is its base strength over the total, and the shares add up to 100. */
  lemma ColdStartEffect(rs: seq<TeamRecord>)
    requires DistinctNames(rs) && TotalBase(rs) != 0
    ensures forall i :: 0 <= i < |rs| ==>
      ColdStartShares(rs, TotalBase(rs))[rs[i].name] == BaseShare(rs[i].baseStrength, TotalBase(rs))
    ensures MapSum(ColdStartShares(rs, TotalBase(rs))) == 100.0
  {
    forall i | 0 <= i < |rs| {
      ColdStartLookup(rs, TotalBase(rs), i);
    }
    ColdStartPartialSum(rs, TotalBase(rs));
    BaseShareOfTotal(TotalBase(rs));
  }
  // ---------------------------------------------------------------------
  // Monte Carlo: credit from the champions of each trial
  // ---------------------------------------------------------------------

  /** Each name of the list, in order, gains `credit` (a missing name starts from zero). */
  function AddCredit(m: Shares, names: seq<string>, credit: real): Shares {
    if names == [] then m
    else
      var before := AddCredit(m, names[..|names| - 1], credit);
      var name := names[|names| - 1];
      before[name := Get(before, name) + credit]
  }

  /** The trials that produced at least one champion. */
  function ValidTrials(trials: seq<seq<string>>): nat {
    if trials == [] then 0
    else ValidTrials(trials[..|trials| - 1]) + if trials[|trials| - 1] == [] then 0 else 1
  }

  /** Each trial with k champions gives each of them 1/k; a trial without champions is skipped. */
  function Credits(trials: seq<seq<string>>): Shares {
    if trials == [] then map[]
    else
      var before := Credits(trials[..|trials| - 1]);
      var champions := trials[|trials| - 1];
      if champions == [] then before else AddCredit(before, champions, 1.0 / |champions| as real)
  }

  /** Everyone who was champion in some trial. */
  function TrialChampions(trials: seq<seq<string>>): set<string> {
    set t, i | 0 <= t < |trials| && 0 <= i < |trials[t]| :: trials[t][i]
  }

  /** Each credit is divided by the valid trials and scaled to a percentage. */
  function Normalised(m: Shares, valid: nat): Shares
    requires valid > 0
  {
    map n | n in m :: m[n] / valid as real * 100.0
  }

  /** Each team's name set to zero. */
  function ZeroAll(m: Shares, rs: seq<TeamRecord>): (r: Shares)
    ensures r.Keys == m.Keys + Names(rs)
  {
    if rs == [] then m
    else
      NamesSnoc(rs);
      ZeroAll(m, rs[..|rs| - 1])[rs[|rs| - 1].name := 0.0]
  }

  function MonteCarloShares(rs: seq<TeamRecord>, trials: seq<seq<string>>): Shares {
    var credits := Credits(trials);
    var valid := ValidTrials(trials);
    if valid > 0 then Normalised(credits, valid) else ZeroAll(credits, rs)
  }

  lemma {:induction false} AddCreditSum(m: Shares, names: seq<string>, credit: real)
    ensures MapSum(AddCredit(m, names, credit)) == MapSum(m) + Repeat(credit, |names|)
  {
    if names != [] {
      var before := AddCredit(m, names[..|names| - 1], credit);
      var name := names[|names| - 1];
      AddCreditSum(m, names[..|names| - 1], credit);
      MapSumUpdate(before, name, Get(before, name) + credit);
    }
  }

  lemma {:induction false} AddCreditKeys(m: Shares, names: seq<string>, credit: real)
    ensures AddCredit(m, names, credit).Keys == m.Keys + set n | n in names
  {
    if names != [] {
      AddCreditKeys(m, names[..|names| - 1], credit);
    }
  }

  lemma {:induction false} AddCreditPositive(m: Shares, names: seq<string>, credit: real)
    requires credit > 0.0 && forall n :: n in m ==> m[n] > 0.0
    ensures forall n :: n in AddCredit(m, names, credit) ==> AddCredit(m, names, credit)[n] > 0.0
  {
    if names != [] {
      AddCreditPositive(m, names[..|names| - 1], credit);
    }
  }

  /** Every valid trial hands out exactly one unit of credit, so the credits add up to the valid trials. */
  lemma {:induction false} CreditsTotal(trials: seq<seq<string>>)
    ensures MapSum(Credits(trials)) == ValidTrials(trials) as real
  {
    if trials != [] {
      var front := trials[..|trials| - 1];
      var champions := trials[|trials| - 1];
      CreditsTotal(front);
      if champions != [] {
        AddCreditSum(Credits(front), champions, 1.0 / |champions| as real);
        EqualParts(1.0, |champions|);
      }
    } else {
      assert Credits(trials) == map[];
    }
  }

  /** Only positive credit is ever handed out. */
  lemma {:induction false} CreditsPositive(trials: seq<seq<string>>)
    ensures forall n :: n in Credits(trials) ==> Credits(trials)[n] > 0.0
  {
    if trials != [] {
      var front := trials[..|trials| - 1];
      var champions := trials[|trials| - 1];
      CreditsPositive(front);
      if champions != [] {
        AddCreditPositive(Credits(front), champions, 1.0 / |champions| as real);
      }
    }
  }

  /** The credited names are exactly the champions of the trials. */
  lemma {:induction false} CreditsKeys(trials: seq<seq<string>>)
    ensures Credits(trials).Keys == TrialChampions(trials)
  {
    if trials != [] {
      var front := trials[..|trials| - 1];
      var champions := trials[|trials| - 1];
      CreditsKeys(front);
      if champions != [] {
        AddCreditKeys(Credits(front), champions, 1.0 / |champions| as real);
      }
      forall n | n in TrialChampions(trials)
        ensures n in TrialChampions(front) || n in champions
      {
        var t, i :| 0 <= t < |trials| && 0 <= i < |trials[t]| && trials[t][i] == n;
        if t < |front| {
          assert front[t][i] == n;
        }
      }
      forall n | n in TrialChampions(front) || n in champions
        ensures n in TrialChampions(trials)
      {
        if n in champions {
          var i :| 0 <= i < |champions| && champions[i] == n;
          assert trials[|trials| - 1][i] == n;
        } else {
          var t, i :| 0 <= t < |front| && 0 <= i < |front[t]| && front[t][i] == n;
          assert trials[t][i] == n;
        }
      }
    }
  }

  lemma PercentBounds(credit: real, valid: nat)
    requires valid > 0 && 0.0 < credit <= valid as real
    ensures 0.0 < credit / valid as real * 100.0 <= 100.0
  {
  }

  lemma {:induction false} ZeroAllValues(m: Shares, rs: seq<TeamRecord>, n: string)
    requires n in ZeroAll(m, rs)
    ensures ZeroAll(m, rs)[n] == if n in Names(rs) then 0.0 else m[n]
  {
    if rs != [] {
      NamesSnoc(rs);
      if n != rs[|rs| - 1].name {
        ZeroAllValues(m, rs[..|rs| - 1], n);
      }
    }
  }

  /**
   * The Monte Carlo table: with at least one valid trial, it names exactly
   * the trial champions, each with its credit over the valid trials as a
   * percentage in (0, 100]; with none, every team has 0.
   */
  lemma MonteCarloEffect(rs: seq<TeamRecord>, trials: seq<seq<string>>, n: string)
    ensures ValidTrials(trials) > 0 ==>
      && MonteCarloShares(rs, trials).Keys == TrialChampions(trials)
      && (n in TrialChampions(trials) ==>
            && MonteCarloShares(rs, trials)[n] == Credits(trials)[n] / ValidTrials(trials) as real * 100.0
            && 0.0 < MonteCarloShares(rs, trials)[n] <= 100.0)
    ensures ValidTrials(trials) == 0 ==>
      MonteCarloShares(rs, trials).Keys == Names(rs) && (n in Names(rs) ==> MonteCarloShares(rs, trials)[n] == 0.0)
  {
    CreditsTotal(trials);
    CreditsPositive(trials);
    CreditsKeys(trials);
    var credits := Credits(trials);
    if ValidTrials(trials) > 0 {
      if n in credits {
        MapSumBoundsValues(credits, n);
        PercentBounds(credits[n], ValidTrials(trials));
      }
    } else {
      assert credits == map[] by {
        if credits != map[] {
          var k :| k in credits;
          MapSumBoundsValues(credits, k);
        }
      }
      if n in Names(rs) {
        ZeroAllValues(credits, rs, n);
      }
    }
  }
  // ---------------------------------------------------------------------
  // The whole table
  // ---------------------------------------------------------------------

  /** The cold-start branch divides by the total base strength, which must then be nonzero. */
  predicate ColdStartDefined(week: int, rs: seq<TeamRecord>) {
    rs != [] && week == 0 && !LeaderUnreachable(rs) ==> TotalBase(rs) != 0
  }

  /** The championship table for the given week and standings, with the branches in the source's order. */
  function Probabilities(week: int, rs: seq<TeamRecord>, trials: seq<seq<string>>): Shares
    requires ColdStartDefined(week, rs)
  {
    if rs == [] then map[]
    else if week > SeasonWeeks then SeasonOverShares(rs)
    else if LeaderUnreachable(rs) then CertainShares(rs, rs[0].name)
    else if week == 0 then ColdStartShares(rs, TotalBase(rs))
    else MonteCarloShares(rs, trials)
  }

  lemma {:induction false} ColdStartValues(rs: seq<TeamRecord>, total: int, n: string)
    requires total != 0 && n in ColdStartShares(rs, total)
    ensures exists i ::
              && 0 <= i < |rs| && rs[i].name == n
              && ColdStartShares(rs, total)[n] == BaseShare(rs[i].baseStrength, total)
  {
    var last := rs[|rs| - 1];
    if n != last.name {
      ColdStartValues(rs[..|rs| - 1], total, n);
      var i :| 0 <= i < |rs| - 1 && rs[..|rs| - 1][i].name == n &&
        ColdStartShares(rs[..|rs| - 1], total)[n] == BaseShare(rs[..|rs| - 1][i].baseStrength, total);
      assert rs[i] == rs[..|rs| - 1][i];
    }
  }

  lemma {:induction false} BaseWithinTotal(rs: seq<TeamRecord>, i: int)
    requires forall j :: 0 <= j < |rs| ==> rs[j].baseStrength >= 0
    requires 0 <= i < |rs|
    ensures rs[i].baseStrength <= TotalBase(rs)
  {
    var front := rs[..|rs| - 1];
    assert forall j :: 0 <= j < |front| ==> front[j] == rs[j];
    TotalBaseNonNegative(front);
    if i < |rs| - 1 {
      BaseWithinTotal(front, i);
    }
  }

  lemma {:induction false} TotalBaseNonNegative(rs: seq<TeamRecord>)
    requires forall j :: 0 <= j < |rs| ==> rs[j].baseStrength >= 0
    ensures TotalBase(rs) >= 0
  {
    if rs != [] {
      var front := rs[..|rs| - 1];
      assert forall j :: 0 <= j < |front| ==> front[j] == rs[j];
      TotalBaseNonNegative(front);
    }
  }

  lemma PercentOfTotal(base: int, total: int)
    requires 0 <= base <= total && total != 0
    ensures 0.0 <= BaseShare(base, total) <= 100.0
  {
    var q := base as real / total as real;
    assert 0.0 <= q <= 1.0;
  }

  lemma ShareAtMostWhole(k: nat)
    requires k > 0
    ensures 0.0 < 100.0 / k as real <= 100.0
  {
  }

  /**
   * Every entry of the table is a percentage between 0 and 100, whichever
   * branch produced it (base strengths are taken to be non-negative).
   */
  lemma ProbabilitiesArePercentages(week: int, rs: seq<TeamRecord>, trials: seq<seq<string>>, n: string)
    requires ColdStartDefined(week, rs)
    requires forall j :: 0 <= j < |rs| ==> rs[j].baseStrength >= 0
    requires n in Probabilities(week, rs, trials)
    ensures 0.0 <= Probabilities(week, rs, trials)[n] <= 100.0
  {
    if week > SeasonWeeks {
      SeasonOverEffect(rs, n);
      if n in Champions(rs) {
        ShareAtMostWhole(|Champions(rs)|);
      }
    } else if LeaderUnreachable(rs) {
      CertainEffect(rs, rs[0].name);
    } else if week == 0 {
      var total := TotalBase(rs);
      ColdStartValues(rs, total, n);
      var i :| 0 <= i < |rs| && rs[i].name == n &&
        ColdStartShares(rs, total)[n] == BaseShare(rs[i].baseStrength, total);
      BaseWithinTotal(rs, i);
      PercentOfTotal(rs[i].baseStrength, total);
    } else {
      MonteCarloEffect(rs, trials, n);
      CreditsKeys(trials);
    }
  }

  /** Apart from a Monte Carlo run with a valid trial, the table names exactly the teams. */
  lemma ProbabilitiesCoverTeams(week: int, rs: seq<TeamRecord>, trials: seq<seq<string>>)
    requires ColdStartDefined(week, rs)
    ensures rs == [] || week > SeasonWeeks || LeaderUnreachable(rs) || week == 0 || ValidTrials(trials) == 0 ==>
      Probabilities(week, rs, trials).Keys == Names(rs)
  {
    if rs != [] && week <= SeasonWeeks && !LeaderUnreachable(rs) && week != 0 {
      MonteCarloEffect(rs, trials, "");
    } else if rs != [] && week > SeasonWeeks {
      SeasonOverEffect(rs, "");
    }
  }

  // ---------------------------------------------------------------------
  // The computation, loop by loop
  // ---------------------------------------------------------------------

  /** The most points of any team, starting from -1. */
  method FindTopPoints(rs: seq<TeamRecord>) returns (top: int)
    ensures top == TopPoints(rs)
  {
    top := -1;
    for i := 0 to |rs|
      invariant top == TopPoints(rs[..i])
    {
      assert rs[..i + 1][..i] == rs[..i];
      if rs[i].points > top {
        top := rs[i].points;
      }
    }
    assert rs[..|rs|] == rs;
  }

  /** The champion scan: among the teams on `top` points, those with the best goal difference, in list order. */
  method FindChampions(rs: seq<TeamRecord>, top: int) returns (champions: seq<string>)
    ensures champions == Leaders(rs, top, BestGoalDifference(rs, top))
  {
    var best := NoGoalDifference;
    champions := [];
    for i := 0 to |rs|
      invariant (best, champions) == ChampionScan(rs[..i], top)
    {
      assert rs[..i + 1][..i] == rs[..i];
      if rs[i].points == top {
        if rs[i].goalDifference > best {
          best := rs[i].goalDifference;
          champions := [rs[i].name];
        } else if rs[i].goalDifference == best {
          champions := champions + [rs[i].name];
        }
      }
    }
    assert rs[..|rs|] == rs;
    ChampionScanIsLeaders(rs, top);
  }

  /** 100/k for each of the k champions. */
  method ShareAmong(champions: seq<string>) returns (counts: Shares)
    ensures counts == ChampionShares(champions)
  {
    counts := map[];
    for i := 0 to |champions|
      invariant counts == if i == 0 then map[] else SetAll(map[], champions[..i], 100.0 / |champions| as real)
    {
      assert champions[..i + 1][..i] == champions[..i];
      counts := counts[champions[i] := 100.0 / |champions| as real];
    }
    assert champions[..|champions|] == champions;
  }

  /** Every team whose name reads as zero is given an explicit zero. */
  method ZeroUnsetTable(shares: Shares, rs: seq<TeamRecord>) returns (counts: Shares)
    ensures counts == ZeroUnset(shares, rs)
  {
    counts := shares;
    for i := 0 to |rs|
      invariant counts == ZeroUnset(shares, rs[..i])
    {
      assert rs[..i + 1][..i] == rs[..i];
      if Get(counts, rs[i].name) == 0.0 {
        counts := counts[rs[i].name := 0.0];
      }
    }
    assert rs[..|rs|] == rs;
  }

  /** After the season: 100/k for each of the k champions, then 0 for every team not yet set. */
  method SeasonOverTable(rs: seq<TeamRecord>) returns (counts: Shares)
    ensures counts == SeasonOverShares(rs)
  {
    var top := FindTopPoints(rs);
    var champions := FindChampions(rs, top);
    var shares := ShareAmong(champions);
    counts := ZeroUnsetTable(shares, rs);
  }

  /** Each team's current points and reachable points, keyed by name. */
  method TabulateByName(rs: seq<TeamRecord>) returns (current: map<string, int>, ceiling: map<string, int>)
    ensures current == PointsByName(rs) && ceiling == CeilingByName(rs)
  {
    current := map[];
    ceiling := map[];
    for i := 0 to |rs|
      invariant current == PointsByName(rs[..i]) && ceiling == CeilingByName(rs[..i])
    {
      assert rs[..i + 1][..i] == rs[..i];
      current := current[rs[i].name := rs[i].points];
      ceiling := ceiling[rs[i].name := Ceiling(rs[i])];
    }
    assert rs[..|rs|] == rs;
  }

  /** The certainty test: no team after the first, by name, can reach the first team's current points. */
  method CheckLeaderUnreachable(rs: seq<TeamRecord>) returns (unreachable: bool)
    requires rs != []
    ensures unreachable == LeaderUnreachable(rs)
  {
    var current, ceiling := TabulateByName(rs);
    var leader := rs[0];
    unreachable := true;
    var j := 1;
    while j < |rs|
      invariant 1 <= j <= |rs|
      invariant unreachable == forall k :: 1 <= k < j ==> ceiling[rs[k].name] < current[leader.name]
      invariant !unreachable ==> !LeaderUnreachable(rs)
      decreases |rs| - j, unreachable
    {
      if ceiling[rs[j].name] >= current[leader.name] {
        unreachable := false;
        break;
      }
      j := j + 1;
    }
  }

  /** 100 for the leader's name, 0 for every other team. */
  method CertainTable(rs: seq<TeamRecord>, leader: string) returns (counts: Shares)
    ensures counts == CertainShares(rs, leader)
  {
    counts := map[];
    for i := 0 to |rs|
      invariant counts == CertainShares(rs[..i], leader)
    {
      assert rs[..i + 1][..i] == rs[..i];
      if rs[i].name == leader {
        counts := counts[rs[i].name := 100.0];
      } else {
        counts := counts[rs[i].name := 0.0];
      }
    }
    assert rs[..|rs|] == rs;
  }

  /** The sum of the base strengths. */
  method SumBase(rs: seq<TeamRecord>) returns (total: int)
    ensures total == TotalBase(rs)
  {
    total := 0;
    for i := 0 to |rs|
      invariant total == TotalBase(rs[..i])
    {
      assert rs[..i + 1][..i] == rs[..i];
      total := total + rs[i].baseStrength;
    }
    assert rs[..|rs|] == rs;
  }

  /** Each team's base strength as a percentage of the total. */
  method ColdStartTable(rs: seq<TeamRecord>, total: int) returns (counts: Shares)
    requires total != 0
    ensures counts == ColdStartShares(rs, total)
  {
    counts := map[];
    for i := 0 to |rs|
      invariant counts == ColdStartShares(rs[..i], total)
    {
      assert rs[..i + 1][..i] == rs[..i];
      counts := counts[rs[i].name := rs[i].baseStrength as real / total as real * 100.0];
    }
    assert rs[..|rs|] == rs;
  }

  /** Credit from each trial with champions: 1/k for each of its k champions; the valid trials are counted. */
  method CollectCredits(trials: seq<seq<string>>) returns (counts: Shares, valid: nat)
    ensures counts == Credits(trials) && valid == ValidTrials(trials)
  {
    counts := map[];
    valid := 0;
    for s := 0 to |trials|
      invariant counts == Credits(trials[..s]) && valid == ValidTrials(trials[..s])
    {
      assert trials[..s + 1][..s] == trials[..s];
      var champions := trials[s];
      if champions == [] {
        continue;
      }
      ghost var before := counts;
      for c := 0 to |champions|
        invariant counts == AddCredit(before, champions[..c], 1.0 / |champions| as real)
      {
        assert champions[..c + 1][..c] == champions[..c];
        counts := counts[champions[c] := Get(counts, champions[c]) + 1.0 / |champions| as real];
      }
      assert champions[..|champions|] == champions;
      valid := valid + 1;
    }
    assert trials[..|trials|] == trials;
  }

  /** Every credit divided by the valid trials and scaled to a percentage, visiting the names in any order. */
  method Normalise(counts: Shares, valid: nat) returns (result: Shares)
    requires valid > 0
    ensures result == Normalised(counts, valid)
  {
    result := counts;
    var pending := counts.Keys;
    while pending != {}
      invariant pending <= counts.Keys && result.Keys == counts.Keys
      invariant forall n :: n in pending ==> result[n] == counts[n]
      invariant forall n :: n in counts && n !in pending ==> result[n] == counts[n] / valid as real * 100.0
      decreases pending
    {
      var name :| name in pending;
      result := result[name := result[name] / valid as real * 100.0];
      pending := pending - {name};
    }
  }

  /** Every team's name set to zero. */
  method ZeroTable(counts: Shares, rs: seq<TeamRecord>) returns (result: Shares)
    ensures result == ZeroAll(counts, rs)
  {
    result := counts;
    for i := 0 to |rs|
      invariant result == ZeroAll(counts, rs[..i])
    {
      assert rs[..i + 1][..i] == rs[..i];
      result := result[rs[i].name := 0.0];
    }
    assert rs[..|rs|] == rs;
  }

  /** The championship table, branch by branch as the source computes it. */
  method ChampionshipProbabilities(week: int, rs: seq<TeamRecord>, trials: seq<seq<string>>) returns (counts: Shares)
    requires ColdStartDefined(week, rs)
    ensures counts == Probabilities(week, rs, trials)
  {
    if rs == [] {
      return map[];
    }
    if week > SeasonWeeks {
      counts := SeasonOverTable(rs);
      return;
    }
    var unreachable := CheckLeaderUnreachable(rs);
    if unreachable {
      counts := CertainTable(rs, rs[0].name);
      return;
    }
    if week == 0 {
      var total := SumBase(rs);
      counts := ColdStartTable(rs, total);
      return;
    }
    var credits, valid := CollectCredits(trials);
    if valid > 0 {
      counts := Normalise(credits, valid);
    } else {
      counts := ZeroTable(credits, rs);
    }
  }
}
