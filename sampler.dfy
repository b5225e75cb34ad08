/**
 * The match outcome sampler. The random source is passed in: `r` stands for
 * the uniform [0,1) draw, `first` and `second` for the raw integer draws that
 * the two Intn calls reduce into [0,n).
 */
module Sampler {

  datatype Draw = Draw(r: real, first: nat, second: nat)

  /** Width of the draw band above the home-win band. */
  const DrawBand: real := 0.2

  datatype Branch = HomeWin | Tie | AwayWin

  /** An injected integer draw reduced into [0, n), as Intn(n) returns. */
  function Intn(u: nat, n: nat): (k: nat)
    requires n > 0
    ensures k < n
  {
    u % n
  }

  /**
   * Which band `r` falls into. pHome is strengthHome / (strengthHome + strengthAway);
   * a zero total gives +Inf when the home strength is positive (home band),
   * and NaN or -Inf otherwise, where both comparisons are false (away band).
   */
  function ChooseBranch(strengthHome: int, strengthAway: int, r: real): Branch {
    var total := strengthHome + strengthAway;
    if total != 0 then
      var pHome := strengthHome as real / total as real;
      if r < pHome then HomeWin
      else if r < pHome + DrawBand then Tie
      else AwayWin
    else if strengthHome > 0 then HomeWin
    else AwayWin
  }

  /** The sampled (homeGoals, awayGoals) for the given strengths and draw. */
  function PredictMatchResult(strengthHome: int, strengthAway: int, d: Draw): (score: (int, int))
    ensures 0 <= score.0 <= 3 && 0 <= score.1 <= 3
  {
    match ChooseBranch(strengthHome, strengthAway, d.r)
    case HomeWin =>
      var homeGoals := Intn(d.first, 3) + 1;
      (homeGoals, Intn(d.second, homeGoals))
    case Tie =>
      var goals := Intn(d.first, 2);
      (goals, goals)
    case AwayWin =>
      var awayGoals := Intn(d.first, 3) + 1;
      (Intn(d.second, awayGoals), awayGoals)
  }

  /** Scores each branch can produce. */
  predicate InBranch(b: Branch, score: (int, int)) {
    match b
    case HomeWin => 1 <= score.0 <= 3 && 0 <= score.1 < score.0
    case Tie => score.0 == score.1 && 0 <= score.0 <= 1
    case AwayWin => 1 <= score.1 <= 3 && 0 <= score.0 < score.1
  }

  /** The score always lies in its branch, so the branch is read off the score. */
  lemma ScoreMatchesBranch(strengthHome: int, strengthAway: int, d: Draw)
    ensures var score := PredictMatchResult(strengthHome, strengthAway, d);
      && InBranch(ChooseBranch(strengthHome, strengthAway, d.r), score)
      && (score.0 > score.1 <==> ChooseBranch(strengthHome, strengthAway, d.r) == HomeWin)
      && (score.0 == score.1 <==> ChooseBranch(strengthHome, strengthAway, d.r) == Tie)
      && (score.0 < score.1 <==> ChooseBranch(strengthHome, strengthAway, d.r) == AwayWin)
  {
  }

  /** Every score of a branch is produced by some pair of integer draws. */
  lemma BranchScoresReachable(strengthHome: int, strengthAway: int, r: real, score: (int, int))
    requires InBranch(ChooseBranch(strengthHome, strengthAway, r), score)
    ensures exists first: nat, second: nat ::
      PredictMatchResult(strengthHome, strengthAway, Draw(r, first, second)) == score
  {
    var d := match ChooseBranch(strengthHome, strengthAway, r)
      case HomeWin => Draw(r, score.0 - 1, score.1)
      case Tie => Draw(r, score.0, 0)
      case AwayWin => Draw(r, score.1 - 1, score.0);
    assert PredictMatchResult(strengthHome, strengthAway, d) == score;
  }

  /**
   * With positive strengths the bands are [0, p), [p, p + 0.2) and the rest;
   * once p >= 0.8 (home at least four times as strong) no draw in [0,1) can
   * reach the away band, and the draw band is cut to [p, 1).
   */
  lemma BandsForPositiveStrengths(strengthHome: int, strengthAway: int, r: real)
    requires strengthHome > 0 && strengthAway > 0 && 0.0 <= r < 1.0
    ensures var p := strengthHome as real / (strengthHome + strengthAway) as real;
      && 0.0 < p < 1.0
      && (ChooseBranch(strengthHome, strengthAway, r) == HomeWin <==> r < p)
      && (ChooseBranch(strengthHome, strengthAway, r) == Tie <==> p <= r < p + DrawBand)
      && (strengthHome >= 4 * strengthAway ==> ChooseBranch(strengthHome, strengthAway, r) != AwayWin)
  {
    var total := (strengthHome + strengthAway) as real;
    var p := strengthHome as real / total;
    assert p * total == strengthHome as real;
    if strengthHome >= 4 * strengthAway {
      assert 5.0 * (strengthHome as real) >= 4.0 * total;
      assert p >= 0.8;
    }
  }
}
