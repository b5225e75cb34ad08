/**
 * A team's cumulative record: the W/D/L and goal counters, the five-slot
 * form window (most recent result first) and the form-weighted strength.
 * `TeamRecord` is the value view used by the specifications and by the
 * Monte Carlo copies; `Team` is the object whose fields the season mutates.
 */
module TeamState {

  /** Result codes pushed onto the form window. */
  const Win: string := "W"
  const Drawn: string := "D"
  const Loss: string := "L"

  /** Points for a win and for a draw. */
  const WinPoints: int := 3
  const DrawPoints: int := 1

  /**
   * The form window: five result codes, most recent first. Every team the
   * program creates starts with five empty slots (new league, load from the
   * database, Monte Carlo copy), and a result keeps the length at five.
   */
  type FormWindow = f: seq<string> | |f| == 5 witness ["", "", "", "", ""]

  datatype TeamRecord = TeamRecord(
    name: string,
    played: int,
    won: int,
    drawn: int,
    lost: int,
    goalsFor: int,
    goalsAgainst: int,
    goalDifference: int,
    points: int,
    baseStrength: int,
    currentStrength: int,
    form: FormWindow)

  /** The eight cumulative counters, without name, strengths and form. */
  datatype Counters = Counters(
    played: int, won: int, drawn: int, lost: int,
    goalsFor: int, goalsAgainst: int, goalDifference: int, points: int)

  function CountersOf(r: TeamRecord): Counters {
    Counters(r.played, r.won, r.drawn, r.lost, r.goalsFor, r.goalsAgainst, r.goalDifference, r.points)
  }

  const ZeroCounters: Counters := Counters(0, 0, 0, 0, 0, 0, 0, 0)

  /** The bookkeeping identities every team record is meant to satisfy. */
  predicate Consistent(r: TeamRecord) {
    && r.played == r.won + r.drawn + r.lost
    && r.goalDifference == r.goalsFor - r.goalsAgainst
    && r.points == WinPoints * r.won + DrawPoints * r.drawn
  }

  function ResultCode(goalsFor: int, goalsAgainst: int): string {
    if goalsFor > goalsAgainst then Win
    else if goalsFor == goalsAgainst then Drawn
    else Loss
  }

  function PointsFor(goalsFor: int, goalsAgainst: int): int {
    if goalsFor > goalsAgainst then WinPoints
    else if goalsFor == goalsAgainst then DrawPoints
    else 0
  }

  // ---------------------------------------------------------------------
  // Form-weighted strength
  // ---------------------------------------------------------------------

  /** +1 for a win, -1 for a loss, 0 for a draw, an empty slot or anything else. */
  function FormValue(code: string): int {
    if code == Win then 1 else if code == Loss then -1 else 0
  }

  /**
   * The weighted form score of the first n entries: entry i weighs 5 - i.
   * Weight (5-i)/15 times 0.05 is (5-i)/300, so the multiplier is 1 + score/300.
   */
  function FormScorePrefix(form: seq<string>, n: nat): int
    requires n <= |form|
  {
    if n == 0 then 0
    else FormScorePrefix(form, n - 1) + (5 - (n - 1)) * FormValue(form[n - 1])
  }

  function FormScore(form: seq<string>): int {
    FormScorePrefix(form, |form|)
  }

  function Multiplier(form: seq<string>): real {
    1.0 + FormScore(form) as real / 300.0
  }

  /** Go's int(x) on a float: truncation toward zero. */
  function Truncate(x: real): int {
    if x >= 0.0 then x.Floor else -((-x).Floor)
  }

  /** int(float64(base) * m): the base strength scaled and truncated. */
  function Scaled(base: int, m: real): int {
    Truncate(base as real * m)
  }

  function MinStrength(base: int): int { Scaled(base, 0.85) }
  function MaxStrength(base: int): int { Scaled(base, 1.15) }

  /** The strength a team of base strength `base` has with form `form`. */
  function FormStrength(base: int, form: seq<string>): int {
    Clamp(base, Scaled(base, Multiplier(form)))
  }

  /** The ±15% cap on a raw strength. */
  function Clamp(base: int, raw: int): int {
    if raw < MinStrength(base) then MinStrength(base)
    else if raw > MaxStrength(base) then MaxStrength(base)
    else raw
  }

  /** The form multiplier, accumulated entry by entry. */
  method FormMultiplier(form: seq<string>) returns (m: real)
    ensures m == Multiplier(form)
  {
    m := 1.0;
    for i := 0 to |form|
      invariant m == 1.0 + FormScorePrefix(form, i) as real / 300.0
    {
      var weight := (5 - i) as real / 15.0;
      if form[i] == Win {
        m := m + 0.05 * weight;
      } else if form[i] == Loss {
        m := m - 0.05 * weight;
      }
    }
  }

  /** The largest possible |score| of the first n slots. */
  function WeightTotal(n: nat): int {
    if n == 0 then 0 else WeightTotal(n - 1) + (5 - (n - 1))
  }

  lemma {:induction false} FormScorePrefixBounded(form: seq<string>, n: nat)
    requires n <= |form| && n <= 5
    ensures -WeightTotal(n) <= FormScorePrefix(form, n) <= WeightTotal(n)
  {
    if n > 0 {
      FormScorePrefixBounded(form, n - 1);
    }
  }

  /** With at most five slots the score lies in [-15, 15], so the multiplier in [0.95, 1.05]. */
  lemma FormScoreBounded(form: seq<string>)
    requires |form| <= 5
    ensures -15 <= FormScore(form) <= 15
    ensures 0.95 <= Multiplier(form) <= 1.05
  {
    FormScorePrefixBounded(form, |form|);
    assert WeightTotal(5) == 15;
    WeightTotalMonotone(|form|, 5);
  }

  lemma {:induction false} WeightTotalMonotone(m: nat, n: nat)
    requires m <= n <= 5
    ensures 0 <= WeightTotal(m) <= WeightTotal(n)
  {
    if m < n {
      WeightTotalMonotone(m, n - 1);
    } else if m > 0 {
      WeightTotalMonotone(m - 1, m - 1);
    }
  }

  lemma ScaleMonotone(a: real, b: real, c: real)
    requires a >= 0.0 && b <= c
    ensures a * b <= a * c
  {
  }

  lemma TruncateMonotone(x: real, y: real)
    requires 0.0 <= x <= y
    ensures 0 <= Truncate(x) <= Truncate(y)
  {
  }

  /** The clamp keeps the strength within [int(0.85 base), int(1.15 base)]. */
  lemma StrengthWithinBounds(base: int, form: seq<string>)
    requires base >= 0
    ensures MinStrength(base) <= FormStrength(base, form) <= MaxStrength(base)
  {
    TruncateMonotone(base as real * 0.85, base as real * 1.15);
  }

  /** A form with no W and no L entry leaves the strength at its base. */
  lemma {:induction false} NeutralFormScore(form: seq<string>, n: nat)
    requires n <= |form|
    requires forall i :: 0 <= i < |form| ==> form[i] != Win && form[i] != Loss
    ensures FormScorePrefix(form, n) == 0
  {
    if n > 0 {
      NeutralFormScore(form, n - 1);
    }
  }

  lemma NeutralFormKeepsBase(base: int, form: seq<string>)
    requires base >= 0
    requires forall i :: 0 <= i < |form| ==> form[i] != Win && form[i] != Loss
    ensures FormStrength(base, form) == base
  {
    NeutralFormScore(form, |form|);
    assert Multiplier(form) == 1.0;
    TruncateMonotone(base as real * 0.85, base as real);
    TruncateMonotone(base as real, base as real * 1.15);
  }

  /**
   * With the five-slot window the clamp never fires: the multiplier stays in
   * [0.95, 1.05], strictly inside the [0.85, 1.15] band.
   */
  lemma ClampInactive(base: int, form: seq<string>)
    requires base >= 0 && |form| <= 5
    ensures FormStrength(base, form) == Scaled(base, Multiplier(form))
  {
    FormScoreBounded(form);
    var x := base as real * Multiplier(form);
    ScaleMonotone(base as real, 0.85, Multiplier(form));
    ScaleMonotone(base as real, Multiplier(form), 1.15);
    TruncateMonotone(base as real * 0.85, x);
    TruncateMonotone(x, base as real * 1.15);
  }

  // ---------------------------------------------------------------------
  // Applying, undoing and clearing results
  // ---------------------------------------------------------------------

  /**
   * The counters and the form after one match with score goalsFor-goalsAgainst:
   * the result code is pushed to the front of the form and the oldest entry
   * drops off; the strength is not yet recomputed.
   */
  function AddResult(r: TeamRecord, goalsFor: int, goalsAgainst: int): TeamRecord {
    var gf := r.goalsFor + goalsFor;
    var ga := r.goalsAgainst + goalsAgainst;
    var won := if goalsFor > goalsAgainst then r.won + 1 else r.won;
    var drawn := if goalsFor == goalsAgainst then r.drawn + 1 else r.drawn;
    var lost := if goalsFor < goalsAgainst then r.lost + 1 else r.lost;
    r.(goalsFor := gf, goalsAgainst := ga, goalDifference := gf - ga,
       won := won, drawn := drawn, lost := lost,
       points := r.points + PointsFor(goalsFor, goalsAgainst),
       played := won + drawn + lost,
       form := [ResultCode(goalsFor, goalsAgainst)] + r.form[..4])
  }

  /** The strength recomputed from the base strength and the form. */
  function Restrengthen(r: TeamRecord): TeamRecord {
    r.(currentStrength := FormStrength(r.baseStrength, r.form))
  }

  /** The record after one match: counters and form updated, then the strength recomputed. */
  function ApplyResult(r: TeamRecord, goalsFor: int, goalsAgainst: int): TeamRecord {
    Restrengthen(AddResult(r, goalsFor, goalsAgainst))
  }

  /** Undo of the counters only: form and strength are left as they are. */
  function ReverseResult(r: TeamRecord, goalsFor: int, goalsAgainst: int): TeamRecord {
    var gf := r.goalsFor - goalsFor;
    var ga := r.goalsAgainst - goalsAgainst;
    var won := if goalsFor > goalsAgainst then r.won - 1 else r.won;
    var drawn := if goalsFor == goalsAgainst then r.drawn - 1 else r.drawn;
    var lost := if goalsFor < goalsAgainst then r.lost - 1 else r.lost;
    r.(goalsFor := gf, goalsAgainst := ga, goalDifference := gf - ga,
       won := won, drawn := drawn, lost := lost,
       points := r.points - PointsFor(goalsFor, goalsAgainst),
       played := won + drawn + lost)
  }

  /** Zeroes the eight counters; name, strengths and form are kept. */
  function ResetStats(r: TeamRecord): TeamRecord {
    r.(played := 0, won := 0, drawn := 0, lost := 0,
       goalsFor := 0, goalsAgainst := 0, goalDifference := 0, points := 0)
  }

  /** What one result does to a record. */
  lemma ApplyResultEffect(r: TeamRecord, goalsFor: int, goalsAgainst: int)
    ensures var r' := ApplyResult(r, goalsFor, goalsAgainst);
      && r'.played == r'.won + r'.drawn + r'.lost
      && r'.goalDifference == r'.goalsFor - r'.goalsAgainst
      && r'.goalsFor == r.goalsFor + goalsFor
      && r'.goalsAgainst == r.goalsAgainst + goalsAgainst
      && r'.won + r'.drawn + r'.lost == r.won + r.drawn + r.lost + 1
      && (goalsFor > goalsAgainst ==> r'.won == r.won + 1 && r'.drawn == r.drawn && r'.lost == r.lost && r'.points == r.points + 3)
      && (goalsFor == goalsAgainst ==> r'.drawn == r.drawn + 1 && r'.won == r.won && r'.lost == r.lost && r'.points == r.points + 1)
      && (goalsFor < goalsAgainst ==> r'.lost == r.lost + 1 && r'.won == r.won && r'.drawn == r.drawn && r'.points == r.points)
      && r'.form[0] == ResultCode(goalsFor, goalsAgainst)
      && r'.form[1..] == r.form[..4]
      && r'.name == r.name && r'.baseStrength == r.baseStrength
      && r'.currentStrength == FormStrength(r.baseStrength, r'.form)
      && (Consistent(r) ==> Consistent(r') && r'.played == r.played + 1)
  {
  }

  /** Undoing a result restores every counter, but not the form or the strength. */
  lemma ReverseUndoesApply(r: TeamRecord, goalsFor: int, goalsAgainst: int)
    requires r.played == r.won + r.drawn + r.lost
    requires r.goalDifference == r.goalsFor - r.goalsAgainst
    ensures var back := ReverseResult(ApplyResult(r, goalsFor, goalsAgainst), goalsFor, goalsAgainst);
      && CountersOf(back) == CountersOf(r)
      && back.form == ApplyResult(r, goalsFor, goalsAgainst).form
      && back.currentStrength == ApplyResult(r, goalsFor, goalsAgainst).currentStrength
  {
  }

  /** The undo is not a full inverse: a fresh win leaves "W" at the head of the form. */
  lemma ReverseKeepsForm(r: TeamRecord)
    requires r.form[0] == ""
    ensures ReverseResult(ApplyResult(r, 1, 0), 1, 0).form != r.form
  {
    assert ReverseResult(ApplyResult(r, 1, 0), 1, 0).form[0] == Win;
  }

  lemma ResetStatsEffect(r: TeamRecord)
    ensures CountersOf(ResetStats(r)) == ZeroCounters
    ensures Consistent(ResetStats(r))
    ensures ResetStats(r).name == r.name && ResetStats(r).form == r.form
    ensures ResetStats(r).baseStrength == r.baseStrength
    ensures ResetStats(r).currentStrength == r.currentStrength
    ensures ResetStats(ResetStats(r)) == ResetStats(r)
  {
  }

  /** A freshly created league team: zero counters, strength at base, five empty form slots. */
  function NewRecord(name: string, baseStrength: int): TeamRecord {
    TeamRecord(name, 0, 0, 0, 0, 0, 0, 0, 0, baseStrength, baseStrength, ["", "", "", "", ""])
  }

  // ---------------------------------------------------------------------
  // The mutable team
  // ---------------------------------------------------------------------

  class Team {
    var name: string
    var played: int
    var won: int
    var drawn: int
    var lost: int
    var goalsFor: int
    var goalsAgainst: int
    var goalDifference: int
    var points: int
    var baseStrength: int
    var currentStrength: int
    var form: FormWindow

    function Record(): TeamRecord
      reads this
    {
      TeamRecord(name, played, won, drawn, lost, goalsFor, goalsAgainst,
                 goalDifference, points, baseStrength, currentStrength, form)
    }

    /** The team as the league creates it from a catalogue entry with an empty form string. */
    constructor (name: string, baseStrength: int)
      ensures Record() == NewRecord(name, baseStrength)
    {
      this.name := name;
      this.baseStrength := baseStrength;
      this.currentStrength := baseStrength;
      this.form := ["", "", "", "", ""];
      played, won, drawn, lost := 0, 0, 0, 0;
      goalsFor, goalsAgainst, goalDifference, points := 0, 0, 0, 0;
    }

    method UpdateTeamStrength()
      modifies this`currentStrength
      ensures Record() == Restrengthen(old(Record()))
    {
      currentStrength := baseStrength;
      var multiplier := FormMultiplier(form);
      var raw := Scaled(baseStrength, multiplier);
      var minStrength := MinStrength(baseStrength);
      var maxStrength := MaxStrength(baseStrength);
      if raw < minStrength {
        raw := minStrength;
      } else if raw > maxStrength {
        raw := maxStrength;
      }
      currentStrength := raw;
    }

    method UpdateTeamStats(goalsFor: int, goalsAgainst: int)
      modifies this
      ensures Record() == ApplyResult(old(Record()), goalsFor, goalsAgainst)
    {
      this.goalsFor := this.goalsFor + goalsFor;
      this.goalsAgainst := this.goalsAgainst + goalsAgainst;
      goalDifference := this.goalsFor - this.goalsAgainst;
      if goalsFor > goalsAgainst {
        won := won + 1;
        points := points + 3;
        form := [Win] + form[..4];
      } else if goalsFor == goalsAgainst {
        drawn := drawn + 1;
        points := points + 1;
        form := [Drawn] + form[..4];
      } else {
        lost := lost + 1;
        form := [Loss] + form[..4];
      }
      played := won + drawn + lost;
      assert Record() == AddResult(old(Record()), goalsFor, goalsAgainst);
      UpdateTeamStrength();
    }

    method ReverseTeamStats(goalsFor: int, goalsAgainst: int)
      modifies this
      ensures Record() == ReverseResult(old(Record()), goalsFor, goalsAgainst)
    {
      this.goalsFor := this.goalsFor - goalsFor;
      this.goalsAgainst := this.goalsAgainst - goalsAgainst;
      goalDifference := this.goalsFor - this.goalsAgainst;
      if goalsFor > goalsAgainst {
        won := won - 1;
        points := points - 3;
      } else if goalsFor == goalsAgainst {
        drawn := drawn - 1;
        points := points - 1;
      } else {
        lost := lost - 1;
      }
      played := won + drawn + lost;
    }

    method ResetTeamStats()
      modifies this
      ensures Record() == ResetStats(old(Record()))
    {
      played := 0;
      won := 0;
      drawn := 0;
      lost := 0;
      goalsFor := 0;
      goalsAgainst := 0;
      goalDifference := 0;
      points := 0;
    }
  }
}
