/**
 * The pure helpers of the database layer: the form column written when a
 * team is saved and read back when standings are loaded, the three-letter
 * short names, the guard in front of a team save, and the grouping of the
 * loaded match rows into the eighteen weeks of a season. The queries
 * themselves are not modelled. Short names are cut from a name's UTF-8
 * bytes; form entries are taken one byte per character.
 */
module Persistence {
  import opened TeamState
  import opened Fixtures
  import GoalEntry

  // ---------------------------------------------------------------------
  // The form column
  // ---------------------------------------------------------------------

  /** The entries that hold a result code, in order. */
  function Results(form: seq<string>): (r: seq<string>)
    ensures |r| <= |form|
    ensures forall i :: 0 <= i < |r| ==> r[i] != ""
  {
    if form == [] then []
    else Results(form[..|form| - 1]) + if form[|form| - 1] == "" then [] else [form[|form| - 1]]
  }

  /** The parts joined with a comma between consecutive ones. */
  function CommaJoined(parts: seq<string>): string {
    if parts == [] then ""
    else if |parts| == 1 then parts[0]
    else CommaJoined(parts[..|parts| - 1]) + "," + parts[|parts| - 1]
  }

  lemma {:induction false} CommaJoinedEmpty(parts: seq<string>)
    requires forall i :: 0 <= i < |parts| ==> parts[i] != ""
    ensures CommaJoined(parts) == "" <==> parts == []
  {
    if |parts| > 1 {
      assert |CommaJoined(parts)| >= |parts[|parts| - 1]| > 0;
    }
  }

  /** One more entry of the form: a result code joins the list, an empty slot does not. */
  lemma ResultsStep(form: seq<string>, i: int)
    requires 0 <= i < |form|
    ensures Results(form[..i + 1]) == Results(form[..i]) + if form[i] == "" then [] else [form[i]]
  {
    assert form[..i + 1][..i] == form[..i];
  }

  /** Joining one more part: the part alone after nothing, otherwise after a comma. */
  lemma CommaJoinedStep(parts: seq<string>, f: string)
    ensures CommaJoined(parts + [f]) == if parts == [] then f else CommaJoined(parts) + "," + f
  {
    assert (parts + [f])[..|parts|] == parts;
  }

  /**
   * The form column as a team save writes it: the non-empty entries of the
   * form, in order, separated by commas; no results give the empty string.
   */
  method JoinForm(form: seq<string>) returns (s: string)
    ensures s == CommaJoined(Results(form))
  {
    s := "";
    for i := 0 to |form|
      invariant s == CommaJoined(Results(form[..i]))
    {
      ResultsStep(form, i);
      CommaJoinedEmpty(Results(form[..i]));
      CommaJoinedStep(Results(form[..i]), form[i]);
      var f := form[i];
      if f != "" {
        if i > 0 && s != "" {
          s := s + ",";
        }
        s := s + f;
      } else {
        assert Results(form[..i + 1]) == Results(form[..i]);
      }
    }
    assert form[..|form|] == form;
  }

  /** The form window as a load reads the column back: slot i holds the i-th character, if there is one. */
  function ParsedForm(s: string): FormWindow {
    seq(5, i requires 0 <= i < 5 => if i < |s| then [s[i]] else "")
  }

  /**
   * The column parsed into a five-slot window: slot i gets the i-th
   * character for the first five characters; slots past the end stay empty.
   */
  method ParseFormString(s: string) returns (form: FormWindow)
    ensures |form| == 5
    ensures forall i :: 0 <= i < 5 && i < |s| ==> form[i] == [s[i]]
    ensures forall i :: |s| <= i < 5 ==> form[i] == ""
  {
    var slots := new string[5](_ => "");
    if s == "" {
      return slots[..];
    }
    for i := 0 to |s|
      invariant slots.Length == 5
      invariant forall k :: 0 <= k < 5 && k < i ==> slots[k] == [s[k]]
      invariant forall k :: i <= k < 5 ==> slots[k] == ""
    {
      if i < 5 && i < |s| {
        slots[i] := [s[i]];
      }
    }
    form := slots[..];
  }

  /** A form window with single-character result codes. */
  predicate OneCharCodes(form: seq<string>) {
    forall i :: 0 <= i < |form| ==> |form[i]| <= 1
  }

  lemma {:induction false} ResultsOneChar(form: seq<string>)
    requires OneCharCodes(form)
    ensures forall i :: 0 <= i < |Results(form)| ==> |Results(form)[i]| == 1
  {
    if form != [] {
      ResultsOneChar(form[..|form| - 1]);
    }
  }

  /** Joining one-character codes puts code k at position 2k and a comma after each but the last. */
  lemma {:induction false} CommaJoinedLayout(parts: seq<string>)
    requires forall i :: 0 <= i < |parts| ==> |parts[i]| == 1
    ensures |CommaJoined(parts)| == if parts == [] then 0 else 2 * |parts| - 1
    ensures forall k :: 0 <= k < |parts| ==> CommaJoined(parts)[2 * k] == parts[k][0]
    ensures forall k :: 0 <= k < |parts| - 1 ==> CommaJoined(parts)[2 * k + 1] == ','
  {
    if |parts| > 1 {
      var front := parts[..|parts| - 1];
      CommaJoinedLayout(front);
      var j := CommaJoined(front);
      assert CommaJoined(parts) == j + "," + parts[|parts| - 1];
      forall k | 0 <= k < |parts|
        ensures CommaJoined(parts)[2 * k] == parts[k][0]
      {
        if k < |front| {
          assert front[k] == parts[k];
        }
      }
      forall k | 0 <= k < |parts| - 1
        ensures CommaJoined(parts)[2 * k + 1] == ','
      {
      }
    }
  }

  /**
   * Saving then loading a form is not the identity: with at least two
   * results the commas come back as entries, at slot 1 and, with at least
   * three results, at slot 3, while the results sit in slots 0, 2 and 4.
   */
  lemma SaveThenLoadForm(form: seq<string>)
    requires OneCharCodes(form)
    ensures var codes := Results(form);
      var loaded := ParsedForm(CommaJoined(codes));
      && (|codes| >= 2 ==> loaded[1] == "," && loaded[0] == codes[0] && loaded[2] == codes[1])
      && (|codes| >= 3 ==> loaded[3] == "," && loaded[4] == codes[2])
  {
    var codes := Results(form);
    ResultsOneChar(form);
    CommaJoinedLayout(codes);
    if |codes| >= 2 {
      assert codes[0] == [codes[0][0]] && codes[1] == [codes[1][0]];
    }
    if |codes| >= 3 {
      assert codes[2] == [codes[2][0]];
    }
  }

  /** A window with at most one result, held in slot 0, survives a save and a load unchanged. */
  lemma SaveThenLoadSingle(form: FormWindow)
    requires OneCharCodes(form)
    requires forall i :: 1 <= i < 5 ==> form[i] == ""
    ensures ParsedForm(CommaJoined(Results(form))) == form
  {
    assert form[..1][..0] == [];
    assert form[..2][..1] == form[..1];
    assert form[..3][..2] == form[..2];
    assert form[..4][..3] == form[..3];
    assert form[..5][..4] == form[..4] && form[..5] == form;
    var first := Results(form[..1]);
    assert Results(form[..2]) == first;
    assert Results(form[..3]) == first;
    assert Results(form[..4]) == first;
    assert Results(form) == first;
    if form[0] != "" {
      assert form[0] == [form[0][0]];
    }
  }

  /** An example where the round trip changes the window: W then D comes back as W , D. */
  lemma SaveThenLoadExample()
    ensures ParsedForm(CommaJoined(Results(["W", "D", "", "", ""]))) == ["W", ",", "D", "", ""]
  {
    var form: seq<string> := ["W", "D", "", "", ""];
    assert form[..1][..0] == [];
    assert form[..2][..1] == form[..1];
    assert form[..3][..2] == form[..2];
    assert form[..4][..3] == form[..3];
    assert form[..5][..4] == form[..4] && form[..5] == form;
    assert Results(form[..1]) == ["W"];
    assert Results(form[..2]) == ["W", "D"];
    assert Results(form) == ["W", "D"];
    assert CommaJoined(["W", "D"]) == "W,D";
  }

  // ---------------------------------------------------------------------
  // Short names
  // ---------------------------------------------------------------------

  /** The fixed three-letter codes of the ten known clubs. */
  const ShortNames: map<string, string> := map[
    "Manchester City" := "MCI",
    "Arsenal" := "ARS",
    "Liverpool" := "LIV",
    "Manchester United" := "MUN",
    "Tottenham" := "TOT",
    "Newcastle" := "NEW",
    "Chelsea" := "CHE",
    "Aston Villa" := "AVL",
    "Brighton" := "BHA",
    "West Ham" := "WHU"]

  /** A byte of a Go string. */
  type Byte = b: int | 0 <= b < 256

  /** The UTF-8 encoding of one character: one byte below 0x80, then two, three or four. */
  function CharBytes(c: char): (bs: seq<Byte>)
    ensures 1 <= |bs| <= 4
    ensures |bs| == 1 <==> c as int < 0x80
  {
    var v := c as int;
    if v < 0x80 then [v]
    else if v < 0x800 then [0xC0 + v / 0x40, 0x80 + v % 0x40]
    else if v < 0x1_0000 then [0xE0 + v / 0x1000, 0x80 + (v / 0x40) % 0x40, 0x80 + v % 0x40]
    else [0xF0 + v / 0x4_0000, 0x80 + (v / 0x1000) % 0x40, 0x80 + (v / 0x40) % 0x40, 0x80 + v % 0x40]
  }

  /** The bytes Go holds for a string: the UTF-8 encodings of its characters, in order. */
  function Utf8(s: string): (bs: seq<Byte>)
    ensures |bs| >= |s|
  {
    if s == [] then [] else CharBytes(s[0]) + Utf8(s[1..])
  }

  /** On ASCII text the bytes are the characters' codes, one each. */
  lemma {:induction false} AsciiBytes(s: string)
    requires forall i :: 0 <= i < |s| ==> s[i] as int < 0x80
    ensures |Utf8(s)| == |s|
    ensures forall i :: 0 <= i < |s| ==> Utf8(s)[i] == s[i] as int
  {
    if s != [] {
      AsciiBytes(s[1..]);
      assert Utf8(s) == [s[0] as int] + Utf8(s[1..]);
    }
  }

  /** A short name exists: the club is known, or its name has at least three bytes to cut. */
  predicate HasShortName(fullName: string) {
    fullName in ShortNames || |Utf8(fullName)| >= 3
  }

  /** The fixed code of a known club, otherwise the first three bytes of the name. */
  function GetShortName(fullName: string): (short: seq<Byte>)
    requires HasShortName(fullName)
    ensures |short| == 3
  {
    if fullName in ShortNames then
      var code := ShortNames[fullName];
      AsciiBytes(code);
      Utf8(code)
    else Utf8(fullName)[..3]
  }

  /** Two different ASCII texts have different bytes. */
  lemma AsciiBytesDiffer(x: string, y: string)
    requires forall i :: 0 <= i < |x| ==> x[i] as int < 0x80
    requires forall i :: 0 <= i < |y| ==> y[i] as int < 0x80
    requires x != y
    ensures Utf8(x) != Utf8(y)
  {
    AsciiBytes(x);
    AsciiBytes(y);
    if |x| == |y| {
      var i :| 0 <= i < |x| && x[i] != y[i];
      assert Utf8(x)[i] != Utf8(y)[i];
    }
  }

  /** The codes of the known clubs are ASCII and pairwise different. */
  lemma CodesAsciiAndDistinct(a: string, b: string)
    requires a in ShortNames && b in ShortNames
    ensures forall i :: 0 <= i < |ShortNames[a]| ==> ShortNames[a][i] as int < 0x80
    ensures a != b ==> ShortNames[a] != ShortNames[b]
  {
  }

  /** The known clubs get ten different codes, and an unknown club's code begins its name's bytes. */
  lemma ShortNamesAreCodes(a: string, b: string)
    requires HasShortName(a) && HasShortName(b)
    ensures a in ShortNames && b in ShortNames && a != b ==> GetShortName(a) != GetShortName(b)
    ensures a !in ShortNames ==> GetShortName(a) <= Utf8(a)
  {
    if a in ShortNames && b in ShortNames && a != b {
      CodesAsciiAndDistinct(a, b);
      CodesAsciiAndDistinct(b, a);
      AsciiBytesDiffer(ShortNames[a], ShortNames[b]);
    }
  }

  /**
   * The cut counts bytes, not characters: a two-character name of three
   * bytes has a short name, and a cut can end after a two-byte character.
   */
  lemma ShortNameCutsBytes()
    ensures HasShortName("Ñu") && GetShortName("Ñu") == Utf8("Ñu")
    ensures GetShortName("Aéb") == Utf8("Aé")
    ensures !HasShortName("Ab")
  {
  }

  /** A cut can also split a character of two or three bytes. */
  lemma ShortNameSplitsCharacter()
    ensures GetShortName("日本") == Utf8("日")
    ensures GetShortName("Ab€") == Utf8("Ab") + CharBytes('€')[..1]
  {
  }

  // ---------------------------------------------------------------------
  // Saving a team
  // ---------------------------------------------------------------------

  /** The values a team save writes, in column order. */
  datatype TeamRow = TeamRow(
    name: string,
    shortName: seq<Byte>,
    baseStrength: int,
    currentStrength: int,
    counters: Counters,
    form: string)

  datatype SaveResult = InvalidTeam | Write(row: TeamRow)

  /**
   * A team save: a missing team or an empty name is refused before any
   * query; otherwise the row holds the team's values, its short name and
   * its joined form.
   */
  function SaveTeam(team: GoalEntry.Option<TeamRecord>): (r: SaveResult)
    requires team.Some? && team.value.name != "" ==> HasShortName(team.value.name)
    ensures r.InvalidTeam? <==> team.None? || team.value.name == ""
    ensures r.Write? ==>
      && r.row.name == team.value.name
      && r.row.shortName == GetShortName(team.value.name)
      && r.row.baseStrength == team.value.baseStrength
      && r.row.currentStrength == team.value.currentStrength
      && r.row.counters == CountersOf(team.value)
      && r.row.form == CommaJoined(Results(team.value.form))
  {
    if team.None? || team.value.name == "" then InvalidTeam
    else
      var t := team.value;
      Write(TeamRow(t.name, GetShortName(t.name), t.baseStrength, t.currentStrength,
        CountersOf(t), CommaJoined(Results(t.form))))
  }

  /** The record a load rebuilds from a saved row: the same counters and strengths, the form parsed back. */
  function LoadTeam(row: TeamRow): TeamRecord {
    var c := row.counters;
    TeamRecord(row.name, c.played, c.won, c.drawn, c.lost, c.goalsFor, c.goalsAgainst,
      c.goalDifference, c.points, row.baseStrength, row.currentStrength, ParsedForm(row.form))
  }

  /** Saving then loading a team keeps everything but the form, which comes back as parsed. */
  lemma SaveThenLoadTeam(t: TeamRecord)
    requires t.name != "" && HasShortName(t.name)
    ensures SaveTeam(GoalEntry.Some(t)).Write?
    ensures LoadTeam(SaveTeam(GoalEntry.Some(t)).row) == t.(form := ParsedForm(CommaJoined(Results(t.form))))
  {
  }

  // ---------------------------------------------------------------------
  // Loading the calendar
  // ---------------------------------------------------------------------

  /** One loaded match row: the week and the match as stored, with the teams by name. */
  datatype MatchRow = MatchRow(
    week: int,
    homeTeam: string,
    awayTeam: string,
    homeGoals: int,
    awayGoals: int,
    isPlayed: bool,
    isFixed: bool)

  /** The rows of week w, in the order they were read. */
  function RowsOfWeek(rows: seq<MatchRow>, w: int): seq<MatchRow> {
    if rows == [] then []
    else RowsOfWeek(rows[..|rows| - 1], w) + if rows[|rows| - 1].week == w then [rows[|rows| - 1]] else []
  }

  /** The rows that belong to a week of the season. */
  function InSeason(rows: seq<MatchRow>): seq<MatchRow> {
    if rows == [] then []
    else
      var last := rows[|rows| - 1];
      InSeason(rows[..|rows| - 1]) + if 1 <= last.week <= SeasonWeeks then [last] else []
  }

  /**
   * The calendar built from the rows: always eighteen weeks, week w holding
   * the rows of that week in the order read, a week without rows empty.
   */
  method GroupByWeek(rows: seq<MatchRow>) returns (weeks: seq<seq<MatchRow>>)
    ensures |weeks| == SeasonWeeks
    ensures forall w :: 0 <= w < SeasonWeeks ==> weeks[w] == RowsOfWeek(rows, w + 1)
  {
    var byWeek: map<int, seq<MatchRow>> := map[];
    var maxWeek := 0;
    for i := 0 to |rows|
      invariant forall w :: w in byWeek ==> byWeek[w] == RowsOfWeek(rows[..i], w)
      invariant forall w :: w !in byWeek ==> RowsOfWeek(rows[..i], w) == []
    {
      assert rows[..i + 1][..i] == rows[..i];
      var w := rows[i].week;
      byWeek := byWeek[w := (if w in byWeek then byWeek[w] else []) + [rows[i]]];
      if w > maxWeek {
        maxWeek := w;
      }
    }
    assert rows[..|rows|] == rows;
    weeks := [];
    for week := 1 to SeasonWeeks + 1
      invariant |weeks| == week - 1
      invariant forall w :: 0 <= w < week - 1 ==> weeks[w] == RowsOfWeek(rows, w + 1)
    {
      if week in byWeek {
        weeks := weeks + [byWeek[week]];
      } else {
        weeks := weeks + [[]];
      }
    }
  }

  /** The rows of week w are exactly the rows read with that week. */
  lemma {:induction false} RowsOfWeekMembers(rows: seq<MatchRow>, w: int, r: MatchRow)
    ensures r in RowsOfWeek(rows, w) <==> r in rows && r.week == w
  {
    if rows != [] {
      var front := rows[..|rows| - 1];
      RowsOfWeekMembers(front, w, r);
      assert rows == front + [rows[|rows| - 1]];
    }
  }

  /** The number of rows in weeks lo up to (not including) hi. */
  function CountWeeks(rows: seq<MatchRow>, lo: int, hi: int): nat
    decreases hi - lo
  {
    if lo >= hi then 0 else |RowsOfWeek(rows, lo)| + CountWeeks(rows, lo + 1, hi)
  }

  lemma {:induction false} CountWeeksSnoc(rows: seq<MatchRow>, r: MatchRow, lo: int, hi: int)
    ensures CountWeeks(rows + [r], lo, hi) == CountWeeks(rows, lo, hi) + if lo <= r.week < hi then 1 else 0
    decreases hi - lo
  {
    if lo < hi {
      assert (rows + [r])[..|rows|] == rows;
      CountWeeksSnoc(rows, r, lo + 1, hi);
    }
  }

  /** No row is lost or counted twice: the eighteen weeks hold exactly the in-season rows. */
  lemma {:induction false} GroupingKeepsRows(rows: seq<MatchRow>)
    ensures CountWeeks(rows, 1, SeasonWeeks + 1) == |InSeason(rows)|
  {
    if rows == [] {
      ZeroWeeks(1, SeasonWeeks + 1);
    } else {
      var front := rows[..|rows| - 1];
      GroupingKeepsRows(front);
      assert rows == front + [rows[|rows| - 1]];
      CountWeeksSnoc(front, rows[|rows| - 1], 1, SeasonWeeks + 1);
    }
  }

  lemma {:induction false} ZeroWeeks(lo: int, hi: int)
    ensures CountWeeks([], lo, hi) == 0
    decreases hi - lo
  {
    if lo < hi {
      ZeroWeeks(lo + 1, hi);
    }
  }
}
