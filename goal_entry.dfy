/**
 * The goal entry fields of the result editor: the validator shown next to
 * each field, and the "%d" scan that the Save button applies to the text.
 * Text is a sequence of Unicode code points, as Go's range over a string
 * yields them.
 */
module GoalEntry {

  datatype Option<T> = None | Some(value: T)

  /** The validator's three messages. */
  datatype EntryError = OnlyNumbers | InvalidNumber | TooManyGoals

  const MaxGoals: int := 9

  /** Bounds of Go's 64-bit int, the target of the scan. */
  const MaxInt64: int := 0x7fff_ffff_ffff_ffff
  const MinInt64: int := -0x8000_0000_0000_0000

  predicate IsDigit(c: char) {
    '0' <= c <= '9'
  }

  predicate AllDigits(s: string) {
    forall i :: 0 <= i < |s| ==> IsDigit(s[i])
  }

  function DigitValue(c: char): nat
    requires IsDigit(c)
  {
    (c as int) - ('0' as int)
  }

  /** The value of a run of decimal digits, most significant first. */
  function DecimalValue(s: string): nat
    requires AllDigits(s)
  {
    if s == [] then 0 else 10 * DecimalValue(s[..|s| - 1]) + DigitValue(s[|s| - 1])
  }

  // ---------------------------------------------------------------------
  // The "%d" scan
  // ---------------------------------------------------------------------

  /** White space as the scanner's space table lists it (newline is handled apart). */
  predicate IsScanSpace(c: char) {
    || ('\t' <= c <= '\r')
    || c == ' ' || c == '\U{0085}' || c == '\U{00A0}' || c == '\U{1680}'
    || ('\U{2000}' <= c <= '\U{200A}')
    || c == '\U{2028}' || c == '\U{2029}' || c == '\U{202F}' || c == '\U{205F}' || c == '\U{3000}'
  }

  /** Leading white space skipped; a newline met on the way is an error. */
  function SkipSpaces(s: string): (r: Option<string>)
    ensures r.Some? ==> |r.value| <= |s| && r.value == s[|s| - |r.value|..]
    ensures r.Some? && r.value != [] ==> !IsScanSpace(r.value[0])
  {
    if s == [] then Some(s)
    else if s[0] == '\n' then None
    else if IsScanSpace(s[0]) then SkipSpaces(s[1..])
    else Some(s)
  }

  /** The longest prefix of decimal digits. */
  function DigitRun(s: string): (d: string)
    ensures AllDigits(d) && |d| <= |s| && d == s[..|d|]
    ensures |d| < |s| ==> !IsDigit(s[|d|])
  {
    if s == [] || !IsDigit(s[0]) then [] else [s[0]] + DigitRun(s[1..])
  }

  /**
   * Sscanf(text, "%d", &v): white space skipped, an optional sign, at least
   * one digit, the value within a 64-bit int; the text after the digits is
   * ignored. None stands for a returned error.
   */
  function ScanInt(text: string): Option<int> {
    match SkipSpaces(text)
    case None => None
    case Some(rest) =>
      if rest == [] then None
      else
        var signed := rest[0] == '+' || rest[0] == '-';
        var digits := DigitRun(if signed then rest[1..] else rest);
        if digits == [] then None
        else
          var magnitude: int := DecimalValue(digits);
          var value: int := if rest[0] == '-' then -magnitude else magnitude;
          if MinInt64 <= value <= MaxInt64 then Some(value) else None
  }

  // ---------------------------------------------------------------------
  // The validator
  // ---------------------------------------------------------------------

  /** What the validator reports for a field's text; None is "valid". */
  function Validation(s: string): Option<EntryError> {
    if s == "" then None
    else if !AllDigits(s) then Some(OnlyNumbers)
    else
      match ScanInt(s)
      case None => Some(InvalidNumber)
      case Some(v) => if v > MaxGoals then Some(TooManyGoals) else None
  }

  /** The validator as written: a scan for a non-digit, then the parse, then the bound. */
  method ValidateGoals(s: string) returns (err: Option<EntryError>)
    ensures err == Validation(s)
  {
    if s == "" {
      return None;
    }
    for i := 0 to |s|
      invariant forall j :: 0 <= j < i ==> IsDigit(s[j])
    {
      if s[i] < '0' || s[i] > '9' {
        return Some(OnlyNumbers);
      }
    }
    var parsed := ScanInt(s);
    if parsed.None? {
      return Some(InvalidNumber);
    }
    if parsed.value > MaxGoals {
      return Some(TooManyGoals);
    }
    return None;
  }

  // ---------------------------------------------------------------------
  // Properties
  // ---------------------------------------------------------------------

  lemma {:induction false} DigitRunOfDigits(s: string)
    requires AllDigits(s)
    ensures DigitRun(s) == s
    decreases |s|
  {
    if s != [] {
      DigitRunOfDigits(s[1..]);
      assert [s[0]] + s[1..] == s;
    }
  }

  /** On a run of digits the scan yields its value, unless that overflows a 64-bit int. */
  lemma ScanOfDigits(s: string)
    requires s != [] && AllDigits(s)
    ensures ScanInt(s) == if DecimalValue(s) <= MaxInt64 then Some(DecimalValue(s)) else None
  {
    DigitRunOfDigits(s);
  }

  /** Text after the digits never matters to the scan. */
  lemma {:induction false} DigitRunStopsAtNonDigit(d: string, rest: string)
    requires AllDigits(d)
    requires rest == [] || !IsDigit(rest[0])
    ensures DigitRun(d + rest) == d
    decreases |d|
  {
    if d == [] {
      assert d + rest == rest;
    } else {
      assert (d + rest)[1..] == d[1..] + rest;
      DigitRunStopsAtNonDigit(d[1..], rest);
      assert [d[0]] + d[1..] == d;
    }
  }

  lemma TrailingTextIgnored(d: string, rest: string)
    requires d != [] && AllDigits(d)
    requires rest == [] || !IsDigit(rest[0])
    ensures ScanInt(d + rest) == ScanInt(d)
  {
    DigitRunStopsAtNonDigit(d, rest);
    DigitRunOfDigits(d);
    assert (d + rest)[0] == d[0];
  }

  /** The validator accepts exactly the empty text and digit runs worth at most nine. */
  lemma ValidationAccepts(s: string)
    ensures Validation(s) == None <==> s == "" || (AllDigits(s) && DecimalValue(s) <= MaxGoals)
    ensures Validation(s) == Some(OnlyNumbers) <==> !AllDigits(s)
    ensures Validation(s) == Some(InvalidNumber) <==> s != "" && AllDigits(s) && DecimalValue(s) > MaxInt64
    ensures Validation(s) == Some(TooManyGoals) <==>
      s != "" && AllDigits(s) && MaxGoals < DecimalValue(s) <= MaxInt64
  {
    if s != "" && AllDigits(s) {
      ScanOfDigits(s);
    }
  }

  /** The empty text passes the validator, yet Save's scan fails on it and nothing is saved. */
  lemma EmptyPassesButDoesNotScan()
    ensures Validation("") == None && ScanInt("") == None
  {
  }

  /** A digit run above nine is refused by the validator, yet Save stores its value. */
  lemma SaveStoresRejectedCount(d: string)
    requires d != [] && AllDigits(d) && MaxGoals < DecimalValue(d) <= MaxInt64
    ensures Validation(d) == Some(TooManyGoals)
    ensures ScanInt(d) == Some(DecimalValue(d))
  {
    ScanOfDigits(d);
  }

  /** A minus sign is refused by the validator, yet Save stores the negative count. */
  lemma SaveStoresNegativeCount(d: string)
    requires d != [] && AllDigits(d) && DecimalValue(d) <= MaxInt64
    ensures Validation("-" + d) == Some(OnlyNumbers)
    ensures ScanInt("-" + d) == Some(0 - DecimalValue(d) as int)
  {
    var s := "-" + d;
    assert !IsDigit(s[0]);
    assert s[1..] == d;
    DigitRunOfDigits(d);
  }

  /** Leading blanks are refused by the validator but skipped by Save's scan. */
  lemma SaveSkipsLeadingBlank(d: string)
    requires d != [] && AllDigits(d)
    ensures Validation(" " + d) == Some(OnlyNumbers)
    ensures ScanInt(" " + d) == ScanInt(d)
  {
    var s := " " + d;
    assert !IsDigit(s[0]);
    assert s[1..] == d;
    assert !IsScanSpace(d[0]);
  }
}
