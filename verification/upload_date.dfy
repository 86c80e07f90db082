/** Conversion of a video's `upload_date` (ISO 8601 basic calendar date,
    YYYYMMDD) into the extended form YYYY-MM-DD, as the importer does it with
    `datetime.strptime(s, "%Y%m%d").date().isoformat()`.

    `strptime` matches the regular expression
      `(\d\d\d\d)(1[0-2]|0[1-9]|[1-9])(3[01]|[12]\d|0[1-9]|[1-9]| [1-9])`
    against a prefix of the string (trying the alternatives from left to right and
    backtracking into the month when no day follows), then raises when characters
    remain unconsumed, and finally raises when the fields do not name a day of the
    proleptic Gregorian calendar between the years 1 and 9999. */
module UploadDate {
  import opened Wrappers

  datatype Date = Date(year: int, month: int, day: int)

  predicate IsLeapYear(y: int) {
    y % 4 == 0 && (y % 100 != 0 || y % 400 == 0)
  }

  function DaysInMonth(y: int, m: int): int
    requires 1 <= m <= 12
  {
    if m == 2 then (if IsLeapYear(y) then 29 else 28)
    else if m == 4 || m == 6 || m == 9 || m == 11 then 30
    else 31
  }

  /** The dates Python's `datetime.date` can represent. */
  predicate IsValidDate(d: Date) {
    && 1 <= d.year <= 9999
    && 1 <= d.month <= 12
    && 1 <= d.day <= DaysInMonth(d.year, d.month)
  }

  /** The three `ValueError`s `strptime` raises for this format. */
  datatype DateError =
    | NoMatch           // no prefix matches the pattern
    | UnconvertedData   // a prefix matches but characters remain after it
    | OutOfRange        // the fields do not name a real day

  // ---------------------------------------------------------------- digits

  predicate IsDigit(c: char) {
    '0' <= c <= '9'
  }

  predicate AllDigits(s: string) {
    forall i | 0 <= i < |s| :: IsDigit(s[i])
  }

  function DigitValue(c: char): nat
    requires IsDigit(c)
  {
    c as int - '0' as int
  }

  function DigitChar(n: nat): (c: char)
    requires n < 10
    ensures IsDigit(c) && DigitValue(c) == n
  {
    ('0' as int + n) as char
  }

  function Power10(w: nat): (p: nat)
    ensures p >= 1
  {
    if w == 0 then 1 else 10 * Power10(w - 1)
  }

  /** The number a string of decimal digits denotes. */
  function Value(s: string): nat
    requires AllDigits(s)
  {
    if s == [] then 0 else 10 * Value(s[..|s| - 1]) + DigitValue(s[|s| - 1])
  }

  /** `n` in decimal, zero-padded to `w` digits (the `%0<w>d` of `isoformat`). */
  function Padded(n: nat, w: nat): (r: string)
    requires n < Power10(w)
    ensures |r| == w && AllDigits(r) && Value(r) == n
  {
    if w == 0 then ""
    else
      var r := Padded(n / 10, w - 1) + [DigitChar(n % 10)];
      assert r[..w - 1] == Padded(n / 10, w - 1);
      r
  }

  /** Reading a digit string and padding it back to its width restores it. */
  lemma {:induction false} PaddedValue(s: string)
    requires AllDigits(s)
    ensures Value(s) < Power10(|s|)
    ensures Padded(Value(s), |s|) == s
    decreases |s|
  {
    if s != [] {
      var init := s[..|s| - 1];
      PaddedValue(init);
      var n := Value(s);
      assert n / 10 == Value(init) && n % 10 == DigitValue(s[|s| - 1]);
      assert DigitChar(n % 10) == s[|s| - 1];
      assert s == init + [s[|s| - 1]];
    }
  }

  lemma TwoDigitValue(s: string)
    requires |s| == 2 && AllDigits(s)
    ensures Value(s) == 10 * DigitValue(s[0]) + DigitValue(s[1])
  {
    assert s[..1][..0] == [];
    assert Value(s[..1]) == DigitValue(s[0]);
    assert s[..|s| - 1] == s[..1];
  }

  // ------------------------------------------------- matching "%Y%m%d"

  /** A captured group: its numeric value and the index just past it. */
  datatype Group = Group(value: nat, end: nat)

  /** The ways `(1[0-2]|0[1-9]|[1-9])` can match at `i`, in the order tried. */
  function MonthAlternatives(s: string, i: nat): (r: seq<Group>)
    ensures forall g <- r :: i < g.end <= i + 2 && g.end <= |s| && 1 <= g.value <= 12
    ensures forall g <- r :: g.end == i + 2 && IsDigit(s[i]) && IsDigit(s[i + 1]) ==>
              g.value == 10 * DigitValue(s[i]) + DigitValue(s[i + 1])
  {
    (if i + 1 < |s| && s[i] == '1' && '0' <= s[i + 1] <= '2'
     then [Group(10 + DigitValue(s[i + 1]), i + 2)] else [])
    + (if i + 1 < |s| && s[i] == '0' && '1' <= s[i + 1] <= '9'
       then [Group(DigitValue(s[i + 1]), i + 2)] else [])
    + (if i < |s| && '1' <= s[i] <= '9'
       then [Group(DigitValue(s[i]), i + 1)] else [])
  }

  /** The first alternative of `(3[01]|[12]\d|0[1-9]|[1-9]| [1-9])` that matches at `i`. */
  function DayGroup(s: string, i: nat): (r: Option<Group>)
    ensures r.Some? ==> i < r.value.end <= i + 2 && r.value.end <= |s| && 1 <= r.value.value <= 31
    ensures r.Some? && r.value.end == i + 2 && IsDigit(s[i]) && IsDigit(s[i + 1]) ==>
              r.value.value == 10 * DigitValue(s[i]) + DigitValue(s[i + 1])
  {
    if i + 1 < |s| && s[i] == '3' && '0' <= s[i + 1] <= '1' then
      Some(Group(30 + DigitValue(s[i + 1]), i + 2))
    else if i + 1 < |s| && '1' <= s[i] <= '2' && IsDigit(s[i + 1]) then
      Some(Group(10 * DigitValue(s[i]) + DigitValue(s[i + 1]), i + 2))
    else if i + 1 < |s| && s[i] == '0' && '1' <= s[i + 1] <= '9' then
      Some(Group(DigitValue(s[i + 1]), i + 2))
    else if i < |s| && '1' <= s[i] <= '9' then
      Some(Group(DigitValue(s[i]), i + 1))
    else if i + 1 < |s| && s[i] == ' ' && '1' <= s[i + 1] <= '9' then
      Some(Group(DigitValue(s[i + 1]), i + 2))
    else
      None
  }

  /** The matched fields and the length of the matched prefix. */
  datatype Fields = Fields(date: Date, end: nat)

  /** Tries the month alternatives in order; the first one followed by a day wins. */
  function MatchMonthDay(s: string, year: nat, months: seq<Group>): (r: Option<Fields>)
    ensures r.None? <==> forall k | 0 <= k < |months| :: DayGroup(s, months[k].end).None?
    ensures r.Some? ==>
              exists k | 0 <= k < |months| ::
                && DayGroup(s, months[k].end).Some?
                && (forall j | 0 <= j < k :: DayGroup(s, months[j].end).None?)
                && r.value == Fields(Date(year, months[k].value, DayGroup(s, months[k].end).value.value),
                                     DayGroup(s, months[k].end).value.end)
  {
    if |months| == 0 then None
    else
      match DayGroup(s, months[0].end)
      case Some(d) => Some(Fields(Date(year, months[0].value, d.value), d.end))
      case None =>
        var r := MatchMonthDay(s, year, months[1..]);
        if r.Some? then
          var k :| 0 <= k < |months| - 1
                   && DayGroup(s, months[1..][k].end).Some?
                   && (forall j | 0 <= j < k :: DayGroup(s, months[1..][j].end).None?)
                   && r.value == Fields(Date(year, months[1..][k].value, DayGroup(s, months[1..][k].end).value.value),
                                        DayGroup(s, months[1..][k].end).value.end);
          assert months[1..][k] == months[k + 1];
          r
        else
          r
  }

  /** `re.match` of the `%Y%m%d` pattern against `s`. */
  function MatchBasic(s: string): (r: Option<Fields>)
    ensures r.Some? ==>
              && |s| >= 4 && AllDigits(s[..4]) && r.value.date.year == Value(s[..4])
              && 1 <= r.value.date.month <= 12 && 1 <= r.value.date.day <= 31
              && 6 <= r.value.end <= |s| && r.value.end <= 8
  {
    if |s| >= 4 && AllDigits(s[..4]) then
      MatchMonthDay(s, Value(s[..4]), MonthAlternatives(s, 4))
    else
      None
  }

  /** `datetime.strptime(s, "%Y%m%d").date()`. */
  function Strptime(s: string): (r: Result<Date, DateError>)
    ensures r.Success? ==> IsValidDate(r.value)
  {
    match MatchBasic(s)
    case None => Failure(NoMatch)
    case Some(f) =>
      if f.end != |s| then Failure(UnconvertedData)
      else if !IsValidDate(f.date) then Failure(OutOfRange)
      else Success(f.date)
  }

  /** `date.isoformat()`: YYYY-MM-DD. */
  function IsoFormat(d: Date): (r: string)
    requires IsValidDate(d)
    ensures |r| == 10 && r[4] == '-' && r[7] == '-'
    ensures AllDigits(r[..4]) && AllDigits(r[5..7]) && AllDigits(r[8..])
    ensures Value(r[..4]) == d.year && Value(r[5..7]) == d.month && Value(r[8..]) == d.day
  {
    var y, m, dd := Padded(d.year, 4), Padded(d.month, 2), Padded(d.day, 2);
    var r := y + "-" + m + "-" + dd;
    assert r[..4] == y && r[5..7] == m && r[8..] == dd;
    r
  }

  /** The same date in the basic form YYYYMMDD that `upload_date` uses. */
  function BasicFormat(d: Date): (r: string)
    requires IsValidDate(d)
    ensures |r| == 8 && AllDigits(r)
    ensures Value(r[..4]) == d.year && Value(r[4..6]) == d.month && Value(r[6..]) == d.day
  {
    var y, m, dd := Padded(d.year, 4), Padded(d.month, 2), Padded(d.day, 2);
    var r := y + m + dd;
    assert r[..4] == y && r[4..6] == m && r[6..] == dd;
    r
  }

  /** A string that reads as a valid date in extended format. */
  predicate IsIsoDate(t: string) {
    && |t| == 10 && t[4] == '-' && t[7] == '-'
    && AllDigits(t[..4]) && AllDigits(t[5..7]) && AllDigits(t[8..])
    && IsValidDate(Date(Value(t[..4]), Value(t[5..7]), Value(t[8..])))
  }

  /** The importer's conversion of the optional `upload_date`: an absent or empty
      value gives no date, anything else goes through `strptime` and may raise. */
  function ToIsoDate(uploadDate: Option<string>): (r: Result<Option<string>, DateError>)
    ensures uploadDate.None? || uploadDate.value == "" <==> r == Success(None)
    ensures r.Success? && r.value.Some? ==> IsIsoDate(r.value.value)
  {
    if uploadDate.None? || uploadDate.value == "" then Success(None)
    else
      match Strptime(uploadDate.value)
      case Failure(e) => Failure(e)
      case Success(d) => Success(Some(IsoFormat(d)))
  }

  /** The eight fields of an all-digit YYYYMMDD string. */
  function DateOf(s: string): Date
    requires |s| == 8 && AllDigits(s)
  {
    Date(Value(s[..4]), Value(s[4..6]), Value(s[6..]))
  }

  /** For an eight-digit upload date, the conversion succeeds exactly when the
      digits name a valid date, and then it only inserts the two dashes. */
  lemma EightDigitConversion(s: string)
    requires |s| == 8 && AllDigits(s)
    ensures ToIsoDate(Some(s)).Success? <==> IsValidDate(DateOf(s))
    ensures ToIsoDate(Some(s)).Success? ==>
              ToIsoDate(Some(s)).value == Some(s[..4] + "-" + s[4..6] + "-" + s[6..])
  {
    var m := Value(s[4..6]);
    var d := Value(s[6..]);
    TwoDigitValue(s[4..6]);
    TwoDigitValue(s[6..]);
    assert AllDigits(s[..4]);
    if IsValidDate(DateOf(s)) {
      MatchesAllEight(s);
      PaddedValue(s[..4]);
      PaddedValue(s[4..6]);
      PaddedValue(s[6..]);
    } else {
      NoOtherFullMatch(s);
    }
  }

  /** A valid eight-digit date is matched as two-digit month and day fields. */
  lemma MatchesAllEight(s: string)
    requires |s| == 8 && AllDigits(s) && IsValidDate(DateOf(s))
    ensures MatchBasic(s) == Some(Fields(DateOf(s), 8))
  {
    TwoDigitFields(s);
    var months := MonthAlternatives(s, 4);
    assert months[0] == Group(Value(s[4..6]), 6);
    assert DayGroup(s, 6) == Some(Group(Value(s[6..]), 8));
  }

  /** A match of all eight digits reads two-digit month and day fields. */
  lemma FullMatchReadsDigits(s: string)
    requires |s| == 8 && AllDigits(s)
    requires MatchBasic(s).Some? && MatchBasic(s).value.end == 8
    ensures MatchBasic(s).value.date == DateOf(s)
  {
    var f := MatchBasic(s).value;
    var months := MonthAlternatives(s, 4);
    var k :| 0 <= k < |months| && DayGroup(s, months[k].end).Some?
             && f == Fields(Date(Value(s[..4]), months[k].value, DayGroup(s, months[k].end).value.value),
                            DayGroup(s, months[k].end).value.end);
    TwoDigitFields(s);
  }

  /** The two-digit month and day fields of an eight-digit string, by digit. */
  lemma TwoDigitFields(s: string)
    requires |s| == 8 && AllDigits(s)
    ensures Value(s[4..6]) == 10 * DigitValue(s[4]) + DigitValue(s[5])
    ensures Value(s[6..]) == 10 * DigitValue(s[6]) + DigitValue(s[7])
  {
    TwoDigitValue(s[4..6]);
    TwoDigitValue(s[6..]);
    assert s[4..6][0] == s[4] && s[4..6][1] == s[5];
    assert s[6..][0] == s[6] && s[6..][1] == s[7];
  }

  /** When the eight digits do not name a valid date, `strptime` raises. */
  lemma NoOtherFullMatch(s: string)
    requires |s| == 8 && AllDigits(s) && !IsValidDate(DateOf(s))
    ensures Strptime(s).Failure?
  {
    var m := MatchBasic(s);
    if m.Some? && m.value.end == 8 {
      FullMatchReadsDigits(s);
    }
  }

  /** Both forms are made of the same zero-padded fields. */
  lemma SameFields(d: Date)
    requires IsValidDate(d)
    ensures var s := BasicFormat(d);
            && s[..4] == Padded(d.year, 4) && s[4..6] == Padded(d.month, 2) && s[6..] == Padded(d.day, 2)
            && IsoFormat(d) == Padded(d.year, 4) + "-" + Padded(d.month, 2) + "-" + Padded(d.day, 2)
  {
  }

  /** Writing a valid date in basic format and converting it yields the same
      date in extended format. */
  lemma BasicToExtended(d: Date)
    requires IsValidDate(d)
    ensures ToIsoDate(Some(BasicFormat(d))) == Success(Some(IsoFormat(d)))
  {
    var s := BasicFormat(d);
    assert DateOf(s) == d;
    EightDigitConversion(s);
    SameFields(d);
  }

  lemma Year2023(s: string)
    requires |s| >= 4 && s[..4] == "2023"
    ensures AllDigits(s[..4]) && Value(s[..4]) == 2023
  {
    assert "2023"[..3] == "202" && "202"[..2] == "20" && "20"[..1] == "2" && "2"[..0] == "";
  }

  /** `strptime` also accepts one-digit months and days: the two-digit month 11
      is tried first and is followed by the one-digit day 5. */
  lemma OneDigitDayAccepted()
    ensures Strptime("2023115") == Success(Date(2023, 11, 5))
  {
    var s := "2023115";
    Year2023(s);
    assert MonthAlternatives(s, 4) == [Group(11, 6), Group(1, 5)];
    assert DayGroup(s, 6) == Some(Group(5, 7));
  }

  /** A month above 12 matches as the one-digit month 1, so a digit is left
      unconverted. */
  lemma MonthAboveTwelveLeavesDigit()
    ensures Strptime("20231315") == Failure(UnconvertedData)
  {
    var s := "20231315";
    Year2023(s);
    assert MonthAlternatives(s, 4) == [Group(1, 5)];
    assert DayGroup(s, 5) == Some(Group(31, 7));
  }

  /** A day past the end of its month matches the pattern but is rejected. */
  lemma MissingLeapDayRejected()
    ensures Strptime("20230229") == Failure(OutOfRange)
  {
    var s := "20230229";
    Year2023(s);
    assert MonthAlternatives(s, 4) == [Group(2, 6)];
    assert DayGroup(s, 6) == Some(Group(29, 8));
  }

  /** When both the two-digit and the one-digit month are followed by a day,
      the two-digit month is tried first and wins: `2023111` is 1 November. */
  lemma LeftmostMonthWins()
    ensures Strptime("2023111") == Success(Date(2023, 11, 1))
  {
    var s := "2023111";
    Year2023(s);
    assert MonthAlternatives(s, 4) == [Group(11, 6), Group(1, 5)];
    assert DayGroup(s, 6) == Some(Group(1, 7));
  }
}
