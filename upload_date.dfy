/** `get_date` of both scrapers: `datetime.strptime(string, "Uploaded at %B
    %d, %Y").strftime('%Y-%m-%d')`, which turns the upload line of a content
    page into an extended calendar date (ISO 8601:2004, section 4.1.2.2). */
module UploadDate {
  import opened Wrappers
  import opened PyStr

  datatype Date = Date(year: nat, month: nat, day: nat)

  const MonthNames: seq<string> := [
    "January", "February", "March", "April", "May", "June",
    "July", "August", "September", "October", "November", "December"]

  predicate IsLeapYear(y: nat) {
    y % 4 == 0 && (y % 100 != 0 || y % 400 == 0)
  }

  function DaysInMonth(month: nat, year: nat): nat
    requires 1 <= month <= 12
  {
    if month == 2 then (if IsLeapYear(year) then 29 else 28)
    else if month in {4, 6, 9, 11} then 30
    else 31
  }

  /** What `datetime.date` accepts: years 1 to 9999 (MINYEAR..MAXYEAR),
      and a day that exists in its month. */
  predicate ValidDate(d: Date) {
    1 <= d.year <= 9999 && 1 <= d.month <= 12 && 1 <= d.day <= DaysInMonth(d.month, d.year)
  }

  // ---------------------------------------------------------------------
  // The regular expression strptime builds for "Uploaded at %B %d, %Y":
  // literals matched ignoring case, each space of the format standing for
  // one or more whitespace characters, %B a full month name, %d one or two
  // digits denoting 1..31, %Y exactly four digits, and nothing after them.

  function Lower(c: char): char {
    if 'A' <= c <= 'Z' then (c as int + 32) as char else c
  }

  /** `word` is a prefix of `s` when case is ignored. */
  predicate CasePrefix(word: string, s: string) {
    |word| <= |s| && forall k :: 0 <= k < |word| ==> Lower(s[k]) == Lower(word[k])
  }

  function Literal(s: string, word: string): Option<string> {
    if CasePrefix(word, s) then Some(s[|word|..]) else None
  }

  /** `\s+`: at least one whitespace character, all of them consumed. */
  function Spaces(s: string): Option<string> {
    var n := LeadingRun(s, IsSpace);
    if n == 0 then None else Some(s[n..])
  }

  /** `%B`: the number (1..12) of the month whose full name starts `s`. */
  function MonthFrom(s: string, i: nat): Option<(nat, string)>
    requires i <= 12
    decreases 12 - i
  {
    if i == 12 then None
    else if CasePrefix(MonthNames[i], s) then Some((i + 1, s[|MonthNames[i]|..]))
    else MonthFrom(s, i + 1)
  }

  /** `%d`: one or two digits with value 1..31. */
  function DayOfMonth(s: string): Option<(nat, string)> {
    var n := LeadingRun(s, IsDigit);
    LeadingRunDropped(s, IsDigit);
    if 1 <= n <= 2 && 1 <= DigitsValue(s[..n]) <= 31 then Some((DigitsValue(s[..n]), s[n..])) else None
  }

  /** `%Y` at the end of the string: exactly four digits. */
  function YearAtEnd(s: string): Option<nat> {
    if |s| == 4 && AllDigits(s) then Some(DigitsValue(s)) else None
  }

  /** The fields the regular expression captures, or None when it does not
      match the whole string. */
  function Scan(s: string): Option<Date> {
    var s4 :- ScanWords(s);
    var (month, s5) :- MonthFrom(s4, 0);
    var (day, year) :- ScanDayYear(s5);
    Some(Date(year, month, day))
  }

  /** The part of the format before `%B`: "Uploaded at ". */
  function ScanWords(s: string): Option<string> {
    var s1 :- Literal(s, "Uploaded");
    var s2 :- Spaces(s1);
    var s3 :- Literal(s2, "at");
    Spaces(s3)
  }

  /** The part of the format after `%B`: " %d, %Y". */
  function ScanDayYear(s5: string): Option<(nat, nat)> {
    var s6 :- Spaces(s5);
    var (day, s7) :- DayOfMonth(s6);
    var s8 :- Literal(s7, ",");
    var s9 :- Spaces(s8);
    var year :- YearAtEnd(s9);
    Some((day, year))
  }

  /** `datetime.strptime(s, "Uploaded at %B %d, %Y")`: a ValueError when the
      text does not match the format or the date does not exist. */
  function Strptime(s: string): (r: Result<Date>)
    ensures r.Ok? ==> ValidDate(r.value)
    ensures Scan(s).None? ==> r == Err(ValueError)
  {
    match Scan(s)
    case None => Err(ValueError)
    case Some(d) => if ValidDate(d) then Ok(d) else Err(ValueError)
  }

  /** `strftime('%Y-%m-%d')` of a valid date. */
  function IsoFormat(d: Date): (r: string)
    requires ValidDate(d)
    ensures |r| == 10 && r[4] == '-' && r[7] == '-'
    ensures AllDigits(r[..4]) && AllDigits(r[5..7]) && AllDigits(r[8..])
    ensures DigitsValue(r[..4]) == d.year
    ensures DigitsValue(r[5..7]) == d.month
    ensures DigitsValue(r[8..]) == d.day
  {
    var y, m, dd := ZeroPad(d.year, 4), ZeroPad(d.month, 2), ZeroPad(d.day, 2);
    assert Pow10(2) == 100 && Pow10(4) == 10000;
    ZeroPadValue(d.year, 4);
    ZeroPadValue(d.month, 2);
    ZeroPadValue(d.day, 2);
    var r := y + "-" + m + "-" + dd;
    assert r[..4] == y && r[5..7] == m && r[8..] == dd;
    r
  }

  /** `get_date`. */
  function GetDate(s: string): (r: Result<string>)
    ensures r.Ok? ==> |r.value| == 10 && r.value[4] == '-' && r.value[7] == '-'
    ensures r.Ok? <==> Strptime(s).Ok?
  {
    match Strptime(s)
    case Ok(d) => Ok(IsoFormat(d))
    case Err(e) => Err(e)
  }

  /** The upload line as the site renders it. */
  function UploadedLine(d: Date): string
    requires 1 <= d.month <= 12
  {
    "Uploaded at " + MonthNames[d.month - 1] + DayYearText(d.day, d.year)
  }

  /** The part of the upload line after the month name. */
  function DayYearText(day: nat, year: nat): string {
    " " + ShowNat(day) + ", " + ZeroPad(year, 4)
  }

  // ---------------------------------------------------------------------
  // Month names are told apart by their first three letters.

  function Key(s: string): string
    requires |s| >= 3
  {
    [Lower(s[0]), Lower(s[1]), Lower(s[2])]
  }

  function MonthOfKey(k: string): nat {
    if k == "jan" then 1 else if k == "feb" then 2 else if k == "mar" then 3
    else if k == "apr" then 4 else if k == "may" then 5 else if k == "jun" then 6
    else if k == "jul" then 7 else if k == "aug" then 8 else if k == "sep" then 9
    else if k == "oct" then 10 else if k == "nov" then 11 else if k == "dec" then 12
    else 0
  }

  lemma MonthKeys(i: nat)
    requires i < 12
    ensures |MonthNames[i]| >= 3 && MonthOfKey(Key(MonthNames[i])) == i + 1
  {
    if i == 0 { assert Key(MonthNames[i]) == "jan"; }
    else if i == 1 { assert Key(MonthNames[i]) == "feb"; }
    else if i == 2 { assert Key(MonthNames[i]) == "mar"; }
    else if i == 3 { assert Key(MonthNames[i]) == "apr"; }
    else if i == 4 { assert Key(MonthNames[i]) == "may"; }
    else if i == 5 { assert Key(MonthNames[i]) == "jun"; }
    else if i == 6 { assert Key(MonthNames[i]) == "jul"; }
    else if i == 7 { assert Key(MonthNames[i]) == "aug"; }
    else if i == 8 { assert Key(MonthNames[i]) == "sep"; }
    else if i == 9 { assert Key(MonthNames[i]) == "oct"; }
    else if i == 10 { assert Key(MonthNames[i]) == "nov"; }
    else { assert Key(MonthNames[i]) == "dec"; }
  }

  /** No month name starts the text of another month name. */
  lemma MonthNameUnique(i: nat, j: nat, rest: string)
    requires i < 12 && j < 12
    requires CasePrefix(MonthNames[i], MonthNames[j] + rest)
    ensures i == j
  {
    MonthKeys(i);
    MonthKeys(j);
    var t := MonthNames[j] + rest;
    assert Key(t) == Key(MonthNames[i]);
    assert Key(t) == Key(MonthNames[j]);
  }

  lemma {:induction false} MonthFromName(m: nat, rest: string, i: nat)
    requires 1 <= m <= 12 && i <= m - 1
    ensures MonthFrom(MonthNames[m - 1] + rest, i) == Some((m, rest))
    decreases 12 - i
  {
    var t := MonthNames[m - 1] + rest;
    if i == m - 1 {
      assert CasePrefix(MonthNames[m - 1], t);
      assert t[|MonthNames[m - 1]|..] == rest;
    } else {
      if CasePrefix(MonthNames[i], t) {
        MonthNameUnique(i, m - 1, rest);
      }
      MonthFromName(m, rest, i + 1);
    }
  }

  lemma LiteralPrefix(word: string, rest: string)
    ensures Literal(word + rest, word) == Some(rest)
  {
    assert (word + rest)[|word|..] == rest;
  }

  lemma SpacePrefix(rest: string)
    requires rest != [] && !IsSpace(rest[0])
    ensures Spaces(" " + rest) == Some(rest)
  {
    LeadingRunConcat(" ", rest, IsSpace);
    assert (" " + rest)[1..] == rest;
  }

  lemma DayPrefix(day: nat, rest: string)
    requires 1 <= day <= 31
    requires rest != [] && !IsDigit(rest[0])
    ensures DayOfMonth(ShowNat(day) + rest) == Some((day, rest))
  {
    var s := ShowNat(day);
    LeadingRunConcat(s, rest, IsDigit);
    assert (s + rest)[..|s|] == s;
    assert (s + rest)[|s|..] == rest;
    ShowNatValue(day);
    ShowNatLength(day, 2);
  }

  /** The regular expression reads the site's upload line back field by
      field, for any month, any day 1..31 and any year 0..9999. */
  lemma ScanDayYearLine(day: nat, year: nat)
    requires 1 <= day <= 31 && year <= 9999
    ensures ScanDayYear(DayYearText(day, year)) == Some((day, year))
  {
    var s9 := ZeroPad(year, 4);
    ZeroPadValue(year, 4);
    var s8 := " " + s9;
    var s7 := "," + s8;
    var s6 := ShowNat(day) + s7;
    var s5 := " " + s6;
    assert s5 == " " + ShowNat(day) + ", " + ZeroPad(year, 4);
    SpacePrefix(s6);
    assert Spaces(s5) == Some(s6);
    DayPrefix(day, s7);
    assert DayOfMonth(s6) == Some((day, s7));
    LiteralPrefix(",", s8);
    assert Literal(s7, ",") == Some(s8);
    SpacePrefix(s9);
    assert Spaces(s8) == Some(s9);
    assert YearAtEnd(s9) == Some(year);
  }

  lemma MonthNameStart(i: nat)
    requires i < 12
    ensures MonthNames[i] != [] && 'A' <= MonthNames[i][0] <= 'Z'
  {
  }

  /** The literal words, read off the front of a line. */
  lemma ScanWordsLine(name: string, s5: string)
    requires name != [] && 'A' <= name[0] <= 'Z'
    ensures ScanWords("Uploaded at " + name + s5) == Some(name + s5)
  {
    var s4 := name + s5;
    var s3 := " " + s4;
    var s2 := "at" + s3;
    var s1 := " " + s2;
    assert "Uploaded" + s1 == "Uploaded at " + name + s5;
    LiteralPrefix("Uploaded", s1);
    SpacePrefix(s2);
    LiteralPrefix("at", s3);
    assert s4[0] == name[0];
    SpacePrefix(s4);
  }

  /** Scan succeeds exactly when its three stages do, one after the other. */
  lemma ScanStages(s: string, s4: string, m: nat, s5: string, day: nat, year: nat)
    requires ScanWords(s) == Some(s4) && MonthFrom(s4, 0) == Some((m, s5))
    requires ScanDayYear(s5) == Some((day, year))
    ensures Scan(s) == Some(Date(year, m, day))
  {
  }

  lemma UploadedLineWords(d: Date)
    requires 1 <= d.month <= 12
    ensures ScanWords(UploadedLine(d)) == Some(MonthNames[d.month - 1] + DayYearText(d.day, d.year))
  {
    MonthNameStart(d.month - 1);
    ScanWordsLine(MonthNames[d.month - 1], DayYearText(d.day, d.year));
  }

  lemma ScanUploadedLine(d: Date)
    requires 1 <= d.month <= 12 && 1 <= d.day <= 31 && d.year <= 9999
    ensures Scan(UploadedLine(d)) == Some(d)
  {
    var s5 := DayYearText(d.day, d.year);
    UploadedLineWords(d);
    MonthFromName(d.month, s5, 0);
    ScanDayYearLine(d.day, d.year);
    ScanStages(UploadedLine(d), MonthNames[d.month - 1] + s5, d.month, s5, d.day, d.year);
  }

  /** get_date turns the upload line of any valid date into that date in
      YYYY-MM-DD form. */
  lemma GetDateRoundTrip(d: Date)
    requires ValidDate(d)
    ensures GetDate(UploadedLine(d)) == Ok(IsoFormat(d))
  {
    ScanUploadedLine(d);
  }

  /** A day that its month does not have (April 31, February 29 of a common
      year) is a ValueError, and so is year 0. */
  lemma GetDateRejectsMissingDay(d: Date)
    requires 1 <= d.month <= 12 && 1 <= d.day <= 31 && d.year <= 9999
    requires d.year == 0 || d.day > DaysInMonth(d.month, d.year)
    ensures GetDate(UploadedLine(d)) == Err(ValueError)
  {
    ScanUploadedLine(d);
  }

  /** The line of a photo uploaded on April 5, 2020. */
  lemma UploadedLineExample(d: Date)
    requires d == Date(2020, 4, 5)
    ensures UploadedLine(d) == "Uploaded at April 5, 2020"
  {
    assert ZeroPad(2020, 4) == "2020" by {
      PaddedExamples();
    }
    assert ShowNat(5) == "5";
    assert MonthNames[3] == "April";
  }

  /** The line of the non-existent February 29, 2019. */
  lemma UploadedLineLeapExample(d: Date)
    requires d == Date(2019, 2, 29)
    ensures UploadedLine(d) == "Uploaded at February 29, 2019"
  {
    assert ShowNat(2019) == "2019" by {
      assert ShowNat(2) == "2";
      assert ShowNat(20) == ShowNat(2) + [DigitChar(0)];
      assert ShowNat(201) == ShowNat(20) + [DigitChar(1)];
      assert ShowNat(2019) == ShowNat(201) + [DigitChar(9)];
    }
    assert ZeroPad(2019, 4) == "2019";
    assert ShowNat(29) == "29" by {
      assert ShowNat(2) == "2";
    }
    assert MonthNames[1] == "February";
  }

  lemma PaddedExamples()
    ensures ZeroPad(2020, 4) == "2020" && ZeroPad(4, 2) == "04" && ZeroPad(5, 2) == "05"
  {
    assert ShowNat(2020) == "2020" by {
      assert ShowNat(2) == "2" && ShowNat(20) == "20" && ShowNat(202) == "202";
    }
    assert ShowNat(4) == "4" && ShowNat(5) == "5";
  }

  lemma IsoFormatExample(d: Date)
    requires d == Date(2020, 4, 5)
    ensures IsoFormat(d) == "2020-04-05"
  {
    assert IsoFormat(d) == ZeroPad(2020, 4) + "-" + ZeroPad(4, 2) + "-" + ZeroPad(5, 2);
    PaddedExamples();
  }

  lemma GetDateExample(d: Date)
    requires d == Date(2020, 4, 5)
    ensures GetDate(UploadedLine(d)) == Ok("2020-04-05")
  {
    GetDateRoundTrip(d);
    IsoFormatExample(d);
  }
}
