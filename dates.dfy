/**
 * Dates as the bot reads them from encyclopedia text (`find_dates_in_text`), the era table
 * with its inclusive range test (`ERA_RANGES`, `is_date_in_range`), and the ISO and
 * day.month.year texts the bot writes and reads back.
 *
 * The regular expressions themselves are not modelled: a `Scan` holds the groups that
 * `re.finditer` captured for each of the three patterns, in text order. What happens to the
 * captured groups afterwards is modelled exactly.
 */
module Dates {
  import opened Wrappers
  import opened Text

  // ---------------------------------------------------------------------------
  // Proleptic Gregorian calendar, as Python's `datetime` checks it
  // ---------------------------------------------------------------------------

  datatype Date = Date(year: int, month: int, day: int)

  /** `datetime.MINYEAR` and `datetime.MAXYEAR`. */
  const MinYear := 1
  const MaxYear := 9999

  predicate IsLeapYear(y: int)
  {
    y % 4 == 0 && (y % 100 != 0 || y % 400 == 0)
  }

  function DaysInMonth(y: int, m: int): (n: int)
    requires 1 <= m <= 12
    ensures 28 <= n <= 31
  {
    if m == 2 then (if IsLeapYear(y) then 29 else 28)
    else if m == 4 || m == 6 || m == 9 || m == 11 then 30
    else 31
  }

  /** The triples `datetime(year, month, day)` accepts; every other triple raises `ValueError`. */
  predicate IsValidDate(d: Date)
  {
    MinYear <= d.year <= MaxYear && 1 <= d.month <= 12 && 1 <= d.day <= DaysInMonth(d.year, d.month)
  }

  /** February has a 29th day exactly in leap years and never a 30th. */
  lemma FebruaryDays(y: int)
    requires MinYear <= y <= MaxYear
    ensures IsValidDate(Date(y, 2, 29)) <==> IsLeapYear(y)
    ensures !IsValidDate(Date(y, 2, 30))
  {
  }

  // ---------------------------------------------------------------------------
  // Month names
  // ---------------------------------------------------------------------------

  /** The genitive month names of the month-name pattern, January first. */
  const MonthNames: seq<string> := [
    "января", "февраля", "марта", "апреля", "мая", "июня",
    "июля", "августа", "сентября", "октября", "ноября", "декабря"
  ]

  /** `month_map` in `find_dates_in_text`. */
  const MonthMap: map<string, int> := map[
    "января" := 1, "февраля" := 2, "марта" := 3, "апреля" := 4,
    "мая" := 5, "июня" := 6, "июля" := 7, "августа" := 8,
    "сентября" := 9, "октября" := 10, "ноября" := 11, "декабря" := 12
  ]

  /** `month_map[word]`, or `None` where the lookup raises `KeyError`. */
  function MonthNumber(word: string): Option<int>
  {
    if word in MonthMap then Some(MonthMap[word]) else None
  }

  /** `month_map` gives each of the twelve names its month number, and nothing else. */
  lemma MonthMapIsNumbering(word: string)
    ensures MonthNumber(word).Some? <==> word in MonthNames
    ensures MonthNumber(word).Some? ==>
              var m := MonthNumber(word).value; 1 <= m <= 12 && MonthNames[m - 1] == word
  {
  }

  /** Each of the twelve names is looked up to its own month number. */
  lemma MonthNumberOfName(m: int)
    requires 1 <= m <= 12
    ensures MonthNumber(MonthNames[m - 1]) == Some(m)
  {
  }

  // ---------------------------------------------------------------------------
  // Converting one match
  // ---------------------------------------------------------------------------

  /** The three date patterns of `find_dates_in_text`, in the order it tries them. */
  datatype Pattern =
    | DayMonthNameYear  // `27 мая 1703`
    | YearMonthDay      // `1703-05-27` (hyphen or en dash)
    | DayMonthYear      // `27-05-1703` (hyphen or en dash)

  const Patterns: seq<Pattern> := [DayMonthNameYear, YearMonthDay, DayMonthYear]

  /** The three groups one match captured, in the order the pattern captures them. */
  datatype Groups = Groups(first: string, second: string, third: string)

  /** What `re.finditer` found for each pattern in one text, each list in text order. */
  datatype Scan = Scan(byMonthName: seq<Groups>, byYearMonthDay: seq<Groups>, byDayMonthYear: seq<Groups>)

  function MatchesOf(scan: Scan, p: Pattern): seq<Groups>
  {
    match p
    case DayMonthNameYear => scan.byMonthName
    case YearMonthDay => scan.byYearMonthDay
    case DayMonthYear => scan.byDayMonthYear
  }

  /** The years `find_dates_in_text` keeps; dates outside are skipped. */
  const FirstYear := 800
  const LastYear := 2100

  /**
   * The year, month and day one match denotes, reading the groups in pattern order:
   * day, month name, year; year, month, day; or day, month, year. `None` where `int`
   * or `month_map` raises.
   */
  function Fields(p: Pattern, g: Groups): Option<Date>
  {
    var (y, m, d) :=
      match p
      case DayMonthNameYear => (ParseInt(g.third), MonthNumber(Lower(g.second)), ParseInt(g.first))
      case YearMonthDay => (ParseInt(g.first), ParseInt(g.second), ParseInt(g.third))
      case DayMonthYear => (ParseInt(g.third), ParseInt(g.second), ParseInt(g.first));
    if y.Some? && m.Some? && d.Some? then Some(Date(y.value, m.value, d.value)) else None
  }

  /**
   * The body of the inner loop of `find_dates_in_text` for one match: the date it appends,
   * or `None` when the match is skipped (a conversion raised, `datetime` refused the
   * triple, or the year is outside 800..2100).
   */
  function Convert(p: Pattern, g: Groups): (r: Option<Date>)
    ensures r.Some? ==> IsValidDate(r.value) && FirstYear <= r.value.year <= LastYear
  {
    match Fields(p, g)
    case None => None
    case Some(d) => if IsValidDate(d) && FirstYear <= d.year <= LastYear then Some(d) else None
  }

  /** How a date is written in the text each pattern recognises. */
  function Written(p: Pattern, d: Date): Groups
    requires 1 <= d.month <= 12 && d.year >= 0 && d.day >= 0
  {
    match p
    case DayMonthNameYear => Groups(DecimalText(d.day), MonthNames[d.month - 1], DecimalText(d.year))
    case YearMonthDay => Groups(DecimalText(d.year), DecimalText(d.month), DecimalText(d.day))
    case DayMonthYear => Groups(DecimalText(d.day), DecimalText(d.month), DecimalText(d.year))
  }

  /** A month name as the text may capitalise it (the patterns are matched ignoring case). */
  lemma MonthNamesAreLowerCase(m: int)
    requires 1 <= m <= 12
    ensures Lower(MonthNames[m - 1]) == MonthNames[m - 1]
  {
    var w := MonthNames[m - 1];
    assert forall i :: 0 <= i < |w| ==> LowerChar(w[i]) == w[i];
  }

  /** Every pattern reads the three numbers back from the text it recognises. */
  lemma FieldsWritten(p: Pattern, d: Date)
    requires 1 <= d.month <= 12 && d.year >= 0 && d.day >= 0
    ensures Fields(p, Written(p, d)) == Some(d)
  {
    var y, m, dd := ParseInt(DecimalText(d.year)), ParseInt(DecimalText(d.month)), ParseInt(DecimalText(d.day));
    assert y == Some(d.year) && m == Some(d.month) && dd == Some(d.day);
    if p == DayMonthNameYear {
      MonthNameRead(d.month);
    }
  }

  /** A month name as the text writes it is looked up to its month number. */
  lemma MonthNameRead(m: int)
    requires 1 <= m <= 12
    ensures MonthNumber(Lower(MonthNames[m - 1])) == Some(m)
  {
    MonthNamesAreLowerCase(m);
    MonthNumberOfName(m);
  }

  /**
   * Every pattern reads back the date written in its own field order exactly when it is a
   * calendar date in 800..2100; any other triple (the 30th of February, the 31st of April) is
   * dropped, not raised. A pattern that swapped two fields would break this round trip.
   */
  lemma ConvertWritten(p: Pattern, d: Date)
    requires 1 <= d.month <= 12 && d.year >= 0 && d.day >= 0
    ensures Convert(p, Written(p, d)) == if IsValidDate(d) && FirstYear <= d.year <= LastYear then Some(d) else None
  {
    FieldsWritten(p, d);
  }

  /** A month 13 is refused by the calendar and dropped, not raised, in both numeric patterns. */
  lemma MonthThirteenDropped(y: int, d: int)
    requires FirstYear <= y <= LastYear && 1 <= d <= 31
    ensures Convert(YearMonthDay, Groups(DecimalText(y), "13", DecimalText(d))) == None
    ensures Convert(DayMonthYear, Groups(DecimalText(d), "13", DecimalText(y))) == None
  {
    assert ParseInt("13") == Some(13) by {
      DigitsValueStep("13", 0);
      DigitsValueStep("13", 1);
      assert "13"[..2] == "13";
    }
    assert Fields(YearMonthDay, Groups(DecimalText(y), "13", DecimalText(d))) == Some(Date(y, 13, d));
    assert Fields(DayMonthYear, Groups(DecimalText(d), "13", DecimalText(y))) == Some(Date(y, 13, d));
  }

  // ---------------------------------------------------------------------------
  // All matches of a text
  // ---------------------------------------------------------------------------

  /** The dates the matches of one pattern contribute, in match order. */
  function DatesFrom(p: Pattern, ms: seq<Groups>): (ds: seq<Date>)
    ensures |ds| <= |ms|
    ensures forall d :: d in ds ==> IsValidDate(d) && FirstYear <= d.year <= LastYear
    decreases |ms|
  {
    if ms == [] then []
    else
      var before := DatesFrom(p, ms[..|ms| - 1]);
      match Convert(p, ms[|ms| - 1])
      case Some(d) => before + [d]
      case None => before
  }

  /** The dates of the first `|ps|` patterns, pattern after pattern. */
  function DatesOver(scan: Scan, ps: seq<Pattern>): seq<Date>
    decreases |ps|
  {
    if ps == [] then []
    else DatesOver(scan, ps[..|ps| - 1]) + DatesFrom(ps[|ps| - 1], MatchesOf(scan, ps[|ps| - 1]))
  }

  /** What `find_dates_in_text` returns for a text with these matches. */
  function DatesIn(scan: Scan): seq<Date>
  {
    DatesOver(scan, Patterns)
  }

  /** The result lists the month-name dates, then the year-month-day dates, then the day-month-year dates. */
  lemma DatesInPatternOrder(scan: Scan)
    ensures DatesIn(scan) == DatesFrom(DayMonthNameYear, scan.byMonthName)
                             + DatesFrom(YearMonthDay, scan.byYearMonthDay)
                             + DatesFrom(DayMonthYear, scan.byDayMonthYear)
  {
    assert DatesOver(scan, Patterns[..1]) == DatesFrom(DayMonthNameYear, scan.byMonthName) by {
      assert Patterns[..1][..0] == [];
    }
    assert DatesOver(scan, Patterns[..2])
        == DatesOver(scan, Patterns[..1]) + DatesFrom(YearMonthDay, scan.byYearMonthDay) by {
      assert Patterns[..2][..1] == Patterns[..1];
    }
    assert DatesOver(scan, Patterns)
        == DatesOver(scan, Patterns[..2]) + DatesFrom(DayMonthYear, scan.byDayMonthYear) by {
      assert Patterns[..2] == Patterns[..|Patterns| - 1];
    }
  }

  /**
   * The matches of one pattern contribute in text order and nothing is deduplicated:
   * the dates of two stretches of matches are the dates of the first followed by those
   * of the second.
   */
  lemma {:induction false} DatesFromAppend(p: Pattern, a: seq<Groups>, b: seq<Groups>)
    ensures DatesFrom(p, a + b) == DatesFrom(p, a) + DatesFrom(p, b)
    decreases |b|
  {
    if b == [] {
      assert a + b == a;
    } else {
      var b' := b[..|b| - 1];
      assert (a + b)[..|a + b| - 1] == a + b';
      assert (a + b)[|a + b| - 1] == b[|b| - 1];
      DatesFromAppend(p, a, b');
    }
  }

  /** Every date `find_dates_in_text` returns is a real calendar date in 800..2100. */
  lemma {:induction false} DatesInWindow(scan: Scan, ps: seq<Pattern>)
    ensures forall d :: d in DatesOver(scan, ps) ==> IsValidDate(d) && FirstYear <= d.year <= LastYear
    decreases |ps|
  {
    if ps != [] {
      DatesInWindow(scan, ps[..|ps| - 1]);
    }
  }

  /** `find_dates_in_text`: every pattern over the whole text, every match in turn. */
  method FindDatesInText(scan: Scan) returns (dates: seq<Date>)
    ensures dates == DatesIn(scan)
    ensures forall d :: d in dates ==> IsValidDate(d) && FirstYear <= d.year <= LastYear
  {
    dates := [];
    var k := 0;
    while k < |Patterns|
      invariant 0 <= k <= |Patterns|
      invariant dates == DatesOver(scan, Patterns[..k])
    {
      var pattern := Patterns[k];
      var matches := MatchesOf(scan, pattern);
      var j := 0;
      while j < |matches|
        invariant 0 <= j <= |matches|
        invariant dates == DatesOver(scan, Patterns[..k]) + DatesFrom(pattern, matches[..j])
      {
        assert matches[..j + 1][..j] == matches[..j];
        var date := Convert(pattern, matches[j]);
        if date.Some? {
          dates := dates + [date.value];
        }
        j := j + 1;
      }
      assert matches[..j] == matches;
      assert Patterns[..k + 1][..k] == Patterns[..k];
      k := k + 1;
    }
    assert Patterns[..k] == Patterns;
    DatesInWindow(scan, Patterns);
  }

  // ---------------------------------------------------------------------------
  // Eras
  // ---------------------------------------------------------------------------

  /** One entry of `ERA_RANGES`: start and end years as the table writes them, and a display name. */
  datatype EraRange = EraRange(start: string, end: string, name: string)

  /** `ERA_RANGES`; the modern era ends in the current year, which is a parameter here. */
  function EraRanges(currentYear: nat): map<string, EraRange>
  {
    map[
      "ancient_rus" := EraRange("0800", "1547", "Древняя Русь (IX-XVI вв.)"),
      "tsar_rus" := EraRange("1547", "1721", "Царская Россия (XVI-XVIII вв.)"),
      "imperial" := EraRange("1721", "1917", "Императорская Россия (XVIII-XX вв.)"),
      "soviet" := EraRange("1917", "1991", "Советский период (1917-1991)"),
      "modern" := EraRange("1991", DecimalText(currentYear), "Наше время (с 1991)")
    ]
  }

  /** The keys of `ERA_RANGES`, which are also the era names the bot stores. */
  const EraKeys: set<string> := {"ancient_rus", "tsar_rus", "imperial", "soviet", "modern"}

  /** Both bounds are texts `int()` accepts. */
  predicate IsEraRange(r: EraRange)
  {
    r.start != [] && IsDigits(r.start) && r.end != [] && IsDigits(r.end)
  }

  function StartYear(r: EraRange): int
    requires IsEraRange(r)
  {
    ParseInt(r.start).value
  }

  function EndYear(r: EraRange): int
    requires IsEraRange(r)
  {
    ParseInt(r.end).value
  }

  /** `is_date_in_range`. */
  function IsDateInRange(d: Date, r: EraRange): bool
    requires IsEraRange(r)
  {
    StartYear(r) <= d.year <= EndYear(r)
  }

  lemma FourDigitValue(s: string, n: int)
    requires |s| == 4 && IsDigits(s)
    requires n == DigitValue(s[0]) * 1000 + DigitValue(s[1]) * 100 + DigitValue(s[2]) * 10 + DigitValue(s[3])
    ensures DigitsValue(s) == n
  {
    DigitsValueStep(s, 0);
    DigitsValueStep(s, 1);
    DigitsValueStep(s, 2);
    DigitsValueStep(s, 3);
    assert s[..4] == s;
  }

  /** The era table's keys, each with both bounds readable by `int()`. */
  lemma EraTableKeys(currentYear: nat)
    ensures EraRanges(currentYear).Keys == EraKeys
    ensures forall k :: k in EraKeys ==> IsEraRange(EraRanges(currentYear)[k])
  {
    var t := EraRanges(currentYear);
    assert t["ancient_rus"].start == "0800" && t["ancient_rus"].end == "1547";
    assert t["tsar_rus"].start == "1547" && t["tsar_rus"].end == "1721";
    assert t["imperial"].start == "1721" && t["imperial"].end == "1917";
    assert t["soviet"].start == "1917" && t["soviet"].end == "1991";
    assert t["modern"].start == "1991" && t["modern"].end == DecimalText(currentYear);
  }

  /** Bounds whose texts are the four digits of `start` and `end`. */
  lemma RangeYears(r: EraRange, start: nat, end: nat)
    requires |r.start| == 4 && IsDigits(r.start) && |r.end| == 4 && IsDigits(r.end)
    requires start == DigitValue(r.start[0]) * 1000 + DigitValue(r.start[1]) * 100 + DigitValue(r.start[2]) * 10 + DigitValue(r.start[3])
    requires end == DigitValue(r.end[0]) * 1000 + DigitValue(r.end[1]) * 100 + DigitValue(r.end[2]) * 10 + DigitValue(r.end[3])
    ensures IsEraRange(r) && StartYear(r) == start && EndYear(r) == end
  {
    FourDigitValue(r.start, start);
    FourDigitValue(r.end, end);
  }

  /**
   * The era table's years as `int()` reads them; consecutive eras share their boundary year,
   * and the modern era ends in the current year.
   */
  lemma EraTable(currentYear: nat)
    requires currentYear >= 1991
    ensures EraRanges(currentYear).Keys == EraKeys
    ensures forall k :: k in EraKeys ==> IsEraRange(EraRanges(currentYear)[k])
    ensures var t := EraRanges(currentYear);
            StartYear(t["ancient_rus"]) == 800 && EndYear(t["ancient_rus"]) == 1547 &&
            StartYear(t["tsar_rus"]) == 1547 && EndYear(t["tsar_rus"]) == 1721 &&
            StartYear(t["imperial"]) == 1721 && EndYear(t["imperial"]) == 1917 &&
            StartYear(t["soviet"]) == 1917 && EndYear(t["soviet"]) == 1991 &&
            StartYear(t["modern"]) == 1991 && EndYear(t["modern"]) == currentYear
  {
    EraTableKeys(currentYear);
    var t := EraRanges(currentYear);
    RangeYears(t["ancient_rus"], 800, 1547);
    RangeYears(t["tsar_rus"], 1547, 1721);
    RangeYears(t["imperial"], 1721, 1917);
    RangeYears(t["soviet"], 1917, 1991);
    var m := t["modern"];
    FourDigitValue(m.start, 1991);
    assert EndYear(m) == currentYear;
  }

  /** `d` falls in the era `k` of table `t`. */
  predicate InEra(d: Date, t: map<string, EraRange>, k: string)
  {
    k in t && IsEraRange(t[k]) && IsDateInRange(d, t[k])
  }

  /**
   * Both ends of a range are inclusive in `is_date_in_range`, so a date in a boundary year
   * falls in both eras that meet there.
   */
  lemma SharedBoundaries(currentYear: nat, d: Date)
    requires currentYear >= 1991
    ensures var t := EraRanges(currentYear);
            (d.year == 1547 ==> InEra(d, t, "ancient_rus") && InEra(d, t, "tsar_rus")) &&
            (d.year == 1721 ==> InEra(d, t, "tsar_rus") && InEra(d, t, "imperial")) &&
            (d.year == 1917 ==> InEra(d, t, "imperial") && InEra(d, t, "soviet")) &&
            (d.year == 1991 ==> InEra(d, t, "soviet") && InEra(d, t, "modern"))
  {
    EraTable(currentYear);
  }

  // ---------------------------------------------------------------------------
  // ISO and day.month.year texts
  // ---------------------------------------------------------------------------

  /** The four decimal digits of a year below 10000. */
  lemma FourDigits(y: int)
    requires 0 <= y < 10000
    ensures 0 <= y / 1000 < 10 && y == y / 1000 * 1000 + y / 100 % 10 * 100 + y / 10 % 10 * 10 + y % 10
  {
    var q := y / 10;
    assert y == q * 10 + y % 10;
    var q2 := q / 10;
    assert q == q2 * 10 + q % 10;
    assert q % 10 == y / 10 % 10;
    assert q2 == y / 100;
    assert q2 == q2 / 10 * 10 + q2 % 10;
    assert q2 / 10 == y / 1000;
  }

  /** `strftime('%Y')`: the year zero-padded to four digits. */
  function YearText(y: int): (s: string)
    requires 0 <= y < 10000
    ensures |s| == 4 && IsDigits(s) && DigitsValue(s) == y
  {
    var a, b, c, e := y / 1000, y / 100 % 10, y / 10 % 10, y % 10;
    FourDigits(y);
    var s := [DigitChar(a), DigitChar(b), DigitChar(c), DigitChar(e)];
    FourDigitValue(s, y);
    s
  }

  /** `date.strftime('%Y-%m-%d')`. */
  function IsoText(d: Date): string
    requires IsValidDate(d)
  {
    YearText(d.year) + "-" + Pad2(d.month) + "-" + Pad2(d.day)
  }

  /** `date.strftime('%d.%m.%Y')`. */
  function DayMonthYearText(d: Date): string
    requires IsValidDate(d)
  {
    Pad2(d.day) + "." + Pad2(d.month) + "." + YearText(d.year)
  }

  function TwoDigitValue(s: string): (n: nat)
    requires |s| == 2 && IsDigits(s)
    ensures n == DigitsValue(s) && n < 100
  {
    DigitsValueStep(s, 0);
    DigitsValueStep(s, 1);
    assert s[..2] == s;
    DigitValue(s[0]) * 10 + DigitValue(s[1])
  }

  /** Two digits at `t[k..k + 2]` whose value is below `bound`. */
  predicate TwoDigitsBelow(t: string, k: nat, bound: nat)
    requires k + 2 <= |t|
  {
    IsDigits(t[k..k + 2]) && TwoDigitValue(t[k..k + 2]) < bound
  }

  /** A clock time `HH:MM:SS`, optionally followed by a UTC offset `+HH:MM` or `-HH:MM`. */
  predicate IsTimeText(t: string)
  {
    (|t| == 8 || |t| == 14) &&
    TwoDigitsBelow(t, 0, 24) && t[2] == ':' && TwoDigitsBelow(t, 3, 60) && t[5] == ':' && TwoDigitsBelow(t, 6, 60) &&
    (|t| == 14 ==>
       (t[8] == '+' || t[8] == '-') && TwoDigitsBelow(t, 9, 24) && t[11] == ':' && TwoDigitsBelow(t, 12, 60))
  }

  /**
   * `datetime.fromisoformat(s)` for the texts that reach it: `YYYY-MM-DD`, or that followed
   * by one separator character and an `IsTimeText` clock time. `None` for every other text,
   * including some forms `fromisoformat` would read.
   */
  function ParseIsoDateTime(s: string): (r: Option<Date>)
    ensures r.Some? ==> IsValidDate(r.value)
  {
    if |s| < 10 || !IsDigits(s[..4]) || s[4] != '-' || !IsDigits(s[5..7]) || s[7] != '-' || !IsDigits(s[8..10]) then None
    else
      var d := Date(DigitsValue(s[..4]), TwoDigitValue(s[5..7]), TwoDigitValue(s[8..10]));
      if !IsValidDate(d) then None
      else if |s| == 10 || (|s| > 11 && IsTimeText(s[11..])) then Some(d)
      else None
  }

  /** `fromisoformat` reads back every date `strftime('%Y-%m-%d')` writes. */
  lemma IsoRoundTrip(d: Date)
    requires IsValidDate(d)
    ensures ParseIsoDateTime(IsoText(d)) == Some(d)
  {
    var s := IsoText(d);
    assert s[..4] == YearText(d.year);
    assert s[5..7] == Pad2(d.month);
    assert s[8..10] == Pad2(d.day);
  }

  /** ... and the date of that text followed by any separator and a valid clock time. */
  lemma IsoTimeRoundTrip(d: Date, sep: char, time: string)
    requires IsValidDate(d) && IsTimeText(time)
    ensures ParseIsoDateTime(IsoText(d) + [sep] + time) == Some(d)
  {
    var s := IsoText(d) + [sep] + time;
    assert s[..4] == YearText(d.year);
    assert s[5..7] == Pad2(d.month);
    assert s[8..10] == Pad2(d.day);
    assert s[11..] == time;
  }

  /** The texts the bot sends to `fromisoformat`: Wikidata's `Z` suffix becomes `+00:00` first. */
  function UtcToOffset(s: string): string
  {
    ReplaceChar(s, 'Z', "+00:00")
  }

  /**
   * The date shown in a message: `strftime('%d.%m.%Y')` of what `fromisoformat` reads from
   * the stored date, or the stored text unchanged where it raises.
   */
  function DisplayDate(stored: string): (shown: string)
    ensures ParseIsoDateTime(UtcToOffset(stored)).None? ==> shown == stored
    ensures ParseIsoDateTime(UtcToOffset(stored)).Some? ==>
              var d := ParseIsoDateTime(UtcToOffset(stored)).value;
              |shown| == 10 && shown[2] == '.' && shown[5] == '.' &&
              IsDigits(shown[..2]) && IsDigits(shown[3..5]) && IsDigits(shown[6..]) &&
              DigitsValue(shown[..2]) == d.day && DigitsValue(shown[3..5]) == d.month && DigitsValue(shown[6..]) == d.year
  {
    match ParseIsoDateTime(UtcToOffset(stored))
    case Some(d) =>
      var shown := DayMonthYearText(d);
      assert shown[..2] == Pad2(d.day) && shown[3..5] == Pad2(d.month) && shown[6..] == YearText(d.year);
      shown
    case None => stored
  }

  lemma {:induction false} ReplaceCharAppend(a: string, b: string, c: char, rep: string)
    ensures ReplaceChar(a + b, c, rep) == ReplaceChar(a, c, rep) + ReplaceChar(b, c, rep)
    decreases |a|
  {
    if a == [] {
      assert a + b == b;
    } else {
      assert (a + b)[1..] == a[1..] + b;
      assert (a + b)[0] == a[0];
      ReplaceCharAppend(a[1..], b, c, rep);
    }
  }

  lemma {:induction false} ReplaceCharAbsent(a: string, c: char, rep: string)
    requires c !in a
    ensures ReplaceChar(a, c, rep) == a
    decreases |a|
  {
    if a != [] {
      ReplaceCharAbsent(a[1..], c, rep);
      assert a == [a[0]] + a[1..];
    }
  }

  /** Replacing a final `c` that occurs nowhere else. */
  lemma ReplaceCharFinal(a: string, c: char, rep: string)
    requires c !in a
    ensures ReplaceChar(a + [c], c, rep) == a + rep
  {
    ReplaceCharAppend(a, [c], c, rep);
    ReplaceCharAbsent(a, c, rep);
    assert [c][1..] == [];
  }

  /** A date the bot wrote as `YYYY-MM-DD` is shown as `DD.MM.YYYY`. */
  lemma IsoDateDisplayed(d: Date)
    requires IsValidDate(d)
    ensures DisplayDate(IsoText(d)) == DayMonthYearText(d)
  {
    IsoTextHasNoZ(d);
    ReplaceCharAbsent(IsoText(d), 'Z', "+00:00");
    IsoRoundTrip(d);
  }

  /** Midnight with a zero UTC offset is a clock time `fromisoformat` accepts. */
  lemma MidnightUtcIsTime()
    ensures IsTimeText("00:00:00+00:00")
  {
    var t := "00:00:00+00:00";
    assert t[0..2] == t[3..5] == t[6..8] == t[9..11] == t[12..14] == "00";
    assert TwoDigitValue("00") == 0;
  }

  lemma IsoTextHasNoZ(d: Date)
    requires IsValidDate(d)
    ensures 'Z' !in IsoText(d)
  {
    var iso := IsoText(d);
    assert forall i :: 0 <= i < |iso| ==> iso[i] != 'Z' by {
      assert iso == YearText(d.year) + "-" + Pad2(d.month) + "-" + Pad2(d.day);
    }
  }

  /** Only the final `Z` of a Wikidata point in time changes before `fromisoformat` reads it. */
  lemma WikidataTimestampOffset(d: Date)
    requires IsValidDate(d)
    ensures UtcToOffset(IsoText(d) + "T00:00:00Z") == IsoText(d) + ['T'] + "00:00:00+00:00"
  {
    IsoTextHasNoZ(d);
    var a := IsoText(d) + "T00:00:00";
    assert 'Z' !in a;
    assert IsoText(d) + "T00:00:00Z" == a + ['Z'];
    ReplaceCharFinal(a, 'Z', "+00:00");
  }

  /**
   * A Wikidata point in time (`YYYY-MM-DDT00:00:00Z`) is shown as `DD.MM.YYYY`; for example
   * `1703-05-27T00:00:00Z` is shown as `27.05.1703`.
   */
  lemma WikidataDateDisplayed(d: Date)
    requires IsValidDate(d)
    ensures DisplayDate(IsoText(d) + "T00:00:00Z") == DayMonthYearText(d)
  {
    WikidataTimestampOffset(d);
    MidnightUtcIsTime();
    IsoTimeRoundTrip(d, 'T', "00:00:00+00:00");
  }
}
