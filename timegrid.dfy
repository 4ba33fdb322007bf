/**
 * The time grid the drivers walk: whole hours since Go's zero time
 * (0001-01-01 00:00 UTC), the days they fall in, the hours each day of a
 * requested range covers, and the names built from them.
 *
 * Times are parsed at hour resolution with no zone, so they are UTC, and
 * `Truncate(24h)` / `Round(24h)` align to absolute multiples of 24 hours.
 */
module TimeGrid {
  import opened LexOrder
  import opened FileSystem

  /** Hours since 0001-01-01 00:00 UTC. */
  type Hour = nat

  /** `t.Truncate(24 * time.Hour)`: midnight of the day containing `h`. */
  function Day(h: Hour): (d: Hour)
    ensures d % 24 == 0 && d <= h < d + 24
  {
    h - h % 24
  }

  /** `t.Hour()`. */
  function HourOfDay(h: Hour): (r: nat)
    ensures r < 24 && Day(h) + r == h
  {
    h % 24
  }

  /** `t.Round(24 * time.Hour)`: the nearest midnight, halfway rounding up. */
  function Round24(h: Hour): (r: Hour)
    ensures r % 24 == 0
    ensures r <= h + 12 && h < r + 12
  {
    if h % 24 < 12 then Day(h) else Day(h) + 24
  }

  /** A midnight has only one nearest midnight: itself. */
  lemma Round24IsUnique(h: Hour, r: Hour)
    requires r % 24 == 0 && r <= h + 12 && h < r + 12
    ensures r == Round24(h)
  {
    var q := Round24(h);
    assert (r - q) % 24 == 0;
  }

  /**
   * `dayCount`, the total the day progress bar is given: the whole days from
   * the start's midnight to the end rounded to a midnight.
   */
  function DayCount(start: Hour, end: Hour): int
  {
    (Round24(end) - Day(start)) / 24
  }

  /** How many times the outer date loop runs: midnights from `Day(start)` up to `end`. */
  function NumDays(start: Hour, end: Hour): (n: nat)
    ensures forall k: nat :: k < n <==> Day(start) + 24 * k <= end
  {
    if Day(start) <= end then (end - Day(start)) / 24 + 1 else 0
  }

  /**
   * The day count matches the days the loop visits only when the end hour is
   * in the second half of its day; otherwise the bar is given one day too few.
   */
  lemma DayCountMatchesOnlyAfterNoon(start: Hour, end: Hour)
    requires Day(start) <= end
    ensures DayCount(start, end) == NumDays(start, end) <==> HourOfDay(end) >= 12
    ensures HourOfDay(end) < 12 ==> DayCount(start, end) == NumDays(start, end) - 1
  {
    var d0 := Day(start);
    var n := (Day(end) - d0) / 24;
    assert (Day(end) - d0) % 24 == 0;
    assert Day(end) - d0 == 24 * n;
    assert (end - d0) / 24 == n;
    if HourOfDay(end) >= 12 {
      assert Round24(end) - d0 == 24 * (n + 1);
    } else {
      assert Round24(end) - d0 == 24 * n;
    }
  }

  /** The hours `a, a + 1, ..., b - 1`. */
  function Range(a: Hour, b: Hour): (r: seq<Hour>)
    ensures |r| == if a <= b then b - a else 0
    ensures forall i :: 0 <= i < |r| ==> r[i] == a + i
    decreases b - a
  {
    if a < b then [a] + Range(a + 1, b) else []
  }

  lemma {:induction false} RangeSplit(a: Hour, m: Hour, b: Hour)
    requires a <= m <= b
    ensures Range(a, b) == Range(a, m) + Range(m, b)
  {
    assert Range(a, b) == Range(a, m) + Range(m, b);
  }

  function Max(a: Hour, b: Hour): Hour { if a < b then b else a }
  function Min(a: Hour, b: Hour): Hour { if a < b then a else b }

  /** Midnight of the `k`-th day the outer loop visits. */
  function DayStart(start: Hour, k: nat): (d: Hour)
    ensures d % 24 == 0
  {
    Day(start) + 24 * k
  }

  /**
   * The hours the inner loop visits on the day starting at `d`: from the
   * start (on the first day) or midnight, up to the next midnight or the end.
   */
  function HoursOf(start: Hour, end: Hour, d: Hour): seq<Hour>
  {
    Range(Max(start, d), Min(d + 24, end + 1))
  }

  /** The hours of days `0 .. k - 1`, in loop order. */
  function GridHours(start: Hour, end: Hour, k: nat): seq<Hour>
  {
    if k == 0 then [] else GridHours(start, end, k - 1) + HoursOf(start, end, DayStart(start, k - 1))
  }

  lemma GridHoursStep(start: Hour, end: Hour, k: nat)
    ensures GridHours(start, end, k + 1) == GridHours(start, end, k) + HoursOf(start, end, DayStart(start, k))
  {
  }

  /**
   * Where `curTime` stands when the outer loop reaches day `k`: it is never
   * reset at a midnight, so it runs on from the previous day.
   */
  function CurTimeAt(start: Hour, end: Hour, k: nat): Hour
  {
    Max(start, Min(DayStart(start, k), end + 1))
  }

  /** The first `k` days visit exactly the hours from the start up to where `curTime` stands. */
  lemma {:induction false} GridHoursSoFar(start: Hour, end: Hour, k: nat)
    ensures GridHours(start, end, k) == Range(start, CurTimeAt(start, end, k))
  {
    if k > 0 {
      var j: nat := k - 1;
      GridHoursSoFar(start, end, j);
      GridHoursStep(start, end, j);
      CurTimeStep(start, end, j);
      var c := CurTimeAt(start, end, j);
      RangeSplit(start, c, CurTimeAt(start, end, k));
    }
  }

  /** One day of the loop takes `curTime` from where it stood over exactly that day's hours. */
  lemma CurTimeStep(start: Hour, end: Hour, j: nat)
    ensures start <= CurTimeAt(start, end, j) <= CurTimeAt(start, end, j + 1)
    ensures HoursOf(start, end, DayStart(start, j)) == Range(CurTimeAt(start, end, j), CurTimeAt(start, end, j + 1))
  {
    var d := DayStart(start, j);
    assert DayStart(start, j + 1) == d + 24;
  }

  /** Every hour from the start to the end, each once and in order, and no other. */
  lemma GridVisitsEachHourOnce(start: Hour, end: Hour)
    ensures GridHours(start, end, NumDays(start, end)) == Range(start, end + 1)
  {
    GridHoursSoFar(start, end, NumDays(start, end));
  }

  /** Each hour visited on a day lies inside that day. */
  lemma HoursLieInTheirDay(start: Hour, end: Hour, k: nat)
    ensures forall h :: h in HoursOf(start, end, DayStart(start, k)) ==> Day(h) == DayStart(start, k)
  {
    var d := DayStart(start, k);
    forall h | h in HoursOf(start, end, d) ensures Day(h) == d {
      assert d <= h < d + 24;
    }
  }

  /** A range that starts and ends at the same hour is one day with one hour. */
  lemma SingleHourRange(t: Hour)
    ensures NumDays(t, t) == 1
    ensures HoursOf(t, t, DayStart(t, 0)) == [t]
  {
    assert Range(t, t + 1) == [t];
  }

  /**
   * A glob error continues the inner loop before `curTime` is advanced: the
   * next hour to look at, as written.
   */
  function NextHour(cur: Hour, globFailed: bool): Hour
  {
    if globFailed then cur else cur + 1
  }

  /** Where the inner loop stands after `n` more iterations, as written. */
  function HourAfter(cur: Hour, n: nat, globFails: Hour -> bool): Hour
    decreases n
  {
    if n == 0 then cur else HourAfter(NextHour(cur, globFails(cur)), n - 1, globFails)
  }

  /** A glob error is retried forever: the loop never gets past that hour. */
  lemma {:induction false} GlobErrorRetriesForever(cur: Hour, n: nat, globFails: Hour -> bool)
    requires globFails(cur)
    ensures HourAfter(cur, n, globFails) == cur
    decreases n
  {
    if n > 0 {
      GlobErrorRetriesForever(cur, n - 1, globFails);
    }
  }

  /** Without glob errors, each iteration advances exactly one hour. */
  lemma {:induction false} NoGlobErrorAdvances(cur: Hour, n: nat, globFails: Hour -> bool)
    requires forall h :: !globFails(h)
    ensures HourAfter(cur, n, globFails) == cur + n
    decreases n
  {
    if n > 0 {
      NoGlobErrorAdvances(cur + 1, n - 1, globFails);
    }
  }

  // ---------------------------------------------------------------------
  // Civil dates (proleptic Gregorian calendar, as Go's time package uses).

  datatype Date = Date(year: nat, month: nat, day: nat)

  predicate IsLeap(y: nat)
  {
    y % 4 == 0 && (y % 100 != 0 || y % 400 == 0)
  }

  function DaysInYear(y: nat): nat
  {
    if IsLeap(y) then 366 else 365
  }

  function DaysInMonth(y: nat, m: nat): (n: nat)
    ensures 28 <= n <= 31
  {
    if m == 2 then (if IsLeap(y) then 29 else 28)
    else if m == 4 || m == 6 || m == 9 || m == 11 then 30
    else 31
  }

  /** The date `d` days after the first of month `m` of year `y`. */
  function MonthAndDay(y: nat, m: nat, d: nat): (r: Date)
    requires 1 <= m <= 12
    ensures r.year == y && m <= r.month <= 12 && 1 <= r.day
    ensures d < DaysInMonth(y, m) ==> r == Date(y, m, d + 1)
    decreases 12 - m
  {
    if m == 12 || d < DaysInMonth(y, m) then Date(y, m, d + 1)
    else MonthAndDay(y, m + 1, d - DaysInMonth(y, m))
  }

  /** The date `d` days after January 1 of year `y`. */
  function YearAndDay(y: nat, d: nat): (r: Date)
    ensures r.year >= y && 1 <= r.month <= 12 && 1 <= r.day
    decreases d
  {
    if d < DaysInYear(y) then MonthAndDay(y, 1, d)
    else YearAndDay(y + 1, d - DaysInYear(y))
  }

  /** The days of year `y` in the months before month `m`. */
  function DaysBeforeMonth(y: nat, m: nat): nat
    requires 1 <= m <= 13
  {
    if m == 1 then 0 else DaysBeforeMonth(y, m - 1) + DaysInMonth(y, m - 1)
  }

  /** The twelve months make up the year. */
  lemma MonthsMakeYear(y: nat)
    ensures DaysBeforeMonth(y, 13) == DaysInYear(y)
  {
    var f := DaysInMonth(y, 2);
    assert DaysBeforeMonth(y, 2) == 31;
    assert DaysBeforeMonth(y, 3) == 31 + f;
    assert DaysBeforeMonth(y, 4) == 62 + f;
    assert DaysBeforeMonth(y, 5) == 92 + f;
    assert DaysBeforeMonth(y, 6) == 123 + f;
    assert DaysBeforeMonth(y, 7) == 153 + f;
    assert DaysBeforeMonth(y, 8) == 184 + f;
    assert DaysBeforeMonth(y, 9) == 215 + f;
    assert DaysBeforeMonth(y, 10) == 245 + f;
    assert DaysBeforeMonth(y, 11) == 276 + f;
    assert DaysBeforeMonth(y, 12) == 306 + f;
  }

  /** The days from 0001-01-01 to January 1 of year `y`. */
  function DaysBeforeYear(y: nat): nat
  {
    if y <= 1 then 0 else DaysBeforeYear(y - 1) + DaysInYear(y - 1)
  }

  /** A date's day number: the days from 0001-01-01 to it. */
  function DayNumber(dt: Date): nat
    requires 1 <= dt.month <= 12 && 1 <= dt.day
  {
    DaysBeforeYear(dt.year) + DaysBeforeMonth(dt.year, dt.month) + dt.day - 1
  }

  /** Counting `d` days on from the first of a month lands on a real date, `d` days on. */
  lemma {:induction false} MonthAndDayNumber(y: nat, m: nat, d: nat)
    requires 1 <= m <= 12 && DaysBeforeMonth(y, m) + d < DaysInYear(y)
    ensures var r := MonthAndDay(y, m, d);
      && r.day <= DaysInMonth(y, r.month)
      && DaysBeforeMonth(y, r.month) + r.day - 1 == DaysBeforeMonth(y, m) + d
    decreases 12 - m
  {
    MonthsMakeYear(y);
    if m < 12 && d >= DaysInMonth(y, m) {
      MonthAndDayNumber(y, m + 1, d - DaysInMonth(y, m));
    }
  }

  /** Counting `d` days on from January 1 of year `y` lands on a real date, `d` days on. */
  lemma {:induction false} YearAndDayNumber(y: nat, d: nat)
    requires y >= 1
    ensures var r := YearAndDay(y, d);
      r.day <= DaysInMonth(r.year, r.month) && DayNumber(r) == DaysBeforeYear(y) + d
    decreases d
  {
    if d < DaysInYear(y) {
      MonthAndDayNumber(y, 1, d);
    } else {
      YearAndDayNumber(y + 1, d - DaysInYear(y));
      assert DaysBeforeYear(y + 1) == DaysBeforeYear(y) + DaysInYear(y);
    }
  }

  /**
   * `t.Year()`, `t.Month()`, `t.Day()`: a date of the calendar whose day
   * number is the number of whole days since the zero time.
   */
  function Civil(h: Hour): (r: Date)
    ensures r.year >= 1 && 1 <= r.month <= 12 && 1 <= r.day <= DaysInMonth(r.year, r.month)
    ensures DayNumber(r) == h / 24
  {
    YearAndDayNumber(1, h / 24);
    YearAndDay(1, h / 24)
  }

  /** Two hours have the same date exactly when they lie in the same day. */
  lemma CivilSameDay(a: Hour, b: Hour)
    ensures Civil(a) == Civil(b) <==> a / 24 == b / 24
  {
  }

  /** All hours of one day have that day's date. */
  lemma CivilOfDay(h: Hour)
    ensures Civil(h) == Civil(Day(h))
  {
    assert Day(h) / 24 == h / 24;
  }

  // ---------------------------------------------------------------------
  // Decimal formatting (`%d` with zero padding, as in `%04d` and `%02d`).

  function DigitChar(n: nat): char
    requires n < 10
  {
    "0123456789"[n]
  }

  function DigitValue(c: char): nat
  {
    if '0' <= c <= '9' then (c as int - '0' as int) as nat else 0
  }

  predicate IsDigits(s: string)
  {
    forall k :: 0 <= k < |s| ==> '0' <= s[k] <= '9'
  }

  /** `%d` of a natural number. */
  function Digits(n: nat): (s: string)
    ensures |s| >= 1 && IsDigits(s)
  {
    if n < 10 then [DigitChar(n)] else Digits(n / 10) + [DigitChar(n % 10)]
  }

  function Zeros(k: nat): (s: string)
    ensures |s| == k && forall i :: 0 <= i < k ==> s[i] == '0'
  {
    if k == 0 then "" else "0" + Zeros(k - 1)
  }

  /** `%0<w>d`: the digits, padded on the left with zeros to at least `w` characters. */
  function Pad(n: nat, w: nat): (s: string)
    ensures IsDigits(s)
    ensures |s| == if |Digits(n)| >= w then |Digits(n)| else w
  {
    if |Digits(n)| >= w then Digits(n) else Zeros(w - |Digits(n)|) + Digits(n)
  }

  /** Reads a string of decimal digits back as a number. */
  function Value(s: string): nat
  {
    if s == [] then 0 else Value(s[..|s| - 1]) * 10 + DigitValue(s[|s| - 1])
  }

  lemma DigitRoundTrip(d: nat)
    requires d < 10
    ensures DigitValue(DigitChar(d)) == d
  {
  }

  lemma {:induction false} ValueOfDigits(n: nat)
    ensures Value(Digits(n)) == n
  {
    if n < 10 {
      DigitRoundTrip(n);
      assert [DigitChar(n)][..0] == [];
    } else {
      ValueOfDigits(n / 10);
      DigitRoundTrip(n % 10);
      var s := Digits(n);
      assert s == Digits(n / 10) + [DigitChar(n % 10)];
      assert s[..|s| - 1] == Digits(n / 10);
      assert Value(s) == Value(Digits(n / 10)) * 10 + DigitValue(s[|s| - 1]);
    }
  }

  lemma {:induction false} ValueIgnoresLeadingZeros(k: nat, s: string)
    ensures Value(Zeros(k) + s) == Value(s)
    decreases k, |s|
  {
    if s == [] {
      assert Zeros(k) + s == Zeros(k);
      if k > 0 {
        assert Zeros(k)[..k - 1] == Zeros(k - 1);
        ValueIgnoresLeadingZeros(k - 1, []);
        assert Zeros(k - 1) + [] == Zeros(k - 1);
      }
    } else {
      var t := Zeros(k) + s;
      assert t[..|t| - 1] == Zeros(k) + s[..|s| - 1];
      ValueIgnoresLeadingZeros(k, s[..|s| - 1]);
    }
  }

  /** A padded number is its digits behind some number of zeros. */
  lemma PadShape(n: nat, w: nat)
    ensures Pad(n, w) == Zeros(PadWidth(n, w)) + Digits(n)
  {
    if |Digits(n)| >= w {
      assert Zeros(0) + Digits(n) == Digits(n);
    }
  }

  /** How many zeros `Pad(n, w)` puts in front of the digits. */
  function PadWidth(n: nat, w: nat): nat
  {
    if |Digits(n)| >= w then 0 else w - |Digits(n)|
  }

  /** Zero padding loses nothing: the number reads back from its padded form. */
  lemma PadRoundTrip(n: nat, w: nat)
    ensures Value(Pad(n, w)) == n
  {
    PadShape(n, w);
    ValueIgnoresLeadingZeros(PadWidth(n, w), Digits(n));
    ValueOfDigits(n);
  }

  /** Distinct numbers print differently at any width. */
  lemma PadInjective(x: nat, y: nat, w: nat)
    requires Pad(x, w) == Pad(y, w)
    ensures x == y
  {
    PadRoundTrip(x, w);
    PadRoundTrip(y, w);
  }

  /** Numbers below 100 take exactly two characters in `%02d`. */
  lemma {:induction false} TwoDigitPad(n: nat)
    requires n < 100
    ensures |Pad(n, 2)| == 2
  {
    if n >= 10 {
      assert Digits(n) == Digits(n / 10) + [DigitChar(n % 10)];
    }
  }

  // ---------------------------------------------------------------------
  // Names.

  /** `%04d-%02d-%02d` of the date of `h`. */
  function DateString(h: Hour): string
  {
    var c := Civil(h);
    Pad(c.year, 4) + "-" + Pad(c.month, 2) + "-" + Pad(c.day, 2)
  }

  /** The three fields of a date string: the year's digits, then two for the month and two for the day. */
  lemma DateStringParts(h: Hour)
    ensures var s := DateString(h);
      var c := Civil(h);
      && |s| >= 10
      && s[..|s| - 6] == Pad(c.year, 4)
      && s[|s| - 5..|s| - 3] == Pad(c.month, 2)
      && s[|s| - 2..] == Pad(c.day, 2)
  {
    var c := Civil(h);
    TwoDigitPad(c.month);
    TwoDigitPad(c.day);
    DashedFields(Pad(c.year, 4), Pad(c.month, 2), Pad(c.day, 2));
  }

  lemma DashedFields(y: string, m: string, d: string)
    requires |y| >= 4 && |m| == 2 && |d| == 2
    ensures var s := y + "-" + m + "-" + d;
      |s| >= 10 && s[..|s| - 6] == y && s[|s| - 5..|s| - 3] == m && s[|s| - 2..] == d
  {
  }

  /** Two hours print the same date exactly when they lie in the same day. */
  lemma DateStringSameDay(a: Hour, b: Hour)
    ensures DateString(a) == DateString(b) <==> a / 24 == b / 24
  {
    CivilSameDay(a, b);
    if DateString(a) == DateString(b) {
      var ca, cb := Civil(a), Civil(b);
      var s := DateString(a);
      DateStringParts(a);
      DateStringParts(b);
      PadInjective(ca.year, cb.year, 4);
      PadInjective(ca.month, cb.month, 2);
      PadInjective(ca.day, cb.day, 2);
    }
  }

  /** `%s/%04d-%02d-%02d/%s.%02d*`: the log files of one hour. */
  function GlobPattern(logDir: Path, logType: string, h: Hour): string
  {
    logDir + "/" + DateString(h) + "/" + logType + "." + Pad(HourOfDay(h), 2) + "*"
  }

  /** `<outDir>/<logType>-YYYY-MM-DD.json`: the output of one day. */
  function DayFileName(outDir: Path, logType: string, d: Hour): Path
  {
    Join(outDir, logType + "-" + DateString(d) + ".json")
  }

  /** Two days' output names agree exactly when the hours lie in the same day. */
  lemma DayFileNameSameDay(outDir: Path, logType: string, d1: Hour, d2: Hour)
    ensures DayFileName(outDir, logType, d1) == DayFileName(outDir, logType, d2) <==> d1 / 24 == d2 / 24
  {
    var n1 := logType + "-" + DateString(d1) + ".json";
    var n2 := logType + "-" + DateString(d2) + ".json";
    JoinCancel(outDir, n1, n2);
    DateStringSameDay(d1, d2);
    if n1 == n2 {
      assert DateString(d1) == n1[|logType| + 1..|n1| - 5];
      assert DateString(d2) == n2[|logType| + 1..|n2| - 5];
    }
  }

  /** A name shorter than any day's output name never joins into one. */
  lemma ShortNameIsNoDayFile(outDir: Path, logType: string, name: string, d: Hour)
    requires |name| < |logType| + 16
    ensures Join(outDir, name) != DayFileName(outDir, logType, d)
  {
    var n := logType + "-" + DateString(d) + ".json";
    DateStringParts(d);
    JoinCancel(outDir, name, n);
  }

  /** `<outDir>/<stamp><base name of the log file>.json`: one task's temp file. */
  function TempName(outDir: Path, stamp: string, logFile: Path): Path
  {
    Join(outDir, stamp + Base(logFile) + ".json")
  }

  /** The glob pattern names the hour of the day with exactly two digits. */
  lemma GlobPatternHourField(logDir: Path, logType: string, h: Hour)
    ensures var p := GlobPattern(logDir, logType, h);
      |p| >= 3 && p[|p| - 1] == '*' && Value(p[|p| - 3..|p| - 1]) == HourOfDay(h)
  {
    var p := GlobPattern(logDir, logType, h);
    var hh := Pad(HourOfDay(h), 2);
    TwoDigitPad(HourOfDay(h));
    PadRoundTrip(HourOfDay(h), 2);
    assert p == (logDir + "/" + DateString(h) + "/" + logType + ".") + hh + "*";
    assert p[|p| - 3..|p| - 1] == hh;
  }

  /**
   * A stamp format whose strings all have one length and sort as the hours
   * they stamp (a fixed-width numeric date and hour).
   */
  ghost predicate StampsSortByTime(stamp: Hour -> string)
  {
    forall h1: Hour, h2: Hour {:trigger stamp(h1), stamp(h2)} ::
      |stamp(h1)| == |stamp(h2)| && (h1 < h2 ==> LexLess(stamp(h1), stamp(h2)))
  }

  /** Joining onto one directory keeps the order of the names. */
  lemma JoinKeepsOrder(dir: Path, n1: Path, n2: Path)
    requires LexLess(n1, n2)
    ensures LexLess(Join(dir, n1), Join(dir, n2))
  {
    var c := if dir == "" then "" else if dir == "/" then "/" else dir + "/";
    assert Join(dir, n1) == c + n1;
    assert Join(dir, n2) == c + n2;
    LexLessCommonPrefix(c, n1, n2);
  }

  /** Joining onto one directory loses nothing: the names are equal exactly when the paths are. */
  lemma JoinCancel(dir: Path, n1: Path, n2: Path)
    ensures Join(dir, n1) == Join(dir, n2) <==> n1 == n2
  {
    var c := if dir == "" then "" else if dir == "/" then "/" else dir + "/";
    assert Join(dir, n1) == c + n1;
    assert Join(dir, n2) == c + n2;
    if c + n1 == c + n2 {
      assert n1 == (c + n1)[|c|..];
      assert n2 == (c + n2)[|c|..];
    }
  }

  /** Names built from stamps of one length compare as the stamps do. */
  lemma TempNamesFollowStamps(outDir: Path, s1: string, s2: string, log1: Path, log2: Path)
    requires |s1| == |s2| && LexLess(s1, s2)
    ensures LexLess(TempName(outDir, s1, log1), TempName(outDir, s2, log2))
  {
    var t1, t2 := Base(log1) + ".json", Base(log2) + ".json";
    LexLessExtend(s1, s2, t1, t2);
    assert s1 + Base(log1) + ".json" == s1 + t1;
    assert s2 + Base(log2) + ".json" == s2 + t2;
    JoinKeepsOrder(outDir, s1 + t1, s2 + t2);
  }

  /**
   * Temp files sort alphabetically in time order: with such a stamp format,
   * every temp file of an earlier hour sorts before every temp file of a later
   * one, whatever the log files are called.
   */
  lemma TempNamesSortByHour(outDir: Path, stamp: Hour -> string, h1: Hour, h2: Hour, log1: Path, log2: Path)
    requires StampsSortByTime(stamp)
    requires h1 < h2
    ensures LexLess(TempName(outDir, stamp(h1), log1), TempName(outDir, stamp(h2), log2))
  {
    var s1, s2 := stamp(h1), stamp(h2);
    assert |s1| == |s2| && LexLess(s1, s2);
    TempNamesFollowStamps(outDir, s1, s2, log1, log2);
  }
}
