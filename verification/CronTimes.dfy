/**
 The times a cron expression matches, and whether a search bounded to five years finds one.
 Time is counted in minutes since 0001-01-01 00:00 UTC; the zone is a fixed offset in minutes.
 */
module CronTimes {
  import opened Wrappers
  import opened Calendar
  import opened CronExpression

  const SEARCH_LIMIT := 60 * 24 * 366 * 5

  /** `cron_matches` for a local time: all five fields, with Sunday as 0 or 7. */
  predicate CronMatches(local: nat, f: Fields) {
    var day := local / 1440;
    var date := DateOf(day);
    var cronWeekday := (day % 7 + 1) % 7;
    && local % 60 in f.minutes
    && (local / 60) % 24 in f.hours
    && date.day in f.days
    && date.month in f.months
    && (cronWeekday in f.weekdays || (cronWeekday == 0 && 7 in f.weekdays))
  }

  predicate MatchesAt(minute: int, offset: int, f: Fields) {
    minute + offset >= 0 && CronMatches(minute + offset, f)
  }

  /** The search finds something: some minute of the next five years matches. */
  ghost predicate HasTime(from: int, offset: int, f: Fields) {
    exists t :: from < t <= from + SEARCH_LIMIT && MatchesAt(t, offset, f)
  }

  // ---------------------------------------------------------------- when five years are enough

  /** Every day of the week is allowed. */
  predicate AnyWeekday(f: Fields) {
    forall w :: 0 <= w <= 6 ==> w in f.weekdays || (w == 0 && 7 in f.weekdays)
  }

  predicate AnyDay(f: Fields) {
    forall d :: 1 <= d <= 31 ==> d in f.days
  }

  /** The day `d` of the month `m` exists in every year. */
  predicate Annual(m: int, d: int) {
    1 <= m <= 12 && 1 <= d <= if m == 2 then 28 else MonthLength(1, m)
  }

  predicate HasAnnualDay(f: Fields) {
    exists m, d :: m in f.months && d in f.days && Annual(m, d)
  }

  lemma MinuteOfDay(day: nat, hour: nat, minute: nat)
    requires hour < 24 && minute < 60
    ensures var t := day * 1440 + hour * 60 + minute;
            t / 1440 == day && (t / 60) % 24 == hour && t % 60 == minute
  {
    var t := day * 1440 + hour * 60 + minute;
    assert t == (day * 24 + hour) * 60 + minute;
    assert t / 60 == day * 24 + hour;
  }

  /** If a date fits the day, month and weekday fields and comes soon enough, the search finds a time. */
  lemma DayIsEnough(from: int, offset: int, f: Fields, date: Date)
    requires WellRanged(f) && from + offset >= 0
    requires IsDate(date) && date.day in f.days && date.month in f.months
    requires var w := (DayNumber(date) % 7 + 1) % 7; w in f.weekdays || (w == 0 && 7 in f.weekdays)
    requires (from + offset) / 1440 < DayNumber(date) <= (from + offset) / 1440 + 1829
    ensures HasTime(from, offset, f)
  {
    var day := DayNumber(date);
    var hour := SomeMember(f.hours);
    var minute := SomeMember(f.minutes);
    var t := day * 1440 + hour * 60 + minute;
    MinuteOfDay(day, hour, minute);
    DateOfDayNumber(date);
    assert MatchesAt(t - offset, offset, f);
  }

  lemma NextYearIsNear(n: nat, date: Date)
    requires IsDate(date) && date.year == DateOf(n).year + 1
    ensures n < DayNumber(date) <= n + 732
  {
    DateOfIsRight(n);
    DateIsWithinItsYear(DateOf(n));
    DateIsWithinItsYear(date);
  }

  lemma AnnualDayIsEnough(from: int, offset: int, f: Fields, m: int, d: int)
    requires WellRanged(f) && from + offset >= 0 && AnyWeekday(f)
    requires m in f.months && d in f.days && Annual(m, d)
    ensures HasTime(from, offset, f)
  {
    var today := (from + offset) / 1440;
    var date := Date(DateOf(today).year + 1, m, d);
    NextYearIsNear(today, date);
    DayIsEnough(from, offset, f, date);
  }

  lemma WeekdayAfter(n: nat, w: nat)
    ensures ((n + (w + 6 - n) % 7) % 7 + 1) % 7 == w % 7
  {
    var k := (w + 6 - n) % 7;
    assert (n + k) % 7 == (w + 6) % 7;
  }

  // ---------------------------------------------------------------- a week of days

  /** Seven days on end of an allowed month, which exist in every year. */
  predicate IsFullWeek(f: Fields, m: int, d: int) {
    m in f.months && forall x :: d <= x < d + 7 ==> x in f.days && Annual(m, x)
  }

  ghost predicate HasFullWeek(f: Fields) {
    exists m, d :: IsFullWeek(f, m, d)
  }

  /** They have every weekday, whatever weekdays are allowed. */
  lemma FullWeekIsEnough(from: int, offset: int, f: Fields, m: int, d: int)
    requires WellRanged(f) && from + offset >= 0 && IsFullWeek(f, m, d)
    ensures HasTime(from, offset, f)
  {
    var today := (from + offset) / 1440;
    var y := DateOf(today).year + 1;
    var w := SomeMember(f.weekdays);
    assert d in f.days;
    var n := DayNumber(Date(y, m, d));
    var k := (w + 6 - n) % 7;
    assert d + k in f.days;
    var date := Date(y, m, d + k);
    assert DayNumber(date) == n + k;
    WeekdayAfter(n, w);
    NextYearIsNear(today, date);
    DayIsEnough(from, offset, f, date);
  }

  /** With every day of the month allowed, any months and weekdays have a match within five years. */
  lemma AnyDayNeverRaises(from: int, offset: int, f: Fields)
    requires WellRanged(f) && from + offset >= 0 && AnyDay(f)
    ensures HasTime(from, offset, f)
  {
    var m := SomeMember(f.months);
    assert IsFullWeek(f, m, 1);
    FullWeekIsEnough(from, offset, f, m, 1);
  }

  // ---------------------------------------------------------------- three weekdays

  /** The weekdays allowed, with Sunday as 0. */
  function Weekdays(f: Fields): set<int> {
    set w | w in f.weekdays :: w % 7
  }

  lemma WeekdayIsAllowed(f: Fields, w: int)
    requires WellRanged(f) && 0 <= w <= 6
    ensures w in Weekdays(f) <==> w in f.weekdays || (w == 0 && 7 in f.weekdays)
  {
    assert 7 % 7 == 0;
    if w in Weekdays(f) {
      var x :| x in f.weekdays && x % 7 == w;
    }
  }

  function WeekdayOf(n: nat): (w: int)
    ensures w == if n % 7 == 6 then 0 else n % 7 + 1
  {
    (n % 7 + 1) % 7
  }

  /** The day number of a date that exists every year. */
  function DayIn(y: nat, m: nat, d: nat): nat
    requires y >= 1 && Annual(m, d)
  {
    DayNumber(Date(y, m, d))
  }

  lemma {:induction false} SameMonthLater(y: nat, m: nat)
    requires 1 <= m <= 12
    ensures DaysBeforeMonth(y, m) == DaysBeforeMonth(1, m) + if m > 2 && IsLeap(y) then 1 else 0
  {
    if m > 1 {
      SameMonthLater(y, m - 1);
    }
  }

  /** From one year to the next a date moves by the length of the year that is passed through. */
  lemma SameDateLater(y: nat, m: nat, d: nat)
    requires y >= 1 && Annual(m, d)
    ensures DayIn(y + 1, m, d) == DayIn(y, m, d) + if m <= 2 then YearLength(y) else YearLength(y + 1)
  {
    SameMonthLater(y, m);
    SameMonthLater(y + 1, m);
  }

  lemma LeapYearsAreRare(y: nat)
    ensures YearLength(y) + YearLength(y + 1) + YearLength(y + 2) + YearLength(y + 3) <= 4 * 365 + 1
  {
  }

  predicate IsYearOn(a: int, b: int) {
    b == a + 365 || b == a + 366
  }

  predicate AreFiveYears(n0: int, n1: int, n2: int, n3: int, n4: int) {
    IsYearOn(n0, n1) && IsYearOn(n1, n2) && IsYearOn(n2, n3) && IsYearOn(n3, n4) && n4 <= n0 + 1461
  }

  lemma FiveYearsApart(y: nat, m: nat, d: nat)
    requires y >= 1 && Annual(m, d)
    ensures AreFiveYears(DayIn(y, m, d), DayIn(y + 1, m, d), DayIn(y + 2, m, d), DayIn(y + 3, m, d), DayIn(y + 4, m, d))
  {
    SameDateLater(y, m, d);
    SameDateLater(y + 1, m, d);
    SameDateLater(y + 2, m, d);
    SameDateLater(y + 3, m, d);
    LeapYearsAreRare(y);
    LeapYearsAreRare(y + 1);
  }

  /** So five years on end have five weekdays for it, and one of them is among any three. */
  lemma SomeYearFits(n0: nat, n1: nat, n2: nat, n3: nat, n4: nat, weekdays: set<int>)
    requires AreFiveYears(n0, n1, n2, n3, n4)
    requires |weekdays| >= 3 && forall w :: w in weekdays ==> 0 <= w <= 6
    ensures WeekdayOf(n0) in weekdays || WeekdayOf(n1) in weekdays || WeekdayOf(n2) in weekdays || WeekdayOf(n3) in weekdays
            || WeekdayOf(n4) in weekdays
  {
    var five := {WeekdayOf(n0), WeekdayOf(n1), WeekdayOf(n2), WeekdayOf(n3), WeekdayOf(n4)};
    FiveWeekdays(n0, n1, n2, n3, n4);
    assert |five| == 5;
    FiveAndThreeOverlap(five, weekdays);
    var w := SomeMember(five * weekdays);
  }

  lemma FiveAndThreeOverlap(five: set<int>, three: set<int>)
    requires |five| == 5 && |three| >= 3
    requires forall w :: w in five || w in three ==> 0 <= w <= 6
    ensures five * three != {}
  {
    var week := {0, 1, 2, 3, 4, 5, 6};
    forall w | w in five + three ensures w in week {
      assert 0 <= w <= 6;
    }
    SubsetIsNoLarger(five + three, week);
    assert |five + three| == |five| + |three| - |five * three|;
  }

  lemma FiveWeekdays(n0: nat, n1: nat, n2: nat, n3: nat, n4: nat)
    requires AreFiveYears(n0, n1, n2, n3, n4)
    ensures WeekdayOf(n0) != WeekdayOf(n1) && WeekdayOf(n0) != WeekdayOf(n2) && WeekdayOf(n0) != WeekdayOf(n3)
    ensures WeekdayOf(n0) != WeekdayOf(n4) && WeekdayOf(n1) != WeekdayOf(n2) && WeekdayOf(n1) != WeekdayOf(n3)
    ensures WeekdayOf(n1) != WeekdayOf(n4) && WeekdayOf(n2) != WeekdayOf(n3) && WeekdayOf(n2) != WeekdayOf(n4)
    ensures WeekdayOf(n3) != WeekdayOf(n4)
  {
    WeekdaysDiffer(n0, n1, 52);
    WeekdaysDiffer(n0, n2, 104);
    WeekdaysDiffer(n0, n3, 156);
    WeekdaysDiffer(n0, n4, 208);
    WeekdaysDiffer(n1, n2, 52);
    WeekdaysDiffer(n1, n3, 104);
    WeekdaysDiffer(n1, n4, 156);
    WeekdaysDiffer(n2, n3, 52);
    WeekdaysDiffer(n2, n4, 104);
    WeekdaysDiffer(n3, n4, 52);
  }

  lemma WeekdaysDiffer(a: nat, b: nat, weeks: nat)
    requires a + 7 * weeks < b < a + 7 * weeks + 7
    ensures WeekdayOf(a) != WeekdayOf(b)
  {
    var p, q := a / 7, b / 7;
    assert a == 7 * p + a % 7 && b == 7 * q + b % 7;
    assert a % 7 == b % 7 ==> b - a == 7 * (q - p);
  }

  lemma {:induction false} SubsetIsNoLarger(a: set<int>, b: set<int>)
    requires a <= b
    ensures |a| <= |b|
    decreases |b|
  {
    if b != {} {
      var x := SomeMember(b);
      SubsetIsNoLarger(a - {x}, b - {x});
    }
  }

  /** A date that exists every year, with three weekdays allowed, has a match within five years. */
  lemma ThreeWeekdaysAreEnough(from: int, offset: int, f: Fields, m: int, d: int)
    requires WellRanged(f) && from + offset >= 0 && |Weekdays(f)| >= 3
    requires m in f.months && d in f.days && Annual(m, d)
    ensures HasTime(from, offset, f)
  {
    var y := YearThatFits(f, (from + offset) / 1440, m, d);
    YearIsEnough(from, offset, f, y, m, d);
  }

  lemma YearThatFits(f: Fields, today: nat, m: nat, d: nat) returns (y: nat)
    requires WellRanged(f) && |Weekdays(f)| >= 3 && Annual(m, d)
    ensures y >= 1 && WeekdayOf(DayIn(y, m, d)) in Weekdays(f) && today < DayIn(y, m, d) <= today + 1829
  {
    y := NextYearOf(today, m, d);
    var n0, n1, n2, n3, n4 := DayIn(y, m, d), DayIn(y + 1, m, d), DayIn(y + 2, m, d), DayIn(y + 3, m, d), DayIn(y + 4, m, d);
    FiveYearsApart(y, m, d);
    SomeYearFits(n0, n1, n2, n3, n4, Weekdays(f));
    y := if WeekdayOf(n0) in Weekdays(f) then y
         else if WeekdayOf(n1) in Weekdays(f) then y + 1
         else if WeekdayOf(n2) in Weekdays(f) then y + 2
         else if WeekdayOf(n3) in Weekdays(f) then y + 3
         else y + 4;
  }

  lemma YearIsEnough(from: int, offset: int, f: Fields, y: nat, m: nat, d: nat)
    requires WellRanged(f) && from + offset >= 0 && y >= 1 && Annual(m, d) && m in f.months && d in f.days
    requires WeekdayOf(DayIn(y, m, d)) in Weekdays(f)
    requires (from + offset) / 1440 < DayIn(y, m, d) <= (from + offset) / 1440 + 1829
    ensures HasTime(from, offset, f)
  {
    WeekdayIsAllowed(f, WeekdayOf(DayIn(y, m, d)));
    DayIsEnough(from, offset, f, Date(y, m, d));
  }

  /** The year of the next such date. */
  lemma NextYearOf(today: nat, m: nat, d: nat) returns (y: nat)
    requires Annual(m, d)
    ensures y >= 1 && today < DayIn(y, m, d) <= today + 366
  {
    DateOfIsRight(today);
    DateIsWithinItsYear(DateOf(today));
    y := DateOf(today).year;
    DateIsWithinItsYear(Date(y, m, d));
    SameDateLater(y, m, d);
    if DayIn(y, m, d) <= today {
      y := y + 1;
    }
  }

  // ---------------------------------------------------------------- counting the days of many years

  lemma {:induction false} DaysBeforeYearInFull(y: nat)
    requires y >= 1
    ensures DaysBeforeYear(y) == 365 * (y - 1) + (y - 1) / 4 - (y - 1) / 100 + (y - 1) / 400
  {
    if y > 1 {
      DaysBeforeYearInFull(y - 1);
      LeapCount(y - 1);
    }
  }

  lemma LeapCount(y: nat)
    requires y >= 1
    ensures y / 4 - y / 100 + y / 400 == (y - 1) / 4 - (y - 1) / 100 + (y - 1) / 400 + if IsLeap(y) then 1 else 0
  {
    Fourths(y);
    Hundredths(y);
    FourHundredths(y);
    if y % 400 == 0 {
      QuotientIs(y, 100, 4 * (y / 400), 0);
    }
    if y % 100 == 0 {
      QuotientIs(y, 4, 25 * (y / 100), 0);
    }
  }

  lemma QuotientIs(n: int, k: int, q: int, r: int)
    requires k >= 1 && n == q * k + r && 0 <= r < k
    ensures n / k == q && n % k == r
  {
    var p, s := n / k, n % k;
    assert n == p * k + s;
    assert (q - p) * k == s - r && (p - q) * k == r - s;
    if q > p {
      AtLeastOnce(q - p, k);
    } else if q < p {
      AtLeastOnce(p - q, k);
    }
  }

  lemma AtLeastOnce(a: int, k: int)
    requires a >= 1 && k >= 1
    ensures a * k >= k
  {
  }

  lemma Fourths(y: nat)
    requires y >= 1
    ensures y / 4 == (y - 1) / 4 + if y % 4 == 0 then 1 else 0
  {
  }

  lemma Hundredths(y: nat)
    requires y >= 1
    ensures y / 100 == (y - 1) / 100 + if y % 100 == 0 then 1 else 0
  {
  }

  lemma FourHundredths(y: nat)
    requires y >= 1
    ensures y / 400 == (y - 1) / 400 + if y % 400 == 0 then 1 else 0
  {
  }

  // ---------------------------------------------------------------- leap days

  /** Two leap years eight years apart with none between them: the second is after the end of a century. */
  lemma EightYears(y: nat)
    requires y >= 1 && IsLeap(y) && !IsLeap(y + 4)
    ensures forall x :: y < x < y + 8 ==> !IsLeap(x)
    ensures IsLeap(y + 8)
    ensures DaysBeforeYear(y + 3) == DaysBeforeYear(y) + 366 + 2 * 365
    ensures DaysBeforeYear(y + 8) == DaysBeforeYear(y) + 366 + 7 * 365
  {
    forall x | y < x < y + 8 ensures !IsLeap(x) {
      assert x % 4 == 0 ==> x == y + 4;
    }
    assert DaysBeforeYear(y + 1) == DaysBeforeYear(y) + 366;
    assert DaysBeforeYear(y + 2) == DaysBeforeYear(y + 1) + 365;
    assert DaysBeforeYear(y + 3) == DaysBeforeYear(y + 2) + 365;
    assert DaysBeforeYear(y + 5) == DaysBeforeYear(y + 3) + 730;
    assert DaysBeforeYear(y + 7) == DaysBeforeYear(y + 5) + 730;
  }

  lemma LeapDay(date: Date)
    requires IsDate(date) && date.month == 2 && date.day == 29
    ensures IsLeap(date.year) && DayNumber(date) == DaysBeforeYear(date.year) + 59
  {
    assert DaysBeforeMonth(date.year, 2) == 31;
  }

  lemma MarchFirst(y: nat)
    requires y >= 1 && IsLeap(y)
    ensures DayNumber(Date(y, 3, 1)) == DaysBeforeYear(y) + 60
  {
    assert DaysBeforeMonth(y, 2) == 31;
  }

  /** From March of the first to the leap day of the second there is no 29 February. */
  lemma LeapGap(y: nat, n: nat)
    requires y >= 1 && IsLeap(y) && !IsLeap(y + 4)
    requires DaysBeforeYear(y) + 60 <= n < DaysBeforeYear(y) + 2980
    ensures !(DateOf(n).month == 2 && DateOf(n).day == 29)
  {
    var date := DateOf(n);
    DateOfIsRight(n);
    EightYears(y);
    if date.month == 2 && date.day == 29 {
      LeapDay(date);
      if date.year < y {
        DaysBeforeYearGrows(date.year, y);
      } else if date.year > y + 8 {
        DaysBeforeYearGrows(y + 8, date.year);
      }
    }
  }

  /** In such a gap a search for days that do not exist every year fails from 1 March to the end of 23 February three years on. */
  lemma NoAnnualDayRaises(f: Fields, offset: int, y: nat, from: int)
    requires WellRanged(f) && !HasAnnualDay(f) && y >= 1 && IsLeap(y) && !IsLeap(y + 4)
    requires DayNumber(Date(y, 3, 1)) * 1440 <= from + offset < DayNumber(Date(y + 3, 2, 24)) * 1440
    ensures !HasTime(from, offset, f)
  {
    MarchFirst(y);
    EightYears(y);
    assert DaysBeforeMonth(y + 3, 2) == 31;
    forall t | from < t <= from + SEARCH_LIMIT ensures !MatchesAt(t, offset, f) {
      var n := (t + offset) / 1440;
      LeapGap(y, n);
      DateOfIsRight(n);
      var date := DateOf(n);
      assert date.month in f.months && date.day in f.days ==> !Annual(date.month, date.day);
    }
  }

  /** From 25 February on the next leap day is near enough. */
  lemma LeapDayIsEnough(f: Fields, offset: int, y: nat, from: int)
    requires WellRanged(f) && AnyWeekday(f) && 2 in f.months && 29 in f.days && y >= 1 && IsLeap(y) && !IsLeap(y + 4)
    requires IsLeap(y + 8)
    requires DayNumber(Date(y + 3, 2, 25)) * 1440 <= from + offset < DayNumber(Date(y + 8, 2, 29)) * 1440
    ensures HasTime(from, offset, f)
  {
    EightYears(y);
    assert DaysBeforeMonth(y + 3, 2) == 31;
    LeapDay(Date(y + 8, 2, 29));
    DayIsEnough(from, offset, f, Date(y + 8, 2, 29));
  }

  lemma FindLeapGap() returns (y: nat)
    ensures y == 2096 && IsLeap(y) && !IsLeap(y + 4)
  {
    y := 2096;
  }

  /** With every weekday allowed, the search never fails exactly when some allowed day of the year exists every year. */
  lemma NeverRaisesExactlyWhenAnnual(f: Fields, offset: int)
    requires WellRanged(f) && AnyWeekday(f)
    ensures (forall from :: from + offset >= 0 ==> HasTime(from, offset, f)) <==> HasAnnualDay(f)
  {
    if HasAnnualDay(f) {
      var m, d :| m in f.months && d in f.days && Annual(m, d);
      forall from | from + offset >= 0 ensures HasTime(from, offset, f) {
        AnnualDayIsEnough(from, offset, f, m, d);
      }
    } else {
      var y := FindLeapGap();
      var from := DayNumber(Date(y, 3, 1)) * 1440 - offset;
      EightYears(y);
      MarchFirst(y);
      assert DaysBeforeMonth(y + 3, 2) == 31;
      NoAnnualDayRaises(f, offset, y, from);
      assert from + offset >= 0 && !HasTime(from, offset, f);
    }
  }

  // ---------------------------------------------------------------- days and weekdays both restricted

  /** An allowed day of the year that exists every year, and three weekdays for it to fall on; or a week of days. */
  ghost predicate AlwaysFinds(f: Fields) {
    HasFullWeek(f) || (HasAnnualDay(f) && |Weekdays(f)| >= 3)
  }

  lemma AlwaysFindsNeverRaises(from: int, offset: int, f: Fields)
    requires WellRanged(f) && from + offset >= 0 && AlwaysFinds(f)
    ensures HasTime(from, offset, f)
  {
    if HasFullWeek(f) {
      var m, d :| IsFullWeek(f, m, d);
      FullWeekIsEnough(from, offset, f, m, d);
    } else {
      var m, d :| m in f.months && d in f.days && Annual(m, d);
      ThreeWeekdaysAreEnough(from, offset, f, m, d);
    }
  }

  /** Every day allowed, or every weekday and a day that exists every year, are cases of it. */
  lemma UnrestrictedAlwaysFinds(f: Fields)
    requires WellRanged(f) && (AnyDay(f) || (AnyWeekday(f) && HasAnnualDay(f)))
    ensures AlwaysFinds(f)
  {
    if AnyDay(f) {
      var m := SomeMember(f.months);
      assert IsFullWeek(f, m, 1);
    } else {
      WeekdayIsAllowed(f, 1);
      WeekdayIsAllowed(f, 2);
      WeekdayIsAllowed(f, 3);
      SubsetIsNoLarger({1, 2, 3}, Weekdays(f));
    }
  }

  /** Only Mondays that are New Year's Day: after one in a year like 2018 none comes for six years. */
  lemma MondayNewYearRaises(f: Fields, offset: int, y: nat)
    requires f.months == {1} && f.days == {1} && f.weekdays == {1}
    requires y >= 1 && y % 4 == 2 && IsLeap(y + 2) && DaysBeforeYear(y) % 7 == 0
    ensures !HasTime(DaysBeforeYear(y) * 1440 + 1439 - offset, offset, f)
  {
    var from := DaysBeforeYear(y) * 1440 + 1439 - offset;
    forall t | from < t <= from + SEARCH_LIMIT ensures !MatchesAt(t, offset, f) {
      DayAfterMonday(f, y, (t + offset) / 1440, t + offset);
    }
  }

  lemma DayAfterMonday(f: Fields, y: nat, n: nat, local: nat)
    requires f.months == {1} && f.days == {1} && f.weekdays == {1} && n == local / 1440
    requires y >= 1 && y % 4 == 2 && IsLeap(y + 2) && DaysBeforeYear(y) % 7 == 0
    requires DaysBeforeYear(y) < n <= DaysBeforeYear(y) + 1830
    ensures !CronMatches(local, f)
  {
    DateOfIsRight(n);
    if IsNewYear(DateOf(n)) {
      NewYearIsNoMonday(y, DateOf(n).year);
      NoMonday(n);
    }
  }

  predicate IsNewYear(d: Date) {
    d.month == 1 && d.day == 1
  }

  lemma NoMonday(n: nat)
    requires n % 7 != 0
    ensures (n % 7 + 1) % 7 != 1
  {
  }

  lemma NewYearIsNoMonday(y: nat, other: nat)
    requires y >= 1 && y % 4 == 2 && IsLeap(y + 2) && DaysBeforeYear(y) % 7 == 0 && other >= 1
    requires DaysBeforeYear(y) < DaysBeforeYear(other) <= DaysBeforeYear(y) + 1830
    ensures DaysBeforeYear(other) % 7 != 0
  {
    NewYearsBetween(y, other);
    NoWholeWeeks(DaysBeforeYear(y), DaysBeforeYear(other));
  }

  lemma NoWholeWeeks(a: nat, b: nat)
    requires a % 7 == 0 && b - a in {365, 730, 1096, 1461, 1826}
    ensures b % 7 != 0
  {
    WeekdaysDiffer(a, b, (b - a) / 7);
  }

  lemma NewYearsBetween(y: nat, other: nat)
    requires y >= 1 && y % 4 == 2 && IsLeap(y + 2) && other >= 1
    requires DaysBeforeYear(y) < DaysBeforeYear(other) <= DaysBeforeYear(y) + 1830
    ensures DaysBeforeYear(other) - DaysBeforeYear(y) in {365, 730, 1096, 1461, 1826}
  {
    YearsAfter(y);
    NewYearsAreNear(y, other);
    OneOfFive(y, other);
  }

  lemma OneOfFive(y: nat, other: nat)
    requires y < other < y + 6
    requires DaysBeforeYear(y + 1) == DaysBeforeYear(y) + 365 && DaysBeforeYear(y + 2) == DaysBeforeYear(y) + 730
    requires DaysBeforeYear(y + 3) == DaysBeforeYear(y) + 1096 && DaysBeforeYear(y + 4) == DaysBeforeYear(y) + 1461
    requires DaysBeforeYear(y + 5) == DaysBeforeYear(y) + 1826
    ensures DaysBeforeYear(other) - DaysBeforeYear(y) in {365, 730, 1096, 1461, 1826}
  {
    var k := other - y;
    assert k == 1 || k == 2 || k == 3 || k == 4 || k == 5;
  }

  lemma NewYearsAreNear(y: nat, other: nat)
    requires y >= 1 && other >= 1 && DaysBeforeYear(y + 6) > DaysBeforeYear(y) + 1830
    requires DaysBeforeYear(y) < DaysBeforeYear(other) <= DaysBeforeYear(y) + 1830
    ensures y < other < y + 6
  {
    if other < y {
      DaysBeforeYearGrows(other, y);
    } else if other > y + 6 {
      DaysBeforeYearGrows(y + 6, other);
    }
  }

  lemma YearsAfter(y: nat)
    requires y >= 1 && y % 4 == 2 && IsLeap(y + 2)
    ensures DaysBeforeYear(y + 1) == DaysBeforeYear(y) + 365 && DaysBeforeYear(y + 2) == DaysBeforeYear(y) + 730
    ensures DaysBeforeYear(y + 3) == DaysBeforeYear(y) + 1096 && DaysBeforeYear(y + 4) == DaysBeforeYear(y) + 1461
    ensures DaysBeforeYear(y + 5) == DaysBeforeYear(y) + 1826 && DaysBeforeYear(y + 6) == DaysBeforeYear(y) + 2191
  {
  }

  /** So `0 0 1 1 1` fails after New Year 2018. */
  lemma NewYear2018(f: Fields, offset: int, y: nat)
    requires y == 2018 && f.months == {1} && f.days == {1} && f.weekdays == {1}
    ensures !HasTime(DayNumber(Date(y, 1, 1)) * 1440 + 1439 - offset, offset, f)
  {
    YearTwoThousandEighteen(y);
    MondayNewYearRaises(f, offset, y);
  }

  lemma YearTwoThousandEighteen(y: nat)
    requires y == 2018
    ensures DaysBeforeYear(y) % 7 == 0
  {
    DaysBeforeYearInFull(y);
  }

  /** The calendar repeats every 400 years, which are whole weeks. */
  const CYCLE := 146097 * 1440

  lemma CycleOfYears(y: nat)
    requires y >= 1
    ensures DaysBeforeYear(y + 400) == DaysBeforeYear(y) + 146097
    ensures IsLeap(y + 400) == IsLeap(y)
  {
    DaysBeforeYearInFull(y);
    DaysBeforeYearInFull(y + 400);
    QuotientsRepeat(y - 1);
    RemaindersRepeat(y);
  }

  lemma QuotientsRepeat(x: nat)
    ensures (x + 400) / 4 == x / 4 + 100 && (x + 400) / 100 == x / 100 + 4 && (x + 400) / 400 == x / 400 + 1
  {
  }

  lemma RemaindersRepeat(x: nat)
    ensures (x + 400) % 4 == x % 4 && (x + 400) % 100 == x % 100 && (x + 400) % 400 == x % 400
  {
    QuotientIs(x + 400, 4, x / 4 + 100, x % 4);
    QuotientIs(x + 400, 100, x / 100 + 4, x % 100);
    QuotientIs(x + 400, 400, x / 400 + 1, x % 400);
  }

  lemma DatesRepeat(n: nat)
    ensures DateOf(n + 146097) == DateOf(n).(year := DateOf(n).year + 400)
  {
    DateOfIsRight(n);
    var date := DateOf(n);
    CycleOfYears(date.year);
    SameMonthLater(date.year, date.month);
    SameMonthLater(date.year + 400, date.month);
    var later := Date(date.year + 400, date.month, date.day);
    assert DayNumber(later) == n + 146097;
    DateOfDayNumber(later);
  }

  lemma MatchesRepeat(t: int, offset: int, f: Fields)
    requires t + offset >= 0
    ensures MatchesAt(t + CYCLE, offset, f) <==> MatchesAt(t, offset, f)
  {
    var local := t + offset;
    DatesRepeat(local / 1440);
    LocalTimesRepeat(local);
    QuotientIs(local / 1440 + 146097, 7, local / 1440 / 7 + 20871, local / 1440 % 7);
    assert t + CYCLE + offset == local + CYCLE;
  }

  lemma LocalTimesRepeat(local: nat)
    ensures (local + CYCLE) / 1440 == local / 1440 + 146097
    ensures (local + CYCLE) % 60 == local % 60 && (local + CYCLE) / 60 % 24 == local / 60 % 24
  {
    QuotientIs(local + CYCLE, 1440, local / 1440 + 146097, local % 1440);
    QuotientIs(local + CYCLE, 60, local / 60 + 146097 * 24, local % 60);
    QuotientIs(local / 60 + 146097 * 24, 24, local / 60 / 24 + 146097, local / 60 % 24);
  }

  lemma SearchesRepeat(from: int, offset: int, f: Fields)
    requires from + offset >= 0
    ensures HasTime(from + CYCLE, offset, f) <==> HasTime(from, offset, f)
  {
    if t :| from < t <= from + SEARCH_LIMIT && MatchesAt(t, offset, f) {
      MatchesRepeat(t, offset, f);
      assert MatchesAt(t + CYCLE, offset, f);
    }
    if t :| from + CYCLE < t <= from + CYCLE + SEARCH_LIMIT && MatchesAt(t, offset, f) {
      MatchesRepeat(t - CYCLE, offset, f);
      assert MatchesAt(t - CYCLE, offset, f);
    }
  }

  /** Whether the search ever fails can be settled for any expression by trying one cycle. */
  lemma OneCycleDecides(offset: int, f: Fields)
    ensures (forall from :: from + offset >= 0 ==> HasTime(from, offset, f)) <==>
            (forall from :: 0 <= from + offset < CYCLE ==> HasTime(from, offset, f))
  {
    if forall from :: 0 <= from + offset < CYCLE ==> HasTime(from, offset, f) {
      forall from | from + offset >= 0 ensures HasTime(from, offset, f) {
        ReducedToOneCycle(from, offset, f);
      }
    }
  }

  lemma {:induction false} ReducedToOneCycle(from: int, offset: int, f: Fields)
    requires from + offset >= 0
    requires forall first :: 0 <= first + offset < CYCLE ==> HasTime(first, offset, f)
    ensures HasTime(from, offset, f)
    decreases from + offset
  {
    if from + offset >= CYCLE {
      ReducedToOneCycle(from - CYCLE, offset, f);
      SearchesRepeat(from - CYCLE, offset, f);
    }
  }

  // ---------------------------------------------------------------- expressions

  lemma ExpressionAlwaysFinds(expression: string, from: int, offset: int)
    requires ParsedCron(expression).Ok? && AlwaysFinds(ParsedCron(expression).value) && from + offset >= 0
    ensures HasTime(from, offset, ParsedCron(expression).value)
  {
    ParsedFieldsAreWellRanged(expression);
    AlwaysFindsNeverRaises(from, offset, ParsedCron(expression).value);
  }

  /** An expression with every day of the month never fails, whatever its months and weekdays. */
  lemma ExpressionWithAnyDayNeverRaises(expression: string, from: int, offset: int)
    requires ParsedCron(expression).Ok? && AnyDay(ParsedCron(expression).value) && from + offset >= 0
    ensures HasTime(from, offset, ParsedCron(expression).value)
  {
    ParsedFieldsAreWellRanged(expression);
    AnyDayNeverRaises(from, offset, ParsedCron(expression).value);
  }

  /** An expression with every weekday never fails exactly when it has a day that exists every year. */
  lemma ExpressionNeverRaisesExactlyWhenAnnual(expression: string, offset: int)
    requires ParsedCron(expression).Ok? && AnyWeekday(ParsedCron(expression).value)
    ensures var f := ParsedCron(expression).value;
            (forall from :: from + offset >= 0 ==> HasTime(from, offset, f)) <==> HasAnnualDay(f)
  {
    ParsedFieldsAreWellRanged(expression);
    NeverRaisesExactlyWhenAnnual(ParsedCron(expression).value, offset);
  }
}
