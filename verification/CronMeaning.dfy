/** Which times a written cron expression stands for, told from its items and the calendar. */
module CronMeaning {
  import opened Wrappers
  import opened Calendar
  import opened CronExpression
  import opened CronTimes
  import opened CronSearch

  /** The minute of a date and a time of day. */
  function MinuteOf(d: Date, hour: nat, minute: nat): nat
    requires IsDate(d)
  {
    DayNumber(d) * 1440 + hour * 60 + minute
  }

  /** Every minute is one of a date and a time of day. */
  lemma EveryMinuteIsOne(local: nat) returns (d: Date, hour: nat, minute: nat)
    ensures IsDate(d) && hour < 24 && minute < 60 && local == MinuteOf(d, hour, minute)
  {
    d, hour, minute := DateOf(local / 1440), (local / 60) % 24, local % 60;
    DateOfIsRight(local / 1440);
    assert local / 60 / 24 == local / 1440;
  }

  /** A time of a date matches exactly when its five parts are in the five fields; Sunday is 0 or 7, Monday 1. */
  lemma MatchesByItsParts(d: Date, hour: nat, minute: nat, f: Fields)
    requires IsDate(d) && hour < 24 && minute < 60
    ensures CronMatches(MinuteOf(d, hour, minute), f) <==>
              && minute in f.minutes && hour in f.hours && d.day in f.days && d.month in f.months
              && (DayNumber(d) % 7 + 1 in f.weekdays || (DayNumber(d) % 7 == 6 && 0 in f.weekdays))
  {
    DateOfDayNumber(d);
    MatchesOnDay(DayNumber(d), hour, minute, f);
  }

  lemma MatchesOnDay(day: nat, hour: nat, minute: nat, f: Fields)
    requires hour < 24 && minute < 60
    ensures CronMatches(day * 1440 + hour * 60 + minute, f) <==>
              && minute in f.minutes && hour in f.hours && DateOf(day).day in f.days && DateOf(day).month in f.months
              && (day % 7 + 1 in f.weekdays || (day % 7 == 6 && 0 in f.weekdays))
  {
    var local := day * 1440 + hour * 60 + minute;
    MinuteOfDay(day, hour, minute);
    assert WeekdayOf(local / 1440) == (day % 7 + 1) % 7;
  }

  // ---------------------------------------------------------------- written expressions

  /** Five written fields, with some whitespace between them and any around them. */
  predicate IsExpression(fields: seq<seq<Item>>, gaps: seq<string>) {
    && |fields| == 5 && |gaps| == 6
    && (forall i :: 0 <= i < 5 ==> fields[i] != [])
    && (forall i :: 0 <= i < 6 ==> IsBlank(gaps[i]))
    && (forall i :: 1 <= i < 5 ==> gaps[i] != "")
  }

  function Written(fields: seq<seq<Item>>, gaps: seq<string>): string
    requires IsExpression(fields, gaps)
  {
    Spaced(seq(5, i requires 0 <= i < 5 => PrintField(fields[i])), gaps)
  }

  /** Every item of every field is in order and within the range of its field. */
  predicate IsInRange(fields: seq<seq<Item>>)
    requires |fields| == 5
  {
    && AllAccepted(fields[0], 0, 59) && AllAccepted(fields[1], 0, 23) && AllAccepted(fields[2], 1, 31)
    && AllAccepted(fields[3], 1, 12) && AllAccepted(fields[4], 0, 7)
  }

  /** Each part of the time is covered by an item of its field. */
  predicate IsCovered(fields: seq<seq<Item>>, d: Date, hour: nat, minute: nat)
    requires |fields| == 5 && IsDate(d)
  {
    && SomeCovers(fields[0], minute, 0, 59) && SomeCovers(fields[1], hour, 0, 23)
    && SomeCovers(fields[2], d.day, 1, 31) && SomeCovers(fields[3], d.month, 1, 12)
    && (SomeCovers(fields[4], DayNumber(d) % 7 + 1, 0, 7) || (DayNumber(d) % 7 == 6 && SomeCovers(fields[4], 0, 0, 7)))
  }

  /** The fields hold exactly what the items cover. */
  ghost predicate StandFor(f: Fields, fields: seq<seq<Item>>)
    requires |fields| == 5
  {
    && (forall x :: x in f.minutes <==> SomeCovers(fields[0], x, 0, 59))
    && (forall x :: x in f.hours <==> SomeCovers(fields[1], x, 0, 23))
    && (forall x :: x in f.days <==> SomeCovers(fields[2], x, 1, 31))
    && (forall x :: x in f.months <==> SomeCovers(fields[3], x, 1, 12))
    && (forall x :: x in f.weekdays <==> SomeCovers(fields[4], x, 0, 7))
  }

  lemma FieldsStandFor(fields: seq<seq<Item>>, gaps: seq<string>)
    requires IsExpression(fields, gaps)
    ensures ParsedCron(Written(fields, gaps)).Ok? <==> IsInRange(fields)
    ensures IsInRange(fields) ==> StandFor(ParsedCron(Written(fields, gaps)).value, fields)
  {
    PrintedExpressionParses(fields, gaps);
    PrintedFieldMeans(fields[0], 0, 59);
    PrintedFieldMeans(fields[1], 0, 23);
    PrintedFieldMeans(fields[2], 1, 31);
    PrintedFieldMeans(fields[3], 1, 12);
    PrintedFieldMeans(fields[4], 0, 7);
  }

  lemma CoveredExactly(f: Fields, fields: seq<seq<Item>>, d: Date, hour: nat, minute: nat)
    requires |fields| == 5 && StandFor(f, fields) && IsDate(d) && hour < 24 && minute < 60
    ensures CronMatches(MinuteOf(d, hour, minute), f) <==> IsCovered(fields, d, hour, minute)
  {
    MatchesByItsParts(d, hour, minute, f);
  }

  /** A written expression parses exactly when it is in range, and then matches exactly the times it covers. */
  lemma WrittenExpressionMeans(fields: seq<seq<Item>>, gaps: seq<string>, d: Date, hour: nat, minute: nat)
    requires IsExpression(fields, gaps) && IsDate(d) && hour < 24 && minute < 60
    ensures var parsed := ParsedCron(Written(fields, gaps));
            && (parsed.Ok? <==> IsInRange(fields))
            && (parsed.Ok? ==> (CronMatches(MinuteOf(d, hour, minute), parsed.value) <==> IsCovered(fields, d, hour, minute)))
  {
    FieldsStandFor(fields, gaps);
    if IsInRange(fields) {
      CoveredExactly(ParsedCron(Written(fields, gaps)).value, fields, d, hour, minute);
    }
  }

  /** The time, counted from the same start in the zone of the offset. */
  function TimeOf(d: Date, hour: nat, minute: nat, offset: int): int
    requires IsDate(d)
  {
    MinuteOf(d, hour, minute) - offset
  }

  lemma WrittenExpressionMatchesAt(fields: seq<seq<Item>>, gaps: seq<string>, d: Date, hour: nat, minute: nat, offset: int)
    requires IsExpression(fields, gaps) && IsInRange(fields) && IsDate(d) && hour < 24 && minute < 60
    ensures var parsed := ParsedCron(Written(fields, gaps));
            parsed.Ok? && (MatchesAt(TimeOf(d, hour, minute, offset), offset, parsed.value) <==> IsCovered(fields, d, hour, minute))
  {
    WrittenExpressionMeans(fields, gaps, d, hour, minute);
    assert TimeOf(d, hour, minute, offset) + offset == MinuteOf(d, hour, minute);
  }

  /**
   The search for a written expression answers with a covered time and skips none, and it fails only when
   five years bring none.
   */
  lemma NextTimeIsCovered(fields: seq<seq<Item>>, gaps: seq<string>, r: Result<int, CronError>, from: int, offset: int,
                          d: Date, hour: nat, minute: nat)
    requires IsExpression(fields, gaps) && IsInRange(fields) && IsDate(d) && hour < 24 && minute < 60
    requires var parsed := ParsedCron(Written(fields, gaps)); parsed.Ok? ==> IsNextTime(r, from, offset, parsed.value)
    ensures var t := TimeOf(d, hour, minute, offset);
            && (r == Ok(t) ==> IsCovered(fields, d, hour, minute))
            && (r.Ok? && from < t < r.value ==> !IsCovered(fields, d, hour, minute))
            && (r.Err? && from < t <= from + SEARCH_LIMIT ==> !IsCovered(fields, d, hour, minute))
  {
    WrittenExpressionMatchesAt(fields, gaps, d, hour, minute, offset);
  }

  /** The listing for a written expression has only covered times of the interval, and leaves one out only beyond its limit. */
  lemma OccurrencesAreCovered(fields: seq<seq<Item>>, gaps: seq<string>, times: seq<int>, start: int, end: int, limit: int,
                              offset: int, d: Date, hour: nat, minute: nat)
    requires IsExpression(fields, gaps) && IsInRange(fields) && IsDate(d) && hour < 24 && minute < 60
    requires var parsed := ParsedCron(Written(fields, gaps));
             parsed.Ok? ==> FirstMatches(times, start, end, limit, offset, parsed.value)
    ensures var t := TimeOf(d, hour, minute, offset);
            && (t in times ==> start < t <= end && IsCovered(fields, d, hour, minute))
            && (t !in times && start < t <= end && IsCovered(fields, d, hour, minute) ==>
                  |times| >= limit && (times != [] ==> times[|times| - 1] < t))
  {
    WrittenExpressionMatchesAt(fields, gaps, d, hour, minute, offset);
  }
}
