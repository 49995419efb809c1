/** Searching for the next minute a cron expression matches, and listing the matches of an interval. */
module CronSearch {
  import opened Wrappers
  import opened CronExpression
  import opened CronTimes

  /** A point in time: a minute and the microseconds since it began. */
  datatype Instant = Instant(minute: int, within: nat)

  /** `r` is the least match after `from`, or the failure to find one within five years. */
  ghost predicate IsNextTime(r: Result<int, CronError>, from: int, offset: int, f: Fields) {
    match r
    case Ok(time) =>
      && from < time <= from + SEARCH_LIMIT
      && MatchesAt(time, offset, f)
      && forall t :: from < t < time ==> !MatchesAt(t, offset, f)
    case Err(e) => e == NoTimeInFiveYears && !HasTime(from, offset, f)
  }

  method NextCronTime(expression: string, offset: int, after: Instant) returns (r: Result<int, CronError>)
    requires after.minute + offset >= 0
    ensures match ParsedCron(expression)
            case Ok(f) => IsNextTime(r, after.minute, offset, f) && (AlwaysFinds(f) ==> r.Ok?)
            case Err(e) => r == Err(e)
  {
    var fields := ParseCron(expression);
    if fields.Err? {
      return Err(fields.error);
    }
    ghost var always := AlwaysFinds(fields.value);
    if always {
      ExpressionAlwaysFinds(expression, after.minute, offset);
    }
    r := SearchFrom(after, offset, fields.value);
  }

  method SearchFrom(reference: Instant, offset: int, fields: Fields) returns (r: Result<int, CronError>)
    requires reference.minute + offset >= 0
    ensures IsNextTime(r, reference.minute, offset, fields)
  {
    var candidate := reference.minute + 1;
    for i := 0 to SEARCH_LIMIT
      invariant candidate == reference.minute + 1 + i
      invariant forall t :: reference.minute < t < candidate ==> !MatchesAt(t, offset, fields)
    {
      if CronMatches(candidate + offset, fields) {
        assert MatchesAt(candidate, offset, fields);
        return Ok(candidate);
      }
      candidate := candidate + 1;
    }
    return Err(NoTimeInFiveYears);
  }

  /** `times` are the first `limit` matches after `start` and not after `end`, with none left out. */
  ghost predicate FirstMatches(times: seq<int>, start: int, end: int, limit: int, offset: int, f: Fields) {
    && (forall i, j :: 0 <= i < j < |times| ==> times[i] < times[j])
    && (forall i :: 0 <= i < |times| ==> start < times[i] <= end && MatchesAt(times[i], offset, f))
    && (|times| <= limit || times == [])
    && (forall t :: start < t <= end && MatchesAt(t, offset, f) && t !in times ==>
          |times| >= limit && (times != [] ==> times[|times| - 1] < t))
  }

  /** All matches after `start` up to `now`, in order, none of them after `end`. */
  ghost predicate FoundUpTo(times: seq<int>, start: int, now: int, end: int, offset: int, f: Fields) {
    && (forall i, j :: 0 <= i < j < |times| ==> times[i] < times[j])
    && (forall i :: 0 <= i < |times| ==> start < times[i] <= end && times[i] <= now && MatchesAt(times[i], offset, f))
    && (forall t :: start < t <= now && MatchesAt(t, offset, f) ==> t in times)
    && now == (if times == [] then start else times[|times| - 1])
  }

  lemma FoundOneMore(times: seq<int>, start: int, now: int, next: int, end: int, offset: int, f: Fields)
    requires FoundUpTo(times, start, now, end, offset, f) && IsNextTime(Ok(next), now, offset, f)
    requires start <= now && next <= end
    ensures FoundUpTo(times + [next], start, next, end, offset, f)
  {
    var more := times + [next];
    forall t | start < t <= next && MatchesAt(t, offset, f) ensures t in more {
      assert t <= now ==> t in times;
      assert more[|times|] == next;
    }
  }

  lemma NoneLeftOut(times: seq<int>, start: int, now: int, end: int, limit: int, offset: int, f: Fields)
    requires FoundUpTo(times, start, now, end, offset, f) && start <= now && (|times| <= limit || times == [])
    requires |times| >= limit || forall t :: now < t <= end ==> !MatchesAt(t, offset, f)
    ensures FirstMatches(times, start, end, limit, offset, f)
  {
  }

  method CronOccurrences(expression: string, offset: int, start: Instant, end: Instant, limit: int := 500)
    returns (r: Result<seq<int>, CronError>)
    requires start.minute + offset >= 0
    ensures limit <= 0 ==> r == Ok([])
    ensures limit > 0 && ParsedCron(expression).Err? ==> r == Err(ParsedCron(expression).error)
    ensures limit > 0 && ParsedCron(expression).Ok? ==>
              var f := ParsedCron(expression).value;
              match r
              case Ok(times) => FirstMatches(times, start.minute, end.minute, limit, offset, f)
              case Err(e) => e == NoTimeInFiveYears && StopsShort(start.minute, end.minute, limit, offset, f) && !AlwaysFinds(f)
  {
    var result: seq<int> := [];
    var cursor := start;
    ghost var parsed := ParsedCron(expression);
    while |result| < limit
      invariant |result| <= limit || result == []
      invariant start.minute <= cursor.minute
      invariant result != [] ==> parsed.Ok?
      invariant parsed.Ok? ==> FoundUpTo(result, start.minute, cursor.minute, end.minute, offset, parsed.value)
    {
      var found := NextCronTime(expression, offset, cursor);
      if found.Err? {
        assert parsed.Ok? ==> !HasTime(cursor.minute, offset, parsed.value);
        assert parsed.Ok? ==> FoundUpTo(result, start.minute, cursor.minute, end.minute, offset, parsed.value);
        return Err(found.error);
      }
      var occurrence := found.value;
      if occurrence > end.minute {
        break;
      }
      FoundOneMore(result, start.minute, cursor.minute, occurrence, end.minute, offset, parsed.value);
      result := result + [occurrence];
      cursor := Instant(occurrence, 0);
    }
    if parsed.Ok? {
      NoneLeftOut(result, start.minute, cursor.minute, end.minute, limit, offset, parsed.value);
    }
    return Ok(result);
  }

  /** Fewer than `limit` matches are listed, all there are up to some time, and from then on five years bring none. */
  ghost predicate StopsShort(start: int, end: int, limit: int, offset: int, f: Fields) {
    exists times, now :: FoundUpTo(times, start, now, end, offset, f) && |times| < limit && !HasTime(now, offset, f)
  }
}
