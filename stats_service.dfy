/**
 * Day-granularity counters (src/services/statsService.ts).  "Now" is an
 * explicit parameter; a day is a run of `MS_PER_DAY` milliseconds starting at
 * a local midnight.
 */
module StatsService {
  import opened Wrappers
  import opened Records

  /** `1000 * 60 * 60 * 24`. */
  const MS_PER_DAY: nat := 86400000

  /** Number of the day holding instant `t`. */
  function Day(t: int): int
  {
    t / MS_PER_DAY
  }

  /** `setHours(0, 0, 0, 0)`: the midnight that starts the day of `t`. */
  function Midnight(t: int): (m: int)
    ensures m <= t < m + MS_PER_DAY
    ensures m == Day(t) * MS_PER_DAY
  {
    t - t % MS_PER_DAY
  }

  /**
   * `calculateStreak`: the streak after reading now, given the streak so far
   * and the instant of the previous reading (`None` when there was none).
   */
  function CalculateStreak(currentStreak: int, lastReadDate: Option<int>, now: int): (newStreak: int)
  {
    if lastReadDate.None? then 1
    else
      var diffTime := Midnight(now) - Midnight(lastReadDate.value);
      if diffTime == 0 then currentStreak
      else if diffTime == MS_PER_DAY then currentStreak + 1
      else 1
  }

  /**
   * The streak rule by day gap: reading again on the same day keeps the
   * streak, reading the day after extends it, and any other gap (a longer
   * break or a date in the future) starts over at 1.
   */
  lemma StreakByDayGap(currentStreak: int, lastReadDate: Option<int>, now: int)
    ensures lastReadDate.None? ==> CalculateStreak(currentStreak, lastReadDate, now) == 1
    ensures lastReadDate.Some? ==>
      var d := Day(now) - Day(lastReadDate.value);
      CalculateStreak(currentStreak, lastReadDate, now)
        == if d == 0 then currentStreak else if d == 1 then currentStreak + 1 else 1
  {
    if lastReadDate.Some? {
      var d := Day(now) - Day(lastReadDate.value);
      assert Midnight(now) - Midnight(lastReadDate.value) == d * MS_PER_DAY;
    }
  }

  /**
   * `calculateUserTodayVerses`: the user's verse count for today after
   * reading `verseCount` more, given the stored count and its day.
   */
  function CalculateUserTodayVerses(currentTodayVerses: int, todayDate: Option<int>, verseCount: int, now: int): (todayVerses: int)
    ensures todayDate.Some? && Day(todayDate.value) == Day(now) ==> todayVerses == currentTodayVerses + verseCount
    ensures todayDate.None? || Day(todayDate.value) != Day(now) ==> todayVerses == verseCount
    ensures currentTodayVerses >= 0 ==> todayVerses >= verseCount
  {
    if todayDate.Some? && Midnight(now) == Midnight(todayDate.value) then currentTodayVerses + verseCount
    else verseCount
  }

  /** `isToday`: `date` falls on the same day as `now`. */
  function IsToday(date: int, now: int): bool
  {
    Midnight(date) == Midnight(now)
  }

  /** Being today means lying in the window from today's midnight to tomorrow's. */
  lemma IsTodayWindow(date: int, now: int)
    ensures IsToday(date, now) <==> Midnight(now) <= date < Midnight(now) + MS_PER_DAY
    ensures IsToday(date, now) <==> Day(date) == Day(now)
  {
  }

  /** The query window of `calculateTodayVerses`: `[today, tomorrow)`. */
  predicate InTodayWindow(timestamp: int, now: int)
  {
    Midnight(now) <= timestamp < Midnight(now) + MS_PER_DAY
  }

  /** `log.verseCount || 0`. */
  function CountOrZero(log: ReadingLog): int
  {
    log.verseCount.GetOr(0)
  }

  /** Sum of the verse counts of the logs stamped today. */
  function TodayTotal(logs: seq<ReadingLog>, now: int): int
  {
    if |logs| == 0 then 0
    else
      var last := logs[|logs| - 1];
      TodayTotal(logs[..|logs| - 1], now) + (if InTodayWindow(last.timestamp, now) then CountOrZero(last) else 0)
  }

  /**
   * `calculateTodayVerses`: the query keeps the logs of today's window and
   * the loop adds up their counts.
   */
  method CalculateTodayVerses(logs: seq<ReadingLog>, now: int) returns (todayVerses: int)
    ensures todayVerses == TodayTotal(logs, now)
  {
    var today := Midnight(now);
    var tomorrow := today + MS_PER_DAY;
    todayVerses := 0;
    var i := 0;
    while i < |logs|
      invariant 0 <= i <= |logs|
      invariant todayVerses == TodayTotal(logs[..i], now)
    {
      assert logs[..i + 1][..i] == logs[..i];
      if today <= logs[i].timestamp < tomorrow {
        todayVerses := todayVerses + CountOrZero(logs[i]);
      }
      i := i + 1;
    }
    assert logs[..i] == logs;
  }

  /** The total over two batches of logs is the sum of their totals. */
  lemma {:induction false} TodayTotalConcat(a: seq<ReadingLog>, b: seq<ReadingLog>, now: int)
    ensures TodayTotal(a + b, now) == TodayTotal(a, now) + TodayTotal(b, now)
    decreases |b|
  {
    if |b| > 0 {
      assert (a + b)[..|a + b| - 1] == a + b[..|b| - 1];
      TodayTotalConcat(a, b[..|b| - 1], now);
    } else {
      assert a + b == a;
    }
  }

  /** A log counts towards today's total exactly when it is stamped today. */
  lemma TodayTotalAppend(logs: seq<ReadingLog>, log: ReadingLog, now: int)
    ensures TodayTotal(logs + [log], now)
      == TodayTotal(logs, now) + (if IsToday(log.timestamp, now) then CountOrZero(log) else 0)
  {
    assert (logs + [log])[..|logs|] == logs;
    IsTodayWindow(log.timestamp, now);
  }

  /** The total ignores the order of the logs. */
  lemma {:induction false} TodayTotalSwap(a: seq<ReadingLog>, b: seq<ReadingLog>, now: int)
    ensures TodayTotal(a + b, now) == TodayTotal(b + a, now)
  {
    TodayTotalConcat(a, b, now);
    TodayTotalConcat(b, a, now);
  }

  /** Taking one log out of a batch takes its own total out of the batch's total. */
  lemma TodayTotalRemove(logs: seq<ReadingLog>, k: int, now: int)
    requires 0 <= k < |logs|
    ensures multiset(logs[..k] + logs[k + 1..]) == multiset(logs) - multiset{logs[k]}
    ensures TodayTotal(logs, now) == TodayTotal(logs[..k] + logs[k + 1..], now) + TodayTotal([logs[k]], now)
  {
    var before, after := logs[..k], logs[k + 1..];
    assert logs == before + [logs[k]] + after;
    TodayTotalConcat(before + [logs[k]], after, now);
    TodayTotalConcat(before, [logs[k]], now);
    TodayTotalConcat(before, after, now);
  }

  /**
   * The total ignores the order of the logs: any rearrangement of the same
   * logs has the same total, as the query returns them in no fixed order.
   */
  lemma {:induction false} TodayTotalPermutation(a: seq<ReadingLog>, b: seq<ReadingLog>, now: int)
    requires multiset(a) == multiset(b)
    ensures TodayTotal(a, now) == TodayTotal(b, now)
    decreases |a|
  {
    if |a| > 0 {
      var x, rest := a[|a| - 1], a[..|a| - 1];
      assert a == rest + [x];
      TodayTotalConcat(rest, [x], now);
      assert x in multiset(b);
      var k :| 0 <= k < |b| && b[k] == x;
      TodayTotalRemove(b, k, now);
      assert multiset(rest) == multiset(a) - multiset{x};
      TodayTotalPermutation(rest, b[..k] + b[k + 1..], now);
    } else {
      assert |b| == |multiset(b)|;
    }
  }

  /** With no negative counts stored, today's total is not negative. */
  lemma {:induction false} TodayTotalNonNegative(logs: seq<ReadingLog>, now: int)
    requires forall i :: 0 <= i < |logs| ==> CountOrZero(logs[i]) >= 0
    ensures TodayTotal(logs, now) >= 0
  {
    if |logs| > 0 {
      TodayTotalNonNegative(logs[..|logs| - 1], now);
    }
  }
}
