/**
  Weekly UTC windows of notification suppression rules: the day-by-day test is a
  half-open window around the week, and every week has the same active minutes.
*/
module Schedule {
  import opened Common

  const DAY := 1440
  const WEEK := 10080
  const MS_PER_MINUTE := 60_000
  const MS_PER_DAY := 86_400_000

  /** 1 January 1970 was a Thursday. */
  const EPOCH_DAY := 4

  datatype Schedule = Schedule(days: seq<int>, start: int, end: int)

  predicate IsSchedule(s: Schedule) {
    && s.days != [] && (forall i | 0 <= i < |s.days| :: 0 <= s.days[i] <= 6)
    && (forall i, j | 0 <= i < j < |s.days| :: s.days[i] < s.days[j])
    && 0 <= s.start < DAY && 0 <= s.end < DAY && s.start != s.end
  }

  // ------------------------------------------------------------------ parsing

  function Insert(days: seq<int>, d: int): (r: seq<int>)
    requires forall i, j | 0 <= i < j < |days| :: days[i] < days[j]
    ensures forall i, j | 0 <= i < j < |r| :: r[i] < r[j]
    ensures forall x :: x in r <==> x in days || x == d
    ensures |r| == |days| + if d in days then 0 else 1
  {
    if days == [] then [d]
    else if d < days[0] then [d] + days
    else if d == days[0] then days
    else
      var rest := Insert(days[1..], d);
      assert forall j | 0 <= j < |days[1..]| :: days[1..][j] == days[j + 1] > days[0];
      assert forall i | 0 <= i < |rest| :: rest[i] in rest;
      [days[0]] + rest
  }

  /** The distinct days, in order. */
  function SortedDays(raw: seq<int>): (r: seq<int>)
    ensures forall i, j | 0 <= i < j < |r| :: r[i] < r[j]
    ensures forall x :: x in r <==> x in raw
    ensures |r| <= |raw|
  {
    if raw == [] then [] else Insert(SortedDays(raw[..|raw| - 1]), raw[|raw| - 1])
  }

  lemma SortedNext(init: seq<int>, last: int)
    ensures |SortedDays(init + [last])| == |SortedDays(init)| + if last in init then 0 else 1
  {
    assert (init + [last])[..|init|] == init;
    assert last in SortedDays(init) <==> last in init;
  }

  lemma {:induction false} SortedKeepsLength(raw: seq<int>)
    ensures |SortedDays(raw)| == |raw| <==> IsDistinct(raw)
  {
    if raw != [] {
      var init, last := raw[..|raw| - 1], raw[|raw| - 1];
      assert raw == init + [last];
      SortedKeepsLength(init);
      DistinctNext(init, last);
      SortedNext(init, last);
      SortedNoLonger(init);
    }
  }

  lemma SortedNoLonger(raw: seq<int>)
    ensures |SortedDays(raw)| <= |raw|
  {}

  /** The days as integers and the two minutes of a well-typed request. */
  function Parse(days: seq<int>, start: int, end: int): (r: Option<Schedule>)
    ensures r.Some? ==> IsSchedule(r.value) && r.value.start == start && r.value.end == end
    ensures r.Some? ==> forall d :: d in r.value.days <==> d in days
  {
    if days == [] || (exists d | d in days :: d < 0 || d > 6) then None
    else
      var sorted := SortedDays(days);
      if |sorted| != |days| then None
      else if start < 0 || start > 1439 || end < 0 || end > 1439 || start == end then None
      else
        assert forall i | 0 <= i < |sorted| :: sorted[i] in days;
        Some(Schedule(sorted, start, end))
  }

  /** Exactly the schedules with some days, each once and in range, and two different minutes of the day. */
  lemma ParseExact(days: seq<int>, start: int, end: int)
    ensures Parse(days, start, end).Some? <==>
      && days != [] && (forall d | d in days :: 0 <= d <= 6) && IsDistinct(days)
      && 0 <= start < DAY && 0 <= end < DAY && start != end
  {
    SortedKeepsLength(days);
  }

  // ------------------------------------------------------------------- windows

  function UtcDay(atMs: int): int {
    (atMs / MS_PER_DAY + EPOCH_DAY) % 7
  }

  function UtcMinute(atMs: int): int {
    atMs % MS_PER_DAY / 3_600_000 * 60 + atMs % 3_600_000 / MS_PER_MINUTE
  }

  /** The test as the rule evaluates it; no schedule is always active. */
  predicate IsScheduleActive(schedule: Option<Schedule>, atMs: int) {
    if schedule.None? then true
    else
      var s := schedule.value;
      var day, minute := UtcDay(atMs), UtcMinute(atMs);
      if s.start < s.end then day in s.days && s.start <= minute < s.end
      else (day in s.days && minute >= s.start) || ((day + 6) % 7 in s.days && minute < s.end)
  }

  function Length(s: Schedule): int {
    (s.end - s.start) % DAY
  }

  /** Minutes since Sunday midnight of the week before the epoch. */
  function WeekMinute(atMs: int): int {
    atMs / MS_PER_MINUTE + EPOCH_DAY * DAY
  }

  /** The minute lies in the half-open window that starts on day `d`, around the week. */
  predicate InWindow(s: Schedule, d: int, m: int) {
    (m - (d * DAY + s.start)) % WEEK < Length(s)
  }

  predicate InAnyWindow(s: Schedule, days: seq<int>, m: int) {
    exists d | d in days :: InWindow(s, d, m)
  }

  lemma ModWeek(x: int, q: int, r: int)
    requires x == q * WEEK + r && 0 <= r < WEEK
    ensures x % WEEK == r && x / WEEK == q
  {
  }

  /** Day and minute are the week minute split by the length of a day. */
  lemma DayAndMinute(atMs: int)
    ensures 0 <= UtcMinute(atMs) < DAY && 0 <= UtcDay(atMs) < 7
    ensures WeekMinute(atMs) % WEEK == UtcDay(atMs) * DAY + UtcMinute(atMs)
  {
    var days, rest := atMs / MS_PER_DAY, atMs % MS_PER_DAY;
    var hours, inHour := rest / 3_600_000, rest % 3_600_000;
    var minutes := inHour / MS_PER_MINUTE;
    assert atMs / 3_600_000 == days * 24 + hours && atMs % 3_600_000 == inHour;
    assert atMs / MS_PER_MINUTE == days * DAY + hours * 60 + minutes;
    var weeks, day := (days + EPOCH_DAY) / 7, (days + EPOCH_DAY) % 7;
    ModWeek(WeekMinute(atMs), weeks, day * DAY + hours * 60 + minutes);
  }

  lemma WindowOfDay(s: Schedule, d: int, m: int, day: int, minute: int)
    requires IsSchedule(s) && 0 <= d <= 6 && 0 <= day <= 6 && 0 <= minute < DAY && m % WEEK == day * DAY + minute
    ensures InWindow(s, d, m) <==>
      if s.start < s.end then day == d && s.start <= minute < s.end
      else (day == d && minute >= s.start) || ((day + 6) % 7 == d && minute < s.end)
  {
    var weeks := m / WEEK;
    var apart := (day - d) * DAY + minute - s.start;
    if apart >= 0 {
      ModWeek(m - (d * DAY + s.start), weeks, apart);
    } else {
      ModWeek(m - (d * DAY + s.start), weeks - 1, apart + WEEK);
    }
  }

  /** A schedule is active exactly when the minute of the week lies in the window of a listed day. */
  lemma ActiveIsInWindow(s: Schedule, atMs: int)
    requires IsSchedule(s)
    ensures IsScheduleActive(Some(s), atMs) <==> InAnyWindow(s, s.days, WeekMinute(atMs))
  {
    DayAndMinute(atMs);
    var day, minute := UtcDay(atMs), UtcMinute(atMs);
    forall d | d in s.days ensures InWindow(s, d, WeekMinute(atMs)) <==>
      if s.start < s.end then day == d && s.start <= minute < s.end
      else (day == d && minute >= s.start) || ((day + 6) % 7 == d && minute < s.end)
    {
      WindowOfDay(s, d, WeekMinute(atMs), day, minute);
    }
  }

  /** Without a schedule a rule is always active. */
  lemma ActiveExactly(schedule: Option<Schedule>, atMs: int)
    requires schedule.Some? ==> IsSchedule(schedule.value)
    ensures IsScheduleActive(schedule, atMs) <==>
      schedule.None? || InAnyWindow(schedule.value, schedule.value.days, WeekMinute(atMs))
  {
    if schedule.Some? { ActiveIsInWindow(schedule.value, atMs); }
  }

  lemma DayOf(days: int, atMs: int)
    requires 0 <= atMs < MS_PER_DAY
    ensures UtcDay(days * MS_PER_DAY + atMs) == (days + EPOCH_DAY) % 7
  {
    assert (days * MS_PER_DAY + atMs) / MS_PER_DAY == days;
  }

  /** Days count from Sunday: 4 January 1970 and 2 January 2000 were Sundays, 29 February 2024 a Thursday. */
  lemma DaysOfKnownDates(atMs: int)
    requires 0 <= atMs < MS_PER_DAY
    ensures UtcDay(3 * MS_PER_DAY + atMs) == 0 && UtcDay(10_958 * MS_PER_DAY + atMs) == 0
    ensures UtcDay(19_782 * MS_PER_DAY + atMs) == 4
    ensures WeekMinute(3 * MS_PER_DAY) == WEEK
  {
    DayOf(3, atMs);
    DayOf(10_958, atMs);
    DayOf(19_782, atMs);
  }

  // ----------------------------------------------------------- active minutes

  function Count(s: Schedule, days: seq<int>, from: int, n: nat): nat {
    if n == 0 then 0 else Count(s, days, from, n - 1) + if InAnyWindow(s, days, from + n - 1) then 1 else 0
  }

  function CountDay(s: Schedule, d: int, from: int, n: nat): nat {
    if n == 0 then 0 else CountDay(s, d, from, n - 1) + if InWindow(s, d, from + n - 1) then 1 else 0
  }

  lemma Periodic(s: Schedule, d: int, m: int)
    ensures InWindow(s, d, m + WEEK) == InWindow(s, d, m)
  {
    var x := m - (d * DAY + s.start);
    ModWeek(x + WEEK, x / WEEK + 1, x % WEEK);
  }

  lemma {:induction false} CountDaySplit(s: Schedule, d: int, from: int, n: nat)
    requires n > 0
    ensures CountDay(s, d, from, n) == CountDay(s, d, from + 1, n - 1) + if InWindow(s, d, from) then 1 else 0
  {
    if n > 1 {
      CountDaySplit(s, d, from, n - 1);
      assert from + 1 + (n - 1) - 1 == from + n - 1;
    }
  }

  /** A week counted from one minute later has as many active minutes. */
  lemma CountDayShift(s: Schedule, d: int, from: int, week: nat)
    requires week == WEEK
    ensures CountDay(s, d, from + 1, week) == CountDay(s, d, from, week)
  {
    CountDaySplit(s, d, from, week);
    Periodic(s, d, from);
    assert from + 1 + week - 1 == from + WEEK;
  }

  lemma {:induction false} CountDayAnywhere(s: Schedule, d: int, from: int, shift: nat, week: nat)
    requires week == WEEK
    ensures CountDay(s, d, from + shift, week) == CountDay(s, d, from, week)
  {
    if shift > 0 {
      CountDayAnywhere(s, d, from, shift - 1, week);
      CountDayShift(s, d, from + shift - 1, week);
    }
  }

  lemma {:induction false} CountFromStart(s: Schedule, d: int, n: nat)
    requires n <= WEEK && 0 <= Length(s)
    ensures CountDay(s, d, d * DAY + s.start, n) == if n <= Length(s) then n else Length(s)
  {
    if n > 0 {
      CountFromStart(s, d, n - 1);
      ModWeek(n - 1, 0, n - 1);
    }
  }

  lemma CountOfDay(s: Schedule, d: int, from: int, week: nat)
    requires week == WEEK && 0 <= Length(s) < DAY
    ensures CountDay(s, d, from, week) == Length(s)
  {
    var start := d * DAY + s.start;
    CountFromStart(s, d, week);
    if from >= start {
      CountDayAnywhere(s, d, start, from - start, week);
    } else {
      CountDayAnywhere(s, d, from, start - from, week);
    }
  }

  /** No minute lies in the windows of two days. */
  lemma WindowsAreDisjoint(s: Schedule, d: int, e: int, m: int)
    requires 0 <= d < e <= 6 && 0 <= Length(s) < DAY
    ensures !(InWindow(s, d, m) && InWindow(s, e, m))
  {
    var x := m - (d * DAY + s.start);
    var q, r := x / WEEK, x % WEEK;
    if r - (e - d) * DAY >= 0 {
      ModWeek(x - (e - d) * DAY, q, r - (e - d) * DAY);
    } else {
      ModWeek(x - (e - d) * DAY, q - 1, r - (e - d) * DAY + WEEK);
    }
    assert m - (e * DAY + s.start) == x - (e - d) * DAY;
  }

  lemma {:induction false} CountAdds(s: Schedule, init: seq<int>, last: int, from: int, n: nat)
    requires 0 <= Length(s) < DAY && 0 <= last <= 6 && forall i | 0 <= i < |init| :: 0 <= init[i] < last
    ensures Count(s, init + [last], from, n) == Count(s, init, from, n) + CountDay(s, last, from, n)
  {
    if n > 0 {
      CountAdds(s, init, last, from, n - 1);
      var m := from + n - 1;
      forall d | d in init ensures !(InWindow(s, d, m) && InWindow(s, last, m)) {
        WindowsAreDisjoint(s, d, last, m);
      }
      assert forall d :: d in init + [last] <==> d in init || d == last;
    }
  }

  lemma {:induction false} CountNone(s: Schedule, from: int, n: nat)
    ensures Count(s, [], from, n) == 0
  {
    if n > 0 { CountNone(s, from, n - 1); }
  }

  lemma OneMore(n: nat, len: int)
    ensures (n + 1) * len == n * len + len
  {
  }

  lemma {:induction false} CountOfDays(s: Schedule, days: seq<int>, from: int, week: nat)
    requires week == WEEK && 0 <= Length(s) < DAY
    requires (forall i | 0 <= i < |days| :: 0 <= days[i] <= 6) && forall i, j | 0 <= i < j < |days| :: days[i] < days[j]
    ensures Count(s, days, from, week) == |days| * Length(s)
    decreases |days|
  {
    if days == [] {
      CountNone(s, from, week);
    } else {
      var init, last := days[..|days| - 1], days[|days| - 1];
      CountOfDays(s, init, from, week);
      CountAdds(s, init, last, from, week);
      CountOfDay(s, last, from, week);
      assert days == init + [last];
      OneMore(|init|, Length(s));
    }
  }

  /** The active minutes among the `n` that start with minute `from` since the epoch. */
  function ActiveMinutes(s: Schedule, from: int, n: nat): nat {
    if n == 0 then 0
    else ActiveMinutes(s, from, n - 1) + if IsScheduleActive(Some(s), (from + n - 1) * MS_PER_MINUTE) then 1 else 0
  }

  lemma {:induction false} ActiveMinutesAre(s: Schedule, from: int, n: nat)
    requires IsSchedule(s)
    ensures ActiveMinutes(s, from, n) == Count(s, s.days, from + EPOCH_DAY * DAY, n)
  {
    if n > 0 {
      ActiveMinutesAre(s, from, n - 1);
      ActiveIsInWindow(s, (from + n - 1) * MS_PER_MINUTE);
      assert WeekMinute((from + n - 1) * MS_PER_MINUTE) == from + EPOCH_DAY * DAY + n - 1;
    }
  }

  /** Any seven days in a row hold exactly (number of days) times (window length) active minutes. */
  lemma ActiveMinutesPerWeek(s: Schedule, from: int, week: nat)
    requires IsSchedule(s) && week == WEEK
    ensures ActiveMinutes(s, from, week) == |s.days| * Length(s)
  {
    ActiveMinutesAre(s, from, week);
    CountOfDays(s, s.days, from + EPOCH_DAY * DAY, week);
  }
}
