/** When a job is due: timed schedules by a backward calendar search, intervals by elapsed time. */
module Scheduler {
  import opened Wrappers
  import opened Calendar

  datatype Schedule =
    | Manual
    | Interval(minutes: nat)
    | Daily(hour: nat, minute: nat)
    | Weekly(days: seq<nat>, hour: nat, minute: nat)
    | Monthly(day: nat, hour: nat, minute: nat)

  predicate Timed(s: Schedule) {
    s.Daily? || s.Weekly? || s.Monthly?
  }

  predicate ValidTime(hour: nat, minute: nat) {
    hour <= 23 && minute <= 59
  }

  /** The schedules the engine accepts. */
  predicate Validate(s: Schedule) {
    match s
    case Manual => true
    case Interval(minutes) => minutes != 0
    case Daily(h, m) => ValidTime(h, m)
    case Weekly(days, h, m) => days != [] && (forall i :: 0 <= i < |days| ==> days[i] <= 6) && ValidTime(h, m)
    case Monthly(day, h, m) => 1 <= day <= 31 && ValidTime(h, m)
  }

  const DAY: int := 1440

  /** What the time zone says of a local time: skipped by a gap, met once, or met twice. */
  datatype LocalResult = Skipped | Single(at: int) | Ambiguous(first: int, second: int)

  /** The machine's time zone, on local minutes (counted across days) and instants. */
  datatype Zone = Zone(resolve: int -> LocalResult, dateOf: int -> Date)

  function Earliest(r: LocalResult): Option<int> {
    match r
    case Skipped => None
    case Single(at) => Some(at)
    case Ambiguous(first, _) => Some(first)
  }

  /** The instant of a local time; a skipped one moves an hour on. */
  function Unix(z: Zone, local: int): Option<int> {
    if z.resolve(local).Skipped? then Earliest(z.resolve(local + 60)) else Earliest(z.resolve(local))
  }

  function LocalMinute(d: Date, hour: nat, minute: nat): int
    requires Valid(d)
  {
    DAY * DayNumber(d) + 60 * hour + minute
  }

  function At(z: Zone, s: Schedule, d: Date): Option<int>
    requires Timed(s) && Valid(d)
  {
    if ValidTime(s.hour, s.minute) then Unix(z, LocalMinute(d, s.hour, s.minute)) else None
  }

  /**
   * Gaps are at most an hour, the same time on a later day comes later, and a clock
   * change never moves a time of day past the end of the following day or before its own day.
   */
  ghost predicate ZoneLaws(z: Zone) {
    && (forall now :: Valid(z.dateOf(now)))
    && (forall n :: Unix(z, n).Some?)
    && (forall a, b :: a + DAY <= b ==> Unix(z, a).value < Unix(z, b).value)
    && (forall n, now :: DAY * (DayNumber(z.dateOf(now)) + 1) <= n ==> now < Unix(z, n).value)
    && (forall n, now :: n < DAY * (DayNumber(z.dateOf(now)) - 1) ==> Unix(z, n).value <= now)
  }

  /**
   * In a gap [from, to) no longer than an hour, a skipped time lands at the gap's end exactly when it was an hour
   * before it.
   */
  lemma SkippedTimeMoves(z: Zone, from: int, to: int, local: int)
    requires from <= local < to <= from + 60
    requires forall n :: from <= n < to ==> z.resolve(n).Skipped?
    requires forall n :: to <= n < to + 60 ==> z.resolve(n).Single?
    requires forall n, m :: to <= n < m < to + 60 ==> z.resolve(n) != z.resolve(m)
    ensures Unix(z, local) == Unix(z, to) <==> local + 60 == to
  {
    assert z.resolve(local).Skipped? && z.resolve(to).Single? && z.resolve(local + 60).Single?;
  }

  /** Whether a timed schedule has an occurrence on a date. */
  predicate RunsOn(s: Schedule, d: Date)
    requires Valid(d)
  {
    match s
    case Daily(_, _) => true
    case Weekly(days, _, _) => Weekday(d) in days
    case Monthly(day, _, _) => d.day == if day <= DaysInMonth(d) then day else DaysInMonth(d)
    case _ => false
  }

  const SEARCH_DAYS: nat := 62

  /** What the search learns of one date. */
  datatype Probe = Skip | NoSuchTime | Found(at: int)

  function ProbeDay(z: Zone, s: Schedule, now: int, d: Date): Probe
    requires Timed(s)
  {
    if !Valid(d) || !RunsOn(s, d) then Skip
    else
      match At(z, s, d)
      case None => NoSuchTime
      case Some(at) => if at <= now then Found(at) else Skip
  }

  /** Search backwards from `back` days before today. */
  function Search(probe: Date -> Probe, today: Date, back: nat): Option<(int, bool)>
    requires Valid(today) && back <= SEARCH_DAYS + 1
    decreases SEARCH_DAYS + 1 - back
  {
    if back > SEARCH_DAYS then None
    else
      match probe(Back(today, back))
      case NoSuchTime => None
      case Found(at) => Some((at, back == 0))
      case Skip => Search(probe, today, back + 1)
  }

  function Days(z: Zone, s: Schedule, now: int): Date -> Probe
    requires Timed(s)
  {
    d => ProbeDay(z, s, now, d)
  }

  /** The most recent occurrence at or before now, and whether it falls on today's date. */
  function LatestOccurrence(z: Zone, s: Schedule, now: int): Option<(int, bool)>
    requires Valid(z.dateOf(now))
  {
    if Timed(s) then Search(Days(z, s, now), z.dateOf(now), 0) else None
  }

  /** The search loop, with its early returns. */
  method SearchBack(probe: Date -> Probe, today: Date) returns (r: Option<(int, bool)>)
    requires Valid(today)
    ensures r == Search(probe, today, 0)
  {
    var back := 0;
    var d := today;
    while back <= SEARCH_DAYS
      invariant 0 <= back <= SEARCH_DAYS + 1 && d == Back(today, back)
      invariant Search(probe, today, back) == Search(probe, today, 0)
    {
      var p := probe(d);
      if p.NoSuchTime? {
        return None;
      }
      if p.Found? {
        return Some((p.at, back == 0));
      }
      d := Pred(d);
      back := back + 1;
    }
    r := None;
  }

  method FindLatest(z: Zone, s: Schedule, now: int) returns (r: Option<(int, bool)>)
    requires Valid(z.dateOf(now))
    ensures r == LatestOccurrence(z, s, now)
  {
    if !Timed(s) {
      return None;
    }
    r := SearchBack(Days(z, s, now), z.dateOf(now));
  }

  // ---------------------------------------------------------------- the search never fails and finds the latest

  /** After clamping, a monthly schedule runs on exactly one day of every month. */
  lemma OncePerMonth(s: Schedule, y: int, m: int)
    requires s.Monthly? && Validate(s) && 1 <= m <= 12
    ensures var occ := if s.day <= MonthLength(y, m) then s.day else MonthLength(y, m);
            forall day :: 1 <= day <= MonthLength(y, m) ==> (RunsOn(s, Date(y, m, day)) <==> day == occ)
  {
    forall day | 1 <= day <= MonthLength(y, m)
      ensures DaysInMonth(Date(y, m, day)) == MonthLength(y, m)
    {
      DaysInMonthIsLength(Date(y, m, day));
    }
  }

  lemma DaysToWeekday(n: int, w: int) returns (k: nat)
    requires 0 <= w <= 6
    ensures 2 <= k <= 8 && (n - k) % 7 == w
  {
    var r := (n - w - 2) % 7;
    var q := (n - w - 2) / 7;
    k := r + 2;
    assert n - k == 7 * q + w;
  }

  lemma WeeklyWithinWeek(s: Schedule, d: Date) returns (n: nat)
    requires s.Weekly? && Validate(s) && Valid(d)
    ensures 2 <= n <= 8 && RunsOn(s, Back(d, n))
  {
    n := DaysToWeekday(DayNumber(d), s.days[0]);
    BackDayNumber(d, n);
  }

  /** The previous month's occurrence. */
  lemma PrevMonthOccurrence(s: Schedule, d: Date) returns (n: nat)
    requires s.Monthly? && Validate(s) && Valid(d)
    ensures var (y, m) := PrevMonth(d.year, d.month);
            var occ := if s.day <= MonthLength(y, m) then s.day else MonthLength(y, m);
            n == d.day + MonthLength(y, m) - occ
    ensures RunsOn(s, Back(d, n))
  {
    var (y, m) := PrevMonth(d.year, d.month);
    var occ := if s.day <= MonthLength(y, m) then s.day else MonthLength(y, m);
    n := d.day + MonthLength(y, m) - occ;
    BackIntoPrevMonth(d, occ);
    OncePerMonth(s, y, m);
  }

  /** The last occurrence but yesterday's is at most two months back. */
  lemma MonthlyWithinTwoMonths(s: Schedule, d: Date) returns (n: nat)
    requires s.Monthly? && Validate(s) && Valid(d)
    ensures 2 <= n <= SEARCH_DAYS && RunsOn(s, Back(d, n))
  {
    n := PrevMonthOccurrence(s, d);
    if n < 2 {
      var e := Back(d, n);
      var k := PrevMonthOccurrence(s, e);
      BackAdds(d, n, k);
      n := n + k;
    }
  }

  /** Every accepted timed schedule has an occurrence between 2 and 62 days before any date. */
  lemma OccursBefore(s: Schedule, d: Date) returns (n: nat)
    requires Timed(s) && Validate(s) && Valid(d)
    ensures 2 <= n <= SEARCH_DAYS && RunsOn(s, Back(d, n))
  {
    if s.Daily? {
      n := 2;
    } else if s.Weekly? {
      n := WeeklyWithinWeek(s, d);
    } else {
      n := MonthlyWithinTwoMonths(s, d);
    }
  }

  /** The search stops at the first day back that has an occurrence at or before now. */
  lemma {:induction false} SearchStops(probe: Date -> Probe, today: Date, back: nat, n: nat) returns (b: nat)
    requires Valid(today) && forall d :: !probe(d).NoSuchTime?
    requires back <= n <= SEARCH_DAYS && probe(Back(today, n)).Found?
    ensures back <= b <= n && probe(Back(today, b)).Found?
    ensures Search(probe, today, back) == Some((probe(Back(today, b)).at, b == 0))
    ensures forall k :: back <= k < b ==> probe(Back(today, k)).Skip?
    decreases n - back
  {
    b := back;
    if !probe(Back(today, back)).Found? {
      b := SearchStops(probe, today, back + 1, n);
    }
  }

  /** An occurrence: a date the schedule runs on, at its time of day, at or before now. */
  ghost predicate IsOccurrence(z: Zone, s: Schedule, now: int, d: Date, at: int)
    requires Timed(s)
  {
    Valid(d) && RunsOn(s, d) && At(z, s, d) == Some(at) && at <= now
  }

  lemma TwoDaysBackHasPassed(z: Zone, s: Schedule, now: int, n: nat)
    requires ZoneLaws(z) && Timed(s) && Validate(s) && 2 <= n
    ensures At(z, s, Back(z.dateOf(now), n)).Some? && At(z, s, Back(z.dateOf(now), n)).value <= now
  {
    var d := Back(z.dateOf(now), n);
    BackDayNumber(z.dateOf(now), n);
    assert LocalMinute(d, s.hour, s.minute) < DAY * (DayNumber(z.dateOf(now)) - 1);
  }

  lemma LaterDateIsLater(z: Zone, s: Schedule, today: Date, b: nat, k: nat)
    requires ZoneLaws(z) && Timed(s) && Validate(s) && Valid(today) && b < k
    ensures At(z, s, Back(today, k)).value < At(z, s, Back(today, b)).value
  {
    BackDayNumber(today, b);
    BackDayNumber(today, k);
    var (m, n) := (LocalMinute(Back(today, k), s.hour, s.minute), LocalMinute(Back(today, b), s.hour, s.minute));
    assert n - m == DAY * (k - b);
    assert m + DAY <= n;
  }

  lemma NotAfterToday(z: Zone, s: Schedule, now: int, e: Date, t: int)
    requires ZoneLaws(z) && Timed(s) && Validate(s) && IsOccurrence(z, s, now, e, t)
    ensures e == z.dateOf(now) || Before(e, z.dateOf(now))
  {
    var today := z.dateOf(now);
    assert LocalMinute(e, s.hour, s.minute) < DAY * (DayNumber(today) + 1);
    assert DayNumber(e) <= DayNumber(today);
    DayNumberOrders(today, e);
  }

  lemma OccurrenceNotLater(z: Zone, s: Schedule, now: int, b: nat, e: Date, t: int)
    requires ZoneLaws(z) && Timed(s) && Validate(s) && IsOccurrence(z, s, now, e, t)
    requires ProbeDay(z, s, now, Back(z.dateOf(now), b)).Found?
    requires forall k :: 0 <= k < b ==> ProbeDay(z, s, now, Back(z.dateOf(now), k)).Skip?
    ensures t <= ProbeDay(z, s, now, Back(z.dateOf(now), b)).at
  {
    NotAfterToday(z, s, now, e, t);
    var k := EarlierIsBack(e, z.dateOf(now));
    assert ProbeDay(z, s, now, Back(z.dateOf(now), k)) == Found(t);
    if b < k { LaterDateIsLater(z, s, z.dateOf(now), b, k); }
  }

  ghost predicate Greatest(z: Zone, s: Schedule, now: int, at: int)
    requires Timed(s)
  {
    forall e, t :: IsOccurrence(z, s, now, e, t) ==> t <= at
  }

  lemma FirstFoundIsGreatest(z: Zone, s: Schedule, now: int, b: nat)
    requires ZoneLaws(z) && Timed(s) && Validate(s)
    requires ProbeDay(z, s, now, Back(z.dateOf(now), b)).Found?
    requires forall k :: 0 <= k < b ==> ProbeDay(z, s, now, Back(z.dateOf(now), k)).Skip?
    ensures Greatest(z, s, now, ProbeDay(z, s, now, Back(z.dateOf(now), b)).at)
  {
    forall e, t | IsOccurrence(z, s, now, e, t)
      ensures t <= ProbeDay(z, s, now, Back(z.dateOf(now), b)).at
    {
      OccurrenceNotLater(z, s, now, b, e, t);
    }
  }

  /** The search finds the first day back with a passed occurrence. */
  lemma SearchSucceeds(z: Zone, s: Schedule, now: int) returns (b: nat)
    requires ZoneLaws(z) && Timed(s) && Validate(s)
    ensures ProbeDay(z, s, now, Back(z.dateOf(now), b)).Found?
    ensures forall k :: 0 <= k < b ==> ProbeDay(z, s, now, Back(z.dateOf(now), k)).Skip?
    ensures LatestOccurrence(z, s, now) == Some((ProbeDay(z, s, now, Back(z.dateOf(now), b)).at, b == 0))
  {
    var today := z.dateOf(now);
    var n := OccursBefore(s, today);
    TwoDaysBackHasPassed(z, s, now, n);
    ProbesKnowTheTime(z, s, now);
    b := SearchStops(Days(z, s, now), today, 0, n);
  }

  lemma ProbesKnowTheTime(z: Zone, s: Schedule, now: int)
    requires ZoneLaws(z) && Timed(s) && Validate(s)
    ensures forall d :: !Days(z, s, now)(d).NoSuchTime?
  {
    forall d: Date
      ensures !Days(z, s, now)(d).NoSuchTime?
    {
      if Valid(d) { assert Unix(z, LocalMinute(d, s.hour, s.minute)).Some?; }
    }
  }

  /**
   * For every accepted timed schedule and every instant, the 63-day search succeeds
   * and what it returns is the greatest occurrence there is at or before now - on any
   * date whatever - and says truly whether it is today's.
   */
  lemma SearchFindsLatest(z: Zone, s: Schedule, now: int) returns (d: Date)
    requires ZoneLaws(z) && Timed(s) && Validate(s)
    ensures LatestOccurrence(z, s, now).Some?
    ensures var (at, today) := LatestOccurrence(z, s, now).value;
            && IsOccurrence(z, s, now, d, at) && (today <==> d == z.dateOf(now))
            && Greatest(z, s, now, at)
  {
    var b := SearchSucceeds(z, s, now);
    d := Back(z.dateOf(now), b);
    if b > 0 { BackIsBefore(z.dateOf(now), b); }
    FirstFoundIsGreatest(z, s, now, b);
  }

  lemma {:induction false} SearchNotAfter(probe: Date -> Probe, today: Date, back: nat, now: int)
    requires Valid(today) && back <= SEARCH_DAYS + 1 && forall d :: probe(d).Found? ==> probe(d).at <= now
    ensures Search(probe, today, back).Some? ==> Search(probe, today, back).value.0 <= now
    decreases SEARCH_DAYS + 1 - back
  {
    if back <= SEARCH_DAYS { SearchNotAfter(probe, today, back + 1, now); }
  }

  /** In any zone at all, the occurrence found is not in the future. */
  lemma LatestNotAfterNow(z: Zone, s: Schedule, now: int)
    requires Valid(z.dateOf(now))
    ensures LatestOccurrence(z, s, now).Some? ==> LatestOccurrence(z, s, now).value.0 <= now
  {
    if Timed(s) { SearchNotAfter(Days(z, s, now), z.dateOf(now), 0, now); }
  }

  // ---------------------------------------------------------------- due

  function AtLeastOne(n: nat): nat {
    if n == 0 then 1 else n
  }

  /** Whether a schedule is due given the last run. */
  predicate ScheduleDue(z: Zone, s: Schedule, last: Option<int>, now: int)
    requires Valid(z.dateOf(now))
  {
    match s
    case Manual => false
    case Interval(minutes) => last.None? || now - last.value >= AtLeastOne(minutes) * 60
    case _ =>
      match LatestOccurrence(z, s, now)
      case None => false
      case Some((at, today)) => if last.None? then today else last.value < at
  }

  predicate LogDue(baseline: Option<int>, minutes: nat, now: int) {
    baseline.None? || now - baseline.value >= AtLeastOne(minutes) * 60
  }

  /**
   * A timed schedule that has run before is due exactly when some occurrence has
   * passed since: missed runs catch up, and one run answers every occurrence up to it.
   */
  lemma DueMeansMissedOccurrence(z: Zone, s: Schedule, last: int, now: int)
    requires ZoneLaws(z) && Timed(s) && Validate(s)
    ensures ScheduleDue(z, s, Some(last), now) <==> exists d, at :: IsOccurrence(z, s, now, d, at) && last < at
  {
    var d := SearchFindsLatest(z, s, now);
  }

  /** A job that has never run is due exactly when its occurrence on today's date has passed. */
  lemma FirstRunWaitsForToday(z: Zone, s: Schedule, now: int)
    requires ZoneLaws(z) && Timed(s) && Validate(s)
    ensures ScheduleDue(z, s, None, now) <==> exists at :: IsOccurrence(z, s, now, z.dateOf(now), at)
  {
    var today := z.dateOf(now);
    var d := SearchFindsLatest(z, s, now);
    var (at, isToday) := LatestOccurrence(z, s, now).value;
    forall t | IsOccurrence(z, s, now, today, t)
      ensures d == today
    {
      NotAfterToday(z, s, now, d, at);
      var k := EarlierIsBack(d, today);
      if k > 0 { LaterDateIsLater(z, s, today, 0, k); }
    }
  }
}
