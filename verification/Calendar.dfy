/** Gregorian dates, counting back from one, and weekdays. */
module Calendar {
  // ---------------------------------------------------------------- dates

  datatype Date = Date(year: int, month: int, day: int)

  predicate Leap(y: int) {
    y % 4 == 0 && (y % 100 != 0 || y % 400 == 0)
  }

  function MonthLength(y: int, m: int): (n: int)
    requires 1 <= m <= 12
    ensures 28 <= n <= 31
  {
    if m == 2 then (if Leap(y) then 29 else 28)
    else if m == 4 || m == 6 || m == 9 || m == 11 then 30 else 31
  }

  predicate Valid(d: Date) {
    1 <= d.month <= 12 && 1 <= d.day <= MonthLength(d.year, d.month)
  }

  function PrevMonth(y: int, m: int): (r: (int, int))
    requires 1 <= m <= 12
    ensures 1 <= r.1 <= 12
  {
    if m > 1 then (y, m - 1) else (y - 1, 12)
  }

  /** The day before. */
  function Pred(d: Date): (r: Date)
    requires Valid(d)
    ensures Valid(r)
  {
    if d.day > 1 then d.(day := d.day - 1)
    else var (y, m) := PrevMonth(d.year, d.month); Date(y, m, MonthLength(y, m))
  }

  /** `n` days before. */
  function Back(d: Date, n: nat): (r: Date)
    requires Valid(d)
    ensures Valid(r)
  {
    if n == 0 then d else Pred(Back(d, n - 1))
  }

  predicate Before(a: Date, b: Date) {
    a.year < b.year || (a.year == b.year && (a.month < b.month || (a.month == b.month && a.day < b.day)))
  }

  /** The length of a date's month, as the day before the next month's first. */
  function DaysInMonth(d: Date): int
    requires Valid(d)
  {
    var next := if d.month == 12 then Date(d.year + 1, 1, 1) else Date(d.year, d.month + 1, 1);
    Pred(next).day
  }

  lemma DaysInMonthIsLength(d: Date)
    requires Valid(d)
    ensures DaysInMonth(d) == MonthLength(d.year, d.month)
  {
  }

  function DaysBeforeYear(y: int): int {
    365 * (y - 1) + (y - 1) / 4 - (y - 1) / 100 + (y - 1) / 400
  }

  function DaysBeforeMonth(y: int, m: int): int
    requires 1 <= m <= 12
  {
    if m == 1 then 0 else DaysBeforeMonth(y, m - 1) + MonthLength(y, m - 1)
  }

  /** Days since the day before 1 January of year 1, a Monday. */
  function DayNumber(d: Date): int
    requires Valid(d)
  {
    DaysBeforeYear(d.year) + DaysBeforeMonth(d.year, d.month) + d.day
  }

  /** 0 is Sunday. */
  function Weekday(d: Date): (w: int)
    requires Valid(d)
    ensures 0 <= w <= 6
  {
    DayNumber(d) % 7
  }

  lemma YearLength(y: int)
    ensures DaysBeforeYear(y + 1) - DaysBeforeYear(y) == DaysBeforeMonth(y, 12) + 31
  {
    var feb := MonthLength(y, 2);
    assert DaysBeforeMonth(y, 2) == DaysBeforeMonth(y, 1) + 31;
    assert DaysBeforeMonth(y, 3) == 31 + feb;
    assert DaysBeforeMonth(y, 5) == DaysBeforeMonth(y, 3) + 61;
    assert DaysBeforeMonth(y, 7) == DaysBeforeMonth(y, 5) + 61;
    assert DaysBeforeMonth(y, 9) == DaysBeforeMonth(y, 7) + 62;
    assert DaysBeforeMonth(y, 11) == DaysBeforeMonth(y, 9) + 61;
    assert DaysBeforeMonth(y, 12) == DaysBeforeMonth(y, 11) + 30;
    assert y / 4 - (y - 1) / 4 == if y % 4 == 0 then 1 else 0;
    assert y / 100 - (y - 1) / 100 == if y % 100 == 0 then 1 else 0;
    assert y / 400 - (y - 1) / 400 == if y % 400 == 0 then 1 else 0;
  }

  lemma PredDayNumber(d: Date)
    requires Valid(d)
    ensures DayNumber(Pred(d)) == DayNumber(d) - 1
  {
    if d.day == 1 && d.month == 1 { YearLength(d.year - 1); }
  }

  lemma {:induction false} BackDayNumber(d: Date, n: nat)
    requires Valid(d)
    ensures DayNumber(Back(d, n)) == DayNumber(d) - n
  {
    if n > 0 {
      BackDayNumber(d, n - 1);
      PredDayNumber(Back(d, n - 1));
    }
  }

  /** A known Monday fixes the weekday count. */
  lemma FirstOfJune2026IsMonday()
    ensures Weekday(Date(2026, 6, 1)) == 1
  {
    assert DaysBeforeMonth(2026, 3) == 59;
    assert DaysBeforeMonth(2026, 6) == 151;
  }

  lemma {:induction false} BackIsBefore(d: Date, n: nat)
    requires Valid(d) && n > 0
    ensures Before(Back(d, n), d)
  {
    if n > 1 { BackIsBefore(d, n - 1); }
  }

  lemma {:induction false} BackOrdered(d: Date, a: nat, b: nat)
    requires Valid(d) && a < b
    ensures Before(Back(d, b), Back(d, a))
    decreases b
  {
    if a + 1 < b { BackOrdered(d, a, b - 1); }
  }

  /** Every earlier date is some number of days back. */
  lemma {:induction false} EarlierIsBack(e: Date, d: Date) returns (n: nat)
    requires Valid(e) && Valid(d) && (e == d || Before(e, d))
    ensures Back(d, n) == e
    decreases d.year - e.year, d.month, d.day
  {
    if e == d {
      n := 0;
    } else {
      var k := EarlierIsBack(e, Pred(d));
      BackOfPred(d, k);
      n := k + 1;
    }
  }

  lemma DayNumberOrders(a: Date, b: Date)
    requires Valid(a) && Valid(b)
    ensures Before(a, b) ==> DayNumber(a) < DayNumber(b)
  {
    if Before(a, b) {
      var n := EarlierIsBack(a, b);
      BackDayNumber(b, n);
    }
  }

  lemma {:induction false} BackOfPred(d: Date, k: nat)
    requires Valid(d)
    ensures Back(Pred(d), k) == Back(d, k + 1)
  {
    if k > 0 { BackOfPred(d, k - 1); }
  }

  /** Going back past the first lands in the previous month, counted from its end. */
  lemma {:induction false} BackWithinMonth(d: Date, k: nat)
    requires Valid(d) && k < d.day
    ensures Back(d, k) == d.(day := d.day - k)
  {
    if k > 0 { BackWithinMonth(d, k - 1); }
  }

  lemma {:induction false} BackAdds(d: Date, a: nat, b: nat)
    requires Valid(d)
    ensures Back(Back(d, a), b) == Back(d, a + b)
  {
    if b > 0 { BackAdds(d, a, b - 1); }
  }

  lemma BackIntoPrevMonth(d: Date, day: int)
    requires Valid(d)
    requires var (y, m) := PrevMonth(d.year, d.month);
             1 <= day <= MonthLength(y, m)
    ensures var (y, m) := PrevMonth(d.year, d.month);
            Back(d, d.day + MonthLength(y, m) - day) == Date(y, m, day)
  {
    var (y, m) := PrevMonth(d.year, d.month);
    BackWithinMonth(d, d.day - 1);
    var last := Date(y, m, MonthLength(y, m));
    assert Back(d, d.day) == last;
    BackWithinMonth(last, MonthLength(y, m) - day);
    BackAdds(d, d.day, MonthLength(y, m) - day);
  }
}
