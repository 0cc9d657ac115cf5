/** Civil times of years 0..9999 and the instants they stand for, in the proleptic
    Gregorian calendar Go's time package uses. */
module Calendar {

  datatype Civil = Civil(year: nat, month: nat, day: nat, hour: nat, minute: nat, second: nat)

  predicate IsLeap(y: nat) { y % 4 == 0 && (y % 100 != 0 || y % 400 == 0) }

  function DaysIn(y: nat, m: nat): nat
  {
    if m == 2 then (if IsLeap(y) then 29 else 28)
    else if m in {4, 6, 9, 11} then 30
    else 31
  }

  predicate IsCivil(c: Civil)
  {
    && c.year <= 9999 && 1 <= c.month <= 12 && 1 <= c.day <= DaysIn(c.year, c.month)
    && c.hour < 24 && c.minute < 60 && c.second < 60
  }

  function DaysBeforeYear(y: nat): nat
  {
    if y == 0 then 0 else DaysBeforeYear(y - 1) + if IsLeap(y - 1) then 366 else 365
  }

  /** Days of year y before the first of month m. */
  function DaysBeforeMonth(y: nat, m: nat): nat
  {
    if m <= 1 then 0 else DaysBeforeMonth(y, m - 1) + DaysIn(y, m - 1)
  }

  /** Days since 1 January of year 0. */
  function DayNumber(y: nat, m: nat, d: nat): int
  {
    DaysBeforeYear(y) + DaysBeforeMonth(y, m) + d - 1
  }

  /** Seconds since the start of year 0. */
  function Seconds(c: Civil): int
  {
    86400 * DayNumber(c.year, c.month, c.day) + 3600 * c.hour + 60 * c.minute + c.second
  }

  /** Dictionary order of the six numbers. */
  predicate Before(a: Civil, b: Civil)
  {
    || a.year < b.year
    || (a.year == b.year &&
        (|| a.month < b.month
         || (a.month == b.month &&
             (|| a.day < b.day
              || (a.day == b.day &&
                  (|| a.hour < b.hour
                   || (a.hour == b.hour &&
                       (|| a.minute < b.minute
                        || (a.minute == b.minute && a.second < b.second)))))))))
  }

  lemma {:induction false} MonthsGrow(y: nat, m: nat, n: nat)
    requires 1 <= m < n
    ensures DaysBeforeMonth(y, m) + DaysIn(y, m) <= DaysBeforeMonth(y, n)
    decreases n - m
  {
    if m + 1 == n {
    } else {
      MonthsGrow(y, m + 1, n);
    }
  }

  lemma YearLength(y: nat)
    ensures DaysBeforeMonth(y, 12) + DaysIn(y, 12) == if IsLeap(y) then 366 else 365
  {
    assert DaysBeforeMonth(y, 2) == 31;
    assert DaysBeforeMonth(y, 3) == 31 + DaysIn(y, 2);
    assert DaysBeforeMonth(y, 5) == DaysBeforeMonth(y, 3) + 61;
    assert DaysBeforeMonth(y, 7) == DaysBeforeMonth(y, 5) + 61;
    assert DaysBeforeMonth(y, 9) == DaysBeforeMonth(y, 7) + 62;
    assert DaysBeforeMonth(y, 11) == DaysBeforeMonth(y, 9) + 61;
  }

  lemma {:induction false} YearsGrow(y: nat, z: nat)
    requires y < z
    ensures DaysBeforeYear(y) + (if IsLeap(y) then 366 else 365) <= DaysBeforeYear(z)
    decreases z - y
  {
    if y + 1 == z {
    } else {
      YearsGrow(y, z - 1);
    }
  }

  lemma DaysGrow(a: Civil, b: Civil)
    requires IsCivil(a) && IsCivil(b)
    requires a.year < b.year || (a.year == b.year &&
               (a.month < b.month || (a.month == b.month && a.day < b.day)))
    ensures DayNumber(a.year, a.month, a.day) < DayNumber(b.year, b.month, b.day)
  {
    if a.year < b.year {
      YearsGrow(a.year, b.year);
      YearLength(a.year);
      if a.month < 12 {
        MonthsGrow(a.year, a.month, 12);
      }
    } else if a.month < b.month {
      MonthsGrow(a.year, a.month, b.month);
    }
  }

  lemma BeforeIsEarlier(a: Civil, b: Civil)
    requires IsCivil(a) && IsCivil(b) && Before(a, b)
    ensures Seconds(a) < Seconds(b)
  {
    if (a.year, a.month, a.day) != (b.year, b.month, b.day) {
      DaysGrow(a, b);
    }
  }

  /** Dictionary order of valid civil times is the order of their instants. */
  lemma CalendarOrder(a: Civil, b: Civil)
    requires IsCivil(a) && IsCivil(b)
    ensures Before(a, b) <==> Seconds(a) < Seconds(b)
    ensures a == b <==> Seconds(a) == Seconds(b)
  {
    if Before(a, b) {
      BeforeIsEarlier(a, b);
    } else if Before(b, a) {
      BeforeIsEarlier(b, a);
    } else {
      assert a == b;
    }
  }

  // -------------------------------------------------------------------------
  // The Gregorian calendar in closed form
  // -------------------------------------------------------------------------

  /** Division rounds down, and one less than a whole divisor more rounds up. */
  lemma Round4(p: int)
    ensures (p + 4) / 4 == p / 4 + 1 && (p + 3) / 4 == p / 4 + if p % 4 == 0 then 0 else 1
    ensures (p + 400) / 4 == p / 4 + 100 && (p + 400) % 4 == p % 4
  {
  }

  lemma Round100(p: int)
    ensures (p + 100) / 100 == p / 100 + 1 && (p + 99) / 100 == p / 100 + if p % 100 == 0 then 0 else 1
    ensures (p + 400) / 100 == p / 100 + 4 && (p + 400) % 100 == p % 100
  {
  }

  lemma Round400(p: int)
    ensures (p + 400) / 400 == p / 400 + 1 && (p + 399) / 400 == p / 400 + if p % 400 == 0 then 0 else 1
    ensures (p + 400) % 400 == p % 400
  {
  }

  lemma Multiples(q: int)
    ensures (4 * q) % 4 == 0
    ensures (100 * q) % 100 == 0
  {
  }

  lemma Divides(p: int)
    ensures p % 400 == 0 ==> p % 100 == 0
    ensures p % 100 == 0 ==> p % 4 == 0
  {
    if p % 400 == 0 {
      Multiples(4 * (p / 400));
      assert p == 400 * (p / 400) == 100 * (4 * (p / 400));
    }
    if p % 100 == 0 {
      Multiples(25 * (p / 100));
      assert p == 100 * (p / 100) == 4 * (25 * (p / 100));
    }
  }

  /** One for a leap year, from its four divisions. */
  lemma LeapCounts(p: nat)
    ensures (if IsLeap(p) then 1 else 0)
         == (if p % 4 == 0 then 1 else 0) - (if p % 100 == 0 then 1 else 0) + (if p % 400 == 0 then 1 else 0)
  {
    Divides(p);
  }

  lemma {:induction false} YearsInClosedForm(y: nat)
    ensures DaysBeforeYear(y) == 365 * y + (y + 3) / 4 - (y + 99) / 100 + (y + 399) / 400
  {
    if y == 0 {
    } else {
      hide IsLeap;
      var p := y - 1;
      YearsInClosedForm(p);
      Round4(p);
      Round100(p);
      Round400(p);
      LeapCounts(p);
      assert y + 3 == p + 4 && y + 99 == p + 100 && y + 399 == p + 400;
    }
  }

  /** The days of a year before each month, counting March as the first month of a year that
      ends in February: 153 days in every five months. */
  lemma MonthsInClosedForm(y: nat, m: nat)
    requires 1 <= m <= 12
    ensures DaysBeforeMonth(y, m)
         == if m <= 2 then (153 * (m + 9) + 2) / 5 - 306
            else (153 * (m - 3) + 2) / 5 + 59 + if IsLeap(y) then 1 else 0
  {
    assert DaysBeforeMonth(y, 2) == 31;
    assert DaysBeforeMonth(y, 3) == 31 + DaysIn(y, 2);
    assert DaysBeforeMonth(y, 4) == DaysBeforeMonth(y, 3) + 31;
    assert DaysBeforeMonth(y, 5) == DaysBeforeMonth(y, 4) + 30;
    assert DaysBeforeMonth(y, 6) == DaysBeforeMonth(y, 5) + 31;
    assert DaysBeforeMonth(y, 7) == DaysBeforeMonth(y, 6) + 30;
    assert DaysBeforeMonth(y, 8) == DaysBeforeMonth(y, 7) + 31;
    assert DaysBeforeMonth(y, 9) == DaysBeforeMonth(y, 8) + 31;
    assert DaysBeforeMonth(y, 10) == DaysBeforeMonth(y, 9) + 30;
    assert DaysBeforeMonth(y, 11) == DaysBeforeMonth(y, 10) + 31;
    assert DaysBeforeMonth(y, 12) == DaysBeforeMonth(y, 11) + 30;
  }

  /** Days since 1 January of year 0 of a date given as a year that begins in March, a month
      counted from March, and a day. */
  function DaysFromMarch(y: int, m: int, d: int): int
  {
    365 * y + y / 4 - y / 100 + y / 400 + (153 * m + 2) / 5 + d - 1 + 60
  }

  /** Counting day by day agrees with the closed form of the Gregorian calendar. */
  lemma DayNumberInClosedForm(y: nat, m: nat, d: nat)
    requires 1 <= m <= 12
    ensures DayNumber(y, m, d) == if m <= 2 then DaysFromMarch(y - 1, m + 9, d) else DaysFromMarch(y, m - 3, d)
  {
    hide IsLeap, DaysBeforeYear, DaysBeforeMonth;
    YearsInClosedForm(y);
    MonthsInClosedForm(y, m);
    if m <= 2 {
      Round4(y - 1);
      Round100(y - 1);
      Round400(y - 1);
      assert y + 3 == (y - 1) + 4 && y + 99 == (y - 1) + 100 && y + 399 == (y - 1) + 400;
    } else {
      Round4(y);
      Round100(y);
      Round400(y);
      LeapCounts(y);
    }
  }

  lemma MarchShift(y: int, m: int, d: int)
    ensures DaysFromMarch(y + 400, m, d) == DaysFromMarch(y, m, d) + 146097
  {
    Round4(y);
    Round100(y);
    Round400(y);
  }

  lemma LeapRepeats(y: nat)
    ensures IsLeap(y + 400) == IsLeap(y)
  {
    Round4(y);
    Round100(y);
    Round400(y);
  }

  /** Four hundred years are 146097 days, and the calendar repeats. */
  lemma FourHundredYears(y: nat, m: nat, d: nat)
    requires 1 <= m <= 12
    ensures DayNumber(y + 400, m, d) == DayNumber(y, m, d) + 146097
    ensures DaysIn(y + 400, m) == DaysIn(y, m)
  {
    hide DayNumber, DaysFromMarch, IsLeap;
    DayNumberInClosedForm(y, m, d);
    DayNumberInClosedForm(y + 400, m, d);
    if m <= 2 {
      MarchShift(y - 1, m + 9, d);
    } else {
      MarchShift(y, m - 3, d);
    }
    LeapRepeats(y);
  }

  /** The day after the last of a month is the first of the next. */
  lemma NextMonth(y: nat, m: nat)
    requires 1 <= m <= 12
    ensures DayNumber(y, m, DaysIn(y, m)) + 1 == if m == 12 then DayNumber(y + 1, 1, 1) else DayNumber(y, m + 1, 1)
  {
    YearLength(y);
  }
}
