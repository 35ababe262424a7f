/** ISO 8601 week numbers as the calendar heatmap computes them
    (uidai-dashboard/src/components/charts/CalendarHeatmap.jsx, `getISOWeek`): move to the
    Thursday of the date's Monday-to-Sunday week, then count weeks from 1 January of the
    Thursday's year. Days are counted by `DayNumber` (day 0 is 1 January of year 1, a
    Monday), so a millisecond difference divided by 86400000 is a difference of day
    numbers. */
module CalendarWeeks {
  import opened Common

  /** The Monday that starts the week of day number n. */
  function MondayOf(n: int): (m: int)
    ensures m <= n < m + 7 && m % 7 == 0
  {
    n - n % 7
  }

  /** The Thursday of the date's week. */
  function ThursdayOf(d: Date): (t: int)
    requires ValidDate(d)
    ensures t == MondayOf(DayNumber(d)) + 3
  {
    DayNumber(d) + 4 - IsoWeekday(d)
  }

  /** The year holding the Thursday of the date's week, which ISO 8601 makes the year the
      week belongs to: the year before, the year of the date, or the year after. */
  function WeekYear(d: Date): (y: int)
    requires ValidDate(d)
    ensures DaysBeforeYear(y) <= ThursdayOf(d) < DaysBeforeYear(y + 1)
    ensures d.year - 1 <= y <= d.year + 1
  {
    var t := ThursdayOf(d);
    DayOfYearRange(d);
    YearStartsAdvanceByYearLength(d.year - 1);
    YearStartsAdvanceByYearLength(d.year);
    YearStartsAdvanceByYearLength(d.year + 1);
    if t < DaysBeforeYear(d.year) then d.year - 1
    else if t >= DaysBeforeYear(d.year + 1) then d.year + 1
    else d.year
  }

  /** The Monday of week 1 of year y: the Monday of the week that holds 4 January. */
  function Week1Monday(y: int): int {
    MondayOf(DaysBeforeYear(y) + 3)
  }

  /** The ISO 8601 week number: one more than the number of whole weeks from the Monday of
      week 1 of the week's year to the Monday of the date's week. */
  function IsoWeek(d: Date): int
    requires ValidDate(d)
  {
    (MondayOf(DayNumber(d)) - Week1Monday(WeekYear(d))) / 7 + 1
  }

  /** `getISOWeek`: the day number of the date, `getUTCDay() || 7` for its weekday (Sunday
      is 0 there and becomes 7), the `setUTCDate` step to the Thursday, the start of the
      Thursday's year, and the ceiling of (days since then + 1) / 7. */
  method GetIsoWeek(date: Date) returns (week: int)
    requires ValidDate(date)
    ensures week == IsoWeek(date)
    ensures 1 <= week <= 53
  {
    var d := DayNumber(date);
    var utcDay := IsoWeekday(date) % 7;
    var dayNum := if utcDay == 0 then 7 else utcDay;
    SundayIsSeven(IsoWeekday(date));
    d := d + 4 - dayNum;
    var year := date.year;
    if d < DaysBeforeYear(year) {
      year := year - 1;
    } else if d >= DaysBeforeYear(year + 1) {
      year := year + 1;
    }
    var yearStart := DaysBeforeYear(year);
    week := (d - yearStart + 1 + 6) / 7;
    assert d == ThursdayOf(date) && year == WeekYear(date);
    IsoWeekRange(date);
  }

  /** `getUTCDay() || 7` is the ISO weekday again. */
  lemma SundayIsSeven(w: int)
    requires 1 <= w <= 7
    ensures (if w % 7 == 0 then 7 else w % 7) == w
  {
  }

  /** Counting weeks from the year's start by the Thursday gives the ISO count from the
      Monday of week 1, and stays within 1..53 for a Thursday inside the year. */
  lemma CountFromThursday(n: int, a: int)
    requires a <= MondayOf(n) + 3
    ensures (MondayOf(n) + 3 - a + 1 + 6) / 7 == (MondayOf(n) - MondayOf(a + 3)) / 7 + 1
    ensures MondayOf(n) + 3 - a < 366 ==> (MondayOf(n) + 3 - a + 1 + 6) / 7 <= 53
  {
    var k := n / 7 - (a + 3) / 7;
    assert MondayOf(n) == 7 * (n / 7);
    assert MondayOf(a + 3) == 7 * ((a + 3) / 7);
    var r := MondayOf(a + 3) + 3 - a;
    assert 0 <= r < 7;
    assert MondayOf(n) + 3 - a == 7 * k + r;
    assert MondayOf(n) - MondayOf(a + 3) == 7 * k;
  }

  /** Every date has a week number between 1 and 53, and counting from 1 January by the
      Thursday gives it. */
  lemma IsoWeekRange(d: Date)
    requires ValidDate(d)
    ensures (ThursdayOf(d) - DaysBeforeYear(WeekYear(d)) + 1 + 6) / 7 == IsoWeek(d)
    ensures 1 <= IsoWeek(d) <= 53
  {
    var y := WeekYear(d);
    YearAtMost366(y);
    CountFromThursday(DayNumber(d), DaysBeforeYear(y));
  }

  /** Days sharing a Monday share a week number, whatever their years: the week of
      29 December can be week 1 of the next year. */
  lemma SameMondaySameWeek(a: Date, b: Date)
    requires ValidDate(a) && ValidDate(b)
    requires MondayOf(DayNumber(a)) == MondayOf(DayNumber(b))
    ensures WeekYear(a) == WeekYear(b)
    ensures IsoWeek(a) == IsoWeek(b)
  {
    YearOfDayUnique(ThursdayOf(a), WeekYear(a), WeekYear(b));
  }

  /** 4 January is always in week 1 of its own year, and so is the year's first
      Thursday. */
  lemma FourthOfJanuaryInWeekOne(d: Date)
    requires ValidDate(d) && d.month == 1 && d.day == 4
    ensures WeekYear(d) == d.year
    ensures IsoWeek(d) == 1
  {
    YearStartsAdvanceByYearLength(d.year);
    assert DayNumber(d) == DaysBeforeYear(d.year) + 3;
  }

  lemma FirstThursdayInWeekOne(d: Date)
    requires ValidDate(d) && IsoWeekday(d) == 4 && DayOfYear(d) < 7
    ensures WeekYear(d) == d.year
    ensures IsoWeek(d) == 1
  {
    YearStartsAdvanceByYearLength(d.year);
    var a := DaysBeforeYear(d.year);
    CountFromThursday(DayNumber(d), a);
  }

  lemma YearAtMost366(y: int)
    ensures DaysBeforeYear(y + 1) <= DaysBeforeYear(y) + 366
  {
    YearStartsAdvanceByYearLength(y);
  }

  /** A day number lies in one year only. */
  lemma YearOfDayUnique(t: int, y1: int, y2: int)
    requires DaysBeforeYear(y1) <= t < DaysBeforeYear(y1 + 1)
    requires DaysBeforeYear(y2) <= t < DaysBeforeYear(y2 + 1)
    ensures y1 == y2
  {
    YearStartsMonotone(y1 + 1, y2);
    YearStartsMonotone(y2 + 1, y1);
  }

  /** Later years start later. */
  lemma {:induction false} YearStartsMonotone(y1: int, y2: int)
    ensures y1 <= y2 ==> DaysBeforeYear(y1) <= DaysBeforeYear(y2)
    decreases if y1 <= y2 then y2 - y1 else 0
  {
    if y1 < y2 {
      YearStartsMonotone(y1, y2 - 1);
      YearStartsAdvanceByYearLength(y2 - 1);
    }
  }
}
