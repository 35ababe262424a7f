/** Vocabulary shared by every part of the enrollment dashboard: optional values,
    calendar days, the three age brackets and the enrollment record itself. */
module Common {

  datatype Option<T> = None | Some(value: T)

  /** A calendar day of the proleptic Gregorian calendar (no time of day). */
  datatype Date = Date(year: int, month: int, day: int)

  predicate IsLeapYear(y: int) {
    (y % 4 == 0 && y % 100 != 0) || y % 400 == 0
  }

  function YearLength(y: int): int {
    if IsLeapYear(y) then 366 else 365
  }

  function DaysInMonth(y: int, m: int): int
    requires 1 <= m <= 12
  {
    if m == 2 then (if IsLeapYear(y) then 29 else 28)
    else if m == 4 || m == 6 || m == 9 || m == 11 then 30
    else 31
  }

  predicate ValidDate(d: Date) {
    1 <= d.month <= 12 && 1 <= d.day <= DaysInMonth(d.year, d.month)
  }

  /** Number of days in the months of year y that precede month m. */
  function DaysBeforeMonth(y: int, m: int): (r: int)
    requires 1 <= m <= 13
    ensures 0 <= r
    ensures m == 13 ==> r == YearLength(y)
    decreases m
  {
    if m == 1 then 0 else DaysBeforeMonth(y, m - 1) + DaysInMonth(y, m - 1)
  }

  /** Zero-based position of the day inside its year. */
  function DayOfYear(d: Date): (r: int)
    requires ValidDate(d)
  {
    DaysBeforeMonth(d.year, d.month) + d.day - 1
  }

  lemma DayOfYearRange(d: Date)
    requires ValidDate(d)
    ensures 0 <= DayOfYear(d) < YearLength(d.year)
  {
    MonthsPrefixBound(d.year, d.month);
  }

  lemma {:induction false} MonthsPrefixBound(y: int, m: int)
    requires 1 <= m <= 12
    ensures DaysBeforeMonth(y, m) + DaysInMonth(y, m) <= YearLength(y)
    decreases 12 - m
  {
    if m < 12 {
      MonthsPrefixBound(y, m + 1);
    } else {
      assert DaysBeforeMonth(y, 13) == DaysBeforeMonth(y, 12) + DaysInMonth(y, 12);
    }
  }

  /** Days from 0001-01-01 (a Monday) to January 1st of year y; negative before year 1. */
  function DaysBeforeYear(y: int): int {
    365 * (y - 1) + (y - 1) / 4 - (y - 1) / 100 + (y - 1) / 400
  }

  lemma YearStartsAdvanceByYearLength(y: int)
    ensures DaysBeforeYear(y + 1) - DaysBeforeYear(y) == YearLength(y)
  {
    var a := y - 1;
    assert y / 4 - a / 4 == (if y % 4 == 0 then 1 else 0);
    assert y / 100 - a / 100 == (if y % 100 == 0 then 1 else 0);
    assert y / 400 - a / 400 == (if y % 400 == 0 then 1 else 0);
  }

  /** Day number of a date: a strictly increasing count of days, 0 for 0001-01-01. */
  function DayNumber(d: Date): int
    requires ValidDate(d)
  {
    DaysBeforeYear(d.year) + DayOfYear(d)
  }

  /** ISO weekday, 1 = Monday .. 7 = Sunday (0001-01-01 is a Monday). */
  function IsoWeekday(d: Date): (r: int)
    requires ValidDate(d)
    ensures 1 <= r <= 7
  {
    DayNumber(d) % 7 + 1
  }

  /** The three enrollment age brackets, as named by the columns age_0_5, age_5_17 and
      age_18_greater. */
  datatype AgeGroup = Age0To5 | Age5To17 | Age18Plus

  const AllAgeGroups: seq<AgeGroup> := [Age0To5, Age5To17, Age18Plus]

  function AgeKey(g: AgeGroup): string {
    match g
    case Age0To5 => "age_0_5"
    case Age5To17 => "age_5_17"
    case Age18Plus => "age_18_greater"
  }

  /** One enrollment record as the dashboard holds it. `date` is None for a date the
      browser could not parse; `month` is the "Mon YYYY" label, "" when absent. */
  datatype Row = Row(
    date: Option<Date>,
    state: string,
    district: string,
    age0To5: real,
    age5To17: real,
    age18Plus: real,
    total: real,
    month: string)

  function AgeValue(r: Row, g: AgeGroup): real {
    match g
    case Age0To5 => r.age0To5
    case Age5To17 => r.age5To17
    case Age18Plus => r.age18Plus
  }

  /** Sum of the selected age columns of a row, in selection order. */
  function SumAges(r: Row, groups: seq<AgeGroup>): real {
    if |groups| == 0 then 0.0 else SumAges(r, groups[..|groups| - 1]) + AgeValue(r, groups[|groups| - 1])
  }

  /** Calendar order of days. */
  predicate DateLt(a: Date, b: Date) {
    a.year < b.year || (a.year == b.year && (a.month < b.month || (a.month == b.month && a.day < b.day)))
  }

  predicate DateLe(a: Date, b: Date) {
    !DateLt(b, a)
  }

  /** JavaScript Math.round: the nearest integer, halves rounded up. */
  function Round(x: real): int {
    (x + 0.5).Floor
  }

  /** The rounding of `toFixed`: the nearest integer, halves rounded away from zero
      (section 21.1.3.3 of ECMA-262 rounds the magnitude, taking the larger of two equally
      near candidates). */
  function RoundHalfAway(x: real): (r: int)
    ensures Abs(r as real - x) <= 0.5
    ensures Abs(r as real - x) == 0.5 ==> Abs(r as real) > Abs(x)
  {
    if x >= 0.0 then Round(x) else -Round(-x)
  }

  /** Rounding halves away from zero is symmetric about zero. */
  lemma RoundHalfAwayOdd(x: real)
    ensures RoundHalfAway(-x) == -RoundHalfAway(x)
  {
    if x == 0.0 {
      assert -x == 0.0;
    }
  }

  function MaxReal(a: real, b: real): real {
    if a >= b then a else b
  }

  /** Math.abs. */
  function Abs(x: real): real {
    if x < 0.0 then -x else x
  }

  function MinInt(a: int, b: int): int {
    if a <= b then a else b
  }

  /** A list without repeats holds each value at most once. */
  lemma {:induction false} AtMostOnce<T>(s: seq<T>, x: T)
    requires forall i, j :: 0 <= i < j < |s| ==> s[i] != s[j]
    ensures multiset(s)[x] <= 1
  {
    if |s| > 0 {
      assert s == [s[0]] + s[1..];
      AtMostOnce(s[1..], x);
      if s[0] == x {
        assert x !in s[1..];
      }
    }
  }

  /** Items drawn from a list whose keys are distinct have distinct keys. */
  lemma DrawnDistinct<T, K>(r: seq<T>, s: seq<T>, key: T -> K)
    requires forall i, j :: 0 <= i < j < |s| ==> key(s[i]) != key(s[j])
    requires multiset(r) <= multiset(s)
    ensures forall i, j :: 0 <= i < j < |r| ==> key(r[i]) != key(r[j])
  {
    forall i, j | 0 <= i < j < |r| ensures key(r[i]) != key(r[j]) {
      if key(r[i]) == key(r[j]) {
        assert r[i] in multiset(s) && r[j] in multiset(s);
        var p :| 0 <= p < |s| && s[p] == r[i];
        var q :| 0 <= q < |s| && s[q] == r[j];
        assert p == q;
        DrawnTwice(r, i, j);
        AtMostOnce(s, r[j]);
        assert false;
      }
    }
  }

  lemma DrawnTwice<T>(r: seq<T>, i: int, j: int)
    requires 0 <= i < j < |r| && r[i] == r[j]
    ensures multiset(r)[r[j]] >= 2
  {
    assert r == r[..j] + [r[j]] + r[j + 1..];
    assert r[i] in r[..j];
  }
}
