/** The week-by-weekday calendar (uidai-dashboard/src/components/charts/CalendarHeatmap.jsx):
    the loop that files each dated row under its ISO week and weekday, the ascending list
    of weeks, the 7 x weeks grid with 0 for empty slots, its largest value, the ridge
    offsets and the x-axis tick step. The value accessor is a parameter (it defaults to
    the row total). */
module CalendarHeatmap {
  import opened Common
  import opened Aggregates
  import opened CalendarWeeks

  /** A row whose date the browser can read; the others are skipped. */
  predicate HasDay(r: Row) {
    r.date.Some? && ValidDate(r.date.value)
  }

  /** A slot of the calendar: (ISO week, weekday index with Monday 0). It stands for the
      key `${week}__${day}`, which names the same week and day exactly when the pair is
      the same. The year takes no part. */
  type Slot = (int, int)

  function SlotOf(d: Date): (s: Slot)
    requires ValidDate(d)
    ensures 1 <= s.0 <= 53 && 0 <= s.1 < 7
  {
    IsoWeekRange(d);
    (IsoWeek(d), IsoWeekday(d) - 1)
  }

  /** A row's contribution to `byWeekDay`: its value under its slot when it is dated. */
  function SlotEntryOf(value: Row -> real): Row -> seq<Bucket<Slot>> {
    (r: Row) => if HasDay(r) then [Bucket(SlotOf(r.date.value), value(r))] else []
  }

  /** Sum of the values of the dated rows of one week and weekday, in any year (a
      reference definition). */
  function SlotTotal(data: seq<Row>, value: Row -> real, week: int, day: int): real {
    if |data| == 0 then 0.0
    else
      var last := data[|data| - 1];
      SlotTotal(data[..|data| - 1], value, week, day)
        + (if HasDay(last) && SlotOf(last.date.value) == (week, day) then value(last) else 0.0)
  }

  /** `weekSet` after the loop: the weeks of the dated rows. */
  function WeeksOf(data: seq<Row>): (ws: set<int>)
    ensures forall w :: w in ws ==> 1 <= w <= 53
  {
    set r | r in data && HasDay(r) :: SlotOf(r.date.value).0
  }

  /** The weeks from lo to hi - 1 that are in s, in ascending order: for a set of week
      numbers, `[...weekSet].sort((a, b) => a - b)` is `InOrder(weekSet, 1, 54)`. */
  function InOrder(s: set<int>, lo: int, hi: int): (r: seq<int>)
    ensures forall x :: x in r <==> x in s && lo <= x < hi
    ensures forall i, j :: 0 <= i < j < |r| ==> r[i] < r[j]
    decreases hi - lo
  {
    if lo >= hi then []
    else
      var rest := InOrder(s, lo + 1, hi);
      assert forall j :: 0 <= j < |rest| ==> lo < rest[j] by {
        forall j | 0 <= j < |rest| ensures lo < rest[j] {
          assert rest[j] in rest;
        }
      }
      (if lo in s then [lo] else []) + rest
  }

  function SortedWeeks(s: set<int>): (r: seq<int>)
    requires forall w :: w in s ==> 1 <= w <= 53
    ensures forall x :: x in r <==> x in s
    ensures forall i, j :: 0 <= i < j < |r| ==> r[i] < r[j]
  {
    InOrder(s, 1, 54)
  }

  /** The row loop: skip a row without a readable date, otherwise add its week to
      `weekSet` and its value to the slot of its week and weekday. Then the sorted
      weeks. */
  method WeekDayBuckets(data: seq<Row>, value: Row -> real) returns (weeks: seq<int>, slots: seq<Bucket<Slot>>)
    ensures weeks == SortedWeeks(WeeksOf(data))
    ensures slots == GroupSum(Entries(data, SlotEntryOf(value)))
  {
    var weekSet: set<int> := {};
    slots := [];
    for k := 0 to |data|
      invariant weekSet == WeeksOf(data[..k])
      invariant slots == GroupSum(Entries(data[..k], SlotEntryOf(value)))
    {
      weekSet, slots := AddRow(weekSet, slots, data, k, value);
    }
    assert data[..|data|] == data;
    weeks := SortedWeeks(weekSet);
  }

  /** One pass of the loop body. */
  method AddRow(weekSet: set<int>, slots: seq<Bucket<Slot>>, data: seq<Row>, k: nat, value: Row -> real)
    returns (weekSet': set<int>, slots': seq<Bucket<Slot>>)
    requires k < |data|
    requires weekSet == WeeksOf(data[..k])
    requires slots == GroupSum(Entries(data[..k], SlotEntryOf(value)))
    ensures weekSet' == WeeksOf(data[..k + 1])
    ensures slots' == GroupSum(Entries(data[..k + 1], SlotEntryOf(value)))
  {
    var row := data[k];
    RowStep(data, k, value);
    if row.date.Some? && ValidDate(row.date.value) {
      var week := GetIsoWeek(row.date.value);
      var day := IsoWeekday(row.date.value) - 1;
      DatedEntry(value, row, week, day);
      weekSet' := weekSet + {week};
      slots' := BumpEntry(slots, Entries(data[..k], SlotEntryOf(value)), [Bucket((week, day), value(row))]);
    } else {
      weekSet' := weekSet;
      slots' := slots;
    }
  }

  /** Taking one more row adds its entry and, when it is dated, its week. */
  lemma RowStep(data: seq<Row>, k: nat, value: Row -> real)
    requires k < |data|
    ensures Entries(data[..k + 1], SlotEntryOf(value)) == Entries(data[..k], SlotEntryOf(value)) + SlotEntryOf(value)(data[k])
    ensures !HasDay(data[k]) ==> Entries(data[..k + 1], SlotEntryOf(value)) == Entries(data[..k], SlotEntryOf(value))
    ensures WeeksOf(data[..k + 1]) == WeeksOf(data[..k]) + (if HasDay(data[k]) then {IsoWeek(data[k].date.value)} else {})
  {
    EntriesStep(data, SlotEntryOf(value), k);
    SlotEntryAt(value, data[k]);
    if !HasDay(data[k]) {
      assert Entries(data[..k], SlotEntryOf(value)) + [] == Entries(data[..k], SlotEntryOf(value));
    }
    WeeksStep(data, k);
  }

  lemma WeeksStep(data: seq<Row>, k: nat)
    requires k < |data|
    ensures WeeksOf(data[..k + 1]) == WeeksOf(data[..k]) + (if HasDay(data[k]) then {IsoWeek(data[k].date.value)} else {})
  {
    assert data[..k + 1] == data[..k] + [data[k]];
    WeeksAppend(data[..k], data[k]);
  }

  lemma DatedEntry(value: Row -> real, r: Row, week: int, day: int)
    requires HasDay(r) && week == IsoWeek(r.date.value) && day == IsoWeekday(r.date.value) - 1
    ensures SlotEntryOf(value)(r) == [Bucket((week, day), value(r))]
  {
    assert SlotOf(r.date.value) == (week, day);
  }

  lemma SlotEntryAt(value: Row -> real, r: Row)
    ensures HasDay(r) ==> SlotEntryOf(value)(r) == [Bucket(SlotOf(r.date.value), value(r))]
    ensures !HasDay(r) ==> SlotEntryOf(value)(r) == []
  {
  }

  lemma WeeksAppend(s: seq<Row>, r: Row)
    ensures WeeksOf(s + [r]) == WeeksOf(s) + (if HasDay(r) then {IsoWeek(r.date.value)} else {})
  {
    assert forall x :: x in s + [r] <==> x in s || x == r;
  }

  /** The grid `z`: one row per weekday from Monday, one column per week, 0 for a slot
      with no entry (`byWeekDay.get(key) || 0`). */
  function Grid(weeks: seq<int>, slots: seq<Bucket<Slot>>): (z: seq<seq<real>>)
    ensures |z| == 7
    ensures forall d :: 0 <= d < 7 ==> |z[d]| == |weeks|
  {
    seq(7, d => seq(|weeks|, i requires 0 <= i < |weeks| => Lookup(slots, (weeks[i], d))))
  }

  /** What the component draws: None ("No data available") for empty data and for data
      without a readable date; otherwise the weeks and the grid. */
  datatype Calendar = Calendar(weeks: seq<int>, z: seq<seq<real>>)

  function CalendarOf(data: seq<Row>, value: Row -> real): (r: Option<Calendar>)
    ensures r.None? <==> WeeksOf(data) == {}
  {
    if |data| == 0 then None
    else
      var weeks := SortedWeeks(WeeksOf(data));
      if |weeks| == 0 then
        assert forall w :: w !in WeeksOf(data);
        None
      else
        assert weeks[0] in weeks;
        Some(Calendar(weeks, Grid(weeks, GroupSum(Entries(data, SlotEntryOf(value))))))
  }

  /** The component body up to the grid. */
  method CalendarData(data: seq<Row>, value: Row -> real) returns (r: Option<Calendar>)
    ensures r == CalendarOf(data, value)
  {
    if |data| == 0 {
      return None;
    }
    var weeks, slots := WeekDayBuckets(data, value);
    if |weeks| == 0 {
      return None;
    }
    r := Some(Calendar(weeks, Grid(weeks, slots)));
  }

  lemma {:induction false} EntriesBySlot(data: seq<Row>, value: Row -> real, week: int, day: int)
    ensures SumFor(Entries(data, SlotEntryOf(value)), (week, day)) == SlotTotal(data, value, week, day)
  {
    if |data| > 0 {
      var n := |data| - 1;
      EntriesBySlot(data[..n], value, week, day);
      SumForAppend(Entries(data[..n], SlotEntryOf(value)), SlotEntryOf(value)(data[n]), (week, day));
      if HasDay(data[n]) {
        assert SlotEntryOf(value)(data[n])[..0] == [];
      }
    }
  }

  /** The weeks are distinct and ascending, each between 1 and 53, and they are exactly
      the weeks of the dated rows; so there are at most 53 of them. */
  lemma WeeksAscending(data: seq<Row>)
    ensures forall i, j :: 0 <= i < j < |SortedWeeks(WeeksOf(data))| ==> SortedWeeks(WeeksOf(data))[i] < SortedWeeks(WeeksOf(data))[j]
    ensures forall w :: w in SortedWeeks(WeeksOf(data)) <==> exists r :: r in data && HasDay(r) && IsoWeek(r.date.value) == w
    ensures forall w :: w in SortedWeeks(WeeksOf(data)) ==> 1 <= w <= 53
    ensures |SortedWeeks(WeeksOf(data))| <= 53
  {
    var weeks := SortedWeeks(WeeksOf(data));
    AscendingWithin(weeks);
  }

  lemma AscendingWithin(s: seq<int>)
    requires forall i, j :: 0 <= i < j < |s| ==> s[i] < s[j]
    requires forall w :: w in s ==> 1 <= w <= 53
    ensures |s| <= 53
  {
    if |s| > 0 {
      AscendingFrom(s);
      assert s[0] in s && s[|s| - 1] in s;
    }
  }

  lemma {:induction false} AscendingFrom(s: seq<int>)
    requires |s| > 0 && forall i, j :: 0 <= i < j < |s| ==> s[i] < s[j]
    ensures s[|s| - 1] >= s[0] + |s| - 1
  {
    if |s| > 1 {
      AscendingFrom(s[..|s| - 1]);
    }
  }

  /** Each cell of the grid holds the sum of the values of the dated rows of its week and
      weekday, taken over every year; a slot without rows holds 0. */
  lemma GridHoldsSlotTotals(data: seq<Row>, value: Row -> real)
    requires WeeksOf(data) != {}
    ensures forall d, i :: 0 <= d < 7 && 0 <= i < |CalendarOf(data, value).value.weeks| ==>
      CalendarOf(data, value).value.z[d][i] == SlotTotal(data, value, CalendarOf(data, value).value.weeks[i], d)
  {
    var weeks := SortedWeeks(WeeksOf(data));
    var slots := GroupSum(Entries(data, SlotEntryOf(value)));
    assert CalendarOf(data, value).value == Calendar(weeks, Grid(weeks, slots));
    forall d, i | 0 <= d < 7 && 0 <= i < |weeks| ensures Grid(weeks, slots)[d][i] == SlotTotal(data, value, weeks[i], d) {
      GridCell(data, value, weeks, slots, d, i);
    }
  }

  lemma GridCell(data: seq<Row>, value: Row -> real, weeks: seq<int>, slots: seq<Bucket<Slot>>, d: int, i: int)
    requires slots == GroupSum(Entries(data, SlotEntryOf(value)))
    requires 0 <= d < 7 && 0 <= i < |weeks|
    ensures Grid(weeks, slots)[d][i] == SlotTotal(data, value, weeks[i], d)
  {
    assert Grid(weeks, slots)[d][i] == Lookup(slots, (weeks[i], d));
    EntriesBySlot(data, value, weeks[i], d);
  }

  /** `Math.max` over the grid, from 0. */
  function RowMax(row: seq<real>): (m: real)
    ensures m >= 0.0 && forall i :: 0 <= i < |row| ==> row[i] <= m
    ensures m == 0.0 || exists i :: 0 <= i < |row| && row[i] == m
  {
    if |row| == 0 then 0.0
    else
      var m := RowMax(row[..|row| - 1]);
      assert forall i :: 0 <= i < |row| - 1 ==> row[..|row| - 1][i] == row[i];
      MaxReal(m, row[|row| - 1])
  }

  function GridMax(z: seq<seq<real>>): (m: real)
    ensures m >= 0.0 && forall d, i :: 0 <= d < |z| && 0 <= i < |z[d]| ==> z[d][i] <= m
    ensures m == 0.0 || exists d, i :: 0 <= d < |z| && 0 <= i < |z[d]| && z[d][i] == m
  {
    if |z| == 0 then 0.0
    else
      var m := GridMax(z[..|z| - 1]);
      var last := RowMax(z[|z| - 1]);
      assert forall d :: 0 <= d < |z| - 1 ==> z[..|z| - 1][d] == z[d];
      MaxReal(m, last)
  }

  /** `maxZ` and the ridge plot's `globalMax`: the largest cell, or 1 when every cell is
      0 or below. */
  function Scale(z: seq<seq<real>>): (m: real)
    ensures m > 0.0
    ensures forall d, i :: 0 <= d < |z| && 0 <= i < |z[d]| ==> z[d][i] <= m
  {
    var m := GridMax(z);
    if m == 0.0 then 1.0 else m
  }

  /** The ridge plot's spacing: ridge height 1, one ridge every 1.15. */
  const RidgeGap: real := 1.15

  /** The height of a value on its day's ridge: the day's offset plus the value scaled by
      1 / globalMax. */
  function RidgeY(v: real, dayIndex: nat, globalMax: real): real
    requires globalMax > 0.0
  {
    dayIndex as real * RidgeGap + v * (1.0 / globalMax)
  }

  /** With values between 0 and the scale, each day's ridge stays between its offset and
      its offset plus 1, under the next day's offset: ridges do not overlap. */
  lemma RidgesStayInBand(v: real, dayIndex: nat, globalMax: real)
    requires globalMax > 0.0 && 0.0 <= v <= globalMax
    ensures dayIndex as real * RidgeGap <= RidgeY(v, dayIndex, globalMax) <= dayIndex as real * RidgeGap + 1.0
    ensures RidgeY(v, dayIndex, globalMax) < (dayIndex + 1) as real * RidgeGap
  {
    assert v * (1.0 / globalMax) == v / globalMax;
    assert v / globalMax <= 1.0;
  }

  /** The tick step of the week axis. */
  function Dtick(weeks: nat): (step: nat)
    ensures step == 1 || step == 2 || step == 4
    ensures weeks <= 53 ==> (weeks + step - 1) / step <= 24
  {
    if weeks > 40 then 4 else if weeks > 24 then 2 else 1
  }
}
