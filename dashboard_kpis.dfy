/** The headline figures of the dashboard page (uidai-dashboard/src/pages/Dashboard.jsx,
    "Calculate KPIs"): the enrollment total (the server's figure when nothing narrows
    the view), the state and district counts, the daily average and the growth rate
    between the two halves of the date range. */
module DashboardKpis {
  import opened Common
  import opened Text
  import opened Aggregates
  import opened DashboardFilters
  import FiltersPanel

  /** Sum over the rows of all three age columns. */
  function AllAgeEnrollments(rows: seq<Row>): real {
    if |rows| == 0 then 0.0
    else
      var last := rows[|rows| - 1];
      AllAgeEnrollments(rows[..|rows| - 1]) + last.age0To5 + last.age5To17 + last.age18Plus
  }

  /** Sum of the rows' `total_enrolments`. */
  function SumTotals(rows: seq<Row>): real {
    if |rows| == 0 then 0.0 else SumTotals(rows[..|rows| - 1]) + rows[|rows| - 1].total
  }

  /** When every row's total is the sum of its three ages (as `applyFilters` makes it with
      all groups selected), the all-ages figure is the sum of the totals. */
  lemma {:induction false} AllAgesAreTotals(rows: seq<Row>)
    requires forall i :: 0 <= i < |rows| ==> rows[i].total == rows[i].age0To5 + rows[i].age5To17 + rows[i].age18Plus
    ensures AllAgeEnrollments(rows) == SumTotals(rows)
  {
    if |rows| > 0 {
      var k := |rows| - 1;
      assert forall i :: 0 <= i < k ==> rows[..k][i] == rows[i];
      AllAgesAreTotals(rows[..k]);
    }
  }

  /** The age selection covers all three groups: a missing selection does; otherwise
      its set of keys must be exactly the three. */
  predicate IsAllAgeGroups(sel: Option<seq<string>>) {
    sel.None? ||
      var s := set x | x in sel.value;
      AgeKey(Age0To5) in s && AgeKey(Age5To17) in s && AgeKey(Age18Plus) in s && |s| == 3
  }

  /** A given selection covers all groups exactly when its keys are the three age keys,
      repeats and order aside. */
  lemma AllAgeGroupsMeans(sel: seq<string>)
    ensures IsAllAgeGroups(Some(sel)) <==> forall x :: x in sel <==> x in AllAgeKeys
  {
    AgeKeysDistinct();
    var s := set x | x in sel;
    var t := {AgeKey(Age0To5), AgeKey(Age5To17), AgeKey(Age18Plus)};
    assert |t| == 3;
    assert forall x :: x in t <==> x in AllAgeKeys;
    if IsAllAgeGroups(Some(sel)) {
      assert t <= s;
      assert |s - t| == |s| - |t|;
      assert s - t == {};
      assert s == t;
    }
    if forall x :: x in sel <==> x in AllAgeKeys {
      assert s == t;
    }
  }

  /** The server's total is used only when the summary is there, the picked range is
      the data's full range, every state and district is in view, there is no search
      and all age groups are selected. */
  predicate Unnarrowed(f: FilterState, fullRange: bool) {
    fullRange && f.viewAllStates && f.viewAllDistricts && |Trim(f.searchQuery)| == 0
      && IsAllAgeGroups(Some(f.ageGroups))
  }

  /** `isFullRange`: both picked ends and both server ends are set, and the picked ends
      (as ISO days) are the server's. */
  predicate IsFullRange(f: FilterState, apiStart: Option<string>, apiEnd: Option<string>, isoDay: Date -> string) {
    f.start.Some? && f.end.Some? && apiStart.Some? && apiEnd.Some?
      && |apiStart.value| > 0 && |apiEnd.value| > 0
      && isoDay(f.start.value) == apiStart.value && isoDay(f.end.value) == apiEnd.value
  }

  /** `totalEnrollments`: `apiTotal` is None without a server summary and 0 for a
      missing or non-numeric figure; a zero server figure falls back to the local sum. */
  function TotalEnrollments(apiTotal: Option<real>, f: FilterState, fullRange: bool, local: real): (r: real)
    ensures apiTotal.None? || !Unnarrowed(f, fullRange) ==> r == local
    ensures r != local ==> apiTotal.Some? && Unnarrowed(f, fullRange) && r == apiTotal.value
    ensures apiTotal.Some? && Unnarrowed(f, fullRange) && apiTotal.value != 0.0 ==> r == apiTotal.value
    ensures apiTotal.Some? && apiTotal.value == 0.0 ==> r == local
  {
    if apiTotal.Some? && Unnarrowed(f, fullRange) && apiTotal.value != 0.0 then apiTotal.value else local
  }

  /** The names counted locally: trimmed, non-blank and not "unknown" in any case. */
  function CountedNames(names: seq<string>): (r: seq<string>)
    ensures forall s :: s in r <==> FiltersPanel.Named(s) && exists x :: x in names && Trim(x) == s
    ensures forall i, j :: 0 <= i < j < |r| ==> r[i] != r[j]
    ensures |r| <= |names|
  {
    var trimmed := seq(|names|, i requires 0 <= i < |names| => Trim(names[i]));
    assert forall i :: 0 <= i < |names| ==> trimmed[i] == Trim(names[i]);
    var kept := Filter(trimmed, FiltersPanel.Named);
    Distinct(kept)
  }

  /** `localStatesCount`: the number of distinct counted state names. */
  function LocalStatesCount(rows: seq<Row>): (r: nat)
    ensures r <= |rows|
  {
    |CountedNames(seq(|rows|, i requires 0 <= i < |rows| => rows[i].state))|
  }

  /** `localDistrictsCount`: the number of distinct counted district names. */
  function LocalDistrictsCount(rows: seq<Row>): (r: nat)
    ensures r <= |rows|
  {
    |CountedNames(seq(|rows|, i requires 0 <= i < |rows| => rows[i].district))|
  }

  /** A count the server reports when it is a finite number, else the local one. */
  function StatesCount(server: Option<real>, local: nat): (r: real)
    ensures server.Some? ==> r == server.value
    ensures server.None? ==> r == local as real
  {
    if server.Some? then server.value else local as real
  }

  /** The district count prefers the server's active districts, then its district
      count, then the local count. */
  function DistrictsCount(active: Option<real>, districts: Option<real>, local: nat): (r: real)
    ensures active.Some? ==> r == active.value
    ensures active.None? && districts.Some? ==> r == districts.value
    ensures active.None? && districts.None? ==> r == local as real
  {
    if active.Some? then active.value else if districts.Some? then districts.value else local as real
  }

  /** `avgDaily`: the total over the number of distinct days, rounded; 0 without rows. */
  function AvgDaily(total: real, rows: seq<Row>): (r: int)
    ensures |rows| == 0 ==> r == 0
    ensures total >= 0.0 ==> r >= 0
  {
    if |rows| == 0 then 0
    else
      var dates := seq(|rows|, i requires 0 <= i < |rows| => rows[i].date);
      var days := Distinct(dates);
      assert dates[0] in days;
      Round(total / |days| as real)
  }

  /** A day as a moment (days since 0001-01-01); None for an invalid date, whose time is
      NaN and fails every comparison. */
  function Moment(d: Option<Date>): Option<real> {
    if d.Some? && ValidDate(d.value) then Some(DayNumber(d.value) as real) else None
  }

  /** `midDate`: halfway between the picked ends when both are set, else `now`. */
  function MidDate(f: FilterState, now: real): Option<real> {
    if f.start.Some? && f.end.Some? then
      var a := Moment(f.start);
      var b := Moment(f.end);
      if a.Some? && b.Some? then Some((a.value + b.value) / 2.0) else None
    else Some(now)
  }

  /** The row falls in the first half (`d.date < midDate`) or the second
      (`d.date >= midDate`); a NaN on either side puts it in neither. */
  predicate InHalf(r: Row, mid: Option<real>, first: bool) {
    var m := Moment(r.date);
    m.Some? && mid.Some? && (if first then m.value < mid.value else m.value >= mid.value)
  }

  function HalfTotal(rows: seq<Row>, mid: Option<real>, first: bool): real {
    if |rows| == 0 then 0.0
    else HalfTotal(rows[..|rows| - 1], mid, first) + (if InHalf(rows[|rows| - 1], mid, first) then rows[|rows| - 1].total else 0.0)
  }

  /** Sum of the totals of the rows with a valid date. */
  function DatedTotal(rows: seq<Row>): real {
    if |rows| == 0 then 0.0
    else DatedTotal(rows[..|rows| - 1]) + (if Moment(rows[|rows| - 1].date).Some? then rows[|rows| - 1].total else 0.0)
  }

  /** With a defined midpoint the two halves split the dated rows' totals between them;
      with an undefined one both halves are empty. */
  lemma {:induction false} HalvesPartition(rows: seq<Row>, mid: Option<real>)
    ensures mid.Some? ==> HalfTotal(rows, mid, true) + HalfTotal(rows, mid, false) == DatedTotal(rows)
    ensures mid.None? ==> HalfTotal(rows, mid, true) == 0.0 && HalfTotal(rows, mid, false) == 0.0
  {
    if |rows| > 0 {
      HalvesPartition(rows[..|rows| - 1], mid);
    }
  }

  /** `growthRate`: the change from the first half to the second in percent, as
      `toFixed(1)` writes it and `Number` reads it back; 0 when the first half is not
      positive. */
  function GrowthRate(firstHalf: real, secondHalf: real): (r: real)
    ensures firstHalf <= 0.0 ==> r == 0.0
    ensures firstHalf > 0.0 ==> Abs(r - Percent(firstHalf, secondHalf)) <= 0.05
    ensures firstHalf > 0.0 && Abs(r - Percent(firstHalf, secondHalf)) == 0.05 ==>
      Abs(r) > Abs(Percent(firstHalf, secondHalf))
    ensures (r * 10.0).Floor as real == r * 10.0
    ensures firstHalf > 0.0 && secondHalf >= firstHalf ==> r >= 0.0
    ensures firstHalf > 0.0 && r > 0.0 ==> secondHalf > firstHalf
  {
    if firstHalf > 0.0 then
      var pct := Percent(firstHalf, secondHalf);
      var n := RoundHalfAway(pct * 10.0);
      assert Abs(n as real / 10.0 - pct) == Abs(n as real - pct * 10.0) / 10.0;
      assert Abs(n as real / 10.0) == Abs(n as real) / 10.0;
      n as real / 10.0
    else 0.0
  }

  /** The change from the first half to the second, in percent. */
  function Percent(firstHalf: real, secondHalf: real): (pct: real)
    requires firstHalf > 0.0
    ensures secondHalf >= firstHalf <==> pct >= 0.0
    ensures secondHalf > firstHalf <==> pct > 0.0
  {
    (secondHalf - firstHalf) / firstHalf * 100.0
  }

  /** A drop from 16 to 15 is -6.25%, which `toFixed(1)` rounds away from zero. */
  lemma GrowthRateTie()
    ensures GrowthRate(16.0, 15.0) == -6.3
  {
    assert Percent(16.0, 15.0) == -6.25;
    assert RoundHalfAway(-62.5) == -63;
  }

  /** Rounding is symmetric: a fall mirrors the rise of the same size. */
  lemma GrowthRateMirror(firstHalf: real, secondHalf: real)
    requires firstHalf > 0.0
    ensures GrowthRate(firstHalf, 2.0 * firstHalf - secondHalf) == -GrowthRate(firstHalf, secondHalf)
  {
    var pct := Percent(firstHalf, secondHalf);
    assert Percent(firstHalf, 2.0 * firstHalf - secondHalf) * 10.0 == -(pct * 10.0);
    RoundHalfAwayOdd(pct * 10.0);
  }
}
