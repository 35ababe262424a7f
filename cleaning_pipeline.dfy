/** `clean_dataframe` and `clean_dataframe_with_report` of backend/cleaning.py: the
    raw enrollment rows are filtered, normalised, optionally merged, grouped by
    (date, state, district) and given their totals and calendar labels. The date
    parser and the district similarity are parameters. */
module CleaningPipeline {
  import opened Common
  import opened Text
  import opened Aggregates
  import opened CleaningNames
  import opened CleaningMerge

  /** A raw input row after column standardisation. A missing value (NaN) is None; an
      age that does not parse as a number is None as well. */
  datatype RawRow = RawRow(
    date: Option<string>,
    state: Option<string>,
    district: Option<string>,
    age0To5: Option<real>,
    age5To17: Option<real>,
    age18Plus: Option<real>)

  /** `pd.to_datetime(..., format="%d-%m-%Y")` with its day-first fallback. */
  type DateParser = string -> Option<Date>

  /** One output row of the cleaner. */
  datatype CleanRow = CleanRow(
    date: Date,
    state: string,
    district: string,
    age0To5: real,
    age5To17: real,
    age18Plus: real,
    total: real,
    year: int,
    month: string,
    dayOfWeek: string)

  /** `to_numeric(errors="coerce").fillna(0)` followed by `clip(lower=0)`. */
  function CleanAge(v: Option<real>): (r: real)
    ensures r >= 0.0
    ensures v.Some? && v.value >= 0.0 ==> r == v.value
  {
    match v
    case None => 0.0
    case Some(x) => if x < 0.0 then 0.0 else x
  }

  predicate HasIds(r: RawRow) {
    r.date.Some? && r.state.Some? && r.district.Some?
  }

  predicate Parses(parse: DateParser, r: RawRow) {
    r.date.Some? && parse(r.date.value).Some?
  }

  /** The record a parsed row becomes: normalised names, clean ages. */
  function Prepare(parse: DateParser, r: RawRow): (x: Rec)
    requires Parses(parse, r)
    ensures x.age0To5 >= 0.0 && x.age5To17 >= 0.0 && x.age18Plus >= 0.0
  {
    Rec(parse(r.date.value).value, NormalizeState(r.state), NormalizeDistrict(r.district),
      CleanAge(r.age0To5), CleanAge(r.age5To17), CleanAge(r.age18Plus))
  }

  function PrepareAll(parse: DateParser, rows: seq<RawRow>): (r: seq<Rec>)
    requires forall i :: 0 <= i < |rows| ==> Parses(parse, rows[i])
    ensures |r| == |rows|
    ensures forall i :: 0 <= i < |r| ==> r[i] == Prepare(parse, rows[i])
  {
    seq(|rows|, i requires 0 <= i < |rows| => Prepare(parse, rows[i]))
  }

  predicate KnownIds(x: Rec) {
    x.state != "Unknown" && x.district != "Unknown"
  }

  /** The sort key (date, state, district) in pandas' lexicographic order. */
  predicate KeyLt(a: Rec, b: Rec) {
    DateLt(a.date, b.date)
    || (a.date == b.date && (StrLt(a.state, b.state) || (a.state == b.state && StrLt(a.district, b.district))))
  }

  predicate SameKey(a: Rec, b: Rec) {
    a.date == b.date && a.state == b.state && a.district == b.district
  }

  lemma KeyLtTransitive(a: Rec, b: Rec, c: Rec)
    requires KeyLt(a, b) && KeyLt(b, c)
    ensures KeyLt(a, c)
  {
    if a.date == b.date && b.date == c.date {
      StrLtIrreflexive(a.state);
      StrLtIrreflexive(b.state);
      if a.state == b.state && b.state == c.state {
        StrLtTransitive(a.district, b.district, c.district);
      } else if a.state != b.state && b.state != c.state {
        StrLtTransitive(a.state, b.state, c.state);
      }
    }
  }

  lemma KeyLtTotal(a: Rec, b: Rec)
    requires !SameKey(a, b)
    ensures KeyLt(a, b) || KeyLt(b, a)
  {
    if a.date == b.date {
      if a.state == b.state {
        StrLtTotal(a.district, b.district);
      } else {
        StrLtTotal(a.state, b.state);
      }
    }
  }

  lemma KeyLtIrreflexive(a: Rec, b: Rec)
    requires SameKey(a, b)
    ensures !KeyLt(a, b)
  {
    StrLtIrreflexive(a.state);
    StrLtIrreflexive(a.district);
  }

  /** Strictly increasing keys: sorted by (date, state, district) and no key twice. */
  predicate StrictlySorted(g: seq<Rec>) {
    forall i, j :: 0 <= i < j < |g| ==> KeyLt(g[i], g[j])
  }

  function AddAges(g: Rec, x: Rec): Rec {
    g.(age0To5 := g.age0To5 + x.age0To5, age5To17 := g.age5To17 + x.age5To17, age18Plus := g.age18Plus + x.age18Plus)
  }

  /** Adds one record to a sorted grouping: summed into the group of its key, or
      inserted as a new group at its place. */
  function InsertGroup(g: seq<Rec>, x: Rec): (r: seq<Rec>)
    ensures forall y :: y in r ==> y in g || SameKey(y, x)
    ensures 0 < |r| <= |g| + 1
  {
    if |g| == 0 then [x]
    else if KeyLt(x, g[0]) then [x] + g
    else if SameKey(x, g[0]) then [AddAges(g[0], x)] + g[1..]
    else [g[0]] + InsertGroup(g[1..], x)
  }

  lemma {:induction false} InsertGroupSorted(g: seq<Rec>, x: Rec)
    requires StrictlySorted(g)
    ensures StrictlySorted(InsertGroup(g, x))
  {
    if |g| > 0 && !KeyLt(x, g[0]) && !SameKey(x, g[0]) {
      KeyLtTotal(x, g[0]);
      InsertGroupSorted(g[1..], x);
      var rest := InsertGroup(g[1..], x);
      forall j | 0 <= j < |rest| ensures KeyLt(g[0], rest[j]) {
        assert rest[j] in rest;
        if !SameKey(rest[j], x) {
          assert rest[j] in g[1..];
        }
      }
    } else if |g| > 0 && KeyLt(x, g[0]) {
      forall j | 1 <= j < |g| ensures KeyLt(x, g[j]) {
        KeyLtTransitive(x, g[0], g[j]);
      }
    }
  }

  /** The sum of an age column over the records with y's key. */
  function KeySum(s: seq<Rec>, y: Rec, g: AgeGroup): real {
    if |s| == 0 then 0.0
    else
      var n := |s| - 1;
      KeySum(s[..n], y, g) + (if SameKey(s[n], y) then RecAge(s[n], g) else 0.0)
  }

  function RecAge(x: Rec, g: AgeGroup): real {
    match g
    case Age0To5 => x.age0To5
    case Age5To17 => x.age5To17
    case Age18Plus => x.age18Plus
  }

  /** The age value of the group with y's key, 0 when there is none. */
  function GroupAge(gs: seq<Rec>, y: Rec, g: AgeGroup): real {
    if |gs| == 0 then 0.0 else if SameKey(gs[0], y) then RecAge(gs[0], g) else GroupAge(gs[1..], y, g)
  }

  lemma {:induction false} InsertGroupAge(gs: seq<Rec>, x: Rec, y: Rec, g: AgeGroup)
    requires StrictlySorted(gs)
    ensures GroupAge(InsertGroup(gs, x), y, g) == GroupAge(gs, y, g) + (if SameKey(x, y) then RecAge(x, g) else 0.0)
  {
    if |gs| == 0 {
    } else if KeyLt(x, gs[0]) {
      if SameKey(x, y) {
        GroupAgeAbsent(gs, y, g, x);
      }
    } else if SameKey(x, gs[0]) {
    } else {
      InsertGroupAge(gs[1..], x, y, g);
    }
  }

  /** In a sorted grouping whose first key is above x's, x's key has no group. */
  lemma {:induction false} GroupAgeAbsent(gs: seq<Rec>, y: Rec, g: AgeGroup, x: Rec)
    requires StrictlySorted(gs) && |gs| > 0 && KeyLt(x, gs[0]) && SameKey(x, y)
    ensures GroupAge(gs, y, g) == 0.0
  {
    forall j | 0 <= j < |gs| ensures !SameKey(gs[j], y) {
      if j > 0 {
        KeyLtTransitive(x, gs[0], gs[j]);
      }
      if SameKey(gs[j], y) {
        KeyLtIrreflexive(x, gs[j]);
      }
    }
    GroupAgeNone(gs, y, g);
  }

  lemma {:induction false} GroupAgeNone(gs: seq<Rec>, y: Rec, g: AgeGroup)
    requires forall j :: 0 <= j < |gs| ==> !SameKey(gs[j], y)
    ensures GroupAge(gs, y, g) == 0.0
  {
    if |gs| > 0 {
      GroupAgeNone(gs[1..], y, g);
    }
  }

  /** `groupby(["date", "state", "district"]).sum()`: one record per key, in key
      order, holding the sums of the age columns of that key's records. */
  function GroupRecs(s: seq<Rec>): (r: seq<Rec>)
    ensures StrictlySorted(r)
    ensures forall y, g :: GroupAge(r, y, g) == KeySum(s, y, g)
    ensures forall y :: y in r ==> exists i :: 0 <= i < |s| && SameKey(s[i], y)
    ensures |r| <= |s|
  {
    if |s| == 0 then []
    else
      var n := |s| - 1;
      var prev := GroupRecs(s[..n]);
      InsertGroupSorted(prev, s[n]);
      var r := InsertGroup(prev, s[n]);
      forall y, g ensures GroupAge(r, y, g) == KeySum(s, y, g) {
        InsertGroupAge(prev, s[n], y, g);
      }
      forall y | y in r ensures exists i :: 0 <= i < |s| && SameKey(s[i], y) {
        if !SameKey(y, s[n]) {
          var i :| 0 <= i < n && SameKey(s[..n][i], y);
          assert s[i] == s[..n][i];
        }
      }
      r
  }

  const MonthAbbrs: seq<string> := ["Jan", "Feb", "Mar", "Apr", "May", "Jun", "Jul", "Aug", "Sep", "Oct", "Nov", "Dec"]

  const DayNames: seq<string> := ["Monday", "Tuesday", "Wednesday", "Thursday", "Friday", "Saturday", "Sunday"]

  /** `strftime("%b %Y")` for a year from 1000 on, as in the data. */
  function MonthLabel(d: Date): string
    requires ValidDate(d)
  {
    MonthAbbrs[d.month - 1] + " " + (if d.year >= 0 then NatToString(d.year) else "-" + NatToString(-d.year))
  }

  /** The total column and the time dimensions. */
  function Finish(x: Rec): (r: CleanRow)
    requires ValidDate(x.date)
    ensures r.total == x.age0To5 + x.age5To17 + x.age18Plus
    ensures r.date == x.date && r.state == x.state && r.district == x.district
  {
    CleanRow(x.date, x.state, x.district, x.age0To5, x.age5To17, x.age18Plus,
      x.age0To5 + x.age5To17 + x.age18Plus, x.date.year, MonthLabel(x.date), DayNames[IsoWeekday(x.date) - 1])
  }

  predicate PositiveTotal(x: Rec) {
    x.age0To5 + x.age5To17 + x.age18Plus > 0.0
  }

  /** Filtering keeps a strictly sorted sequence strictly sorted. */
  lemma {:induction false} FilterStrictlySorted(s: seq<Rec>, f: Rec -> bool)
    requires StrictlySorted(s)
    ensures StrictlySorted(Filter(s, f))
  {
    if |s| > 0 {
      FilterStrictlySorted(s[1..], f);
      var rest := Filter(s[1..], f);
      forall j | 0 <= j < |rest| ensures KeyLt(s[0], rest[j]) {
        assert rest[j] in rest;
        var k :| 0 <= k < |s[1..]| && s[1..][k] == rest[j];
        assert s[k + 1] == rest[j];
      }
    }
  }

  /** In a sorted grouping, the age value found under a group's own key is its own. */
  lemma {:induction false} GroupAgeOfMember(gs: seq<Rec>, i: int, g: AgeGroup)
    requires StrictlySorted(gs) && 0 <= i < |gs|
    ensures GroupAge(gs, gs[i], g) == RecAge(gs[i], g)
  {
    if i > 0 {
      if SameKey(gs[0], gs[i]) {
        KeyLtIrreflexive(gs[0], gs[i]);
      }
      GroupAgeOfMember(gs[1..], i - 1, g);
    }
  }

  lemma {:induction false} KeySumNonNegative(s: seq<Rec>, y: Rec, g: AgeGroup)
    requires forall x :: x in s ==> RecAge(x, g) >= 0.0
    ensures KeySum(s, y, g) >= 0.0
  {
    if |s| > 0 {
      assert s[|s| - 1] in s;
      KeySumNonNegative(s[..|s| - 1], y, g);
    }
  }

  /** The merge rewrites a district only to another district of the same state, so
      known names stay known. */
  lemma MergedKnown(known: seq<Rec>, p: MergeParams, sim: Similarity)
    requires forall x :: x in known ==> KnownIds(x) && ValidDate(x.date)
    ensures forall x :: x in Merged(known, p, sim) ==> KnownIds(x) && ValidDate(x.date)
  {
    var m := Merged(known, p, sim);
    forall x | x in m ensures KnownIds(x) && ValidDate(x.date) {
      var i :| 0 <= i < |m| && m[i] == x;
      assert known[i] in known;
      if x.district != known[i].district {
        assert x.district in StateDistricts(known, known[i].state);
        var j :| 0 <= j < |known| && known[j].state == known[i].state && known[j].district == x.district;
        assert known[j] in known;
      }
    }
  }

  /** Every group holds the key of some input record, hence its names and date. */
  lemma GroupedFrom(s: seq<Rec>)
    requires forall x :: x in s ==> KnownIds(x) && ValidDate(x.date) && x.age0To5 >= 0.0 && x.age5To17 >= 0.0 && x.age18Plus >= 0.0
    ensures forall y :: y in GroupRecs(s) ==>
      KnownIds(y) && ValidDate(y.date) && y.age0To5 >= 0.0 && y.age5To17 >= 0.0 && y.age18Plus >= 0.0
  {
    var r := GroupRecs(s);
    forall y | y in r
      ensures KnownIds(y) && ValidDate(y.date) && y.age0To5 >= 0.0 && y.age5To17 >= 0.0 && y.age18Plus >= 0.0
    {
      var i :| 0 <= i < |s| && SameKey(s[i], y);
      assert s[i] in s;
      var k :| 0 <= k < |r| && r[k] == y;
      forall g: AgeGroup ensures RecAge(y, g) >= 0.0 {
        GroupAgeOfMember(r, k, g);
        KeySumNonNegative(s, y, g);
      }
      assert RecAge(y, Age0To5) >= 0.0 && RecAge(y, Age5To17) >= 0.0 && RecAge(y, Age18Plus) >= 0.0;
    }
  }

  /** A parser that only returns calendar days (as pandas timestamps are). */
  ghost predicate ValidParser(parse: DateParser) {
    forall s :: parse(s).Some? ==> ValidDate(parse(s).value)
  }

  /** A record fit for the output: known names, a calendar day, non-negative ages. */
  predicate Good(x: Rec) {
    KnownIds(x) && ValidDate(x.date) && x.age0To5 >= 0.0 && x.age5To17 >= 0.0 && x.age18Plus >= 0.0
  }

  predicate AllGood(s: seq<Rec>) {
    forall x :: x in s ==> Good(x)
  }

  /** Date parsing, normalisation, clean ages, then `Unknown` names dropped. */
  function KnownStage(parse: DateParser, parsed: seq<RawRow>): (r: seq<Rec>)
    requires ValidParser(parse) && forall i :: 0 <= i < |parsed| ==> Parses(parse, parsed[i])
    ensures AllGood(r) && |r| <= |parsed|
  {
    var prepared := PrepareAll(parse, parsed);
    var known := Filter(prepared, KnownIds);
    assert AllGood(known) by {
      forall x | x in known ensures Good(x) {
        var i :| 0 <= i < |prepared| && prepared[i] == x;
      }
    }
    known
  }

  function MergeStage(known: seq<Rec>, merge: bool, p: MergeParams, sim: Similarity): (r: seq<Rec>)
    requires AllGood(known)
    ensures AllGood(r) && |r| == |known|
  {
    if merge then
      MergedKnown(known, p, sim);
      var m := Merged(known, p, sim);
      assert AllGood(m) by {
        forall x | x in m ensures Good(x) {
          var i :| 0 <= i < |m| && m[i] == x;
          assert known[i] in known;
        }
      }
      m
    else known
  }

  function GroupStage(merged: seq<Rec>): (r: seq<Rec>)
    requires AllGood(merged)
    ensures AllGood(r) && StrictlySorted(r) && |r| <= |merged|
  {
    GroupedFrom(merged);
    GroupRecs(merged)
  }

  function PositiveStage(grouped: seq<Rec>): (r: seq<Rec>)
    requires AllGood(grouped) && StrictlySorted(grouped)
    ensures AllGood(r) && StrictlySorted(r) && |r| <= |grouped|
    ensures forall x :: x in r ==> PositiveTotal(x)
  {
    FilterStrictlySorted(grouped, PositiveTotal);
    Filter(grouped, PositiveTotal)
  }

  /** The rows whose date the parser accepts (`dropna` after `to_datetime`). */
  function ParsedRows(parse: DateParser, rows: seq<RawRow>): (r: seq<RawRow>)
    ensures |r| <= |rows|
    ensures forall x :: x in r <==> x in rows && Parses(parse, x)
  {
    Filter(rows, x => Parses(parse, x))
  }

  /** The successive data frames of the cleaner. */
  datatype Stages = Stages(
    withIds: seq<RawRow>,
    parsed: seq<RawRow>,
    known: seq<Rec>,
    merged: seq<Rec>,
    grouped: seq<Rec>,
    positive: seq<Rec>)

  function RunStages(raw: seq<RawRow>, parse: DateParser, merge: bool, p: MergeParams, sim: Similarity): (st: Stages)
    requires ValidParser(parse)
    ensures AllGood(st.positive) && StrictlySorted(st.positive)
    ensures forall x :: x in st.positive ==> PositiveTotal(x)
    ensures |st.positive| <= |st.grouped| <= |st.merged| == |st.known| <= |st.parsed| <= |st.withIds| <= |raw|
  {
    var withIds := Filter(raw, HasIds);
    var parsed := ParsedRows(parse, withIds);
    var known := KnownStage(parse, parsed);
    var merged := MergeStage(known, merge, p, sim);
    var grouped := GroupStage(merged);
    Stages(withIds, parsed, known, merged, grouped, PositiveStage(grouped))
  }

  /** `clean_dataframe`: the grouped, positive-total rows with totals and time labels,
      sorted by (date, state, district). */
  function CleanDataframe(raw: seq<RawRow>, parse: DateParser, merge: bool, p: MergeParams, sim: Similarity): (r: seq<CleanRow>)
    requires ValidParser(parse)
  {
    var positive := RunStages(raw, parse, merge, p, sim).positive;
    GoodDates(positive);
    FinishAll(positive)
  }

  lemma GoodDates(s: seq<Rec>)
    requires AllGood(s)
    ensures forall i :: 0 <= i < |s| ==> ValidDate(s[i].date)
  {
    forall i | 0 <= i < |s| ensures ValidDate(s[i].date) {
      assert s[i] in s;
    }
  }

  /** Each grouped row finished, in order. */
  function FinishAll(positive: seq<Rec>): (r: seq<CleanRow>)
    requires forall i :: 0 <= i < |positive| ==> ValidDate(positive[i].date)
    ensures |r| == |positive| && forall i :: 0 <= i < |r| ==> r[i] == Finish(positive[i])
  {
    seq(|positive|, i requires 0 <= i < |positive| => Finish(positive[i]))
  }

  /** The cleaner's output: no "Unknown" names, non-negative ages whose sum is the
      positive total, and strictly increasing (date, state, district) keys, so each key
      once. */
  lemma CleanOutput(raw: seq<RawRow>, parse: DateParser, merge: bool, p: MergeParams, sim: Similarity)
    requires ValidParser(parse)
    ensures var out := CleanDataframe(raw, parse, merge, p, sim);
      && (forall i :: 0 <= i < |out| ==>
        && out[i].state != "Unknown" && out[i].district != "Unknown"
        && out[i].age0To5 >= 0.0 && out[i].age5To17 >= 0.0 && out[i].age18Plus >= 0.0
        && out[i].total == out[i].age0To5 + out[i].age5To17 + out[i].age18Plus
        && out[i].total > 0.0)
      && (forall i, j :: 0 <= i < j < |out| ==>
        DateLt(out[i].date, out[j].date)
        || (out[i].date == out[j].date && (StrLt(out[i].state, out[j].state)
          || (out[i].state == out[j].state && StrLt(out[i].district, out[j].district)))))
  {
    var positive := RunStages(raw, parse, merge, p, sim).positive;
    var out := CleanDataframe(raw, parse, merge, p, sim);
    forall i | 0 <= i < |out|
      ensures out[i].state != "Unknown" && out[i].district != "Unknown"
      ensures out[i].age0To5 >= 0.0 && out[i].age5To17 >= 0.0 && out[i].age18Plus >= 0.0
      ensures out[i].total > 0.0
    {
      assert positive[i] in positive;
    }
    forall i, j | 0 <= i < j < |out| ensures KeyLt(positive[i], positive[j]) {
    }
  }

  /** The quality report of `clean_dataframe_with_report`. */
  datatype Report = Report(
    originalRecords: int,
    exactDuplicates: int,
    missingRequiredFields: int,
    invalidDates: int,
    invalidIdentifiers: int,
    logicalDuplicates: int,
    zeroEnrollments: int,
    outliersRemoved: int,
    finalCleanRecords: int,
    states: int,
    districts: int,
    dataQualityScorePct: real)

  /** `duplicated().sum()`: the rows equal to an earlier row. */
  function ExactDuplicates(raw: seq<RawRow>): (r: nat)
    ensures r <= |raw|
  {
    if |raw| == 0 then 0
    else
      var n := |raw| - 1;
      ExactDuplicates(raw[..n]) + (if raw[n] in raw[..n] then 1 else 0)
  }

  /** Every row is either the first of its kind or a duplicate: the duplicates and the
      distinct rows together account for all rows. */
  lemma {:induction false} ExactDuplicatesDistinct(raw: seq<RawRow>)
    ensures ExactDuplicates(raw) + |Distinct(raw)| == |raw|
  {
    if |raw| > 0 {
      var n := |raw| - 1;
      ExactDuplicatesDistinct(raw[..n]);
      assert raw[n] in raw[..n] <==> raw[n] in Distinct(raw[..n]);
    }
  }

  /** `nunique()`: the number of distinct values. */
  function NUnique(s: seq<string>): (r: nat)
    ensures r <= |s|
  {
    |Distinct(s)|
  }

  function StatesOf(out: seq<Rec>): seq<string> {
    seq(|out|, i requires 0 <= i < |out| => out[i].state)
  }

  function DistrictsOf(out: seq<Rec>): seq<string> {
    seq(|out|, i requires 0 <= i < |out| => out[i].district)
  }

  /** The report fields, from the sizes of the successive frames. */
  function ReportFrom(raw: seq<RawRow>, st: Stages): Report {
    var out := st.positive;
    var orig := if |raw| == 0 then 1 else |raw|;
    Report(
      |raw|,
      ExactDuplicates(raw),
      |raw| - |st.withIds|,
      |st.withIds| - |st.parsed|,
      |st.parsed| - |st.known|,
      |st.merged| - |st.grouped|,
      |st.grouped| - |st.positive|,
      0,
      |out|,
      NUnique(StatesOf(out)),
      NUnique(DistrictsOf(out)),
      (|out| as real) / (orig as real) * 100.0)
  }

  function ReportOf(raw: seq<RawRow>, parse: DateParser, merge: bool, p: MergeParams, sim: Similarity): Report
    requires ValidParser(parse)
  {
    ReportFrom(raw, RunStages(raw, parse, merge, p, sim))
  }

  /** Every input row is accounted for exactly once: it is either dropped at one stage
      or folded into a final row; no count is negative and the quality score is a
      percentage. */
  lemma ReportAccounts(raw: seq<RawRow>, parse: DateParser, merge: bool, p: MergeParams, sim: Similarity)
    requires ValidParser(parse)
    ensures ReportBalanced(ReportOf(raw, parse, merge, p, sim))
  {
    ReportFromBalanced(raw, RunStages(raw, parse, merge, p, sim));
  }

  predicate ReportBalanced(r: Report) {
    && r.originalRecords == r.missingRequiredFields + r.invalidDates + r.invalidIdentifiers
       + r.logicalDuplicates + r.zeroEnrollments + r.finalCleanRecords
    && r.missingRequiredFields >= 0 && r.invalidDates >= 0 && r.invalidIdentifiers >= 0
    && r.logicalDuplicates >= 0 && r.zeroEnrollments >= 0
    && 0.0 <= r.dataQualityScorePct <= 100.0
    && r.states <= r.finalCleanRecords && r.districts <= r.finalCleanRecords
  }

  lemma ReportFromBalanced(raw: seq<RawRow>, st: Stages)
    requires |st.positive| <= |st.grouped| <= |st.merged| == |st.known| <= |st.parsed| <= |st.withIds| <= |raw|
    ensures ReportBalanced(ReportFrom(raw, st))
  {
    var orig := if |raw| == 0 then 1 else |raw|;
    var q := (|st.positive| as real) / (orig as real);
    assert q <= 1.0;
  }

  /** The cleaner as the source runs it: `df` reassigned stage by stage while the
      report is filled in. */
  method CleanDataframeWithReport(raw: seq<RawRow>, parse: DateParser, merge: bool, p: MergeParams, sim: Similarity)
    returns (df: seq<CleanRow>, report: Report)
    requires ValidParser(parse)
    ensures df == CleanDataframe(raw, parse, merge, p, sim)
    ensures report == ReportOf(raw, parse, merge, p, sim)
  {
    var withIds := Filter(raw, HasIds);
    var parsed := ParsedRows(parse, withIds);
    var known := KnownStage(parse, parsed);
    var merged := known;
    if merge {
      merged := MergeRareDistrictVariants(known, p, sim);
    }
    assert merged == MergeStage(known, merge, p, sim);
    var grouped := GroupStage(merged);
    var positive := PositiveStage(grouped);
    var st := Stages(withIds, parsed, known, merged, grouped, positive);
    assert st == RunStages(raw, parse, merge, p, sim);
    GoodDates(positive);
    df := FinishAll(positive);
    report := ReportFrom(raw, st);
  }
}
