/** The dashboard's client-side filtering (uidai-dashboard/src/pages/Dashboard.jsx):
    the whole-word search, `applyFilters` with its selected-age totals, and the query
    string `buildFilterParams` sends to the backend. */
module DashboardFilters {
  import opened Common
  import opened Text
  import opened Aggregates

  /** `matchesWholeWords(text, query)`: a blank query matches; otherwise every
      whitespace-separated term occurs in the text as a whole word, ignoring case, the
      term taken literally. */
  predicate MatchesWholeWords(text: string, query: string) {
    var q := Trim(query);
    |q| == 0 || AllTermsMatch(text, Words(q))
  }

  predicate AllTermsMatch(text: string, terms: seq<string>) {
    forall k :: 0 <= k < |terms| ==> HasWholeWord(text, terms[k])
  }

  const AllAgeKeys: seq<string> := [AgeKey(Age0To5), AgeKey(Age5To17), AgeKey(Age18Plus)]

  /** The dashboard's filter state. */
  datatype FilterState = FilterState(
    start: Option<Date>,
    end: Option<Date>,
    states: seq<string>,
    districts: seq<string>,
    searchQuery: string,
    ageGroups: seq<string>,
    viewAllStates: bool,
    viewAllDistricts: bool)

  /** The filter state the dashboard starts with. */
  const InitialFilters: FilterState := FilterState(None, None, [], [], "", AllAgeKeys, true, true)

  /** `Number(row?.[key]) || 0`: an age column by its key, 0 for any other key. */
  function AgeOfKey(r: Row, key: string): real {
    if key == AgeKey(Age0To5) then r.age0To5
    else if key == AgeKey(Age5To17) then r.age5To17
    else if key == AgeKey(Age18Plus) then r.age18Plus
    else 0.0
  }

  /** The reduce over the selected keys, from the left. */
  function SelectedTotal(r: Row, keys: seq<string>): real {
    if |keys| == 0 then 0.0 else SelectedTotal(r, keys[..|keys| - 1]) + AgeOfKey(r, keys[|keys| - 1])
  }

  /** The selected age keys, all three when none is selected. */
  function SelectedKeys(f: FilterState): (r: seq<string>)
    ensures |r| > 0
    ensures |f.ageGroups| > 0 ==> r == f.ageGroups
  {
    if |f.ageGroups| > 0 then f.ageGroups else AllAgeKeys
  }

  /** With all three keys selected (or the fallback), the selected total is the sum of
      the three ages. */
  lemma AllKeysTotal(r: Row)
    ensures SelectedTotal(r, AllAgeKeys) == r.age0To5 + r.age5To17 + r.age18Plus
  {
    AgeKeysDistinct();
    var k := AllAgeKeys;
    assert k[..2] == [AgeKey(Age0To5), AgeKey(Age5To17)];
    assert k[..2][..1] == [AgeKey(Age0To5)];
    assert SelectedTotal(r, k[..2][..1]) == r.age0To5;
    assert SelectedTotal(r, k[..2]) == r.age0To5 + r.age5To17;
  }

  /** The sum of the three ages, each counted when its key is selected. */
  function Chosen(r: Row, keys: seq<string>): real {
    (if AgeKey(Age0To5) in keys then r.age0To5 else 0.0)
    + (if AgeKey(Age5To17) in keys then r.age5To17 else 0.0)
    + (if AgeKey(Age18Plus) in keys then r.age18Plus else 0.0)
  }

  /** With no key selected twice, the reduce counts each selected age once and ignores
      every other key. */
  lemma {:induction false} SelectedTotalChosen(r: Row, keys: seq<string>)
    requires forall i, j :: 0 <= i < j < |keys| ==> keys[i] != keys[j]
    ensures SelectedTotal(r, keys) == Chosen(r, keys)
  {
    AgeKeysDistinct();
    if |keys| > 0 {
      var n := |keys| - 1;
      var k := keys[n];
      SelectedTotalChosen(r, keys[..n]);
      assert k !in keys[..n];
      assert keys == keys[..n] + [k];
      forall a | a in [AgeKey(Age0To5), AgeKey(Age5To17), AgeKey(Age18Plus)]
        ensures a in keys <==> a in keys[..n] || a == k
      {
      }
    }
  }

  /** So with non-negative ages the recomputed total lies between 0 and the sum of the
      three ages, and equals that sum when all three keys are selected. */
  lemma WithTotalsBounded(rows: seq<Row>, keys: seq<string>)
    requires forall i, j :: 0 <= i < j < |keys| ==> keys[i] != keys[j]
    requires forall x :: x in rows ==> x.age0To5 >= 0.0 && x.age5To17 >= 0.0 && x.age18Plus >= 0.0
    ensures forall x :: x in WithTotals(rows, keys) ==>
      0.0 <= x.total <= x.age0To5 + x.age5To17 + x.age18Plus
    ensures AgeKey(Age0To5) in keys && AgeKey(Age5To17) in keys && AgeKey(Age18Plus) in keys ==>
      forall x :: x in WithTotals(rows, keys) ==> x.total == x.age0To5 + x.age5To17 + x.age18Plus
  {
    var out := WithTotals(rows, keys);
    forall x | x in out
      ensures 0.0 <= x.total <= x.age0To5 + x.age5To17 + x.age18Plus
      ensures AgeKey(Age0To5) in keys && AgeKey(Age5To17) in keys && AgeKey(Age18Plus) in keys ==>
        x.total == x.age0To5 + x.age5To17 + x.age18Plus
    {
      var i :| 0 <= i < |out| && out[i] == x;
      assert rows[i] in rows;
      SelectedTotalChosen(rows[i], keys);
    }
  }

  lemma AgeKeysDistinct()
    ensures AgeKey(Age5To17) != AgeKey(Age0To5)
    ensures AgeKey(Age18Plus) != AgeKey(Age0To5) && AgeKey(Age18Plus) != AgeKey(Age5To17)
  {
    assert AgeKey(Age0To5)[4] == '0' && AgeKey(Age5To17)[4] == '5' && AgeKey(Age18Plus)[4] == '1';
  }

  /** The inclusive date range applies only when both ends are set; a row whose date is
      invalid then fails it. */
  predicate DateMatch(f: FilterState, r: Row) {
    f.start.None? || f.end.None?
    || (r.date.Some? && DateLe(f.start.value, r.date.value) && DateLe(r.date.value, f.end.value))
  }

  /** The search passes a row when all terms match in its state, or all in its district. */
  predicate SearchMatch(f: FilterState, r: Row) {
    var q := Lower(Trim(f.searchQuery));
    |q| == 0 || MatchesWholeWords(r.state, q) || MatchesWholeWords(r.district, q)
  }

  predicate Passes(f: FilterState, r: Row) {
    && DateMatch(f, r)
    && (f.viewAllStates || r.state in f.states)
    && (f.viewAllDistricts || r.district in f.districts)
    && SearchMatch(f, r)
  }

  /** Each row with `total_enrolments` replaced by its selected-age total. */
  function WithTotals(rows: seq<Row>, keys: seq<string>): (r: seq<Row>)
    ensures |r| == |rows|
    ensures forall i :: 0 <= i < |rows| ==> r[i] == rows[i].(total := SelectedTotal(rows[i], keys))
  {
    seq(|rows|, i requires 0 <= i < |rows| => rows[i].(total := SelectedTotal(rows[i], keys)))
  }

  /** The rows meeting every condition, in their order. */
  function Passing(data: seq<Row>, f: FilterState): (r: seq<Row>)
    ensures |r| <= |data|
    ensures forall x :: x in r <==> x in data && Passes(f, x)
  {
    Filter(data, x => Passes(f, x))
  }

  /** `applyFilters`: None when there is no data (the filtered rows are then left as they
      were). */
  function ApplyFilters(data: seq<Row>, f: FilterState): (r: Option<seq<Row>>)
    ensures r.None? <==> |data| == 0
  {
    if |data| == 0 then None
    else Some(WithTotals(Passing(data, f), SelectedKeys(f)))
  }

  /** The filtered rows are the passing rows in their order, each with its selected-age
      total and otherwise unchanged. */
  lemma ApplyFiltersRows(data: seq<Row>, f: FilterState)
    requires |data| > 0
    ensures var out := ApplyFilters(data, f).value;
      && |out| <= |data|
      && forall x :: x in out <==>
        exists y :: y in data && Passes(f, y) && x == y.(total := SelectedTotal(y, SelectedKeys(f)))
  {
    var keys := SelectedKeys(f);
    var kept := Passing(data, f);
    forall x ensures x in WithTotals(kept, keys) <==> exists y :: y in kept && x == y.(total := SelectedTotal(y, keys)) {
      WithTotalsMembers(kept, keys, x);
    }
  }

  lemma WithTotalsMembers(rows: seq<Row>, keys: seq<string>, x: Row)
    ensures x in WithTotals(rows, keys) <==> exists y :: y in rows && x == y.(total := SelectedTotal(y, keys))
  {
    var out := WithTotals(rows, keys);
    if x in out {
      var i :| 0 <= i < |out| && out[i] == x;
      assert rows[i] in rows;
    }
    if exists y :: y in rows && x == y.(total := SelectedTotal(y, keys)) {
      var y :| y in rows && x == y.(total := SelectedTotal(y, keys));
      var i :| 0 <= i < |rows| && rows[i] == y;
      assert out[i] == x;
    }
  }

  /** With "view all states" off, a row must be in the selected list, so an empty list
      leaves nothing; likewise for districts. */
  lemma EmptySelectionExcludesAll(data: seq<Row>, f: FilterState)
    requires |data| > 0
    requires (!f.viewAllStates && |f.states| == 0) || (!f.viewAllDistricts && |f.districts| == 0)
    ensures ApplyFilters(data, f) == Some([])
  {
    PassingNone(data, f);
  }

  /** No row passes, so nothing is left. */
  lemma {:induction false} PassingNone(rows: seq<Row>, f: FilterState)
    requires forall x :: x in rows ==> !Passes(f, x)
    ensures Passing(rows, f) == []
  {
    if |rows| > 0 {
      assert rows[0] in rows;
      PassingNone(rows[1..], f);
    }
  }

  /** A single date bound is ignored: only a range with both ends set filters by date. */
  lemma OneSidedRangeIgnored(data: seq<Row>, f: FilterState)
    requires f.start.None? || f.end.None?
    ensures ApplyFilters(data, f) == ApplyFilters(data, f.(start := None, end := None))
  {
    var g := f.(start := None, end := None);
    FilterExt(data, x => Passes(f, x), x => Passes(g, x));
  }

  /** Applying the filters to their own output gives the same output: the conditions do
      not look at the total, and the total is recomputed from the ages. */
  lemma ApplyFiltersIdempotent(data: seq<Row>, f: FilterState)
    requires |data| > 0 && |ApplyFilters(data, f).value| > 0
    ensures ApplyFilters(ApplyFilters(data, f).value, f) == ApplyFilters(data, f)
  {
    var keys := SelectedKeys(f);
    var kept := Passing(data, f);
    var out := WithTotals(kept, keys);
    forall i | 0 <= i < |out| ensures Passes(f, out[i]) {
      assert Passes(f, kept[i]);
    }
    PassingAll(out, f);
    WithTotalsTwice(kept, keys);
  }

  /** Rows that all pass come through unchanged. */
  lemma {:induction false} PassingAll(rows: seq<Row>, f: FilterState)
    requires forall i :: 0 <= i < |rows| ==> Passes(f, rows[i])
    ensures Passing(rows, f) == rows
  {
    if |rows| > 0 {
      PassingAll(rows[1..], f);
      assert rows == [rows[0]] + rows[1..];
    }
  }

  /** Recomputing the totals a second time changes nothing. */
  lemma WithTotalsTwice(rows: seq<Row>, keys: seq<string>)
    ensures WithTotals(WithTotals(rows, keys), keys) == WithTotals(rows, keys)
  {
    var out := WithTotals(rows, keys);
    forall i | 0 <= i < |out| ensures WithTotals(out, keys)[i] == out[i] {
      SelectedTotalIgnoresTotal(rows[i], keys, SelectedTotal(rows[i], keys));
    }
  }

  lemma {:induction false} SelectedTotalIgnoresTotal(r: Row, keys: seq<string>, t: real)
    ensures SelectedTotal(r.(total := t), keys) == SelectedTotal(r, keys)
  {
    if |keys| > 0 {
      SelectedTotalIgnoresTotal(r, keys[..|keys| - 1], t);
    }
  }

  /** The dashboard search is stricter than the backend's: passing it (all terms in the
      state, or all in the district) means each term matches in the state or the
      district, which is what the backend asks. */
  lemma FrontendSearchStricter(state: string, district: string, terms: seq<string>)
    requires AllTermsMatch(state, terms) || AllTermsMatch(district, terms)
    ensures forall k :: 0 <= k < |terms| ==> HasWholeWord(state, terms[k]) || HasWholeWord(district, terms[k])
  {
  }

  /** The converse fails: for state "Goa", district "Panaji" and the query
      "goa panaji", each term matches one of the two fields (so the backend keeps the
      row) but neither field holds both terms (so the dashboard drops it). */
  lemma SearchSemanticsDiffer(f: FilterState, r: Row)
    requires f.searchQuery == "goa panaji"
    requires r.state == "Goa" && r.district == "Panaji"
    ensures Words(Trim(f.searchQuery)) == ["goa", "panaji"]
    ensures forall t :: t in Words(Trim(f.searchQuery)) ==> HasWholeWord(r.state, t) || HasWholeWord(r.district, t)
    ensures !SearchMatch(f, r)
  {
    GoaPanajiQuery();
    EachTermInOneField(r.state, r.district, Words(Trim(f.searchQuery)));
    DashboardDropsGoaPanaji(f, r);
  }

  lemma EachTermInOneField(state: string, district: string, ts: seq<string>)
    requires ts == ["goa", "panaji"]
    requires state == "Goa" && district == "Panaji"
    ensures forall t :: t in ts ==> HasWholeWord(state, t) || HasWholeWord(district, t)
  {
    GoaMatchesGoa();
    PanajiMatchesPanaji();
    assert forall t :: t in ts ==> t == ts[0] || t == ts[1];
  }

  lemma DashboardDropsGoaPanaji(f: FilterState, r: Row)
    requires f.searchQuery == "goa panaji"
    requires r.state == "Goa" && r.district == "Panaji"
    ensures !SearchMatch(f, r)
  {
    GoaPanajiQuery();
    NeitherHoldsBoth();
  }

  lemma NeitherHoldsBoth()
    ensures !MatchesWholeWords("Goa", "goa panaji")
    ensures !MatchesWholeWords("Panaji", "goa panaji")
  {
    GoaPanajiQuery();
    NoGoaInPanaji();
    NoPanajiInGoa();
    var ts := ["goa", "panaji"];
    assert !HasWholeWord("Goa", ts[1]);
    assert !HasWholeWord("Panaji", ts[0]);
  }

  lemma GoaPanajiQuery()
    ensures Trim("goa panaji") == "goa panaji"
    ensures Lower("goa panaji") == "goa panaji"
    ensures Words("goa panaji") == ["goa", "panaji"]
  {
    var ts := ["goa", "panaji"];
    SolidWords(ts);
    TrimOfTrimmed("goa panaji");
    LowerOfLowerCased("goa panaji");
    GoaPanajiWords(ts);
  }

  lemma GoaPanajiWords(ts: seq<string>)
    requires ts == ["goa", "panaji"]
    ensures Words("goa panaji") == ts
  {
    SolidWords(ts);
    WordsOfJoin(ts);
    GoaPanajiJoin(ts);
  }

  lemma GoaPanajiJoin(ts: seq<string>)
    requires ts == ["goa", "panaji"]
    ensures Join(ts, " ") == "goa panaji"
  {
    assert ts[1..] == ["panaji"];
    assert Join(ts, " ") == "goa" + " " + "panaji";
  }

  lemma SolidWords(ts: seq<string>)
    requires ts == ["goa", "panaji"]
    ensures forall k :: 0 <= k < |ts| ==> |ts[k]| > 0 && forall i :: 0 <= i < |ts[k]| ==> !IsSpace(ts[k][i])
    ensures IsLowerCased("goa panaji")
  {
    assert forall i :: 0 <= i < |ts[0]| ==> ts[0][i] in "goa";
    assert forall i :: 0 <= i < |ts[1]| ==> ts[1][i] in "panaji";
    assert forall i :: 0 <= i < |"goa panaji"| ==> "goa panaji"[i] in "goa panaji";
  }

  lemma GoaMatchesGoa()
    ensures HasWholeWord("Goa", "goa")
  {
    assert WholeWordAt("Goa", "goa", 0);
  }

  lemma PanajiMatchesPanaji()
    ensures HasWholeWord("Panaji", "panaji")
  {
    assert WholeWordAt("Panaji", "panaji", 0);
  }

  lemma NoGoaInPanaji()
    ensures !HasWholeWord("Panaji", "goa")
  {
    forall p | 0 <= p <= |"Panaji"| ensures !WholeWordAt("Panaji", "goa", p) {
    }
  }

  lemma NoPanajiInGoa()
    ensures !HasWholeWord("Goa", "panaji")
  {
  }

  /** The names `buildFilterParams` writes; `Name` is the string sent. */
  datatype Param = Start | End | States | Districts | Search | AgeGroups

  function Name(p: Param): string {
    match p
    case Start => "start"
    case End => "end"
    case States => "states"
    case Districts => "districts"
    case Search => "search"
    case AgeGroups => "age_groups"
  }

  /** The query string of `buildFilterParams`, as (name, value) pairs in order. */
  function FilterParams(f: FilterState, isoDay: Date -> string): seq<(Param, string)> {
    DateParams(f, isoDay) + ListParams(f) + SearchParams(f) + Tagged(AgeGroups, SelectedKeys(f))
  }

  function DateParams(f: FilterState, isoDay: Date -> string): seq<(Param, string)> {
    (if f.start.Some? then [(Start, isoDay(f.start.value))] else [])
    + (if f.end.Some? then [(End, isoDay(f.end.value))] else [])
  }

  function ListParams(f: FilterState): seq<(Param, string)> {
    (if !f.viewAllStates && |f.states| > 0 then Tagged(States, f.states) else [])
    + (if !f.viewAllDistricts && |f.districts| > 0 then Tagged(Districts, f.districts) else [])
  }

  function SearchParams(f: FilterState): seq<(Param, string)> {
    var q := Trim(f.searchQuery);
    if |q| > 0 then [(Search, q)] else []
  }

  function Tagged(name: Param, values: seq<string>): (r: seq<(Param, string)>)
    ensures |r| == |values|
  {
    seq(|values|, i requires 0 <= i < |values| => (name, values[i]))
  }

  /** `URLSearchParams.getAll(name)`: the values under a name, in order. */
  function ValuesOf(params: seq<(Param, string)>, name: Param): (r: seq<string>)
    ensures |r| <= |params|
  {
    if |params| == 0 then []
    else (if params[0].0 == name then [params[0].1] else []) + ValuesOf(params[1..], name)
  }

  /** `buildFilterParams`: each parameter set or appended in turn. Every `set` here
      writes a name not yet present, so it appends. */
  method BuildFilterParams(f: FilterState, isoDay: Date -> string) returns (params: seq<(Param, string)>)
    ensures params == FilterParams(f, isoDay)
  {
    params := AppendDates([], f, isoDay);
    assert params == DateParams(f, isoDay);
    params := AppendLists(params, f);
    params := AppendSearch(params, f);
    ghost var before := params;
    assert before == DateParams(f, isoDay) + ListParams(f) + SearchParams(f);
    var selAge := SelectedKeys(f);
    params := AppendAll(params, AgeGroups, selAge);
    assert params == before + Tagged(AgeGroups, SelectedKeys(f));
  }

  /** The date bounds, as ISO days, each only when set. */
  method AppendDates(init: seq<(Param, string)>, f: FilterState, isoDay: Date -> string) returns (params: seq<(Param, string)>)
    ensures params == init + DateParams(f, isoDay)
  {
    params := init;
    if f.start.Some? {
      params := params + [(Start, isoDay(f.start.value))];
    }
    if f.end.Some? {
      params := params + [(End, isoDay(f.end.value))];
    }
  }

  /** The trimmed search, only when it is not blank. */
  method AppendSearch(init: seq<(Param, string)>, f: FilterState) returns (params: seq<(Param, string)>)
    ensures params == init + SearchParams(f)
  {
    params := init;
    var q := Trim(f.searchQuery);
    if |q| > 0 {
      params := params + [(Search, q)];
    }
  }

  /** The state and district lists, each only when its "view all" is off and it is
      non-empty. */
  method AppendLists(init: seq<(Param, string)>, f: FilterState) returns (params: seq<(Param, string)>)
    ensures params == init + ListParams(f)
  {
    params := init;
    if !f.viewAllStates && |f.states| > 0 {
      params := AppendAll(params, States, f.states);
    }
    if !f.viewAllDistricts && |f.districts| > 0 {
      params := AppendAll(params, Districts, f.districts);
    }
  }

  /** `values.forEach((v) => params.append(name, v))`. */
  method AppendAll(init: seq<(Param, string)>, name: Param, values: seq<string>) returns (params: seq<(Param, string)>)
    ensures params == init + Tagged(name, values)
  {
    params := init;
    for i := 0 to |values|
      invariant params == init + Tagged(name, values[..i])
    {
      assert Tagged(name, values[..i + 1]) == Tagged(name, values[..i]) + [(name, values[i])];
      params := params + [(name, values[i])];
    }
    assert values[..|values|] == values;
  }

  lemma {:induction false} ValuesOfAppend(a: seq<(Param, string)>, b: seq<(Param, string)>, name: Param)
    ensures ValuesOf(a + b, name) == ValuesOf(a, name) + ValuesOf(b, name)
  {
    if |a| > 0 {
      assert (a + b)[1..] == a[1..] + b;
      ValuesOfAppend(a[1..], b, name);
    } else {
      assert a + b == b;
    }
  }

  lemma {:induction false} ValuesOfTagged(tag: Param, values: seq<string>, name: Param)
    ensures ValuesOf(Tagged(tag, values), name) == if tag == name then values else []
  {
    if |values| > 0 {
      assert Tagged(tag, values)[1..] == Tagged(tag, values[1..]);
      ValuesOfTagged(tag, values[1..], name);
    }
  }

  /** What the backend reads back under each name: a date bound only when it is set;
      the state and district lists only when "view all" is off; the trimmed search only
      when it is not blank; and the selected age groups, all three when none is
      selected, so never none. */
  function ReadBack(f: FilterState, isoDay: Date -> string, name: Param): seq<string> {
    match name
    case Start => if f.start.Some? then [isoDay(f.start.value)] else []
    case End => if f.end.Some? then [isoDay(f.end.value)] else []
    case States => if !f.viewAllStates then f.states else []
    case Districts => if !f.viewAllDistricts then f.districts else []
    case Search => if |Trim(f.searchQuery)| > 0 then [Trim(f.searchQuery)] else []
    case AgeGroups => SelectedKeys(f)
  }

  /** The query string carries exactly `ReadBack` under every name; in particular at
      least one age group. */
  lemma FilterParamsRead(f: FilterState, isoDay: Date -> string, name: Param)
    ensures ValuesOf(FilterParams(f, isoDay), name) == ReadBack(f, isoDay, name)
    ensures name == AgeGroups ==> |ValuesOf(FilterParams(f, isoDay), name)| > 0
  {
    if name == Start || name == End {
      DatesRead(f, isoDay, name);
    } else if name == States || name == Districts {
      ListsRead(f, isoDay, name);
    } else if name == Search {
      SearchRead(f, isoDay);
    } else {
      AgesRead(f, isoDay);
    }
  }

  lemma DatesRead(f: FilterState, isoDay: Date -> string, name: Param)
    requires name == Start || name == End
    ensures ValuesOf(FilterParams(f, isoDay), name) == ReadBack(f, isoDay, name)
  {
    var d := ValuesOf(DateParams(f, isoDay), name);
    assert ValuesOf(FilterParams(f, isoDay), name) == d by {
      ParamsSplit(f, isoDay, name);
      ListParamsRead(f, name);
      SearchParamsRead(f, isoDay, name);
      assert d + [] + [] + [] == d;
    }
    DateParamsRead(f, isoDay, name);
  }

  lemma ListsRead(f: FilterState, isoDay: Date -> string, name: Param)
    requires name == States || name == Districts
    ensures ValuesOf(FilterParams(f, isoDay), name) == ReadBack(f, isoDay, name)
  {
    var l := ValuesOf(ListParams(f), name);
    assert ValuesOf(FilterParams(f, isoDay), name) == l by {
      ParamsSplit(f, isoDay, name);
      DateParamsRead(f, isoDay, name);
      SearchParamsRead(f, isoDay, name);
      assert [] + l + [] + [] == l;
    }
    ListParamsRead(f, name);
  }

  lemma SearchRead(f: FilterState, isoDay: Date -> string)
    ensures ValuesOf(FilterParams(f, isoDay), Search) == ReadBack(f, isoDay, Search)
  {
    var q := ValuesOf(SearchParams(f), Search);
    assert ValuesOf(FilterParams(f, isoDay), Search) == q by {
      ParamsSplit(f, isoDay, Search);
      DateParamsRead(f, isoDay, Search);
      ListParamsRead(f, Search);
      assert [] + [] + q + [] == q;
    }
    SearchParamsRead(f, isoDay, Search);
  }

  lemma AgesRead(f: FilterState, isoDay: Date -> string)
    ensures ValuesOf(FilterParams(f, isoDay), AgeGroups) == ReadBack(f, isoDay, AgeGroups)
  {
    ParamsSplit(f, isoDay, AgeGroups);
    DateParamsRead(f, isoDay, AgeGroups);
    ListParamsRead(f, AgeGroups);
    SearchParamsRead(f, isoDay, AgeGroups);
    var a := SelectedKeys(f);
    assert [] + [] + [] + a == a;
  }

  lemma SearchParamsRead(f: FilterState, isoDay: Date -> string, name: Param)
    ensures ValuesOf(SearchParams(f), name) == if name == Search then ReadBack(f, isoDay, name) else []
  {
  }

  /** The values under one name, part by part. */
  lemma ParamsSplit(f: FilterState, isoDay: Date -> string, name: Param)
    ensures ValuesOf(FilterParams(f, isoDay), name)
      == ValuesOf(DateParams(f, isoDay), name) + ValuesOf(ListParams(f), name) + ValuesOf(SearchParams(f), name)
         + (if name == AgeGroups then SelectedKeys(f) else [])
  {
    var d, l, q, a := DateParams(f, isoDay), ListParams(f), SearchParams(f), Tagged(AgeGroups, SelectedKeys(f));
    ValuesOfAppend(d + l + q, a, name);
    ValuesOfAppend(d + l, q, name);
    ValuesOfAppend(d, l, name);
    ValuesOfTagged(AgeGroups, SelectedKeys(f), name);
  }

  lemma DateParamsRead(f: FilterState, isoDay: Date -> string, name: Param)
    ensures ValuesOf(DateParams(f, isoDay), name)
      == if name == Start || name == End then ReadBack(f, isoDay, name) else []
  {
    var a: seq<(Param, string)> := if f.start.Some? then [(Start, isoDay(f.start.value))] else [];
    var b: seq<(Param, string)> := if f.end.Some? then [(End, isoDay(f.end.value))] else [];
    ValuesOfAppend(a, b, name);
  }

  lemma ListParamsRead(f: FilterState, name: Param)
    ensures ValuesOf(ListParams(f), name)
      == match name {
           case States => if !f.viewAllStates then f.states else []
           case Districts => if !f.viewAllDistricts then f.districts else []
           case _ => []
         }
  {
    var a := if !f.viewAllStates && |f.states| > 0 then Tagged(States, f.states) else [];
    var b := if !f.viewAllDistricts && |f.districts| > 0 then Tagged(Districts, f.districts) else [];
    assert ListParams(f) == a + b;
    ValuesOfAppend(a, b, name);
    ValuesOfTagged(States, f.states, name);
    ValuesOfTagged(Districts, f.districts, name);
  }
}
