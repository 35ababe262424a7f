/** The filter panel (uidai-dashboard/src/components/Filters.jsx): the state and
    district option lists, their count labels and search restriction, and the updaters
    of the age-group checkboxes and the two "view all" checkboxes. */
module FiltersPanel {
  import opened Common
  import opened Text
  import opened Aggregates
  import opened DashboardFilters

  /** A name kept after trimming: non-empty and not "unknown" in any letter case. */
  predicate Named(s: string) {
    |s| > 0 && Lower(s) != "unknown"
  }

  predicate NotAllDigits(s: string) {
    !IsDigits(s)
  }

  /** An option shown in a list. */
  predicate Usable(s: string) {
    Named(s) && NotAllDigits(s)
  }

  /** The chain shared by both lists: keep the named, de-duplicate, drop the
      all-digit ones, sort. */
  function Options(names: seq<string>): (r: seq<string>)
    ensures forall s :: s in r <==> s in names && Usable(s)
    ensures forall i, j :: 0 <= i < j < |r| ==> StrLt(r[i], r[j])
  {
    var d := Filter(Distinct(Filter(names, Named)), NotAllDigits);
    FilterNoRepeats(Distinct(Filter(names, Named)), NotAllDigits);
    SortedOptions(d);
    SortStrings(d)
  }

  /** Sorting a list without repeats gives a strictly ascending list of the same names. */
  lemma SortedOptions(d: seq<string>)
    requires forall i, j :: 0 <= i < j < |d| ==> d[i] != d[j]
    ensures forall s :: s in SortStrings(d) <==> s in d
    ensures forall i, j :: 0 <= i < j < |SortStrings(d)| ==> StrLt(SortStrings(d)[i], SortStrings(d)[j])
  {
    var r := SortStrings(d);
    forall s ensures s in r <==> s in d {
      assert s in r <==> s in multiset(r);
      assert s in d <==> s in multiset(d);
    }
    NoRepeatsOfPermutation(d, r);
    SortedDistinctAscending(r);
  }

  /** The trimmed state of each row. */
  function StateNames(data: seq<Row>): (r: seq<string>)
    ensures forall s :: s in r <==> exists x :: x in data && Trim(x.state) == s
  {
    var r := seq(|data|, i requires 0 <= i < |data| => Trim(data[i].state));
    assert forall i :: 0 <= i < |data| ==> r[i] == Trim(data[i].state);
    r
  }

  /** The rows whose districts are offered: all of them under "view all states", else
      those of the selected states. */
  predicate OffersDistricts(f: FilterState, x: Row) {
    f.viewAllStates || x.state in f.states
  }

  /** The trimmed district of each offered row. */
  function DistrictNames(data: seq<Row>, f: FilterState): (r: seq<string>)
    ensures forall s :: s in r <==> exists x :: x in data && OffersDistricts(f, x) && Trim(x.district) == s
  {
    var rows := Filter(data, x => OffersDistricts(f, x));
    var r := seq(|rows|, i requires 0 <= i < |rows| => Trim(rows[i].district));
    DistrictNamesFrom(data, f, rows, r);
    r
  }

  lemma DistrictNamesFrom(data: seq<Row>, f: FilterState, rows: seq<Row>, r: seq<string>)
    requires forall x :: x in rows <==> x in data && OffersDistricts(f, x)
    requires |r| == |rows| && forall i :: 0 <= i < |rows| ==> r[i] == Trim(rows[i].district)
    ensures forall s :: s in r <==> exists x :: x in data && OffersDistricts(f, x) && Trim(x.district) == s
  {
    forall s ensures s in r <==> exists x :: x in data && OffersDistricts(f, x) && Trim(x.district) == s {
      if s in r {
        var i :| 0 <= i < |r| && r[i] == s;
        assert rows[i] in rows;
      }
      if exists x :: x in data && OffersDistricts(f, x) && Trim(x.district) == s {
        var x :| x in data && OffersDistricts(f, x) && Trim(x.district) == s;
        var i :| 0 <= i < |rows| && rows[i] == x;
        assert r[i] == s;
      }
    }
  }

  /** `uniqueStatesAll`. */
  function StateOptions(data: seq<Row>): seq<string> {
    Options(StateNames(data))
  }

  /** `uniqueDistrictsAll`. */
  function DistrictOptions(data: seq<Row>, f: FilterState): seq<string> {
    Options(DistrictNames(data, f))
  }

  /** The state options are strictly ascending (so sorted and without repeats), and
      are exactly the usable trimmed states of the rows. */
  lemma StateOptionsSpec(data: seq<Row>)
    ensures var r := StateOptions(data);
      && (forall i, j :: 0 <= i < j < |r| ==> StrLt(r[i], r[j]))
      && (forall s :: s in r <==> Usable(s) && exists x :: x in data && Trim(x.state) == s)
  {
  }

  /** The district options are strictly ascending and are exactly the usable trimmed
      districts of the offered rows: every row under "view all states", otherwise only
      rows of a selected state. */
  lemma DistrictOptionsSpec(data: seq<Row>, f: FilterState)
    ensures var r := DistrictOptions(data, f);
      && (forall i, j :: 0 <= i < j < |r| ==> StrLt(r[i], r[j]))
      && (forall s :: s in r <==> Usable(s) && exists x :: x in data && OffersDistricts(f, x) && Trim(x.district) == s)
  {
  }

  /** With "view all states" off and no state selected, no district is offered. */
  lemma NoStatesNoDistricts(data: seq<Row>, f: FilterState)
    requires !f.viewAllStates && |f.states| == 0
    ensures DistrictOptions(data, f) == []
  {
    FilterNone(data, x => OffersDistricts(f, x));
  }

  /** The count beside "View All": `labelCounts` when it is a finite number, else the
      length of the option list. */
  function CountLabel(labelCount: Option<real>, options: seq<string>): (r: real)
    ensures labelCount.None? ==> r == |options| as real
    ensures labelCount.Some? ==> r == labelCount.value
  {
    if labelCount.Some? then labelCount.value else |options| as real
  }

  /** With no count from the backend, the state label counts the distinct usable trimmed
      state names. */
  lemma StateCountLabelDefault(data: seq<Row>)
    ensures CountLabel(None, StateOptions(data)) == |StateOptions(data)| as real
    ensures |StateOptions(data)| <= |data|
  {
    var names := StateNames(data);
    var d := Filter(Distinct(Filter(names, Named)), NotAllDigits);
    assert |names| == |data|;
    assert multiset(StateOptions(data)) == multiset(d);
    assert |StateOptions(data)| == |multiset(d)| == |d|;
  }

  /** A non-blank search keeps the options that match it word for word. */
  function SearchRestricted(options: seq<string>, query: string): (r: seq<string>)
    ensures |Trim(query)| == 0 ==> r == options
    ensures forall s :: s in r <==> s in options && MatchesWholeWords(s, query)
    ensures (forall i, j :: 0 <= i < j < |options| ==> StrLt(options[i], options[j]))
      ==> forall i, j :: 0 <= i < j < |r| ==> StrLt(r[i], r[j])
  {
    var q := Trim(query);
    TrimTwice(query);
    if |q| == 0 then options else Matching(options, q)
  }

  /** The options matching a query word for word, in order. */
  function Matching(options: seq<string>, q: string): (r: seq<string>)
    ensures forall s :: s in r <==> s in options && MatchesWholeWords(s, q)
    ensures (forall i, j :: 0 <= i < j < |options| ==> StrLt(options[i], options[j]))
      ==> forall i, j :: 0 <= i < j < |r| ==> StrLt(r[i], r[j])
  {
    var p := (s: string) => MatchesWholeWords(s, q);
    FilterAscending(options, p);
    Filter(options, p)
  }

  lemma TrimTwice(s: string)
    ensures Trim(Trim(s)) == Trim(s)
  {
    TrimOfTrimmed(Trim(s));
  }

  /** Filtering keeps a strictly ascending list strictly ascending. */
  lemma {:induction false} FilterAscending(s: seq<string>, p: string -> bool)
    ensures (forall i, j :: 0 <= i < j < |s| ==> StrLt(s[i], s[j]))
      ==> forall i, j :: 0 <= i < j < |Filter(s, p)| ==> StrLt(Filter(s, p)[i], Filter(s, p)[j])
  {
    if |s| > 0 && forall i, j :: 0 <= i < j < |s| ==> StrLt(s[i], s[j]) {
      assert forall i, j :: 0 <= i < j < |s[1..]| ==> StrLt(s[1..][i], s[1..][j]) by {
        forall i, j | 0 <= i < j < |s[1..]| ensures StrLt(s[1..][i], s[1..][j]) {
          assert s[1..][i] == s[i + 1] && s[1..][j] == s[j + 1];
        }
      }
      FilterAscending(s[1..], p);
      var rest := Filter(s[1..], p);
      assert Filter(s, p) == (if p(s[0]) then [s[0]] else []) + rest;
      forall j | 0 <= j < |rest| ensures StrLt(s[0], rest[j]) {
        assert rest[j] in rest;
        var q :| 0 <= q < |s[1..]| && s[1..][q] == rest[j];
        assert s[q + 1] == rest[j];
      }
    }
  }

  /** The age checkbox updater: checking adds the key (the list de-duplicated, the key
      last if new), unchecking removes it; a change that would leave nothing selected
      keeps the previous list. */
  function ToggleAge(prev: seq<string>, key: string, checked: bool): (r: seq<string>)
  {
    var next := if checked then Distinct(prev + [key]) else Filter(prev, k => k != key);
    if |next| == 0 then prev else next
  }

  /** Checking a box selects its key, keeps every earlier selection, adds nothing else,
      and leaves no repeats. */
  lemma ToggleAgeChecked(prev: seq<string>, key: string)
    ensures var r := ToggleAge(prev, key, true);
      && key in r
      && (forall k :: k in r <==> k in prev || k == key)
      && (forall i, j :: 0 <= i < j < |r| ==> r[i] != r[j])
  {
    assert key in prev + [key];
  }

  /** Unchecking a box drops its key and keeps the rest in order, unless nothing else was
      selected: then the selection stays as it was. */
  lemma ToggleAgeUnchecked(prev: seq<string>, key: string)
    ensures var r := ToggleAge(prev, key, false);
      && ((exists k :: k in prev && k != key) ==> r == Filter(prev, k => k != key) && key !in r)
      && ((forall k :: k in prev ==> k == key) ==> r == prev)
  {
    var next := Filter(prev, k => k != key);
    if exists k :: k in prev && k != key {
      var k :| k in prev && k != key;
      assert k in next;
    } else {
      FilterNone(prev, k => k != key);
    }
  }

  /** A selection that is not empty stays non-empty through any toggle. */
  lemma ToggleAgeKeepsOne(prev: seq<string>, key: string, checked: bool)
    requires |prev| > 0
    ensures |ToggleAge(prev, key, checked)| > 0
  {
  }

  /** The "View All States" updater: checking it also clears the state list. */
  function SetViewAllStates(f: FilterState, checked: bool): (r: FilterState)
    ensures r.viewAllStates == checked
    ensures checked ==> r.states == []
    ensures !checked ==> r.states == f.states
    ensures r.(viewAllStates := f.viewAllStates, states := f.states) == f
  {
    f.(viewAllStates := checked, states := if checked then [] else f.states)
  }

  /** The "View All Districts" updater: checking it also clears the district list. */
  function SetViewAllDistricts(f: FilterState, checked: bool): (r: FilterState)
    ensures r.viewAllDistricts == checked
    ensures checked ==> r.districts == []
    ensures !checked ==> r.districts == f.districts
    ensures r.(viewAllDistricts := f.viewAllDistricts, districts := f.districts) == f
  {
    f.(viewAllDistricts := checked, districts := if checked then [] else f.districts)
  }

  /** Checking "View All States" and unchecking it again leaves an empty state list, so
      the dashboard then shows no rows until a state is picked. */
  lemma ViewAllStatesRoundTrip(data: seq<Row>, f: FilterState)
    requires |data| > 0
    ensures var g := SetViewAllStates(SetViewAllStates(f, true), false);
      g.states == [] && ApplyFilters(data, g) == Some([])
  {
    EmptySelectionExcludesAll(data, SetViewAllStates(SetViewAllStates(f, true), false));
  }

  /** The same for "View All Districts". */
  lemma ViewAllDistrictsRoundTrip(data: seq<Row>, f: FilterState)
    requires |data| > 0
    ensures var g := SetViewAllDistricts(SetViewAllDistricts(f, true), false);
      g.districts == [] && ApplyFilters(data, g) == Some([])
  {
    EmptySelectionExcludesAll(data, SetViewAllDistricts(SetViewAllDistricts(f, true), false));
  }
}
