/** `filter_df` of backend/cleaning.py: the cleaned rows narrowed by optional date
    bounds, state and district lists, and whole-word search terms. */
module CleaningFilter {
  import opened Common
  import opened Text
  import opened Aggregates
  import opened CleaningPipeline

  /** The keyword arguments of `filter_df`. A missing list and an empty one are the
      same here: both are falsy and impose no condition. */
  datatype Query = Query(
    start: Option<string>,
    end: Option<string>,
    states: seq<string>,
    districts: seq<string>,
    search: Option<string>)

  /** A bound as `filter_df` uses it: absent when missing, empty or unparseable
      (`pd.to_datetime(..., errors="coerce")` giving NaT). */
  function Bound(parse: DateParser, b: Option<string>): (r: Option<Date>)
    ensures r.Some? <==> b.Some? && |b.value| > 0 && parse(b.value).Some?
    ensures r.Some? ==> r == parse(b.value)
  {
    if b.Some? && |b.value| > 0 then parse(b.value) else None
  }

  predicate AfterStart(lo: Option<Date>, r: CleanRow) {
    lo.None? || DateLe(lo.value, r.date)
  }

  predicate BeforeEnd(hi: Option<Date>, r: CleanRow) {
    hi.None? || DateLe(r.date, hi.value)
  }

  /** `isin(names)` behind an `if names:` guard. */
  predicate Listed(names: seq<string>, v: string) {
    |names| == 0 || v in names
  }

  /** The search terms: the whitespace-separated pieces of the stripped query. */
  function Terms(search: Option<string>): (r: seq<string>)
    ensures forall t :: t in r ==> |t| > 0 && forall k :: 0 <= k < |t| ==> !IsSpace(t[k])
    ensures search.None? ==> r == []
  {
    var q := Trim(if search.Some? then search.value else "");
    if |q| == 0 then [] else Words(q)
  }

  /** One term's mask: a whole-word, case-insensitive match in the state or the district. */
  predicate TermMatches(r: CleanRow, t: string) {
    HasWholeWord(r.state, t) || HasWholeWord(r.district, t)
  }

  predicate MatchesAll(r: CleanRow, terms: seq<string>) {
    forall k :: 0 <= k < |terms| ==> TermMatches(r, terms[k])
  }

  /** The condition a row must meet to stay. */
  predicate Keep(parse: DateParser, q: Query, r: CleanRow) {
    && AfterStart(Bound(parse, q.start), r)
    && BeforeEnd(Bound(parse, q.end), r)
    && Listed(q.states, r.state)
    && Listed(q.districts, r.district)
    && MatchesAll(r, Terms(q.search))
  }

  /** What `filter_df` returns: the rows meeting every condition, in their order. */
  function Filtered(parse: DateParser, q: Query, source: seq<CleanRow>): seq<CleanRow> {
    Filter(source, r => Keep(parse, q, r))
  }

  /** `filter_df` as the source runs it: each given condition narrows `out` in turn, and
      the search builds one mask per term and combines them with `&`. */
  method FilterDf(source: seq<CleanRow>, parse: DateParser, q: Query) returns (out: seq<CleanRow>)
    ensures out == Filtered(parse, q, source)
  {
    var lo := Bound(parse, q.start);
    var hi := Bound(parse, q.end);
    var terms := Terms(q.search);
    var f1 := (r: CleanRow) => AfterStart(lo, r);
    var f2 := (r: CleanRow) => BeforeEnd(hi, r);
    var f3 := (r: CleanRow) => Listed(q.states, r.state);
    var f4 := (r: CleanRow) => Listed(q.districts, r.district);
    var f5 := (r: CleanRow) => MatchesAll(r, terms);
    out := source;
    if lo.Some? {
      out := Filter(out, f1);
    } else {
      FilterAll(out, f1);
    }
    if hi.Some? {
      out := Filter(out, f2);
    } else {
      FilterAll(out, f2);
    }
    if |q.states| > 0 {
      out := Filter(out, f3);
    } else {
      FilterAll(out, f3);
    }
    if |q.districts| > 0 {
      out := Filter(out, f4);
    } else {
      FilterAll(out, f4);
    }
    if |terms| > 0 {
      var mask := SearchMask(out, terms);
      SelectIsFilter(out, mask, f5);
      out := Select(out, mask);
    } else {
      FilterAll(out, f5);
    }
    FilteredInStages(source, parse, q, f1, f2, f3, f4, f5);
  }

  /** The four narrowing steps and the search, composed, are the single filter. */
  lemma FilteredInStages(source: seq<CleanRow>, parse: DateParser, q: Query,
                         f1: CleanRow -> bool, f2: CleanRow -> bool, f3: CleanRow -> bool,
                         f4: CleanRow -> bool, f5: CleanRow -> bool)
    requires forall r :: f1(r) == AfterStart(Bound(parse, q.start), r)
    requires forall r :: f2(r) == BeforeEnd(Bound(parse, q.end), r)
    requires forall r :: f3(r) == Listed(q.states, r.state)
    requires forall r :: f4(r) == Listed(q.districts, r.district)
    requires forall r :: f5(r) == MatchesAll(r, Terms(q.search))
    ensures Filter(Filter(Filter(Filter(Filter(source, f1), f2), f3), f4), f5) == Filtered(parse, q, source)
  {
    var g2 := (r: CleanRow) => f1(r) && f2(r);
    var g3 := (r: CleanRow) => g2(r) && f3(r);
    var g4 := (r: CleanRow) => g3(r) && f4(r);
    var g5 := (r: CleanRow) => g4(r) && f5(r);
    FilterFilter(source, f1, f2, g2);
    FilterFilter(source, g2, f3, g3);
    FilterFilter(source, g3, f4, g4);
    FilterFilter(source, g4, f5, g5);
    FilterExt(source, g5, r => Keep(parse, q, r));
  }

  /** The per-term masks combined with `&`: `masks` is filled in one loop and folded in
      another. */
  method SearchMask(out: seq<CleanRow>, terms: seq<string>) returns (mask: seq<bool>)
    requires |terms| > 0
    ensures |mask| == |out|
    ensures forall i :: 0 <= i < |out| ==> (mask[i] <==> MatchesAll(out[i], terms))
  {
    var masks: seq<seq<bool>> := [];
    for k := 0 to |terms|
      invariant |masks| == k
      invariant forall j :: 0 <= j < k ==> |masks[j]| == |out|
      invariant forall j, i :: 0 <= j < k && 0 <= i < |out| ==> (masks[j][i] <==> TermMatches(out[i], terms[j]))
    {
      var m := seq(|out|, i requires 0 <= i < |out| => TermMatches(out[i], terms[k]));
      masks := masks + [m];
    }
    mask := masks[0];
    assert forall i :: 0 <= i < |out| ==> (mask[i] <==> TermMatches(out[i], terms[0]));
    for k := 1 to |masks|
      invariant |mask| == |out|
      invariant forall i :: 0 <= i < |out| ==> (mask[i] <==> forall j :: 0 <= j < k ==> TermMatches(out[i], terms[j]))
    {
      var prev := mask;
      mask := seq(|out|, i requires 0 <= i < |out| => prev[i] && masks[k][i]);
      forall i | 0 <= i < |out|
        ensures mask[i] <==> forall j :: 0 <= j < k + 1 ==> TermMatches(out[i], terms[j])
      {
        assert mask[i] == (prev[i] && TermMatches(out[i], terms[k]));
      }
    }
  }

  /** A row stays exactly when it is an input row after the start bound (if one parsed),
      before the end bound (if one parsed), in the state and district lists (if
      non-empty), and matching every search term in its state or its district. */
  lemma FilteredMembers(parse: DateParser, q: Query, source: seq<CleanRow>, r: CleanRow)
    ensures r in Filtered(parse, q, source) <==>
      && r in source
      && (q.start.Some? && |q.start.value| > 0 && parse(q.start.value).Some? ==> DateLe(parse(q.start.value).value, r.date))
      && (q.end.Some? && |q.end.value| > 0 && parse(q.end.value).Some? ==> DateLe(r.date, parse(q.end.value).value))
      && (|q.states| > 0 ==> r.state in q.states)
      && (|q.districts| > 0 ==> r.district in q.districts)
      && (forall t :: t in Terms(q.search) ==> HasWholeWord(r.state, t) || HasWholeWord(r.district, t))
  {
    assert r in Filtered(parse, q, source) <==> r in source && Keep(parse, q, r);
    KeepMeans(parse, q, r);
  }

  lemma KeepMeans(parse: DateParser, q: Query, r: CleanRow)
    ensures Keep(parse, q, r) <==>
      && (q.start.Some? && |q.start.value| > 0 && parse(q.start.value).Some? ==> DateLe(parse(q.start.value).value, r.date))
      && (q.end.Some? && |q.end.value| > 0 && parse(q.end.value).Some? ==> DateLe(r.date, parse(q.end.value).value))
      && (|q.states| > 0 ==> r.state in q.states)
      && (|q.districts| > 0 ==> r.district in q.districts)
      && (forall t :: t in Terms(q.search) ==> HasWholeWord(r.state, t) || HasWholeWord(r.district, t))
  {
    MatchesAllMeans(r, Terms(q.search));
  }

  lemma MatchesAllMeans(r: CleanRow, terms: seq<string>)
    ensures MatchesAll(r, terms) <==> forall t :: t in terms ==> TermMatches(r, t)
  {
    if MatchesAll(r, terms) {
      forall t | t in terms ensures TermMatches(r, t) {
        var k :| 0 <= k < |terms| && terms[k] == t;
      }
    }
  }

  /** An unparseable start bound is ignored, exactly as if none were given; the end
      bound plays no part in it. */
  lemma UnparseableStartIgnored(parse: DateParser, q: Query, source: seq<CleanRow>)
    requires q.start.Some? && parse(q.start.value).None?
    ensures Filtered(parse, q, source) == Filtered(parse, q.(start := None), source)
  {
    var q' := q.(start := None);
    assert Bound(parse, q.start) == Bound(parse, q'.start);
    forall r ensures Keep(parse, q, r) == Keep(parse, q', r) {
    }
    FilterExt(source, r => Keep(parse, q, r), r => Keep(parse, q', r));
  }

  /** An unparseable end bound is ignored, exactly as if none were given. */
  lemma UnparseableEndIgnored(parse: DateParser, q: Query, source: seq<CleanRow>)
    requires q.end.Some? && parse(q.end.value).None?
    ensures Filtered(parse, q, source) == Filtered(parse, q.(end := None), source)
  {
    var q' := q.(end := None);
    assert Bound(parse, q.end) == Bound(parse, q'.end);
    forall r ensures Keep(parse, q, r) == Keep(parse, q', r) {
    }
    FilterExt(source, r => Keep(parse, q, r), r => Keep(parse, q', r));
  }

  /** With no condition at all the source comes back unchanged. */
  lemma EmptyQueryKeepsAll(parse: DateParser, source: seq<CleanRow>)
    ensures Filtered(parse, Query(None, None, [], [], None), source) == source
  {
    var q := Query(None, None, [], [], None);
    assert Terms(q.search) == [];
    forall r ensures Keep(parse, q, r) {
    }
    FilterAll(source, r => Keep(parse, q, r));
  }

  /** Filtering a second time with the same query changes nothing. */
  lemma FilteredIdempotent(parse: DateParser, q: Query, source: seq<CleanRow>)
    ensures Filtered(parse, q, Filtered(parse, q, source)) == Filtered(parse, q, source)
  {
    FilterIdempotent(source, r => Keep(parse, q, r));
  }
}
