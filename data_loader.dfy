/** The browser-side loader of uidai-dashboard/src/utils/dataLoader.js: its copies of
    the state and district normalisers and the `cleanData` row preparation. A missing
    or empty cell (a falsy value) is `None` or the empty string. */
module DataLoader {
  import opened Common
  import opened Text
  import opened Aggregates
  import opened CleaningNames
  import opened CleaningPipeline

  /** `normalizeState` of the loader. Unlike the backend, a non-empty cell of only
      whitespace passes the falsy test, fails the digits test, and ends as "". */
  function NormalizeStateJs(v: Option<string>): (r: string)
    ensures v.None? || |v.value| == 0 || IsDigits(Trim(v.value)) ==> r == "Unknown"
    ensures v.Some? && |v.value| > 0 && Trim(v.value) == [] ==> r == ""
    ensures v.Some? && Trim(v.value) != [] && !IsDigits(Trim(v.value)) ==>
      var k := StateKey(Trim(v.value));
      match AssocGet(StateAliases, k)
      case Some(a) => r == a
      case None => Lower(r) == k && TitledWords(r, {"and", "of"})
  {
    if v.None? || |v.value| == 0 then "Unknown"
    else
      var t := Trim(v.value);
      if IsDigits(t) then "Unknown"
      else if |t| == 0 then ""
      else
        var k := StateKey(t);
        match AssocGet(StateAliases, k)
        case Some(a) => a
        case None =>
          StateExemptLower();
          TitleWordsShape(k, {"and", "of"});
          Join(TitleAll(Split(k, ' '), {"and", "of"}), " ")
  }

  /** The loader's state normaliser agrees with the backend's on every cell except a
      non-empty cell of only whitespace, which the loader maps to "" and the backend to
      "Unknown". */
  lemma StateCopiesAgree(v: Option<string>)
    ensures NormalizeStateJs(v) == NormalizeState(v) <==> !(v.Some? && |v.value| > 0 && Trim(v.value) == [])
  {
    if v.Some? && |v.value| > 0 {
      var t := Trim(v.value);
      if |t| > 0 && !IsDigits(t) {
        StateCopiesAgreeNamed(v.value);
      }
    } else if v.Some? {
      TrimEmptyIffBlank(v.value);
    }
  }

  lemma StateCopiesAgreeNamed(s: string)
    requires Trim(s) != [] && !IsDigits(Trim(s))
    ensures NormalizeStateJs(Some(s)) == NormalizeState(Some(s))
  {
    if AssocGet(StateAliases, StateKey(Trim(s))).None? {
      JsStateTitled(s);
      BackendStateTitled(s);
    }
  }

  /** A name with no alias is title-cased word by word by the loader. */
  lemma JsStateTitled(s: string)
    requires Trim(s) != [] && !IsDigits(Trim(s)) && AssocGet(StateAliases, StateKey(Trim(s))).None?
    ensures NormalizeStateJs(Some(s)) == Join(TitleAll(Split(StateKey(Trim(s)), ' '), {"and", "of"}), " ")
  {
  }

  /** A name with no alias is title-cased word by word by the backend as well: the key
      has no empty words to drop and its title form is never empty. */
  lemma BackendStateTitled(s: string)
    requires Trim(s) != [] && !IsDigits(Trim(s)) && AssocGet(StateAliases, StateKey(Trim(s))).None?
    ensures NormalizeState(Some(s)) == Join(TitleAll(Split(StateKey(Trim(s)), ' '), {"and", "of"}), " ")
  {
    KeyTitleNonEmpty(StateKey(Trim(s)));
  }

  /** The words of a state key need no filtering, and their title form is not empty. */
  lemma KeyTitleNonEmpty(k: string)
    requires |k| > 0 && Collapsed(k) && IsTrimmed(k) && IsLowerCased(k)
    ensures NonEmpty(Split(k, ' ')) == Split(k, ' ')
    ensures |Join(TitleAll(Split(k, ' '), {"and", "of"}), " ")| > 0
  {
    StateExemptLower();
    TitleWordsShape(k, {"and", "of"});
    var titled := Join(TitleAll(Split(k, ' '), {"and", "of"}), " ");
    assert |Lower(titled)| == |k|;
  }

  /** `normalizeDistrict` of the loader: trimmed, whitespace runs made one space. The
      characters other than whitespace are kept, in order. */
  function NormalizeDistrictJs(v: Option<string>): (r: string)
    ensures Collapsed(r) && IsTrimmed(r)
    ensures v.None? || |v.value| == 0 ==> r == "Unknown"
    ensures v.Some? && |v.value| > 0 ==> |r| <= |v.value| && (|r| == 0 <==> Trim(v.value) == [])
    ensures v.Some? && |v.value| > 0 ==> Kept(r, Blanks) == Kept(v.value, Blanks)
  {
    if v.None? || |v.value| == 0 then "Unknown"
    else
      var t := Trim(v.value);
      CollapsedTrimmedSpaces(t);
      TrimKeeps(v.value, Blanks);
      CollapseKeeps(t, Blanks);
      CollapseWs(t)
  }

  /** Normalising a district name a second time changes nothing, except for a cell of
      only whitespace: it becomes "", which is falsy and so becomes "Unknown". */
  lemma DistrictJsIdempotent(v: Option<string>)
    ensures NormalizeDistrictJs(Some(NormalizeDistrictJs(v))) == NormalizeDistrictJs(v)
      <==> !(v.Some? && |v.value| > 0 && Trim(v.value) == [])
  {
    var r := NormalizeDistrictJs(v);
    if |r| > 0 {
      TrimOfTrimmed(r);
      CollapseOfCollapsed(r);
    }
  }

  /** A row of the loader's input: the date, state and district text (`None` when
      missing) and the ages as `parseFloat` reads them (`None` for NaN). */
  datatype SourceRow = SourceRow(
    date: Option<string>,
    state: Option<string>,
    district: Option<string>,
    age0To5: Option<real>,
    age5To17: Option<real>,
    age18Plus: Option<real>)

  /** A row of `cleanData`'s output. */
  datatype LoadedRow = LoadedRow(
    date: Date,
    age0To5: real,
    age5To17: real,
    age18Plus: real,
    total: real,
    year: int,
    month: string,
    dayOfWeek: string,
    state: string,
    district: string)

  predicate Truthy(v: Option<string>) {
    v.Some? && |v.value| > 0
  }

  /** `row && row.date && row.state && row.district`. */
  predicate Complete(r: SourceRow) {
    Truthy(r.date) && Truthy(r.state) && Truthy(r.district)
  }

  const SampleSize: nat := 10000

  /** The rows at indices 0, step, 2*step, ... (`filter((_, idx) => idx % step === 0)`). */
  function EveryNth<T>(s: seq<T>, step: nat): (r: seq<T>)
    requires step > 0
    ensures |r| <= |s| && forall x :: x in r ==> x in s
    decreases |s|
  {
    if |s| == 0 then [] else [s[0]] + EveryNth(s[MinInt(step, |s|)..], step)
  }

  /** EveryNth keeps ceil(|s| / step) rows: the least count c with c * step >= |s|. */
  lemma {:induction false} EveryNthLength<T>(s: seq<T>, step: nat)
    requires step > 0
    ensures |s| <= |EveryNth(s, step)| * step
    ensures |EveryNth(s, step)| == 0 || (|EveryNth(s, step)| - 1) * step < |s|
    decreases |s|
  {
    if |s| > 0 {
      var rest := s[MinInt(step, |s|)..];
      EveryNthLength(rest, step);
      var r := EveryNth(s, step);
      assert |r| == |EveryNth(rest, step)| + 1;
      MulPred(|r|, step);
    }
  }

  /** Row j of EveryNth is row j * step of the input: the rows whose index is a multiple
      of the step, in order. */
  lemma {:induction false} EveryNthIndex<T>(s: seq<T>, step: nat)
    requires step > 0
    ensures forall j :: 0 <= j < |EveryNth(s, step)| ==> j * step < |s| && EveryNth(s, step)[j] == s[j * step]
    decreases |s|
  {
    if |s| > 0 {
      var m := MinInt(step, |s|);
      var rest := s[m..];
      EveryNthIndex(rest, step);
      var r := EveryNth(s, step);
      assert r == [s[0]] + EveryNth(rest, step);
      forall j | 0 <= j < |r| ensures j * step < |s| && r[j] == s[j * step] {
        if j > 0 {
          assert r[j] == EveryNth(rest, step)[j - 1];
          ShiftedPick(s, step, j);
        }
      }
    }
  }

  /** Index j - 1 past the first step rows is index j of the whole. */
  lemma ShiftedPick<T>(s: seq<T>, step: nat, j: nat)
    requires 0 < step && 0 < j
    requires (j - 1) * step < |s| - MinInt(step, |s|)
    ensures j * step < |s| && s[MinInt(step, |s|)..][(j - 1) * step] == s[j * step]
  {
    MulPred(j, step);
  }

  lemma MulPred(j: nat, step: nat)
    requires j > 0
    ensures j * step == (j - 1) * step + step
  {
  }

  /** The sample: every step-th row when `step = floor(n / 10000)` exceeds 1, otherwise
      every row. */
  function Sampled<T>(s: seq<T>): (r: seq<T>)
    ensures |r| <= |s| && forall x :: x in r ==> x in s
    ensures |s| < 2 * SampleSize ==> r == s
  {
    var step := |s| / SampleSize;
    if step > 1 then EveryNth(s, step) else s
  }

  /** With at least 20000 rows the sample is the rows at the multiples of the step, and
      there are ceil(n / step) of them. */
  lemma SampledPicks<T>(s: seq<T>)
    requires |s| >= 2 * SampleSize
    ensures var step := |s| / SampleSize;
      && step > 1
      && |s| <= |Sampled(s)| * step && (|Sampled(s)| - 1) * step < |s|
      && forall j :: 0 <= j < |Sampled(s)| ==> j * step < |s| && Sampled(s)[j] == s[j * step]
  {
    var step := |s| / SampleSize;
    assert step > 1;
    EveryNthLength(s, step);
    EveryNthIndex(s, step);
  }

  /** Element i of a split, or the text "undefined" that a missing element prints as. */
  function JsPart(parts: seq<string>, i: nat): string {
    if i < |parts| then parts[i] else "undefined"
  }

  /** The date of a row: with a '-', the parts are reordered to year-month-day first and
      the text itself is the fallback; otherwise the text is parsed as it is. */
  function RowDate(parse: DateParser, d: string): (r: Option<Date>)
    ensures '-' !in d ==> r == parse(d)
    ensures r.Some? ==> r == parse(d) || ('-' in d && r == parse(Reordered(d)))
    ensures '-' in d && parse(Reordered(d)).Some? ==> r == parse(Reordered(d))
  {
    if '-' in d then
      var a := parse(Reordered(d));
      if a.Some? then a else parse(d)
    else parse(d)
  }

  function Reordered(d: string): string {
    var parts := Split(d, '-');
    JsPart(parts, 2) + "-" + JsPart(parts, 1) + "-" + JsPart(parts, 0)
  }

  /** `parseFloat(x) || 0`. */
  function AgeOrZero(v: Option<real>): real {
    if v.Some? then v.value else 0.0
  }

  /** The per-row step of `cleanData`: None for an unparseable date. */
  function ProcessRow(parse: DateParser, monthLabel: Date -> string, r: SourceRow): (x: Option<LoadedRow>)
    requires ValidParser(parse) && Complete(r)
    ensures x.Some? <==> RowDate(parse, r.date.value).Some?
    ensures x.Some? ==>
      && x.value.date == RowDate(parse, r.date.value).value
      && x.value.total == x.value.age0To5 + x.value.age5To17 + x.value.age18Plus
      && x.value.year == x.value.date.year
      && x.value.state == Trim(r.state.value) && x.value.district == Trim(r.district.value)
  {
    match RowDate(parse, r.date.value)
    case None => None
    case Some(date) =>
      var a0 := AgeOrZero(r.age0To5);
      var a5 := AgeOrZero(r.age5To17);
      var a18 := AgeOrZero(r.age18Plus);
      Some(LoadedRow(date, a0, a5, a18, a0 + a5 + a18, date.year, monthLabel(date),
        DayNames[IsoWeekday(date) - 1], Trim(r.state.value), Trim(r.district.value)))
  }

  /** The complete row `y` is processed into `x` and kept. */
  predicate Keeps(parse: DateParser, monthLabel: Date -> string, y: SourceRow, x: LoadedRow)
    requires ValidParser(parse) && Complete(y)
  {
    ProcessRow(parse, monthLabel, y) == Some(x) && x.total >= 0.0
  }

  /** The processed rows kept by `.filter(row => row !== null && row.total_enrolments >= 0)`. */
  function ProcessAll(parse: DateParser, monthLabel: Date -> string, rows: seq<SourceRow>): (r: seq<LoadedRow>)
    requires ValidParser(parse) && forall y :: y in rows ==> Complete(y)
    ensures |r| <= |rows|
    ensures forall x :: x in r <==> exists y :: y in rows && Keeps(parse, monthLabel, y, x)
  {
    if |rows| == 0 then []
    else
      var x := ProcessRow(parse, monthLabel, rows[0]);
      assert forall y :: y in rows <==> y == rows[0] || y in rows[1..] by {
        assert rows == [rows[0]] + rows[1..];
      }
      var rest := ProcessAll(parse, monthLabel, rows[1..]);
      (if x.Some? && x.value.total >= 0.0 then [x.value] else []) + rest
  }

  /** `cleanData`: complete rows, sampled, parsed, with their totals; an empty result is
      the empty list either way. */
  function CleanData(parse: DateParser, monthLabel: Date -> string, data: seq<SourceRow>): seq<LoadedRow>
    requires ValidParser(parse)
  {
    var cleaned := Filter(data, Complete);
    ProcessAll(parse, monthLabel, Sampled(cleaned))
  }

  /** Every loaded row comes from a complete input row whose date parsed; its total is
      the sum of its three ages and is not negative; its names are the trimmed cells. */
  lemma CleanDataRows(parse: DateParser, monthLabel: Date -> string, data: seq<SourceRow>)
    requires ValidParser(parse)
    ensures var out := CleanData(parse, monthLabel, data);
      && |out| <= |data|
      && forall x :: x in out ==>
        && x.total == x.age0To5 + x.age5To17 + x.age18Plus && x.total >= 0.0
        && exists r :: r in data && Complete(r) && ProcessRow(parse, monthLabel, r) == Some(x)
  {
  }

  /** Below 20000 complete rows nothing is sampled away: a complete row is loaded
      exactly when its date parses and its total is not negative. */
  lemma CleanDataUnsampled(parse: DateParser, monthLabel: Date -> string, data: seq<SourceRow>)
    requires ValidParser(parse)
    requires |Filter(data, Complete)| < 2 * SampleSize
    ensures forall x :: x in CleanData(parse, monthLabel, data) <==>
      exists r :: r in data && Complete(r) && ProcessRow(parse, monthLabel, r) == Some(x) && x.total >= 0.0
  {
    var cleaned := Filter(data, Complete);
    assert CleanData(parse, monthLabel, data) == ProcessAll(parse, monthLabel, cleaned);
  }
}
