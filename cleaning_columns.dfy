/** The column handling in front of `clean_dataframe` and `clean_dataframe_with_report`
    (backend/cleaning.py): `_standardize_columns` strips and lower-cases every header and
    renames the known aliases; a frame that then lacks one of the required columns is
    rejected with `ValueError("Missing required columns: ...")`, listing them sorted. */
module CleaningColumns {
  import opened Common
  import opened Text
  import opened CleaningMerge
  import opened CleaningPipeline

  const DateCol := "date"
  const StateCol := "state"
  const DistrictCol := "district"
  const Age0To5Col := "age_0_5"
  const Age5To17Col := "age_5_17"
  const Age18PlusCol := "age_18_greater"

  /** The alias table of `_standardize_columns`. */
  const Aliases: seq<(string, string)> := [
    ("enrollment_date", DateCol),
    ("enrolment_date", DateCol),
    ("state_name", StateCol),
    ("district_name", DistrictCol),
    ("age_18_plus", Age18PlusCol),
    ("age_18+", Age18PlusCol)]

  /** `REQUIRED_COLS`, listed in `sorted()` order. */
  const Required: seq<string> := [Age0To5Col, Age18PlusCol, Age5To17Col, DateCol, DistrictCol, StateCol]

  predicate Ascending(s: seq<string>) {
    forall i, j :: 0 <= i < j < |s| ==> StrLt(s[i], s[j])
  }

  lemma RequiredAscending()
    ensures Ascending(Required)
  {
    var r := Required;
    assert StrLt(r[0], r[1]) && StrLt(r[1], r[2]) && StrLt(r[2], r[3]) && StrLt(r[3], r[4]) && StrLt(r[4], r[5]);
    forall i, j | 0 <= i < j < |r| ensures StrLt(r[i], r[j]) {
      var k := i;
      while k + 1 < j
        invariant i <= k < j
        invariant k > i ==> StrLt(r[i], r[k])
      {
        if k > i {
          StrLtTransitive(r[i], r[k], r[k + 1]);
        }
        k := k + 1;
      }
      if k > i {
        StrLtTransitive(r[i], r[k], r[j]);
      }
    }
  }

  /** Every alias names a required column, and no required name is itself an alias. */
  lemma AliasTableShape()
    ensures forall e :: e in Aliases ==> e.1 in Required && e.0 !in Required
  {
    assert |"enrollment_date"| == 15 && |"district_name"| == 13 && |"age_18_plus"| == 11;
    assert |"state_name"| == 10 && |"enrolment_date"| == 14 && |"age_18+"| == 7;
    assert |DateCol| == 4 && |StateCol| == 5 && |DistrictCol| == 8;
    assert |Age0To5Col| == 7 && |Age5To17Col| == 8 && |Age18PlusCol| == 14;
    assert "enrolment_date"[0] != Age18PlusCol[0];
    assert "age_18+"[4] != Age0To5Col[4];
  }

  /** The required names are already in standard form. */
  lemma RequiredCanonical()
    ensures forall c :: c in Required ==> IsTrimmed(c) && IsLowerCased(c)
  {
    assert IsLowerCased(DateCol) && IsLowerCased(StateCol) && IsLowerCased(DistrictCol);
    assert IsLowerCased(Age0To5Col) && IsLowerCased(Age5To17Col) && IsLowerCased(Age18PlusCol);
  }

  /** Lower-casing keeps whitespace where it is, so a trimmed string stays trimmed. */
  lemma LowerKeepsTrimmed(s: string)
    requires IsTrimmed(s)
    ensures IsTrimmed(Lower(s))
  {
    if |s| > 0 {
      assert Lower(s)[0] == ToLowerChar(s[0]);
      assert Lower(s)[|s| - 1] == ToLowerChar(s[|s| - 1]);
    }
  }

  /** The standard form of a header that is already stripped and lower-cased. */
  function Renamed(c: string): (r: string)
    ensures r == c || (c, r) in Aliases
    ensures r != c ==> r in Required
    ensures c in Required ==> r == c
  {
    AliasTableShape();
    match AssocGet(Aliases, c)
    case Some(v) => v
    case None => c
  }

  /** One header as `_standardize_columns` leaves it. */
  function StandardName(h: string): (r: string)
    ensures IsTrimmed(r) && IsLowerCased(r)
    ensures r == Lower(Trim(h)) || (Lower(Trim(h)), r) in Aliases
    ensures r != Lower(Trim(h)) ==> r in Required
    ensures Lower(Trim(h)) in Required ==> r == Lower(Trim(h))
  {
    var c := Lower(Trim(h));
    LowerKeepsTrimmed(Trim(h));
    LowerIsLowerCased(Trim(h));
    RequiredCanonical();
    Renamed(c)
  }

  /** `_standardize_columns` on the header row. */
  function StandardizeColumns(headers: seq<string>): (r: seq<string>)
    ensures |r| == |headers|
    ensures forall i :: 0 <= i < |r| ==> r[i] == StandardName(headers[i])
  {
    seq(|headers|, i requires 0 <= i < |headers| => StandardName(headers[i]))
  }

  /** A standardised header is its own standard form. */
  lemma StandardNameIdempotent(h: string)
    ensures StandardName(StandardName(h)) == StandardName(h)
  {
    var r := StandardName(h);
    TrimOfTrimmed(r);
    LowerOfLowerCased(r);
    assert Lower(Trim(r)) == r;
  }

  /** Standardising the headers twice is standardising them once. */
  lemma StandardizeIdempotent(headers: seq<string>)
    ensures StandardizeColumns(StandardizeColumns(headers)) == StandardizeColumns(headers)
  {
    forall i | 0 <= i < |headers| ensures StandardName(StandardName(headers[i])) == StandardName(headers[i]) {
      StandardNameIdempotent(headers[i]);
    }
  }

  /** The alias keys are pairwise different, so each key finds its own entry. */
  lemma AliasLookup(i: nat)
    requires i < |Aliases|
    ensures AssocGet(Aliases, Aliases[i].0) == Some(Aliases[i].1)
  {
    assert |Aliases[0].0| == 15 && |Aliases[1].0| == 14 && |Aliases[2].0| == 10;
    assert |Aliases[3].0| == 13 && |Aliases[4].0| == 11 && |Aliases[5].0| == 7;
    var k := Aliases[i].0;
    var j := 0;
    while j < i
      invariant j <= i
      invariant AssocGet(Aliases, k) == AssocGet(Aliases[j..], k)
    {
      assert Aliases[j].0 != k;
      assert Aliases[j..][1..] == Aliases[j + 1..];
      j := j + 1;
    }
  }

  /** Any spelling of an alias, in any letter case and with any surrounding whitespace,
      becomes the required column the alias stands for. */
  lemma AliasReachesRequired(h: string, i: nat)
    requires i < |Aliases| && Lower(Trim(h)) == Aliases[i].0
    ensures StandardName(h) == Aliases[i].1 && StandardName(h) in Required
  {
    AliasLookup(i);
    AliasTableShape();
    assert Aliases[i] in Aliases;
  }

  /** The names of `want` missing from `cols`, in `want`'s order. */
  function Absent(want: seq<string>, cols: seq<string>): (r: seq<string>)
    ensures forall c :: c in r <==> c in want && c !in cols
  {
    if |want| == 0 then []
    else (if want[0] !in cols then [want[0]] else []) + Absent(want[1..], cols)
  }

  /** Dropping names keeps an ascending list ascending. */
  lemma {:induction false} AbsentAscending(want: seq<string>, cols: seq<string>)
    requires Ascending(want)
    ensures Ascending(Absent(want, cols))
  {
    if |want| > 0 {
      var rest := Absent(want[1..], cols);
      assert Ascending(want[1..]);
      AbsentAscending(want[1..], cols);
      forall c | c in rest ensures StrLt(want[0], c) {
        var j :| 0 <= j < |want[1..]| && want[1..][j] == c;
        assert want[j + 1] == c;
      }
    }
  }

  /** `sorted(REQUIRED_COLS - set(df.columns))`: exactly the required names the
      headers lack, strictly ascending. */
  function MissingColumns(cols: seq<string>): (m: seq<string>)
    ensures forall c :: c in m <==> c in Required && c !in cols
    ensures Ascending(m)
  {
    RequiredAscending();
    AbsentAscending(Required, cols);
    Absent(Required, cols)
  }

  predicate HasRequired(cols: seq<string>) {
    forall c :: c in Required ==> c in cols
  }

  lemma MissingNoneIff(cols: seq<string>)
    ensures |MissingColumns(cols)| == 0 <==> HasRequired(cols)
  {
    var m := MissingColumns(cols);
    if |m| > 0 {
      assert m[0] in m;
    }
  }

  /** The outcome of a cleaner call: its result, or the `ValueError` it raises. */
  datatype Checked<T> = Accepted(value: T) | Rejected(message: string)

  /** The check both cleaners run first: the standardised header row, or the error
      naming the missing required columns. */
  function CheckColumns(headers: seq<string>): (r: Checked<seq<string>>)
    ensures r.Accepted? <==> HasRequired(StandardizeColumns(headers))
    ensures r.Accepted? ==> r.value == StandardizeColumns(headers)
    ensures r.Rejected? ==>
      r.message == "Missing required columns: " + Join(MissingColumns(StandardizeColumns(headers)), ", ")
    ensures r.Rejected? ==> |MissingColumns(StandardizeColumns(headers))| > 0
  {
    var cols := StandardizeColumns(headers);
    var missing := MissingColumns(cols);
    MissingNoneIff(cols);
    if |missing| > 0 then
      Rejected("Missing required columns: " + Join(missing, ", "))
    else
      Accepted(cols)
  }

  /** `clean_dataframe` on a frame with the given header row: rejected exactly when a
      required column is missing, otherwise the cleaned rows. `raw` holds the rows as
      read under the standardised headers. */
  function CleanTable(headers: seq<string>, raw: seq<RawRow>, parse: DateParser, merge: bool,
                      p: MergeParams, sim: Similarity): (r: Checked<seq<CleanRow>>)
    requires ValidParser(parse)
    ensures r.Rejected? <==> !HasRequired(StandardizeColumns(headers))
    ensures r.Accepted? ==> r.value == CleanDataframe(raw, parse, merge, p, sim)
  {
    match CheckColumns(headers)
    case Rejected(msg) => Rejected(msg)
    case Accepted(_) => Accepted(CleanDataframe(raw, parse, merge, p, sim))
  }

  /** `clean_dataframe_with_report` runs the same check before anything else. */
  function CleanTableWithReport(headers: seq<string>, raw: seq<RawRow>, parse: DateParser, merge: bool,
                                p: MergeParams, sim: Similarity): (r: Checked<(seq<CleanRow>, Report)>)
    requires ValidParser(parse)
    ensures r.Rejected? <==> !HasRequired(StandardizeColumns(headers))
    ensures r.Accepted? ==> r.value.0 == CleanDataframe(raw, parse, merge, p, sim)
    ensures r.Accepted? ==> ReportBalanced(r.value.1) && r.value.1 == ReportOf(raw, parse, merge, p, sim)
  {
    match CheckColumns(headers)
    case Rejected(msg) => Rejected(msg)
    case Accepted(_) =>
      ReportAccounts(raw, parse, merge, p, sim);
      Accepted((CleanDataframe(raw, parse, merge, p, sim), ReportOf(raw, parse, merge, p, sim)))
  }

  lemma OnlyOne(m: seq<string>, c: string)
    requires Ascending(m) && forall d :: d in m <==> d == c
    ensures m == [c]
  {
    assert c in m;
    if |m| > 1 {
      assert m[0] in m && m[1] in m;
      StrLtIrreflexive(c);
    }
  }

  /** A header row that lacks exactly one required column is rejected with a message
      naming that column alone. */
  lemma OneMissingNamed(headers: seq<string>, c: string)
    requires c in Required && c !in StandardizeColumns(headers)
    requires forall d :: d in Required && d != c ==> d in StandardizeColumns(headers)
    ensures CheckColumns(headers) == Rejected("Missing required columns: " + c)
  {
    var cols := StandardizeColumns(headers);
    var m := MissingColumns(cols);
    forall d ensures d in m <==> d == c {
      assert d in m <==> d in Required && d !in cols;
    }
    OnlyOne(m, c);
    assert Join(m, ", ") == c;
  }
}
