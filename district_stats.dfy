/** scripts/district_stats.py: the cleaned rows grouped by district name (number of rows
    and summed total per district, in first-seen order), the number of districts reaching
    a row or total threshold, and the search for the total threshold whose number of
    districts lies closest to a target. */
module DistrictStats {
  import opened Common
  import opened Aggregates
  import opened CleaningPipeline
  import BackendHandlers

  const Target: int := 813
  const RowThresholds: seq<int> := [1, 2, 3, 5, 10, 20, 50, 100]
  const TotalThresholds: seq<real> := [0.0, 10.0, 50.0, 100.0, 200.0, 500.0, 1000.0, 2000.0, 5000.0]

  /** One row of `agg`. */
  datatype DistrictAgg = DistrictAgg(district: string, rows: nat, total: real)

  /** The district names in first-seen order (`groupby("district", sort=False)`). */
  function Districts(df: seq<CleanRow>): seq<string> {
    Distinct(BackendHandlers.Column(df, BackendHandlers.DistrictOf))
  }

  /** `("district", "size")`. */
  function RowCount(df: seq<CleanRow>, d: string): nat {
    if |df| == 0 then 0
    else RowCount(df[..|df| - 1], d) + (if df[|df| - 1].district == d then 1 else 0)
  }

  /** `("total_enrolments", "sum")`. */
  function DistrictTotal(df: seq<CleanRow>, d: string): real {
    if |df| == 0 then 0.0
    else DistrictTotal(df[..|df| - 1], d) + (if df[|df| - 1].district == d then df[|df| - 1].total else 0.0)
  }

  function Agg(df: seq<CleanRow>): (agg: seq<DistrictAgg>)
    ensures |agg| == |Districts(df)|
    ensures forall i :: 0 <= i < |agg| ==>
      agg[i] == DistrictAgg(Districts(df)[i], RowCount(df, Districts(df)[i]), DistrictTotal(df, Districts(df)[i]))
  {
    var ds := Districts(df);
    seq(|ds|, i requires 0 <= i < |ds| => DistrictAgg(ds[i], RowCount(df, ds[i]), DistrictTotal(df, ds[i])))
  }

  function SumRows(agg: seq<DistrictAgg>): nat {
    if |agg| == 0 then 0 else agg[0].rows + SumRows(agg[1..])
  }

  function SumTotals(agg: seq<DistrictAgg>): real {
    if |agg| == 0 then 0.0 else agg[0].total + SumTotals(agg[1..])
  }

  /** A district with no row counts none. */
  lemma {:induction false} RowCountAbsent(df: seq<CleanRow>, d: string)
    requires forall r :: r in df ==> r.district != d
    ensures RowCount(df, d) == 0 && DistrictTotal(df, d) == 0.0
  {
    if |df| > 0 {
      var n := |df| - 1;
      assert df[n] in df;
      assert forall r :: r in df[..n] ==> r in df;
      RowCountAbsent(df[..n], d);
    }
  }

  /** A district of the rows has at least one row. */
  lemma {:induction false} RowCountPresent(df: seq<CleanRow>, i: int)
    requires 0 <= i < |df|
    ensures RowCount(df, df[i].district) >= 1
  {
    var n := |df| - 1;
    if i < n {
      assert df[..n][i] == df[i];
      RowCountPresent(df[..n], i);
    }
  }

  /** The aggregate of the districts ds over df plus one more row r. */
  function AggOver(ds: seq<string>, df: seq<CleanRow>): seq<DistrictAgg> {
    seq(|ds|, i requires 0 <= i < |ds| => DistrictAgg(ds[i], RowCount(df, ds[i]), DistrictTotal(df, ds[i])))
  }

  /** Adding a row to df adds it to the sums over distinct districts once if its district is
      listed. */
  lemma {:induction false} SumsSnoc(ds: seq<string>, df: seq<CleanRow>, r: CleanRow)
    requires forall i, j :: 0 <= i < j < |ds| ==> ds[i] != ds[j]
    ensures SumRows(AggOver(ds, df + [r])) == SumRows(AggOver(ds, df)) + (if r.district in ds then 1 else 0)
    ensures SumTotals(AggOver(ds, df + [r])) == SumTotals(AggOver(ds, df)) + (if r.district in ds then r.total else 0.0)
  {
    if |ds| > 0 {
      var rest := ds[1..];
      assert forall i, j :: 0 <= i < j < |rest| ==> rest[i] != rest[j] by {
        assert forall i :: 0 <= i < |rest| ==> rest[i] == ds[i + 1];
      }
      SumsSnoc(rest, df, r);
      assert AggOver(ds, df + [r])[1..] == AggOver(rest, df + [r]);
      assert AggOver(ds, df)[1..] == AggOver(rest, df);
      assert (df + [r])[..|df|] == df;
      assert r.district in ds <==> r.district == ds[0] || r.district in rest by {
        assert ds == [ds[0]] + rest;
      }
      if r.district == ds[0] {
        assert ds[0] !in rest;
      }
    }
  }

  /** The aggregate over distinct districts that include every row's district accounts
      for every row and the whole total. */
  lemma {:induction false} SumsOver(ds: seq<string>, df: seq<CleanRow>)
    requires forall i, j :: 0 <= i < j < |ds| ==> ds[i] != ds[j]
    requires forall r :: r in df ==> r.district in ds
    ensures SumRows(AggOver(ds, df)) == |df|
    ensures SumTotals(AggOver(ds, df)) == BackendHandlers.SumOver(df, BackendHandlers.TotalOf)
  {
    if |df| == 0 {
      ZeroSums(ds);
    } else {
      var n := |df| - 1;
      assert df == df[..n] + [df[n]];
      assert forall r :: r in df[..n] ==> r in df;
      SumsOver(ds, df[..n]);
      SumsSnoc(ds, df[..n], df[n]);
      assert df[n] in df;
    }
  }

  lemma {:induction false} ZeroSums(ds: seq<string>)
    ensures SumRows(AggOver(ds, [])) == 0 && SumTotals(AggOver(ds, [])) == 0.0
  {
    if |ds| > 0 {
      ZeroSums(ds[1..]);
      assert AggOver(ds, [])[1..] == AggOver(ds[1..], []);
    }
  }

  /** `agg` lists each district name of the rows once, as many as
      `df["district"].nunique()`. */
  lemma AggDistricts(df: seq<CleanRow>)
    ensures |Agg(df)| == BackendHandlers.Unique(df, BackendHandlers.DistrictOf)
    ensures forall i, j :: 0 <= i < j < |Agg(df)| ==> Agg(df)[i].district != Agg(df)[j].district
    ensures forall r :: r in df ==> exists a :: a in Agg(df) && a.district == r.district
  {
    var ds := Districts(df);
    var col := BackendHandlers.Column(df, BackendHandlers.DistrictOf);
    forall r | r in df ensures exists a :: a in Agg(df) && a.district == r.district {
      var i :| 0 <= i < |df| && df[i] == r;
      assert col[i] == r.district && col[i] in col;
      var k :| 0 <= k < |ds| && ds[k] == r.district;
      assert Agg(df)[k] in Agg(df);
    }
  }

  /** Each entry of `agg` is a district of the rows with at least one row. */
  lemma AggRows(df: seq<CleanRow>)
    ensures forall a :: a in Agg(df) ==> a.rows >= 1 && exists r :: r in df && r.district == a.district
  {
    var ds := Districts(df);
    var col := BackendHandlers.Column(df, BackendHandlers.DistrictOf);
    forall a | a in Agg(df) ensures a.rows >= 1 && exists r :: r in df && r.district == a.district {
      var k :| 0 <= k < |Agg(df)| && Agg(df)[k] == a;
      assert ds[k] in col;
      var i :| 0 <= i < |df| && col[i] == ds[k];
      RowCountPresent(df, i);
      assert df[i] in df;
    }
  }

  /** The rows and totals of all entries of `agg` add up to the number of rows and the
      total of the table. */
  lemma AggSums(df: seq<CleanRow>)
    ensures SumRows(Agg(df)) == |df|
    ensures SumTotals(Agg(df)) == BackendHandlers.SumOver(df, BackendHandlers.TotalOf)
  {
    var ds := Districts(df);
    var col := BackendHandlers.Column(df, BackendHandlers.DistrictOf);
    assert Agg(df) == AggOver(ds, df);
    forall r | r in df ensures r.district in ds {
      var i :| 0 <= i < |df| && df[i] == r;
      assert col[i] == r.district && col[i] in col;
    }
    SumsOver(ds, df);
  }

  // ---------------------------------------------------------------------------------
  // Threshold counts

  /** `(agg["rows"] >= t).sum()`. */
  function CountRowsAtLeast(agg: seq<DistrictAgg>, t: int): nat {
    if |agg| == 0 then 0 else (if agg[0].rows >= t then 1 else 0) + CountRowsAtLeast(agg[1..], t)
  }

  /** `(agg["total"] >= t).sum()`. */
  function CountTotalAtLeast(agg: seq<DistrictAgg>, t: real): (c: nat)
    ensures c <= |agg|
  {
    if |agg| == 0 then 0 else (if agg[0].total >= t then 1 else 0) + CountTotalAtLeast(agg[1..], t)
  }

  /** Raising a threshold never lets more districts through. */
  lemma {:induction false} RowsMonotone(agg: seq<DistrictAgg>, s: int, t: int)
    requires s <= t
    ensures CountRowsAtLeast(agg, t) <= CountRowsAtLeast(agg, s)
  {
    if |agg| > 0 {
      RowsMonotone(agg[1..], s, t);
    }
  }

  lemma {:induction false} TotalsMonotone(agg: seq<DistrictAgg>, s: real, t: real)
    requires s <= t
    ensures CountTotalAtLeast(agg, t) <= CountTotalAtLeast(agg, s)
  {
    if |agg| > 0 {
      TotalsMonotone(agg[1..], s, t);
    }
  }

  /** Every district has at least one row, so the threshold 1 keeps all of them. */
  lemma {:induction false} AllReachOneRow(agg: seq<DistrictAgg>)
    requires forall a :: a in agg ==> a.rows >= 1
    ensures CountRowsAtLeast(agg, 1) == |agg|
  {
    if |agg| > 0 {
      assert forall a :: a in agg[1..] ==> a in agg;
      AllReachOneRow(agg[1..]);
    }
  }

  /** The two printed series of counts. */
  function RowsReport(agg: seq<DistrictAgg>): (r: seq<nat>)
    ensures |r| == |RowThresholds|
  {
    seq(|RowThresholds|, i requires 0 <= i < |RowThresholds| => CountRowsAtLeast(agg, RowThresholds[i]))
  }

  function TotalsReport(agg: seq<DistrictAgg>): (r: seq<nat>)
    ensures |r| == |TotalThresholds|
  {
    seq(|TotalThresholds|, i requires 0 <= i < |TotalThresholds| => CountTotalAtLeast(agg, TotalThresholds[i]))
  }

  /** Both series fall as their thresholds rise, and the row series starts with every
      district of the rows. */
  lemma ReportsNonIncreasing(df: seq<CleanRow>)
    ensures forall i, j :: 0 <= i < j < |RowThresholds| ==> RowsReport(Agg(df))[j] <= RowsReport(Agg(df))[i]
    ensures forall i, j :: 0 <= i < j < |TotalThresholds| ==> TotalsReport(Agg(df))[j] <= TotalsReport(Agg(df))[i]
    ensures RowsReport(Agg(df))[0] == BackendHandlers.Unique(df, BackendHandlers.DistrictOf)
  {
    var agg := Agg(df);
    forall i, j | 0 <= i < j < |RowThresholds| ensures RowsReport(agg)[j] <= RowsReport(agg)[i] {
      RowsMonotone(agg, RowThresholds[i], RowThresholds[j]);
    }
    forall i, j | 0 <= i < j < |TotalThresholds| ensures TotalsReport(agg)[j] <= TotalsReport(agg)[i] {
      TotalsMonotone(agg, TotalThresholds[i], TotalThresholds[j]);
    }
    AggDistricts(df);
    AggRows(df);
    AllReachOneRow(agg);
  }

  /** `min/max rows per district`; the source fails on an empty table. */
  function MinRows(agg: seq<DistrictAgg>): (m: nat)
    requires |agg| > 0
    ensures forall a :: a in agg ==> m <= a.rows
    ensures exists a :: a in agg && a.rows == m
  {
    if |agg| == 1 then agg[0].rows
    else
      var m := MinRows(agg[1..]);
      assert forall a :: a in agg <==> a == agg[0] || a in agg[1..] by {
        assert agg == [agg[0]] + agg[1..];
      }
      if agg[0].rows <= m then agg[0].rows else m
  }

  function MaxRows(agg: seq<DistrictAgg>): (m: nat)
    requires |agg| > 0
    ensures forall a :: a in agg ==> a.rows <= m
    ensures exists a :: a in agg && a.rows == m
  {
    if |agg| == 1 then agg[0].rows
    else
      var m := MaxRows(agg[1..]);
      assert forall a :: a in agg <==> a == agg[0] || a in agg[1..] by {
        assert agg == [agg[0]] + agg[1..];
      }
      if agg[0].rows >= m then agg[0].rows else m
  }

  // ---------------------------------------------------------------------------------
  // The closest threshold

  function TotalsColumn(agg: seq<DistrictAgg>): (ts: seq<real>)
    ensures |ts| == |agg|
    ensures forall i :: 0 <= i < |agg| ==> ts[i] == agg[i].total
  {
    seq(|agg|, i requires 0 <= i < |agg| => agg[i].total)
  }

  predicate Ascending(s: seq<real>) {
    forall i, j :: 0 <= i < j < |s| ==> s[i] <= s[j]
  }

  function InsertAsc(x: real, s: seq<real>): (r: seq<real>)
    ensures multiset(r) == multiset(s) + multiset{x}
  {
    if |s| == 0 || x <= s[0] then [x] + s
    else
      assert s == [s[0]] + s[1..];
      [s[0]] + InsertAsc(x, s[1..])
  }

  lemma {:induction false} InsertAscSorted(x: real, s: seq<real>)
    requires Ascending(s)
    ensures Ascending(InsertAsc(x, s))
  {
    if |s| > 0 && x > s[0] {
      InsertAscSorted(x, s[1..]);
      var r := InsertAsc(x, s[1..]);
      forall j | 0 <= j < |r| ensures s[0] <= r[j] {
        assert r[j] in multiset(r);
        if r[j] != x {
          assert r[j] in multiset(s[1..]);
        }
      }
    }
  }

  function SortAsc(s: seq<real>): (r: seq<real>)
    ensures multiset(r) == multiset(s)
    ensures Ascending(r)
  {
    if |s| == 0 then []
    else
      assert s == [s[0]] + s[1..];
      InsertAscSorted(s[0], SortAsc(s[1..]));
      InsertAsc(s[0], SortAsc(s[1..]))
  }

  /** `np.unique(agg["total"].values)`, sorted again. */
  function Candidates(agg: seq<DistrictAgg>): seq<real> {
    SortAsc(Distinct(TotalsColumn(agg)))
  }

  /** An ascending permutation of a list without repeats is strictly ascending. */
  lemma StrictlyAscending(c: seq<real>, d: seq<real>)
    requires Ascending(c) && multiset(c) == multiset(d)
    requires forall i, j :: 0 <= i < j < |d| ==> d[i] != d[j]
    ensures forall i, j :: 0 <= i < j < |c| ==> c[i] < c[j]
  {
    forall i, j | 0 <= i < j < |c| ensures c[i] < c[j] {
      if c[i] == c[j] {
        assert c == c[..j] + [c[j]] + c[j + 1..];
        assert c[i] in c[..j];
        AtMostOnce(d, c[j]);
        assert false;
      }
    }
  }

  /** The candidates: each district total once, in strictly ascending order. */
  lemma CandidatesFacts(agg: seq<DistrictAgg>)
    ensures forall i, j :: 0 <= i < j < |Candidates(agg)| ==> Candidates(agg)[i] < Candidates(agg)[j]
    ensures forall x :: x in Candidates(agg) <==> exists a :: a in agg && a.total == x
  {
    var d := Distinct(TotalsColumn(agg));
    var c := Candidates(agg);
    StrictlyAscending(c, d);
    forall x ensures x in c <==> exists a :: a in agg && a.total == x {
      assert x in c <==> x in multiset(d);
      if x in TotalsColumn(agg) {
        var i :| 0 <= i < |agg| && TotalsColumn(agg)[i] == x;
        assert agg[i] in agg;
      }
      if exists a :: a in agg && a.total == x {
        var a :| a in agg && a.total == x;
        var i :| 0 <= i < |agg| && agg[i] == a;
        assert TotalsColumn(agg)[i] == x;
      }
    }
  }

  /** `best`: (distance, threshold, count). */
  datatype Best = Best(diff: nat, threshold: real, count: nat)

  /** |count of districts reaching thr - target|. */
  function Diff(agg: seq<DistrictAgg>, target: int, thr: real): nat {
    var c := CountTotalAtLeast(agg, thr);
    if c >= target then c - target else target - c
  }

  /** The k-th candidate is the first one whose count lies closest to the target. */
  predicate FirstClosest(agg: seq<DistrictAgg>, target: int, cands: seq<real>, k: int) {
    0 <= k < |cands|
    && (forall j :: 0 <= j < |cands| ==> Diff(agg, target, cands[k]) <= Diff(agg, target, cands[j]))
    && (forall j :: 0 <= j < k ==> Diff(agg, target, cands[j]) > Diff(agg, target, cands[k]))
  }

  function BestAt(agg: seq<DistrictAgg>, target: int, thr: real): Best {
    Best(Diff(agg, target, thr), thr, CountTotalAtLeast(agg, thr))
  }

  /** The search loop: a strict `<` keeps the earliest of equally close candidates, and
      leaving at an exact match changes nothing since nothing later can be closer. No
      candidates, no best. */
  method ClosestThreshold(agg: seq<DistrictAgg>, target: int, cands: seq<real>) returns (best: Option<Best>)
    ensures |cands| == 0 ==> best == None
    ensures |cands| > 0 ==> exists k :: FirstClosest(agg, target, cands, k) && best == Some(BestAt(agg, target, cands[k]))
  {
    best := None;
    ghost var k := 0;
    var i := 0;
    while i < |cands|
      invariant 0 <= i <= |cands|
      invariant i == 0 <==> best == None
      invariant i > 0 ==> 0 <= k < i && best == Some(BestAt(agg, target, cands[k]))
      invariant i > 0 ==> forall j :: 0 <= j < i ==> Diff(agg, target, cands[k]) <= Diff(agg, target, cands[j])
      invariant i > 0 ==> forall j :: 0 <= j < k ==> Diff(agg, target, cands[j]) > Diff(agg, target, cands[k])
    {
      var thr := cands[i];
      var c := CountTotalAtLeast(agg, thr);
      var d: nat := if c >= target then c - target else target - c;
      if best == None || d < best.value.diff {
        best := Some(Best(d, thr, c));
        k := i;
        if d == 0 {
          assert FirstClosest(agg, target, cands, k);
          return;
        }
      }
      i := i + 1;
    }
    if |cands| > 0 {
      assert FirstClosest(agg, target, cands, k);
    }
  }

  /** The script's search: over the candidates of the rows' districts, towards 813. */
  method ClosestForTarget(df: seq<CleanRow>) returns (best: Option<Best>)
    ensures best.None? <==> |df| == 0
    ensures best.Some? ==> exists k :: FirstClosest(Agg(df), Target, Candidates(Agg(df)), k) && best.value == BestAt(Agg(df), Target, Candidates(Agg(df))[k])
  {
    var agg := Agg(df);
    var cands := Candidates(agg);
    CandidatesCount(df);
    best := ClosestThreshold(agg, Target, cands);
  }

  /** Some row, some candidate. */
  lemma CandidatesCount(df: seq<CleanRow>)
    ensures |Candidates(Agg(df))| == 0 <==> |df| == 0
  {
    var agg := Agg(df);
    var cands := Candidates(agg);
    assert |Distinct(TotalsColumn(agg))| == |cands| by {
      assert |multiset(cands)| == |multiset(Distinct(TotalsColumn(agg)))|;
    }
    if |df| > 0 {
      AggDistricts(df);
      assert df[0] in df;
      assert |agg| > 0;
      assert TotalsColumn(agg)[0] in Distinct(TotalsColumn(agg));
    }
  }
}
