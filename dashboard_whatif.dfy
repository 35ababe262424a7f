/** The scenario planner of the dashboard page (uidai-dashboard/src/pages/Dashboard.jsx,
    the `whatIf` memo and the effect choosing the default benchmark states): the five
    weakest states by enrollment, an improvement scenario for them with its resource
    estimate, and the gap to a set of benchmark states. */
module DashboardWhatIf {
  import opened Common
  import opened Text
  import opened Aggregates

  const BottomN: nat := 5
  const CostPerEnrollment: int := 50
  const EnrollmentsPerOperator: real := 100.0
  const EnrollmentsPerCenter: real := 50000.0

  /** The improvement scenario for the bottom states. */
  datatype Boost = Boost(
    currentBottomTotal: real,
    improvedBottomTotal: real,
    additionalBoost: int,
    overallImpactPct: real,
    centers: int,
    operators: int,
    campaignBudget: int)

  /** The benchmark scenario: how far the bottom states trail the benchmark states. */
  datatype BenchmarkGap = BenchmarkGap(benchmarkAvg: real, lowAvg: real, gapPerState: real, totalPotential: int)

  datatype WhatIf = WhatIf(
    hasData: bool,
    bottom: seq<Bucket<string>>,
    nationalTotal: real,
    improvementPct: real,
    boost: Boost,
    benchmark: BenchmarkGap)

  /** Each payload entry with its state name trimmed (a missing name is ""; a missing or
      non-numeric total is 0). */
  function Trimmed(states: seq<Bucket<string>>): (r: seq<Bucket<string>>)
    ensures |r| == |states|
    ensures forall i :: 0 <= i < |r| ==> r[i] == Bucket(Trim(states[i].key), states[i].value)
  {
    seq(|states|, i requires 0 <= i < |states| => Bucket(Trim(states[i].key), states[i].value))
  }

  /** An entry the scenarios consider: a named state with a positive total. */
  predicate Eligible(s: Bucket<string>) {
    |s.key| > 0 && s.value > 0.0
  }

  function Cleaned(states: seq<Bucket<string>>): (r: seq<Bucket<string>>)
    ensures forall b :: b in r ==> Eligible(b)
  {
    Filter(Trimmed(states), Eligible)
  }

  /** `Math.min(100, Math.max(0, pct))`. */
  function ClampPct(p: real): (r: real)
    ensures 0.0 <= r <= 100.0
    ensures 0.0 <= p <= 100.0 ==> r == p
    ensures p < 0.0 ==> r == 0.0
    ensures p > 100.0 ==> r == 100.0
  {
    if p > 100.0 then 100.0 else if p < 0.0 then 0.0 else p
  }

  /** Math.ceil. */
  function Ceil(x: real): (r: int)
    ensures x <= r as real < x + 1.0
  {
    -((-x).Floor)
  }

  /** The mean value, 0 for no entries. */
  function Mean(s: seq<Bucket<string>>): real {
    if |s| > 0 then Total(s) / |s| as real else 0.0
  }

  function BoostOf(bottom: seq<Bucket<string>>, pct: real, national: real): Boost {
    BoostFrom(Total(bottom), pct, national)
  }

  /** The boost figures for a current bottom total. */
  function BoostFrom(current: real, pct: real, national: real): Boost {
    var additional := Round(current * (pct / 100.0));
    Boost(
      current,
      current + additional as real,
      additional,
      if national > 0.0 then additional as real / national * 100.0 else 0.0,
      Round(additional as real / EnrollmentsPerCenter),
      var ops := Ceil(additional as real / EnrollmentsPerOperator); if ops >= 0 then ops else 0,
      Round((additional * CostPerEnrollment) as real))
  }

  /** The cleaned entries of the benchmark states. */
  function BenchItems(cleaned: seq<Bucket<string>>, bench: seq<string>): (r: seq<Bucket<string>>)
    ensures forall b :: b in r <==> b in cleaned && b.key in bench
    ensures |bench| == 0 ==> r == []
  {
    var f := (s: Bucket<string>) => s.key in bench;
    if |bench| == 0 then (FilterNone(cleaned, f); Filter(cleaned, f)) else Filter(cleaned, f)
  }

  function GapOf(cleaned: seq<Bucket<string>>, bottom: seq<Bucket<string>>, bench: seq<string>): BenchmarkGap {
    var benchmarkAvg := Mean(BenchItems(cleaned, bench));
    var lowAvg := Mean(bottom);
    var gap := MaxReal(0.0, benchmarkAvg - lowAvg);
    BenchmarkGap(benchmarkAvg, lowAvg, gap, Round(gap * |bottom| as real))
  }

  /** The memo: from the state totals payload, the national total, the requested
      improvement percentage and the benchmark states. */
  function WhatIfOf(states: seq<Bucket<string>>, national: real, pctInput: real, bench: seq<string>): (r: WhatIf)
    ensures r.hasData <==> |Cleaned(states)| > 0
    ensures 0.0 <= r.improvementPct <= 100.0
  {
    var cleaned := Cleaned(states);
    var bottom := TopK(cleaned, BottomN, false);
    var pct := ClampPct(pctInput);
    WhatIf(|cleaned| > 0, bottom, national, pct, BoostOf(bottom, pct, national), GapOf(cleaned, bottom, bench))
  }

  lemma {:induction false} TotalPositiveEntries(s: seq<Bucket<string>>)
    requires forall i :: 0 <= i < |s| ==> s[i].value > 0.0
    ensures Total(s) >= 0.0
    ensures |s| > 0 ==> Total(s) > 0.0
  {
    if |s| > 0 {
      assert forall i :: 0 <= i < |s[1..]| ==> s[1..][i].value > 0.0 by {
        forall i | 0 <= i < |s[1..]| ensures s[1..][i].value > 0.0 {
          assert s[1..][i] == s[i + 1];
        }
      }
      TotalPositiveEntries(s[1..]);
    }
  }

  /** The entries considered are exactly the payload entries, names trimmed, that have a
      non-blank name and a positive total. */
  lemma CleanedMembers(states: seq<Bucket<string>>, b: Bucket<string>)
    ensures b in Cleaned(states) <==>
      |b.key| > 0 && b.value > 0.0 && exists i :: 0 <= i < |states| && b == Bucket(Trim(states[i].key), states[i].value)
  {
    var t := Trimmed(states);
    if b in t {
      var i :| 0 <= i < |t| && t[i] == b;
    }
    if exists i :: 0 <= i < |states| && b == Bucket(Trim(states[i].key), states[i].value) {
      var i :| 0 <= i < |states| && b == Bucket(Trim(states[i].key), states[i].value);
      assert t[i] == b;
    }
  }

  /** The bottom list: at most five considered entries, in ascending order of total, and
      no considered entry left out has a smaller total than one kept. */
  lemma BottomStates(cleaned: seq<Bucket<string>>)
    requires forall b :: b in cleaned ==> Eligible(b)
    ensures var bottom := TopK(cleaned, BottomN, false);
      && |bottom| == MinInt(BottomN, |cleaned|)
      && (forall i, j :: 0 <= i < j < |bottom| ==> bottom[i].value <= bottom[j].value)
      && multiset(bottom) <= multiset(cleaned)
      && (forall b :: b in bottom ==> Eligible(b))
      && (forall x, y :: x in bottom && y in multiset(cleaned) - multiset(bottom) ==> x.value <= y.value)
  {
    var bottom := TopK(cleaned, BottomN, false);
    forall b | b in bottom ensures Eligible(b) {
      assert b in multiset(bottom);
      assert b in multiset(cleaned);
    }
  }

  /** With no entry considered, the bottom list is empty and both scenarios are zero. */
  lemma NoData(states: seq<Bucket<string>>, national: real, pct: real, bench: seq<string>)
    requires |Cleaned(states)| == 0
    ensures var w := WhatIfOf(states, national, pct, bench);
      && !w.hasData
      && w.bottom == []
      && w.boost.currentBottomTotal == 0.0
      && w.boost.additionalBoost == 0
      && w.boost.operators == 0
      && w.benchmark.gapPerState == 0.0
      && w.benchmark.totalPotential == 0
  {
    var cleaned := Cleaned(states);
    assert TopK(cleaned, BottomN, false) == [];
    assert BenchItems(cleaned, bench) == [];
  }

  /** The improvement scenario over bottom entries with positive totals and a clamped
      percentage: a boost that is a non-negative whole number of enrollments added to
      the current total, no impact without a positive national total, enough operators
      for the boost at 100 enrollments each, and a budget of 50 per added enrollment. */
  lemma BoostScenario(bottom: seq<Bucket<string>>, pct: real, national: real)
    requires forall b :: b in bottom ==> Eligible(b)
    requires 0.0 <= pct <= 100.0
    ensures var boost := BoostOf(bottom, pct, national);
      && boost.currentBottomTotal == Total(bottom)
      && boost.currentBottomTotal >= 0.0
      && boost.additionalBoost >= 0
      && boost.improvedBottomTotal == boost.currentBottomTotal + boost.additionalBoost as real
      && (national <= 0.0 ==> boost.overallImpactPct == 0.0)
      && boost.overallImpactPct >= 0.0
      && boost.operators >= 0
      && boost.operators as real * EnrollmentsPerOperator >= boost.additionalBoost as real
      && boost.centers >= 0
      && boost.campaignBudget == CostPerEnrollment * boost.additionalBoost
      && (pct == 0.0 ==> boost.additionalBoost == 0 && boost.improvedBottomTotal == boost.currentBottomTotal)
  {
    assert forall i :: 0 <= i < |bottom| ==> bottom[i].value > 0.0 by {
      forall i | 0 <= i < |bottom| ensures bottom[i].value > 0.0 {
        assert Eligible(bottom[i]);
      }
    }
    TotalPositiveEntries(bottom);
    BoostFigures(Total(bottom), pct, national);
  }

  /** The figures of a boost over a non-negative current total. */
  lemma BoostFigures(current: real, pct: real, national: real)
    requires current >= 0.0 && 0.0 <= pct <= 100.0
    ensures var boost := BoostFrom(current, pct, national);
      && boost.additionalBoost >= 0
      && boost.improvedBottomTotal == current + boost.additionalBoost as real
      && (national <= 0.0 ==> boost.overallImpactPct == 0.0)
      && boost.overallImpactPct >= 0.0
      && boost.operators >= 0
      && boost.operators as real * EnrollmentsPerOperator >= boost.additionalBoost as real
      && boost.centers >= 0
      && boost.campaignBudget == CostPerEnrollment * boost.additionalBoost
      && (pct == 0.0 ==> boost.additionalBoost == 0)
  {
    ShareNonNegative(current, pct);
    var additional := Round(current * (pct / 100.0));
    OperatorsCover(additional);
    ImpactNonNegative(additional, national);
  }

  lemma ShareNonNegative(current: real, pct: real)
    requires current >= 0.0 && 0.0 <= pct <= 100.0
    ensures Round(current * (pct / 100.0)) >= 0
    ensures pct == 0.0 ==> Round(current * (pct / 100.0)) == 0
  {
    var share := pct / 100.0;
    assert share >= 0.0;
    assert current * share >= 0.0;
  }

  /** Whole operators at 100 enrollments each cover the added enrollments. */
  lemma OperatorsCover(additional: int)
    requires additional >= 0
    ensures var ops := Ceil(additional as real / EnrollmentsPerOperator);
      ops >= 0 && ops as real * EnrollmentsPerOperator >= additional as real
  {
  }

  lemma ImpactNonNegative(additional: int, national: real)
    requires additional >= 0
    ensures national > 0.0 ==> additional as real / national * 100.0 >= 0.0
  {
  }

  /** The benchmark scenario: the gap per state is never negative, and it is 0 when no
      benchmark state is selected or the benchmark average does not exceed the bottom
      average. */
  lemma BenchmarkScenario(cleaned: seq<Bucket<string>>, bottom: seq<Bucket<string>>, bench: seq<string>)
    requires forall b :: b in bottom ==> Eligible(b)
    ensures var g := GapOf(cleaned, bottom, bench);
      && g.gapPerState >= 0.0
      && g.totalPotential >= 0
      && (g.benchmarkAvg <= g.lowAvg ==> g.gapPerState == 0.0)
      && (|bench| == 0 ==> g.benchmarkAvg == 0.0 && g.gapPerState == 0.0)
      && g.lowAvg >= 0.0
  {
    var g := GapOf(cleaned, bottom, bench);
    assert g.gapPerState * |bottom| as real >= 0.0;
    assert forall i :: 0 <= i < |bottom| ==> bottom[i].value > 0.0 by {
      forall i | 0 <= i < |bottom| ensures bottom[i].value > 0.0 {
        assert Eligible(bottom[i]);
      }
    }
    TotalPositiveEntries(bottom);
  }

  /** The default benchmark: a selection already made stays; otherwise the first two
      named states of the payload (which lists states by descending total), unless there
      are none. */
  function DefaultBenchmark(current: seq<string>, payloadStates: seq<string>): (r: seq<string>)
    ensures |current| > 0 ==> r == current
    ensures |current| == 0 ==> |r| <= 2
    ensures |current| == 0 ==> forall s :: s in r <==> s in Take(payloadStates, 2) && |s| > 0
  {
    if |current| > 0 then current
    else
      var top := Filter(Take(payloadStates, 2), s => |s| > 0);
      if |top| > 0 then top else current
  }
}
