/** The top-states bar chart (uidai-dashboard/src/components/charts/BarChart.jsx): a
    32-bit string hash that picks each bar's colour, the per-state reduce, and the
    fifteen largest states. */
module BarChart {
  import opened Common
  import opened Aggregates
  import opened InsightPanel

  /** COLOR_PALETTE has eight colours. */
  const PaletteSize: nat := 8
  const BarCount: nat := 15

  const Two31: int := 0x8000_0000
  const Two32: int := 0x1_0000_0000

  /** `x | 0`: x wrapped to a signed 32-bit integer (two's complement). */
  function ToInt32(x: int): (r: int)
    ensures -Two31 <= r < Two31
    ensures (r - x) % Two32 == 0
  {
    (x + Two31) % Two32 - Two31
  }

  /** The hash after the loop has seen all of s: `hash = (hash * 31 + s.charCodeAt(i)) | 0`,
      from 0. A character stands for its UTF-16 code unit. */
  function Hash(s: string): (h: int)
    ensures -Two31 <= h < Two31
  {
    if |s| == 0 then 0 else ToInt32(Hash(s[..|s| - 1]) * 31 + s[|s| - 1] as int)
  }

  /** The same polynomial without wrap-around: sum of code(s[i]) * 31^(|s|-1-i). */
  function Polynomial(s: string): int {
    if |s| == 0 then 0 else Polynomial(s[..|s| - 1]) * 31 + s[|s| - 1] as int
  }

  function AbsInt(x: int): nat {
    if x < 0 then -x else x
  }

  /** `hashStringToIndex`: the loop over the characters, then `Math.abs(hash) % modulo`. */
  method HashStringToIndex(s: string, modulo: int) returns (idx: int)
    requires modulo > 0
    ensures idx == AbsInt(Hash(s)) % modulo
    ensures 0 <= idx < modulo
  {
    var hash := 0;
    for i := 0 to |s|
      invariant hash == Hash(s[..i])
    {
      assert s[..i + 1][..i] == s[..i];
      hash := ToInt32(hash * 31 + s[i] as int);
    }
    assert s[..|s|] == s;
    idx := AbsInt(hash) % modulo;
  }

  /** The wrapped hash is the polynomial hash modulo 2^32: wrapping after every step
      loses nothing but multiples of 2^32. */
  lemma {:induction false} HashIsPolynomialModulo(s: string)
    ensures (Hash(s) - Polynomial(s)) % Two32 == 0
  {
    if |s| > 0 {
      var p := s[..|s| - 1];
      var c := s[|s| - 1] as int;
      HashIsPolynomialModulo(p);
      var x := Hash(p) * 31 + c;
      var a := ToInt32(x) - x;
      var b := Hash(p) - Polynomial(p);
      assert Hash(s) - Polynomial(s) == a + 31 * b;
      MultiplesOfTwo32(a, b);
    }
  }

  lemma MultiplesOfTwo32(a: int, b: int)
    requires a % Two32 == 0 && b % Two32 == 0
    ensures (a + 31 * b) % Two32 == 0
  {
    var qa, qb := a / Two32, b / Two32;
    assert a == Two32 * qa;
    assert b == Two32 * qb;
    assert a + 31 * b == Two32 * (qa + 31 * qb);
  }

  /** Below 2^31 the polynomial hash needs no wrapping at any step. */
  lemma {:induction false} ShortHashesDoNotWrap(s: string)
    requires Polynomial(s) < Two31
    ensures Hash(s) == Polynomial(s)
  {
    if |s| > 0 {
      var p := s[..|s| - 1];
      PolynomialNonNegative(p);
      HashIsPolynomialModulo(p);
      ShortHashesDoNotWrap(p);
    }
  }

  lemma {:induction false} PolynomialNonNegative(s: string)
    ensures Polynomial(s) >= 0
  {
    if |s| > 0 {
      PolynomialNonNegative(s[..|s| - 1]);
    }
  }

  /** The bars: None ("No data available") for empty data, otherwise the fifteen largest
      state totals, largest first. */
  function BarsOf(data: seq<Row>): (r: Option<seq<Bucket<string>>>)
    ensures r.None? <==> |data| == 0
  {
    if |data| == 0 then None else Some(TopStates(data, BarCount))
  }

  /** The component body: the reduce into per-state accumulators, then sort and slice. */
  method ChartData(data: seq<Row>) returns (chart: Option<seq<Bucket<string>>>)
    ensures chart == BarsOf(data)
  {
    if |data| == 0 {
      return None;
    }
    var totals := GroupRows(data, StateEntry);
    chart := Some(TopK(totals, BarCount, true));
  }

  /** At most fifteen bars, sorted by descending value, each state once with the sum of
      its rows' totals, and no state left out beats a state shown. */
  lemma BarsAreTopStates(data: seq<Row>)
    requires |data| > 0
    ensures var bars := BarsOf(data).value;
      |bars| <= BarCount && SortedBy(bars, true) && DistinctKeys(bars)
      && (forall b :: b in bars ==> b.value == StateTotal(data, b.key))
      && (forall b, y :: b in bars && y in StateTotals(data) && y !in bars ==> b.value >= y.value)
  {
    TopStatesAreTotals(data, BarCount);
    TopStatesBeatTheRest(data, BarCount);
  }
}
