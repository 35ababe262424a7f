/** The district-by-state heatmap (uidai-dashboard/src/components/charts/StateDistrictHeatmap.jsx):
    one pass that sums a value per state and per district name, the largest states and
    districts by those sums, a matrix whose cells are incremented in place, and the cell
    text and text colour. The value accessor is a parameter (it defaults to the row
    total); the number formatting of `formatCompact` is not modelled. */
module StateDistrictHeatmap {
  import opened Common
  import opened Aggregates

  /** The component's default `topStates` and `topDistricts`. */
  const DefaultTopStates: nat := 10
  const DefaultTopDistricts: nat := 20

  /** A row's contribution to the state sums, for a value accessor. */
  function StateEntryOf(value: Row -> real): Row -> seq<Bucket<string>> {
    (r: Row) => [Bucket(r.state, value(r))]
  }

  /** A row's contribution to the district sums: keyed by the district name alone. */
  function DistrictEntryOf(value: Row -> real): Row -> seq<Bucket<string>> {
    (r: Row) => [Bucket(r.district, value(r))]
  }

  /** Sum of the values of the rows of a state (a reference definition). */
  function StateSum(data: seq<Row>, value: Row -> real, s: string): real {
    if |data| == 0 then 0.0
    else
      var last := data[|data| - 1];
      StateSum(data[..|data| - 1], value, s) + (if last.state == s then value(last) else 0.0)
  }

  /** Sum of the values of the rows whose district has a given name, in any state. */
  function DistrictSum(data: seq<Row>, value: Row -> real, d: string): real {
    if |data| == 0 then 0.0
    else
      var last := data[|data| - 1];
      DistrictSum(data[..|data| - 1], value, d) + (if last.district == d then value(last) else 0.0)
  }

  /** Sum of the values of the rows with both that district and that state. */
  function CellSum(data: seq<Row>, value: Row -> real, d: string, s: string): real {
    if |data| == 0 then 0.0
    else
      var last := data[|data| - 1];
      CellSum(data[..|data| - 1], value, d, s) + (if last.district == d && last.state == s then value(last) else 0.0)
  }

  function StateSums(data: seq<Row>, value: Row -> real): seq<Bucket<string>> {
    GroupSum(Entries(data, StateEntryOf(value)))
  }

  function DistrictSums(data: seq<Row>, value: Row -> real): seq<Bucket<string>> {
    GroupSum(Entries(data, DistrictEntryOf(value)))
  }

  /** The names of the k largest buckets, largest first. */
  function TopNames(sums: seq<Bucket<string>>, k: nat): (names: seq<string>)
    ensures |names| == MinInt(k, |sums|)
  {
    KeysOf(TopK(sums, k, true))
  }

  /** Where a name sits in a list (`new Map(names.map((s, i) => [s, i])).get`): -1 when
      it is missing. */
  method Find(names: seq<string>, x: string) returns (i: int)
    ensures -1 <= i < |names|
    ensures i == -1 <==> x !in names
    ensures 0 <= i ==> names[i] == x
  {
    i := 0;
    while i < |names| && names[i] != x
      invariant 0 <= i <= |names|
      invariant x !in names[..i]
    {
      assert names[..i + 1] == names[..i] + [names[i]];
      i := i + 1;
    }
    if i == |names| {
      assert names[..i] == names;
      i := -1;
    }
  }

  /** The totals loop: one pass adding each row's value to its state and to its
      district name. */
  method Totals(data: seq<Row>, value: Row -> real) returns (stateTotals: seq<Bucket<string>>, districtTotals: seq<Bucket<string>>)
    ensures stateTotals == StateSums(data, value)
    ensures districtTotals == DistrictSums(data, value)
  {
    stateTotals, districtTotals := [], [];
    for k := 0 to |data|
      invariant stateTotals == GroupSum(Entries(data[..k], StateEntryOf(value)))
      invariant districtTotals == GroupSum(Entries(data[..k], DistrictEntryOf(value)))
    {
      EntriesStep(data, StateEntryOf(value), k);
      EntriesStep(data, DistrictEntryOf(value), k);
      stateTotals := BumpEntry(stateTotals, Entries(data[..k], StateEntryOf(value)), StateEntryOf(value)(data[k]));
      districtTotals := BumpEntry(districtTotals, Entries(data[..k], DistrictEntryOf(value)), DistrictEntryOf(value)(data[k]));
    }
    assert data[..|data|] == data;
  }

  /** The zero matrix and the loop that adds each row's value to the cell of its district
      and its state when both are shown. The names are the keys of the top lists, so each
      occurs once. */
  method Fill(data: seq<Row>, value: Row -> real, states: seq<string>, districts: seq<string>) returns (matrix: array2<real>)
    requires forall i, j :: 0 <= i < j < |states| ==> states[i] != states[j]
    requires forall i, j :: 0 <= i < j < |districts| ==> districts[i] != districts[j]
    ensures fresh(matrix) && matrix.Length0 == |districts| && matrix.Length1 == |states|
    ensures forall i, j :: 0 <= i < |districts| && 0 <= j < |states| ==>
      matrix[i, j] == CellSum(data, value, districts[i], states[j])
  {
    matrix := new real[|districts|, |states|]((i, j) => 0.0);
    for k := 0 to |data|
      invariant forall i, j :: 0 <= i < |districts| && 0 <= j < |states| ==>
        matrix[i, j] == CellSum(data[..k], value, districts[i], states[j])
    {
      var row := data[k];
      CellStep(data, value, k);
      var si := Find(states, row.state);
      var di := Find(districts, row.district);
      if si >= 0 && di >= 0 {
        matrix[di, si] := matrix[di, si] + value(row);
      }
    }
    assert data[..|data|] == data;
  }

  lemma CellStep(data: seq<Row>, value: Row -> real, k: nat)
    requires k < |data|
    ensures forall d, s ::
      CellSum(data[..k + 1], value, d, s)
      == CellSum(data[..k], value, d, s) + (if data[k].district == d && data[k].state == s then value(data[k]) else 0.0)
  {
    assert data[..k + 1][..k] == data[..k];
  }

  /** The component body after the empty-data check: the totals, the two top lists and
      the matrix. */
  method Heatmap(data: seq<Row>, value: Row -> real, topStates: nat, topDistricts: nat)
    returns (states: seq<string>, districts: seq<string>, matrix: array2<real>)
    ensures states == TopNames(StateSums(data, value), topStates)
    ensures districts == TopNames(DistrictSums(data, value), topDistricts)
    ensures fresh(matrix) && matrix.Length0 == |districts| && matrix.Length1 == |states|
    ensures forall i, j :: 0 <= i < |districts| && 0 <= j < |states| ==>
      matrix[i, j] == CellSum(data, value, districts[i], states[j])
  {
    var stateTotals, districtTotals := Totals(data, value);
    states := KeysOf(TopK(stateTotals, topStates, true));
    districts := KeysOf(TopK(districtTotals, topDistricts, true));
    TopKeysOfGroup(Entries(data, StateEntryOf(value)), topStates, true);
    TopKeysOfGroup(Entries(data, DistrictEntryOf(value)), topDistricts, true);
    matrix := Fill(data, value, states, districts);
  }

  /** `Math.max(0, ...matrix.flat())`. */
  method MaxCell(matrix: array2<real>) returns (mx: real)
    ensures mx >= 0.0
    ensures forall i, j :: 0 <= i < matrix.Length0 && 0 <= j < matrix.Length1 ==> matrix[i, j] <= mx
    ensures mx == 0.0 || exists i, j :: 0 <= i < matrix.Length0 && 0 <= j < matrix.Length1 && matrix[i, j] == mx
  {
    mx := 0.0;
    for i := 0 to matrix.Length0
      invariant mx >= 0.0
      invariant forall p, q :: 0 <= p < i && 0 <= q < matrix.Length1 ==> matrix[p, q] <= mx
      invariant mx == 0.0 || exists p, q :: 0 <= p < i && 0 <= q < matrix.Length1 && matrix[p, q] == mx
    {
      for j := 0 to matrix.Length1
        invariant mx >= 0.0
        invariant forall p, q :: 0 <= p < i && 0 <= q < matrix.Length1 ==> matrix[p, q] <= mx
        invariant forall q :: 0 <= q < j ==> matrix[i, q] <= mx
        invariant mx == 0.0 || exists p, q :: 0 <= p <= i && 0 <= q < matrix.Length1 && matrix[p, q] == mx
      {
        if matrix[i, j] > mx {
          mx := matrix[i, j];
        }
      }
    }
  }

  /** What a cell shows: nothing for 0, otherwise its value in compact form. */
  datatype Label = NoLabel | Compact(v: real)

  /** The colour of a cell's text. */
  datatype TextColor = Transparent | White | Dark

  function LabelOf(v: real): (l: Label)
    ensures l.NoLabel? <==> v == 0.0
    ensures l.Compact? ==> l.v == v
  {
    if v == 0.0 then NoLabel else Compact(v)
  }

  /** Transparent text on an empty cell; white on a cell of at least 55% of the largest
      cell, dark otherwise. */
  function TextColorOf(v: real, mx: real): (c: TextColor)
    ensures c == Transparent <==> v == 0.0
    ensures c == White <==> v != 0.0 && v >= mx * 0.55
  {
    if v == 0.0 then Transparent else if v >= mx * 0.55 then White else Dark
  }

  /** The largest cell, when it is not empty, is written in white; a non-empty cell below
      55% of the largest is written dark. */
  lemma LargestCellIsWhite(v: real, mx: real)
    requires 0.0 < v == mx
    ensures TextColorOf(v, mx) == White
    ensures forall w :: 0.0 < w < mx * 0.55 ==> TextColorOf(w, mx) == Dark
  {
  }

  lemma {:induction false} EntriesByState(data: seq<Row>, value: Row -> real, s: string)
    ensures SumFor(Entries(data, StateEntryOf(value)), s) == StateSum(data, value, s)
  {
    if |data| > 0 {
      var n := |data| - 1;
      EntriesByState(data[..n], value, s);
      SumForAppend(Entries(data[..n], StateEntryOf(value)), StateEntryOf(value)(data[n]), s);
      assert StateEntryOf(value)(data[n])[..0] == [];
    }
  }

  lemma {:induction false} EntriesByDistrict(data: seq<Row>, value: Row -> real, d: string)
    ensures SumFor(Entries(data, DistrictEntryOf(value)), d) == DistrictSum(data, value, d)
  {
    if |data| > 0 {
      var n := |data| - 1;
      EntriesByDistrict(data[..n], value, d);
      SumForAppend(Entries(data[..n], DistrictEntryOf(value)), DistrictEntryOf(value)(data[n]), d);
      assert DistrictEntryOf(value)(data[n])[..0] == [];
    }
  }

  /** The columns: at most topStates states, each once, in descending order of their
      sums, and no state left out has a larger sum than a state shown. */
  lemma TopStatesChosen(data: seq<Row>, value: Row -> real, k: nat)
    ensures |TopNames(StateSums(data, value), k)| <= k
    ensures forall i, j :: 0 <= i < j < |TopNames(StateSums(data, value), k)| ==>
      TopNames(StateSums(data, value), k)[i] != TopNames(StateSums(data, value), k)[j]
      && StateSum(data, value, TopNames(StateSums(data, value), k)[i]) >= StateSum(data, value, TopNames(StateSums(data, value), k)[j])
    ensures forall x, y ::
      x in KeysOf(Entries(data, StateEntryOf(value))) && x !in TopNames(StateSums(data, value), k) && y in TopNames(StateSums(data, value), k)
      ==> StateSum(data, value, y) >= StateSum(data, value, x)
  {
    TopStatesOrdered(data, value, k);
    TopStatesBeatRest(data, value, k);
  }

  lemma TopStatesOrdered(data: seq<Row>, value: Row -> real, k: nat)
    ensures |TopNames(StateSums(data, value), k)| <= k
    ensures forall i, j :: 0 <= i < j < |TopNames(StateSums(data, value), k)| ==>
      TopNames(StateSums(data, value), k)[i] != TopNames(StateSums(data, value), k)[j]
      && StateSum(data, value, TopNames(StateSums(data, value), k)[i]) >= StateSum(data, value, TopNames(StateSums(data, value), k)[j])
  {
    var names := TopNames(StateSums(data, value), k);
    TopKeysOfGroup(Entries(data, StateEntryOf(value)), k, true);
    forall i, j | 0 <= i < j < |names|
      ensures names[i] != names[j] && StateSum(data, value, names[i]) >= StateSum(data, value, names[j])
    {
      EntriesByState(data, value, names[i]);
      EntriesByState(data, value, names[j]);
    }
  }

  lemma TopStatesBeatRest(data: seq<Row>, value: Row -> real, k: nat)
    ensures forall x, y ::
      x in KeysOf(Entries(data, StateEntryOf(value))) && x !in TopNames(StateSums(data, value), k) && y in TopNames(StateSums(data, value), k)
      ==> StateSum(data, value, y) >= StateSum(data, value, x)
  {
    var names := TopNames(StateSums(data, value), k);
    TopKeysOfGroup(Entries(data, StateEntryOf(value)), k, true);
    forall x, y | x in KeysOf(Entries(data, StateEntryOf(value))) && x !in names && y in names
      ensures StateSum(data, value, y) >= StateSum(data, value, x)
    {
      EntriesByState(data, value, x);
      EntriesByState(data, value, y);
    }
  }

  /** The rows: at most topDistricts district names, each once, in descending order of
      their sums, and no district left out has a larger sum than a district shown. */
  lemma TopDistrictsChosen(data: seq<Row>, value: Row -> real, k: nat)
    ensures |TopNames(DistrictSums(data, value), k)| <= k
    ensures forall i, j :: 0 <= i < j < |TopNames(DistrictSums(data, value), k)| ==>
      TopNames(DistrictSums(data, value), k)[i] != TopNames(DistrictSums(data, value), k)[j]
      && DistrictSum(data, value, TopNames(DistrictSums(data, value), k)[i]) >= DistrictSum(data, value, TopNames(DistrictSums(data, value), k)[j])
    ensures forall x, y ::
      x in KeysOf(Entries(data, DistrictEntryOf(value))) && x !in TopNames(DistrictSums(data, value), k) && y in TopNames(DistrictSums(data, value), k)
      ==> DistrictSum(data, value, y) >= DistrictSum(data, value, x)
  {
    TopDistrictsOrdered(data, value, k);
    TopDistrictsBeatRest(data, value, k);
  }

  lemma TopDistrictsOrdered(data: seq<Row>, value: Row -> real, k: nat)
    ensures |TopNames(DistrictSums(data, value), k)| <= k
    ensures forall i, j :: 0 <= i < j < |TopNames(DistrictSums(data, value), k)| ==>
      TopNames(DistrictSums(data, value), k)[i] != TopNames(DistrictSums(data, value), k)[j]
      && DistrictSum(data, value, TopNames(DistrictSums(data, value), k)[i]) >= DistrictSum(data, value, TopNames(DistrictSums(data, value), k)[j])
  {
    var names := TopNames(DistrictSums(data, value), k);
    TopKeysOfGroup(Entries(data, DistrictEntryOf(value)), k, true);
    forall i, j | 0 <= i < j < |names|
      ensures names[i] != names[j] && DistrictSum(data, value, names[i]) >= DistrictSum(data, value, names[j])
    {
      EntriesByDistrict(data, value, names[i]);
      EntriesByDistrict(data, value, names[j]);
    }
  }

  lemma TopDistrictsBeatRest(data: seq<Row>, value: Row -> real, k: nat)
    ensures forall x, y ::
      x in KeysOf(Entries(data, DistrictEntryOf(value))) && x !in TopNames(DistrictSums(data, value), k) && y in TopNames(DistrictSums(data, value), k)
      ==> DistrictSum(data, value, y) >= DistrictSum(data, value, x)
  {
    var names := TopNames(DistrictSums(data, value), k);
    TopKeysOfGroup(Entries(data, DistrictEntryOf(value)), k, true);
    forall x, y | x in KeysOf(Entries(data, DistrictEntryOf(value))) && x !in names && y in names
      ensures DistrictSum(data, value, y) >= DistrictSum(data, value, x)
    {
      EntriesByDistrict(data, value, x);
      EntriesByDistrict(data, value, y);
    }
  }

  /** With non-negative values a cell never exceeds the sum of its state or the sum of
      its district name. */
  lemma {:induction false} CellWithinTotals(data: seq<Row>, value: Row -> real, d: string, s: string)
    requires forall r :: r in data ==> value(r) >= 0.0
    ensures 0.0 <= CellSum(data, value, d, s) <= StateSum(data, value, s)
    ensures CellSum(data, value, d, s) <= DistrictSum(data, value, d)
  {
    if |data| > 0 {
      var n := |data| - 1;
      assert forall r :: r in data[..n] ==> r in data;
      assert data[n] in data;
      CellWithinTotals(data[..n], value, d, s);
    }
  }
}
