/** The node list of the sunburst chart
    (uidai-dashboard/src/components/charts/SunburstChart.jsx, second half of the
    `sunburst` memo): a root "India", then for each state by descending total its node,
    its largest districts (at most `maxDistrictsPerState`, each followed by its age
    nodes in age breakdown mode) and an "Other" node gathering the remaining districts.
    The chart's four parallel arrays (ids, labels, parents, values) are one sequence of
    nodes here, and the string ids are a datatype. */
module SunburstTree {
  import opened Common
  import opened Aggregates
  import opened AdvancedAnalytics
  import opened SunburstTotals

  const DefaultMaxDistricts: nat := 15

  /** `root`, `state:S`, `district:S:D`, `district:S:__other__`, `age:S:D:G` and
      `age:S:__other__:G`. */
  datatype NodeId =
    | Root
    | StateId(state: string)
    | DistrictId(state: string, district: string)
    | OtherId(state: string)
    | AgeId(state: string, district: string, group: string)
    | OtherAgeId(state: string, group: string)

  /** One sunburst sector; the root's parent is the empty string, None here. */
  datatype Node = Node(id: NodeId, caption: string, parent: Option<NodeId>, value: real)

  /** `labelForAgeKey`: the display label of a known age key, the key itself otherwise. */
  function AgeLabel(g: string): string {
    if g == AgeKey(Age0To5) then "0-5 Years"
    else if g == AgeKey(Age5To17) then "5-17 Years"
    else if g == AgeKey(Age18Plus) then "18+ Years"
    else g
  }

  /** An age sector, emitted only for a positive total (`if (ageTotal <= 0) continue`). */
  function AgeNode(id: NodeId, g: string, parent: NodeId, v: real): (r: seq<Node>)
    ensures |r| <= 1
    ensures forall i :: 0 <= i < |r| ==> r[i].parent == Some(parent) && r[i].value > 0.0
  {
    if v > 0.0 then [Node(id, AgeLabel(g), Some(parent), v)] else []
  }

  /** The age sectors of a top district, in selection order. */
  function DistrictAgeNodes(ages: seq<Bucket<Triple>>, s: string, d: string, gs: seq<string>): (r: seq<Node>)
    ensures forall i :: 0 <= i < |r| ==> r[i].parent == Some(DistrictId(s, d)) && r[i].value > 0.0
  {
    if |gs| == 0 then []
    else
      var g := gs[|gs| - 1];
      DistrictAgeNodes(ages, s, d, gs[..|gs| - 1]) + AgeNode(AgeId(s, d, g), g, DistrictId(s, d), Lookup(ages, (s, d, g)))
  }

  /** `ageOther`: the age group's total over the districts folded into "Other". */
  function OtherValue(ages: seq<Bucket<Triple>>, s: string, rest: seq<Bucket<string>>, g: string): real {
    if |rest| == 0 then 0.0
    else OtherValue(ages, s, rest[..|rest| - 1], g) + Lookup(ages, (s, rest[|rest| - 1].key, g))
  }

  /** The age sectors of the "Other" node, in selection order. */
  function OtherAgeNodes(ages: seq<Bucket<Triple>>, s: string, rest: seq<Bucket<string>>, gs: seq<string>): (r: seq<Node>)
    ensures forall i :: 0 <= i < |r| ==> r[i].parent == Some(OtherId(s)) && r[i].value > 0.0
  {
    if |gs| == 0 then []
    else
      var g := gs[|gs| - 1];
      OtherAgeNodes(ages, s, rest, gs[..|gs| - 1]) + AgeNode(OtherAgeId(s, g), g, OtherId(s), OtherValue(ages, s, rest, g))
  }

  /** The node hangs below state k: its parent is state k's node or one of its
      district or "Other" nodes. */
  predicate Under(n: Node, k: string) {
    n.parent.Some? && !n.parent.value.Root? && n.parent.value.state == k
  }

  /** A top district's sector followed, in age breakdown mode, by its age sectors. */
  function DistrictBlock(t: Totals, mode: Mode, groups: seq<string>, s: string, x: Bucket<string>): (r: seq<Node>)
    ensures forall i :: 0 <= i < |r| ==> Under(r[i], s)
  {
    [Node(DistrictId(s, x.key), x.key, Some(StateId(s)), x.value)]
      + (if mode == AgeBreakdown then DistrictAgeNodes(t.ages, s, x.key, groups) else [])
  }

  function DistrictNodes(t: Totals, mode: Mode, groups: seq<string>, s: string, top: seq<Bucket<string>>): (r: seq<Node>)
    ensures forall i :: 0 <= i < |r| ==> Under(r[i], s)
  {
    if |top| == 0 then []
    else DistrictNodes(t, mode, groups, s, top[..|top| - 1]) + DistrictBlock(t, mode, groups, s, top[|top| - 1])
  }

  /** The "Other" sector and its age sectors, present only when districts remain. */
  function OtherBlock(t: Totals, mode: Mode, groups: seq<string>, s: string, rest: seq<Bucket<string>>): (r: seq<Node>)
    ensures forall i :: 0 <= i < |r| ==> Under(r[i], s)
  {
    if |rest| == 0 then []
    else
      [Node(OtherId(s), "Other", Some(StateId(s)), Total(rest))]
        + (if mode == AgeBreakdown then OtherAgeNodes(t.ages, s, rest, groups) else [])
  }

  /** A state's districts by descending total (a stable sort). */
  function Ranked(t: Totals, s: string): seq<Bucket<string>> {
    SortBy(DistrictsOf(t.districts, s), true)
  }

  function StateBlock(t: Totals, mode: Mode, groups: seq<string>, maxD: nat, st: Bucket<string>): seq<Node> {
    var ranked := Ranked(t, st.key);
    [Node(StateId(st.key), st.key, Some(Root), st.value)]
      + DistrictNodes(t, mode, groups, st.key, Take(ranked, maxD))
      + OtherBlock(t, mode, groups, st.key, Drop(ranked, maxD))
  }

  function StateBlocks(t: Totals, mode: Mode, groups: seq<string>, maxD: nat, states: seq<Bucket<string>>): seq<Node> {
    if |states| == 0 then []
    else StateBlocks(t, mode, groups, maxD, states[..|states| - 1]) + StateBlock(t, mode, groups, maxD, states[|states| - 1])
  }

  /** The root followed by the state blocks, states by descending total. */
  function Tree(t: Totals, mode: Mode, groups: seq<string>, maxD: nat): seq<Node> {
    [Node(Root, "India", None, t.grand)] + StateBlocks(t, mode, groups, maxD, SortBy(t.states, true))
  }

  /** The memo: None for missing or empty data and when nothing positive was summed. */
  function SunburstOf(data: seq<Row>, maxD: nat, mode: Mode, groups: seq<string>): Option<seq<Node>> {
    if |data| == 0 then None
    else
      var t := TotalsOf(data, mode, groups);
      if t.grand <= 0.0 then None else Some(Tree(t, mode, groups, maxD))
  }

  // ---------------------------------------------------------------------------
  // The emitting loops

  lemma DistrictAgeNodesStep(ages: seq<Bucket<Triple>>, s: string, d: string, groups: seq<string>, j: nat)
    requires j < |groups|
    ensures DistrictAgeNodes(ages, s, d, groups[..j + 1]) ==
      DistrictAgeNodes(ages, s, d, groups[..j]) + AgeNode(AgeId(s, d, groups[j]), groups[j], DistrictId(s, d), Lookup(ages, (s, d, groups[j])))
  {
    assert groups[..j + 1][..j] == groups[..j];
  }

  lemma OtherAgeNodesStep(ages: seq<Bucket<Triple>>, s: string, rest: seq<Bucket<string>>, groups: seq<string>, j: nat)
    requires j < |groups|
    ensures OtherAgeNodes(ages, s, rest, groups[..j + 1]) ==
      OtherAgeNodes(ages, s, rest, groups[..j]) + AgeNode(OtherAgeId(s, groups[j]), groups[j], OtherId(s), OtherValue(ages, s, rest, groups[j]))
  {
    assert groups[..j + 1][..j] == groups[..j];
  }

  lemma DistrictNodesStep(t: Totals, mode: Mode, groups: seq<string>, s: string, top: seq<Bucket<string>>, i: nat)
    requires i < |top|
    ensures DistrictNodes(t, mode, groups, s, top[..i + 1]) ==
      DistrictNodes(t, mode, groups, s, top[..i]) + DistrictBlock(t, mode, groups, s, top[i])
  {
    assert top[..i + 1][..i] == top[..i];
  }

  lemma StateBlocksStep(t: Totals, mode: Mode, groups: seq<string>, maxD: nat, states: seq<Bucket<string>>, i: nat)
    requires i < |states|
    ensures StateBlocks(t, mode, groups, maxD, states[..i + 1]) ==
      StateBlocks(t, mode, groups, maxD, states[..i]) + StateBlock(t, mode, groups, maxD, states[i])
  {
    assert states[..i + 1][..i] == states[..i];
  }

  method EmitDistrictAges(ages: seq<Bucket<Triple>>, s: string, d: string, groups: seq<string>, nodes: seq<Node>)
    returns (out: seq<Node>)
    ensures out == nodes + DistrictAgeNodes(ages, s, d, groups)
  {
    out := nodes;
    ghost var acc: seq<Node> := [];
    for j := 0 to |groups|
      invariant acc == DistrictAgeNodes(ages, s, d, groups[..j])
      invariant out == nodes + acc
    {
      var g := groups[j];
      var ageTotal := Lookup(ages, (s, d, g));
      var node := AgeNode(AgeId(s, d, g), g, DistrictId(s, d), ageTotal);
      DistrictAgeNodesStep(ages, s, d, groups, j);
      ConcatAssoc(nodes, acc, node);
      out := out + node;
      acc := acc + node;
    }
    assert groups[..|groups|] == groups;
  }

  method OtherAge(ages: seq<Bucket<Triple>>, s: string, rest: seq<Bucket<string>>, g: string) returns (v: real)
    ensures v == OtherValue(ages, s, rest, g)
  {
    v := 0.0;
    for i := 0 to |rest|
      invariant v == OtherValue(ages, s, rest[..i], g)
    {
      assert rest[..i + 1][..i] == rest[..i];
      v := v + Lookup(ages, (s, rest[i].key, g));
    }
    assert rest[..|rest|] == rest;
  }

  method EmitOtherAges(ages: seq<Bucket<Triple>>, s: string, rest: seq<Bucket<string>>, groups: seq<string>, nodes: seq<Node>)
    returns (out: seq<Node>)
    ensures out == nodes + OtherAgeNodes(ages, s, rest, groups)
  {
    out := nodes;
    ghost var acc: seq<Node> := [];
    for j := 0 to |groups|
      invariant acc == OtherAgeNodes(ages, s, rest, groups[..j])
      invariant out == nodes + acc
    {
      var g := groups[j];
      var ageOther := OtherAge(ages, s, rest, g);
      var node := AgeNode(OtherAgeId(s, g), g, OtherId(s), ageOther);
      OtherAgeNodesStep(ages, s, rest, groups, j);
      ConcatAssoc(nodes, acc, node);
      out := out + node;
      acc := acc + node;
    }
    assert groups[..|groups|] == groups;
  }

  /** One top district: its sector, then its age sectors in age breakdown mode. */
  method EmitDistrict(t: Totals, mode: Mode, groups: seq<string>, s: string, x: Bucket<string>, nodes: seq<Node>)
    returns (out: seq<Node>)
    ensures out == nodes + DistrictBlock(t, mode, groups, s, x)
  {
    var head := [Node(DistrictId(s, x.key), x.key, Some(StateId(s)), x.value)];
    out := nodes + head;
    if mode == AgeBreakdown {
      out := EmitDistrictAges(t.ages, s, x.key, groups, out);
      ConcatAssoc(nodes, head, DistrictAgeNodes(t.ages, s, x.key, groups));
    }
  }

  method EmitDistricts(t: Totals, mode: Mode, groups: seq<string>, s: string, top: seq<Bucket<string>>, nodes: seq<Node>)
    returns (out: seq<Node>)
    ensures out == nodes + DistrictNodes(t, mode, groups, s, top)
  {
    out := nodes;
    ghost var acc: seq<Node> := [];
    for i := 0 to |top|
      invariant acc == DistrictNodes(t, mode, groups, s, top[..i])
      invariant out == nodes + acc
    {
      ghost var block := DistrictBlock(t, mode, groups, s, top[i]);
      out := EmitDistrict(t, mode, groups, s, top[i], out);
      DistrictNodesStep(t, mode, groups, s, top, i);
      ConcatAssoc(nodes, acc, block);
      acc := acc + block;
    }
    assert top[..|top|] == top;
  }

  /** Collects the districts of state s from the district map, in map order. */
  method CollectDistricts(m: seq<Bucket<Pair>>, s: string) returns (ds: seq<Bucket<string>>)
    ensures ds == DistrictsOf(m, s)
  {
    ds := [];
    assert m[..0] == [];
    for i := 0 to |m|
      invariant ds == DistrictsOf(m[..i], s)
    {
      DistrictsOfSnoc(m, s, i);
      if m[i].key.0 == s {
        ds := ds + [Bucket(m[i].key.1, m[i].value)];
      }
    }
    assert m[..|m|] == m;
  }

  lemma {:induction false} DistrictsOfAppend(a: seq<Bucket<Pair>>, b: seq<Bucket<Pair>>, s: string)
    ensures DistrictsOf(a + b, s) == DistrictsOf(a, s) + DistrictsOf(b, s)
  {
    if |a| > 0 {
      assert (a + b)[1..] == a[1..] + b;
      DistrictsOfAppend(a[1..], b, s);
    } else {
      assert a + b == b;
    }
  }

  lemma DistrictsOfSnoc(m: seq<Bucket<Pair>>, s: string, i: nat)
    requires i < |m|
    ensures DistrictsOf(m[..i + 1], s) ==
      DistrictsOf(m[..i], s) + (if m[i].key.0 == s then [Bucket(m[i].key.1, m[i].value)] else [])
  {
    assert m[..i + 1] == m[..i] + [m[i]];
    DistrictsOfAppend(m[..i], [m[i]], s);
    assert [m[i]][1..] == [];
  }

  /** The "Other" sector and its age sectors, when districts remain. */
  method EmitOther(t: Totals, mode: Mode, groups: seq<string>, s: string, rest: seq<Bucket<string>>, nodes: seq<Node>)
    returns (out: seq<Node>)
    ensures out == nodes + OtherBlock(t, mode, groups, s, rest)
  {
    out := nodes;
    if |rest| > 0 {
      var otherTotal := Total(rest);
      var head := [Node(OtherId(s), "Other", Some(StateId(s)), otherTotal)];
      out := nodes + head;
      if mode == AgeBreakdown {
        out := EmitOtherAges(t.ages, s, rest, groups, out);
        ConcatAssoc(nodes, head, OtherAgeNodes(t.ages, s, rest, groups));
      }
    }
  }

  method EmitState(t: Totals, mode: Mode, groups: seq<string>, maxD: nat, st: Bucket<string>, nodes: seq<Node>)
    returns (out: seq<Node>)
    ensures out == nodes + StateBlock(t, mode, groups, maxD, st)
  {
    var s := st.key;
    var head := [Node(StateId(s), s, Some(Root), st.value)];
    var districts := CollectDistricts(t.districts, s);
    var ranked := SortBy(districts, true);
    var top := Take(ranked, maxD);
    var rest := Drop(ranked, maxD);
    ghost var a := DistrictNodes(t, mode, groups, s, top);
    ghost var b := OtherBlock(t, mode, groups, s, rest);
    out := EmitDistricts(t, mode, groups, s, top, nodes + head);
    out := EmitOther(t, mode, groups, s, rest, out);
    ConcatAssoc(nodes, head, a);
    ConcatAssoc(nodes, head + a, b);
  }

  method EmitStates(t: Totals, mode: Mode, groups: seq<string>, maxD: nat, states: seq<Bucket<string>>, nodes: seq<Node>)
    returns (out: seq<Node>)
    ensures out == nodes + StateBlocks(t, mode, groups, maxD, states)
  {
    out := nodes;
    ghost var acc: seq<Node> := [];
    for i := 0 to |states|
      invariant acc == StateBlocks(t, mode, groups, maxD, states[..i])
      invariant out == nodes + acc
    {
      ghost var block := StateBlock(t, mode, groups, maxD, states[i]);
      out := EmitState(t, mode, groups, maxD, states[i], out);
      StateBlocksStep(t, mode, groups, maxD, states, i);
      ConcatAssoc(nodes, acc, block);
      acc := acc + block;
    }
    assert states[..|states|] == states;
  }

  /** The whole memo, proved to build the node list of `SunburstOf`. */
  method BuildSunburst(data: seq<Row>, maxD: nat, mode: Mode, groups: seq<string>) returns (r: Option<seq<Node>>)
    ensures r == SunburstOf(data, maxD, mode, groups)
  {
    if |data| == 0 {
      return None;
    }
    var t := Accumulate(data, mode, groups);
    if t.grand <= 0.0 {
      return None;
    }
    var nodes := EmitStates(t, mode, groups, maxD, SortBy(t.states, true), [Node(Root, "India", None, t.grand)]);
    r := Some(nodes);
  }

  // ---------------------------------------------------------------------------
  // What the chart promises: plotly's `branchvalues: "total"` reads each sector's
  // value as the total of its children, so every parent must equal the sum of its
  // children; every sector is positive; the top districts are the largest.

  /** The sum of the values of the nodes whose parent is p. */
  function ChildSum(nodes: seq<Node>, p: NodeId): real {
    if |nodes| == 0 then 0.0
    else
      var last := nodes[|nodes| - 1];
      ChildSum(nodes[..|nodes| - 1], p) + (if last.parent == Some(p) then last.value else 0.0)
  }

  lemma {:induction false} ChildSumAppend(a: seq<Node>, b: seq<Node>, p: NodeId)
    ensures ChildSum(a + b, p) == ChildSum(a, p) + ChildSum(b, p)
  {
    if |b| > 0 {
      var n := |b| - 1;
      assert (a + b)[..|a + b| - 1] == a + b[..n];
      ChildSumAppend(a, b[..n], p);
    } else {
      assert a + b == a;
    }
  }

  lemma {:induction false} ChildSumNone(nodes: seq<Node>, p: NodeId)
    requires forall i :: 0 <= i < |nodes| ==> nodes[i].parent != Some(p)
    ensures ChildSum(nodes, p) == 0.0
  {
    if |nodes| > 0 {
      var n := |nodes| - 1;
      assert forall i :: 0 <= i < n ==> nodes[..n][i] == nodes[i];
      ChildSumNone(nodes[..n], p);
    }
  }

  lemma ChildSumOne(n: Node, p: NodeId)
    ensures ChildSum([n], p) == if n.parent == Some(p) then n.value else 0.0
  {
    assert [n][..0] == [];
  }

  /** Nothing below state k hangs from a node of another state, nor from the root. */
  lemma UnderElsewhere(nodes: seq<Node>, k: string, p: NodeId)
    requires forall i :: 0 <= i < |nodes| ==> Under(nodes[i], k)
    requires p.Root? || p.state != k
    ensures ChildSum(nodes, p) == 0.0
  {
    ChildSumNone(nodes, p);
  }

  // The root

  lemma StateBlockParts(t: Totals, mode: Mode, groups: seq<string>, maxD: nat, st: Bucket<string>)
    ensures var ranked := Ranked(t, st.key);
      StateBlock(t, mode, groups, maxD, st) ==
        [Node(StateId(st.key), st.key, Some(Root), st.value)]
          + (DistrictNodes(t, mode, groups, st.key, Take(ranked, maxD))
             + OtherBlock(t, mode, groups, st.key, Drop(ranked, maxD)))
  {
  }

  /** Within a state's block, the state node is the one child of the root, its children
      add up to the state's districts' total, and nothing hangs from another state's
      node. */
  lemma BlockChildren(t: Totals, mode: Mode, groups: seq<string>, maxD: nat, st: Bucket<string>, p: NodeId)
    ensures p == Root ==> ChildSum(StateBlock(t, mode, groups, maxD, st), p) == st.value
    ensures p == StateId(st.key) ==> ChildSum(StateBlock(t, mode, groups, maxD, st), p) == Total(Ranked(t, st.key))
    ensures p.StateId? && p.state != st.key ==> ChildSum(StateBlock(t, mode, groups, maxD, st), p) == 0.0
  {
    var k := st.key;
    var ranked := Ranked(t, k);
    var head := [Node(StateId(k), k, Some(Root), st.value)];
    var a := DistrictNodes(t, mode, groups, k, Take(ranked, maxD));
    var b := OtherBlock(t, mode, groups, k, Drop(ranked, maxD));
    StateBlockParts(t, mode, groups, maxD, st);
    ChildSumAppend(head, a + b, p);
    ChildSumAppend(a, b, p);
    ChildSumOne(head[0], p);
    if p == Root || (p.StateId? && p.state != k) {
      UnderElsewhere(a, k, p);
      UnderElsewhere(b, k, p);
    } else if p == StateId(k) {
      DistrictNodesState(t, mode, groups, k, Take(ranked, maxD));
      OtherBlockState(t, mode, groups, k, Drop(ranked, maxD));
      TotalAppend(Take(ranked, maxD), Drop(ranked, maxD));
    }
  }

  /** The top districts' nodes are children of their state's node, worth their totals. */
  lemma {:induction false} DistrictNodesState(t: Totals, mode: Mode, groups: seq<string>, k: string, top: seq<Bucket<string>>)
    ensures ChildSum(DistrictNodes(t, mode, groups, k, top), StateId(k)) == Total(top)
  {
    if |top| > 0 {
      var n := |top| - 1;
      var x := top[n];
      var prefix := DistrictNodes(t, mode, groups, k, top[..n]);
      var head := [Node(DistrictId(k, x.key), x.key, Some(StateId(k)), x.value)];
      var ages := if mode == AgeBreakdown then DistrictAgeNodes(t.ages, k, x.key, groups) else [];
      assert DistrictNodes(t, mode, groups, k, top) == prefix + (head + ages);
      DistrictNodesState(t, mode, groups, k, top[..n]);
      ChildSumAppend(prefix, head + ages, StateId(k));
      ChildSumAppend(head, ages, StateId(k));
      ChildSumOne(head[0], StateId(k));
      ChildSumNone(ages, StateId(k));
      TotalSnoc(top);
    }
  }

  /** The "Other" node is a child of its state's node, worth the folded districts' total. */
  lemma OtherBlockState(t: Totals, mode: Mode, groups: seq<string>, k: string, rest: seq<Bucket<string>>)
    ensures ChildSum(OtherBlock(t, mode, groups, k, rest), StateId(k)) == Total(rest)
  {
    if |rest| > 0 {
      var head := [Node(OtherId(k), "Other", Some(StateId(k)), Total(rest))];
      var ages := if mode == AgeBreakdown then OtherAgeNodes(t.ages, k, rest, groups) else [];
      ChildSumAppend(head, ages, StateId(k));
      ChildSumOne(head[0], StateId(k));
      ChildSumNone(ages, StateId(k));
    }
  }

  lemma {:induction false} StateBlocksRoot(t: Totals, mode: Mode, groups: seq<string>, maxD: nat, states: seq<Bucket<string>>)
    ensures ChildSum(StateBlocks(t, mode, groups, maxD, states), Root) == Total(states)
  {
    if |states| > 0 {
      var n := |states| - 1;
      var prefix := StateBlocks(t, mode, groups, maxD, states[..n]);
      var block := StateBlock(t, mode, groups, maxD, states[n]);
      assert StateBlocks(t, mode, groups, maxD, states) == prefix + block;
      StateBlocksRoot(t, mode, groups, maxD, states[..n]);
      ChildSumAppend(prefix, block, Root);
      BlockChildren(t, mode, groups, maxD, states[n], Root);
      TotalSnoc(states);
    }
  }

  /** There is no chart exactly when no row contributes anything (in particular for no
      rows at all). */
  lemma NothingToDraw(data: seq<Row>, maxD: nat, mode: Mode, groups: seq<string>)
    ensures SunburstOf(data, maxD, mode, groups).None? <==>
      forall i :: 0 <= i < |data| ==> Contribution(data[i], mode, groups) == 0.0
  {
    GrandPositive(data, mode, groups);
  }

  /** The root is "India" with the grand total, and the state nodes, its children, add
      up to it. */
  lemma RootIsSumOfStates(data: seq<Row>, maxD: nat, mode: Mode, groups: seq<string>)
    requires SunburstOf(data, maxD, mode, groups).Some?
    ensures var nodes := SunburstOf(data, maxD, mode, groups).value;
      && |nodes| > 0
      && nodes[0] == Node(Root, "India", None, TotalsOf(data, mode, groups).grand)
      && ChildSum(nodes, Root) == nodes[0].value
  {
    var t := TotalsOf(data, mode, groups);
    var root := [Node(Root, "India", None, t.grand)];
    var blocks := StateBlocks(t, mode, groups, maxD, SortBy(t.states, true));
    assert SunburstOf(data, maxD, mode, groups).value == root + blocks;
    ChildSumAppend(root, blocks, Root);
    ChildSumOne(root[0], Root);
    StateBlocksRoot(t, mode, groups, maxD, SortBy(t.states, true));
    TotalSortBy(t.states, true);
    GrandIsSumOfStates(data, mode, groups);
  }

  // States

  /** A state entry whose value is its districts' total. */
  predicate Balanced(t: Totals, st: Bucket<string>) {
    st.value == Total(Ranked(t, st.key))
  }

  lemma {:induction false} StateBlocksState(t: Totals, mode: Mode, groups: seq<string>, maxD: nat, states: seq<Bucket<string>>, s: string)
    requires forall i :: 0 <= i < |states| ==> Balanced(t, states[i])
    ensures ChildSum(StateBlocks(t, mode, groups, maxD, states), StateId(s)) == SumFor(states, s)
  {
    if |states| > 0 {
      var n := |states| - 1;
      var prefix := StateBlocks(t, mode, groups, maxD, states[..n]);
      var block := StateBlock(t, mode, groups, maxD, states[n]);
      assert StateBlocks(t, mode, groups, maxD, states) == prefix + block;
      assert forall i :: 0 <= i < n ==> states[..n][i] == states[i];
      StateBlocksState(t, mode, groups, maxD, states[..n], s);
      ChildSumAppend(prefix, block, StateId(s));
      BlockChildren(t, mode, groups, maxD, states[n], StateId(s));
      assert Balanced(t, states[n]);
    }
  }

  /** Every entry of the state map is its districts' total. */
  lemma StatesBalanced(data: seq<Row>, mode: Mode, groups: seq<string>, st: Bucket<string>)
    requires st in TotalsOf(data, mode, groups).states
    ensures Balanced(TotalsOf(data, mode, groups), st)
  {
    var t := TotalsOf(data, mode, groups);
    var i :| 0 <= i < |t.states| && t.states[i] == st;
    LookupAt(t.states, i);
    StateIsSumOfDistricts(data, mode, groups, st.key);
    TotalSortBy(DistrictsOf(t.districts, st.key), true);
  }

  /** The children of each state's node, its top districts and its "Other" node, add up
      to the state's total (and nothing hangs from a name that is not a state). */
  lemma StateIsSumOfChildren(data: seq<Row>, maxD: nat, mode: Mode, groups: seq<string>, s: string)
    requires SunburstOf(data, maxD, mode, groups).Some?
    ensures ChildSum(SunburstOf(data, maxD, mode, groups).value, StateId(s)) ==
      Lookup(TotalsOf(data, mode, groups).states, s)
  {
    var t := TotalsOf(data, mode, groups);
    var states := SortBy(t.states, true);
    var root := [Node(Root, "India", None, t.grand)];
    var blocks := StateBlocks(t, mode, groups, maxD, states);
    assert SunburstOf(data, maxD, mode, groups).value == root + blocks;
    ChildSumAppend(root, blocks, StateId(s));
    ChildSumOne(root[0], StateId(s));
    forall i | 0 <= i < |states| ensures Balanced(t, states[i]) {
      assert states[i] in multiset(t.states);
      StatesBalanced(data, mode, groups, states[i]);
    }
    StateBlocksState(t, mode, groups, maxD, states, s);
    SumForSortBy(t.states, true, s);
    SumForDistinct(t.states, s);
  }

  // Districts and "Other" in age breakdown mode

  /** A district listed for state s comes from the district map entry of (s, its name). */
  lemma {:induction false} DistrictsOfMember(m: seq<Bucket<Pair>>, s: string, x: Bucket<string>)
    requires x in DistrictsOf(m, s)
    ensures Bucket((s, x.key), x.value) in m
  {
    if |m| > 0 {
      var head := if m[0].key.0 == s then [Bucket(m[0].key.1, m[0].value)] else [];
      assert DistrictsOf(m, s) == head + DistrictsOf(m[1..], s);
      if x !in head {
        DistrictsOfMember(m[1..], s, x);
        assert Bucket((s, x.key), x.value) in m[1..];
      }
    }
  }

  /** With distinct age groups, a district's value is the sum of its age totals. */
  lemma DistrictValue(data: seq<Row>, groups: seq<string>, s: string, x: Bucket<string>)
    requires forall i, j :: 0 <= i < j < |groups| ==> groups[i] != groups[j]
    requires x in DistrictsOf(TotalsOf(data, AgeBreakdown, groups).districts, s)
    ensures x.value == AgeTotal(TotalsOf(data, AgeBreakdown, groups).ages, s, x.key, groups)
  {
    var t := TotalsOf(data, AgeBreakdown, groups);
    DistrictsOfMember(t.districts, s, x);
    var i :| 0 <= i < |t.districts| && t.districts[i] == Bucket((s, x.key), x.value);
    LookupAt(t.districts, i);
    DistrictIsSumOfAges(data, groups, s, x.key);
  }

  lemma {:induction false} DistrictAgeChildren(ages: seq<Bucket<Triple>>, s: string, d: string, gs: seq<string>)
    requires forall i :: 0 <= i < |ages| ==> ages[i].value > 0.0
    ensures ChildSum(DistrictAgeNodes(ages, s, d, gs), DistrictId(s, d)) == AgeTotal(ages, s, d, gs)
  {
    if |gs| > 0 {
      var n := |gs| - 1;
      var g := gs[n];
      var v := Lookup(ages, (s, d, g));
      var prefix := DistrictAgeNodes(ages, s, d, gs[..n]);
      var node := AgeNode(AgeId(s, d, g), g, DistrictId(s, d), v);
      assert DistrictAgeNodes(ages, s, d, gs) == prefix + node;
      DistrictAgeChildren(ages, s, d, gs[..n]);
      ChildSumAppend(prefix, node, DistrictId(s, d));
      LookupNonNegative(ages, (s, d, g));
      if v > 0.0 {
        ChildSumOne(node[0], DistrictId(s, d));
      }
    }
  }

  /** In age breakdown mode with distinct age groups, a district's age nodes add up to
      the district's node. */
  lemma DistrictIsSumOfAgeNodes(data: seq<Row>, groups: seq<string>, s: string, x: Bucket<string>)
    requires forall i, j :: 0 <= i < j < |groups| ==> groups[i] != groups[j]
    requires x in DistrictsOf(TotalsOf(data, AgeBreakdown, groups).districts, s)
    ensures var t := TotalsOf(data, AgeBreakdown, groups);
      var block := DistrictBlock(t, AgeBreakdown, groups, s, x);
      && block[0] == Node(DistrictId(s, x.key), x.key, Some(StateId(s)), x.value)
      && ChildSum(block, DistrictId(s, x.key)) == x.value
  {
    var t := TotalsOf(data, AgeBreakdown, groups);
    var head := [Node(DistrictId(s, x.key), x.key, Some(StateId(s)), x.value)];
    var ages := DistrictAgeNodes(t.ages, s, x.key, groups);
    ChildSumAppend(head, ages, DistrictId(s, x.key));
    ChildSumOne(head[0], DistrictId(s, x.key));
    TotalsPositive(data, AgeBreakdown, groups);
    DistrictAgeChildren(t.ages, s, x.key, groups);
    DistrictValue(data, groups, s, x);
  }

  /** The sum over the age groups of the "Other" age totals. */
  function OtherGroupsTotal(ages: seq<Bucket<Triple>>, s: string, rest: seq<Bucket<string>>, gs: seq<string>): real {
    if |gs| == 0 then 0.0
    else OtherGroupsTotal(ages, s, rest, gs[..|gs| - 1]) + OtherValue(ages, s, rest, gs[|gs| - 1])
  }

  /** The sum over the folded districts of their age totals. */
  function RestAgesTotal(ages: seq<Bucket<Triple>>, s: string, rest: seq<Bucket<string>>, gs: seq<string>): real {
    if |rest| == 0 then 0.0
    else RestAgesTotal(ages, s, rest[..|rest| - 1], gs) + AgeTotal(ages, s, rest[|rest| - 1].key, gs)
  }

  lemma {:induction false} OtherValueNonNegative(ages: seq<Bucket<Triple>>, s: string, rest: seq<Bucket<string>>, g: string)
    requires forall i :: 0 <= i < |ages| ==> ages[i].value > 0.0
    ensures OtherValue(ages, s, rest, g) >= 0.0
  {
    if |rest| > 0 {
      OtherValueNonNegative(ages, s, rest[..|rest| - 1], g);
      LookupNonNegative(ages, (s, rest[|rest| - 1].key, g));
    }
  }

  lemma {:induction false} OtherAgeChildren(ages: seq<Bucket<Triple>>, s: string, rest: seq<Bucket<string>>, gs: seq<string>)
    requires forall i :: 0 <= i < |ages| ==> ages[i].value > 0.0
    ensures ChildSum(OtherAgeNodes(ages, s, rest, gs), OtherId(s)) == OtherGroupsTotal(ages, s, rest, gs)
  {
    if |gs| > 0 {
      var n := |gs| - 1;
      var g := gs[n];
      var v := OtherValue(ages, s, rest, g);
      var prefix := OtherAgeNodes(ages, s, rest, gs[..n]);
      var node := AgeNode(OtherAgeId(s, g), g, OtherId(s), v);
      assert OtherAgeNodes(ages, s, rest, gs) == prefix + node;
      OtherAgeChildren(ages, s, rest, gs[..n]);
      ChildSumAppend(prefix, node, OtherId(s));
      OtherValueNonNegative(ages, s, rest, g);
      if v > 0.0 {
        ChildSumOne(node[0], OtherId(s));
      }
    }
  }

  lemma {:induction false} OtherGroupsEmpty(ages: seq<Bucket<Triple>>, s: string, gs: seq<string>)
    ensures OtherGroupsTotal(ages, s, [], gs) == 0.0
  {
    if |gs| > 0 {
      OtherGroupsEmpty(ages, s, gs[..|gs| - 1]);
    }
  }

  /** One more folded district adds its age totals to the "Other" age totals. */
  lemma {:induction false} OtherGroupsSnoc(ages: seq<Bucket<Triple>>, s: string, rest: seq<Bucket<string>>, x: Bucket<string>, gs: seq<string>)
    ensures OtherGroupsTotal(ages, s, rest + [x], gs) == OtherGroupsTotal(ages, s, rest, gs) + AgeTotal(ages, s, x.key, gs)
  {
    if |gs| > 0 {
      var g := gs[|gs| - 1];
      OtherGroupsSnoc(ages, s, rest, x, gs[..|gs| - 1]);
      assert (rest + [x])[..|rest|] == rest;
      assert OtherValue(ages, s, rest + [x], g) == OtherValue(ages, s, rest, g) + Lookup(ages, (s, x.key, g));
    }
  }

  /** Summing the "Other" age totals over the groups is summing the folded districts'
      age totals. */
  lemma {:induction false} ExchangeSums(ages: seq<Bucket<Triple>>, s: string, rest: seq<Bucket<string>>, gs: seq<string>)
    ensures OtherGroupsTotal(ages, s, rest, gs) == RestAgesTotal(ages, s, rest, gs)
  {
    if |rest| == 0 {
      OtherGroupsEmpty(ages, s, gs);
    } else {
      var n := |rest| - 1;
      ExchangeSums(ages, s, rest[..n], gs);
      assert rest == rest[..n] + [rest[n]];
      OtherGroupsSnoc(ages, s, rest[..n], rest[n], gs);
    }
  }

  lemma {:induction false} RestAgesIsTotal(ages: seq<Bucket<Triple>>, s: string, rest: seq<Bucket<string>>, gs: seq<string>)
    requires forall i :: 0 <= i < |rest| ==> rest[i].value == AgeTotal(ages, s, rest[i].key, gs)
    ensures RestAgesTotal(ages, s, rest, gs) == Total(rest)
  {
    if |rest| > 0 {
      var n := |rest| - 1;
      assert forall i :: 0 <= i < n ==> rest[..n][i] == rest[i];
      RestAgesIsTotal(ages, s, rest[..n], gs);
      TotalSnoc(rest);
    }
  }

  /** The districts folded into "Other" are districts of the state. */
  lemma RestFromState(t: Totals, s: string, maxD: nat, x: Bucket<string>)
    requires x in Drop(Ranked(t, s), maxD)
    ensures x in DistrictsOf(t.districts, s)
  {
    var ranked := Ranked(t, s);
    assert ranked == Take(ranked, maxD) + Drop(ranked, maxD);
    assert x in multiset(ranked);
  }

  /** In age breakdown mode with distinct age groups, the "Other" node is worth the
      folded districts' total, and its age nodes add up to it. */
  lemma OtherIsSumOfAgeNodes(data: seq<Row>, groups: seq<string>, maxD: nat, s: string)
    requires forall i, j :: 0 <= i < j < |groups| ==> groups[i] != groups[j]
    ensures var t := TotalsOf(data, AgeBreakdown, groups);
      var rest := Drop(Ranked(t, s), maxD);
      var block := OtherBlock(t, AgeBreakdown, groups, s, rest);
      && (|rest| > 0 ==> block[0] == Node(OtherId(s), "Other", Some(StateId(s)), Total(rest)))
      && ChildSum(block, OtherId(s)) == Total(rest)
  {
    var t := TotalsOf(data, AgeBreakdown, groups);
    var rest := Drop(Ranked(t, s), maxD);
    if |rest| > 0 {
      var head := [Node(OtherId(s), "Other", Some(StateId(s)), Total(rest))];
      var ages := OtherAgeNodes(t.ages, s, rest, groups);
      ChildSumAppend(head, ages, OtherId(s));
      ChildSumOne(head[0], OtherId(s));
      TotalsPositive(data, AgeBreakdown, groups);
      OtherAgeChildren(t.ages, s, rest, groups);
      ExchangeSums(t.ages, s, rest, groups);
      forall i | 0 <= i < |rest| ensures rest[i].value == AgeTotal(t.ages, s, rest[i].key, groups) {
        RestFromState(t, s, maxD, rest[i]);
        DistrictValue(data, groups, s, rest[i]);
      }
      RestAgesIsTotal(t.ages, s, rest, groups);
    }
  }

  // Every sector is positive

  predicate AllPositive(ns: seq<Node>) {
    forall i :: 0 <= i < |ns| ==> ns[i].value > 0.0
  }

  predicate PositiveBuckets<K>(bs: seq<Bucket<K>>) {
    forall i :: 0 <= i < |bs| ==> bs[i].value > 0.0
  }

  lemma AllPositiveAppend(a: seq<Node>, b: seq<Node>)
    requires AllPositive(a) && AllPositive(b)
    ensures AllPositive(a + b)
  {
    assert forall i :: |a| <= i < |a + b| ==> (a + b)[i] == b[i - |a|];
  }

  lemma {:induction false} DistrictsOfPositive(m: seq<Bucket<Pair>>, s: string)
    requires PositiveBuckets(m)
    ensures PositiveBuckets(DistrictsOf(m, s))
  {
    if |m| > 0 {
      assert forall i :: 0 <= i < |m| - 1 ==> m[1..][i] == m[i + 1];
      DistrictsOfPositive(m[1..], s);
      var head := if m[0].key.0 == s then [Bucket(m[0].key.1, m[0].value)] else [];
      var tail := DistrictsOf(m[1..], s);
      assert DistrictsOf(m, s) == head + tail;
      assert forall i :: |head| <= i < |head + tail| ==> (head + tail)[i] == tail[i - |head|];
    }
  }

  lemma {:induction false} DistrictNodesPositive(t: Totals, mode: Mode, groups: seq<string>, s: string, top: seq<Bucket<string>>)
    requires PositiveBuckets(top)
    ensures AllPositive(DistrictNodes(t, mode, groups, s, top))
  {
    if |top| > 0 {
      var n := |top| - 1;
      var x := top[n];
      assert forall i :: 0 <= i < n ==> top[..n][i] == top[i];
      DistrictNodesPositive(t, mode, groups, s, top[..n]);
      var head := [Node(DistrictId(s, x.key), x.key, Some(StateId(s)), x.value)];
      var ages := if mode == AgeBreakdown then DistrictAgeNodes(t.ages, s, x.key, groups) else [];
      assert DistrictNodes(t, mode, groups, s, top) == DistrictNodes(t, mode, groups, s, top[..n]) + (head + ages);
      AllPositiveAppend(head, ages);
      AllPositiveAppend(DistrictNodes(t, mode, groups, s, top[..n]), head + ages);
    }
  }

  lemma OtherBlockPositive(t: Totals, mode: Mode, groups: seq<string>, s: string, rest: seq<Bucket<string>>)
    requires PositiveBuckets(rest)
    ensures AllPositive(OtherBlock(t, mode, groups, s, rest))
  {
    if |rest| > 0 {
      TotalOfPositive(rest);
      var head := [Node(OtherId(s), "Other", Some(StateId(s)), Total(rest))];
      var ages := if mode == AgeBreakdown then OtherAgeNodes(t.ages, s, rest, groups) else [];
      AllPositiveAppend(head, ages);
    }
  }

  lemma RankedPositive(t: Totals, k: string, maxD: nat)
    requires PositiveBuckets(t.districts)
    ensures PositiveBuckets(Take(Ranked(t, k), maxD)) && PositiveBuckets(Drop(Ranked(t, k), maxD))
  {
    var ranked := Ranked(t, k);
    var top := Take(ranked, maxD);
    var rest := Drop(ranked, maxD);
    DistrictsOfPositive(t.districts, k);
    forall i | 0 <= i < |ranked| ensures ranked[i].value > 0.0 {
      assert ranked[i] in multiset(DistrictsOf(t.districts, k));
    }
    assert ranked == top + rest;
    assert forall i :: 0 <= i < |top| ==> top[i] == ranked[i];
    assert forall i :: 0 <= i < |rest| ==> rest[i] == ranked[|top| + i];
  }

  lemma StateBlockPositive(t: Totals, mode: Mode, groups: seq<string>, maxD: nat, st: Bucket<string>)
    requires st.value > 0.0 && PositiveBuckets(t.districts)
    ensures AllPositive(StateBlock(t, mode, groups, maxD, st))
  {
    var k := st.key;
    var top := Take(Ranked(t, k), maxD);
    var rest := Drop(Ranked(t, k), maxD);
    var a := DistrictNodes(t, mode, groups, k, top);
    var b := OtherBlock(t, mode, groups, k, rest);
    var head := [Node(StateId(k), k, Some(Root), st.value)];
    RankedPositive(t, k, maxD);
    DistrictNodesPositive(t, mode, groups, k, top);
    OtherBlockPositive(t, mode, groups, k, rest);
    StateBlockParts(t, mode, groups, maxD, st);
    AllPositiveAppend(a, b);
    AllPositiveAppend(head, a + b);
  }

  lemma {:induction false} StateBlocksPositive(t: Totals, mode: Mode, groups: seq<string>, maxD: nat, states: seq<Bucket<string>>)
    requires PositiveBuckets(states) && PositiveBuckets(t.districts)
    ensures AllPositive(StateBlocks(t, mode, groups, maxD, states))
  {
    if |states| > 0 {
      var n := |states| - 1;
      assert forall i :: 0 <= i < n ==> states[..n][i] == states[i];
      StateBlocksPositive(t, mode, groups, maxD, states[..n]);
      StateBlockPositive(t, mode, groups, maxD, states[n]);
      AllPositiveAppend(StateBlocks(t, mode, groups, maxD, states[..n]), StateBlock(t, mode, groups, maxD, states[n]));
    }
  }

  lemma TreePositive(t: Totals, mode: Mode, groups: seq<string>, maxD: nat)
    requires t.grand > 0.0 && PositiveBuckets(t.states) && PositiveBuckets(t.districts)
    ensures AllPositive(Tree(t, mode, groups, maxD))
  {
    var states := SortBy(t.states, true);
    var root := [Node(Root, "India", None, t.grand)];
    forall i | 0 <= i < |states| ensures states[i].value > 0.0 {
      assert states[i] in multiset(t.states);
    }
    StateBlocksPositive(t, mode, groups, maxD, states);
    AllPositiveAppend(root, StateBlocks(t, mode, groups, maxD, states));
  }

  /** Every sector of the chart, the root included, has a positive value. */
  lemma SectorsPositive(data: seq<Row>, maxD: nat, mode: Mode, groups: seq<string>)
    requires SunburstOf(data, maxD, mode, groups).Some?
    ensures AllPositive(SunburstOf(data, maxD, mode, groups).value)
  {
    var t := TotalsOf(data, mode, groups);
    TotalsPositive(data, mode, groups);
    TreePositive(t, mode, groups, maxD);
  }

  // The districts shown

  /** Under each state at most maxD districts are shown, by descending total; none of the
      districts folded into "Other" is larger than one shown; shown and folded together
      are exactly the state's districts, and "Other" appears exactly when the state has
      more than maxD districts. */
  lemma TopAndRest(t: Totals, s: string, maxD: nat)
    ensures var all := DistrictsOf(t.districts, s);
      var top := Take(Ranked(t, s), maxD);
      var rest := Drop(Ranked(t, s), maxD);
      && |top| == MinInt(maxD, |all|)
      && SortedBy(top, true)
      && (forall i, j :: 0 <= i < |top| && 0 <= j < |rest| ==> top[i].value >= rest[j].value)
      && multiset(top) + multiset(rest) == multiset(all)
      && (|rest| > 0 <==> |all| > maxD)
  {
    var ranked := Ranked(t, s);
    var top := Take(ranked, maxD);
    var rest := Drop(ranked, maxD);
    assert ranked == top + rest;
    assert forall i :: 0 <= i < |top| ==> top[i] == ranked[i];
    assert forall j :: 0 <= j < |rest| ==> rest[j] == ranked[|top| + j];
  }
}
