/** `_merge_rare_district_variants` of backend/cleaning.py: inside each state, a
    district name seen on only a few rows is rewritten to the most similar frequent
    district name of the same state, when the two share enough tokens and are similar
    enough. The string similarity (difflib's ratio) is a parameter. */
module CleaningMerge {
  import opened Common
  import opened Text
  import opened Aggregates

  /** A cleaned backend record: parsed date, normalised names, the three age counts. */
  datatype Rec = Rec(date: Date, state: string, district: string, age0To5: real, age5To17: real, age18Plus: real)

  /** The three tuning knobs with the defaults 3, 8 and 0.92. */
  datatype MergeParams = MergeParams(rareMaxOcc: int, candidateMinOcc: int, similarityThreshold: real)

  const DefaultMerge: MergeParams := MergeParams(3, 8, 0.92)

  /** A similarity ratio between two strings (`SequenceMatcher(None, a, b).ratio()`). */
  type Similarity = (string, string) -> real

  const StopWords: set<string> := {"and", "of", "the"}

  /** Every whitespace character and hyphen becomes a plain space. */
  function Unhyphen(s: string): (r: string)
    ensures |r| == |s|
    ensures forall i :: 0 <= i < |r| ==> r[i] != '-' && (IsSpace(r[i]) ==> r[i] == ' ')
  {
    seq(|s|, i requires 0 <= i < |s| => if IsSpace(s[i]) || s[i] == '-' then ' ' else s[i])
  }

  /** `tokens`: the lower-cased pieces of the name between runs of whitespace and
      hyphens, without the empty pieces and the words "and", "of", "the". */
  function Tokens(s: string): (r: set<string>)
    ensures forall t :: t in r ==> |t| > 0 && t !in StopWords
    ensures forall t :: t in r ==> forall i :: 0 <= i < |t| ==> !IsSpace(t[i]) && t[i] != '-'
  {
    var u := Unhyphen(Trim(Lower(s)));
    SplitPiecesFromString(u, ' ');
    set p | p in Split(u, ' ') && |p| > 0 && p !in StopWords
  }

  lemma {:induction false} SubsetCard<T>(a: set<T>, b: set<T>)
    requires a <= b
    ensures |a| <= |b|
  {
    if a != {} {
      var x :| x in a;
      SubsetCard(a - {x}, b - {x});
    }
  }

  /** The token overlap `|a ∩ b| / |a ∪ b|`, 0 for two empty sets. */
  function Jaccard(a: set<string>, b: set<string>): (r: real)
    ensures 0.0 <= r <= 1.0
    ensures |a| > 0 ==> (r == 1.0 <==> a == b)
  {
    SubsetCard(a * b, a + b);
    if |a + b| == 0 then 0.0
    else
      JaccardOne(a, b);
      (|a * b| as real) / (|a + b| as real)
  }

  lemma JaccardOne(a: set<string>, b: set<string>)
    requires |a + b| > 0
    ensures |a * b| == |a + b| <==> a == b
  {
    if a != b {
      var x :| x in (a + b) && x !in a * b;
      assert a * b <= (a + b) - {x};
      SubsetCard(a * b, (a + b) - {x});
      assert |(a + b) - {x}| == |a + b| - 1;
    } else {
      assert a * b == a + b;
    }
  }

  /** The guardrail: at least half of the two names' tokens are shared. */
  predicate Overlapping(d: string, c: string) {
    Jaccard(Tokens(d), Tokens(c)) >= 0.5
  }

  function Score(sim: Similarity, d: string, c: string): real {
    sim(Lower(d), Lower(c))
  }

  /** The inner search over the candidates: the running best after each candidate.
      Candidates equal to d or failing the guardrail are skipped; a candidate replaces
      the best only with a strictly higher score, starting from (None, 0.0). */
  function Best(d: string, cands: seq<string>, sim: Similarity): (Option<string>, real) {
    if |cands| == 0 then (None, 0.0)
    else
      var n := |cands| - 1;
      var prev := Best(d, cands[..n], sim);
      var c := cands[n];
      if c == d || Jaccard(Tokens(d), Tokens(c)) < 0.5 then prev
      else
        var score := Score(sim, d, c);
        if score > prev.1 then (Some(c), score) else prev
  }

  /** The search finds a candidate with the highest positive score among those other
      than d that pass the guardrail, with its score; (None, 0.0) when there is none.
      BestFirst adds that it is the first candidate to reach that score. */
  lemma {:induction false} BestSpec(d: string, cands: seq<string>, sim: Similarity)
    ensures var r := Best(d, cands, sim);
      && (r.0.None? ==> r.1 == 0.0)
      && (r.0.Some? ==>
        r.0.value in cands && r.0.value != d && Overlapping(d, r.0.value)
        && r.1 == Score(sim, d, r.0.value) && r.1 > 0.0)
      && (forall c :: c in cands && c != d && Overlapping(d, c) ==> Score(sim, d, c) <= r.1)
  {
    if |cands| > 0 {
      var n := |cands| - 1;
      BestSpec(d, cands[..n], sim);
      assert cands == cands[..n] + [cands[n]];
    }
  }

  /** cands[i] scores v, and every candidate before it that passes the guardrail scores
      strictly less. */
  predicate FirstAt(d: string, cands: seq<string>, sim: Similarity, i: int, v: real) {
    0 <= i < |cands|
    && Score(sim, d, cands[i]) == v
    && forall j :: 0 <= j < i && cands[j] != d && Overlapping(d, cands[j]) ==> Score(sim, d, cands[j]) < v
  }

  /** The best candidate is the first to reach the best score. */
  lemma {:induction false} BestFirst(d: string, cands: seq<string>, sim: Similarity)
    ensures var r := Best(d, cands, sim);
      r.0.Some? ==> exists i :: FirstAt(d, cands, sim, i, r.1) && cands[i] == r.0.value
  {
    if |cands| > 0 {
      var n := |cands| - 1;
      var prev := Best(d, cands[..n], sim);
      var r := Best(d, cands, sim);
      BestFirst(d, cands[..n], sim);
      BestSpec(d, cands[..n], sim);
      BestSpec(d, cands, sim);
      if r != prev {
        FirstAtLast(d, cands, sim, prev.1, r.1);
      } else if r.0.Some? {
        var i :| FirstAt(d, cands[..n], sim, i, r.1) && cands[..n][i] == r.0.value;
        FirstAtPrefix(d, cands, n, sim, i, r.1);
      }
    }
  }

  lemma FirstAtLast(d: string, cands: seq<string>, sim: Similarity, before: real, v: real)
    requires |cands| > 0 && Score(sim, d, cands[|cands| - 1]) == v && before < v
    requires forall c :: c in cands[..|cands| - 1] && c != d && Overlapping(d, c) ==> Score(sim, d, c) <= before
    ensures FirstAt(d, cands, sim, |cands| - 1, v)
  {
    forall j | 0 <= j < |cands| - 1 ensures cands[j] in cands[..|cands| - 1] {
      assert cands[..|cands| - 1][j] == cands[j];
    }
  }

  lemma FirstAtPrefix(d: string, cands: seq<string>, n: nat, sim: Similarity, i: int, v: real)
    requires n <= |cands| && FirstAt(d, cands[..n], sim, i, v)
    ensures FirstAt(d, cands, sim, i, v) && cands[i] == cands[..n][i]
  {
    assert forall j :: 0 <= j <= i ==> cands[..n][j] == cands[j];
  }

  /** The candidate loop of the source: `best`/`best_score` updated on a strictly
      better score. */
  method FindBest(d: string, cands: seq<string>, sim: Similarity) returns (best: Option<string>, bestScore: real)
    ensures (best, bestScore) == Best(d, cands, sim)
  {
    best, bestScore := None, 0.0;
    var dTok := Tokens(d);
    for i := 0 to |cands|
      invariant (best, bestScore) == Best(d, cands[..i], sim)
    {
      assert cands[..i + 1][..i] == cands[..i];
      var c := cands[i];
      if c == d {
        continue;
      }
      var jacc := Jaccard(dTok, Tokens(c));
      if jacc < 0.5 {
        continue;
      }
      var score := Score(sim, d, c);
      if score > bestScore {
        bestScore := score;
        best := Some(c);
      }
    }
    assert cands[..|cands|] == cands;
  }

  /** Number of rows with this state and district (the groupby size). */
  function Count(rows: seq<Rec>, st: string, d: string): (r: nat)
    ensures r <= |rows|
  {
    if |rows| == 0 then 0
    else
      var n := |rows| - 1;
      Count(rows[..n], st, d) + (if rows[n].state == st && rows[n].district == d then 1 else 0)
  }

  /** The district names of the state's rows, in row order (with repeats). */
  function StateDistricts(rows: seq<Rec>, st: string): (r: seq<string>)
    ensures forall x :: x in r <==> exists i :: 0 <= i < |rows| && rows[i].state == st && rows[i].district == x
  {
    if |rows| == 0 then []
    else
      var n := |rows| - 1;
      var prev := StateDistricts(rows[..n], st);
      assert forall i :: 0 <= i < n ==> rows[..n][i] == rows[i];
      if rows[n].state == st then prev + [rows[n].district] else prev
  }

  /** The states of the rows, each once, in order of first appearance. */
  function States(rows: seq<Rec>): (r: seq<string>)
    ensures forall x :: x in r <==> exists i :: 0 <= i < |rows| && rows[i].state == x
  {
    var all := seq(|rows|, i requires 0 <= i < |rows| => rows[i].state);
    assert forall x :: x in all <==> exists i :: 0 <= i < |rows| && rows[i].state == x by {
      forall x | x in all ensures exists i :: 0 <= i < |rows| && rows[i].state == x {
        var i :| 0 <= i < |all| && all[i] == x;
        assert rows[i].state == x;
      }
      forall x | exists i :: 0 <= i < |rows| && rows[i].state == x ensures x in all {
        var i :| 0 <= i < |rows| && rows[i].state == x;
        assert all[i] == x;
      }
    }
    Distinct(all)
  }

  /** The districts of a state, each once, in order of first appearance (the state's
      slice of the occurrence table). */
  function DistrictsIn(rows: seq<Rec>, st: string): seq<string> {
    Distinct(StateDistricts(rows, st))
  }

  function RareIn(rows: seq<Rec>, st: string, p: MergeParams): (r: seq<string>)
    ensures forall x :: x in r <==> x in DistrictsIn(rows, st) && Count(rows, st, x) <= p.rareMaxOcc
  {
    Filter(DistrictsIn(rows, st), x => Count(rows, st, x) <= p.rareMaxOcc)
  }

  function CommonIn(rows: seq<Rec>, st: string, p: MergeParams): (r: seq<string>)
    ensures forall x :: x in r <==> x in DistrictsIn(rows, st) && Count(rows, st, x) >= p.candidateMinOcc
  {
    Filter(DistrictsIn(rows, st), x => Count(rows, st, x) >= p.candidateMinOcc)
  }

  /** The mapping entry for (st, d), if any: d is rare, the state has at least two
      common districts, d has tokens, and the best common candidate is a non-empty name
      scoring at least the threshold. */
  function Target(rows: seq<Rec>, st: string, d: string, p: MergeParams, sim: Similarity): Option<string> {
    var rare := RareIn(rows, st, p);
    var common := CommonIn(rows, st, p);
    if |rare| == 0 || |common| < 2 || d !in rare || |Tokens(d)| == 0 then None
    else
      var b := Best(d, common, sim);
      if b.0.Some? && |b.0.value| > 0 && b.1 >= p.similarityThreshold then b.0 else None
  }

  /** The guards every mapping entry has passed. */
  lemma TargetGuards(rows: seq<Rec>, st: string, d: string, p: MergeParams, sim: Similarity)
    ensures var r := Target(rows, st, d, p, sim);
      r.Some? ==>
      && d in DistrictsIn(rows, st) && Count(rows, st, d) <= p.rareMaxOcc
      && |CommonIn(rows, st, p)| >= 2
      && r.value in DistrictsIn(rows, st) && Count(rows, st, r.value) >= p.candidateMinOcc
      && r.value != d && Overlapping(d, r.value)
      && Score(sim, d, r.value) >= p.similarityThreshold
  {
    BestSpec(d, CommonIn(rows, st, p), sim);
  }

  /** The rows with every mapped district rewritten; nothing else changes. */
  function Merged(rows: seq<Rec>, p: MergeParams, sim: Similarity): (r: seq<Rec>)
    ensures |r| == |rows|
    ensures forall i :: 0 <= i < |r| ==> MergedRowOk(rows, rows[i], r[i], p, sim)
  {
    var r := seq(|rows|, i requires 0 <= i < |rows| => MergedRow(rows, rows[i], p, sim));
    forall i | 0 <= i < |r| ensures MergedRowOk(rows, rows[i], r[i], p, sim) {
      MergedRowGuards(rows, rows[i], p, sim);
    }
    r
  }

  /** A row after the merge: only the district may differ, and a changed district
      passed every guard. */
  predicate MergedRowOk(rows: seq<Rec>, before: Rec, after: Rec, p: MergeParams, sim: Similarity) {
    && after == before.(district := after.district)
    && (after.district != before.district ==>
      && after.district in DistrictsIn(rows, before.state)
      && Count(rows, before.state, before.district) <= p.rareMaxOcc
      && Count(rows, before.state, after.district) >= p.candidateMinOcc
      && Overlapping(before.district, after.district)
      && Score(sim, before.district, after.district) >= p.similarityThreshold)
  }

  lemma MergedRowGuards(rows: seq<Rec>, r: Rec, p: MergeParams, sim: Similarity)
    ensures MergedRowOk(rows, r, MergedRow(rows, r, p, sim), p, sim)
  {
    TargetGuards(rows, r.state, r.district, p, sim);
  }

  /** `mapping.get((state, district), district)` for one row. */
  function MergedRow(rows: seq<Rec>, r: Rec, p: MergeParams, sim: Similarity): Rec {
    match Target(rows, r.state, r.district, p, sim)
    case Some(t) => r.(district := t)
    case None => r
  }

  /** Target unfolded for a rare district of a state with enough common districts. */
  lemma TargetOfRare(rows: seq<Rec>, st: string, d: string, p: MergeParams, sim: Similarity)
    requires d in RareIn(rows, st, p) && |CommonIn(rows, st, p)| >= 2
    ensures |Tokens(d)| == 0 ==> Target(rows, st, d, p, sim).None?
    ensures |Tokens(d)| > 0 ==>
      var b := Best(d, CommonIn(rows, st, p), sim);
      Target(rows, st, d, p, sim) == if b.0.Some? && |b.0.value| > 0 && b.1 >= p.similarityThreshold then b.0 else None
  {
  }

  /** Every entry of the mapping is the one the specification gives its key. */
  predicate Sound(mapping: map<(string, string), string>, rows: seq<Rec>, p: MergeParams, sim: Similarity) {
    forall k :: k in mapping ==> Target(rows, k.0, k.1, p, sim) == Some(mapping[k])
  }

  /** The nested loops of the source: for each state, for each rare district, search the
      common districts and record the mapping entry. */
  method BuildMapping(rows: seq<Rec>, p: MergeParams, sim: Similarity) returns (mapping: map<(string, string), string>)
    ensures Sound(mapping, rows, p, sim)
    ensures forall st, d :: Target(rows, st, d, p, sim).Some? ==> (st, d) in mapping
  {
    mapping := map[];
    var states := States(rows);
    for i := 0 to |states|
      invariant Sound(mapping, rows, p, sim)
      invariant Covered(mapping, rows, p, sim, states[..i])
    {
      var st := states[i];
      var before := mapping;
      mapping := MapState(rows, st, p, sim, mapping);
      CoveredStep(before, mapping, rows, p, sim, states[..i], st);
      assert states[..i + 1] == states[..i] + [st];
    }
    assert states[..|states|] == states;
    CoveredAll(mapping, rows, p, sim);
  }

  /** Every mappable district of the states sts has its entry. */
  ghost predicate Covered(mapping: map<(string, string), string>, rows: seq<Rec>, p: MergeParams, sim: Similarity, sts: seq<string>) {
    forall st, d :: st in sts && Target(rows, st, d, p, sim).Some? ==> (st, d) in mapping
  }

  lemma CoveredStep(m0: map<(string, string), string>, m1: map<(string, string), string>, rows: seq<Rec>,
                    p: MergeParams, sim: Similarity, sts: seq<string>, st: string)
    requires Covered(m0, rows, p, sim, sts) && m0.Keys <= m1.Keys
    requires forall d :: Target(rows, st, d, p, sim).Some? ==> (st, d) in m1
    ensures Covered(m1, rows, p, sim, sts + [st])
  {
  }

  lemma CoveredAll(mapping: map<(string, string), string>, rows: seq<Rec>, p: MergeParams, sim: Similarity)
    requires Covered(mapping, rows, p, sim, States(rows))
    ensures forall st, d :: Target(rows, st, d, p, sim).Some? ==> (st, d) in mapping
  {
    forall st, d | Target(rows, st, d, p, sim).Some? ensures (st, d) in mapping {
      StateOfTarget(rows, st, d, p, sim);
    }
  }

  /** The loop over one state's rare districts. */
  method MapState(rows: seq<Rec>, st: string, p: MergeParams, sim: Similarity, m0: map<(string, string), string>)
    returns (mapping: map<(string, string), string>)
    requires Sound(m0, rows, p, sim)
    ensures Sound(mapping, rows, p, sim)
    ensures m0.Keys <= mapping.Keys
    ensures forall d :: Target(rows, st, d, p, sim).Some? ==> (st, d) in mapping
  {
    mapping := m0;
    var rare := RareIn(rows, st, p);
    var common := CommonIn(rows, st, p);
    if |rare| == 0 || |common| < 2 {
      return;
    }
    for j := 0 to |rare|
      invariant Sound(mapping, rows, p, sim)
      invariant m0.Keys <= mapping.Keys
      invariant forall d :: d in rare[..j] && Target(rows, st, d, p, sim).Some? ==> (st, d) in mapping
    {
      var d := rare[j];
      assert rare[..j + 1] == rare[..j] + [d];
      mapping := MapDistrict(rows, st, d, p, sim, mapping);
    }
    assert rare[..|rare|] == rare;
  }

  /** One rare district: skip it when it has no tokens, otherwise search the common
      districts and record the best one when it clears the threshold. */
  method MapDistrict(rows: seq<Rec>, st: string, d: string, p: MergeParams, sim: Similarity, m0: map<(string, string), string>)
    returns (mapping: map<(string, string), string>)
    requires Sound(m0, rows, p, sim)
    requires d in RareIn(rows, st, p) && |CommonIn(rows, st, p)| >= 2
    ensures Sound(mapping, rows, p, sim)
    ensures m0.Keys <= mapping.Keys
    ensures Target(rows, st, d, p, sim).Some? ==> (st, d) in mapping
  {
    mapping := m0;
    TargetOfRare(rows, st, d, p, sim);
    if |Tokens(d)| == 0 {
      return;
    }
    var best, bestScore := FindBest(d, CommonIn(rows, st, p), sim);
    if best.Some? && |best.value| > 0 && bestScore >= p.similarityThreshold {
      assert Target(rows, st, d, p, sim) == Some(best.value);
      SoundInsert(mapping, rows, p, sim, (st, d), best.value);
      mapping := mapping[(st, d) := best.value];
    } else {
      assert Target(rows, st, d, p, sim).None?;
    }
  }

  /** Adding an entry the specification agrees with keeps the mapping sound. */
  lemma SoundInsert(m: map<(string, string), string>, rows: seq<Rec>, p: MergeParams, sim: Similarity,
                     k: (string, string), v: string)
    requires Sound(m, rows, p, sim) && Target(rows, k.0, k.1, p, sim) == Some(v)
    ensures Sound(m[k := v], rows, p, sim)
  {
  }

  /** A state with a mapping entry is one of the rows' states. */
  lemma StateOfTarget(rows: seq<Rec>, st: string, d: string, p: MergeParams, sim: Similarity)
    requires Target(rows, st, d, p, sim).Some?
    ensures st in States(rows)
  {
    assert d in StateDistricts(rows, st);
  }

  /** `_merge_rare_district_variants`: build the mapping, then rewrite each row's
      district through it. */
  method MergeRareDistrictVariants(rows: seq<Rec>, p: MergeParams, sim: Similarity) returns (out: seq<Rec>)
    ensures out == Merged(rows, p, sim)
  {
    if |rows| == 0 {
      return rows;
    }
    var mapping := BuildMapping(rows, p, sim);
    out := ApplyMapping(mapping, rows);
    forall k | 0 <= k < |rows| ensures out[k] == Merged(rows, p, sim)[k] {
      RemapAgrees(mapping, rows, rows[k], p, sim);
    }
  }

  /** The final `apply` over the rows. */
  method ApplyMapping(mapping: map<(string, string), string>, rows: seq<Rec>) returns (out: seq<Rec>)
    ensures |out| == |rows|
    ensures forall k :: 0 <= k < |rows| ==> out[k] == Remap(mapping, rows[k])
  {
    out := [];
    for i := 0 to |rows|
      invariant |out| == i
      invariant forall k :: 0 <= k < i ==> out[k] == Remap(mapping, rows[k])
    {
      var r := rows[i];
      var key := (r.state, r.district);
      if key in mapping {
        out := out + [r.(district := mapping[key])];
      } else {
        out := out + [r];
      }
    }
  }

  /** `mapping.get((r.state, r.district), r.district)`. */
  function Remap(mapping: map<(string, string), string>, r: Rec): Rec {
    if (r.state, r.district) in mapping then r.(district := mapping[(r.state, r.district)]) else r
  }

  lemma RemapAgrees(mapping: map<(string, string), string>, rows: seq<Rec>, r: Rec, p: MergeParams, sim: Similarity)
    requires Sound(mapping, rows, p, sim)
    requires forall st, d :: Target(rows, st, d, p, sim).Some? ==> (st, d) in mapping
    ensures Remap(mapping, r) == MergedRow(rows, r, p, sim)
  {
    if (r.state, r.district) !in mapping {
      assert Target(rows, r.state, r.district, p, sim).None?;
    }
  }
}
