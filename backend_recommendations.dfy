/** `/api/action_recommendations` of backend/main.py over the rows `filter_df` keeps:
    priority items for the five lowest state totals (HIGH), for at most five states whose
    last 30 days fell by 10% or more against the 30 days before (MEDIUM), and for states
    among the 25 largest whose daily totals hold a z-score of 2 or more (REVIEW); the items
    de-duplicated by (state, issue), ordered by priority then state, and capped at ten;
    and best practices from the five largest totals and the three fastest-growing states.
    The issue texts are kept as the figures they format. */
module BackendRecommendations {
  import opened Common
  import opened Text
  import opened Aggregates
  import opened CleaningPipeline
  import opened BackendHandlers
  import CleaningFilter

  const BottomStates: nat := 5
  const DecliningStates: nat := 5
  const ReviewedStates: nat := 25
  const MinPoints: nat := 10
  const TopTotalStates: nat := 5
  const TopGrowthStates: nat := 3
  const MaxItems: nat := 10

  datatype Priority = High | Medium | Review

  /** `order.get(priority, 99)`; every priority here is in the table. */
  function PriorityRank(p: Priority): nat {
    match p
    case High => 0
    case Medium => 1
    case Review => 2
  }

  /** The figure each issue text formats: the truncated total, the growth percentage, or
      the squared largest deviation and the variance whose ratio is the squared z-score. */
  datatype Issue = LowEnrollment(total: int) | Declining(pct: real) | Anomaly(maxSqDev: real, variance: real)

  datatype Item = Item(priority: Priority, state: string, issue: Issue)

  datatype Metric = Enrollments(total: int) | Growth(pct: real)

  datatype Practice = Practice(state: string, metric: Metric)

  datatype Recommendations = Recommendations(priorityItems: seq<Item>, bestPractices: seq<Practice>, ageGroups: seq<string>)

  // ---------------------------------------------------------------------------------
  // Daily totals, windows and growth

  /** A calendar day's day number; cleaned rows only hold calendar days. */
  function DayOf(d: Date): int {
    if ValidDate(d) then DayNumber(d) else 0
  }

  function DailyKeyOf(r: CleanRow): (string, Date) {
    (r.state, r.date)
  }

  /** Rows give entries: some row gives some group. */
  lemma EntriesNonEmpty<K(!new)>(f: seq<CleanRow>, key: CleanRow -> K, value: CleanRow -> real)
    ensures |f| > 0 ==> |GroupSum(Entries(f, KeyEntry(key, value)))| > 0
  {
    if |f| > 0 {
      EntryKeys(f, key, value);
      var e := Entries(f, KeyEntry(key, value));
      assert KeysOf(e)[0] in Distinct(KeysOf(e));
    }
  }

  /** `daily`: the selected-age totals grouped by (state, date), in first-seen order;
      some row gives some day. */
  function Daily(f: seq<CleanRow>, selected: seq<string>): (daily: seq<Bucket<(string, Date)>>)
    ensures |f| > 0 ==> |daily| > 0
  {
    EntriesNonEmpty(f, DailyKeyOf, SelectedTotal(selected));
    GroupSum(Entries(f, KeyEntry(DailyKeyOf, SelectedTotal(selected))))
  }

  /** `max_date`: the latest day of the daily totals. */
  function MaxDay(daily: seq<Bucket<(string, Date)>>): (m: int)
    requires |daily| > 0
    ensures forall b :: b in daily ==> DayOf(b.key.1) <= m
    ensures exists b :: b in daily && DayOf(b.key.1) == m
  {
    var n := |daily| - 1;
    var d := DayOf(daily[n].key.1);
    if n == 0 then d
    else
      var m := MaxDay(daily[..n]);
      assert daily == daily[..n] + [daily[n]];
      if m >= d then m else d
  }

  /** A state's daily totals summed over the days lo..hi (`.groupby("state")["y"].sum()`
      read with `.get(st, 0.0)`). */
  function WindowSum(daily: seq<Bucket<(string, Date)>>, st: string, lo: int, hi: int): real {
    if |daily| == 0 then 0.0
    else
      var b := daily[|daily| - 1];
      WindowSum(daily[..|daily| - 1], st, lo, hi) + (if b.key.0 == st && lo <= DayOf(b.key.1) <= hi then b.value else 0.0)
  }

  /** The last 30 days, max_date included. */
  function Recent(daily: seq<Bucket<(string, Date)>>, maxDay: int, st: string): real {
    WindowSum(daily, st, maxDay - 29, maxDay)
  }

  /** The 30 days before those. */
  function Previous(daily: seq<Bucket<(string, Date)>>, maxDay: int, st: string): real {
    WindowSum(daily, st, maxDay - 59, maxDay - 30)
  }

  /** A state's growth in percent, defined only when its previous window is positive. */
  function GrowthPct(daily: seq<Bucket<(string, Date)>>, maxDay: int, st: string): (g: Option<real>)
    ensures g.Some? <==> Previous(daily, maxDay, st) > 0.0
    ensures g.Some? ==> g.value * Previous(daily, maxDay, st) == (Recent(daily, maxDay, st) - Previous(daily, maxDay, st)) * 100.0
  {
    var p := Previous(daily, maxDay, st);
    var r := Recent(daily, maxDay, st);
    if p > 0.0 then Some((r - p) / p * 100.0) else None
  }

  /** `growth_pct`: the states, in ranking order, that have a growth, with it. */
  function GrowthOf(states: seq<string>, daily: seq<Bucket<(string, Date)>>, maxDay: int): (g: seq<Bucket<string>>)
    ensures forall b :: b in g ==> b.key in states && GrowthPct(daily, maxDay, b.key) == Some(b.value)
  {
    if |states| == 0 then []
    else
      var st := states[|states| - 1];
      var rest := GrowthOf(states[..|states| - 1], daily, maxDay);
      match GrowthPct(daily, maxDay, st)
      case Some(v) => rest + [Bucket(st, v)]
      case None => rest
  }

  /** The loop filling `growth_pct`. */
  method FillGrowth(states: seq<string>, daily: seq<Bucket<(string, Date)>>, maxDay: int) returns (g: seq<Bucket<string>>)
    ensures g == GrowthOf(states, daily, maxDay)
  {
    g := [];
    for i := 0 to |states|
      invariant g == GrowthOf(states[..i], daily, maxDay)
    {
      assert states[..i + 1][..i] == states[..i];
      var p := Previous(daily, maxDay, states[i]);
      var r := Recent(daily, maxDay, states[i]);
      if p > 0.0 {
        g := g + [Bucket(states[i], (r - p) / p * 100.0)];
      }
    }
    assert states[..|states|] == states;
  }

  /** Every state with a positive previous window has a growth, each state once when the
      states are distinct. */
  lemma {:induction false} GrowthKeys(states: seq<string>, daily: seq<Bucket<(string, Date)>>, maxDay: int)
    requires forall i, j :: 0 <= i < j < |states| ==> states[i] != states[j]
    ensures forall st :: st in KeysOf(GrowthOf(states, daily, maxDay)) <==> st in states && Previous(daily, maxDay, st) > 0.0
    ensures DistinctKeys(GrowthOf(states, daily, maxDay))
  {
    if |states| > 0 {
      var n := |states| - 1;
      var rest := GrowthOf(states[..n], daily, maxDay);
      GrowthKeys(states[..n], daily, maxDay);
      LastSplit(states);
      assert states[n] !in states[..n];
      if Previous(daily, maxDay, states[n]) > 0.0 {
        KeysSnoc(rest, Bucket(states[n], GrowthPct(daily, maxDay, states[n]).value));
      }
    }
  }

  /** One more bucket at the end: its key joins the keys, and they stay distinct when it
      is new. */
  lemma KeysSnoc<K(!new)>(m: seq<Bucket<K>>, b: Bucket<K>)
    ensures KeysOf(m + [b]) == KeysOf(m) + [b.key]
    ensures DistinctKeys(m) && b.key !in KeysOf(m) ==> DistinctKeys(m + [b])
  {
    var r := m + [b];
    if DistinctKeys(m) && b.key !in KeysOf(m) {
      forall i, j | 0 <= i < j < |r| ensures r[i].key != r[j].key {
        if j == |m| {
          assert KeysOf(m)[i] == m[i].key;
        }
      }
    }
  }

  predicate IsDeclining(b: Bucket<string>) {
    b.value <= -10.0
  }

  predicate IsGrowing(b: Bucket<string>) {
    b.value > 0.0
  }

  // ---------------------------------------------------------------------------------
  // The z-score test

  /** The daily totals of one state, in the order of `daily`. */
  function Series(daily: seq<Bucket<(string, Date)>>, st: string): (ys: seq<real>)
    ensures |ys| <= |daily|
  {
    if |daily| == 0 then []
    else
      var b := daily[|daily| - 1];
      Series(daily[..|daily| - 1], st) + (if b.key.0 == st then [b.value] else [])
  }

  function Sum(ys: seq<real>): real {
    if |ys| == 0 then 0.0 else Sum(ys[..|ys| - 1]) + ys[|ys| - 1]
  }

  function Mean(ys: seq<real>): real
    requires |ys| > 0
  {
    Sum(ys) / |ys| as real
  }

  function SqDevSum(ys: seq<real>, m: real): (r: real)
    ensures r >= 0.0
  {
    if |ys| == 0 then 0.0
    else
      SqDevSum(ys[..|ys| - 1], m) + Sq(ys[|ys| - 1] - m)
  }

  /** `std(ddof=0)`, squared: the population variance. */
  function Variance(ys: seq<real>): (v: real)
    requires |ys| > 0
    ensures v >= 0.0
  {
    SqDevSum(ys, Mean(ys)) / |ys| as real
  }

  function Sq(x: real): real {
    x * x
  }

  /** The largest squared deviation from m. */
  function MaxSqDev(ys: seq<real>, m: real): (r: real)
    requires |ys| > 0
    ensures forall i :: 0 <= i < |ys| ==> Sq(ys[i] - m) <= r
    ensures exists i :: 0 <= i < |ys| && Sq(ys[i] - m) == r
  {
    var n := |ys| - 1;
    var d := Sq(ys[n] - m);
    if n == 0 then d
    else
      var r := MaxSqDev(ys[..n], m);
      assert forall i :: 0 <= i < n ==> ys[..n][i] == ys[i];
      if r >= d then r else d
  }

  /** The REVIEW test on a state's daily totals: at least ten of them, a positive
      deviation, and a largest |z| of at least 2. With sd > 0, `max |y - mu| / sd >= 2`
      is `max (y - mu)^2 >= 4 * sd^2`, which is compared here without a square root. */
  predicate Flagged(ys: seq<real>) {
    |ys| >= MinPoints && Variance(ys) > 0.0 && MaxSqDev(ys, Mean(ys)) >= 4.0 * Variance(ys)
  }

  /** The test holds exactly when some day lies at least two standard deviations from the
      mean. */
  lemma FlaggedMeans(ys: seq<real>)
    ensures Flagged(ys) <==>
      (|ys| >= MinPoints && Variance(ys) > 0.0 && exists i :: 0 <= i < |ys| && Sq(ys[i] - Mean(ys)) >= 4.0 * Variance(ys))
  {
  }

  // ---------------------------------------------------------------------------------
  // Priority items

  function HighItems(bottom: seq<Bucket<string>>): (r: seq<Item>)
    ensures |r| == |bottom|
    ensures forall i :: 0 <= i < |bottom| ==> r[i] == Item(High, bottom[i].key, LowEnrollment(Trunc(bottom[i].value)))
  {
    seq(|bottom|, i requires 0 <= i < |bottom| => Item(High, bottom[i].key, LowEnrollment(Trunc(bottom[i].value))))
  }

  function MediumItems(declining: seq<Bucket<string>>): (r: seq<Item>)
    ensures |r| == |declining|
    ensures forall i :: 0 <= i < |declining| ==> r[i] == Item(Medium, declining[i].key, Declining(declining[i].value))
  {
    seq(|declining|, i requires 0 <= i < |declining| => Item(Medium, declining[i].key, Declining(declining[i].value)))
  }

  function ReviewItem(daily: seq<Bucket<(string, Date)>>, st: string): (r: seq<Item>)
    ensures |r| <= 1
  {
    var ys := Series(daily, st);
    if Flagged(ys) then [Item(Review, st, Anomaly(MaxSqDev(ys, Mean(ys)), Variance(ys)))] else []
  }

  /** The REVIEW items of the listed states, in their order. */
  function ReviewItems(states: seq<string>, daily: seq<Bucket<(string, Date)>>): (r: seq<Item>)
    ensures |r| <= |states|
  {
    if |states| == 0 then []
    else ReviewItems(states[..|states| - 1], daily) + ReviewItem(daily, states[|states| - 1])
  }

  /** The intermediate values of the handler, each as the source names it. */
  function Ranking(f: seq<CleanRow>, selected: seq<string>): seq<Bucket<string>> {
    KeyTotals(f, StateOf, SelectedTotal(selected))
  }

  function Bottom(ranking: seq<Bucket<string>>): seq<Bucket<string>> {
    TopK(ranking, BottomStates, false)
  }

  function DecliningTop(growth: seq<Bucket<string>>): seq<Bucket<string>> {
    TopK(Filter(growth, IsDeclining), DecliningStates, false)
  }

  function Reviewed(ranking: seq<Bucket<string>>): seq<string> {
    Take(KeysOf(ranking), ReviewedStates)
  }

  /** `priority_items` before de-duplication. */
  function PriorityItems(ranking: seq<Bucket<string>>, growth: seq<Bucket<string>>, daily: seq<Bucket<(string, Date)>>): seq<Item> {
    HighItems(Bottom(ranking)) + MediumItems(DecliningTop(growth)) + ReviewItems(Reviewed(ranking), daily)
  }

  // ---------------------------------------------------------------------------------
  // De-duplication

  function KeyOf(it: Item): (string, Issue) {
    (it.state, it.issue)
  }

  function ItemKeys(items: seq<Item>): (ks: seq<(string, Issue)>)
    ensures |ks| == |items|
    ensures forall i :: 0 <= i < |items| ==> ks[i] == KeyOf(items[i])
  {
    seq(|items|, i requires 0 <= i < |items| => KeyOf(items[i]))
  }

  /** No two items share a (state, issue). */
  predicate KeysDistinct(items: seq<Item>) {
    forall i, j :: 0 <= i < j < |items| ==> KeyOf(items[i]) != KeyOf(items[j])
  }

  /** The items whose (state, issue) was not seen earlier, in order. */
  function Dedup(items: seq<Item>): (r: seq<Item>)
    ensures |r| <= |items|
  {
    if |items| == 0 then []
    else
      var n := |items| - 1;
      var d := Dedup(items[..n]);
      if KeyOf(items[n]) in ItemKeys(d) then d else d + [items[n]]
  }

  /** De-duplication keeps items of the list, no two with one key, and a key for every
      item. */
  lemma {:induction false} DedupFacts(items: seq<Item>)
    ensures forall x :: x in Dedup(items) ==> x in items
    ensures KeysDistinct(Dedup(items))
    ensures forall x :: x in items ==> KeyOf(x) in ItemKeys(Dedup(items))
  {
    if |items| > 0 {
      var n := |items| - 1;
      var d := Dedup(items[..n]);
      DedupFacts(items[..n]);
      assert items == items[..n] + [items[n]];
      if KeyOf(items[n]) !in ItemKeys(d) {
        var r := d + [items[n]];
        assert ItemKeys(r) == ItemKeys(d) + [KeyOf(items[n])];
        forall i | 0 <= i < |d| ensures KeyOf(r[i]) != KeyOf(items[n]) {
          assert ItemKeys(d)[i] == KeyOf(d[i]);
        }
      }
    }
  }

  /** The loop with the `seen` set. */
  method Dedupe(items: seq<Item>) returns (deduped: seq<Item>)
    ensures deduped == Dedup(items)
  {
    var seen: set<(string, Issue)> := {};
    deduped := [];
    for k := 0 to |items|
      invariant deduped == Dedup(items[..k])
      invariant forall key :: key in seen <==> key in ItemKeys(deduped)
    {
      assert items[..k + 1][..k] == items[..k];
      var key := KeyOf(items[k]);
      if key !in seen {
        seen := seen + {key};
        assert ItemKeys(deduped + [items[k]]) == ItemKeys(deduped) + [key];
        deduped := deduped + [items[k]];
      }
    }
    assert items[..|items|] == items;
  }

  /** A list without repeated keys comes through unchanged. */
  lemma {:induction false} DedupOfDistinct(items: seq<Item>)
    requires KeysDistinct(items)
    ensures Dedup(items) == items
  {
    if |items| > 0 {
      var n := |items| - 1;
      var init := items[..n];
      assert KeysDistinct(init) by {
        assert forall i :: 0 <= i < n ==> init[i] == items[i];
      }
      DedupOfDistinct(init);
      assert KeyOf(items[n]) !in ItemKeys(init) by {
        forall i | 0 <= i < n ensures ItemKeys(init)[i] != KeyOf(items[n]) {
          assert init[i] == items[i];
        }
      }
      assert items == init + [items[n]];
    }
  }

  // ---------------------------------------------------------------------------------
  // Ordering

  /** `(order[priority], state)` of a may stand before that of b. */
  predicate ItemLe(a: Item, b: Item) {
    PriorityRank(a.priority) < PriorityRank(b.priority)
    || (PriorityRank(a.priority) == PriorityRank(b.priority) && !StrLt(b.state, a.state))
  }

  lemma ItemLeTotal(a: Item, b: Item)
    ensures ItemLe(a, b) || ItemLe(b, a)
  {
    if PriorityRank(a.priority) == PriorityRank(b.priority) && StrLt(b.state, a.state) {
      StrLtAsymmetric(b.state, a.state);
    }
  }

  lemma ItemLeTransitive(a: Item, b: Item, c: Item)
    requires ItemLe(a, b) && ItemLe(b, c)
    ensures ItemLe(a, c)
  {
    if PriorityRank(a.priority) == PriorityRank(c.priority) && StrLt(c.state, a.state) {
      if a.state == b.state {
      } else if b.state == c.state {
      } else {
        StrLtTotal(a.state, b.state);
        StrLtTotal(b.state, c.state);
        StrLtTransitive(a.state, b.state, c.state);
        StrLtTransitive(a.state, c.state, a.state);
        StrLtIrreflexive(a.state);
      }
    }
  }

  predicate ItemsSorted(s: seq<Item>) {
    forall i, j :: 0 <= i < j < |s| ==> ItemLe(s[i], s[j])
  }

  /** Inserts x, which came first, before the first item it may precede. */
  function InsertItem(x: Item, s: seq<Item>): (r: seq<Item>)
    ensures |r| == |s| + 1
    ensures multiset(r) == multiset(s) + multiset{x}
  {
    if |s| == 0 || ItemLe(x, s[0]) then [x] + s
    else
      assert s == [s[0]] + s[1..];
      [s[0]] + InsertItem(x, s[1..])
  }

  lemma {:induction false} InsertItemSorted(x: Item, s: seq<Item>)
    requires ItemsSorted(s)
    ensures ItemsSorted(InsertItem(x, s))
  {
    var r := InsertItem(x, s);
    if |s| == 0 {
    } else if ItemLe(x, s[0]) {
      forall j | 1 <= j < |r| ensures ItemLe(x, r[j]) {
        assert r[j] == s[j - 1];
        if j > 1 {
          ItemLeTransitive(x, s[0], s[j - 1]);
        }
      }
    } else {
      ItemLeTotal(x, s[0]);
      var rest := InsertItem(x, s[1..]);
      InsertItemSorted(x, s[1..]);
      forall j | 0 <= j < |rest| ensures ItemLe(s[0], rest[j]) {
        assert rest[j] in multiset(rest);
        if rest[j] != x {
          assert rest[j] in multiset(s[1..]);
          var q :| 0 <= q < |s[1..]| && s[1..][q] == rest[j];
          assert s[q + 1] == rest[j];
        }
      }
    }
  }

  /** `deduped.sort(key=...)`, a stable sort: ordered by priority then state, and a
      permutation of its input. */
  function SortItems(s: seq<Item>): (r: seq<Item>)
    ensures multiset(r) == multiset(s)
    ensures ItemsSorted(r)
  {
    if |s| == 0 then []
    else
      assert s == [s[0]] + s[1..];
      var t := SortItems(s[1..]);
      InsertItemSorted(s[0], t);
      InsertItem(s[0], t)
  }

  // ---------------------------------------------------------------------------------
  // Best practices

  function PracticeNames(best: seq<Practice>): (names: seq<string>)
    ensures |names| == |best|
    ensures forall i :: 0 <= i < |best| ==> names[i] == best[i].state
  {
    seq(|best|, i requires 0 <= i < |best| => best[i].state)
  }

  function TotalPractices(top: seq<Bucket<string>>): (r: seq<Practice>)
    ensures |r| == |top|
    ensures forall i :: 0 <= i < |top| ==> r[i] == Practice(top[i].key, Enrollments(Trunc(top[i].value)))
  {
    seq(|top|, i requires 0 <= i < |top| => Practice(top[i].key, Enrollments(Trunc(top[i].value))))
  }

  /** The growth entries added after the totals, skipping any state already listed. */
  function AddGrowth(best: seq<Practice>, growth: seq<Bucket<string>>): seq<Practice> {
    if |growth| == 0 then best
    else
      var b := AddGrowth(best, growth[..|growth| - 1]);
      var g := growth[|growth| - 1];
      if g.key in PracticeNames(b) then b else b + [Practice(g.key, Growth(g.value))]
  }

  function TopGrowth(growth: seq<Bucket<string>>): seq<Bucket<string>> {
    TopK(Filter(growth, IsGrowing), TopGrowthStates, true)
  }

  /** `best_practices`: the two loops. */
  method BestPractices(topTotal: seq<Bucket<string>>, topGrowth: seq<Bucket<string>>) returns (best: seq<Practice>)
    ensures best == AddGrowth(TotalPractices(topTotal), topGrowth)
  {
    best := [];
    for i := 0 to |topTotal|
      invariant best == TotalPractices(topTotal[..i])
    {
      best := best + [Practice(topTotal[i].key, Enrollments(Trunc(topTotal[i].value)))];
    }
    assert topTotal[..|topTotal|] == topTotal;
    for i := 0 to |topGrowth|
      invariant best == AddGrowth(TotalPractices(topTotal), topGrowth[..i])
    {
      assert topGrowth[..i + 1][..i] == topGrowth[..i];
      var st := topGrowth[i].key;
      if st !in PracticeNames(best) {
        best := best + [Practice(st, Growth(topGrowth[i].value))];
      }
    }
    assert topGrowth[..|topGrowth|] == topGrowth;
  }

  /** Adding growth entries keeps the listed states and never repeats one. */
  lemma {:induction false} AddGrowthFacts(best: seq<Practice>, growth: seq<Bucket<string>>)
    requires forall i, j :: 0 <= i < j < |best| ==> best[i].state != best[j].state
    ensures |best| <= |AddGrowth(best, growth)| <= |best| + |growth|
    ensures AddGrowth(best, growth)[..|best|] == best
    ensures forall i, j :: 0 <= i < j < |AddGrowth(best, growth)| ==> AddGrowth(best, growth)[i].state != AddGrowth(best, growth)[j].state
    ensures forall i :: |best| <= i < |AddGrowth(best, growth)| ==>
      exists b :: b in growth && AddGrowth(best, growth)[i] == Practice(b.key, Growth(b.value))
  {
    if |growth| > 0 {
      var n := |growth| - 1;
      var b := AddGrowth(best, growth[..n]);
      AddGrowthFacts(best, growth[..n]);
      assert forall x :: x in growth[..n] ==> x in growth;
      var g := growth[n];
      if g.key !in PracticeNames(b) {
        var r := b + [Practice(g.key, Growth(g.value))];
        forall i | 0 <= i < |b| ensures b[i].state != g.key {
          assert PracticeNames(b)[i] == b[i].state;
        }
        assert r[..|best|] == b[..|best|];
      }
    }
  }

  // ---------------------------------------------------------------------------------
  // The handler

  function MaxDayOf(f: seq<CleanRow>, selected: seq<string>): int
    requires |f| > 0
  {
    MaxDay(Daily(f, selected))
  }

  function GrowthFor(f: seq<CleanRow>, selected: seq<string>): seq<Bucket<string>>
    requires |f| > 0
  {
    GrowthOf(KeysOf(Ranking(f, selected)), Daily(f, selected), MaxDayOf(f, selected))
  }

  function ItemsOf(f: seq<CleanRow>, selected: seq<string>): seq<Item>
    requires |f| > 0
  {
    PriorityItems(Ranking(f, selected), GrowthFor(f, selected), Daily(f, selected))
  }

  /** `best_practices` from the ranking and the growths. */
  function BestOf(ranking: seq<Bucket<string>>, growth: seq<Bucket<string>>): seq<Practice> {
    AddGrowth(TotalPractices(Take(ranking, TopTotalStates)), TopGrowth(growth))
  }

  /** What the handler returns for the rows that passed the filters. */
  function RecommendationsOf(f: seq<CleanRow>, selected: seq<string>): Recommendations {
    if |f| == 0 then Recommendations([], [], selected)
    else
      Recommendations(Take(SortItems(Dedup(ItemsOf(f, selected))), MaxItems),
        BestOf(Ranking(f, selected), GrowthFor(f, selected)), selected)
  }

  /** `get_action_recommendations`: filter, select the age groups, recommend. */
  function GetActionRecommendations(df: seq<CleanRow>, parse: DateParser, q: CleaningFilter.Query, requested: seq<string>): (r: Recommendations)
    ensures r.ageGroups == SelectedAgeGroups(requested)
    ensures |r.priorityItems| <= MaxItems && ItemsSorted(r.priorityItems) && KeysDistinct(r.priorityItems)
    ensures |r.bestPractices| <= TopTotalStates + TopGrowthStates
    ensures |CleaningFilter.Filtered(parse, q, df)| == 0 ==> r.priorityItems == [] && r.bestPractices == []
  {
    var f := CleaningFilter.Filtered(parse, q, df);
    var selected := SelectedAgeGroups(requested);
    if |f| == 0 then RecommendationsOf(f, selected)
    else
      PriorityItemsFacts(f, selected);
      RankingFacts(f, selected);
      BestPracticesFacts(Ranking(f, selected), GrowthFor(f, selected));
      RecommendationsOf(f, selected)
  }

  /** The three loops that append the HIGH, MEDIUM and REVIEW items. */
  method CollectItems(bottom: seq<Bucket<string>>, declining: seq<Bucket<string>>, reviewed: seq<string>,
                      daily: seq<Bucket<(string, Date)>>) returns (items: seq<Item>)
    ensures items == HighItems(bottom) + MediumItems(declining) + ReviewItems(reviewed, daily)
  {
    items := [];
    for i := 0 to |bottom|
      invariant items == HighItems(bottom[..i])
    {
      items := items + [Item(High, bottom[i].key, LowEnrollment(Trunc(bottom[i].value)))];
    }
    assert bottom[..|bottom|] == bottom;
    var high := items;
    for i := 0 to |declining|
      invariant items == high + MediumItems(declining[..i])
    {
      items := items + [Item(Medium, declining[i].key, Declining(declining[i].value))];
    }
    assert declining[..|declining|] == declining;
    var highMedium := items;
    for i := 0 to |reviewed|
      invariant items == highMedium + ReviewItems(reviewed[..i], daily)
    {
      assert reviewed[..i + 1][..i] == reviewed[..i];
      var ys := Series(daily, reviewed[i]);
      if |ys| < MinPoints {
        continue;
      }
      var mu := Mean(ys);
      var v := Variance(ys);
      if v <= 0.0 {
        continue;
      }
      var z := MaxSqDev(ys, mu);
      if z >= 4.0 * v {
        items := items + [Item(Review, reviewed[i], Anomaly(z, v))];
      }
    }
    assert reviewed[..|reviewed|] == reviewed;
  }

  /** The handler as the source runs it. */
  method Recommend(f: seq<CleanRow>, selected: seq<string>) returns (rec: Recommendations)
    ensures rec == RecommendationsOf(f, selected)
  {
    if |f| == 0 {
      return Recommendations([], [], selected);
    }
    var ranking := Ranking(f, selected);
    var daily := Daily(f, selected);
    var maxDay := MaxDay(daily);
    var growth := FillGrowth(KeysOf(ranking), daily, maxDay);
    var items := CollectItems(Bottom(ranking), DecliningTop(growth), Reviewed(ranking), daily);
    var deduped := Dedupe(items);
    var sorted := SortItems(deduped);
    var best := BestPractices(Take(ranking, TopTotalStates), TopGrowth(growth));
    rec := Recommendations(Take(sorted, MaxItems), best, selected);
  }

  // ---------------------------------------------------------------------------------
  // What the recommendations promise

  /** The two windows are adjacent: together they sum the last 60 days. */
  lemma {:induction false} WindowSplit(daily: seq<Bucket<(string, Date)>>, st: string, lo: int, mid: int, hi: int)
    requires lo <= mid < hi
    ensures WindowSum(daily, st, lo, hi) == WindowSum(daily, st, lo, mid) + WindowSum(daily, st, mid + 1, hi)
  {
    if |daily| > 0 {
      WindowSplit(daily[..|daily| - 1], st, lo, mid, hi);
    }
  }

  lemma RecentAndPrevious(daily: seq<Bucket<(string, Date)>>, maxDay: int, st: string)
    ensures Previous(daily, maxDay, st) + Recent(daily, maxDay, st) == WindowSum(daily, st, maxDay - 59, maxDay)
  {
    WindowSplit(daily, st, maxDay - 59, maxDay - 30, maxDay);
  }

  /** The REVIEW items: each for a listed state whose daily totals pass the test, each
      such state given one, and none twice when the states are distinct. */
  lemma ReviewItemsFacts(states: seq<string>, daily: seq<Bucket<(string, Date)>>)
    ensures forall it :: it in ReviewItems(states, daily) ==>
      it.state in states && Flagged(Series(daily, it.state)) &&
      it == Item(Review, it.state, Anomaly(MaxSqDev(Series(daily, it.state), Mean(Series(daily, it.state))), Variance(Series(daily, it.state))))
    ensures forall st :: st in states && Flagged(Series(daily, st)) ==>
      Item(Review, st, Anomaly(MaxSqDev(Series(daily, st), Mean(Series(daily, st))), Variance(Series(daily, st)))) in ReviewItems(states, daily)
    ensures (forall i, j :: 0 <= i < j < |states| ==> states[i] != states[j]) ==> KeysDistinct(ReviewItems(states, daily))
  {
    ReviewItemsSound(states, daily);
    ReviewItemsComplete(states, daily);
    if forall i, j :: 0 <= i < j < |states| ==> states[i] != states[j] {
      ReviewItemsDistinct(states, daily);
    }
  }

  lemma {:induction false} ReviewItemsSound(states: seq<string>, daily: seq<Bucket<(string, Date)>>)
    ensures forall it :: it in ReviewItems(states, daily) ==>
      it.state in states && Flagged(Series(daily, it.state)) &&
      it == Item(Review, it.state, Anomaly(MaxSqDev(Series(daily, it.state), Mean(Series(daily, it.state))), Variance(Series(daily, it.state))))
  {
    if |states| > 0 {
      var n := |states| - 1;
      ReviewItemsSound(states[..n], daily);
      LastSplit(states);
    }
  }

  lemma {:induction false} ReviewItemsComplete(states: seq<string>, daily: seq<Bucket<(string, Date)>>)
    ensures forall st :: st in states && Flagged(Series(daily, st)) ==>
      Item(Review, st, Anomaly(MaxSqDev(Series(daily, st), Mean(Series(daily, st))), Variance(Series(daily, st)))) in ReviewItems(states, daily)
  {
    if |states| > 0 {
      var n := |states| - 1;
      ReviewItemsComplete(states[..n], daily);
      LastSplit(states);
    }
  }

  lemma {:induction false} ReviewItemsDistinct(states: seq<string>, daily: seq<Bucket<(string, Date)>>)
    requires forall i, j :: 0 <= i < j < |states| ==> states[i] != states[j]
    ensures KeysDistinct(ReviewItems(states, daily))
  {
    if |states| > 0 {
      var n := |states| - 1;
      ReviewItemsDistinct(states[..n], daily);
      ReviewItemsSound(states[..n], daily);
      var rest := ReviewItems(states[..n], daily);
      var r := ReviewItems(states, daily);
      if |ReviewItem(daily, states[n])| == 1 {
        assert states[n] !in states[..n];
        forall i | 0 <= i < |rest| ensures KeyOf(rest[i]) != KeyOf(r[|rest|]) {
          assert rest[i] in rest;
        }
      }
    }
  }

  lemma LastSplit<T>(s: seq<T>)
    requires |s| > 0
    ensures s == s[..|s| - 1] + [s[|s| - 1]]
  {
  }

  /** Lists of distinct keys whose keys differ pairwise join into one. */
  lemma KeysDistinctAppend(a: seq<Item>, b: seq<Item>)
    requires KeysDistinct(a) && KeysDistinct(b)
    requires forall x, y :: x in a && y in b ==> KeyOf(x) != KeyOf(y)
    ensures KeysDistinct(a + b)
  {
    forall i, j | 0 <= i < j < |a + b| ensures KeyOf((a + b)[i]) != KeyOf((a + b)[j]) {
      if i < |a| && j >= |a| {
        assert (a + b)[i] in a && (a + b)[j] in b;
      }
    }
  }

  /** Drawn from a list of distinct keys, no key is drawn twice. */
  lemma SubMultisetKeysDistinct(r: seq<Item>, s: seq<Item>)
    requires KeysDistinct(s) && multiset(r) <= multiset(s)
    ensures KeysDistinct(r)
  {
    DrawnDistinct(r, s, KeyOf);
  }

  lemma KeysOfDistinct(ranking: seq<Bucket<string>>)
    requires DistinctKeys(ranking)
    ensures forall i, j :: 0 <= i < j < |KeysOf(ranking)| ==> KeysOf(ranking)[i] != KeysOf(ranking)[j]
  {
  }

  lemma HighKeysDistinct(ranking: seq<Bucket<string>>)
    requires DistinctKeys(ranking)
    ensures KeysDistinct(HighItems(Bottom(ranking)))
    ensures forall x :: x in HighItems(Bottom(ranking)) ==> x.issue.LowEnrollment?
  {
    SubMultisetDistinctKeys(Bottom(ranking), ranking);
  }

  lemma MediumKeysDistinct(growth: seq<Bucket<string>>)
    requires DistinctKeys(growth)
    ensures KeysDistinct(MediumItems(DecliningTop(growth)))
    ensures forall x :: x in MediumItems(DecliningTop(growth)) ==> x.issue.Declining?
  {
    var dec := Filter(growth, IsDeclining);
    FilterSubMultiset(growth, IsDeclining);
    SubMultisetDistinctKeys(dec, growth);
    SubMultisetDistinctKeys(DecliningTop(growth), dec);
  }

  lemma ReviewKeysDistinct(ranking: seq<Bucket<string>>, daily: seq<Bucket<(string, Date)>>)
    requires DistinctKeys(ranking)
    ensures KeysDistinct(ReviewItems(Reviewed(ranking), daily))
    ensures forall x :: x in ReviewItems(Reviewed(ranking), daily) ==> x.issue.Anomaly?
  {
    KeysOfDistinct(ranking);
    var reviewed := Reviewed(ranking);
    assert forall i, j :: 0 <= i < j < |reviewed| ==> reviewed[i] != reviewed[j];
    ReviewItemsFacts(reviewed, daily);
  }

  /** Three lists of distinct keys, one kind of issue each, join into one. */
  lemma ThreeKinds(high: seq<Item>, medium: seq<Item>, review: seq<Item>)
    requires KeysDistinct(high) && KeysDistinct(medium) && KeysDistinct(review)
    requires forall x :: x in high ==> x.issue.LowEnrollment?
    requires forall x :: x in medium ==> x.issue.Declining?
    requires forall x :: x in review ==> x.issue.Anomaly?
    ensures KeysDistinct(high + medium + review)
  {
    KeysDistinctAppend(high, medium);
    assert forall x: Item :: x in high + medium ==> !x.issue.Anomaly?;
    KeysDistinctAppend(high + medium, review);
  }

  /** The items come in with no (state, issue) twice: the HIGH and MEDIUM states are
      distinct within their kind, the reviewed states too, and the kinds differ in issue;
      so the `seen` set never drops an item. */
  lemma PriorityKeysDistinct(ranking: seq<Bucket<string>>, growth: seq<Bucket<string>>, daily: seq<Bucket<(string, Date)>>)
    requires DistinctKeys(ranking) && DistinctKeys(growth)
    ensures KeysDistinct(PriorityItems(ranking, growth, daily))
    ensures Dedup(PriorityItems(ranking, growth, daily)) == PriorityItems(ranking, growth, daily)
  {
    HighKeysDistinct(ranking);
    MediumKeysDistinct(growth);
    ReviewKeysDistinct(ranking, daily);
    ThreeKinds(HighItems(Bottom(ranking)), MediumItems(DecliningTop(growth)), ReviewItems(Reviewed(ranking), daily));
    DedupOfDistinct(PriorityItems(ranking, growth, daily));
  }

  /** The first k of the sorted items: ordered, drawn from the items, no key twice; all of
      them when there are at most k. */
  lemma CapFacts(items: seq<Item>, k: nat)
    requires KeysDistinct(items)
    ensures |Take(SortItems(items), k)| <= k
    ensures ItemsSorted(Take(SortItems(items), k))
    ensures KeysDistinct(Take(SortItems(items), k))
    ensures forall x :: x in Take(SortItems(items), k) ==> x in items
    ensures |items| <= k ==> multiset(Take(SortItems(items), k)) == multiset(items)
  {
    var sorted := SortItems(items);
    var out := Take(sorted, k);
    assert sorted == out + sorted[|out|..];
    assert multiset(out) <= multiset(items);
    SubMultisetKeysDistinct(out, items);
    forall x | x in out ensures x in items {
      assert x in multiset(out);
    }
  }

  lemma RankingFacts(f: seq<CleanRow>, selected: seq<string>)
    requires |f| > 0
    ensures DistinctKeys(Ranking(f, selected)) && DistinctKeys(GrowthFor(f, selected))
  {
    KeyTotalsFacts(f, StateOf, SelectedTotal(selected));
    KeysOfDistinct(Ranking(f, selected));
    GrowthKeys(KeysOf(Ranking(f, selected)), Daily(f, selected), MaxDayOf(f, selected));
  }

  /** `priority_items` as returned: de-duplication drops nothing, at most ten items, in
      order of priority then state, no (state, issue) twice, each one collected; and when
      at most ten were collected, all of them. */
  lemma PriorityItemsFacts(f: seq<CleanRow>, selected: seq<string>)
    requires |f| > 0
    ensures RecommendationsOf(f, selected).priorityItems == Take(SortItems(ItemsOf(f, selected)), MaxItems)
    ensures |RecommendationsOf(f, selected).priorityItems| <= MaxItems
    ensures ItemsSorted(RecommendationsOf(f, selected).priorityItems)
    ensures KeysDistinct(RecommendationsOf(f, selected).priorityItems)
    ensures forall x :: x in RecommendationsOf(f, selected).priorityItems ==> x in ItemsOf(f, selected)
    ensures |ItemsOf(f, selected)| <= MaxItems ==> multiset(RecommendationsOf(f, selected).priorityItems) == multiset(ItemsOf(f, selected))
  {
    RankingFacts(f, selected);
    PriorityKeysDistinct(Ranking(f, selected), GrowthFor(f, selected), Daily(f, selected));
    CapFacts(ItemsOf(f, selected), MaxItems);
  }

  /** The ranking holds one bucket per state of the rows. */
  lemma RankingSize(f: seq<CleanRow>, selected: seq<string>)
    ensures |Ranking(f, selected)| == Unique(f, StateOf)
  {
    var e := Entries(f, KeyEntry(StateOf, SelectedTotal(selected)));
    EntryKeys(f, StateOf, SelectedTotal(selected));
    assert |KeysOf(GroupSum(e))| == |Distinct(KeysOf(e))|;
  }

  /** A bucket that `nsmallest`/`nlargest` leaves out is beaten by every bucket kept, and
      it can be left out only when k buckets were kept. */
  lemma LeftOutBeaten<K(!new)>(s: seq<Bucket<K>>, k: nat, desc: bool, c: Bucket<K>)
    requires c in s && c.key !in KeysOf(TopK(s, k, desc))
    ensures |TopK(s, k, desc)| == k
    ensures forall b :: b in TopK(s, k, desc) ==> Before(b, c, desc)
  {
    var t := TopK(s, k, desc);
    MemberKey(t, c);
    assert c in multiset(s) - multiset(t);
  }

  /** Which collected items carry which priority. */
  lemma ItemKinds(ranking: seq<Bucket<string>>, growth: seq<Bucket<string>>, daily: seq<Bucket<(string, Date)>>)
    ensures forall it :: it in PriorityItems(ranking, growth, daily) && it.priority == High <==> it in HighItems(Bottom(ranking))
    ensures forall it :: it in PriorityItems(ranking, growth, daily) && it.priority == Medium <==> it in MediumItems(DecliningTop(growth))
    ensures forall it :: it in PriorityItems(ranking, growth, daily) && it.priority == Review <==> it in ReviewItems(Reviewed(ranking), daily)
  {
    ReviewItemsFacts(Reviewed(ranking), daily);
    Kinds(HighItems(Bottom(ranking)), MediumItems(DecliningTop(growth)), ReviewItems(Reviewed(ranking), daily));
  }

  lemma Kinds(high: seq<Item>, medium: seq<Item>, review: seq<Item>)
    requires forall x :: x in high ==> x.priority == High
    requires forall x :: x in medium ==> x.priority == Medium
    requires forall x :: x in review ==> x.priority == Review
    ensures forall it :: it in high + medium + review && it.priority == High <==> it in high
    ensures forall it :: it in high + medium + review && it.priority == Medium <==> it in medium
    ensures forall it :: it in high + medium + review && it.priority == Review <==> it in review
  {
  }

  /** HIGH: the items of that priority are those made from the bottom five. */
  lemma HighItemsRule(f: seq<CleanRow>, selected: seq<string>)
    requires |f| > 0
    ensures forall it :: it in ItemsOf(f, selected) && it.priority == High <==> it in HighItems(Bottom(Ranking(f, selected)))
  {
    ItemKinds(Ranking(f, selected), GrowthFor(f, selected), Daily(f, selected));
  }

  /** HIGH: one item for each of the five states with the lowest totals (all states when
      there are fewer), carrying the truncated total of a state of the rows. */
  lemma HighStates(f: seq<CleanRow>, selected: seq<string>)
    requires |f| > 0
    ensures |Bottom(Ranking(f, selected))| == MinInt(BottomStates, Unique(f, StateOf))
    ensures forall b :: b in Bottom(Ranking(f, selected)) ==>
      b.value == BackendHandlers.KeySum(f, StateOf, SelectedTotal(selected), b.key) && exists r :: r in f && r.state == b.key
  {
    var ranking := Ranking(f, selected);
    var bottom := Bottom(ranking);
    RankingSize(f, selected);
    KeyTotalsFacts(f, StateOf, SelectedTotal(selected));
    forall b | b in bottom ensures b in ranking && b.key in KeysOf(ranking) {
      assert b in multiset(bottom);
      MemberKey(ranking, b);
    }
  }

  /** HIGH: a state left out has a total no lower than any state listed. */
  lemma HighLowest(f: seq<CleanRow>, selected: seq<string>)
    requires |f| > 0
    ensures forall b, r :: b in Bottom(Ranking(f, selected)) && r in f && r.state !in KeysOf(Bottom(Ranking(f, selected))) ==>
      b.value <= BackendHandlers.KeySum(f, StateOf, SelectedTotal(selected), r.state)
  {
    forall b, r | b in Bottom(Ranking(f, selected)) && r in f && r.state !in KeysOf(Bottom(Ranking(f, selected)))
      ensures b.value <= BackendHandlers.KeySum(f, StateOf, SelectedTotal(selected), r.state)
    {
      LeftOutState(f, selected, BottomStates, false, r);
    }
  }

  /** A row's state that the top k of the ranking leaves out is beaten by every state kept. */
  lemma LeftOutState(f: seq<CleanRow>, selected: seq<string>, k: nat, desc: bool, r: CleanRow)
    requires r in f && r.state !in KeysOf(TopK(Ranking(f, selected), k, desc))
    ensures |TopK(Ranking(f, selected), k, desc)| == k
    ensures forall b :: b in TopK(Ranking(f, selected), k, desc) ==>
      Before(b, Bucket(r.state, BackendHandlers.KeySum(f, StateOf, SelectedTotal(selected), r.state)), desc)
  {
    RowBucket(f, selected, r);
    LeftOutBeaten(Ranking(f, selected), k, desc, Bucket(r.state, BackendHandlers.KeySum(f, StateOf, SelectedTotal(selected), r.state)));
  }

  /** Each row's state has its bucket in the ranking, holding the state's sum. */
  lemma RowBucket(f: seq<CleanRow>, selected: seq<string>, r: CleanRow)
    requires r in f
    ensures Bucket(r.state, BackendHandlers.KeySum(f, StateOf, SelectedTotal(selected), r.state)) in Ranking(f, selected)
  {
    var ranking := Ranking(f, selected);
    KeyTotalsKeys(f, StateOf, SelectedTotal(selected));
    assert StateOf(r) == r.state;
    assert r.state in KeysOf(ranking);
    var i :| 0 <= i < |ranking| && KeysOf(ranking)[i] == r.state;
    assert ranking[i] in ranking;
    KeyTotalsFacts(f, StateOf, SelectedTotal(selected));
  }

  /** MEDIUM: the items of that priority are those made from the declining states kept. */
  lemma MediumItemsRule(f: seq<CleanRow>, selected: seq<string>)
    requires |f| > 0
    ensures forall it :: it in ItemsOf(f, selected) && it.priority == Medium <==> it in MediumItems(DecliningTop(GrowthFor(f, selected)))
  {
    ItemKinds(Ranking(f, selected), GrowthFor(f, selected), Daily(f, selected));
  }

  lemma DecliningKept(growth: seq<Bucket<string>>)
    ensures |DecliningTop(growth)| <= DecliningStates
    ensures forall b :: b in DecliningTop(growth) ==> b in growth && b.value <= -10.0
  {
    forall b | b in DecliningTop(growth) ensures b in growth && b.value <= -10.0 {
      assert b in multiset(DecliningTop(growth));
      assert b in Filter(growth, IsDeclining);
    }
  }

  /** MEDIUM: at most five items, each for a state of the rows whose growth is -10% or
      lower, carrying that growth. */
  lemma MediumStates(f: seq<CleanRow>, selected: seq<string>)
    requires |f| > 0
    ensures |DecliningTop(GrowthFor(f, selected))| <= DecliningStates
    ensures forall b :: b in DecliningTop(GrowthFor(f, selected)) ==>
      (exists r :: r in f && r.state == b.key) && b.value <= -10.0 &&
      GrowthPct(Daily(f, selected), MaxDayOf(f, selected), b.key) == Some(b.value)
  {
    DecliningKept(GrowthFor(f, selected));
    KeyTotalsKeys(f, StateOf, SelectedTotal(selected));
  }

  /** The growth of each listed state with a positive previous window is kept. */
  lemma {:induction false} GrowthHas(states: seq<string>, daily: seq<Bucket<(string, Date)>>, maxDay: int, st: string)
    requires st in states && GrowthPct(daily, maxDay, st).Some?
    ensures Bucket(st, GrowthPct(daily, maxDay, st).value) in GrowthOf(states, daily, maxDay)
  {
    var n := |states| - 1;
    assert states == states[..n] + [states[n]];
    if st != states[n] {
      GrowthHas(states[..n], daily, maxDay, st);
    }
  }

  /** MEDIUM: a state of the rows with a growth of -10% or lower is left out only when
      five states with a growth no higher are listed. */
  lemma MediumLeftOut(f: seq<CleanRow>, selected: seq<string>)
    requires |f| > 0
    ensures forall r ::
      (r in f && GrowthPct(Daily(f, selected), MaxDayOf(f, selected), r.state).Some? &&
       GrowthPct(Daily(f, selected), MaxDayOf(f, selected), r.state).value <= -10.0 &&
       r.state !in KeysOf(DecliningTop(GrowthFor(f, selected)))) ==>
        |DecliningTop(GrowthFor(f, selected))| == DecliningStates &&
        forall b :: b in DecliningTop(GrowthFor(f, selected)) ==> b.value <= GrowthPct(Daily(f, selected), MaxDayOf(f, selected), r.state).value
  {
    forall r | r in f && GrowthPct(Daily(f, selected), MaxDayOf(f, selected), r.state).Some? &&
      GrowthPct(Daily(f, selected), MaxDayOf(f, selected), r.state).value <= -10.0 &&
      r.state !in KeysOf(DecliningTop(GrowthFor(f, selected)))
      ensures |DecliningTop(GrowthFor(f, selected))| == DecliningStates &&
        forall b :: b in DecliningTop(GrowthFor(f, selected)) ==> b.value <= GrowthPct(Daily(f, selected), MaxDayOf(f, selected), r.state).value
    {
      DecliningRowLeftOut(f, selected, r);
    }
  }

  lemma DecliningRowLeftOut(f: seq<CleanRow>, selected: seq<string>, r: CleanRow)
    requires |f| > 0 && r in f
    requires GrowthPct(Daily(f, selected), MaxDayOf(f, selected), r.state).Some?
    requires GrowthPct(Daily(f, selected), MaxDayOf(f, selected), r.state).value <= -10.0
    requires r.state !in KeysOf(DecliningTop(GrowthFor(f, selected)))
    ensures |DecliningTop(GrowthFor(f, selected))| == DecliningStates
    ensures forall b :: b in DecliningTop(GrowthFor(f, selected)) ==> b.value <= GrowthPct(Daily(f, selected), MaxDayOf(f, selected), r.state).value
  {
    var c := Bucket(r.state, GrowthPct(Daily(f, selected), MaxDayOf(f, selected), r.state).value);
    RowBucket(f, selected, r);
    MemberKey(Ranking(f, selected), Bucket(r.state, BackendHandlers.KeySum(f, StateOf, SelectedTotal(selected), r.state)));
    GrowthHas(KeysOf(Ranking(f, selected)), Daily(f, selected), MaxDayOf(f, selected), r.state);
    DecliningBeaten(GrowthFor(f, selected), c);
  }

  lemma DecliningBeaten(growth: seq<Bucket<string>>, c: Bucket<string>)
    requires c in growth && c.value <= -10.0 && c.key !in KeysOf(DecliningTop(growth))
    ensures |DecliningTop(growth)| == DecliningStates
    ensures forall b :: b in DecliningTop(growth) ==> b.value <= c.value
  {
    LeftOutBeaten(Filter(growth, IsDeclining), DecliningStates, false, c);
  }

  /** REVIEW: an item exactly for each of the 25 largest states whose daily totals pass
      the z-score test, carrying the figures of the test. */
  lemma ReviewItemsRule(f: seq<CleanRow>, selected: seq<string>)
    requires |f| > 0
    ensures forall it :: it in ItemsOf(f, selected) && it.priority == Review ==>
      it.state in Reviewed(Ranking(f, selected)) && Flagged(Series(Daily(f, selected), it.state)) &&
      it.issue == Anomaly(MaxSqDev(Series(Daily(f, selected), it.state), Mean(Series(Daily(f, selected), it.state))),
        Variance(Series(Daily(f, selected), it.state)))
    ensures forall st :: st in Reviewed(Ranking(f, selected)) && Flagged(Series(Daily(f, selected), st)) ==>
      Item(Review, st, Anomaly(MaxSqDev(Series(Daily(f, selected), st), Mean(Series(Daily(f, selected), st))),
        Variance(Series(Daily(f, selected), st)))) in ItemsOf(f, selected)
  {
    ItemKinds(Ranking(f, selected), GrowthFor(f, selected), Daily(f, selected));
    ReviewItemsFacts(Reviewed(Ranking(f, selected)), Daily(f, selected));
  }

  /** REVIEW: the reviewed states are 25 states of the rows, all of them when there are
      fewer. */
  lemma ReviewStates(f: seq<CleanRow>, selected: seq<string>)
    ensures |Reviewed(Ranking(f, selected))| == MinInt(ReviewedStates, Unique(f, StateOf))
    ensures forall st :: st in Reviewed(Ranking(f, selected)) ==> exists r :: r in f && r.state == st
  {
    RankingSize(f, selected);
    KeyTotalsKeys(f, StateOf, SelectedTotal(selected));
    TakeKeys(Ranking(f, selected), ReviewedStates);
  }

  lemma TakeKeys(ranking: seq<Bucket<string>>, k: nat)
    ensures forall st :: st in Take(KeysOf(ranking), k) ==> st in KeysOf(ranking)
  {
    forall st | st in Take(KeysOf(ranking), k) ensures st in KeysOf(ranking) {
      var i :| 0 <= i < |Take(KeysOf(ranking), k)| && Take(KeysOf(ranking), k)[i] == st;
      assert KeysOf(ranking)[i] == st;
    }
  }

  /** REVIEW: a state of the rows left out of the 25 has a total no higher than any
      reviewed state. */
  lemma ReviewLargest(f: seq<CleanRow>, selected: seq<string>)
    ensures forall r, st :: r in f && r.state !in Reviewed(Ranking(f, selected)) && st in Reviewed(Ranking(f, selected)) ==>
      BackendHandlers.KeySum(f, StateOf, SelectedTotal(selected), r.state) <= BackendHandlers.KeySum(f, StateOf, SelectedTotal(selected), st)
  {
    forall r, st | r in f && r.state !in Reviewed(Ranking(f, selected)) && st in Reviewed(Ranking(f, selected))
      ensures BackendHandlers.KeySum(f, StateOf, SelectedTotal(selected), r.state) <= BackendHandlers.KeySum(f, StateOf, SelectedTotal(selected), st)
    {
      var ranking := Ranking(f, selected);
      var i :| 0 <= i < |Reviewed(ranking)| && Reviewed(ranking)[i] == st;
      RowBucket(f, selected, r);
      KeyTotalsFacts(f, StateOf, SelectedTotal(selected));
      TakeKeysLargest(ranking, ReviewedStates, Bucket(r.state, BackendHandlers.KeySum(f, StateOf, SelectedTotal(selected), r.state)), i);
      assert ranking[i] in ranking;
    }
  }

  /** In a list sorted largest first, a bucket whose key is not among the first k keys is
      no larger than any of them. */
  lemma TakeKeysLargest(ranking: seq<Bucket<string>>, k: nat, c: Bucket<string>, i: int)
    requires SortedBy(ranking, true) && c in ranking && c.key !in Take(KeysOf(ranking), k)
    requires 0 <= i < |Take(KeysOf(ranking), k)|
    ensures ranking[i].key == Take(KeysOf(ranking), k)[i] && ranking[i].value >= c.value
  {
    var j :| 0 <= j < |ranking| && ranking[j] == c;
  }

  /** `best_practices`: the five largest states with their truncated totals first, then
      growing states not already listed; at most eight, none twice. */
  lemma BestPracticesFacts(ranking: seq<Bucket<string>>, growth: seq<Bucket<string>>)
    requires DistinctKeys(ranking)
    ensures MinInt(TopTotalStates, |ranking|) <= |BestOf(ranking, growth)| <= MinInt(TopTotalStates, |ranking|) + TopGrowthStates
    ensures forall i :: 0 <= i < MinInt(TopTotalStates, |ranking|) ==>
      BestOf(ranking, growth)[i] == Practice(ranking[i].key, Enrollments(Trunc(ranking[i].value)))
    ensures forall i, j :: 0 <= i < j < |BestOf(ranking, growth)| ==> BestOf(ranking, growth)[i].state != BestOf(ranking, growth)[j].state
    ensures forall i :: MinInt(TopTotalStates, |ranking|) <= i < |BestOf(ranking, growth)| ==>
      exists b :: b in growth && b.value > 0.0 && BestOf(ranking, growth)[i] == Practice(b.key, Growth(b.value))
  {
    var totals := TotalPractices(Take(ranking, TopTotalStates));
    var top := TopGrowth(growth);
    AddGrowthFacts(totals, top);
    forall b | b in top ensures b in growth && b.value > 0.0 {
      assert b in multiset(top);
      assert b in Filter(growth, IsGrowing);
    }
    var best := BestOf(ranking, growth);
    forall i | 0 <= i < MinInt(TopTotalStates, |ranking|)
      ensures best[i] == Practice(ranking[i].key, Enrollments(Trunc(ranking[i].value)))
    {
      assert best[..|totals|][i] == totals[i];
    }
  }
}
