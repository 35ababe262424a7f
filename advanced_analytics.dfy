/** The advanced-analytics panel's own state
    (uidai-dashboard/src/components/AdvancedAnalytics.jsx): nothing is shown without
    data, the first tab and the sunburst settings it starts with, and the sunburst's
    age-group checkbox updater. */
module AdvancedAnalytics {
  import opened Common
  import opened Aggregates
  import DashboardFilters

  datatype Tab = Comparison | Heatmaps | Hierarchy | Anomaly

  /** The tabs, in the order they are offered. */
  const Tabs: seq<Tab> := [Comparison, Heatmaps, Hierarchy, Anomaly]

  datatype SunburstMode = AgeBreakdown | TotalOnly

  datatype PanelState = PanelState(active: Tab, mode: SunburstMode, ageGroups: seq<string>)

  /** The panel renders nothing for missing or empty data; otherwise it starts on the
      first tab, in age-breakdown mode, with all three age groups selected. */
  function InitialPanel(data: seq<Row>): (r: Option<PanelState>)
    ensures r.None? <==> |data| == 0
    ensures r.Some? ==> r.value.active == Tabs[0] && r.value.mode == AgeBreakdown
    ensures r.Some? ==> forall g: AgeGroup :: AgeKey(g) in r.value.ageGroups
    ensures r.Some? ==> |r.value.ageGroups| == 3
  {
    if |data| == 0 then None
    else Some(PanelState(Tabs[0], AgeBreakdown, [AgeKey(Age0To5), AgeKey(Age5To17), AgeKey(Age18Plus)]))
  }

  /** The initial sunburst selection is the dashboard's full age selection. */
  lemma InitialSelectionIsAllAges(data: seq<Row>)
    requires |data| > 0
    ensures InitialPanel(data).value.ageGroups == DashboardFilters.AllAgeKeys
    ensures InitialPanel(data).value.ageGroups == DashboardFilters.InitialFilters.ageGroups
  {
  }

  /** The checkbox updater: a selected key is removed, another is appended at the end;
      a result with nothing selected keeps the previous selection. */
  function ToggleSunburstAge(prev: seq<string>, key: string): seq<string> {
    var next := if key in prev then Filter(prev, x => x != key) else prev + [key];
    if |next| > 0 then next else prev
  }

  /** Toggling a key not selected appends it. */
  lemma ToggleAppends(prev: seq<string>, key: string)
    requires key !in prev
    ensures ToggleSunburstAge(prev, key) == prev + [key]
  {
  }

  /** Toggling a selected key drops every copy of it and keeps the rest in order, unless
      it was the only key selected: then nothing changes. */
  lemma ToggleRemoves(prev: seq<string>, key: string)
    requires key in prev
    ensures (exists k :: k in prev && k != key) ==>
      ToggleSunburstAge(prev, key) == Filter(prev, x => x != key) && key !in ToggleSunburstAge(prev, key)
    ensures (forall k :: k in prev ==> k == key) ==> ToggleSunburstAge(prev, key) == prev
  {
    if exists k :: k in prev && k != key {
      var k :| k in prev && k != key;
      assert k in Filter(prev, x => x != key);
    } else {
      FilterNone(prev, x => x != key);
    }
  }

  /** Toggling a key in and out again restores the selection. */
  lemma ToggleTwice(prev: seq<string>, key: string)
    requires key !in prev && |prev| > 0
    ensures ToggleSunburstAge(ToggleSunburstAge(prev, key), key) == prev
  {
    var next := prev + [key];
    assert key in next;
    FilterAppend(prev, [key], x => x != key);
    FilterKeepsAll(prev, x => x != key);
    assert prev[0] in Filter(next, x => x != key);
  }

  /** A non-empty selection stays non-empty. */
  lemma ToggleKeepsOne(prev: seq<string>, key: string)
    requires |prev| > 0
    ensures |ToggleSunburstAge(prev, key)| > 0
  {
  }
}
