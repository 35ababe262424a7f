/** The enrollment map (uidai-dashboard/src/components/charts/GeographicMap.jsx): its own
    copy of the state normaliser, per-state totals, the states that have a centroid, and
    marker sizes scaled to the largest total. Latitudes and longitudes are not modelled;
    only the names of the centroid table are. */
module GeographicMap {
  import opened Common
  import opened Text
  import opened Aggregates
  import opened CleaningNames

  /** The alias table of the map's normaliser, keyed by the lower-cased cleaned name. */
  function GeoAliases(): seq<(string, string)> {
    [
      ("andaman & nicobar islands", "Andaman And Nicobar Islands"),
      ("andaman and nicobar islands", "Andaman And Nicobar Islands"),
      ("dadra and nagar haveli", "Dadra And Nagar Haveli And Daman And Diu"),
      ("daman and diu", "Dadra And Nagar Haveli And Daman And Diu"),
      ("dadra and nagar haveli and daman and diu", "Dadra And Nagar Haveli And Daman And Diu"),
      ("delhi", "Nct Of Delhi"),
      ("nct of delhi", "Nct Of Delhi"),
      ("national capital territory of delhi", "Nct Of Delhi"),
      ("orissa", "Odisha"),
      ("pondicherry", "Puducherry"),
      ("jammu & kashmir", "Jammu And Kashmir")
    ]
  }

  /** The table with its `&` key for Jammu and Kashmir spelled as the lookup key is
      spelled, `&` written "and", so that the key can be met. */
  function FixedGeoAliases(): seq<(string, string)> {
    GeoAliases()[..10] + [("jammu and kashmir", "Jammu And Kashmir")]
  }

  /** The names of STATE_CENTROIDS. */
  function CentroidStates(): seq<string> {
    [
      "Andaman And Nicobar Islands", "Andhra Pradesh", "Arunachal Pradesh", "Assam", "Bihar",
      "Chandigarh", "Chhattisgarh", "Dadra And Nagar Haveli And Daman And Diu", "Nct Of Delhi",
      "Goa", "Gujarat", "Haryana", "Himachal Pradesh", "Jammu And Kashmir", "Jharkhand",
      "Karnataka", "Kerala", "Ladakh", "Lakshadweep", "Madhya Pradesh", "Maharashtra",
      "Manipur", "Meghalaya", "Mizoram", "Nagaland", "Odisha", "Puducherry", "Punjab",
      "Rajasthan", "Sikkim", "Tamil Nadu", "Telangana", "Tripura", "Uttar Pradesh",
      "Uttarakhand", "West Bengal"
    ]
  }

  /** The lookup key of a trimmed, non-empty name: `&` spelled "and", whitespace runs made
      one space, lower case. Unlike the backend there is no "the " stripping. */
  function GeoKey(t: string): (k: string)
    requires IsTrimmed(t) && |t| > 0
    ensures |k| > 0 && Collapsed(k) && IsTrimmed(k) && IsLowerCased(k) && '&' !in k
  {
    var b := ReplaceChar(t, '&', "and");
    ReplaceCharEnds(t, '&', "and");
    var c := CollapseWs(b);
    LowerKeepsShape(c);
    Lower(c)
  }

  /** The normaliser over a given alias table: "" for a missing, empty or blank name;
      otherwise the alias of the key, or the key title-cased word by word with "and" and
      "of" left in lower case. There is no digits check. */
  function NormalizeWith(table: seq<(string, string)>, v: Option<string>): (r: string)
    ensures v.None? || Trim(v.value) == [] ==> r == ""
  {
    if v.None? || |v.value| == 0 then ""
    else
      var t := Trim(v.value);
      if |t| == 0 then ""
      else
        var k := GeoKey(t);
        match AssocGet(table, k)
        case Some(a) => a
        case None =>
          StateExemptLower();
          TitleWordsShape(k, {"and", "of"});
          Join(TitleAll(Split(k, ' '), {"and", "of"}), " ")
  }

  /** A named state is its alias when its key has one, and otherwise its key title-cased
      word by word with "and" and "of" left in lower case. */
  lemma NormalizeWithNamed(table: seq<(string, string)>, v: Option<string>)
    requires v.Some? && Trim(v.value) != []
    ensures match AssocGet(table, GeoKey(Trim(v.value)))
      case Some(a) => NormalizeWith(table, v) == a
      case None =>
        Lower(NormalizeWith(table, v)) == GeoKey(Trim(v.value)) && TitledWords(NormalizeWith(table, v), {"and", "of"})
  {
    var k := GeoKey(Trim(v.value));
    if AssocGet(table, k).None? {
      StateExemptLower();
      TitleWordsShape(k, {"and", "of"});
    }
  }

  /** `normalizeState` of the map, as written. */
  function NormalizeStateGeo(v: Option<string>): string {
    NormalizeWith(GeoAliases(), v)
  }

  /** The normaliser with the alias keys spelled as the lookup key is spelled. */
  function NormalizeStateGeoFixed(v: Option<string>): string {
    NormalizeWith(FixedGeoAliases(), v)
  }

  lemma GeoAliasTarget(k: string, a: string)
    requires (k, a) in GeoAliases() && a == "Jammu And Kashmir"
    ensures '&' in k
  {
    var i :| 0 <= i < |GeoAliases()| && GeoAliases()[i] == (k, a);
    assert i == 10;
    assert k[6] == '&';
  }

  /** As written, no name ever normalises to the centroid key "Jammu And Kashmir": the
      `&` key that would give it is unreachable once `&` is spelled "and", and title
      casing leaves "and" in lower case. So Jammu and Kashmir is never plotted. */
  lemma JammuNeverPlotted(v: Option<string>)
    ensures NormalizeStateGeo(v) != "Jammu And Kashmir"
  {
    if v.Some? && Trim(v.value) != [] {
      var k := GeoKey(Trim(v.value));
      NormalizeWithNamed(GeoAliases(), v);
      match AssocGet(GeoAliases(), k)
      case Some(a) =>
        if a == "Jammu And Kashmir" {
          GeoAliasTarget(k, a);
        }
      case None =>
        JammuNotTitled("Jammu And Kashmir");
    }
  }

  /** With the key respelled, a name whose key is "jammu and kashmir" (such as
      "Jammu & Kashmir" or "Jammu and Kashmir") reaches its centroid. */
  lemma JammuPlottedWhenFixed(v: Option<string>)
    requires v.Some? && Trim(v.value) != [] && GeoKey(Trim(v.value)) == "jammu and kashmir"
    ensures NormalizeStateGeoFixed(v) == "Jammu And Kashmir"
    ensures NormalizeStateGeoFixed(v) in CentroidStates()
  {
    FixedJammuKey();
    NormalizeWithAlias(FixedGeoAliases(), v, "Jammu And Kashmir");
    JammuHasCentroid();
  }

  lemma NormalizeWithAlias(table: seq<(string, string)>, v: Option<string>, a: string)
    requires v.Some? && Trim(v.value) != [] && AssocGet(table, GeoKey(Trim(v.value))) == Some(a)
    ensures NormalizeWith(table, v) == a
  {
  }

  lemma JammuHasCentroid()
    ensures "Jammu And Kashmir" in CentroidStates()
  {
    assert CentroidStates()[13] == "Jammu And Kashmir";
  }

  lemma FixedJammuKey()
    ensures AssocGet(FixedGeoAliases(), "jammu and kashmir") == Some("Jammu And Kashmir")
  {
    var p := GeoAliases()[..10];
    forall e | e in p ensures e.0 != "jammu and kashmir" {
      var i :| 0 <= i < 10 && p[i] == e;
      assert |e.0| != 17;
    }
    AssocGetLast(p, ("jammu and kashmir", "Jammu And Kashmir"));
  }

  /** The respelled table changes nothing else: every other name gets the same state. */
  lemma FixedAgreesElsewhere(v: Option<string>)
    requires v.None? || Trim(v.value) == [] || GeoKey(Trim(v.value)) != "jammu and kashmir"
    ensures NormalizeStateGeoFixed(v) == NormalizeStateGeo(v)
  {
    if v.Some? && Trim(v.value) != [] {
      FixedTableAgrees(GeoKey(Trim(v.value)));
    }
    NormalizeWithAgree(FixedGeoAliases(), GeoAliases(), v);
  }

  lemma FixedTableAgrees(k: string)
    requires '&' !in k && k != "jammu and kashmir"
    ensures AssocGet(FixedGeoAliases(), k) == AssocGet(GeoAliases(), k)
  {
    assert "jammu & kashmir"[6] == '&';
    var p := GeoAliases()[..10];
    assert GeoAliases() == p + [GeoAliases()[10]];
    AssocGetSnoc(p, GeoAliases()[10], k);
    AssocGetSnoc(p, ("jammu and kashmir", "Jammu And Kashmir"), k);
  }

  /** Two tables that give a name's key the same alias give it the same state. */
  lemma NormalizeWithAgree(t1: seq<(string, string)>, t2: seq<(string, string)>, v: Option<string>)
    requires v.Some? && Trim(v.value) != [] ==>
      AssocGet(t1, GeoKey(Trim(v.value))) == AssocGet(t2, GeoKey(Trim(v.value)))
    ensures NormalizeWith(t1, v) == NormalizeWith(t2, v)
  {
  }

  lemma {:induction false} AssocGetSnoc<V>(p: seq<(string, V)>, x: (string, V), k: string)
    requires k != x.0
    ensures AssocGet(p + [x], k) == AssocGet(p, k)
  {
    if |p| > 0 {
      assert (p + [x])[1..] == p[1..] + [x];
      AssocGetSnoc(p[1..], x, k);
    }
  }

  lemma {:induction false} AssocGetLast<V>(p: seq<(string, V)>, x: (string, V))
    requires forall e :: e in p ==> e.0 != x.0
    ensures AssocGet(p + [x], x.0) == Some(x.1)
  {
    if |p| > 0 {
      assert (p + [x])[1..] == p[1..] + [x];
      assert p[0] in p;
      AssocGetLast(p[1..], x);
    } else {
      assert p + [x] == [x];
    }
  }

  /** One plotted marker. */
  datatype Marker = Marker(state: string, total: real, size: real)

  /** A row's contribution: its total under its state as the map's `normalizeState`
      writes it; a row whose state normalises to "" is skipped. */
  function GeoEntry(r: Row): (e: seq<Bucket<string>>)
    ensures |e| <= 1 && forall b :: b in e ==> b.value == r.total
    ensures |e| == 0 <==> NormalizeStateGeo(Some(r.state)) == ""
    ensures forall b :: b in e ==> b.key == NormalizeStateGeo(Some(r.state))
  {
    EntryUnder(NormalizeStateGeo(Some(r.state)), r.total)
  }

  /** The total under the name s, or nothing when s is "" (`if (!s) continue`). */
  function EntryUnder(s: string, total: real): (e: seq<Bucket<string>>)
    ensures |e| <= 1 && (|e| == 0 <==> s == "")
    ensures forall b :: b in e ==> b.key == s && b.value == total
  {
    if s == "" then [] else [Bucket(s, total)]
  }

  /** Sum of the totals of the rows whose state normalises to s (a reference definition). */
  function GeoTotal(data: seq<Row>, s: string): real {
    if |data| == 0 then 0.0
    else
      var last := data[|data| - 1];
      GeoTotal(data[..|data| - 1], s) + (if NormalizeStateGeo(Some(last.state)) == s then last.total else 0.0)
  }

  /** `stateTotals` after the loop, in first-appearance order. */
  function GeoTotals(data: seq<Row>): seq<Bucket<string>> {
    GroupSum(Entries(data, GeoEntry))
  }

  predicate HasCentroid(b: Bucket<string>) {
    b.key in CentroidStates()
  }

  /** The states with a centroid, by descending total (`points.sort` is stable). */
  function Points(data: seq<Row>): (p: seq<Bucket<string>>)
    ensures SortedBy(p, true)
  {
    SortBy(Filter(GeoTotals(data), HasCentroid), true)
  }

  /** `points[0]?.total || 1`: the first total, or 1 when there is no point or the first
      total is 0. */
  function Scale(points: seq<Bucket<string>>): (max: real)
    ensures max != 0.0
    ensures |points| > 0 && points[0].value > 0.0 ==> max == points[0].value
    ensures (forall b :: b in points ==> b.value == 0.0) ==> max == 1.0
  {
    if |points| == 0 || points[0].value == 0.0 then 1.0 else points[0].value
  }

  /** The markers of the points: the state, its total, and a size of 12 plus up to 40 in
      proportion to the scale. */
  function Markers(points: seq<Bucket<string>>): (ms: seq<Marker>)
    ensures |ms| == |points|
    ensures forall i :: 0 <= i < |points| ==> ms[i].state == points[i].key && ms[i].total == points[i].value
  {
    var max := Scale(points);
    seq(|points|, i requires 0 <= i < |points| => Marker(points[i].key, points[i].value, 12.0 + (points[i].value / max) * 40.0))
  }

  /** The map: None ("No data available") for empty data. */
  function MarkersOf(data: seq<Row>): (r: Option<seq<Marker>>)
    ensures r.None? <==> |data| == 0
  {
    if |data| == 0 then None else Some(Markers(Points(data)))
  }

  /** The component body: the totals loop, the centroid filter, the in-place sort and the
      marker sizes. */
  method MapMarkers(data: seq<Row>) returns (r: Option<seq<Marker>>)
    ensures r == MarkersOf(data)
  {
    if |data| == 0 {
      return None;
    }
    var totals := GroupRows(data, GeoEntry);
    var points := SortBy(Filter(totals, HasCentroid), true);
    r := Some(Markers(points));
  }

  lemma {:induction false} EntriesByState(data: seq<Row>, s: string)
    ensures SumFor(Entries(data, GeoEntry), s) == (if s == "" then 0.0 else GeoTotal(data, s))
  {
    if |data| > 0 {
      var n := |data| - 1;
      EntriesByState(data[..n], s);
      SumForAppend(Entries(data[..n], GeoEntry), GeoEntry(data[n]), s);
      var e := GeoEntry(data[n]);
      if |e| == 1 {
        assert e[..0] == [];
      }
    }
  }

  /** A key no row's entry carries is never a total's key. */
  lemma TotalsAvoid(data: seq<Row>, x: string)
    requires forall t, b :: b in GeoEntry(t) ==> b.key != x
    ensures forall b :: b in GeoTotals(data) ==> b.key != x
  {
    var e := Entries(data, GeoEntry);
    EntriesAvoid(data, GeoEntry, x);
    forall b | b in GeoTotals(data) ensures b.key != x {
      GroupMember(e, b);
      var i :| 0 <= i < |e| && KeysOf(e)[i] == b.key;
      assert e[i] in e;
    }
  }

  /** Rows whose state normalises to "" are skipped: no total is kept under "". */
  lemma EmptyNamesSkipped(data: seq<Row>)
    ensures forall b :: b in GeoTotals(data) ==> b.key != ""
  {
    TotalsAvoid(data, "");
  }

  /** No total is kept under "Jammu And Kashmir", whatever the rows say. */
  lemma JammuNoTotal(data: seq<Row>)
    ensures forall b :: b in GeoTotals(data) ==> b.key != "Jammu And Kashmir"
  {
    forall t, b | b in GeoEntry(t) ensures b.key != "Jammu And Kashmir" {
      JammuNeverPlotted(Some(t.state));
    }
    TotalsAvoid(data, "Jammu And Kashmir");
  }

  /** As written, the map has no marker for Jammu and Kashmir, although the centroid
      table has one. */
  lemma JammuNeverOnMap(data: seq<Row>)
    requires |data| > 0
    ensures forall m :: m in MarkersOf(data).value ==> m.state != "Jammu And Kashmir"
    ensures "Jammu And Kashmir" in CentroidStates()
  {
    JammuHasCentroid();
    JammuNoTotal(data);
    PlottedStates(data);
    var ps := Points(data);
    var ms := Markers(ps);
    forall m | m in ms ensures m.state != "Jammu And Kashmir" {
      var i :| 0 <= i < |ms| && ms[i] == m;
      assert ps[i] in ps;
    }
  }

  /** A state is plotted exactly when it has a total and a centroid; it is plotted once,
      with the sum of the totals of its rows. */
  lemma PlottedStates(data: seq<Row>)
    ensures forall b :: b in Points(data) <==> b in GeoTotals(data) && b.key in CentroidStates()
    ensures DistinctKeys(Points(data))
    ensures forall b :: b in Points(data) ==> b.value == GeoTotal(data, b.key)
  {
    var e := Entries(data, GeoEntry);
    SortedFilterOfGroup(e, HasCentroid, true);
    EmptyNamesSkipped(data);
    forall b | b in Points(data) ensures b.value == GeoTotal(data, b.key) {
      GroupMember(e, b);
      EntriesByState(data, b.key);
    }
  }

  /** With non-negative totals, sorted largest first, every marker size lies between 12
      and 52, and a positive largest total gets the full 52. */
  lemma MarkerSizesWithin(points: seq<Bucket<string>>)
    requires SortedBy(points, true) && NonNegative(points)
    ensures forall m :: m in Markers(points) ==> 12.0 <= m.size <= 52.0
    ensures |points| > 0 && points[0].value > 0.0 ==> Markers(points)[0].size == 52.0
  {
    var max := Scale(points);
    var ms := Markers(points);
    if |points| > 0 && points[0].value > 0.0 {
      assert points[0].value / max == 1.0;
      assert ms[0].size == 12.0 + (points[0].value / max) * 40.0;
    }
    forall m | m in ms ensures 12.0 <= m.size <= 52.0 {
      var i :| 0 <= i < |ms| && ms[i] == m;
      assert points[i] in points;
      if 0 < i {
        assert Before(points[0], points[i], true);
      }
      if points[0].value > 0.0 {
        SizeBounds(points[i].value, max);
      } else {
        assert points[i].value == 0.0;
      }
    }
  }

  lemma SizeBounds(total: real, max: real)
    requires 0.0 <= total <= max && max > 0.0
    ensures 12.0 <= 12.0 + (total / max) * 40.0 <= 52.0
  {
    assert total / max <= 1.0;
  }

  /** So with non-negative row totals every marker on the map is between 12 and 52. */
  lemma MarkerSizesBounded(data: seq<Row>)
    requires |data| > 0
    requires forall r :: r in data ==> r.total >= 0.0
    ensures forall m :: m in MarkersOf(data).value ==> 12.0 <= m.size <= 52.0
  {
    var e := Entries(data, GeoEntry);
    forall t | t in data ensures NonNegative(GeoEntry(t)) {
    }
    EntriesNonNegative(data, GeoEntry);
    GroupSumNonNegative(e);
    SortedFilterOfGroup(e, HasCentroid, true);
    MarkerSizesWithin(Points(data));
  }
}
