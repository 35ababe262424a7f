/** scripts/analyze_district_variants.py: a diagnostic key for district names (`key2`:
    lower-cased, stripped, a trailing and then a leading word "district" removed,
    whitespace runs collapsed), the distinct (name, key) pairs, how many distinct names
    share each key, and the keys with more than one name, with examples. */
module DistrictVariants {
  import opened Common
  import opened Text
  import opened Aggregates

  const District: string := "district"
  const TopKeys: nat := 25
  const ExampleKeys: nat := 10
  const ExampleVariants: nat := 10

  /** `str.replace(r"\s+district\s*$", "")`: a final "district" preceded by whitespace is
      removed with that whitespace and whatever whitespace follows it. */
  function StripSuffix(s: string): (r: string)
    ensures |r| <= |s| && r == s[..|r|]
  {
    var t := TrimRight(s);
    if |t| > |District| && t[|t| - |District|..] == District && IsSpace(t[|t| - |District| - 1]) then
      var u := TrimRight(t[..|t| - |District|]);
      assert u == s[..|u|];
      u
    else s
  }

  /** `str.replace(r"^district\s+", "")`: a leading "district" followed by whitespace is
      removed with that whitespace. */
  function StripPrefix(s: string): (r: string)
    ensures |r| <= |s| && r == s[|s| - |r|..]
  {
    if |s| > |District| && s[..|District|] == District && IsSpace(s[|District|]) then TrimLeft(s[|District|..])
    else s
  }

  /** `key2`. */
  function Key2(d: string): string {
    CollapseWs(StripPrefix(StripSuffix(Trim(Lower(d)))))
  }

  predicate AllSpace(s: string) {
    forall i :: 0 <= i < |s| ==> IsSpace(s[i])
  }

  /** The rule `\s+district\s*$` on a trimmed string: it fires exactly when the string
      is longer than "district", ends with it, and has whitespace just before it; it then
      cuts "district" and all whitespace before it, and what is left is trimmed. */
  lemma SuffixRule(s: string)
    requires IsTrimmed(s)
    ensures StripSuffix(s) != s <==> |s| > |District| && EndsWith(s, District) && IsSpace(s[|s| - |District| - 1])
    ensures StripSuffix(s) != s ==>
      |StripSuffix(s)| < |s| - |District| && AllSpace(s[|StripSuffix(s)|..|s| - |District|])
      && IsTrimmed(StripSuffix(s))
  {
    assert TrimRight(s) == s;
    var r := StripSuffix(s);
    if r != s {
      var t := s[..|s| - |District|];
      assert r == TrimRight(t);
      assert s[|r|..|s| - |District|] == t[|r|..];
      assert |r| > 0 ==> r[0] == s[0];
    }
  }

  /** The rule `^district\s+` on a trimmed string: it fires exactly when the string is
      longer than "district", starts with it and has whitespace just after it; it then cuts
      "district" and all whitespace after it, and what is left is trimmed. */
  lemma PrefixRule(s: string)
    requires IsTrimmed(s)
    ensures StripPrefix(s) != s <==> |s| > |District| && StartsWith(s, District) && IsSpace(s[|District|])
    ensures StripPrefix(s) != s ==>
      |StripPrefix(s)| < |s| - |District| && AllSpace(s[|District|..|s| - |StripPrefix(s)|])
      && IsTrimmed(StripPrefix(s))
  {
    PrefixFires(s);
    if StripPrefix(s) != s {
      PrefixStrips(s);
    }
  }

  lemma PrefixFires(s: string)
    requires IsTrimmed(s)
    ensures StripPrefix(s) != s <==> |s| > |District| && StartsWith(s, District) && IsSpace(s[|District|])
  {
  }

  lemma PrefixStrips(s: string)
    requires IsTrimmed(s) && |s| > |District| && s[..|District|] == District && IsSpace(s[|District|])
    ensures |StripPrefix(s)| < |s| - |District| && AllSpace(s[|District|..|s| - |StripPrefix(s)|])
    ensures IsTrimmed(StripPrefix(s))
  {
    var r := StripPrefix(s);
    var t := s[|District|..];
    assert r == TrimLeft(t);
    var k := |t| - |r|;
    assert AllSpace(t[..k]);
    assert s[|District|..|s| - |r|] == t[..k];
    PrefixStripsTrimmed(s);
  }

  lemma PrefixStripsTrimmed(s: string)
    requires IsTrimmed(s) && |s| > |District| && s[..|District|] == District && IsSpace(s[|District|])
    ensures IsTrimmed(StripPrefix(s))
  {
    var r := StripPrefix(s);
    assert |r| > 0 ==> r[|r| - 1] == s[|s| - 1];
  }

  lemma StripSuffixTrimmed(s: string)
    requires IsTrimmed(s)
    ensures IsTrimmed(StripSuffix(s))
  {
    SuffixRule(s);
  }

  lemma StripPrefixTrimmed(s: string)
    requires IsTrimmed(s)
    ensures IsTrimmed(StripPrefix(s))
  {
    PrefixRule(s);
  }

  /** A string built from the characters of a lower-cased string and spaces is
      lower-cased. */
  lemma LowerCasedFrom(r: string, s: string)
    requires IsLowerCased(s)
    requires forall i :: 0 <= i < |r| ==> r[i] in s || r[i] == ' '
    ensures IsLowerCased(r)
  {
    forall i | 0 <= i < |r| ensures !IsUpperChar(r[i]) {
      if r[i] != ' ' {
        var j :| 0 <= j < |s| && s[j] == r[i];
      }
    }
  }

  /** The key has single plain spaces only, none at either end, and no capital letter. */
  lemma Key2Shape(d: string)
    ensures Collapsed(Key2(d)) && IsTrimmed(Key2(d)) && IsLowerCased(Key2(d))
  {
    Key2Trimmed(d);
    Key2LowerCased(d);
  }

  lemma Key2Trimmed(d: string)
    ensures IsTrimmed(Key2(d))
  {
    var t := Trim(Lower(d));
    StripSuffixTrimmed(t);
    StripPrefixTrimmed(StripSuffix(t));
    CollapsedTrimmedSpaces(StripPrefix(StripSuffix(t)));
  }

  lemma Key2LowerCased(d: string)
    ensures IsLowerCased(Key2(d))
  {
    var l := Lower(d);
    LowerIsLowerCased(d);
    LowerCasedFrom(Trim(l), l);
    StripSuffixLowerCased(Trim(l));
    StripPrefixLowerCased(StripSuffix(Trim(l)));
    var b := StripPrefix(StripSuffix(Trim(l)));
    LowerCasedFrom(CollapseWs(b), b);
  }

  lemma StripSuffixLowerCased(s: string)
    requires IsLowerCased(s)
    ensures IsLowerCased(StripSuffix(s))
  {
    var r := StripSuffix(s);
    forall i | 0 <= i < |r| ensures r[i] == s[i] {
    }
  }

  lemma StripPrefixLowerCased(s: string)
    requires IsLowerCased(s)
    ensures IsLowerCased(StripPrefix(s))
  {
    var r := StripPrefix(s);
    forall i | 0 <= i < |r| ensures r[i] == s[|s| - |r| + i] {
    }
  }

  /** A name already in key form (lower-case, trimmed, single spaces, no word "district"
      at either end) is its own key. */
  lemma Key2OfCanonical(d: string)
    requires IsLowerCased(d) && IsTrimmed(d) && Collapsed(d)
    requires !(|d| > |District| && EndsWith(d, District) && IsSpace(d[|d| - |District| - 1]))
    requires !(|d| > |District| && StartsWith(d, District) && IsSpace(d[|District|]))
    ensures Key2(d) == d
  {
    Key2OfLowerTrimmed(d);
    SuffixRule(d);
    assert StripSuffix(d) == d;
    PrefixRule(d);
    assert StripPrefix(d) == d;
    CollapseOfCollapsed(d);
  }

  /** A trimmed name followed by a space and "district" loses exactly that suffix. */
  lemma SuffixCut(w: string)
    requires |w| > 0 && IsTrimmed(w)
    ensures StripSuffix(w + " " + District) == w
  {
    var s := w + " " + District;
    assert s[|s| - 1] == 't';
    assert TrimRight(s) == s;
    assert s[|s| - |District|..] == District;
    assert s[|s| - |District| - 1] == ' ';
    assert s[..|s| - |District|] == w + " ";
    assert (w + " ")[..|w|] == w;
    assert TrimRight(w) == w;
  }

  /** "district", a space and a name not starting with whitespace lose exactly that
      prefix. */
  lemma PrefixCut(w: string)
    requires |w| > 0 && !IsSpace(w[0])
    ensures StripPrefix(District + " " + w) == w
  {
    var s := District + " " + w;
    assert s[..|District|] == District;
    assert s[|District|] == ' ';
    assert s[|District|..] == " " + w;
    assert (" " + w)[1..] == w;
  }

  /** The key of a lower-case trimmed name is what the two rules and the collapse leave. */
  lemma Key2OfLowerTrimmed(d: string)
    requires IsLowerCased(d) && IsTrimmed(d)
    ensures Key2(d) == CollapseWs(StripPrefix(StripSuffix(d)))
  {
    LowerOfLowerCased(d);
    TrimOfTrimmed(d);
  }

  /** A name in key form followed by " district" has that name as its key. */
  lemma Key2DropsSuffix(w: string)
    requires |w| > 0 && IsTrimmed(w) && IsLowerCased(w) && Collapsed(w) && !StartsWith(w, District)
    ensures Key2(w + " " + District) == w
  {
    var s := w + " " + District;
    assert IsLowerCased(s) by {
      assert forall i :: 0 <= i < |w| ==> s[i] == w[i];
      assert forall i :: |w| <= i < |s| ==> s[i] in " district";
    }
    assert s[|s| - 1] == 't';
    Key2OfLowerTrimmed(s);
    SuffixCut(w);
    CollapseOfCollapsed(w);
  }

  /** "district " followed by a name in key form that does not itself end in " district"
      has that name as its key, whatever the case of the input. */
  lemma Key2DropsPrefix(d: string, w: string)
    requires |w| > 0 && IsTrimmed(w) && Collapsed(w)
    requires Lower(d) == District + " " + w
    requires !(EndsWith(Lower(d), District) && IsSpace(Lower(d)[|d| - |District| - 1]))
    ensures Key2(d) == w
  {
    var l := Lower(d);
    assert l[|l| - 1] == w[|w| - 1];
    assert IsTrimmed(l);
    TrimOfTrimmed(l);
    SuffixRule(l);
    PrefixCut(w);
    CollapseOfCollapsed(w);
  }

  /** Appending " district" to a name in key form keeps it in key form. */
  lemma ExtendKeyForm(w: string)
    requires |w| > 0 && IsTrimmed(w) && IsLowerCased(w) && Collapsed(w)
    ensures IsTrimmed(w + " " + District) && IsLowerCased(w + " " + District)
    ensures Collapsed(w + " " + District)
  {
    var v := w + " " + District;
    assert forall i :: 0 <= i < |w| ==> v[i] == w[i];
    assert forall i :: |w| <= i < |v| ==> v[i] in " district";
    assert v[|v| - 1] == 't';
  }

  lemma ExtendNotPrefixed(w: string)
    requires |w| > 0 && !StartsWith(w, District)
    ensures !StartsWith(w + " " + District, District)
  {
    var v := w + " " + District;
    if |w| >= |District| {
      assert v[..|District|] == w[..|District|];
    } else {
      assert v[|w|] == ' ' && District[|w|] != ' ';
    }
  }

  /** Applying the key twice to "w district district" cuts one "district" each time. */
  lemma Key2TwiceDrops(w: string)
    requires |w| > 0 && IsTrimmed(w) && IsLowerCased(w) && Collapsed(w) && !StartsWith(w, District)
    ensures Key2(w + " " + District + " " + District) == w + " " + District
    ensures Key2(w + " " + District) == w
  {
    Key2DropsSuffix(w);
    ExtendKeyForm(w);
    ExtendNotPrefixed(w);
    Key2DropsSuffix(w + " " + District);
  }

  lemma ADistrictFacts()
    ensures IsTrimmed("a") && IsLowerCased("a") && Collapsed("a") && !StartsWith("a", District)
    ensures "a" + " " + District + " " + District == "a district district"
    ensures "a" + " " + District == "a district"
  {
  }

  /** The key is not idempotent: cutting one trailing "district" can expose another. */
  lemma Key2NotIdempotent()
    ensures Key2("a district district") == "a district"
    ensures Key2("a district") == "a"
  {
    ADistrictFacts();
    Key2TwiceDrops("a");
  }

  lemma KupwaraFacts()
    ensures Lower("District Kupwara") == District + " " + "kupwara"
    ensures !EndsWith("district kupwara", District)
    ensures Collapsed("kupwara")
  {
    assert "district kupwara"[15] != District[7];
  }

  /** The leading rule on an example. */
  lemma Key2Examples()
    ensures Key2("District Kupwara") == "kupwara"
  {
    KupwaraFacts();
    Key2DropsPrefix("District Kupwara", "kupwara");
  }

  // ---------------------------------------------------------------------------------
  // Variants

  function Pairs(ds: seq<string>): (ps: seq<(string, string)>)
    ensures |ps| == |ds|
    ensures forall i :: 0 <= i < |ds| ==> ps[i] == (ds[i], Key2(ds[i]))
  {
    seq(|ds|, i requires 0 <= i < |ds| => (ds[i], Key2(ds[i])))
  }

  /** `collapsed`: the distinct (orig, key2) pairs in first-seen order. */
  function CollapsedPairs(ds: seq<string>): seq<(string, string)> {
    Distinct(Pairs(ds))
  }

  function Origs(ps: seq<(string, string)>): (os: seq<string>)
    ensures |os| == |ps|
    ensures forall i :: 0 <= i < |ps| ==> os[i] == ps[i].0
  {
    seq(|ps|, i requires 0 <= i < |ps| => ps[i].0)
  }

  function Keys(ps: seq<(string, string)>): (ks: seq<string>)
    ensures |ks| == |ps|
    ensures forall i :: 0 <= i < |ps| ==> ks[i] == ps[i].1
  {
    seq(|ps|, i requires 0 <= i < |ps| => ps[i].1)
  }

  /** A name's pair is among the pairs exactly when the name is among the names. */
  lemma PairIn(ds: seq<string>, x: string)
    ensures (x, Key2(x)) in Pairs(ds) <==> x in ds
  {
    var ps := Pairs(ds);
    if x in ds {
      var j :| 0 <= j < |ds| && ds[j] == x;
      assert ps[j] == (x, Key2(x));
    }
  }

  /** Every pair of `collapsed` holds a name and that name's key. */
  lemma CollapsedKeyed(ds: seq<string>)
    ensures forall p :: p in CollapsedPairs(ds) ==> p.1 == Key2(p.0)
  {
    forall p | p in CollapsedPairs(ds) ensures p.1 == Key2(p.0) {
      assert p in Pairs(ds);
    }
  }

  /** The names of `collapsed` are the distinct names in first-seen order: since the key
      is a function of the name, a pair repeats exactly when its name does. */
  lemma {:induction false} CollapsedOrigs(ds: seq<string>)
    ensures Origs(CollapsedPairs(ds)) == Distinct(ds)
  {
    if |ds| > 0 {
      var n := |ds| - 1;
      var init := ds[..n];
      CollapsedOrigs(init);
      assert Pairs(ds)[..n] == Pairs(init);
      var p := (ds[n], Key2(ds[n]));
      assert Pairs(ds)[n] == p;
      PairIn(init, ds[n]);
      CollapsedStep(Pairs(ds), ds, n, p);
    }
  }

  lemma CollapsedStep(ps: seq<(string, string)>, ds: seq<string>, n: int, p: (string, string))
    requires 0 <= n && |ps| == |ds| == n + 1 && ps[n] == p && p.0 == ds[n]
    requires Origs(Distinct(ps[..n])) == Distinct(ds[..n])
    requires p in ps[..n] <==> ds[n] in ds[..n]
    ensures Origs(Distinct(ps)) == Distinct(ds)
  {
    var c := Distinct(ps[..n]);
    var e := Distinct(ds[..n]);
    DistinctLast(ps);
    DistinctLast(ds);
    assert p in c <==> ds[n] in e;
    if p !in c {
      OrigsSnoc(c, p);
    }
  }

  /** Unfolds `Distinct` once at the last element. */
  lemma DistinctLast<T(!new)>(s: seq<T>)
    requires |s| > 0
    ensures Distinct(s) == var d := Distinct(s[..|s| - 1]);
      if s[|s| - 1] in d then d else d + [s[|s| - 1]]
  {
  }

  lemma OrigsSnoc(c: seq<(string, string)>, p: (string, string))
    ensures Origs(c + [p]) == Origs(c) + [p.0]
  {
  }

  /** `collapsed["key2"].nunique()` never exceeds `collapsed["orig"].nunique()`, which
      is the number of distinct names. */
  lemma UniqueKeysAtMostNames(ds: seq<string>)
    ensures |Distinct(Keys(CollapsedPairs(ds)))| <= |Distinct(Origs(CollapsedPairs(ds)))| == |Distinct(ds)|
  {
    CollapsedOrigs(ds);
    DistinctOfDistinct(Distinct(ds));
  }

  lemma {:induction false} DistinctOfDistinct(s: seq<string>)
    requires forall i, j :: 0 <= i < j < |s| ==> s[i] != s[j]
    ensures Distinct(s) == s
  {
    if |s| > 0 {
      var n := |s| - 1;
      DistinctOfDistinct(s[..n]);
      assert s[n] !in s[..n];
      assert s == s[..n] + [s[n]];
    }
  }

  /** One entry per pair under its key. */
  function VariantEntries(ps: seq<(string, string)>): (e: seq<Bucket<string>>)
    ensures |e| == |ps|
  {
    if |ps| == 0 then [] else VariantEntries(ps[..|ps| - 1]) + [Bucket(ps[|ps| - 1].1, 1.0)]
  }

  /** The names of the pairs with key k, in order. */
  function VariantsOf(ps: seq<(string, string)>, k: string): (vs: seq<string>)
    ensures forall v :: v in vs ==> (v, k) in ps
  {
    if |ps| == 0 then []
    else
      var n := |ps| - 1;
      var rest := VariantsOf(ps[..n], k);
      assert forall v :: (v, k) in ps[..n] ==> (v, k) in ps;
      if ps[n].1 == k then rest + [ps[n].0] else rest
  }

  /** A key's entries count its variants. */
  lemma {:induction false} EntriesCountVariants(ps: seq<(string, string)>, k: string)
    ensures SumFor(VariantEntries(ps), k) == |VariantsOf(ps, k)| as real
  {
    if |ps| > 0 {
      var n := |ps| - 1;
      EntriesCountVariants(ps[..n], k);
      var e := VariantEntries(ps);
      assert e[..|e| - 1] == VariantEntries(ps[..n]);
    }
  }

  /** The pairs of one key in a list of pairs with distinct names have distinct names. */
  lemma {:induction false} VariantsDistinct(ps: seq<(string, string)>, k: string)
    requires forall i, j :: 0 <= i < j < |ps| ==> ps[i].0 != ps[j].0
    ensures forall i, j :: 0 <= i < j < |VariantsOf(ps, k)| ==> VariantsOf(ps, k)[i] != VariantsOf(ps, k)[j]
  {
    if |ps| > 0 {
      var n := |ps| - 1;
      VariantsDistinct(ps[..n], k);
      var rest := VariantsOf(ps[..n], k);
      if ps[n].1 == k {
        forall i | 0 <= i < |rest| ensures rest[i] != ps[n].0 {
          assert (rest[i], k) in ps[..n];
        }
      }
    }
  }

  /** `multi`: the number of distinct names per key, largest first. */
  function Multi(ps: seq<(string, string)>): seq<Bucket<string>> {
    SortBy(GroupSum(VariantEntries(ps)), true)
  }

  predicate Several(b: Bucket<string>) {
    b.value > 1.0
  }

  /** `multi[multi > 1].head(25)`. */
  function Top(ps: seq<(string, string)>): seq<Bucket<string>> {
    Take(Filter(Multi(ps), Several), TopKeys)
  }

  datatype Example = Example(key: string, variants: seq<string>)

  datatype VariantReport = VariantReport(
    uniqueNames: nat,
    uniqueKeys: nat,
    keysWithVariants: nat,
    top: seq<Bucket<string>>,
    examples: seq<Example>)

  /** The first ten keys of the top, each with its first ten names. */
  function Examples(ps: seq<(string, string)>, top: seq<Bucket<string>>): (ex: seq<Example>)
    ensures |ex| == MinInt(ExampleKeys, |top|)
    ensures forall i :: 0 <= i < |ex| ==> ex[i].key == top[i].key
  {
    var ks := Take(KeysOf(top), ExampleKeys);
    seq(|ks|, i requires 0 <= i < |ks| => Example(ks[i], Take(VariantsOf(ps, ks[i]), ExampleVariants)))
  }

  /** What the script reports for a column of district names. */
  function Report(ds: seq<string>): VariantReport {
    var ps := CollapsedPairs(ds);
    VariantReport(|Distinct(Origs(ps))|, |Distinct(Keys(ps))|, |Filter(Multi(ps), Several)|, Top(ps), Examples(ps, Top(ps)))
  }

  /** Each key of `multi` carries the number of names paired with that key. */
  lemma MultiCounts(ps: seq<(string, string)>)
    ensures forall b :: b in Multi(ps) ==> b.value == |VariantsOf(ps, b.key)| as real
  {
    var e := VariantEntries(ps);
    var g := GroupSum(e);
    forall b | b in Multi(ps) ensures b.value == |VariantsOf(ps, b.key)| as real {
      assert b in multiset(g);
      GroupMember(e, b);
      EntriesCountVariants(ps, b.key);
    }
  }

  /** The counts of `multi` add up to the number of distinct names. */
  lemma MultiTotal(ds: seq<string>)
    ensures Total(Multi(CollapsedPairs(ds))) == |Distinct(ds)| as real
  {
    var ps := CollapsedPairs(ds);
    var e := VariantEntries(ps);
    TotalSortBy(GroupSum(e), true);
    GroupSumConserves(e);
    EntriesTotal(ps);
    CollapsedOrigs(ds);
  }

  lemma {:induction false} EntriesTotal(ps: seq<(string, string)>)
    ensures Total(VariantEntries(ps)) == |ps| as real
  {
    if |ps| > 0 {
      var n := |ps| - 1;
      EntriesTotal(ps[..n]);
      TotalAppend(VariantEntries(ps[..n]), [Bucket(ps[n].1, 1.0)]);
      TotalOfAtMostOne([Bucket(ps[n].1, 1.0)]);
    }
  }

  /** The top: at most 25 keys, no more than there are keys with several names, largest
      first, each carrying its number of names, which is two or more. */
  lemma TopFacts(ps: seq<(string, string)>)
    ensures |Top(ps)| <= TopKeys && |Top(ps)| <= |Filter(Multi(ps), Several)|
    ensures SortedBy(Top(ps), true)
    ensures forall b :: b in Top(ps) ==> b.value >= 2.0 && b.value == |VariantsOf(ps, b.key)| as real
  {
    TopSorted(ps);
    TopCounts(ps);
  }

  lemma TopSorted(ps: seq<(string, string)>)
    ensures SortedBy(Top(ps), true)
  {
    var f := Filter(Multi(ps), Several);
    FilterSorted(Multi(ps), Several);
    forall i, j | 0 <= i < j < |Top(ps)| ensures Before(Top(ps)[i], Top(ps)[j], true) {
      assert Top(ps)[i] == f[i] && Top(ps)[j] == f[j];
    }
  }

  lemma TopCounts(ps: seq<(string, string)>)
    ensures forall b :: b in Top(ps) ==> b.value >= 2.0 && b.value == |VariantsOf(ps, b.key)| as real
  {
    var multi := Multi(ps);
    MultiCounts(ps);
    forall b | b in Top(ps) ensures b.value >= 2.0 && b.value == |VariantsOf(ps, b.key)| as real {
      TopMember(multi, b);
      var n := |VariantsOf(ps, b.key)|;
      assert n as real > 1.0;
      assert n >= 2;
    }
  }

  lemma TopMember(multi: seq<Bucket<string>>, b: Bucket<string>)
    requires b in Take(Filter(multi, Several), TopKeys)
    ensures b in multi && b.value > 1.0
  {
    assert b in Filter(multi, Several);
  }

  /** The report's top keys, as `TopFacts` describes them for `collapsed`. */
  lemma ReportTop(ds: seq<string>)
    ensures |Report(ds).top| <= TopKeys && |Report(ds).top| <= Report(ds).keysWithVariants
    ensures SortedBy(Report(ds).top, true)
    ensures forall b :: b in Report(ds).top ==> b.value >= 2.0 && b.value == |VariantsOf(CollapsedPairs(ds), b.key)| as real
  {
    TopFacts(CollapsedPairs(ds));
  }

  /** The names listed for a key, when names are not repeated among the pairs: at most
      ten, distinct, each paired with that key. */
  lemma ExampleVariantsOf(ps: seq<(string, string)>, k: string)
    requires forall i, j :: 0 <= i < j < |ps| ==> ps[i].0 != ps[j].0
    ensures |Take(VariantsOf(ps, k), ExampleVariants)| <= ExampleVariants
    ensures forall v :: v in Take(VariantsOf(ps, k), ExampleVariants) ==> (v, k) in ps
    ensures forall i, j :: 0 <= i < j < |Take(VariantsOf(ps, k), ExampleVariants)| ==>
      Take(VariantsOf(ps, k), ExampleVariants)[i] != Take(VariantsOf(ps, k), ExampleVariants)[j]
  {
    var vs := VariantsOf(ps, k);
    VariantsDistinct(ps, k);
    assert forall v :: v in Take(vs, ExampleVariants) ==> v in vs;
  }

  /** A pair of `collapsed` is a name of the input with its key. */
  lemma CollapsedPair(ds: seq<string>, v: string, k: string)
    requires (v, k) in CollapsedPairs(ds)
    ensures v in ds && Key2(v) == k
  {
    assert (v, k) in Pairs(ds);
    CollapsedKeyed(ds);
    PairIn(ds, v);
  }

  /** The examples: at most ten, one per top key in order, each with at most ten
      distinct names, every one of them a name of the input whose key is the example's
      key. */
  lemma ReportExamples(ds: seq<string>)
    ensures |Report(ds).examples| <= ExampleKeys
    ensures forall i :: 0 <= i < |Report(ds).examples| ==> Report(ds).examples[i].key == Report(ds).top[i].key
    ensures forall x :: x in Report(ds).examples ==>
      |x.variants| <= ExampleVariants
      && (forall v :: v in x.variants ==> v in ds && Key2(v) == x.key)
      && (forall i, j :: 0 <= i < j < |x.variants| ==> x.variants[i] != x.variants[j])
  {
    var ps := CollapsedPairs(ds);
    var ex := Examples(ps, Top(ps));
    NamesOnce(ds);
    forall x | x in ex
      ensures |x.variants| <= ExampleVariants
      ensures forall v :: v in x.variants ==> v in ds && Key2(v) == x.key
      ensures forall i, j :: 0 <= i < j < |x.variants| ==> x.variants[i] != x.variants[j]
    {
      ExampleOf(ps, Top(ps), x);
      ExampleVariantsOf(ps, x.key);
      forall v | v in x.variants ensures v in ds && Key2(v) == x.key {
        CollapsedPair(ds, v, x.key);
      }
    }
  }

  lemma ExampleOf(ps: seq<(string, string)>, top: seq<Bucket<string>>, x: Example)
    requires x in Examples(ps, top)
    ensures x.variants == Take(VariantsOf(ps, x.key), ExampleVariants)
  {
    var ks := Take(KeysOf(top), ExampleKeys);
    var ex := Examples(ps, top);
    var i :| 0 <= i < |ex| && ex[i] == x;
    assert x == Example(ks[i], Take(VariantsOf(ps, ks[i]), ExampleVariants));
  }

  /** No name appears in two pairs of `collapsed`. */
  lemma NamesOnce(ds: seq<string>)
    ensures forall i, j :: 0 <= i < j < |CollapsedPairs(ds)| ==> CollapsedPairs(ds)[i].0 != CollapsedPairs(ds)[j].0
  {
    var ps := CollapsedPairs(ds);
    CollapsedOrigs(ds);
    var names := Origs(ps);
    forall i, j | 0 <= i < j < |ps| ensures ps[i].0 != ps[j].0 {
      assert names[i] == ps[i].0 && names[j] == ps[j].0;
    }
  }

  /** A filter of a list sorted largest first is still sorted. */
  lemma {:induction false} FilterSorted(s: seq<Bucket<string>>, f: Bucket<string> -> bool)
    requires SortedBy(s, true)
    ensures SortedBy(Filter(s, f), true)
  {
    if |s| > 0 {
      FilterSorted(s[1..], f);
      var rest := Filter(s[1..], f);
      forall j | 0 <= j < |rest| ensures Before(s[0], rest[j], true) {
        assert rest[j] in s[1..];
        var q :| 0 <= q < |s[1..]| && s[1..][q] == rest[j];
        assert s[q + 1] == rest[j];
      }
    }
  }
}
