/** Key/value buckets and the operations every chart builds on: group-by-sum into a
    map that remembers first-insertion order (a JavaScript Map, a Python dict, a
    pandas groupby with sort=False), stable sorting by value, and prefixes. */
module Aggregates {
  import opened Common

  /** One aggregate entry `{key, value}`. */
  datatype Bucket<K> = Bucket(key: K, value: real)

  function KeysOf<K>(m: seq<Bucket<K>>): (r: seq<K>)
    ensures |r| == |m|
  {
    seq(|m|, i requires 0 <= i < |m| => m[i].key)
  }

  predicate DistinctKeys<K(==,!new)>(m: seq<Bucket<K>>) {
    forall i, j :: 0 <= i < j < |m| ==> m[i].key != m[j].key
  }

  /** Sum of all values. */
  function Total<K>(m: seq<Bucket<K>>): real {
    if |m| == 0 then 0.0 else m[0].value + Total(m[1..])
  }

  lemma {:induction false} TotalAppend<K>(a: seq<Bucket<K>>, b: seq<Bucket<K>>)
    ensures Total(a + b) == Total(a) + Total(b)
  {
    if |a| > 0 {
      assert (a + b)[1..] == a[1..] + b;
      TotalAppend(a[1..], b);
    } else {
      assert a + b == b;
    }
  }

  lemma TotalOfAtMostOne<K>(e: seq<Bucket<K>>)
    requires |e| <= 1
    ensures Total(e) == if |e| == 1 then e[0].value else 0.0
  {
    if |e| == 1 {
      assert e[1..] == [];
    }
  }

  /** The total of a non-empty sequence is that of all but its last entry plus the last. */
  lemma TotalSnoc<K>(s: seq<Bucket<K>>)
    requires |s| > 0
    ensures Total(s) == Total(s[..|s| - 1]) + s[|s| - 1].value
  {
    var n := |s| - 1;
    assert s == s[..n] + [s[n]];
    TotalAppend(s[..n], [s[n]]);
    TotalOfAtMostOne([s[n]]);
  }

  /** Sum of the values entered under key k. */
  function SumFor<K(==,!new)>(e: seq<Bucket<K>>, k: K): real {
    if |e| == 0 then 0.0
    else SumFor(e[..|e| - 1], k) + (if e[|e| - 1].key == k then e[|e| - 1].value else 0.0)
  }

  lemma {:induction false} SumForAbsent<K(!new)>(e: seq<Bucket<K>>, k: K)
    requires k !in KeysOf(e)
    ensures SumFor(e, k) == 0.0
  {
    if |e| > 0 {
      assert KeysOf(e[..|e| - 1]) == KeysOf(e)[..|e| - 1];
      assert KeysOf(e)[|e| - 1] == e[|e| - 1].key;
      SumForAbsent(e[..|e| - 1], k);
    }
  }

  lemma {:induction false} SumForAppend<K(!new)>(a: seq<Bucket<K>>, b: seq<Bucket<K>>, k: K)
    ensures SumFor(a + b, k) == SumFor(a, k) + SumFor(b, k)
  {
    if |b| > 0 {
      var n := |b| - 1;
      assert (a + b)[..|a + b| - 1] == a + b[..n];
      SumForAppend(a, b[..n], k);
    } else {
      assert a + b == a;
    }
  }

  /** Over entries with positive values, a key's sum is never negative, and positive
      exactly when the key occurs. */
  lemma {:induction false} SumForPositive<K(!new)>(e: seq<Bucket<K>>, k: K)
    requires forall i :: 0 <= i < |e| ==> e[i].value > 0.0
    ensures SumFor(e, k) >= 0.0
    ensures SumFor(e, k) > 0.0 <==> k in KeysOf(e)
  {
    if |e| > 0 {
      var n := |e| - 1;
      assert KeysOf(e[..n]) == KeysOf(e)[..n];
      assert KeysOf(e) == KeysOf(e[..n]) + [e[n].key];
      SumForPositive(e[..n], k);
    }
  }

  /** `map.get(k) || 0`: the value of the first bucket with key k, 0 when there is none. */
  function Lookup<K(==,!new)>(m: seq<Bucket<K>>, k: K): real {
    if |m| == 0 then 0.0 else if m[0].key == k then m[0].value else Lookup(m[1..], k)
  }

  /** The elements of s in first-occurrence order, each once (`[...new Set(s)]`). */
  function Distinct<T(==,!new)>(s: seq<T>): (r: seq<T>)
    ensures forall x :: x in r <==> x in s
    ensures forall i, j :: 0 <= i < j < |r| ==> r[i] != r[j]
    ensures |r| <= |s|
  {
    if |s| == 0 then []
    else
      var d := Distinct(s[..|s| - 1]);
      assert forall x :: x in s <==> x in s[..|s| - 1] || x == s[|s| - 1] by {
        assert s == s[..|s| - 1] + [s[|s| - 1]];
      }
      if s[|s| - 1] in d then d else d + [s[|s| - 1]]
  }

  /** Adding one element to the insertion sequence adds it to the set when it is new. */
  lemma DistinctSnoc<T(!new)>(s: seq<T>, x: T)
    ensures Distinct(s + [x]) == if x in Distinct(s) then Distinct(s) else Distinct(s) + [x]
  {
    assert (s + [x])[..|s|] == s;
  }

  /** `map.set(k, (map.get(k) || 0) + v)`: adds v to the bucket of k, appending a new
      bucket at the end when k is not yet present. */
  function Add<K(==,!new)>(m: seq<Bucket<K>>, k: K, v: real): (r: seq<Bucket<K>>)
    ensures KeysOf(r) == if k in KeysOf(m) then KeysOf(m) else KeysOf(m) + [k]
    ensures forall x :: Lookup(r, x) == Lookup(m, x) + (if x == k then v else 0.0)
    ensures Total(r) == Total(m) + v
  {
    if |m| == 0 then [Bucket(k, v)]
    else if m[0].key == k then
      AddAtHead(m, k, v);
      [Bucket(k, m[0].value + v)] + m[1..]
    else
      var rest := Add(m[1..], k, v);
      AddPastHead(m, k, v, rest);
      [m[0]] + rest
  }

  lemma AddAtHead<K(!new)>(m: seq<Bucket<K>>, k: K, v: real)
    requires |m| > 0 && m[0].key == k
    ensures k in KeysOf(m)
    ensures var r := [Bucket(k, m[0].value + v)] + m[1..];
      && KeysOf(r) == KeysOf(m)
      && (forall x :: Lookup(r, x) == Lookup(m, x) + (if x == k then v else 0.0))
      && Total(r) == Total(m) + v
  {
    var r := [Bucket(k, m[0].value + v)] + m[1..];
    assert r[1..] == m[1..];
    assert KeysOf(m)[0] == k;
    assert KeysOf(r) == KeysOf(m);
    forall x ensures Lookup(r, x) == Lookup(m, x) + (if x == k then v else 0.0) {
    }
    assert Total(r) == Total(m) + v;
  }

  lemma AddPastHead<K(!new)>(m: seq<Bucket<K>>, k: K, v: real, rest: seq<Bucket<K>>)
    requires |m| > 0 && m[0].key != k
    requires KeysOf(rest) == if k in KeysOf(m[1..]) then KeysOf(m[1..]) else KeysOf(m[1..]) + [k]
    requires forall x :: Lookup(rest, x) == Lookup(m[1..], x) + (if x == k then v else 0.0)
    requires Total(rest) == Total(m[1..]) + v
    ensures var r := [m[0]] + rest;
      && KeysOf(r) == (if k in KeysOf(m) then KeysOf(m) else KeysOf(m) + [k])
      && (forall x :: Lookup(r, x) == Lookup(m, x) + (if x == k then v else 0.0))
      && Total(r) == Total(m) + v
  {
    var r := [m[0]] + rest;
    assert r[1..] == rest;
    assert KeysOf(m) == [m[0].key] + KeysOf(m[1..]);
    assert KeysOf(r) == [m[0].key] + KeysOf(rest);
  }

  /** Group-by-sum over entries in input order: one bucket per distinct key, in order of
      first appearance, holding the sum of that key's values. */
  function GroupSum<K(==,!new)>(e: seq<Bucket<K>>): (r: seq<Bucket<K>>)
    ensures KeysOf(r) == Distinct(KeysOf(e))
    ensures DistinctKeys(r)
    ensures forall x :: Lookup(r, x) == SumFor(e, x)
  {
    if |e| == 0 then []
    else
      var n := |e| - 1;
      var g := GroupSum(e[..n]);
      assert KeysOf(e[..n]) == KeysOf(e)[..n];
      var r := Add(g, e[n].key, e[n].value);
      assert forall i :: 0 <= i < |r| ==> r[i].key == KeysOf(r)[i];
      r
  }

  /** Group-by-sum conserves the grand total. */
  lemma {:induction false} GroupSumConserves<K(!new)>(e: seq<Bucket<K>>)
    ensures Total(GroupSum(e)) == Total(e)
  {
    if |e| > 0 {
      var n := |e| - 1;
      GroupSumConserves(e[..n]);
      assert e == e[..n] + [e[n]];
      TotalAppend(e[..n], [e[n]]);
    }
  }

  /** One more entry updates the grouped map as Add does. */
  lemma GroupSumStep<K(!new)>(e: seq<Bucket<K>>, x: Bucket<K>)
    ensures GroupSum(e + [x]) == Add(GroupSum(e), x.key, x.value)
  {
    assert (e + [x])[..|e|] == e;
  }

  /** The value stored under a key that is present is found by Lookup. */
  lemma {:induction false} LookupAt<K(!new)>(m: seq<Bucket<K>>, i: int)
    requires DistinctKeys(m) && 0 <= i < |m|
    ensures Lookup(m, m[i].key) == m[i].value
  {
    if i > 0 {
      LookupAt(m[1..], i - 1);
    }
  }

  lemma {:induction false} LookupAbsent<K(!new)>(m: seq<Bucket<K>>, k: K)
    requires k !in KeysOf(m)
    ensures Lookup(m, k) == 0.0
  {
    if |m| > 0 {
      assert KeysOf(m)[0] == m[0].key;
      assert KeysOf(m[1..]) == KeysOf(m)[1..];
      LookupAbsent(m[1..], k);
    }
  }

  /** Over positive values, a looked-up value is never negative. */
  lemma {:induction false} LookupNonNegative<K(!new)>(m: seq<Bucket<K>>, k: K)
    requires forall i :: 0 <= i < |m| ==> m[i].value > 0.0
    ensures Lookup(m, k) >= 0.0
  {
    if |m| > 0 && m[0].key != k {
      assert forall i :: 0 <= i < |m| - 1 ==> m[1..][i] == m[i + 1];
      LookupNonNegative(m[1..], k);
    }
  }

  /** In a map with distinct keys, the sum of the entries under a key is the value Lookup
      finds for it. */
  lemma SumForDistinct<K(!new)>(m: seq<Bucket<K>>, k: K)
    requires DistinctKeys(m)
    ensures SumFor(m, k) == Lookup(m, k)
  {
    if k in KeysOf(m) {
      var i :| 0 <= i < |m| && KeysOf(m)[i] == k;
      var a, b := m[..i], m[i + 1..];
      assert m == a + [m[i]] + b;
      assert k !in KeysOf(a) by {
        assert forall j :: 0 <= j < |a| ==> KeysOf(a)[j] == m[j].key;
      }
      assert k !in KeysOf(b) by {
        assert forall j :: 0 <= j < |b| ==> KeysOf(b)[j] == m[i + 1 + j].key;
      }
      SumForSplit(a, m[i], b, k);
      LookupAt(m, i);
    } else {
      SumForAbsent(m, k);
      LookupAbsent(m, k);
    }
  }

  /** The one entry under k, between entries under other keys, is the whole sum for k. */
  lemma SumForSplit<K(!new)>(a: seq<Bucket<K>>, x: Bucket<K>, b: seq<Bucket<K>>, k: K)
    requires x.key == k && k !in KeysOf(a) && k !in KeysOf(b)
    ensures SumFor(a + [x] + b, k) == x.value
  {
    SumForAppend(a + [x], b, k);
    SumForAppend(a, [x], k);
    SumForAbsent(a, k);
    SumForAbsent(b, k);
    assert [x][..0] == [];
  }

  lemma {:induction false} AddAbsent<K(!new)>(m: seq<Bucket<K>>, k: K, v: real)
    requires forall j :: 0 <= j < |m| ==> m[j].key != k
    ensures Add(m, k, v) == m + [Bucket(k, v)]
  {
    if |m| > 0 {
      AddAbsent(m[1..], k, v);
      assert m + [Bucket(k, v)] == [m[0]] + (m[1..] + [Bucket(k, v)]);
    }
  }

  lemma {:induction false} AddAtFirstMatch<K(!new)>(m: seq<Bucket<K>>, k: K, v: real, i: int)
    requires 0 <= i < |m| && m[i].key == k
    requires forall j :: 0 <= j < i ==> m[j].key != k
    ensures Add(m, k, v) == m[i := Bucket(k, m[i].value + v)]
  {
    var u := Bucket(k, m[i].value + v);
    if i == 0 {
      assert m[0 := u] == [u] + m[1..];
    } else {
      var tail := m[1..];
      AddAtFirstMatch(tail, k, v, i - 1);
      assert tail[i - 1] == m[i];
      assert Add(m, k, v) == [m[0]] + tail[i - 1 := u];
      assert m[i := u] == [m[0]] + tail[i - 1 := u];
    }
  }

  /** The in-place map update, done as a search for the key followed by an update or an
      append; it agrees with Add. */
  method Bump<K(==,!new)>(m: seq<Bucket<K>>, k: K, v: real) returns (r: seq<Bucket<K>>)
    ensures r == Add(m, k, v)
  {
    var i := 0;
    while i < |m| && m[i].key != k
      invariant 0 <= i <= |m|
      invariant forall j :: 0 <= j < i ==> m[j].key != k
    {
      i := i + 1;
    }
    if i == |m| {
      AddAbsent(m, k, v);
      r := m + [Bucket(k, v)];
    } else {
      AddAtFirstMatch(m, k, v, i);
      r := m[i := Bucket(k, m[i].value + v)];
    }
  }

  /** Adds an optional entry to a grouped map. */
  method BumpEntry<K(==,!new)>(m: seq<Bucket<K>>, ghost e: seq<Bucket<K>>, entry: seq<Bucket<K>>) returns (r: seq<Bucket<K>>)
    requires m == GroupSum(e) && |entry| <= 1
    ensures r == GroupSum(e + entry)
  {
    if |entry| == 1 {
      GroupSumStep(e, entry[0]);
      assert entry == [entry[0]];
      r := Bump(m, entry[0].key, entry[0].value);
    } else {
      assert e + entry == e;
      r := m;
    }
  }

  /** a may stand before b: descending order (comparator `b - a`) or ascending (`a - b`). */
  predicate Before<K>(a: Bucket<K>, b: Bucket<K>, desc: bool) {
    if desc then a.value >= b.value else a.value <= b.value
  }

  predicate SortedBy<K>(s: seq<Bucket<K>>, desc: bool) {
    forall i, j :: 0 <= i < j < |s| ==> Before(s[i], s[j], desc)
  }

  /** Inserts x before the first element it may precede; since x came earlier in the input
      than everything in s, ties keep input order (a stable sort). */
  function Insert<K(==,!new)>(x: Bucket<K>, s: seq<Bucket<K>>, desc: bool): (r: seq<Bucket<K>>)
    ensures |r| == |s| + 1
    ensures multiset(r) == multiset(s) + multiset{x}
  {
    if |s| == 0 then [x]
    else if Before(x, s[0], desc) then [x] + s
    else
      assert s == [s[0]] + s[1..];
      [s[0]] + Insert(x, s[1..], desc)
  }

  /** Insertion into a sorted list keeps it sorted. */
  lemma {:induction false} InsertSorted<K(!new)>(x: Bucket<K>, s: seq<Bucket<K>>, desc: bool)
    requires SortedBy(s, desc)
    ensures SortedBy(Insert(x, s, desc), desc)
  {
    if |s| > 0 && !Before(x, s[0], desc) {
      var rest := Insert(x, s[1..], desc);
      InsertSorted(x, s[1..], desc);
      assert Insert(x, s, desc) == [s[0]] + rest;
      forall j | 0 <= j < |rest| ensures Before(s[0], rest[j], desc) {
        assert rest[j] in multiset(rest);
        if rest[j] != x {
          assert rest[j] in multiset(s[1..]);
          var q :| 0 <= q < |s[1..]| && s[1..][q] == rest[j];
          assert s[q + 1] == rest[j];
        }
      }
    }
  }

  /** A stable sort by value (`Array.prototype.sort`, `sorted`): sorted, and a permutation
      of its input. */
  function SortBy<K(==,!new)>(s: seq<Bucket<K>>, desc: bool): (r: seq<Bucket<K>>)
    ensures |r| == |s|
    ensures multiset(r) == multiset(s)
    ensures SortedBy(r, desc)
  {
    if |s| == 0 then []
    else
      assert s == [s[0]] + s[1..];
      var t := SortBy(s[1..], desc);
      InsertSorted(s[0], t, desc);
      Insert(s[0], t, desc)
  }

  lemma {:induction false} TotalInsert<K(!new)>(x: Bucket<K>, s: seq<Bucket<K>>, desc: bool)
    ensures Total(Insert(x, s, desc)) == x.value + Total(s)
  {
    if |s| > 0 && !Before(x, s[0], desc) {
      TotalInsert(x, s[1..], desc);
      assert ([s[0]] + Insert(x, s[1..], desc))[1..] == Insert(x, s[1..], desc);
    }
  }

  /** Sorting does not change the total. */
  lemma {:induction false} TotalSortBy<K(!new)>(s: seq<Bucket<K>>, desc: bool)
    ensures Total(SortBy(s, desc)) == Total(s)
  {
    if |s| > 0 {
      TotalSortBy(s[1..], desc);
      TotalInsert(s[0], SortBy(s[1..], desc), desc);
    }
  }

  lemma {:induction false} SumForInsert<K(!new)>(x: Bucket<K>, s: seq<Bucket<K>>, desc: bool, k: K)
    ensures SumFor(Insert(x, s, desc), k) == SumFor([x], k) + SumFor(s, k)
  {
    if |s| == 0 {
      assert Insert(x, s, desc) == [x] + s;
      SumForAppend([x], s, k);
    } else if Before(x, s[0], desc) {
      SumForAppend([x], s, k);
    } else {
      var rest := Insert(x, s[1..], desc);
      SumForInsert(x, s[1..], desc, k);
      SumForAppend([s[0]], rest, k);
      assert s == [s[0]] + s[1..];
      SumForAppend([s[0]], s[1..], k);
    }
  }

  /** Sorting does not change any key's sum. */
  lemma {:induction false} SumForSortBy<K(!new)>(s: seq<Bucket<K>>, desc: bool, k: K)
    ensures SumFor(SortBy(s, desc), k) == SumFor(s, k)
  {
    if |s| > 0 {
      SumForSortBy(s[1..], desc, k);
      SumForInsert(s[0], SortBy(s[1..], desc), desc, k);
      assert s == [s[0]] + s[1..];
      SumForAppend([s[0]], s[1..], k);
    }
  }

  /** `slice(0, k)`: the first k elements, or all of them. */
  function Take<T>(s: seq<T>, k: nat): (r: seq<T>)
    ensures |r| == MinInt(k, |s|)
  {
    if k >= |s| then s else s[..k]
  }

  /** `slice(k)`: everything after the first k elements. */
  function Drop<T>(s: seq<T>, k: nat): (r: seq<T>)
    ensures |r| == |s| - MinInt(k, |s|)
    ensures Take(s, k) + r == s
  {
    if k >= |s| then [] else s[k..]
  }

  /** `slice(-k)` for k > 0: the last k elements, or all of them. */
  function TakeLast<T>(s: seq<T>, k: nat): (r: seq<T>)
    ensures |r| == MinInt(k, |s|)
  {
    if k >= |s| then s else s[|s| - k..]
  }

  /** The k largest (desc) or smallest buckets in sorted order: sorted, drawn from s, and
      no bucket left out beats a bucket kept. */
  function TopK<K(==,!new)>(s: seq<Bucket<K>>, k: nat, desc: bool): (r: seq<Bucket<K>>)
    ensures |r| == MinInt(k, |s|)
    ensures SortedBy(r, desc)
    ensures multiset(r) <= multiset(s)
    ensures forall x, y :: x in r && y in multiset(s) - multiset(r) ==> Before(x, y, desc)
  {
    var t := SortBy(s, desc);
    var r := Take(t, k);
    assert t == r + t[|r|..];
    assert multiset(t) == multiset(r) + multiset(t[|r|..]);
    assert forall y :: y in multiset(s) - multiset(r) ==> y in t[|r|..] by {
      forall y | y in multiset(s) - multiset(r) ensures y in t[|r|..] {
        assert y in multiset(t[|r|..]);
      }
    }
    r
  }

  /** `s.filter(f)` / a boolean mask: the elements satisfying f, in input order. */
  function Filter<T(==,!new)>(s: seq<T>, f: T -> bool): (r: seq<T>)
    ensures |r| <= |s|
    ensures forall x :: x in r <==> x in s && f(x)
    ensures forall i :: 0 <= i < |r| ==> f(r[i])
  {
    if |s| == 0 then []
    else (if f(s[0]) then [s[0]] else []) + Filter(s[1..], f)
  }

  /** Filtering a concatenation filters each part. */
  lemma {:induction false} FilterAppend<T(!new)>(a: seq<T>, b: seq<T>, f: T -> bool)
    ensures Filter(a + b, f) == Filter(a, f) + Filter(b, f)
  {
    if |a| > 0 {
      assert (a + b)[1..] == a[1..] + b;
      FilterAppend(a[1..], b, f);
    } else {
      assert a + b == b;
    }
  }

  /** Filtering twice with the same test changes nothing more. */
  lemma {:induction false} FilterIdempotent<T(!new)>(s: seq<T>, f: T -> bool)
    ensures Filter(Filter(s, f), f) == Filter(s, f)
  {
    if |s| > 0 {
      FilterIdempotent(s[1..], f);
      FilterAppend(if f(s[0]) then [s[0]] else [], Filter(s[1..], f), f);
    }
  }

  /** Filtering by one test and then another is filtering by both. */
  lemma {:induction false} FilterFilter<T(!new)>(s: seq<T>, f: T -> bool, g: T -> bool, h: T -> bool)
    requires forall x :: h(x) == (f(x) && g(x))
    ensures Filter(Filter(s, f), g) == Filter(s, h)
  {
    if |s| > 0 {
      FilterFilter(s[1..], f, g, h);
      FilterAppend(if f(s[0]) then [s[0]] else [], Filter(s[1..], f), g);
    }
  }

  /** A filter that keeps everything is the identity. */
  lemma {:induction false} FilterAll<T(!new)>(s: seq<T>, f: T -> bool)
    requires forall x :: f(x)
    ensures Filter(s, f) == s
  {
    if |s| > 0 {
      FilterAll(s[1..], f);
    }
  }

  /** Filtering a list without repeats leaves none. */
  lemma {:induction false} FilterNoRepeats<T(!new)>(s: seq<T>, f: T -> bool)
    requires forall i, j :: 0 <= i < j < |s| ==> s[i] != s[j]
    ensures forall i, j :: 0 <= i < j < |Filter(s, f)| ==> Filter(s, f)[i] != Filter(s, f)[j]
  {
    if |s| > 0 {
      FilterNoRepeats(s[1..], f);
      var rest := Filter(s[1..], f);
      assert s[0] !in s[1..];
      assert s[0] !in rest;
      var r := Filter(s, f);
      if f(s[0]) {
        assert r == [s[0]] + rest;
        forall i, j | 0 <= i < j < |r| ensures r[i] != r[j] {
          assert r[j] == rest[j - 1] && rest[j - 1] in rest;
          if i > 0 {
            assert r[i] == rest[i - 1];
          }
        }
      }
    }
  }

  /** A filter that every element passes is the identity on that list. */
  lemma {:induction false} FilterKeepsAll<T(!new)>(s: seq<T>, f: T -> bool)
    requires forall x :: x in s ==> f(x)
    ensures Filter(s, f) == s
  {
    if |s| > 0 {
      assert s[0] in s;
      FilterKeepsAll(s[1..], f);
    }
  }

  /** A filter that keeps nothing gives the empty list. */
  lemma {:induction false} FilterNone<T(!new)>(s: seq<T>, f: T -> bool)
    requires forall x :: x in s ==> !f(x)
    ensures Filter(s, f) == []
  {
    if |s| > 0 {
      assert s[0] in s;
      FilterNone(s[1..], f);
    }
  }

  /** Filters by tests that agree everywhere give the same result. */
  lemma {:induction false} FilterExt<T(!new)>(s: seq<T>, f: T -> bool, g: T -> bool)
    requires forall x :: f(x) == g(x)
    ensures Filter(s, f) == Filter(s, g)
  {
    if |s| > 0 {
      FilterExt(s[1..], f, g);
    }
  }

  /** The elements of s at the positions where mask is true, in order
      (pandas boolean indexing `df[mask]`). */
  function Select<T>(s: seq<T>, mask: seq<bool>): (r: seq<T>)
    requires |mask| == |s|
    ensures |r| <= |s|
  {
    if |s| == 0 then [] else (if mask[0] then [s[0]] else []) + Select(s[1..], mask[1..])
  }

  /** Selecting by a mask computed from a test is filtering by that test. */
  lemma {:induction false} SelectIsFilter<T(!new)>(s: seq<T>, mask: seq<bool>, f: T -> bool)
    requires |mask| == |s|
    requires forall i :: 0 <= i < |s| ==> mask[i] == f(s[i])
    ensures Select(s, mask) == Filter(s, f)
  {
    if |s| > 0 {
      SelectIsFilter(s[1..], mask[1..], f);
    }
  }
  /** The entries a pass over rows hands to a map, in row order: `entry` gives a row's
      entry, or none for a row the pass skips. */
  function Entries<T, K>(rows: seq<T>, entry: T -> seq<Bucket<K>>): seq<Bucket<K>> {
    if |rows| == 0 then [] else Entries(rows[..|rows| - 1], entry) + entry(rows[|rows| - 1])
  }

  lemma EntriesStep<T, K>(rows: seq<T>, entry: T -> seq<Bucket<K>>, k: nat)
    requires k < |rows|
    ensures Entries(rows[..k + 1], entry) == Entries(rows[..k], entry) + entry(rows[k])
  {
    assert rows[..k + 1][..k] == rows[..k];
  }

  /** Rows that each give non-negative entries give non-negative entries together. */
  lemma {:induction false} EntriesNonNegative<T, K>(rows: seq<T>, entry: T -> seq<Bucket<K>>)
    requires forall t :: t in rows ==> NonNegative(entry(t))
    ensures NonNegative(Entries(rows, entry))
  {
    if |rows| > 0 {
      var n := |rows| - 1;
      assert rows[n] in rows;
      assert forall t :: t in rows[..n] ==> t in rows;
      EntriesNonNegative(rows[..n], entry);
    }
  }

  /** The accumulator loop `for (const r of rows) { ...; map.set(k, (map.get(k) || 0) + v) }`
      over rows that give at most one entry each: it leaves the group-by-sum of the
      entries. */
  method GroupRows<T, K(==,!new)>(rows: seq<T>, entry: T -> seq<Bucket<K>>) returns (m: seq<Bucket<K>>)
    requires forall t :: |entry(t)| <= 1
    ensures m == GroupSum(Entries(rows, entry))
  {
    m := [];
    for k := 0 to |rows|
      invariant m == GroupSum(Entries(rows[..k], entry))
    {
      EntriesStep(rows, entry, k);
      m := BumpEntry(m, Entries(rows[..k], entry), entry(rows[k]));
    }
    assert rows[..|rows|] == rows;
  }

  predicate NonNegative<K(==)>(m: seq<Bucket<K>>) {
    forall b :: b in m ==> b.value >= 0.0
  }

  lemma {:induction false} TotalNonNegative<K>(m: seq<Bucket<K>>)
    requires NonNegative(m)
    ensures Total(m) >= 0.0
  {
    if |m| > 0 {
      assert m[0] in m;
      assert forall b :: b in m[1..] ==> b in m;
      TotalNonNegative(m[1..]);
    }
  }

  lemma {:induction false} SumForNonNegative<K(!new)>(e: seq<Bucket<K>>, k: K)
    requires NonNegative(e)
    ensures SumFor(e, k) >= 0.0
  {
    if |e| > 0 {
      var n := |e| - 1;
      assert e[n] in e;
      assert forall b :: b in e[..n] ==> b in e;
      SumForNonNegative(e[..n], k);
    }
  }

  /** Over non-negative entries every group sum is non-negative. */
  lemma GroupSumNonNegative<K(!new)>(e: seq<Bucket<K>>)
    requires NonNegative(e)
    ensures NonNegative(GroupSum(e))
  {
    var g := GroupSum(e);
    forall b | b in g ensures b.value >= 0.0 {
      var i :| 0 <= i < |g| && g[i] == b;
      LookupAt(g, i);
      SumForNonNegative(e, b.key);
    }
  }

  /** Drawing buckets from a map with distinct keys, no key is drawn twice. */
  lemma SubMultisetDistinctKeys<K(!new)>(r: seq<Bucket<K>>, g: seq<Bucket<K>>)
    requires DistinctKeys(g) && multiset(r) <= multiset(g)
    ensures DistinctKeys(r)
  {
    DrawnDistinct(r, g, (b: Bucket<K>) => b.key);
  }

  /** A bucket of a group-by-sum holds the sum of its key's entries. */
  lemma GroupMember<K(!new)>(e: seq<Bucket<K>>, b: Bucket<K>)
    requires b in GroupSum(e)
    ensures b.key in KeysOf(e) && b.value == SumFor(e, b.key)
  {
    var g := GroupSum(e);
    var i :| 0 <= i < |g| && g[i] == b;
    LookupAt(g, i);
    assert KeysOf(g)[i] == b.key;
  }

  /** The top k of a group-by-sum: no key kept twice, and each kept bucket holds the sum
      of its key's entries. */
  lemma TopKOfGroup<K(!new)>(e: seq<Bucket<K>>, k: nat, desc: bool)
    ensures DistinctKeys(TopK(GroupSum(e), k, desc))
    ensures forall b :: b in TopK(GroupSum(e), k, desc) ==> b.key in KeysOf(e) && b.value == SumFor(e, b.key)
  {
    var g := GroupSum(e);
    var r := TopK(g, k, desc);
    SubMultisetDistinctKeys(r, g);
    forall b | b in r ensures b.key in KeysOf(e) && b.value == SumFor(e, b.key) {
      assert b in multiset(r);
      GroupMember(e, b);
    }
  }

  /** Over non-negative values the kept buckets of a top k never sum to more than all of
      them. */
  lemma TopKTotalBound<K(!new)>(s: seq<Bucket<K>>, k: nat, desc: bool)
    requires NonNegative(s)
    ensures Total(TopK(s, k, desc)) <= Total(s)
  {
    var t := SortBy(s, desc);
    TotalSortBy(s, desc);
    TotalAppend(Take(t, k), Drop(t, k));
    assert forall b :: b in Drop(t, k) ==> b in t by {
      assert t == Take(t, k) + Drop(t, k);
    }
    assert forall b :: b in t ==> b in multiset(s);
    TotalNonNegative(Drop(t, k));
  }

  /** A key that no row contributes is not among the entries. */
  lemma {:induction false} EntriesAvoid<T, K>(rows: seq<T>, entry: T -> seq<Bucket<K>>, x: K)
    requires forall t, b :: b in entry(t) ==> b.key != x
    ensures forall b :: b in Entries(rows, entry) ==> b.key != x
  {
    if |rows| > 0 {
      EntriesAvoid(rows[..|rows| - 1], entry, x);
    }
  }

  /** Every entry comes from some row. */
  lemma {:induction false} EntriesFrom<T, K>(rows: seq<T>, entry: T -> seq<Bucket<K>>, b: Bucket<K>)
    ensures b in Entries(rows, entry) ==> exists t :: t in rows && b in entry(t)
  {
    if |rows| > 0 {
      var n := |rows| - 1;
      EntriesFrom(rows[..n], entry, b);
      if b in Entries(rows[..n], entry) {
        var t :| t in rows[..n] && b in entry(t);
        assert t in rows;
      } else if b in Entries(rows, entry) {
        assert rows[n] in rows;
      }
    }
  }

  /** Filtering draws elements from the list, never more often than they occur. */
  lemma {:induction false} FilterSubMultiset<T(!new)>(s: seq<T>, f: T -> bool)
    ensures multiset(Filter(s, f)) <= multiset(s)
  {
    if |s| > 0 {
      FilterSubMultiset(s[1..], f);
      assert s == [s[0]] + s[1..];
    }
  }

  /** Sorting the buckets of a group-by-sum that pass a test keeps exactly those
      buckets, each key once. */
  lemma SortedFilterOfGroup<K(!new)>(e: seq<Bucket<K>>, f: Bucket<K> -> bool, desc: bool)
    ensures forall b :: b in SortBy(Filter(GroupSum(e), f), desc) <==> b in GroupSum(e) && f(b)
    ensures DistinctKeys(SortBy(Filter(GroupSum(e), f), desc))
  {
    var g := GroupSum(e);
    var h := Filter(g, f);
    var p := SortBy(h, desc);
    assert forall b :: b in p <==> b in multiset(h);
    FilterSubMultiset(g, f);
    SubMultisetDistinctKeys(h, g);
    SubMultisetDistinctKeys(p, h);
  }

  /** The keys of the top k buckets of a group-by-sum: at most k of them, each once, in
      order of their sums, and no key left out beats a key kept. */
  lemma TopKeysOfGroup<K(!new)>(e: seq<Bucket<K>>, k: nat, desc: bool)
    ensures |KeysOf(TopK(GroupSum(e), k, desc))| <= k
    ensures forall i, j :: 0 <= i < j < |KeysOf(TopK(GroupSum(e), k, desc))| ==>
      KeysOf(TopK(GroupSum(e), k, desc))[i] != KeysOf(TopK(GroupSum(e), k, desc))[j]
    ensures forall i, j :: 0 <= i < j < |KeysOf(TopK(GroupSum(e), k, desc))| ==>
      Before(Bucket(KeysOf(TopK(GroupSum(e), k, desc))[i], SumFor(e, KeysOf(TopK(GroupSum(e), k, desc))[i])),
        Bucket(KeysOf(TopK(GroupSum(e), k, desc))[j], SumFor(e, KeysOf(TopK(GroupSum(e), k, desc))[j])), desc)
    ensures forall x, y :: x in KeysOf(e) && x !in KeysOf(TopK(GroupSum(e), k, desc)) && y in KeysOf(TopK(GroupSum(e), k, desc)) ==>
      Before(Bucket(y, SumFor(e, y)), Bucket(x, SumFor(e, x)), desc)
  {
    var g := GroupSum(e);
    var r := TopK(g, k, desc);
    TopKOfGroup(e, k, desc);
    KeptKeys(r, e, desc);
    forall x | x in KeysOf(e) ensures x in KeysOf(g) {
    }
    LeftOutKeys(g, r, e, desc);
  }

  lemma KeptKeys<K(!new)>(r: seq<Bucket<K>>, e: seq<Bucket<K>>, desc: bool)
    requires DistinctKeys(r) && SortedBy(r, desc)
    requires forall b :: b in r ==> b.value == SumFor(e, b.key)
    ensures forall i, j :: 0 <= i < j < |KeysOf(r)| ==> KeysOf(r)[i] != KeysOf(r)[j]
    ensures forall i, j :: 0 <= i < j < |KeysOf(r)| ==>
      Before(Bucket(KeysOf(r)[i], SumFor(e, KeysOf(r)[i])), Bucket(KeysOf(r)[j], SumFor(e, KeysOf(r)[j])), desc)
  {
    forall i | 0 <= i < |r| ensures r[i] == Bucket(KeysOf(r)[i], SumFor(e, KeysOf(r)[i])) {
      assert r[i] in r;
    }
  }

  lemma LeftOutKeys<K(!new)>(g: seq<Bucket<K>>, r: seq<Bucket<K>>, e: seq<Bucket<K>>, desc: bool)
    requires DistinctKeys(g)
    requires forall x :: Lookup(g, x) == SumFor(e, x)
    requires forall x :: x in KeysOf(e) ==> x in KeysOf(g)
    requires forall b :: b in r ==> b.value == SumFor(e, b.key)
    requires forall x, y :: x in r && y in multiset(g) - multiset(r) ==> Before(x, y, desc)
    ensures forall x, y :: x in KeysOf(e) && x !in KeysOf(r) && y in KeysOf(r) ==>
      Before(Bucket(y, SumFor(e, y)), Bucket(x, SumFor(e, x)), desc)
  {
    forall x, y | x in KeysOf(e) && x !in KeysOf(r) && y in KeysOf(r)
      ensures Before(Bucket(y, SumFor(e, y)), Bucket(x, SumFor(e, x)), desc)
    {
      var p :| 0 <= p < |g| && KeysOf(g)[p] == x;
      LookupAt(g, p);
      var q :| 0 <= q < |r| && KeysOf(r)[q] == y;
      MemberKey(r, g[p]);
      assert g[p] in multiset(g) - multiset(r);
      assert r[q] in r;
    }
  }

  lemma MemberKey<K>(r: seq<Bucket<K>>, b: Bucket<K>)
    ensures b in r ==> b.key in KeysOf(r)
  {
    if b in r {
      var t :| 0 <= t < |r| && r[t] == b;
      assert KeysOf(r)[t] == b.key;
    }
  }
}
