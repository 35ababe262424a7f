/** Text primitives shared by the geography normalisers and the search filters:
    character classes, ASCII case mapping, trimming, whitespace collapsing,
    splitting, joining and case-insensitive whole-word matching. */
module Text {
  import opened Common

  /** Whitespace as `\s`, `strip()` and `trim()` see it: the ASCII blanks and NBSP. */
  predicate IsSpace(c: char) {
    c == ' ' || c == '\t' || c == '\n' || c == '\r' || c == '\U{0B}' || c == '\U{0C}' || c == '\U{A0}'
  }

  predicate IsDigit(c: char) { '0' <= c <= '9' }

  predicate IsLowerChar(c: char) { 'a' <= c <= 'z' }

  predicate IsUpperChar(c: char) { 'A' <= c <= 'Z' }

  predicate IsAlphaChar(c: char) { IsLowerChar(c) || IsUpperChar(c) }

  /** A character that `\w` matches: letter, digit or underscore. */
  predicate IsWordChar(c: char) { IsAlphaChar(c) || IsDigit(c) || c == '_' }

  function ToLowerChar(c: char): char {
    if IsUpperChar(c) then (c as int + 32) as char else c
  }

  function ToUpperChar(c: char): char {
    if IsLowerChar(c) then (c as int - 32) as char else c
  }

  function Lower(s: string): (r: string)
    ensures |r| == |s|
  {
    seq(|s|, i requires 0 <= i < |s| => ToLowerChar(s[i]))
  }

  function Upper(s: string): (r: string)
    ensures |r| == |s|
  {
    seq(|s|, i requires 0 <= i < |s| => ToUpperChar(s[i]))
  }

  /** Two strings equal up to letter case have the same non-letter characters. */
  lemma SameUpToCase(a: string, b: string, i: int)
    requires Lower(a) == Lower(b) && 0 <= i < |a|
    ensures IsSpace(a[i]) <==> IsSpace(b[i])
    ensures IsAlphaChar(a[i]) || a[i] == b[i]
  {
    assert Lower(a)[i] == ToLowerChar(a[i]) && Lower(b)[i] == ToLowerChar(b[i]);
  }

  lemma LowerOfLowerCased(s: string)
    requires IsLowerCased(s)
    ensures Lower(s) == s
  {
  }

  predicate IsLowerCased(s: string) {
    forall i :: 0 <= i < |s| ==> !IsUpperChar(s[i])
  }

  lemma LowerIsLowerCased(s: string)
    ensures IsLowerCased(Lower(s))
  {
  }

  /** Python `str.isdigit()` / the regex `^\d+$`: non-empty and all digits. */
  predicate IsDigits(s: string) {
    |s| > 0 && forall i :: 0 <= i < |s| ==> IsDigit(s[i])
  }

  /** Python `str.isalpha()`: non-empty and all letters. */
  predicate IsAlphaString(s: string) {
    |s| > 0 && forall i :: 0 <= i < |s| ==> IsAlphaChar(s[i])
  }

  predicate StartsWith(s: string, p: string) {
    |p| <= |s| && s[..|p|] == p
  }

  predicate EndsWith(s: string, p: string) {
    |p| <= |s| && s[|s| - |p|..] == p
  }

  /** Drops the leading whitespace. */
  function TrimLeft(s: string): (r: string)
    ensures |r| <= |s| && r == s[|s| - |r|..]
    ensures |r| == 0 || !IsSpace(r[0])
    ensures forall i :: 0 <= i < |s| - |r| ==> IsSpace(s[i])
  {
    if |s| > 0 && IsSpace(s[0]) then TrimLeft(s[1..]) else s
  }

  /** Drops the trailing whitespace. */
  function TrimRight(s: string): (r: string)
    ensures |r| <= |s| && r == s[..|r|]
    ensures |r| == 0 || !IsSpace(r[|r| - 1])
    ensures forall i :: |r| <= i < |s| ==> IsSpace(s[i])
  {
    if |s| > 0 && IsSpace(s[|s| - 1]) then TrimRight(s[..|s| - 1]) else s
  }

  predicate IsTrimmed(s: string) {
    |s| == 0 || (!IsSpace(s[0]) && !IsSpace(s[|s| - 1]))
  }

  /** Python `strip()` / JavaScript `trim()`. */
  function Trim(s: string): (r: string)
    ensures IsTrimmed(r)
    ensures |r| <= |s|
    ensures forall i :: 0 <= i < |r| ==> r[i] in s
  {
    var l := TrimLeft(s);
    var r := TrimRight(l);
    assert |r| > 0 ==> r[0] == l[0];
    r
  }

  lemma TrimOfTrimmed(s: string)
    requires IsTrimmed(s)
    ensures Trim(s) == s
  {
  }

  lemma TrimEmptyIffBlank(s: string)
    ensures Trim(s) == [] <==> forall i :: 0 <= i < |s| ==> IsSpace(s[i])
  {
  }

  /** A string whose only whitespace is single plain spaces. */
  predicate Collapsed(s: string) {
    (forall i :: 0 <= i < |s| && IsSpace(s[i]) ==> s[i] == ' ')
    && (forall i, j :: 0 <= i < |s| && 0 <= j < |s| && j == i + 1 ==> !(s[i] == ' ' && s[j] == ' '))
  }

  /** The rewrite `re.sub(r"\s+", " ", s)` / `s.replace(/\s+/g, " ")`: every maximal
      run of whitespace becomes one space. */
  function CollapseWs(s: string): (r: string)
    ensures Collapsed(r)
    ensures |r| <= |s|
    ensures |r| == 0 <==> |s| == 0
    ensures |s| > 0 ==> (IsSpace(r[0]) <==> IsSpace(s[0]))
    ensures |s| > 0 ==> (IsSpace(r[|r| - 1]) <==> IsSpace(s[|s| - 1]))
    ensures forall i :: 0 <= i < |r| ==> r[i] in s || r[i] == ' '
    decreases |s|
  {
    if |s| == 0 then []
    else if IsSpace(s[0]) then
      var t := TrimLeft(s);
      var rest := CollapseWs(t);
      assert |t| > 0 ==> !IsSpace(rest[0]);
      ConsCollapsed(' ', rest);
      ConsFrom(' ', rest, s, |s| - |t|);
      [' '] + rest
    else
      var rest := CollapseWs(s[1..]);
      ConsCollapsed(s[0], rest);
      ConsFrom(s[0], rest, s, 1);
      [s[0]] + rest
  }

  /** The characters of c followed by rest are characters of s or spaces, when c is one
      and rest is drawn from a suffix of s. */
  lemma ConsFrom(c: char, rest: string, s: string, k: nat)
    requires k <= |s| && (c in s || c == ' ')
    requires forall i :: 0 <= i < |rest| ==> rest[i] in s[k..] || rest[i] == ' '
    ensures forall i :: 0 <= i < |rest| + 1 ==> ([c] + rest)[i] in s || ([c] + rest)[i] == ' '
  {
    forall i | 0 < i < |rest| + 1 ensures ([c] + rest)[i] in s || ([c] + rest)[i] == ' ' {
      assert ([c] + rest)[i] == rest[i - 1];
      if rest[i - 1] in s[k..] {
        var j :| k <= j < |s| && s[j] == rest[i - 1];
      }
    }
  }

  /** One character put before a collapsed string keeps it collapsed when it is not
      whitespace, or is a space before a string that does not start with whitespace. */
  lemma ConsCollapsed(c: char, rest: string)
    requires Collapsed(rest)
    requires !IsSpace(c) || (c == ' ' && (|rest| == 0 || !IsSpace(rest[0])))
    ensures Collapsed([c] + rest)
  {
    var r := [c] + rest;
    forall i, j | 0 <= i < |r| && 0 <= j < |r| && j == i + 1 ensures !(r[i] == ' ' && r[j] == ' ') {
      if i > 0 {
        assert r[i] == rest[i - 1] && r[j] == rest[j - 1];
      }
    }
  }

  lemma CollapsedTrimmedSpaces(s: string)
    requires IsTrimmed(s)
    ensures IsTrimmed(CollapseWs(s))
  {
  }

  /** Collapsing is idempotent: a collapsed string is left as it is. */
  lemma {:induction false} CollapseOfCollapsed(s: string)
    requires Collapsed(s)
    ensures CollapseWs(s) == s
    decreases |s|
  {
    if |s| > 0 {
      assert Collapsed(s[1..]) by { SliceCollapsed(s, 1, |s|); }
      CollapseOfCollapsed(s[1..]);
      if IsSpace(s[0]) {
        assert TrimLeft(s) == s[1..] by {
          assert |s| == 1 || !IsSpace(s[1]);
          assert TrimLeft(s) == TrimLeft(s[1..]);
        }
        assert CollapseWs(s) == [' '] + s[1..];
        assert s[0] == ' ';
      } else {
        assert CollapseWs(s) == [s[0]] + s[1..];
      }
      HeadTail(s);
    }
  }

  lemma HeadTail<T>(s: seq<T>)
    requires |s| > 0
    ensures s == [s[0]] + s[1..]
  {
  }

  /** `s.replace(c, rep)` for every occurrence of the character c. */
  function ReplaceChar(s: string, c: char, rep: string): (r: string)
    ensures c !in rep ==> c !in r
    ensures forall x :: x in r ==> x in s || x in rep
    ensures |rep| > 0 ==> |r| >= |s|
  {
    if |s| == 0 then []
    else (if s[0] == c then rep else [s[0]]) + ReplaceChar(s[1..], c, rep)
  }

  lemma {:induction false} ReplaceCharAbsent(s: string, c: char, rep: string)
    requires c !in s
    ensures ReplaceChar(s, c, rep) == s
  {
    if |s| > 0 {
      ReplaceCharAbsent(s[1..], c, rep);
      assert [s[0]] + s[1..] == s;
    }
  }

  /** Python `str.split(sep)` / JavaScript `split(sep)` with a one-character separator:
      k separators give k + 1 pieces, empty pieces included. */
  function Split(s: string, sep: char): (parts: seq<string>)
    ensures |parts| >= 1
    ensures forall p :: p in parts ==> sep !in p
  {
    if |s| == 0 then [""]
    else
      var rest := Split(s[1..], sep);
      if s[0] == sep then [""] + rest else [[s[0]] + rest[0]] + rest[1..]
  }

  /** Joining keeps out every character that neither the parts nor the separator hold. */
  lemma {:induction false} JoinAvoids(ps: seq<string>, sep: string, bad: set<char>)
    requires forall k, i :: 0 <= k < |ps| && 0 <= i < |ps[k]| ==> ps[k][i] !in bad
    requires forall i :: 0 <= i < |sep| ==> sep[i] !in bad
    ensures forall i :: 0 <= i < |Join(ps, sep)| ==> Join(ps, sep)[i] !in bad
  {
    if |ps| > 1 {
      JoinAvoids(ps[1..], sep, bad);
      var t := Join(ps[1..], sep);
      forall i | 0 <= i < |Join(ps, sep)| ensures Join(ps, sep)[i] !in bad {
        if i >= |ps[0]| + |sep| {
          assert Join(ps, sep)[i] == t[i - |ps[0]| - |sep|];
        } else if i >= |ps[0]| {
          assert Join(ps, sep)[i] == sep[i - |ps[0]|];
        } else {
          assert Join(ps, sep)[i] == ps[0][i];
        }
      }
    }
  }

  /** `sep.join(parts)` / `parts.join(sep)`. */
  function Join(parts: seq<string>, sep: string): string {
    if |parts| == 0 then ""
    else if |parts| == 1 then parts[0]
    else parts[0] + sep + Join(parts[1..], sep)
  }

  /** Splitting and joining with the same separator gives the string back. */
  lemma {:induction false} JoinSplit(s: string, sep: char)
    ensures Join(Split(s, sep), [sep]) == s
  {
    if |s| > 0 {
      var rest := Split(s[1..], sep);
      JoinSplit(s[1..], sep);
      if s[0] != sep {
        var parts := Split(s, sep);
        assert parts[1..] == rest[1..];
        if |rest| > 1 {
          assert rest == [rest[0]] + rest[1..];
        }
      }
    }
  }

  /** Keeps the non-empty strings, in order (`filter(Boolean)`, `if p`). */
  function NonEmpty(parts: seq<string>): (r: seq<string>)
    ensures forall p :: p in r ==> p in parts && |p| > 0
    ensures forall p :: p in parts && |p| > 0 ==> p in r
  {
    if |parts| == 0 then []
    else (if |parts[0]| > 0 then [parts[0]] else []) + NonEmpty(parts[1..])
  }

  /** The terms of a query: its maximal runs of non-whitespace characters
      (`q.split(/\s+/).filter(Boolean)`, `re.split(r"\s+", q)` without empties). */
  function Words(s: string): (r: seq<string>)
    ensures forall w :: w in r ==> |w| > 0 && forall k :: 0 <= k < |w| ==> !IsSpace(w[k])
  {
    var c := CollapseWs(s);
    var parts := Split(c, ' ');
    assert forall p :: p in parts ==> forall k :: 0 <= k < |p| ==> p[k] in c by {
      SplitPiecesFromString(c, ' ');
    }
    NonEmpty(parts)
  }

  lemma {:induction false} NonEmptyOfNonEmpty(ps: seq<string>)
    requires forall k :: 0 <= k < |ps| ==> |ps[k]| > 0
    ensures NonEmpty(ps) == ps
  {
    if |ps| > 0 {
      NonEmptyOfNonEmpty(ps[1..]);
      HeadTail(ps);
    }
  }

  /** The words of single-space-joined words are those words. */
  lemma WordsOfJoin(ts: seq<string>)
    requires |ts| >= 1
    requires forall k :: 0 <= k < |ts| ==> |ts[k]| > 0 && forall i :: 0 <= i < |ts[k]| ==> !IsSpace(ts[k][i])
    ensures Words(Join(ts, " ")) == ts
  {
    var s := Join(ts, " ");
    JoinWordsCollapsed(ts);
    CollapseOfCollapsed(s);
    forall k | 0 <= k < |ts| ensures ' ' !in ts[k] {
      assert forall i :: 0 <= i < |ts[k]| ==> ts[k][i] != ' ';
    }
    SplitJoin(ts, ' ');
    NonEmptyOfNonEmpty(ts);
  }

  lemma {:induction false} SplitPiecesFromString(s: string, sep: char)
    ensures forall p :: p in Split(s, sep) ==> forall k :: 0 <= k < |p| ==> p[k] in s
  {
    if |s| > 0 {
      SplitPiecesFromString(s[1..], sep);
    }
  }

  /** Upper-cases the first character (`p[:1].upper() + p[1:]`,
      `w.charAt(0).toUpperCase() + w.slice(1)`). */
  function Capitalize(w: string): (r: string)
    ensures |r| == |w|
  {
    if |w| == 0 then w else [ToUpperChar(w[0])] + w[1..]
  }

  predicate WordCharAt(h: string, i: int) {
    0 <= i < |h| && IsWordChar(h[i])
  }

  /** The regex assertion `\b` at position i: a word character on exactly one side. */
  predicate BoundaryAt(h: string, i: int) {
    WordCharAt(h, i - 1) != WordCharAt(h, i)
  }

  /** `\bterm\b` matches, case-insensitively, at position p of h. */
  predicate WholeWordAt(h: string, t: string, p: int) {
    0 <= p && p + |t| <= |h| && BoundaryAt(h, p)
    && Lower(h[p..p + |t|]) == Lower(t) && BoundaryAt(h, p + |t|)
  }

  /** The term, taken literally (regex-escaped), occurs in h as a whole word,
      ignoring case: `new RegExp("\\b" + escape(term) + "\\b", "i").test(h)`. */
  predicate HasWholeWord(h: string, t: string) {
    exists p | 0 <= p <= |h| :: WholeWordAt(h, t, p)
  }

  lemma LowerAppend(a: string, b: string)
    ensures Lower(a + b) == Lower(a) + Lower(b)
  {
  }

  /** A string with no doubled space and no space at its end splits into pieces that are
      all non-empty, except the first when the string starts with a space. */
  lemma {:induction false} SplitPiecesNonEmpty(s: string)
    requires forall i :: 0 <= i < |s| - 1 ==> !(s[i] == ' ' && s[i + 1] == ' ')
    requires |s| > 0 ==> s[|s| - 1] != ' '
    ensures forall k :: 1 <= k < |Split(s, ' ')| ==> |Split(s, ' ')[k]| > 0
    ensures |s| > 0 && s[0] != ' ' ==> |Split(s, ' ')[0]| > 0
  {
    if |s| > 0 {
      SplitPiecesNonEmpty(s[1..]);
      if |s| > 1 && s[0] == ' ' {
        assert s[1] != ' ';
      }
    }
  }

  /** Joining words that hold no separator and splitting again gives the words back. */
  lemma {:induction false} SplitJoin(ps: seq<string>, sep: char)
    requires |ps| >= 1
    requires forall k :: 0 <= k < |ps| ==> sep !in ps[k]
    ensures Split(Join(ps, [sep]), sep) == ps
  {
    if |ps| == 1 {
      SplitNoSep(ps[0], sep);
    } else {
      SplitJoin(ps[1..], sep);
      SplitAppend(ps[0], Join(ps[1..], [sep]), sep);
      assert ps == [ps[0]] + ps[1..];
    }
  }

  lemma {:induction false} SplitNoSep(w: string, sep: char)
    requires sep !in w
    ensures Split(w, sep) == [w]
  {
    if |w| > 0 {
      SplitNoSep(w[1..], sep);
      assert [w[0]] + w[1..] == w;
    }
  }

  lemma {:induction false} SplitAppend(w: string, t: string, sep: char)
    requires sep !in w
    ensures Split(w + [sep] + t, sep) == [w] + Split(t, sep)
  {
    if |w| == 0 {
      assert w + [sep] + t == [sep] + t;
      assert ([sep] + t)[1..] == t;
    } else {
      SplitAppend(w[1..], t, sep);
      assert (w + [sep] + t)[1..] == w[1..] + [sep] + t;
      assert [w[0]] + w[1..] == w;
    }
  }

  /** Words free of whitespace, joined by single spaces, form a collapsed, trimmed string. */
  lemma {:induction false} JoinWordsCollapsed(ps: seq<string>)
    requires forall k :: 0 <= k < |ps| ==> |ps[k]| > 0 && forall i :: 0 <= i < |ps[k]| ==> !IsSpace(ps[k][i])
    ensures Collapsed(Join(ps, " ")) && IsTrimmed(Join(ps, " "))
  {
    if |ps| > 1 {
      JoinWordsCollapsed(ps[1..]);
      var t := Join(ps[1..], " ");
      var r := ps[0] + " " + t;
      assert Join(ps, " ") == r;
      assert |t| > 0 && !IsSpace(t[0]) by {
        JoinHead(ps[1..], " ");
      }
      forall i | 0 <= i < |r| && IsSpace(r[i]) ensures r[i] == ' ' {
        if i > |ps[0]| {
          assert r[i] == t[i - |ps[0]| - 1];
        }
      }
      forall i | 0 <= i < |r| - 1 ensures !(r[i] == ' ' && r[i + 1] == ' ') {
        if i > |ps[0]| {
          assert r[i] == t[i - |ps[0]| - 1];
          assert r[i + 1] == t[i - |ps[0]|];
        }
      }
    }
  }

  lemma {:induction false} JoinHead(ps: seq<string>, sep: string)
    requires |ps| > 0 && |ps[0]| > 0
    ensures |Join(ps, sep)| > 0 && Join(ps, sep)[0] == ps[0][0]
  {
  }

  /** Lower-casing commutes with joining. */
  lemma {:induction false} LowerJoin(ps: seq<string>, qs: seq<string>, sep: string)
    requires |ps| == |qs|
    requires forall k :: 0 <= k < |ps| ==> Lower(ps[k]) == qs[k]
    requires Lower(sep) == sep
    ensures Lower(Join(ps, sep)) == Join(qs, sep)
  {
    if |ps| > 1 {
      LowerJoin(ps[1..], qs[1..], sep);
      LowerAppend(ps[0] + sep, Join(ps[1..], sep));
      LowerAppend(ps[0], sep);
    }
  }

  /** Dictionary lookup in a table of (key, value) pairs: the value of the first entry
      with that key. */
  function AssocGet<V>(table: seq<(string, V)>, k: string): (r: Option<V>)
    ensures r.Some? ==> (k, r.value) in table
    ensures r.None? ==> forall e :: e in table ==> e.0 != k
  {
    if |table| == 0 then None
    else if table[0].0 == k then Some(table[0].1)
    else AssocGet(table[1..], k)
  }

  /** The whitespace characters, as a set. */
  const Blanks: set<char> := {' ', '\t', '\n', '\r', '\U{0B}', '\U{0C}', '\U{A0}'}

  lemma BlanksAreSpaces(c: char)
    ensures IsSpace(c) <==> c in Blanks
  {
  }

  /** No character of s is in bad. */
  predicate Avoids(s: string, bad: set<char>) {
    forall i :: 0 <= i < |s| ==> s[i] !in bad
  }

  /** Changing letter case cannot bring in a character that is not a letter. */
  lemma AvoidsUpToCase(a: string, b: string, bad: set<char>)
    requires Lower(a) == Lower(b) && Avoids(b, bad)
    requires forall c :: c in bad ==> !IsAlphaChar(c)
    ensures Avoids(a, bad)
  {
    forall i | 0 <= i < |a| ensures a[i] !in bad {
      SameUpToCase(a, b, i);
    }
  }

  /** A collapsed string stays collapsed when trimmed. */
  lemma TrimKeepsCollapsed(s: string)
    requires Collapsed(s)
    ensures Collapsed(Trim(s))
  {
    var l := TrimLeft(s);
    SliceCollapsed(s, |s| - |l|, |s|);
    SliceCollapsed(l, 0, |TrimRight(l)|);
  }

  /** Any slice of a collapsed string is collapsed. */
  lemma SliceCollapsed(s: string, a: nat, b: nat)
    requires Collapsed(s) && a <= b <= |s|
    ensures Collapsed(s[a..b]) && Collapsed(s[a..]) && Collapsed(s[..b])
  {
    assert s[a..] == s[a..|s|] && s[..b] == s[0..b];
    SliceCollapsedAt(s, a, b);
    SliceCollapsedAt(s, a, |s|);
    SliceCollapsedAt(s, 0, b);
  }

  lemma SliceCollapsedAt(s: string, a: nat, b: nat)
    requires Collapsed(s) && a <= b <= |s|
    ensures Collapsed(s[a..b])
  {
    var r := s[a..b];
    forall i | 0 <= i < |r| - 1 ensures !(r[i] == ' ' && r[i + 1] == ' ') {
      assert r[i] == s[a + i] && r[i + 1] == s[a + i + 1];
    }
    forall i | 0 <= i < |r| && IsSpace(r[i]) ensures r[i] == ' ' {
      assert r[i] == s[a + i];
    }
  }

  /** Two collapsed strings concatenate to a collapsed string unless a space meets a space. */
  lemma CollapsedConcat(a: string, b: string)
    requires Collapsed(a) && Collapsed(b)
    requires !(|a| > 0 && |b| > 0 && a[|a| - 1] == ' ' && b[0] == ' ')
    ensures Collapsed(a + b)
  {
    var r := a + b;
    forall i | 0 <= i < |r| - 1 ensures !(r[i] == ' ' && r[i + 1] == ' ') {
      if i + 1 < |a| {
        assert r[i] == a[i] && r[i + 1] == a[i + 1];
      } else if i >= |a| {
        assert r[i] == b[i - |a|] && r[i + 1] == b[i + 1 - |a|];
      }
    }
  }

  /** Python's `<` on strings: lexicographic by character code. */
  predicate StrLt(a: string, b: string) {
    if |a| == 0 then |b| > 0
    else |b| > 0 && (a[0] < b[0] || (a[0] == b[0] && StrLt(a[1..], b[1..])))
  }

  lemma {:induction false} StrLtIrreflexive(a: string)
    ensures !StrLt(a, a)
  {
    if |a| > 0 {
      StrLtIrreflexive(a[1..]);
    }
  }

  lemma {:induction false} StrLtTransitive(a: string, b: string, c: string)
    requires StrLt(a, b) && StrLt(b, c)
    ensures StrLt(a, c)
  {
    if |a| > 0 && a[0] == b[0] && b[0] == c[0] {
      StrLtTransitive(a[1..], b[1..], c[1..]);
    }
  }

  lemma {:induction false} StrLtTotal(a: string, b: string)
    requires a != b
    ensures StrLt(a, b) || StrLt(b, a)
  {
    if |a| > 0 && |b| > 0 && a[0] == b[0] {
      assert a == [a[0]] + a[1..] && b == [b[0]] + b[1..];
      StrLtTotal(a[1..], b[1..]);
    }
  }

  /** Decimal digits of a natural number, without leading zeros (`str(n)`). */
  function NatToString(n: nat): (r: string)
    ensures |r| > 0 && IsDigits(r)
    ensures n > 0 ==> r[0] != '0'
    decreases n
  {
    var last := [(48 + n % 10) as char];
    if n < 10 then last else NatToString(n / 10) + last
  }

  /** The number a string of decimal digits denotes. */
  function DigitsValue(s: string): nat
    requires IsDigits(s) || |s| == 0
  {
    if |s| == 0 then 0 else 10 * DigitsValue(s[..|s| - 1]) + (s[|s| - 1] as int - 48)
  }

  /** Reading back the printed digits gives the number. */
  lemma {:induction false} NatToStringRoundTrip(n: nat)
    ensures DigitsValue(NatToString(n)) == n
    decreases n
  {
    var r := NatToString(n);
    if n >= 10 {
      NatToStringRoundTrip(n / 10);
      assert r[..|r| - 1] == NatToString(n / 10);
    }
  }

  lemma StrLtAsymmetric(a: string, b: string)
    requires StrLt(a, b)
    ensures !StrLt(b, a)
  {
    if StrLt(b, a) {
      StrLtTransitive(a, b, a);
      StrLtIrreflexive(a);
    }
  }

  /** Ascending by `StrLt`, equal strings allowed side by side. */
  predicate StrSorted(s: seq<string>) {
    forall i, j :: 0 <= i < j < |s| ==> !StrLt(s[j], s[i])
  }

  /** Inserts x before the first element not below it. */
  function InsertStr(x: string, s: seq<string>): (r: seq<string>)
    ensures |r| == |s| + 1
    ensures multiset(r) == multiset(s) + multiset{x}
  {
    if |s| == 0 || !StrLt(s[0], x) then [x] + s
    else
      assert s == [s[0]] + s[1..];
      [s[0]] + InsertStr(x, s[1..])
  }

  lemma {:induction false} InsertStrSorted(x: string, s: seq<string>)
    requires StrSorted(s)
    ensures StrSorted(InsertStr(x, s))
  {
    var r := InsertStr(x, s);
    if |s| == 0 {
    } else if !StrLt(s[0], x) {
      forall j | 1 <= j < |r| ensures !StrLt(r[j], x) {
        assert r[j] == s[j - 1];
        if StrLt(s[j - 1], x) {
          if s[j - 1] != s[0] {
            StrLtTotal(s[j - 1], s[0]);
            StrLtTransitive(s[0], s[j - 1], x);
          }
        }
      }
    } else {
      var rest := InsertStr(x, s[1..]);
      InsertStrSorted(x, s[1..]);
      forall j | 0 <= j < |rest| ensures !StrLt(rest[j], s[0]) {
        assert rest[j] in multiset(rest);
        if rest[j] == x {
          StrLtAsymmetric(s[0], x);
        } else {
          assert rest[j] in multiset(s[1..]);
          var q :| 0 <= q < |s[1..]| && s[1..][q] == rest[j];
          assert s[q + 1] == rest[j];
        }
      }
    }
  }

  /** `Array.prototype.sort()` on strings: ascending by character code, a permutation of
      its input. */
  function SortStrings(s: seq<string>): (r: seq<string>)
    ensures multiset(r) == multiset(s)
    ensures StrSorted(r)
  {
    if |s| == 0 then []
    else
      assert s == [s[0]] + s[1..];
      var t := SortStrings(s[1..]);
      InsertStrSorted(s[0], t);
      InsertStr(s[0], t)
  }

  /** A sorted list without repeats is strictly ascending. */
  lemma SortedDistinctAscending(s: seq<string>)
    requires StrSorted(s)
    requires forall i, j :: 0 <= i < j < |s| ==> s[i] != s[j]
    ensures forall i, j :: 0 <= i < j < |s| ==> StrLt(s[i], s[j])
  {
    forall i, j | 0 <= i < j < |s| ensures StrLt(s[i], s[j]) {
      StrLtTotal(s[i], s[j]);
    }
  }

  /** A permutation of a list without repeats has no repeats. */
  lemma NoRepeatsOfPermutation<T>(s: seq<T>, r: seq<T>)
    requires multiset(r) == multiset(s)
    requires forall i, j :: 0 <= i < j < |s| ==> s[i] != s[j]
    ensures forall i, j :: 0 <= i < j < |r| ==> r[i] != r[j]
  {
    forall i, j | 0 <= i < j < |r| ensures r[i] != r[j] {
      if r[i] == r[j] {
        assert r == r[..j] + [r[j]] + r[j + 1..];
        assert r[i] in r[..j];
        assert multiset(r)[r[j]] >= 2;
        AtMostOnce(s, r[j]);
        assert false;
      }
    }
  }

  // ---------------------------------------------------------------------------------
  // The characters a rewrite keeps

  /** The characters of s that are not in drop, in order. */
  function Kept(s: string, drop: set<char>): (r: string)
    ensures |r| <= |s|
    ensures forall i :: 0 <= i < |r| ==> r[i] !in drop
  {
    if |s| == 0 then [] else (if s[0] in drop then [] else [s[0]]) + Kept(s[1..], drop)
  }

  /** s with its letters lower-cased and the characters of drop removed: two strings with
      the same `Folded` differ only in letter case and in where drop characters stand. */
  function Folded(s: string, drop: set<char>): string {
    Kept(Lower(s), drop)
  }

  lemma {:induction false} KeptAppend(a: string, b: string, drop: set<char>)
    ensures Kept(a + b, drop) == Kept(a, drop) + Kept(b, drop)
  {
    if |a| > 0 {
      assert (a + b)[1..] == a[1..] + b;
      KeptAppend(a[1..], b, drop);
    } else {
      assert a + b == b;
    }
  }

  lemma {:induction false} KeptNone(s: string, drop: set<char>)
    requires forall i :: 0 <= i < |s| ==> s[i] in drop
    ensures Kept(s, drop) == []
  {
    if |s| > 0 {
      KeptNone(s[1..], drop);
    }
  }

  lemma {:induction false} KeptAll(s: string, drop: set<char>)
    requires forall i :: 0 <= i < |s| ==> s[i] !in drop
    ensures Kept(s, drop) == s
  {
    if |s| > 0 {
      KeptAll(s[1..], drop);
      assert [s[0]] + s[1..] == s;
    }
  }

  lemma FoldedAppend(a: string, b: string, drop: set<char>)
    ensures Folded(a + b, drop) == Folded(a, drop) + Folded(b, drop)
  {
    LowerAppend(a, b);
    KeptAppend(Lower(a), Lower(b), drop);
  }

  /** Trimming keeps every character that is not whitespace, in order. */
  lemma TrimLeftKeeps(s: string, drop: set<char>)
    requires Blanks <= drop
    ensures Kept(TrimLeft(s), drop) == Kept(s, drop)
  {
    var r := TrimLeft(s);
    var k := |s| - |r|;
    SplitAt(s, k);
    SpacesKeptNone(s[..k], drop);
    KeptAppend(s[..k], r, drop);
  }

  lemma SplitAt(s: string, k: nat)
    requires k <= |s|
    ensures s == s[..k] + s[k..]
  {
  }

  /** Whitespace only keeps nothing when the blanks are dropped. */
  lemma SpacesKeptNone(p: string, drop: set<char>)
    requires Blanks <= drop
    requires forall i :: 0 <= i < |p| ==> IsSpace(p[i])
    ensures Kept(p, drop) == []
  {
    forall i | 0 <= i < |p| ensures p[i] in drop {
      BlanksAreSpaces(p[i]);
    }
    KeptNone(p, drop);
  }

  lemma TrimRightKeeps(s: string, drop: set<char>)
    requires Blanks <= drop
    ensures Kept(TrimRight(s), drop) == Kept(s, drop)
  {
    var r := TrimRight(s);
    SplitAt(s, |r|);
    SpacesKeptNone(s[|r|..], drop);
    KeptAppend(r, s[|r|..], drop);
  }

  lemma TrimKeeps(s: string, drop: set<char>)
    requires Blanks <= drop
    ensures Kept(Trim(s), drop) == Kept(s, drop)
  {
    TrimLeftKeeps(s, drop);
    TrimRightKeeps(TrimLeft(s), drop);
  }

  /** Collapsing whitespace keeps every character that is not whitespace, in order. */
  lemma {:induction false} CollapseKeeps(s: string, drop: set<char>)
    requires Blanks <= drop
    ensures Kept(CollapseWs(s), drop) == Kept(s, drop)
    decreases |s|
  {
    if |s| > 0 {
      if IsSpace(s[0]) {
        var t := TrimLeft(s);
        CollapseKeeps(t, drop);
        TrimLeftKeeps(s, drop);
        assert CollapseWs(s) == [' '] + CollapseWs(t);
        KeptAppend([' '], CollapseWs(t), drop);
      } else {
        CollapseKeeps(s[1..], drop);
        assert CollapseWs(s) == [s[0]] + CollapseWs(s[1..]);
        KeptAppend([s[0]], CollapseWs(s[1..]), drop);
      }
    }
  }

  lemma TrimFolded(s: string, drop: set<char>)
    requires forall i :: 0 <= i < |s| && IsSpace(s[i]) ==> s[i] in drop
    ensures Folded(Trim(s), drop) == Folded(s, drop)
  {
    TrimLeftFolded(s, drop);
    TrimRightFolded(TrimLeft(s), drop);
  }

  lemma TrimLeftFolded(s: string, drop: set<char>)
    requires forall i :: 0 <= i < |s| && IsSpace(s[i]) ==> s[i] in drop
    ensures Folded(TrimLeft(s), drop) == Folded(s, drop)
    ensures forall i :: 0 <= i < |TrimLeft(s)| && IsSpace(TrimLeft(s)[i]) ==> TrimLeft(s)[i] in drop
  {
    var l := TrimLeft(s);
    var k := |s| - |l|;
    assert s == s[..k] + l;
    forall i | 0 <= i < k ensures IsSpace(s[..k][i]) && s[..k][i] in drop {
      assert s[..k][i] == s[i];
    }
    FoldedSpacesAway(s[..k], drop);
    FoldedAppend(s[..k], l, drop);
    forall i | 0 <= i < |l| && IsSpace(l[i]) ensures l[i] in drop {
      assert l[i] == s[k + i];
    }
  }

  lemma TrimRightFolded(l: string, drop: set<char>)
    requires forall i :: 0 <= i < |l| && IsSpace(l[i]) ==> l[i] in drop
    ensures Folded(TrimRight(l), drop) == Folded(l, drop)
  {
    var r := TrimRight(l);
    var t := l[|r|..];
    SplitAt(l, |r|);
    forall i | 0 <= i < |t| ensures IsSpace(t[i]) && t[i] in drop {
      assert t[i] == l[|r| + i];
    }
    FoldedSpacesAway(t, drop);
    FoldedAppend(r, t, drop);
  }

  /** Whitespace that is dropped folds to nothing. */
  lemma FoldedSpacesAway(a: string, drop: set<char>)
    requires forall i :: 0 <= i < |a| ==> IsSpace(a[i]) && a[i] in drop
    ensures Folded(a, drop) == []
  {
    forall i | 0 <= i < |a| ensures Lower(a)[i] in drop {
      assert Lower(a)[i] == ToLowerChar(a[i]) == a[i];
    }
    KeptNone(Lower(a), drop);
  }

  /** Upper-casing and lower-casing fold to the same string. */
  lemma LowerOfUpper(s: string)
    ensures Lower(Upper(s)) == Lower(s)
  {
  }

  /** The pieces of s at sep, joined without separators, fold like s once sep is dropped. */
  lemma {:induction false} FoldedJoin(ps: seq<string>, qs: seq<string>, sep1: string, sep2: string, drop: set<char>)
    requires |ps| == |qs|
    requires forall k :: 0 <= k < |ps| ==> Folded(ps[k], drop) == Folded(qs[k], drop)
    requires Folded(sep1, drop) == [] && Folded(sep2, drop) == []
    ensures Folded(Join(ps, sep1), drop) == Folded(Join(qs, sep2), drop)
  {
    if |ps| > 1 {
      FoldedJoin(ps[1..], qs[1..], sep1, sep2, drop);
      FoldedAppend(ps[0] + sep1, Join(ps[1..], sep1), drop);
      FoldedAppend(ps[0], sep1, drop);
      FoldedAppend(qs[0] + sep2, Join(qs[1..], sep2), drop);
      FoldedAppend(qs[0], sep2, drop);
    }
  }

  /** Dropping the empty pieces before joining changes only where separators stand. */
  lemma {:induction false} FoldedJoinNonEmpty(ps: seq<string>, sep: string, drop: set<char>)
    requires Folded(sep, drop) == []
    ensures Folded(Join(NonEmpty(ps), sep), drop) == Folded(Join(ps, sep), drop)
  {
    if |ps| > 0 {
      var rest := NonEmpty(ps[1..]);
      FoldedJoinNonEmpty(ps[1..], sep, drop);
      FoldedJoinHead(ps, sep, drop);
      if |ps[0]| > 0 {
        assert NonEmpty(ps) == [ps[0]] + rest;
        FoldedJoinCons(ps[0], rest, sep, drop);
      } else {
        assert NonEmpty(ps) == rest;
        assert Folded(ps[0], drop) == [];
      }
    }
  }

  lemma FoldedJoinHead(ps: seq<string>, sep: string, drop: set<char>)
    requires Folded(sep, drop) == [] && |ps| > 0
    ensures Folded(Join(ps, sep), drop) == Folded(ps[0], drop) + Folded(Join(ps[1..], sep), drop)
  {
    HeadTail(ps);
    FoldedJoinCons(ps[0], ps[1..], sep, drop);
  }

  /** Folding a join with one more piece in front. */
  lemma FoldedJoinCons(p: string, ps: seq<string>, sep: string, drop: set<char>)
    requires Folded(sep, drop) == []
    ensures Folded(Join([p] + ps, sep), drop) == Folded(p, drop) + Folded(Join(ps, sep), drop)
  {
    var w := [p] + ps;
    assert w[0] == p && w[1..] == ps;
    if |ps| == 0 {
      assert Join(ps, sep) == "";
    } else {
      FoldedAppend(p + sep, Join(ps, sep), drop);
      FoldedAppend(p, sep, drop);
    }
  }
}
