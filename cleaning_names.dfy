/** Canonical state and district names of the backend cleaner (`_normalize_state`,
    `_normalize_district`): chains of string rewrites ending in an alias table and
    title-casing. A missing cell (`None`) is `Option.None`; any other cell is given by
    its `str()` text. */
module CleaningNames {
  import opened Common
  import opened Text

  /** The state alias table, keyed by the lower-cased cleaned name. */
  const StateAliases: seq<(string, string)> := [
    ("andaman & nicobar islands", "Andaman And Nicobar Islands"),
    ("andaman and nicobar islands", "Andaman And Nicobar Islands"),
    ("dadra and nagar haveli", "Dadra And Nagar Haveli And Daman And Diu"),
    ("daman and diu", "Dadra And Nagar Haveli And Daman And Diu"),
    ("dadra and nagar haveli and daman and diu", "Dadra And Nagar Haveli And Daman And Diu"),
    ("the dadra and nagar haveli and daman and diu", "Dadra And Nagar Haveli And Daman And Diu"),
    ("nct of delhi", "Nct Of Delhi"),
    ("delhi", "Nct Of Delhi"),
    ("orissa", "Odisha"),
    ("pondicherry", "Puducherry"),
    ("jammu & kashmir", "Jammu And Kashmir"),
    ("westbengal", "West Bengal"),
    ("west bangal", "West Bengal")
  ]

  /** The district variant table, applied to the lower-cased cleaned name. */
  const DistrictVariants: seq<(string, string)> := [
    ("anugul", "angul"),
    ("aurangabad(bh)", "aurangabad (bh)")
  ]

  /** The word-title rule: a word keeps its case when it is one of the exempt words,
      otherwise its first character is upper-cased (`p[:1].upper() + p[1:]`). */
  function TitleWord(w: string, exempt: set<string>): (r: string)
    ensures |r| == |w| && Lower(r) == Lower(w)
    ensures w in exempt ==> r == w
    ensures w !in exempt && |w| > 0 ==> !IsLowerChar(r[0]) && r[1..] == w[1..]
  {
    if w in exempt then w else Capitalize(w)
  }

  function TitleAll(ps: seq<string>, exempt: set<string>): (r: seq<string>)
    ensures |r| == |ps|
  {
    seq(|ps|, k requires 0 <= k < |ps| => TitleWord(ps[k], exempt))
  }

  /** A title-cased phrase: single spaces between non-empty words; a word whose lower-case
      form is exempt is written in lower case, every other word starts with a character
      that is not a lower-case letter and continues in lower case. */
  predicate TitledWords(r: string, exempt: set<string>) {
    Collapsed(r) && IsTrimmed(r)
    && forall w :: w in Split(r, ' ') ==>
         |w| > 0 && IsLowerCased(w[1..])
         && (Lower(w) in exempt ==> w == Lower(w))
         && (Lower(w) !in exempt ==> !IsLowerChar(w[0]))
  }

  predicate LowerWords(exempt: set<string>) {
    forall e :: e in exempt ==> IsLowerCased(e)
  }

  /** A lower-case word with no whitespace. */
  predicate PlainWord(w: string) {
    |w| > 0 && IsLowerCased(w) && forall i :: 0 <= i < |w| ==> !IsSpace(w[i])
  }

  /** Title-casing the words of a lower-case, collapsed, trimmed key gives back the key
      when lower-cased, in title form. */
  lemma TitleWordsShape(k: string, exempt: set<string>)
    requires Collapsed(k) && IsTrimmed(k) && |k| > 0 && IsLowerCased(k) && LowerWords(exempt)
    ensures NonEmpty(Split(k, ' ')) == Split(k, ' ')
    ensures var r := Join(TitleAll(Split(k, ' '), exempt), " ");
      Lower(r) == k && TitledWords(r, exempt)
  {
    var ps := Split(k, ' ');
    KeyPiecesPlain(k);
    NonEmptyOfNonEmpty(ps);
    JoinSplit(k, ' ');
    TitleAllShape(ps, exempt);
  }

  lemma KeyPiecesPlain(k: string)
    requires Collapsed(k) && IsTrimmed(k) && |k| > 0 && IsLowerCased(k)
    ensures forall j :: 0 <= j < |Split(k, ' ')| ==> PlainWord(Split(k, ' ')[j])
  {
    var ps := Split(k, ' ');
    SplitPiecesNonEmpty(k);
    SplitPiecesFromString(k, ' ');
    forall j | 0 <= j < |ps| ensures PlainWord(ps[j]) {
      assert ps[j] in ps;
      forall i | 0 <= i < |ps[j]| ensures !IsSpace(ps[j][i]) && !IsUpperChar(ps[j][i]) {
        assert ps[j][i] in k;
        assert ps[j][i] != ' ';
      }
    }
  }

  lemma TitleAllShape(ps: seq<string>, exempt: set<string>)
    requires |ps| >= 1 && LowerWords(exempt)
    requires forall j :: 0 <= j < |ps| ==> PlainWord(ps[j])
    ensures var r := Join(TitleAll(ps, exempt), " ");
      Lower(r) == Join(ps, " ") && TitledWords(r, exempt)
  {
    TitleAllLower(ps, exempt);
    TitleAllTitled(ps, exempt);
  }

  lemma TitleAllLower(ps: seq<string>, exempt: set<string>)
    requires forall j :: 0 <= j < |ps| ==> PlainWord(ps[j])
    ensures Lower(Join(TitleAll(ps, exempt), " ")) == Join(ps, " ")
  {
    TitleAllPieces(ps, exempt);
    LowerJoin(TitleAll(ps, exempt), ps, " ");
  }

  lemma TitleAllTitled(ps: seq<string>, exempt: set<string>)
    requires |ps| >= 1 && LowerWords(exempt)
    requires forall j :: 0 <= j < |ps| ==> PlainWord(ps[j])
    ensures TitledWords(Join(TitleAll(ps, exempt), " "), exempt)
  {
    assert Collapsed(Join(TitleAll(ps, exempt), " ")) && IsTrimmed(Join(TitleAll(ps, exempt), " ")) by {
      TitleAllPieces(ps, exempt);
      JoinWordsCollapsed(TitleAll(ps, exempt));
    }
    TitleAllSplit(ps, exempt);
  }

  /** Each title-cased word is non-empty, has no whitespace and lower-cases back. */
  lemma TitleAllPieces(ps: seq<string>, exempt: set<string>)
    requires forall j :: 0 <= j < |ps| ==> PlainWord(ps[j])
    ensures var ts := TitleAll(ps, exempt);
      forall j :: 0 <= j < |ts| ==>
        |ts[j]| > 0 && (forall i :: 0 <= i < |ts[j]| ==> !IsSpace(ts[j][i])) && Lower(ts[j]) == ps[j]
  {
    var ts := TitleAll(ps, exempt);
    forall j | 0 <= j < |ts| ensures |ts[j]| > 0 && (forall i :: 0 <= i < |ts[j]| ==> !IsSpace(ts[j][i])) && Lower(ts[j]) == ps[j] {
      forall i | 0 <= i < |ts[j]| ensures !IsSpace(ts[j][i]) {
        SameUpToCase(ts[j], ps[j], i);
      }
      LowerOfLowerCased(ps[j]);
    }
  }

  /** The words of the joined title are the title-cased words, each in title form. */
  lemma TitleAllSplit(ps: seq<string>, exempt: set<string>)
    requires |ps| >= 1 && LowerWords(exempt)
    requires forall j :: 0 <= j < |ps| ==> PlainWord(ps[j])
    ensures forall w :: w in Split(Join(TitleAll(ps, exempt), " "), ' ') ==>
         |w| > 0 && IsLowerCased(w[1..])
         && (Lower(w) in exempt ==> w == Lower(w))
         && (Lower(w) !in exempt ==> !IsLowerChar(w[0]))
  {
    var ts := TitleAll(ps, exempt);
    TitleAllPieces(ps, exempt);
    forall j | 0 <= j < |ts| ensures ' ' !in ts[j] {
      assert forall i :: 0 <= i < |ts[j]| ==> ts[j][i] != ' ';
    }
    SplitJoin(ts, ' ');
    forall w | w in Split(Join(ts, " "), ' ')
      ensures |w| > 0 && IsLowerCased(w[1..])
      ensures Lower(w) in exempt ==> w == Lower(w)
      ensures Lower(w) !in exempt ==> !IsLowerChar(w[0])
    {
      var j :| 0 <= j < |ts| && ts[j] == w;
      TitleWordOfPlain(ps[j], exempt);
    }
  }

  lemma TitleWordOfPlain(p: string, exempt: set<string>)
    requires PlainWord(p) && LowerWords(exempt)
    ensures var w := TitleWord(p, exempt);
      IsLowerCased(w[1..]) && Lower(w) == p
      && (Lower(w) in exempt ==> w == Lower(w))
      && (Lower(w) !in exempt ==> !IsLowerChar(w[0]))
  {
    LowerOfLowerCased(p);
    var w := TitleWord(p, exempt);
    if p !in exempt {
      assert w[1..] == p[1..];
    }
  }

  /** The regex `^the\s+` (any case) matches. */
  predicate HasThePrefix(s: string) {
    |s| >= 4 && Lower(s[..3]) == "the" && IsSpace(s[3])
  }

  /** `re.sub(r"^the\s+", "", s, flags=re.IGNORECASE)`. */
  function StripThe(s: string): (r: string)
    ensures |r| <= |s| && r == s[|s| - |r|..]
    ensures HasThePrefix(s) ==> |r| <= |s| - 4
    ensures !HasThePrefix(s) ==> r == s
    ensures IsTrimmed(s) && |s| > 0 ==> |r| > 0 && IsTrimmed(r)
  {
    if HasThePrefix(s) then
      var r := TrimLeft(s[3..]);
      assert IsTrimmed(s) ==> !IsSpace(s[|s| - 1]);
      r
    else s
  }

  /** The state lookup key of a trimmed, non-empty cell: the "the " prefix dropped, `&`
      spelled "and", every whitespace run made one space, in lower case. */
  function StateKey(t: string): (k: string)
    requires IsTrimmed(t) && |t| > 0
    ensures |k| > 0 && Collapsed(k) && IsTrimmed(k) && IsLowerCased(k)
    ensures '&' !in k
  {
    var a := StripThe(t);
    var b := ReplaceChar(a, '&', "and");
    ReplaceCharEnds(a, '&', "and");
    var c := CollapseWs(b);
    LowerKeepsShape(c);
    Lower(c)
  }

  /** Lower-casing keeps the spaces of a string where they are and adds no `&`. */
  lemma LowerKeepsShape(c: string)
    requires Collapsed(c) && IsTrimmed(c)
    ensures Collapsed(Lower(c)) && IsTrimmed(Lower(c)) && IsLowerCased(Lower(c))
    ensures '&' !in c ==> '&' !in Lower(c)
  {
    var k := Lower(c);
    forall i | 0 <= i < |k| ensures (k[i] == '&' ==> c[i] == '&') && (IsSpace(k[i]) <==> IsSpace(c[i])) && (k[i] == ' ' <==> c[i] == ' ') {
      assert k[i] == ToLowerChar(c[i]);
    }
    LowerIsLowerCased(c);
  }

  /** Replacing a non-blank character by a non-empty, non-blank text keeps a trimmed
      string trimmed. */
  lemma {:induction false} ReplaceCharEnds(s: string, c: char, rep: string)
    requires !IsSpace(c) && |rep| > 0 && forall i :: 0 <= i < |rep| ==> !IsSpace(rep[i])
    requires |s| > 0 && IsTrimmed(s)
    ensures |ReplaceChar(s, c, rep)| > 0 && IsTrimmed(ReplaceChar(s, c, rep))
  {
    var r := ReplaceChar(s, c, rep);
    ReplaceCharLast(s, c, rep);
  }

  lemma {:induction false} ReplaceCharLast(s: string, c: char, rep: string)
    requires |rep| > 0 && |s| > 0
    ensures var r := ReplaceChar(s, c, rep);
      |r| > 0 && r[|r| - 1] == (if s[|s| - 1] == c then rep[|rep| - 1] else s[|s| - 1])
  {
    if |s| > 1 {
      ReplaceCharLast(s[1..], c, rep);
    }
  }

  lemma StateExemptLower()
    ensures LowerWords({"and", "of"})
  {
    forall e | e in {"and", "of"} ensures IsLowerCased(e) {
      if e == "and" {
        assert forall i :: 0 <= i < 3 ==> "and"[i] in "and";
      }
    }
  }

  lemma StateAliasValuesNonEmpty(k: string)
    ensures AssocGet(StateAliases, k).Some? ==> |AssocGet(StateAliases, k).value| > 0
  {
    assert ValuesNonEmpty(StateAliases);
    AssocValueNonEmpty(StateAliases, k);
  }

  predicate ValuesNonEmpty(table: seq<(string, string)>) {
    |table| == 0 || (|table[0].1| > 0 && ValuesNonEmpty(table[1..]))
  }

  lemma {:induction false} AssocValueNonEmpty(table: seq<(string, string)>, k: string)
    requires ValuesNonEmpty(table)
    ensures AssocGet(table, k).Some? ==> |AssocGet(table, k).value| > 0
  {
    if |table| > 0 && table[0].0 != k {
      AssocValueNonEmpty(table[1..], k);
    }
  }

  /** `_normalize_state`. */
  function NormalizeState(v: Option<string>): (r: string)
    ensures |r| > 0
    ensures v.None? || Trim(v.value) == [] || IsDigits(Trim(v.value)) ==> r == "Unknown"
    ensures v.Some? && Trim(v.value) != [] && !IsDigits(Trim(v.value)) ==>
      var k := StateKey(Trim(v.value));
      match AssocGet(StateAliases, k)
      case Some(a) => r == a
      case None => Lower(r) == k && TitledWords(r, {"and", "of"})
  {
    if v.None? then "Unknown"
    else
      var t := Trim(v.value);
      if |t| == 0 || IsDigits(t) then "Unknown"
      else
        var k := StateKey(t);
        StateAliasValuesNonEmpty(k);
        match AssocGet(StateAliases, k)
        case Some(a) => a
        case None =>
          var parts := Split(k, ' ');
          StateExemptLower();
          TitleWordsShape(k, {"and", "of"});
          var titled := Join(TitleAll(NonEmpty(parts), {"and", "of"}), " ");
          if |titled| == 0 then "Unknown" else titled
  }

  /** The `&`-keyed aliases can never fire, since `&` is rewritten before the lookup:
      no cleaned key equals them, and "Jammu And Kashmir", which only the `&`-keyed entry
      yields, is never produced. */
  lemma AmpersandAliasesUnreachable(v: Option<string>)
    ensures v.Some? && IsTrimmed(v.value) && |v.value| > 0 ==>
      StateKey(v.value) != "andaman & nicobar islands" && StateKey(v.value) != "jammu & kashmir"
    ensures NormalizeState(v) != "Jammu And Kashmir"
  {
    if v.Some? && IsTrimmed(v.value) && |v.value| > 0 {
      assert "andaman & nicobar islands"[8] == '&';
      assert "jammu & kashmir"[6] == '&';
    }
    var r := NormalizeState(v);
    if r == "Jammu And Kashmir" {
      var t := Trim(v.value);
      var k := StateKey(t);
      if AssocGet(StateAliases, k).Some? {
        JammuAliasKey(k, r);
      } else {
        JammuNotTitled(r);
      }
    }
  }

  lemma JammuAliasKey(k: string, a: string)
    requires (k, a) in StateAliases && a == "Jammu And Kashmir"
    ensures '&' in k
  {
    var i :| 0 <= i < |StateAliases| && StateAliases[i] == (k, a);
    assert i == 10;
    assert k[6] == '&';
  }

  lemma JammuNotTitled(r: string)
    requires r == "Jammu And Kashmir"
    ensures !TitledWords(r, {"and", "of"})
  {
    var w := "And";
    assert w in Split(r, ' ') by { JammuWords(); }
    assert Lower(w) == "and";
    NotTitledBy(r, {"and", "of"}, w);
  }

  /** One exempt word that is not lower-case is enough to break the title rule. */
  lemma NotTitledBy(r: string, exempt: set<string>, w: string)
    requires w in Split(r, ' ') && Lower(w) in exempt && w != Lower(w)
    ensures !TitledWords(r, exempt)
  {
  }

  lemma JammuWords()
    ensures Split("Jammu And Kashmir", ' ') == ["Jammu", "And", "Kashmir"]
  {
    var ws := ["Jammu", "And", "Kashmir"];
    assert ' ' !in ws[0] && ' ' !in ws[1] && ' ' !in ws[2];
    JammuJoin();
    SplitJoin(ws, ' ');
  }

  lemma JammuJoin()
    ensures Join(["Jammu", "And", "Kashmir"], [' ']) == "Jammu And Kashmir"
  {
    var ws := ["Jammu", "And", "Kashmir"];
    assert ws[1..] == ["And", "Kashmir"] && ws[1..][1..] == ["Kashmir"];
  }

  /** The state normaliser is not idempotent: "the " followed by digits (such as
      "the 123") becomes the digits, which are then rejected as a junk value. */
  lemma NormalizeStateNotIdempotent(d: string)
    requires IsDigits(d)
    ensures NormalizeState(Some("the " + d)) == d
    ensures NormalizeState(Some(NormalizeState(Some("the " + d)))) == "Unknown"
  {
    NormalizeTheDigits(d);
    DigitsAreUnknown(d);
  }

  lemma NormalizeTheDigits(d: string)
    requires IsDigits(d)
    ensures NormalizeState(Some("the " + d)) == d
  {
    StateKeyOfTheDigits(d);
    assert !IsDigits("the " + d) by {
      assert !IsDigit(("the " + d)[0]);
    }
    NormalizeToDigitKey("the " + d, d);
  }

  /** A name that is not itself digits but whose key is digits normalises to that key. */
  lemma NormalizeToDigitKey(s: string, d: string)
    requires IsDigits(d) && Trim(s) == s && s != [] && !IsDigits(s) && StateKey(s) == d
    ensures NormalizeState(Some(s)) == d
  {
    StateAliasKeysStartWithLetter();
    AssocGetMissing(StateAliases, d);
    LowerOfDigits(NormalizeState(Some(s)), d);
  }

  /** Digits have no other case: a string that lower-cases to digits is those digits. */
  lemma LowerOfDigits(r: string, d: string)
    requires IsDigits(d) && Lower(r) == d
    ensures r == d
  {
    forall i | 0 <= i < |d| ensures r[i] == d[i] {
      assert Lower(r)[i] == ToLowerChar(r[i]);
    }
  }

  lemma DigitsAreUnknown(r: string)
    requires IsDigits(r)
    ensures NormalizeState(Some(r)) == "Unknown"
  {
    TrimOfTrimmed(r);
  }

  lemma StateAliasKeysStartWithLetter()
    ensures forall e :: e in StateAliases ==> |e.0| > 0 && IsLowerChar(e.0[0])
  {
    assert IsLowerChar(StateAliases[0].0[0]);
    assert IsLowerChar(StateAliases[1].0[0]);
    assert IsLowerChar(StateAliases[2].0[0]);
    assert IsLowerChar(StateAliases[3].0[0]);
    assert IsLowerChar(StateAliases[4].0[0]);
    assert IsLowerChar(StateAliases[5].0[0]);
    assert IsLowerChar(StateAliases[6].0[0]);
    assert IsLowerChar(StateAliases[7].0[0]);
    assert IsLowerChar(StateAliases[8].0[0]);
    assert IsLowerChar(StateAliases[9].0[0]);
    assert IsLowerChar(StateAliases[10].0[0]);
    assert IsLowerChar(StateAliases[11].0[0]);
    assert IsLowerChar(StateAliases[12].0[0]);
  }

  lemma StateKeyOfTheDigits(d: string)
    requires IsDigits(d)
    ensures IsTrimmed("the " + d) && Trim("the " + d) == "the " + d && StateKey("the " + d) == d
  {
    var s := "the " + d;
    TrimOfTrimmed(s);
    StripTheDigits(d);
    DigitsPlain(d);
  }

  lemma StripTheDigits(d: string)
    requires IsDigits(d)
    ensures StripThe("the " + d) == d
  {
    var s := "the " + d;
    assert s[..3] == "the";
    LowerOfLowerCased(s[..3]);
    assert HasThePrefix(s);
    var t := s[3..];
    assert t[1..] == d;
    assert TrimLeft(t) == TrimLeft(t[1..]);
  }

  lemma DigitsPlain(d: string)
    requires IsDigits(d)
    ensures Lower(CollapseWs(ReplaceChar(d, '&', "and"))) == d
  {
    assert '&' !in d by {
      assert forall i :: 0 <= i < |d| ==> d[i] != '&';
    }
    ReplaceCharAbsent(d, '&', "and");
    CollapseOfCollapsed(d);
    LowerOfLowerCased(d);
  }

  lemma {:induction false} AssocGetMissing<V>(table: seq<(string, V)>, k: string)
    requires forall e :: e in table ==> e.0 != k
    ensures AssocGet(table, k).None?
  {
    if |table| > 0 {
      assert table[0] in table;
      AssocGetMissing(table[1..], k);
    }
  }

  // ---------------------------------------------------------------------------------
  // Districts

  /** The punctuation `[.,;:/[]{}]` that the district cleaner turns into spaces. */
  const DistrictPunct: set<char> := {'.', ',', ';', ':', '/', '[', ']', '{', '}'}

  /** Hyphen, en dash and em dash. */
  const Dashes: set<char> := {'-', '\U{2013}', '\U{2014}'}

  /** Characters a cleaned district name never holds apart from plain spaces. */
  const DistrictBad: set<char> := DistrictPunct + (Blanks - {' '})

  /** The characters the district cleaner may remove or turn into spaces. */
  const DistrictDrop: set<char> := Blanks + DistrictPunct + Dashes

  /** The separators at which the title-caser splits a phrase. */
  const WordSeps: set<char> := {' ', '-'}

  /** `re.sub(r"\s*X\s*", rep, s)` where X is any one of the characters xs: every such
      character, with the whitespace around it, becomes rep. */
  function SubAround(s: string, xs: set<char>, rep: string): (r: string)
    ensures forall c :: c in r ==> c in s || c in rep
    decreases |s|
  {
    if |s| == 0 then []
    else
      var t := TrimLeft(s);
      if |t| > 0 && t[0] in xs then
        var u := TrimLeft(t[1..]);
        SuffixChars(s, u);
        rep + SubAround(u, xs, rep)
      else
        assert forall c :: c in s[1..] ==> c in s;
        [s[0]] + SubAround(s[1..], xs, rep)
  }

  lemma SuffixChars(s: string, u: string)
    requires |u| <= |s| && u == s[|s| - |u|..]
    ensures forall c :: c in u ==> c in s
  {
    forall c | c in u ensures c in s {
      var i :| 0 <= i < |u| && u[i] == c;
      assert s[|s| - |u| + i] == c;
    }
  }

  /** The regex `^district\s+` (any case) matches. */
  predicate HasDistrictPrefix(s: string) {
    |s| >= 9 && Lower(s[..8]) == "district" && IsSpace(s[8])
  }

  /** `re.sub(r"^district\s+", "", s, flags=re.IGNORECASE)`: a leading "district" (any
      case) and the whitespace after it are removed, and nothing else; without that label
      the string is left as it is. */
  function StripDistrictPrefix(s: string): (r: string)
    ensures |r| <= |s| && r == s[|s| - |r|..]
    ensures r != s <==> HasDistrictPrefix(s)
    ensures HasDistrictPrefix(s) ==>
      && |r| + 9 <= |s|
      && (forall i :: 8 <= i < |s| - |r| ==> IsSpace(s[i]))
      && (|r| == 0 || !IsSpace(r[0]))
  {
    if HasDistrictPrefix(s) then
      TrimLeftDropsSpace(s[8..]);
      TrimLeft(s[8..])
    else s
  }

  /** The regex `\s+district\s*$` (any case) matches the string whose trailing whitespace
      has been dropped. */
  predicate HasDistrictSuffix(u: string) {
    |u| >= 9 && Lower(u[|u| - 8..]) == "district" && IsSpace(u[|u| - 9])
  }

  /** `re.sub(r"\s+district\s*$", "", s, flags=re.IGNORECASE)`: a trailing "district" (any
      case), the whitespace before it and any whitespace after it are removed, and
      nothing else; without that label the string is left as it is. */
  function StripDistrictSuffix(s: string): (r: string)
    ensures |r| <= |s| && r == s[..|r|]
    ensures r != s <==> HasDistrictSuffix(TrimRight(s))
    ensures HasDistrictSuffix(TrimRight(s)) ==>
      && |r| + 9 <= |TrimRight(s)|
      && (forall i :: |r| <= i < |TrimRight(s)| - 8 ==> IsSpace(s[i]))
      && (|r| == 0 || !IsSpace(r[|r| - 1]))
  {
    var u := TrimRight(s);
    if HasDistrictSuffix(u) then
      var r := TrimRight(u[..|u| - 8]);
      TrimRightDropsSpace(u[..|u| - 8]);
      assert forall i :: |r| <= i < |u| - 8 ==> s[i] == u[..|u| - 8][i];
      r
    else s
  }

  lemma TrimLeftDropsSpace(x: string)
    requires |x| > 0 && IsSpace(x[0])
    ensures |TrimLeft(x)| < |x|
  {
  }

  lemma TrimRightDropsSpace(x: string)
    requires |x| > 0 && IsSpace(x[|x| - 1])
    ensures |TrimRight(x)| < |x|
  {
  }

  /** Lines 78-80 of the cleaner: `&` spelled "and", NBSP made a space and every run of
      whitespace collapsed to one space. Only whitespace moves: every other character
      of the "and"-spelled text is kept, in order. */
  function SpacedDistrict(t: string): (a: string)
    ensures Collapsed(a)
    ensures Kept(a, DistrictDrop) == Kept(ReplaceChar(t, '&', "and"), DistrictDrop)
  {
    var n := ReplaceChar(ReplaceChar(t, '&', "and"), '\U{A0}', " ");
    ReplaceKeeps(ReplaceChar(t, '&', "and"), '\U{A0}', " ", DistrictDrop);
    CollapseKeeps(n, DistrictDrop);
    CollapseWs(n)
  }

  /** Lines 78-91 of the cleaner, applied to the stripped cell: `&` spelled "and", NBSP
      made a space, whitespace collapsed, a leading and a trailing "district" label
      dropped, spacing around dashes and brackets normalised, the punctuation
      `.,;:/[]{}` turned into spaces, whitespace collapsed and the ends stripped. Apart
      from whitespace, dashes and that punctuation, the cleaned text holds exactly the
      characters of the label-stripped text, in order. */
  function CleanDistrictText(t: string): (r: string)
    ensures Collapsed(r) && IsTrimmed(r) && Avoids(r, DistrictBad)
    ensures Kept(r, DistrictDrop) == Kept(StripDistrictSuffix(StripDistrictPrefix(SpacedDistrict(t))), DistrictDrop)
  {
    var b := StripDistrictSuffix(StripDistrictPrefix(SpacedDistrict(t)));
    var c := SubAround(SubAround(SubAround(b, Dashes, "-"), {'('}, " ("), {')'}, ")");
    var d := BlankPunct(c);
    CleanTail(d);
    CleanKeeps(b);
    Trim(CollapseWs(d))
  }

  /** Spacing the dashes and brackets, blanking the punctuation, collapsing and trimming
      keep every character outside `DistrictDrop`, in order. */
  lemma CleanKeeps(b: string)
    ensures var c := SubAround(SubAround(SubAround(b, Dashes, "-"), {'('}, " ("), {')'}, ")");
      Kept(Trim(CollapseWs(BlankPunct(c))), DistrictDrop) == Kept(b, DistrictDrop)
  {
    var c1 := SubAround(b, Dashes, "-");
    var c2 := SubAround(c1, {'('}, " (");
    var c := SubAround(c2, {')'}, ")");
    DashesKeep(b);
    OpenKeeps(c1);
    CloseKeeps(c2);
    BlankTailKeeps(c);
  }

  lemma DashesKeep(b: string)
    ensures Kept(SubAround(b, Dashes, "-"), DistrictDrop) == Kept(b, DistrictDrop)
  {
    forall x | x in Dashes ensures Kept([x], DistrictDrop) == Kept("-", DistrictDrop) {
      KeptNone([x], DistrictDrop);
      KeptNone("-", DistrictDrop);
    }
    SubAroundKeeps(b, Dashes, "-", DistrictDrop);
  }

  lemma OpenKeeps(c: string)
    ensures Kept(SubAround(c, {'('}, " ("), DistrictDrop) == Kept(c, DistrictDrop)
  {
    assert Kept(" (", DistrictDrop) == "(" == Kept(['('], DistrictDrop);
    SubAroundKeeps(c, {'('}, " (", DistrictDrop);
  }

  lemma CloseKeeps(c: string)
    ensures Kept(SubAround(c, {')'}, ")"), DistrictDrop) == Kept(c, DistrictDrop)
  {
    assert Kept(")", DistrictDrop) == Kept([')'], DistrictDrop);
    SubAroundKeeps(c, {')'}, ")", DistrictDrop);
  }

  lemma BlankTailKeeps(c: string)
    ensures Kept(Trim(CollapseWs(BlankPunct(c))), DistrictDrop) == Kept(c, DistrictDrop)
  {
    var d := BlankPunct(c);
    KeptPointwise(d, c, DistrictDrop);
    CollapseKeeps(d, DistrictDrop);
    TrimKeeps(CollapseWs(d), DistrictDrop);
  }

  /** Replacing a character by a string that keeps the same characters keeps them all. */
  lemma {:induction false} ReplaceKeeps(s: string, c: char, rep: string, drop: set<char>)
    requires Kept([c], drop) == Kept(rep, drop)
    ensures Kept(ReplaceChar(s, c, rep), drop) == Kept(s, drop)
  {
    if |s| > 0 {
      ReplaceKeeps(s[1..], c, rep, drop);
      var h := if s[0] == c then rep else [s[0]];
      assert ReplaceChar(s, c, rep) == h + ReplaceChar(s[1..], c, rep);
      KeptAppend(h, ReplaceChar(s[1..], c, rep), drop);
      assert s == [s[0]] + s[1..];
      KeptAppend([s[0]], s[1..], drop);
    }
  }

  /** Two strings of one length that differ only where both hold dropped characters keep
      the same characters. */
  lemma {:induction false} KeptPointwise(a: string, b: string, drop: set<char>)
    requires |a| == |b|
    requires forall i :: 0 <= i < |a| ==> a[i] == b[i] || (a[i] in drop && b[i] in drop)
    ensures Kept(a, drop) == Kept(b, drop)
  {
    if |a| > 0 {
      KeptPointwise(a[1..], b[1..], drop);
    }
  }

  /** `SubAround` keeps the characters outside drop when each replaced character keeps
      what its replacement keeps and whitespace is dropped. */
  lemma {:induction false} SubAroundKeeps(s: string, xs: set<char>, rep: string, drop: set<char>)
    requires Blanks <= drop
    requires forall x :: x in xs ==> Kept([x], drop) == Kept(rep, drop)
    ensures Kept(SubAround(s, xs, rep), drop) == Kept(s, drop)
    decreases |s|
  {
    if |s| > 0 {
      var t := TrimLeft(s);
      if |t| > 0 && t[0] in xs {
        SubAroundKeeps(TrimLeft(t[1..]), xs, rep, drop);
        SubAroundHit(s, xs, rep, drop);
      } else {
        SubAroundKeeps(s[1..], xs, rep, drop);
        SubAroundMiss(s, xs, rep, drop);
      }
    }
  }

  /** One step of SubAroundKeeps where a replaced character is met. */
  lemma SubAroundHit(s: string, xs: set<char>, rep: string, drop: set<char>)
    requires Blanks <= drop && |s| > 0
    requires forall x :: x in xs ==> Kept([x], drop) == Kept(rep, drop)
    requires |TrimLeft(s)| > 0 && TrimLeft(s)[0] in xs
    requires Kept(SubAround(TrimLeft(TrimLeft(s)[1..]), xs, rep), drop) == Kept(TrimLeft(TrimLeft(s)[1..]), drop)
    ensures Kept(SubAround(s, xs, rep), drop) == Kept(s, drop)
  {
    var t := TrimLeft(s);
    var u := TrimLeft(t[1..]);
    TrimLeftKeeps(s, drop);
    TrimLeftKeeps(t[1..], drop);
    assert t == [t[0]] + t[1..];
    KeptAppend([t[0]], t[1..], drop);
    assert SubAround(s, xs, rep) == rep + SubAround(u, xs, rep);
    KeptAppend(rep, SubAround(u, xs, rep), drop);
  }

  /** One step of SubAroundKeeps where the first character is kept as it is. */
  lemma SubAroundMiss(s: string, xs: set<char>, rep: string, drop: set<char>)
    requires |s| > 0 && !(|TrimLeft(s)| > 0 && TrimLeft(s)[0] in xs)
    requires Kept(SubAround(s[1..], xs, rep), drop) == Kept(s[1..], drop)
    ensures Kept(SubAround(s, xs, rep), drop) == Kept(s, drop)
  {
    assert SubAround(s, xs, rep) == [s[0]] + SubAround(s[1..], xs, rep);
    KeptAppend([s[0]], SubAround(s[1..], xs, rep), drop);
    assert s == [s[0]] + s[1..];
    KeptAppend([s[0]], s[1..], drop);
  }

  /** `re.sub(r"[\.,;:/\[\]{}]", " ", s)`. */
  function BlankPunct(c: string): (d: string)
    ensures |d| == |c| && Avoids(d, DistrictPunct)
  {
    seq(|c|, i requires 0 <= i < |c| => if c[i] in DistrictPunct then ' ' else c[i])
  }

  lemma CleanTail(d: string)
    requires Avoids(d, DistrictPunct)
    ensures var r := Trim(CollapseWs(d)); Collapsed(r) && IsTrimmed(r) && Avoids(r, DistrictBad)
  {
    CollapseAvoids(d, DistrictPunct);
    TrimAvoids(CollapseWs(d));
  }

  lemma CollapseAvoids(d: string, bad: set<char>)
    requires Avoids(d, bad) && ' ' !in bad
    ensures Avoids(CollapseWs(d), bad)
  {
    var e := CollapseWs(d);
    forall j | 0 <= j < |e| ensures e[j] !in bad {
      if e[j] != ' ' {
        var i :| 0 <= i < |d| && d[i] == e[j];
      }
    }
  }

  lemma TrimAvoids(e: string)
    requires Collapsed(e) && Avoids(e, DistrictPunct)
    ensures var r := Trim(e); Collapsed(r) && Avoids(r, DistrictBad)
  {
    var r := Trim(e);
    TrimKeepsCollapsed(e);
    forall i | 0 <= i < |r| ensures r[i] !in DistrictBad {
      var j :| 0 <= j < |e| && e[j] == r[i];
      BlanksAreSpaces(r[i]);
    }
  }

  /** Python `re.fullmatch(r"[\W_]+", s)` fails: some character is a letter or a digit. */
  predicate HasAlnum(s: string) {
    exists i :: 0 <= i < |s| && (IsAlphaChar(s[i]) || IsDigit(s[i]))
  }

  /** `_title_token`: digit tokens and the words "and", "of", "the" are kept, every other
      token gets an upper-case first character. */
  function DistrictToken(tok: string): (r: string)
    ensures |r| == |tok| && Lower(r) == Lower(tok)
    ensures IsDigits(tok) || tok in {"and", "of", "the"} ==> r == tok
    ensures !IsDigits(tok) && tok !in {"and", "of", "the"} && |tok| > 0 ==>
      !IsLowerChar(r[0]) && r[1..] == tok[1..]
  {
    if |tok| == 0 then tok
    else if IsDigits(tok) then tok
    else TitleWord(tok, {"and", "of", "the"})
  }

  predicate DistrictCleanWord(w: string) {
    Avoids(w, DistrictBad) && ' ' !in w
  }

  lemma DistrictBadHasNoLetters()
    ensures forall c :: c in DistrictBad ==> !IsAlphaChar(c)
    ensures forall c :: c in DistrictBad + {' '} ==> !IsAlphaChar(c)
  {
  }

  lemma CleanWordNoSpace(w: string)
    requires DistrictCleanWord(w)
    ensures forall i :: 0 <= i < |w| ==> !IsSpace(w[i])
  {
    forall i | 0 <= i < |w| ensures !IsSpace(w[i]) {
      BlanksAreSpaces(w[i]);
      assert w[i] != ' ';
    }
  }

  lemma DistrictTokenClean(tok: string)
    requires DistrictCleanWord(tok)
    ensures DistrictCleanWord(DistrictToken(tok))
  {
    DistrictBadHasNoLetters();
    AvoidsUpToCase(DistrictToken(tok), tok, DistrictBad + {' '});
  }

  /** The tokens of a hyphenated word, title-cased and joined again by "-", empty pieces
      dropped. */
  function HyphenTitle(raw: string): (r: string)
    ensures Folded(r, WordSeps) == Folded(raw, WordSeps)
  {
    var pieces := NonEmpty(Split(raw, '-'));
    var ts := Tokens(pieces);
    SepsFoldAway();
    FoldedJoin(ts, pieces, "-", "-", WordSeps);
    FoldedJoinNonEmpty(Split(raw, '-'), "-", WordSeps);
    JoinSplit(raw, '-');
    Join(ts, "-")
  }

  /** The separators fold to nothing. */
  lemma SepsFoldAway()
    ensures Folded("-", WordSeps) == [] && Folded(" ", WordSeps) == []
  {
    assert Lower("-") == "-" && Lower(" ") == " ";
  }

  lemma HyphenTitleClean(raw: string)
    requires DistrictCleanWord(raw)
    ensures DistrictCleanWord(HyphenTitle(raw))
  {
    HyphenTokensClean(raw);
  }

  lemma HyphenTokensClean(raw: string)
    requires DistrictCleanWord(raw)
    ensures DistrictCleanWord(Join(Tokens(NonEmpty(Split(raw, '-'))), "-"))
  {
    HyphenTokensAvoid(raw);
    HyphenJoinClean(Tokens(NonEmpty(Split(raw, '-'))));
  }

  /** Words free of the bad characters and of spaces, joined by "-", stay so. */
  lemma HyphenJoinClean(ps: seq<string>)
    requires forall k, i :: 0 <= k < |ps| && 0 <= i < |ps[k]| ==> ps[k][i] !in DistrictBad + {' '}
    ensures DistrictCleanWord(Join(ps, "-"))
  {
    JoinAvoids(ps, "-", DistrictBad + {' '});
    CleanOfAvoids(Join(ps, "-"));
  }

  lemma HyphenTokensAvoid(raw: string)
    requires DistrictCleanWord(raw)
    ensures forall k, i :: 0 <= k < |Tokens(NonEmpty(Split(raw, '-')))| && 0 <= i < |Tokens(NonEmpty(Split(raw, '-')))[k]| ==>
      Tokens(NonEmpty(Split(raw, '-')))[k][i] !in DistrictBad + {' '}
  {
    HyphenPiecesClean(raw);
    TokensClean(NonEmpty(Split(raw, '-')));
  }

  lemma CleanOfAvoids(w: string)
    requires forall i :: 0 <= i < |w| ==> w[i] !in DistrictBad + {' '}
    ensures DistrictCleanWord(w)
  {
    assert forall i :: 0 <= i < |w| ==> w[i] != ' ';
  }

  lemma HyphenPiecesClean(raw: string)
    requires DistrictCleanWord(raw)
    ensures forall k :: 0 <= k < |NonEmpty(Split(raw, '-'))| ==> DistrictCleanWord(NonEmpty(Split(raw, '-'))[k])
  {
    var pieces := NonEmpty(Split(raw, '-'));
    SplitPiecesFromString(raw, '-');
    forall k | 0 <= k < |pieces| ensures DistrictCleanWord(pieces[k]) {
      assert pieces[k] in Split(raw, '-');
      assert forall i :: 0 <= i < |pieces[k]| ==> pieces[k][i] in raw;
    }
  }

  lemma TokensClean(ws: seq<string>)
    requires forall k :: 0 <= k < |ws| ==> DistrictCleanWord(ws[k])
    ensures forall k, i :: 0 <= k < |Tokens(ws)| && 0 <= i < |Tokens(ws)[k]| ==> Tokens(ws)[k][i] !in DistrictBad + {' '}
  {
    forall k | 0 <= k < |ws| ensures DistrictCleanWord(Tokens(ws)[k]) {
      DistrictTokenClean(ws[k]);
    }
  }

  /** One space-separated word of a phrase, title-cased. */
  function PhrasePart(raw: string): (r: string)
    ensures Folded(r, WordSeps) == Folded(raw, WordSeps)
  {
    if '-' in raw then HyphenTitle(raw) else DistrictToken(raw)
  }

  lemma PhrasePartClean(raw: string)
    requires DistrictCleanWord(raw)
    ensures DistrictCleanWord(PhrasePart(raw))
  {
    if '-' in raw {
      HyphenTitleClean(raw);
    } else {
      DistrictTokenClean(raw);
    }
  }

  /** The title-cased, non-empty words of a phrase split at single spaces. */
  function PhraseWords(p: string): seq<string> {
    var raws := Split(p, ' ');
    NonEmpty(seq(|raws|, k requires 0 <= k < |raws| => PhrasePart(raws[k])))
  }

  lemma PhraseWordsClean(p: string)
    requires Avoids(p, DistrictBad)
    ensures forall k :: 0 <= k < |PhraseWords(p)| ==> DistrictCleanWord(PhraseWords(p)[k])
  {
    var raws := Split(p, ' ');
    var parts := seq(|raws|, k requires 0 <= k < |raws| => PhrasePart(raws[k]));
    SplitPiecesFromString(p, ' ');
    forall k | 0 <= k < |raws| ensures DistrictCleanWord(parts[k]) {
      assert raws[k] in raws;
      PhrasePartClean(raws[k]);
    }
    var kept := PhraseWords(p);
    forall k | 0 <= k < |kept| ensures DistrictCleanWord(kept[k]) {
      assert kept[k] in parts;
    }
  }

  lemma PhraseWordsSolid(p: string)
    requires Avoids(p, DistrictBad)
    ensures forall k :: 0 <= k < |PhraseWords(p)| ==>
      |PhraseWords(p)[k]| > 0 && forall i :: 0 <= i < |PhraseWords(p)[k]| ==> !IsSpace(PhraseWords(p)[k][i])
  {
    var kept := PhraseWords(p);
    PhraseWordsClean(p);
    forall k | 0 <= k < |kept|
      ensures |kept[k]| > 0 && forall i :: 0 <= i < |kept[k]| ==> !IsSpace(kept[k][i])
    {
      assert kept[k] in kept;
      CleanWordNoSpace(kept[k]);
    }
  }

  /** `_title_phrase`: the space-separated words of the phrase, each title-cased (a
      hyphenated word piece by piece), empty words dropped, joined by single spaces.
      The result is collapsed and trimmed and holds none of the removed characters;
      up to letter case it holds the characters of the phrase other than spaces and
      hyphens, in order. */
  function TitlePhrase(p: string): (r: string)
    requires Avoids(p, DistrictBad)
    ensures Collapsed(r) && IsTrimmed(r) && Avoids(r, DistrictBad)
    ensures Folded(r, WordSeps) == Folded(p, WordSeps)
  {
    var kept := PhraseWords(p);
    PhraseWordsClean(p);
    PhraseWordsSolid(p);
    JoinWordsCollapsed(kept);
    JoinAvoids(kept, " ", DistrictBad);
    PhraseWordsFolded(p);
    Join(kept, " ")
  }

  lemma PhraseWordsFolded(p: string)
    ensures Folded(Join(PhraseWords(p), " "), WordSeps) == Folded(p, WordSeps)
  {
    var raws := Split(p, ' ');
    var parts := seq(|raws|, k requires 0 <= k < |raws| => PhrasePart(raws[k]));
    SepsFoldAway();
    FoldedJoinNonEmpty(parts, " ", WordSeps);
    FoldedJoin(parts, raws, " ", " ", WordSeps);
    JoinSplit(p, ' ');
  }

  /** Without hyphens, the words of a collapsed phrase come out one for one, each
      title-cased by `_title_token`. */
  lemma TitlePhraseWords(p: string)
    requires Avoids(p, DistrictBad) && Collapsed(p) && '-' !in p
    ensures Words(TitlePhrase(p)) == Tokens(Words(p))
  {
    var raws := Split(p, ' ');
    assert Words(p) == NonEmpty(raws) by {
      CollapseOfCollapsed(p);
    }
    assert PhraseWords(p) == Tokens(Words(p)) by {
      PartsAreTokens(p);
      NonEmptyTokens(raws);
    }
    WordsOfTitlePhrase(p);
  }

  /** Splitting the titled phrase into words gives back the titled words. */
  lemma WordsOfTitlePhrase(p: string)
    requires Avoids(p, DistrictBad)
    ensures Words(TitlePhrase(p)) == PhraseWords(p)
  {
    PhraseWordsSolid(p);
    var kept := PhraseWords(p);
    if |kept| > 0 {
      WordsOfJoin(kept);
    } else {
      assert Words("") == [];
    }
  }

  lemma PartsAreTokens(p: string)
    requires '-' !in p
    ensures var raws := Split(p, ' ');
      seq(|raws|, k requires 0 <= k < |raws| => PhrasePart(raws[k])) == Tokens(raws)
  {
    var raws := Split(p, ' ');
    SplitPiecesFromString(p, ' ');
    forall k | 0 <= k < |raws| ensures PhrasePart(raws[k]) == DistrictToken(raws[k]) {
      assert raws[k] in raws;
      assert '-' !in raws[k];
    }
  }

  /** `_title_token` applied to each token. */
  function Tokens(raws: seq<string>): (r: seq<string>)
    ensures |r| == |raws|
    ensures forall k :: 0 <= k < |raws| ==> r[k] == DistrictToken(raws[k])
  {
    seq(|raws|, k requires 0 <= k < |raws| => DistrictToken(raws[k]))
  }

  /** Title-casing keeps lengths, so it keeps exactly the non-empty tokens. */
  lemma {:induction false} NonEmptyTokens(raws: seq<string>)
    ensures NonEmpty(Tokens(raws)) == Tokens(NonEmpty(raws))
  {
    if |raws| > 0 {
      var toks := Tokens(raws);
      var x := raws[0];
      var ne := NonEmpty(raws[1..]);
      TokensTail(raws);
      NonEmptyTokens(raws[1..]);
      var tail := NonEmpty(Tokens(raws[1..]));
      assert NonEmpty(toks) == (if |x| > 0 then [DistrictToken(x)] else []) + tail;
      assert NonEmpty(raws) == (if |x| > 0 then [x] else []) + ne;
      if |x| > 0 {
        TokensCons(x, ne);
      }
    }
  }

  lemma TokensTail(raws: seq<string>)
    requires |raws| > 0
    ensures Tokens(raws)[1..] == Tokens(raws[1..])
    ensures Tokens(raws)[0] == DistrictToken(raws[0])
  {
  }

  lemma TokensCons(x: string, ne: seq<string>)
    ensures Tokens([x] + ne) == [DistrictToken(x)] + Tokens(ne)
  {
  }

  /** Position of the "(" at which `re.fullmatch(r"(.+?)\s*\((.+)\)", s)` splits s: the
      first "(" after position 0, provided at least one character separates it from a
      ")" that ends s. */
  function ParenAt(s: string): (r: Option<nat>)
    ensures r.Some? ==>
      (1 <= r.value <= |s| - 3 && s[r.value] == '(' && s[|s| - 1] == ')'
       && forall i :: 1 <= i < r.value ==> s[i] != '(')
    ensures r.None? ==> |s| < 4 || s[|s| - 1] != ')' || forall i :: 1 <= i <= |s| - 3 ==> s[i] != '('
  {
    if |s| < 4 || s[|s| - 1] != ')' then None
    else
      match FindFrom(s, '(', 1)
      case Some(j) => if j <= |s| - 3 then Some(j) else None
      case None => None
  }

  /** Index of the first c in s at or after position from. */
  function FindFrom(s: string, c: char, from: nat): (r: Option<nat>)
    ensures r.Some? ==>
      (from <= r.value < |s| && s[r.value] == c && forall i :: from <= i < r.value ==> s[i] != c)
    ensures r.None? ==> forall i :: from <= i < |s| ==> s[i] != c
    decreases |s| - from
  {
    if from >= |s| then None
    else if s[from] == c then Some(from)
    else FindFrom(s, c, from + 1)
  }

  predicate DistrictShaped(s: string) {
    Collapsed(s) && IsTrimmed(s) && Avoids(s, DistrictBad)
  }

  /** Lines 125-134: a name ending in a parenthesised part is title-cased on each side of
      the "(", a short alphabetic inside (at most three letters) upper-cased; any other
      name is title-cased as one phrase. Up to letter case, the title holds the
      characters of the name other than spaces and hyphens, in order. */
  function DistrictTitle(s: string): (r: string)
    requires DistrictShaped(s)
    ensures |r| > 0 && DistrictShaped(r)
    ensures Folded(s, WordSeps) != [] ==> Folded(r, WordSeps) == Folded(s, WordSeps)
  {
    match ParenAt(s)
    case Some(j) => ParenTitle(s, j)
    case None =>
      UnknownShaped();
      var t := TitlePhrase(s);
      assert Folded("", WordSeps) == [];
      if |t| == 0 then "Unknown" else t
  }

  lemma UnknownShaped()
    ensures DistrictShaped("Unknown")
  {
    var u := "Unknown";
    assert forall i :: 0 <= i < |u| ==> IsAlphaChar(u[i]);
    DistrictBadHasNoLetters();
  }

  /** The parenthesised case: `left (inside)` with left the text before the "(" at j. */
  function ParenTitle(s: string, j: nat): (r: string)
    requires DistrictShaped(s) && 1 <= j <= |s| - 2 && s[j] == '(' && s[|s| - 1] == ')'
    ensures |r| > 0 && DistrictShaped(r)
    ensures Folded(r, WordSeps) == Folded(s, WordSeps)
  {
    ParenSidesAvoid(s, j);
    var left := TitlePhrase(Trim(s[..j]));
    var inside := InsideTitle(Trim(s[j + 1..|s| - 1]));
    ParenTitleFolds(s, j, left, inside);
    ParenFolded(left, inside);
    Parenthesize(left, inside)
  }

  /** The two title-cased sides fold, with the brackets between, like the whole name. */
  lemma ParenTitleFolds(s: string, j: nat, left: string, inside: string)
    requires 1 <= j <= |s| - 2 && s[j] == '(' && s[|s| - 1] == ')' && PlainSpaces(s)
    requires Folded(left, WordSeps) == Folded(Trim(s[..j]), WordSeps)
    requires Folded(inside, WordSeps) == Folded(Trim(s[j + 1..|s| - 1]), WordSeps)
    ensures Folded(left, WordSeps) + "(" + Folded(inside, WordSeps) + ")" == Folded(s, WordSeps)
  {
    SideFolds(s, j + 1, |s| - 1, inside);
    LeftFolds(s, j, left);
    FoldedAroundParen(s, j);
  }

  lemma LeftFolds(s: string, j: nat, left: string)
    requires PlainSpaces(s) && j <= |s|
    requires Folded(left, WordSeps) == Folded(Trim(s[..j]), WordSeps)
    ensures Folded(left, WordSeps) == Folded(s[..j], WordSeps)
  {
    forall i | 0 <= i < j && IsSpace(s[..j][i]) ensures s[..j][i] in WordSeps {
      assert s[..j][i] == s[i];
    }
    TrimFolded(s[..j], WordSeps);
  }

  /** A title-cased side folds like the untrimmed slice it came from. */
  lemma SideFolds(s: string, a: int, b: int, side: string)
    requires PlainSpaces(s) && 0 <= a <= b <= |s|
    requires Folded(side, WordSeps) == Folded(Trim(s[a..b]), WordSeps)
    ensures Folded(side, WordSeps) == Folded(s[a..b], WordSeps)
  {
    SpacesAreSeps(s, a, b);
    TrimFolded(s[a..b], WordSeps);
  }

  /** The first half of Collapsed: the only whitespace is the plain space. */
  predicate PlainSpaces(s: string) {
    forall i :: 0 <= i < |s| && IsSpace(s[i]) ==> s[i] == ' '
  }

  /** The only whitespace in a collapsed name is the plain space. */
  lemma SpacesAreSeps(s: string, a: int, b: int)
    requires PlainSpaces(s) && 0 <= a <= b <= |s|
    ensures forall i :: 0 <= i < b - a && IsSpace(s[a..b][i]) ==> s[a..b][i] in WordSeps
  {
    forall i | 0 <= i < b - a && IsSpace(s[a..b][i]) ensures s[a..b][i] in WordSeps {
      assert s[a..b][i] == s[a + i];
    }
  }

  /** A name with a "(" at j and a ")" at its end folds as its two sides with the
      brackets between. */
  lemma FoldedAroundParen(s: string, j: nat)
    requires 1 <= j <= |s| - 2 && s[j] == '(' && s[|s| - 1] == ')'
    ensures Folded(s, WordSeps) == Folded(s[..j], WordSeps) + "(" + Folded(s[j + 1..|s| - 1], WordSeps) + ")"
  {
    var a, b := s[..j], s[j + 1..|s| - 1];
    assert s == a + "(" + b + ")";
    BracketsFold();
    FoldedAppend(a + "(" + b, ")", WordSeps);
    FoldedAppend(a + "(", b, WordSeps);
    FoldedAppend(a, "(", WordSeps);
  }

  lemma BracketsFold()
    ensures Folded("(", WordSeps) == "(" && Folded(" (", WordSeps) == "(" && Folded(")", WordSeps) == ")"
  {
    assert Lower("(") == "(" && Lower(")") == ")" && Lower(" (") == " (";
    assert Kept(" (", WordSeps) == Kept("(", WordSeps);
  }

  /** `left (inside)` folds as left and the inside with the brackets between. */
  lemma ParenFolded(left: string, insideNorm: string)
    requires DistrictShaped(left) && DistrictShaped(insideNorm)
    ensures Folded(Parenthesize(left, insideNorm), WordSeps)
      == Folded(left, WordSeps) + "(" + Folded(insideNorm, WordSeps) + ")"
  {
    BracketsFold();
    if |left| > 0 {
      FoldedAppend(left + " (" + insideNorm, ")", WordSeps);
      FoldedAppend(left + " (", insideNorm, WordSeps);
      FoldedAppend(left, " (", WordSeps);
    } else {
      FoldedAppend("(" + insideNorm, ")", WordSeps);
      FoldedAppend("(", insideNorm, WordSeps);
      assert Folded(left, WordSeps) == [];
    }
  }

  /** `f"{left} ({inside_norm})".strip() or "Unknown"`: both sides are already trimmed,
      so the strip only drops the space before "(" when left is empty, and the result is
      never empty. */
  function Parenthesize(left: string, insideNorm: string): (r: string)
    requires DistrictShaped(left) && DistrictShaped(insideNorm)
    ensures |r| > 0 && DistrictShaped(r)
    ensures |left| > 0 ==> r == left + " (" + insideNorm + ")"
    ensures |left| == 0 ==> r == "(" + insideNorm + ")"
  {
    ParenShape(left, insideNorm);
    ParenTrim(left, insideNorm);
    var r := Trim(left + " (" + insideNorm + ")");
    if |r| == 0 then "Unknown" else r
  }

  lemma ParenTrim(left: string, insideNorm: string)
    requires IsTrimmed(left)
    ensures |left| > 0 ==> Trim(left + " (" + insideNorm + ")") == left + " (" + insideNorm + ")"
    ensures |left| == 0 ==> Trim(left + " (" + insideNorm + ")") == "(" + insideNorm + ")"
  {
    var w := left + " (" + insideNorm + ")";
    var x := "(" + insideNorm + ")";
    assert IsTrimmed(x);
    TrimOfTrimmed(x);
    if |left| > 0 {
      assert w[0] == left[0];
      assert IsTrimmed(w);
      TrimOfTrimmed(w);
    } else {
      assert w == " " + x;
      assert w[1..] == x;
      assert TrimLeft(w) == TrimLeft(x);
    }
  }

  lemma TrimSliceAvoids(s: string, a: int, b: int)
    requires 0 <= a <= b <= |s| && Avoids(s, DistrictBad)
    ensures Avoids(Trim(s[a..b]), DistrictBad)
  {
    SliceAvoids(s, a, b);
    TrimKeepsAvoids(s[a..b]);
  }

  lemma SliceAvoids(s: string, a: int, b: int)
    requires 0 <= a <= b <= |s| && Avoids(s, DistrictBad)
    ensures Avoids(s[a..b], DistrictBad)
  {
    forall i | 0 <= i < b - a ensures s[a..b][i] !in DistrictBad {
      assert s[a..b][i] == s[a + i];
    }
  }

  lemma TrimKeepsAvoids(u: string)
    requires Avoids(u, DistrictBad)
    ensures Avoids(Trim(u), DistrictBad)
  {
    var t := Trim(u);
    forall i | 0 <= i < |t| ensures t[i] !in DistrictBad {
      assert t[i] in u;
    }
  }

  /** The normalised inside of a parenthesised part: a short alphabetic inside (at most
      three letters) upper-cased, any other title-cased as a phrase; either way it folds
      like the inside. */
  function InsideTitle(inside: string): (r: string)
    requires Avoids(inside, DistrictBad)
    ensures DistrictShaped(r)
    ensures Folded(r, WordSeps) == Folded(inside, WordSeps)
    ensures IsAlphaString(inside) && |inside| <= 3 ==> r == Upper(inside)
  {
    if IsAlphaString(inside) && |inside| <= 3 then
      UpperAlphaShaped(inside);
      LowerOfUpper(inside);
      Upper(inside)
    else TitlePhrase(inside)
  }

  lemma UpperAlphaShaped(w: string)
    requires IsAlphaString(w)
    ensures DistrictShaped(Upper(w))
  {
    var u := Upper(w);
    forall i | 0 <= i < |u| ensures IsAlphaChar(u[i]) {
      assert u[i] == ToUpperChar(w[i]);
    }
    DistrictBadHasNoLetters();
  }

  lemma ParenShape(left: string, insideNorm: string)
    requires DistrictShaped(left) && DistrictShaped(insideNorm)
    ensures DistrictShaped(Trim(left + " (" + insideNorm + ")"))
  {
    ParenCollapsed(left, insideNorm);
    var whole := left + " (" + insideNorm + ")";
    forall i | 0 <= i < |whole| ensures whole[i] !in DistrictBad {
      if i >= |left| + 2 && i < |left| + 2 + |insideNorm| {
        assert whole[i] == insideNorm[i - |left| - 2];
      } else if i < |left| {
        assert whole[i] == left[i];
      }
    }
    TrimAvoidsBad(whole);
  }

  lemma ParenCollapsed(left: string, insideNorm: string)
    requires Collapsed(left) && IsTrimmed(left) && Collapsed(insideNorm)
    ensures Collapsed(left + " (" + insideNorm + ")")
  {
    var a := left + " (";
    assert Collapsed(" (");
    CollapsedConcat(left, " (");
    assert a[|a| - 1] == '(';
    CollapsedConcat(a, insideNorm);
    var b := a + insideNorm;
    assert Collapsed(")");
    CollapsedConcat(b, ")");
  }

  lemma TrimAvoidsBad(w: string)
    requires Collapsed(w) && Avoids(w, DistrictBad)
    ensures DistrictShaped(Trim(w))
  {
    TrimKeepsCollapsed(w);
    forall i | 0 <= i < |Trim(w)| ensures Trim(w)[i] !in DistrictBad {
      assert Trim(w)[i] in w;
    }
  }

  /** A short alphabetic code in a closing parenthesis is upper-cased: the title ends
      with "(" + the code in capitals + ")", as "aurangabad (bh)" ends in "(BH)". */
  lemma ParenCodeUpper(s: string, j: nat)
    requires DistrictShaped(s) && ParenAt(s) == Some(j)
    requires IsAlphaString(Trim(s[j + 1..|s| - 1])) && |Trim(s[j + 1..|s| - 1])| <= 3
    ensures EndsWith(DistrictTitle(s), "(" + Upper(Trim(s[j + 1..|s| - 1])) + ")")
  {
    var code := Trim(s[j + 1..|s| - 1]);
    ParenSidesAvoid(s, j);
    assert DistrictTitle(s) == Parenthesize(TitlePhrase(Trim(s[..j])), InsideTitle(code)) by {
      assert DistrictTitle(s) == ParenTitle(s, j);
      ParenTitleParts(s, j);
    }
    assert InsideTitle(code) == Upper(code);
    ParenthesizeTail(TitlePhrase(Trim(s[..j])), Upper(code));
  }

  lemma ParenSidesAvoid(s: string, j: nat)
    requires Avoids(s, DistrictBad) && 1 <= j <= |s| - 2
    ensures Avoids(Trim(s[..j]), DistrictBad) && Avoids(Trim(s[j + 1..|s| - 1]), DistrictBad)
  {
    TrimSliceAvoids(s, 0, j);
    TrimSliceAvoids(s, j + 1, |s| - 1);
  }

  lemma ParenTitleParts(s: string, j: nat)
    requires DistrictShaped(s) && 1 <= j <= |s| - 2 && s[j] == '(' && s[|s| - 1] == ')'
    requires Avoids(Trim(s[..j]), DistrictBad) && Avoids(Trim(s[j + 1..|s| - 1]), DistrictBad)
    ensures ParenTitle(s, j) == Parenthesize(TitlePhrase(Trim(s[..j])), InsideTitle(Trim(s[j + 1..|s| - 1])))
  {
  }

  /** The parenthesised part survives the final strip. */
  lemma ParenthesizeTail(left: string, insideNorm: string)
    requires DistrictShaped(left) && DistrictShaped(insideNorm)
    ensures EndsWith(Parenthesize(left, insideNorm), "(" + insideNorm + ")")
  {
    ParenRegroup(left, insideNorm);
  }

  lemma ParenRegroup(left: string, code: string)
    ensures left + " (" + code + ")" == (left + " ") + ("(" + code + ")")
  {
    var w := left + " (" + code + ")";
    assert |w| == |left| + 1 + (|code| + 2);
    forall i | 0 <= i < |w| ensures w[i] == ((left + " ") + ("(" + code + ")"))[i] {
      if i > |left| + 1 + |code| {
      } else if i > |left| + 1 {
        assert w[i] == code[i - |left| - 2];
      } else if i < |left| {
        assert w[i] == left[i];
      }
    }
  }

  /** `variant_map.get(lower, lower)`: a listed spelling is replaced by its canonical
      one, any other name is kept; the canonical spellings are district-shaped and hold
      a letter. */
  function CanonicalDistrict(lower: string): (r: string)
    ensures AssocGet(DistrictVariants, lower).None? ==> r == lower
    ensures AssocGet(DistrictVariants, lower).Some? ==> (lower, r) in DistrictVariants
    ensures DistrictShaped(lower) ==> DistrictShaped(r)
    ensures HasAlnum(lower) ==> HasAlnum(r)
  {
    match AssocGet(DistrictVariants, lower)
    case Some(x) =>
      VariantsShaped();
      x
    case None => lower
  }

  /** Every canonical spelling in the variant table is district-shaped and holds a letter. */
  lemma VariantsShaped()
    ensures forall e :: e in DistrictVariants ==> DistrictShaped(e.1) && HasAlnum(e.1)
  {
    LettersShaped("angul");
    LettersShaped("aurangabad");
    LettersShaped("bh");
    BracketedShaped("aurangabad", "bh");
    assert "aurangabad (bh)" == "aurangabad" + " (" + "bh" + ")";
  }

  lemma LettersShaped(w: string)
    requires |w| > 0 && forall i :: 0 <= i < |w| ==> IsAlphaChar(w[i])
    ensures DistrictShaped(w) && HasAlnum(w)
  {
    DistrictBadHasNoLetters();
    assert IsAlphaChar(w[0]);
  }

  /** `left (inside)` of two letter-only words is district-shaped. */
  lemma BracketedShaped(left: string, inside: string)
    requires |left| > 0 && forall i :: 0 <= i < |left| ==> IsAlphaChar(left[i])
    requires |inside| > 0 && forall i :: 0 <= i < |inside| ==> IsAlphaChar(inside[i])
    ensures DistrictShaped(left + " (" + inside + ")") && HasAlnum(left + " (" + inside + ")")
  {
    var s := left + " (" + inside + ")";
    var n := |left|;
    DistrictBadHasNoLetters();
    forall i | 0 <= i < |s| ensures IsAlphaChar(s[i]) || s[i] in {' ', '(', ')'}
    {
      if i < n { assert s[i] == left[i]; }
      else if n + 1 < i < |s| - 1 { assert s[i] == inside[i - n - 2]; }
    }
    forall i | 0 <= i < |s| - 1 ensures !(s[i] == ' ' && s[i + 1] == ' ')
    {
      if i < n { assert s[i] == left[i]; }
    }
    assert IsAlphaChar(s[0]);
  }

  /** A name holding a letter or digit never folds to nothing. */
  lemma AlnumFolds(s: string)
    requires HasAlnum(s)
    ensures Folded(s, WordSeps) != []
  {
    var i :| 0 <= i < |s| && (IsAlphaChar(s[i]) || IsDigit(s[i]));
    var l := Lower(s);
    assert l == l[..i] + [l[i]] + l[i + 1..];
    KeptAppend(l[..i] + [l[i]], l[i + 1..], WordSeps);
    KeptAppend(l[..i], [l[i]], WordSeps);
    assert l[i] == ToLowerChar(s[i]) && l[i] !in WordSeps;
  }

  /** Lower-casing does not change how a name folds. */
  lemma LowerFolds(s: string)
    ensures Folded(Lower(s), WordSeps) == Folded(s, WordSeps)
  {
    LowerIsLowerCased(s);
    LowerOfLowerCased(Lower(s));
  }

  /** `_normalize_district`. Missing, blank and punctuation-only cells give "Unknown";
      any other cell gives a title that, up to letter case and the placement of spaces
      and hyphens, is its cleaned text after the variant table. */
  function NormalizeDistrict(v: Option<string>): (r: string)
    ensures |r| > 0 && DistrictShaped(r)
    ensures v.None? || Trim(v.value) == [] || !HasAlnum(CleanDistrictText(Trim(v.value))) ==> r == "Unknown"
    ensures v.Some? && Trim(v.value) != [] && HasAlnum(CleanDistrictText(Trim(v.value))) ==>
      Folded(r, WordSeps) == Folded(CanonicalDistrict(Lower(CleanDistrictText(Trim(v.value)))), WordSeps)
  {
    UnknownShaped();
    if v.None? then "Unknown"
    else
      var t := Trim(v.value);
      if |t| == 0 then "Unknown"
      else
        var s := CleanDistrictText(t);
        if !HasAlnum(s) then "Unknown"
        else
          LowerShaped(s);
          var canon := CanonicalDistrict(Lower(s));
          AlnumFolds(canon);
          DistrictTitle(canon)
  }

  /** Lower-casing a cleaned name keeps it district-shaped and holding a letter. */
  lemma LowerShaped(s: string)
    requires DistrictShaped(s) && HasAlnum(s)
    ensures DistrictShaped(Lower(s)) && HasAlnum(Lower(s))
  {
    var lower := Lower(s);
    LowerKeepsShape(s);
    DistrictBadHasNoLetters();
    LowerOfLowerCased(lower);
    AvoidsUpToCase(lower, s, DistrictBad);
    LowerKeepsAlnum(s);
  }

  lemma LowerKeepsAlnum(s: string)
    requires HasAlnum(s)
    ensures HasAlnum(Lower(s))
  {
    var i :| 0 <= i < |s| && (IsAlphaChar(s[i]) || IsDigit(s[i]));
    assert Lower(s)[i] == ToLowerChar(s[i]);
  }

  /** A name outside the variant table keeps, up to letter case and the placement of
      spaces and hyphens, exactly the characters of its cleaned text. */
  lemma NormalizeDistrictKeeps(v: string)
    requires Trim(v) != [] && HasAlnum(CleanDistrictText(Trim(v)))
    requires AssocGet(DistrictVariants, Lower(CleanDistrictText(Trim(v)))).None?
    ensures Folded(NormalizeDistrict(Some(v)), WordSeps) == Folded(CleanDistrictText(Trim(v)), WordSeps)
  {
    LowerFolds(CleanDistrictText(Trim(v)));
  }
}
