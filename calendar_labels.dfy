/** The calendar's cell labels and ridge colours
    (uidai-dashboard/src/components/charts/CalendarHeatmap.jsx): `formatShortNumber`, the
    weekday palette `dayColor` and `hexToRgba`'s reading of a colour's channels. Numbers are
    exact reals; `String` of a number is its decimal digits. */
module CalendarLabels {
  import opened Common
  import opened Text

  /** `String(i)` for an integer. */
  function IntToString(i: int): (s: string)
    ensures |s| > 0 && IsDigit(s[|s| - 1])
  {
    if i < 0 then "-" + NatToString(-i) else NatToString(i)
  }

  /** `formatShortNumber`: millions to one decimal with a trailing ".0" dropped and an "M",
      thousands rounded with a "K", smaller numbers rounded, and 0 as the empty label. */
  function FormatShort(n: real): (s: string)
    ensures s == "" <==> n == 0.0
  {
    if n >= 1000000.0 then
      var k := Round(n / 100000.0);
      (if k % 10 == 0 then IntToString(k / 10) else IntToString(k / 10) + "." + IntToString(k % 10)) + "M"
    else if n >= 1000.0 then IntToString(Round(n / 1000.0)) + "K"
    else if n == 0.0 then ""
    else IntToString(Round(n))
  }

  /** The number a label stands for: n rounded to the precision the label shows. */
  function Shown(n: real): real {
    if n >= 1000000.0 then Round(n / 100000.0) as real * 100000.0
    else if n >= 1000.0 then Round(n / 1000.0) as real * 1000.0
    else Round(n) as real
  }

  /** Reads a label: the empty label is 0; otherwise an optional "-", digits, an optional
      "." and one digit, and an optional "K" (thousands) or "M" (millions) suffix. */
  function ReadLabel(s: string): Option<real> {
    if |s| == 0 then Some(0.0)
    else if s[|s| - 1] == 'M' then Times(ReadNumber(s[..|s| - 1]), 1000000.0)
    else if s[|s| - 1] == 'K' then Times(ReadNumber(s[..|s| - 1]), 1000.0)
    else ReadNumber(s)
  }

  function Times(x: Option<real>, unit: real): Option<real> {
    match x
    case None => None
    case Some(v) => Some(v * unit)
  }

  function ReadNumber(s: string): Option<real> {
    if |s| > 0 && s[0] == '-' then
      match ReadUnsigned(s[1..])
      case None => None
      case Some(v) => Some(-v)
    else ReadUnsigned(s)
  }

  function ReadUnsigned(s: string): Option<real> {
    if IsDigits(s) then Some(DigitsValue(s) as real)
    else if |s| >= 3 && s[|s| - 2] == '.' && IsDigits(s[..|s| - 2]) && IsDigit(s[|s| - 1]) then
      Some(DigitsValue(s[..|s| - 2]) as real + (s[|s| - 1] as int - 48) as real / 10.0)
    else None
  }

  lemma ReadDigits(x: nat)
    ensures ReadUnsigned(NatToString(x)) == Some(x as real)
    ensures ReadNumber(NatToString(x)) == Some(x as real)
  {
    NatToStringRoundTrip(x);
  }

  lemma ReadInt(i: int)
    ensures ReadNumber(IntToString(i)) == Some(i as real)
  {
    if i < 0 {
      ReadDigits(-i);
      assert IntToString(i)[1..] == NatToString(-i);
    } else {
      ReadDigits(i);
    }
  }

  /** A digit d printed after "q." reads back as q + d / 10. */
  lemma ReadTenths(q: nat, d: nat)
    requires d < 10
    ensures ReadNumber(NatToString(q) + "." + NatToString(d)) == Some(q as real + d as real / 10.0)
  {
    var c := (48 + d) as char;
    assert NatToString(d) == [c];
    ReadPointed(NatToString(q), c);
    NatToStringRoundTrip(q);
  }

  /** Digits, a point and one digit read as the whole part plus tenths. */
  lemma ReadPointed(p: string, c: char)
    requires |p| > 0 && IsDigits(p) && IsDigit(c)
    ensures ReadNumber(p + "." + [c]) == Some(DigitsValue(p) as real + (c as int - 48) as real / 10.0)
  {
    var s := p + "." + [c];
    assert s[..|p|] == p;
    ReadPointedAt(s, p, c);
  }

  lemma ReadPointedAt(s: string, p: string, c: char)
    requires |p| > 0 && IsDigits(p) && IsDigit(c)
    requires |s| == |p| + 2 && s[..|p|] == p && s[|p|] == '.' && s[|p| + 1] == c
    ensures ReadNumber(s) == Some(DigitsValue(p) as real + (c as int - 48) as real / 10.0)
  {
    assert s[0] == p[0];
    assert !IsDigit(s[|p|]);
  }

  /** Reading a label back gives the number rounded to the label's precision. */
  lemma FormatShortReadsBack(n: real)
    ensures ReadLabel(FormatShort(n)) == Some(Shown(n))
  {
    var s := FormatShort(n);
    if n >= 1000000.0 {
      var k := Round(n / 100000.0);
      assert k >= 10;
      var body := s[..|s| - 1];
      if k % 10 == 0 {
        assert body == IntToString(k / 10);
        ReadInt(k / 10);
        assert (k / 10) as real * 1000000.0 == k as real * 100000.0;
      } else {
        assert body == NatToString(k / 10) + "." + NatToString(k % 10);
        ReadTenths(k / 10, k % 10);
        assert ((k / 10) as real + (k % 10) as real / 10.0) * 1000000.0 == k as real * 100000.0;
      }
    } else if n >= 1000.0 {
      assert s[..|s| - 1] == IntToString(Round(n / 1000.0));
      ReadInt(Round(n / 1000.0));
    } else if n != 0.0 {
      ReadInt(Round(n));
    }
  }

  /** Rounding moves a number by at most half a unit. */
  lemma RoundIsClose(x: real)
    ensures x - 0.5 < Round(x) as real <= x + 0.5
  {
  }

  /** A label is off by at most half the unit it shows: 50000 for millions, 500 for
      thousands, 0.5 below that. */
  lemma ShownIsClose(n: real)
    ensures n >= 1000000.0 ==> Abs(Shown(n) - n) <= 50000.0
    ensures 1000.0 <= n < 1000000.0 ==> Abs(Shown(n) - n) <= 500.0
    ensures n < 1000.0 ==> Abs(Shown(n) - n) <= 0.5
  {
    RoundIsClose(n / 100000.0);
    RoundIsClose(n / 1000.0);
    RoundIsClose(n);
  }

  /** `dayColor`'s palette, Monday first. */
  const Palette: seq<string> := ["#b91c1c", "#c2410c", "#d97706", "#ca8a04", "#65a30d", "#0ea5e9", "#6366f1"]

  /** `dayColor`: the palette colour of a weekday index, cycling every seven. */
  function DayColor(dayIndex: nat): (c: string)
    ensures c in Palette
  {
    Palette[dayIndex % |Palette|]
  }

  /** The seven ridges get seven different colours. */
  lemma DayColorsDistinct(i: nat, j: nat)
    requires i < j < 7
    ensures DayColor(i) != DayColor(j)
  {
    DayColorInWeek(i);
    DayColorInWeek(j);
    PaletteDistinct(i, j);
  }

  lemma DayColorInWeek(i: nat)
    requires i < 7
    ensures DayColor(i) == Palette[i]
  {
    assert i % 7 == i;
  }

  /** The palette colours differ in their first two digits. */
  lemma PaletteDistinct(i: nat, j: nat)
    requires i < j < 7
    ensures Palette[i] != Palette[j]
  {
    assert Palette[0][1] == 'b' && Palette[1][1] == 'c' && Palette[2][1] == 'd' && Palette[3][1] == 'c';
    assert Palette[4][1] == '6' && Palette[5][1] == '0' && Palette[6][1] == '6';
    assert Palette[1][2] == '2' && Palette[3][2] == 'a' && Palette[4][2] == '5' && Palette[6][2] == '3';
  }

  predicate IsHexDigit(c: char) {
    '0' <= c <= '9' || 'a' <= c <= 'f' || 'A' <= c <= 'F'
  }

  function HexDigit(c: char): (v: nat)
    requires IsHexDigit(c)
    ensures v < 16
  {
    if '0' <= c <= '9' then c as int - 48
    else if 'a' <= c <= 'f' then c as int - 87
    else c as int - 55
  }

  /** The number of leading hexadecimal digits. */
  function HexRun(s: string): (n: nat)
    ensures n <= |s|
    ensures forall i :: 0 <= i < n ==> IsHexDigit(s[i])
    ensures n < |s| ==> !IsHexDigit(s[n])
  {
    if |s| > 0 && IsHexDigit(s[0]) then 1 + HexRun(s[1..]) else 0
  }

  function HexValue(s: string): (v: nat)
    requires forall i :: 0 <= i < |s| ==> IsHexDigit(s[i])
  {
    if |s| == 0 then 0 else 16 * HexValue(s[..|s| - 1]) + HexDigit(s[|s| - 1])
  }

  function Pow16(n: nat): nat {
    if n == 0 then 1 else 16 * Pow16(n - 1)
  }

  lemma {:induction false} HexValueBelow(s: string)
    requires forall i :: 0 <= i < |s| ==> IsHexDigit(s[i])
    ensures HexValue(s) < Pow16(|s|)
  {
    if |s| > 0 {
      HexValueBelow(s[..|s| - 1]);
    }
  }

  /** `Number.parseInt(s, 16)`: leading whitespace, an optional sign and an optional "0x"
      are skipped, then the leading hexadecimal digits are read; None (NaN) when there are
      none. */
  function ParseHex(s: string): (r: Option<int>) {
    var t := TrimLeft(s);
    var negative := |t| > 0 && t[0] == '-';
    match ReadHexRun(DropHexPrefix(DropSign(t)))
    case None => None
    case Some(x) => if negative then Some(-x) else Some(x)
  }

  function DropSign(t: string): (u: string)
    ensures |u| <= |t|
  {
    if |t| > 0 && (t[0] == '-' || t[0] == '+') then t[1..] else t
  }

  function DropHexPrefix(u: string): (v: string)
    ensures |v| <= |u|
  {
    if |u| >= 2 && u[0] == '0' && (u[1] == 'x' || u[1] == 'X') then u[2..] else u
  }

  /** The value of the leading hexadecimal digits, None when there are none. */
  function ReadHexRun(v: string): (r: Option<int>)
    ensures r.Some? ==> 0 <= r.value < Pow16(|v|)
  {
    var n := HexRun(v);
    HexValueBelow(v[..n]);
    Pow16Monotone(n, |v|);
    if n == 0 then None else Some(HexValue(v[..n]))
  }

  lemma {:induction false} Pow16Monotone(a: nat, b: nat)
    requires a <= b
    ensures Pow16(a) <= Pow16(b)
    decreases b
  {
    if a < b {
      Pow16Monotone(a, b - 1);
    }
  }

  /** A string of at most two characters reads as a number from -255 to 255. */
  lemma ShortHexIsByte(s: string)
    requires |s| <= 2
    ensures ParseHex(s).Some? ==> -255 <= ParseHex(s).value <= 255
  {
    var v := DropHexPrefix(DropSign(TrimLeft(s)));
    assert Pow16(2) == 256;
    Pow16Monotone(|v|, 2);
  }

  /** JavaScript `slice(a, b)` with indices clamped to the string. */
  function Slice(s: string, a: nat, b: nat): (r: string)
    ensures |r| <= b - a || b < a
  {
    var lo := if a <= |s| then a else |s|;
    var hi := if b <= |s| then b else |s|;
    if lo <= hi then s[lo..hi] else ""
  }

  /** `hex.replace("#", "")`: the first '#' removed. */
  function RemoveFirst(s: string, c: char): (r: string)
    ensures c in s ==> |r| == |s| - 1
    ensures c !in s ==> r == s
  {
    if |s| == 0 then s
    else if s[0] == c then s[1..]
    else [s[0]] + RemoveFirst(s[1..], c)
  }

  /** `hexToRgba`'s red, green and blue: the first three pairs of characters after the
      '#' read in base 16. */
  function Channels(hex: string): (rgb: (Option<int>, Option<int>, Option<int>)) {
    var raw := RemoveFirst(hex, '#');
    (ParseHex(Slice(raw, 0, 2)), ParseHex(Slice(raw, 2, 4)), ParseHex(Slice(raw, 4, 6)))
  }

  /** "#" followed by six hexadecimal digits. */
  predicate WellFormedColour(hex: string) {
    |hex| == 7 && hex[0] == '#' && forall i :: 1 <= i < 7 ==> IsHexDigit(hex[i])
  }

  /** Two hexadecimal digits read as their value. */
  lemma PairValue(p: string)
    requires |p| == 2 && IsHexDigit(p[0]) && IsHexDigit(p[1])
    ensures ParseHex(p) == Some(HexValue(p) as int)
  {
    PairBare(p);
    PairRun(p);
  }

  /** Two hexadecimal digits have no leading space, sign or "0x" to skip. */
  lemma PairBare(p: string)
    requires |p| == 2 && IsHexDigit(p[0]) && IsHexDigit(p[1])
    ensures TrimLeft(p) == p && DropHexPrefix(DropSign(p)) == p && p[0] != '-'
  {
  }

  lemma PairRun(p: string)
    requires |p| == 2 && IsHexDigit(p[0]) && IsHexDigit(p[1])
    ensures ReadHexRun(p) == Some(HexValue(p) as int)
  {
    assert HexRun(p[1..][1..]) == 0;
    assert HexRun(p) == 2;
    assert p[..2] == p;
  }

  lemma PairDigits(p: string)
    requires |p| == 2 && IsHexDigit(p[0]) && IsHexDigit(p[1])
    ensures HexValue(p) == 16 * HexDigit(p[0]) + HexDigit(p[1])
  {
    var q := p[..1];
    assert q[0] == p[0] && q[..0] == [];
    assert HexValue(q) == HexDigit(p[0]);
    assert HexValue(p) == 16 * HexValue(q) + HexDigit(p[1]);
  }

  lemma SliceOfSeven(hex: string, a: nat)
    requires |hex| == 7 && hex[0] == '#' && a <= 4
    ensures Slice(RemoveFirst(hex, '#'), a, a + 2) == hex[a + 1..a + 3]
  {
    assert RemoveFirst(hex, '#') == hex[1..];
  }

  lemma ChannelSlices(hex: string)
    requires |hex| == 7 && hex[0] == '#'
    ensures Channels(hex) == (ParseHex(hex[1..3]), ParseHex(hex[3..5]), ParseHex(hex[5..7]))
  {
    SliceOfSeven(hex, 0);
    SliceOfSeven(hex, 2);
    SliceOfSeven(hex, 4);
  }

  /** The value of the two hexadecimal digits at a and a + 1 of a well-formed colour. */
  function DigitPair(hex: string, a: nat): nat
    requires WellFormedColour(hex) && 1 <= a <= 5
  {
    HexValue(hex[a..a + 2])
  }

  /** A well-formed colour gives each channel as the value of its two digits, between 0
      and 255. */
  lemma ChannelsOfWellFormed(hex: string)
    requires WellFormedColour(hex)
    ensures Channels(hex) == (Some(DigitPair(hex, 1) as int), Some(DigitPair(hex, 3) as int), Some(DigitPair(hex, 5) as int))
    ensures DigitPair(hex, 1) == 16 * HexDigit(hex[1]) + HexDigit(hex[2]) <= 255
    ensures DigitPair(hex, 3) == 16 * HexDigit(hex[3]) + HexDigit(hex[4]) <= 255
    ensures DigitPair(hex, 5) == 16 * HexDigit(hex[5]) + HexDigit(hex[6]) <= 255
  {
    PairAt(hex, 1);
    PairAt(hex, 3);
    PairAt(hex, 5);
    ChannelSlices(hex);
  }

  lemma PairAt(hex: string, a: nat)
    requires WellFormedColour(hex) && 1 <= a <= 5
    ensures ParseHex(hex[a..a + 2]) == Some(HexValue(hex[a..a + 2]) as int)
    ensures HexValue(hex[a..a + 2]) == 16 * HexDigit(hex[a]) + HexDigit(hex[a + 1]) <= 255
  {
    var p := hex[a..a + 2];
    assert p[0] == hex[a] && p[1] == hex[a + 1];
    PairValue(p);
    PairDigits(p);
  }

  /** Every weekday colour is well formed, so every ridge gets a real fill colour. */
  lemma DayColorChannels(dayIndex: nat)
    ensures WellFormedColour(DayColor(dayIndex))
    ensures Channels(DayColor(dayIndex)).0.Some? && Channels(DayColor(dayIndex)).1.Some? && Channels(DayColor(dayIndex)).2.Some?
  {
    var c := DayColor(dayIndex);
    assert WellFormedColour(c);
    ChannelsOfWellFormed(c);
  }
}
