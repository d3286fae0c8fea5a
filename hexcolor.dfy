/**
  The `#RRGGBB` colour notation of CSS Color Module Level 4 (section 5.2, hex
  colours) as the editor converts to and from it: `rgbToHex` maps each channel
  in [0, 1] to `Math.round(c * 255).toString(16)` padded to two digits, and
  `hexToRgb` reads characters 1-2, 3-4 and 5-6 with `parseInt(_, 16)` and
  divides by 255. `parseInt` is modelled with its ECMAScript steps (leading
  whitespace, sign, optional `0x`, longest run of hex digits, NaN when there
  is none); NaN is `None`.
 */
module HexColor {
  import opened Wrappers
  import opened JsStrings
  import opened Config

  /** `Math.round`: the nearest integer, halves rounded up. */
  function Round(x: real): int
  {
    (x + 0.5).Floor
  }

  predicate IsHexDigit(c: char)
  {
    ('0' <= c <= '9') || ('a' <= c <= 'f') || ('A' <= c <= 'F')
  }

  function DigitValue(c: char): (d: nat)
    requires IsHexDigit(c)
    ensures d < 16
  {
    if '0' <= c <= '9' then (c - '0') as nat
    else if 'a' <= c <= 'f' then (c - 'a') as nat + 10
    else (c - 'A') as nat + 10
  }

  /** The lower-case digit `Number.prototype.toString(16)` writes for `d`. */
  function HexDigit(d: nat): (c: char)
    requires d < 16
    ensures IsHexDigit(c) && DigitValue(c) == d && !('A' <= c <= 'F')
  {
    if d < 10 then ('0' as int + d) as char else ('a' as int + d - 10) as char
  }

  /** `n.toString(16)` for a non-negative integer: no leading zeros. */
  function NatToHex(n: nat): (s: string)
    ensures |s| >= 1
  {
    if n < 16 then [HexDigit(n)] else NatToHex(n / 16) + [HexDigit(n % 16)]
  }

  /** `n.toString(16)` for any integer. */
  function IntToHex(n: int): string
  {
    if n < 0 then "-" + NatToHex(-n) else NatToHex(n)
  }

  /** The inner `toHex` of `rgbToHex`. */
  function ChannelToHex(c: real): string
  {
    var hex := IntToHex(Round(c * 255.0));
    if |hex| == 1 then "0" + hex else hex
  }

  function RgbToHex(rgb: Rgb): string
  {
    "#" + ChannelToHex(rgb.r) + ChannelToHex(rgb.g) + ChannelToHex(rgb.b)
  }

  /** The two lower-case digits of a byte value. */
  function TwoDigits(n: nat): string
    requires n < 256
  {
    [HexDigit(n / 16), HexDigit(n % 16)]
  }

  /** A channel in [0, 1] becomes exactly two lower-case digits: the byte nearest to c * 255. */
  lemma ChannelToHexInRange(c: real)
    requires InUnitRange(c)
    ensures 0 <= Round(c * 255.0) < 256
    ensures ChannelToHex(c) == TwoDigits(Round(c * 255.0))
  {
    var n := Round(c * 255.0);
    assert 0 <= n <= 255;
    if n >= 16 {
      assert NatToHex(n / 16) == [HexDigit(n / 16)];
    }
  }

  /**
    For channels in [0, 1], `rgbToHex` writes `#` and six lower-case hex digits,
    two per channel, each pair the rounded byte value of the channel.
   */
  lemma RgbToHexShape(rgb: Rgb)
    requires RgbInUnitRange(rgb)
    ensures var h := RgbToHex(rgb);
      |h| == 7 && h[0] == '#' &&
      (forall k :: 1 <= k < 7 ==> IsHexDigit(h[k]) && !('A' <= h[k] <= 'F')) &&
      h[1..3] == TwoDigits(Round(rgb.r * 255.0)) &&
      h[3..5] == TwoDigits(Round(rgb.g * 255.0)) &&
      h[5..7] == TwoDigits(Round(rgb.b * 255.0))
  {
    ChannelToHexInRange(rgb.r);
    ChannelToHexInRange(rgb.g);
    ChannelToHexInRange(rgb.b);
    var r, g, b := Round(rgb.r * 255.0), Round(rgb.g * 255.0), Round(rgb.b * 255.0);
    assert RgbToHex(rgb) == "#" + TwoDigits(r) + TwoDigits(g) + TwoDigits(b);
    DigitsShape(r, g, b);
  }

  /** `#` and three bytes' digit pairs: seven characters, six of them lower-case hex digits. */
  lemma DigitsShape(r: nat, g: nat, b: nat)
    requires r < 256 && g < 256 && b < 256
    ensures var h := "#" + TwoDigits(r) + TwoDigits(g) + TwoDigits(b);
      |h| == 7 && h[0] == '#' &&
      (forall k :: 1 <= k < 7 ==> IsHexDigit(h[k]) && !('A' <= h[k] <= 'F')) &&
      h[1..3] == TwoDigits(r) && h[3..5] == TwoDigits(g) && h[5..7] == TwoDigits(b)
  {
  }

  /** The longest run of hex digits at the start of `s` and its value. */
  function HexRun(s: string): (r: (nat, nat))
    ensures r.0 <= |s|
  {
    HexRunFrom(s, 0, 0)
  }

  function HexRunFrom(s: string, i: nat, acc: nat): (r: (nat, nat))
    requires i <= |s|
    decreases |s| - i
    ensures i <= r.0 <= |s|
  {
    if i < |s| && IsHexDigit(s[i]) then HexRunFrom(s, i + 1, acc * 16 + DigitValue(s[i]))
    else (i, acc)
  }

  /** `parseInt(s, 16)`; `None` stands for NaN. */
  function ParseIntHex(s: string): Option<int>
  {
    var t := TrimStart(s);
    var negative := |t| > 0 && t[0] == '-';
    var u := if |t| > 0 && (t[0] == '-' || t[0] == '+') then t[1..] else t;
    var v := if |u| >= 2 && u[0] == '0' && (u[1] == 'x' || u[1] == 'X') then u[2..] else u;
    var run := HexRun(v);
    if run.0 == 0 then None
    else Some(if negative then -(run.1 as int) else run.1 as int)
  }

  /** The three channels `hexToRgb` returns; a `None` channel is NaN. */
  datatype Channels = Channels(r: Option<real>, g: Option<real>, b: Option<real>)

  function ChannelOf(part: string): Option<real>
  {
    match ParseIntHex(part)
    case Some(n) => Some(n as real / 255.0)
    case None => None
  }

  function HexToRgb(hex: string): Channels
  {
    Channels(ChannelOf(Slice(hex, 1, 3)), ChannelOf(Slice(hex, 3, 5)), ChannelOf(Slice(hex, 5, 7)))
  }

  /** A `#RRGGBB` string, digits in either case. */
  predicate IsHexColor(h: string)
  {
    |h| == 7 && h[0] == '#' && IsHexDigit(h[1]) && IsHexDigit(h[2]) && IsHexDigit(h[3]) &&
    IsHexDigit(h[4]) && IsHexDigit(h[5]) && IsHexDigit(h[6])
  }

  /** The byte value of a pair of hex digits. */
  function PairValue(a: char, b: char): (n: nat)
    requires IsHexDigit(a) && IsHexDigit(b)
    ensures n < 256
  {
    DigitValue(a) * 16 + DigitValue(b)
  }

  /** Two hex digits parse to their value. */
  lemma ParsePair(a: char, b: char)
    requires IsHexDigit(a) && IsHexDigit(b)
    ensures ParseIntHex([a, b]) == Some(PairValue(a, b))
    ensures ChannelOf([a, b]) == Some(PairValue(a, b) as real / 255.0)
  {
    var s := [a, b];
    assert !IsSpace(a);
    assert TrimStart(s) == s;
    assert !(s[1] == 'x' || s[1] == 'X');
    assert HexRunFrom(s, 2, PairValue(a, b)) == (2, PairValue(a, b));
    assert HexRunFrom(s, 1, DigitValue(a)) == (2, PairValue(a, b));
    assert HexRun(s) == (2, PairValue(a, b));
  }

  /** The byte written as the two hex digits at positions i and i + 1. */
  function ByteAt(h: string, i: nat): (n: nat)
    requires i + 2 <= |h| && IsHexDigit(h[i]) && IsHexDigit(h[i + 1])
    ensures n < 256
  {
    PairValue(h[i], h[i + 1])
  }

  /** The channel read from characters i and i + 1 of a string holding two hex digits there. */
  lemma SliceChannel(h: string, i: nat)
    requires i + 2 <= |h| && IsHexDigit(h[i]) && IsHexDigit(h[i + 1])
    ensures ChannelOf(Slice(h, i, i + 2)) == Some(ByteAt(h, i) as real / 255.0)
  {
    assert Slice(h, i, i + 2) == [h[i], h[i + 1]];
    ParsePair(h[i], h[i + 1]);
  }

  /** For a well-formed `#RRGGBB`, each channel is its digit pair's value over 255, so it lies in [0, 1]. */
  lemma HexToRgbWellFormed(h: string)
    requires IsHexColor(h)
    ensures var c := HexToRgb(h);
      c.r == Some(ByteAt(h, 1) as real / 255.0) &&
      c.g == Some(ByteAt(h, 3) as real / 255.0) &&
      c.b == Some(ByteAt(h, 5) as real / 255.0) &&
      InUnitRange(c.r.value) && InUnitRange(c.g.value) && InUnitRange(c.b.value)
  {
    RedChannel(h);
    GreenChannel(h);
    BlueChannel(h);
  }

  lemma RedChannel(h: string)
    requires 3 <= |h| && IsHexDigit(h[1]) && IsHexDigit(h[2])
    ensures HexToRgb(h).r == Some(ByteAt(h, 1) as real / 255.0) && InUnitRange(ByteAt(h, 1) as real / 255.0)
  {
    HexToRgbParts(h);
    ChannelFacts(h, 1, 3);
  }

  lemma GreenChannel(h: string)
    requires 5 <= |h| && IsHexDigit(h[3]) && IsHexDigit(h[4])
    ensures HexToRgb(h).g == Some(ByteAt(h, 3) as real / 255.0) && InUnitRange(ByteAt(h, 3) as real / 255.0)
  {
    HexToRgbParts(h);
    ChannelFacts(h, 3, 5);
  }

  lemma BlueChannel(h: string)
    requires 7 <= |h| && IsHexDigit(h[5]) && IsHexDigit(h[6])
    ensures HexToRgb(h).b == Some(ByteAt(h, 5) as real / 255.0) && InUnitRange(ByteAt(h, 5) as real / 255.0)
  {
    HexToRgbParts(h);
    ChannelFacts(h, 5, 7);
  }

  lemma ChannelFacts(h: string, i: nat, j: nat)
    requires j == i + 2 && j <= |h| && IsHexDigit(h[i]) && IsHexDigit(h[i + 1])
    ensures ChannelOf(Slice(h, i, j)) == Some(ByteAt(h, i) as real / 255.0)
    ensures InUnitRange(ByteAt(h, i) as real / 255.0)
  {
    SliceChannel(h, i);
    ByteFraction(ByteAt(h, i));
  }

  lemma HexToRgbParts(h: string)
    ensures HexToRgb(h).r == ChannelOf(Slice(h, 1, 3))
    ensures HexToRgb(h).g == ChannelOf(Slice(h, 3, 5))
    ensures HexToRgb(h).b == ChannelOf(Slice(h, 5, 7))
  {
  }

  /** A byte over 255 is a fraction in [0, 1]. */
  lemma ByteFraction(n: nat)
    requires n < 256
    ensures InUnitRange(n as real / 255.0)
  {
  }

  /** A byte over 255 is written back as the byte's two digits. */
  lemma ByteToHex(n: nat)
    requires n < 256
    ensures Round((n as real / 255.0) * 255.0) == n
    ensures ChannelToHex(n as real / 255.0) == TwoDigits(n)
  {
    assert (n as real / 255.0) * 255.0 == n as real;
    ByteFraction(n);
    ChannelToHexInRange(n as real / 255.0);
  }

  /** A byte value survives `/ 255`, `* 255` and rounding, and its two digits parse back to it. */
  lemma ByteRoundTrip(n: nat)
    requires n < 256
    ensures Round((n as real / 255.0) * 255.0) == n
    ensures ChannelToHex(n as real / 255.0) == TwoDigits(n)
    ensures ChannelOf(TwoDigits(n)) == Some(n as real / 255.0)
  {
    ByteToHex(n);
    var h := TwoDigits(n);
    SliceChannel(h, 0);
    assert Slice(h, 0, 2) == h;
    assert ByteAt(h, 0) == n;
  }

  /** Byte-valued channels are written as their two-digit hex forms. */
  lemma RgbToHexBytes(r: nat, g: nat, b: nat)
    requires r < 256 && g < 256 && b < 256
    ensures RgbToHex(Rgb(r as real / 255.0, g as real / 255.0, b as real / 255.0))
         == "#" + TwoDigits(r) + TwoDigits(g) + TwoDigits(b)
  {
    var rgb := Rgb(r as real / 255.0, g as real / 255.0, b as real / 255.0);
    assert RgbToHex(rgb) == "#" + ChannelToHex(rgb.r) + ChannelToHex(rgb.g) + ChannelToHex(rgb.b);
    ByteToHex(r);
    ByteToHex(g);
    ByteToHex(b);
  }

  /** Byte-valued channels round-trip: `hexToRgb(rgbToHex([r, g, b] / 255)) == [r, g, b] / 255`. */
  lemma ByteColorRoundTrip(r: nat, g: nat, b: nat)
    requires r < 256 && g < 256 && b < 256
    ensures HexToRgb(RgbToHex(Rgb(r as real / 255.0, g as real / 255.0, b as real / 255.0)))
         == Channels(Some(r as real / 255.0), Some(g as real / 255.0), Some(b as real / 255.0))
  {
    var rgb := Rgb(r as real / 255.0, g as real / 255.0, b as real / 255.0);
    var h := "#" + TwoDigits(r) + TwoDigits(g) + TwoDigits(b);
    RgbToHexBytes(r, g, b);
    assert RgbToHex(rgb) == h;
    assert h[1..3] == TwoDigits(r) && h[3..5] == TwoDigits(g) && h[5..7] == TwoDigits(b);
    assert IsHexColor(h);
    assert ByteAt(h, 1) == r && ByteAt(h, 3) == g && ByteAt(h, 5) == b;
    HexToRgbBytes(h, r, g, b);
  }

  lemma HexToRgbBytes(h: string, r: nat, g: nat, b: nat)
    requires IsHexColor(h) && ByteAt(h, 1) == r && ByteAt(h, 3) == g && ByteAt(h, 5) == b
    ensures HexToRgb(h) == Channels(Some(r as real / 255.0), Some(g as real / 255.0), Some(b as real / 255.0))
  {
    RedChannel(h);
    GreenChannel(h);
    BlueChannel(h);
  }

  /** ASCII lower-casing, which is all `toLowerCase` does to hex digits and `#`. */
  function LowerChar(c: char): char
  {
    if 'A' <= c <= 'F' then (c as int + 32) as char else c
  }

  function Lower(s: string): (r: string)
    ensures |r| == |s| && forall k :: 0 <= k < |s| ==> r[k] == LowerChar(s[k])
  {
    if s == [] then [] else [LowerChar(s[0])] + Lower(s[1..])
  }

  lemma HexDigitOfValue(c: char)
    requires IsHexDigit(c)
    ensures HexDigit(DigitValue(c)) == LowerChar(c)
  {
  }

  /** Re-writing the value of a digit pair gives the pair back, lower-cased. */
  lemma PairDigits(a: char, b: char)
    requires IsHexDigit(a) && IsHexDigit(b)
    ensures TwoDigits(PairValue(a, b)) == [LowerChar(a), LowerChar(b)]
  {
    var n := PairValue(a, b);
    assert n / 16 == DigitValue(a) && n % 16 == DigitValue(b);
    HexDigitOfValue(a);
    HexDigitOfValue(b);
  }

  /** Lower-casing a `#RRGGBB` lower-cases each digit pair in place. */
  lemma LowerHexColor(h: string, t1: string, t2: string, t3: string)
    requires IsHexColor(h)
    requires t1 == [LowerChar(h[1]), LowerChar(h[2])]
    requires t2 == [LowerChar(h[3]), LowerChar(h[4])]
    requires t3 == [LowerChar(h[5]), LowerChar(h[6])]
    ensures Lower(h) == "#" + t1 + t2 + t3
  {
    var out := "#" + t1 + t2 + t3;
    assert |out| == 7;
    forall k | 0 <= k < 7
      ensures out[k] == Lower(h)[k]
    {
    }
  }

  /** A well-formed `#RRGGBB` comes back lower-cased from `rgbToHex(hexToRgb(h))`. */
  lemma HexColorRoundTrip(h: string)
    requires IsHexColor(h)
    ensures var c := HexToRgb(h);
      c.r.Some? && c.g.Some? && c.b.Some? &&
      RgbToHex(Rgb(c.r.value, c.g.value, c.b.value)) == Lower(h)
  {
    var r, g, b := ByteAt(h, 1), ByteAt(h, 3), ByteAt(h, 5);
    HexToRgbBytes(h, r, g, b);
    RgbToHexBytes(r, g, b);
    PairDigits(h[1], h[2]);
    PairDigits(h[3], h[4]);
    PairDigits(h[5], h[6]);
    LowerHexColor(h, TwoDigits(r), TwoDigits(g), TwoDigits(b));
    var c := HexToRgb(h);
    var rgb := Rgb(c.r.value, c.g.value, c.b.value);
    assert rgb == Rgb(r as real / 255.0, g as real / 255.0, b as real / 255.0);
    assert RgbToHex(rgb) == "#" + TwoDigits(r) + TwoDigits(g) + TwoDigits(b);
  }
}
