/**
 * Colour utilities: `#RRGGBB` colours to HSL and back, the WCAG contrast
 * ratio of two colours, and the adjustment that raises the contrast of a
 * generated colour combination. Channels are read from the fixed slices
 * [1, 3), [3, 5) and [5, 7) of the string, in base 16, and scaled to [0, 1].
 */
module ColorUtils {
  import opened Wrappers
  import opened JsNumber
  import opened JsHex

  datatype Rgb = Rgb(r: real, g: real, b: real)
  datatype Hsl = Hsl(h: real, s: real, l: real)

  /** A colour written `#` and six hex digits. */
  predicate IsHexColor(s: string) {
    |s| == 7 && s[0] == '#' && forall i :: 1 <= i < 7 ==> IsHexDigit(s[i])
  }

  /** A colour as `hslToHex` writes it: six lower-case hex digits. */
  predicate IsLowerHexColor(s: string) {
    IsHexColor(s) && forall i :: 1 <= i < 7 ==> !('A' <= s[i] <= 'F')
  }

  /** A channel read from two characters is at least -15/255 (the slice
      `-f`). */
  predicate AboveChannelFloor(c: Rgb) {
    -15.0 / 255.0 <= c.r && -15.0 / 255.0 <= c.g && -15.0 / 255.0 <= c.b
  }

  predicate InUnitCube(c: Rgb) {
    0.0 <= c.r <= 1.0 && 0.0 <= c.g <= 1.0 && 0.0 <= c.b <= 1.0
  }

  /** `s.slice(from, to)` for `from <= to`: both ends are clamped to the length. */
  function Slice(s: string, from: nat, to: nat): (r: string)
    requires from <= to
    ensures |r| <= to - from
  {
    if |s| <= from then [] else if |s| <= to then s[from..] else s[from..to]
  }

  /** One channel: `parseInt(hex.slice(from, from + 2), 16) / 255`. */
  function Channel(hex: string, from: nat): (r: Option<real>)
    ensures r.Some? ==> -15.0 / 255.0 <= r.value <= 1.0
  {
    var slice := Slice(hex, from, from + 2);
    ParseShort(slice);
    match ParseIntHex(slice)
    case None => None
    case Some(v) => Some(v as real / 255.0)
  }

  /** The three channels of a colour string; `None` when a slice holds no
      hex digit (JavaScript's NaN). */
  function ReadRgb(hex: string): (r: Option<Rgb>)
    ensures IsHexColor(hex) ==> r.Some? && InUnitCube(r.value)
    ensures r.Some? ==> AboveChannelFloor(r.value)
  {
    ChannelsOfHexColor(hex);
    match (Channel(hex, 1), Channel(hex, 3), Channel(hex, 5))
    case (Some(r), Some(g), Some(b)) => Some(Rgb(r, g, b))
    case _ => None
  }

  /** `Math.max` and `Math.min` of three numbers. */
  function Max3(a: real, b: real, c: real): (m: real)
    ensures m == a || m == b || m == c
    ensures a <= m && b <= m && c <= m
  {
    if a >= b && a >= c then a else if b >= c then b else c
  }

  function Min3(a: real, b: real, c: real): (m: real)
    ensures m == a || m == b || m == c
    ensures m <= a && m <= b && m <= c
  {
    if a <= b && a <= c then a else if b <= c then b else c
  }

  /** The HSL body of `hexToHsl`: hue in degrees, saturation and lightness
      in [0, 1]. The hue follows the first channel equal to the maximum. */
  function RgbToHsl(c: Rgb): (r: Hsl)
    requires InUnitCube(c)
    ensures r.l == (Max3(c.r, c.g, c.b) + Min3(c.r, c.g, c.b)) / 2.0
    ensures Max3(c.r, c.g, c.b) == Min3(c.r, c.g, c.b) ==> r.h == 0.0 && r.s == 0.0
  {
    var max := Max3(c.r, c.g, c.b);
    var min := Min3(c.r, c.g, c.b);
    var l := (max + min) / 2.0;
    if max == min then Hsl(0.0, 0.0, l)
    else
      var d := max - min;
      var s := if l > 0.5 then d / (2.0 - max - min) else d / (max + min);
      var h :=
        if max == c.r then (c.g - c.b) / d + (if c.g < c.b then 6.0 else 0.0)
        else if max == c.g then (c.b - c.r) / d + 2.0
        else (c.r - c.g) / d + 4.0;
      Hsl((h / 6.0) * 360.0, s, l)
  }

  /** `hexToHsl` on a `#RRGGBB` colour. */
  function HexToHsl(hex: string): (r: Hsl)
    requires IsHexColor(hex)
    ensures 0.0 <= r.h < 360.0 && 0.0 <= r.s <= 1.0 && 0.0 <= r.l <= 1.0
  {
    var c := ReadRgb(hex).value;
    HslRanges(c);
    RgbToHsl(c)
  }

  /** The piecewise-linear channel curve of `hslToHex`, on an argument
      first brought into [0, 1] by one step of 1 where needed. */
  function Hue2Rgb(p: real, q: real, t0: real): real {
    Curve(p, q, WrapUnit(t0))
  }

  function WrapUnit(t0: real): real {
    var t1 := if t0 < 0.0 then t0 + 1.0 else t0;
    if t1 > 1.0 then t1 - 1.0 else t1
  }

  function Curve(p: real, q: real, t: real): real {
    if t < 1.0 / 6.0 then p + (q - p) * 6.0 * t
    else if t < 1.0 / 2.0 then q
    else if t < 2.0 / 3.0 then p + (q - p) * (2.0 / 3.0 - t) * 6.0
    else p
  }

  /** The two curve levels: `q` is the maximum channel, `p` the minimum. */
  function UpperLevel(s: real, l: real): real {
    if l < 0.5 then l * (1.0 + s) else l + s - l * s
  }

  function HslToRgb(h: real, s: real, l: real): Rgb {
    var hh := h / 360.0;
    if s == 0.0 then Rgb(l, l, l)
    else
      var q := UpperLevel(s, l);
      var p := 2.0 * l - q;
      Rgb(Hue2Rgb(p, q, hh + 1.0 / 3.0), Hue2Rgb(p, q, hh), Hue2Rgb(p, q, hh - 1.0 / 3.0))
  }

  /** A channel as two hex digits: rounded, written in base 16 and padded
      with a leading zero when it has a single digit. */
  function ToHex(c: real): string {
    var hex := ToHexString(Round(c * 255.0));
    if |hex| == 1 then "0" + hex else hex
  }

  function HslToHex(h: real, s: real, l: real): string {
    var c := HslToRgb(h, s, l);
    "#" + ToHex(c.r) + ToHex(c.g) + ToHex(c.b)
  }

  // ---------------------------------------------------------------------
  // Reading channels.

  /** The channel a pair of hex digits stands for. */
  function PairValue(pair: string): real {
    HexValue(pair) as real / 255.0
  }

  /** A pair of hex digits is read as its value over 255. */
  lemma ChannelOfPair(hex: string, from: nat) returns (c: real)
    requires from + 2 <= |hex| && IsHexDigit(hex[from]) && IsHexDigit(hex[from + 1])
    ensures Channel(hex, from) == Some(c)
    ensures c == PairValue(hex[from..from + 2])
  {
    var pair := hex[from..from + 2];
    assert pair[0] == hex[from] && pair[1] == hex[from + 1];
    var v := HexValue(pair);
    ParseNonNegative(pair);
    c := v as real / 255.0;
    PairChannel(hex, from, v, c);
  }

  lemma PairChannel(hex: string, from: nat, v: int, c: real)
    requires from + 2 <= |hex| && ParseIntHex(hex[from..from + 2]) == Some(v) && c == v as real / 255.0
    ensures Channel(hex, from) == Some(c)
  {
    SliceInside(hex, from, from + 2);
  }

  lemma SliceInside(s: string, from: nat, to: nat)
    requires from <= to <= |s|
    ensures Slice(s, from, to) == s[from..to]
  {
  }

  lemma ChannelsOfHexColor(hex: string)
    ensures IsHexColor(hex) ==>
      && Channel(hex, 1).Some? && Channel(hex, 3).Some? && Channel(hex, 5).Some?
      && 0.0 <= Channel(hex, 1).value && 0.0 <= Channel(hex, 3).value && 0.0 <= Channel(hex, 5).value
  {
    if IsHexColor(hex) {
      var r := ChannelOfPair(hex, 1);
      var g := ChannelOfPair(hex, 3);
      var b := ChannelOfPair(hex, 5);
    }
  }

  /** The short form `#RGB` is not read: its last slice is empty, so the
      blue channel is NaN. */
  lemma ShortFormUnreadable(hex: string)
    requires |hex| == 4
    ensures ReadRgb(hex) == None
  {
    var empty: string := [];
    assert Slice(hex, 5, 7) == empty;
    assert TrimStart(empty) == empty;
    assert ParseMagnitude(empty) == None by {
      assert HexRunLength(empty) == 0;
    }
    assert ParseIntHex(empty) == None;
    assert Channel(hex, 5) == None;
  }

  // ---------------------------------------------------------------------
  // Ranges of the HSL conversion.

  lemma QuotientInUnit(x: real, d: real)
    requires 0.0 < d && -d <= x <= d
    ensures -1.0 <= x / d <= 1.0
    ensures x < 0.0 ==> x / d < 0.0
    ensures 0.0 <= x ==> 0.0 <= x / d
  {
    var q := x / d;
    assert q * d == x;
    if q > 1.0 {
      MulMonoStrict(1.0, q, d);
    }
    if q < -1.0 {
      MulMonoStrict(q, -1.0, d);
    }
    if x < 0.0 && q >= 0.0 {
      NonNegProduct(q, d);
    }
    if 0.0 <= x && q < 0.0 {
      MulMonoStrict(q, 0.0, d);
    }
  }

  /** For channels in [0, 1]: hue in [0, 360), saturation and lightness in
      [0, 1]. */
  lemma HslRanges(c: Rgb)
    requires InUnitCube(c)
    ensures var r := RgbToHsl(c);
      0.0 <= r.h < 360.0 && 0.0 <= r.s <= 1.0 && 0.0 <= r.l <= 1.0
  {
    var max := Max3(c.r, c.g, c.b);
    var min := Min3(c.r, c.g, c.b);
    var l := (max + min) / 2.0;
    if max != min {
      var d := max - min;
      if l > 0.5 {
        QuotientInUnit(d, 2.0 - max - min);
      } else {
        QuotientInUnit(d, max + min);
      }
      if max == c.r {
        QuotientInUnit(c.g - c.b, d);
      } else if max == c.g {
        QuotientInUnit(c.b - c.r, d);
      } else {
        QuotientInUnit(c.r - c.g, d);
      }
    }
  }

  // ---------------------------------------------------------------------
  // Ranges and format of the inverse conversion.

  /** For saturation and lightness in [0, 1] the levels satisfy
      `0 <= p <= q <= 1`. */
  lemma LevelsInUnit(s: real, l: real)
    requires 0.0 <= s <= 1.0 && 0.0 <= l <= 1.0
    ensures var q := UpperLevel(s, l);
      0.0 <= 2.0 * l - q <= q <= 1.0
  {
    NonNegProduct(l, s);
    if l < 0.5 {
      MulMono(s, 1.0, l);
    } else {
      MulMono(s, 1.0, 1.0 - l);
      NonNegProduct(s, 1.0 - l);
    }
  }

  /** A fraction of a non-negative amount lies between zero and the amount. */
  lemma FractionOf(w: real, x: real, y: real)
    requires 0.0 <= w <= 1.0 && 0.0 <= x && y == x * w
    ensures 0.0 <= y <= x
  {
    NonNegProduct(w, x);
    NonNegProduct(1.0 - w, x);
    assert (1.0 - w) * x == x - w * x;
  }

  /** Every value of the curve lies between its two levels, provided the
      argument is not below -1. */
  lemma Hue2RgbBetween(p: real, q: real, t0: real)
    requires p <= q && -1.0 <= t0
    ensures p <= Hue2Rgb(p, q, t0) <= q
  {
    CurveBetween(p, q, WrapUnit(t0));
  }

  lemma CurveBetween(p: real, q: real, t: real)
    requires p <= q && 0.0 <= t
    ensures p <= Curve(p, q, t) <= q
  {
    if t < 1.0 / 6.0 {
      RisingEdge(p, q, t);
    } else if 1.0 / 2.0 <= t < 2.0 / 3.0 {
      FallingEdge(p, q, t);
    }
  }

  lemma RisingEdge(p: real, q: real, t: real)
    requires p <= q && 0.0 <= t < 1.0 / 6.0
    ensures p <= Curve(p, q, t) <= q
  {
    var y := (q - p) * 6.0 * t;
    FractionOf(6.0 * t, q - p, y);
  }

  lemma FallingEdge(p: real, q: real, t: real)
    requires p <= q && 1.0 / 2.0 <= t < 2.0 / 3.0
    ensures p <= Curve(p, q, t) <= q
  {
    var y := (q - p) * (2.0 / 3.0 - t) * 6.0;
    FractionOf((2.0 / 3.0 - t) * 6.0, q - p, y);
  }

  /** With a hue not below -240 degrees and saturation and lightness in
      [0, 1], every channel is in [0, 1]. */
  lemma HslToRgbInUnit(h: real, s: real, l: real)
    requires -240.0 <= h && 0.0 <= s <= 1.0 && 0.0 <= l <= 1.0
    ensures InUnitCube(HslToRgb(h, s, l))
  {
    if s != 0.0 {
      var q := UpperLevel(s, l);
      var p := 2.0 * l - q;
      var hh := h / 360.0;
      LevelsInUnit(s, l);
      Hue2RgbBetween(p, q, hh + 1.0 / 3.0);
      Hue2RgbBetween(p, q, hh);
      Hue2RgbBetween(p, q, hh - 1.0 / 3.0);
    }
  }

  /** A channel in [0, 1] is written as exactly two lower-case hex digits
      that read back as the rounded channel. */
  lemma ToHexDigits(c: real)
    requires 0.0 <= c <= 1.0
    ensures var t := ToHex(c);
      && IsLowerPair(t)
      && HexValue(t) == Round(c * 255.0)
      && 0 <= Round(c * 255.0) <= 255
  {
    var n := Round(c * 255.0);
    assert 0 <= n <= 255;
    ToHexStringSmall(n);
    HexDigitsValue(n);
    var hex := ToHexString(n);
    var t := ToHex(c);
    if n < 16 {
      assert hex == [HexChar(n)];
      assert t == ['0', HexChar(n)];
      assert t[..1] == "0";
      assert HexValue(t) == 16 * HexValue(t[..1]) + DigitValue(t[1]);
    } else {
      assert hex == HexDigitsOf(n / 16) + [HexChar(n % 16)];
      assert HexDigitsOf(n / 16) == [HexChar(n / 16)];
      assert t == [HexChar(n / 16), HexChar(n % 16)];
    }
  }

  /** `hslToHex` writes `#` and six lower-case hex digits whenever its
      arguments are in range (every caller passes a hue not below 0). */
  lemma HslToHexWellFormed(h: real, s: real, l: real)
    requires -240.0 <= h && 0.0 <= s <= 1.0 && 0.0 <= l <= 1.0
    ensures IsLowerHexColor(HslToHex(h, s, l))
  {
    var c := HslToRgb(h, s, l);
    HslToRgbInUnit(h, s, l);
    ToHexDigits(c.r);
    ToHexDigits(c.g);
    ToHexDigits(c.b);
    JoinPairs(ToHex(c.r), ToHex(c.g), ToHex(c.b));
  }

  predicate IsLowerPair(t: string) {
    |t| == 2 && AllHex(t) && !('A' <= t[0] <= 'F') && !('A' <= t[1] <= 'F')
  }

  lemma JoinPairs(a: string, b: string, d: string)
    requires IsLowerPair(a) && IsLowerPair(b) && IsLowerPair(d)
    ensures IsLowerHexColor("#" + a + b + d)
  {
    var out := "#" + a + b + d;
    assert out[1] == a[0] && out[2] == a[1];
    assert out[3] == b[0] && out[4] == b[1];
    assert out[5] == d[0] && out[6] == d[1];
  }

  /** Zero saturation gives a grey: three equal channels, each the
      lightness. */
  lemma GreyHasEqualChannels(h: real, l: real)
    requires 0.0 <= l <= 1.0
    ensures var out := HslToHex(h, 0.0, l);
      && |out| == 7
      && out[1..3] == out[3..5] == out[5..7] == ToHex(l)
      && HexValue(out[1..3]) == Round(l * 255.0)
  {
    ToHexDigits(l);
    var t := ToHex(l);
    var out := HslToHex(h, 0.0, l);
    assert out == "#" + t + t + t;
    assert out[1..3] == t;
    assert out[3..5] == t;
    assert out[5..7] == t;
  }

  // ---------------------------------------------------------------------
  // Contrast.

  /** The sRGB transfer curve of one channel; `pow24(x)` stands for
      `Math.pow(x, 2.4)`. */
  function Linearize(c: real, pow24: real -> real): real {
    if c <= 0.03928 then c / 12.92 else pow24((c + 0.055) / 1.055)
  }

  /** What the model assumes of `Math.pow(x, 2.4)`: it is never negative
      for a positive base. */
  ghost predicate PowNonNegative(pow24: real -> real) {
    forall x :: 0.0 < x ==> 0.0 <= pow24(x)
  }

  function Luminance(c: Rgb, pow24: real -> real): real {
    0.2126 * Linearize(c.r, pow24) + 0.7152 * Linearize(c.g, pow24) + 0.0722 * Linearize(c.b, pow24)
  }

  /** The WCAG ratio of two luminances: the brighter over the darker, each
      offset by 0.05. */
  function Contrast(lum1: real, lum2: real): (r: real)
    requires -0.05 < lum1 && -0.05 < lum2
    ensures 1.0 <= r
  {
    var brightest := if lum1 >= lum2 then lum1 else lum2;
    var darkest := if lum1 <= lum2 then lum1 else lum2;
    QuotientAtLeastOne(brightest + 0.05, darkest + 0.05);
    (brightest + 0.05) / (darkest + 0.05)
  }

  /** `calculateContrastRatio`: `None` when either colour has a channel
      that does not parse (JavaScript's NaN). */
  function ContrastRatio(color1: string, color2: string, pow24: real -> real): (r: Option<real>)
    requires PowNonNegative(pow24)
    ensures r.Some? <==> ReadRgb(color1).Some? && ReadRgb(color2).Some?
    ensures r.Some? ==> 1.0 <= r.value
  {
    match (ReadRgb(color1), ReadRgb(color2))
    case (Some(c1), Some(c2)) =>
      LuminanceAboveFloor(c1, pow24);
      LuminanceAboveFloor(c2, pow24);
      Some(Contrast(Luminance(c1, pow24), Luminance(c2, pow24)))
    case _ => None
  }

  lemma QuotientAtLeastOne(a: real, b: real)
    requires 0.0 < b <= a
    ensures 1.0 <= a / b
  {
    var q := a / b;
    assert q * b == a;
    if q < 1.0 {
      MulMonoStrict(q, 1.0, b);
    }
  }

  /** Every readable colour has a luminance above -0.05, so the ratio's
      denominator is positive. */
  lemma LuminanceAboveFloor(c: Rgb, pow24: real -> real)
    requires PowNonNegative(pow24) && AboveChannelFloor(c)
    ensures -0.05 < Luminance(c, pow24)
  {
    LinearizeAboveFloor(c.r, pow24);
    LinearizeAboveFloor(c.g, pow24);
    LinearizeAboveFloor(c.b, pow24);
  }

  /** A colour inside the unit cube, which every `#RRGGBB` colour reads
      to, has a non-negative luminance. */
  lemma LuminanceNonNegative(c: Rgb, pow24: real -> real)
    requires PowNonNegative(pow24) && InUnitCube(c)
    ensures 0.0 <= Luminance(c, pow24)
  {
    LinearizeNonNegative(c.r, pow24);
    LinearizeNonNegative(c.g, pow24);
    LinearizeNonNegative(c.b, pow24);
  }

  lemma LinearizeNonNegative(c: real, pow24: real -> real)
    requires PowNonNegative(pow24) && 0.0 <= c
    ensures 0.0 <= Linearize(c, pow24)
  {
    if c > 0.03928 {
      assert 0.0 < (c + 0.055) / 1.055;
    }
  }

  /** Every `#RRGGBB` colour reads, and its luminance is not negative. */
  lemma HexColorLuminance(hex: string, pow24: real -> real)
    requires IsHexColor(hex) && PowNonNegative(pow24)
    ensures ReadRgb(hex).Some? && 0.0 <= Luminance(ReadRgb(hex).value, pow24)
  {
    LuminanceNonNegative(ReadRgb(hex).value, pow24);
  }

  /** A string that is not a colour can still read: the slice `-f` parses
      to -15, and the luminance of the result is negative (still above the
      -0.05 that keeps the ratio defined). */
  lemma NegativeSliceLuminance(pow24: real -> real)
    ensures ReadRgb("#-f0000") == Some(Rgb(-15.0 / 255.0, 0.0, 0.0))
    ensures Luminance(Rgb(-15.0 / 255.0, 0.0, 0.0), pow24) < 0.0
  {
    assert Slice("#-f0000", 1, 3) == "-f";
    assert Slice("#-f0000", 3, 5) == "00";
    assert Slice("#-f0000", 5, 7) == "00";
    ParseNegative("-f");
    ParseNonNegative("00");
  }

  lemma LinearizeAboveFloor(c: real, pow24: real -> real)
    requires PowNonNegative(pow24) && -15.0 / 255.0 <= c
    ensures -0.005 < Linearize(c, pow24)
  {
    if c > 0.03928 {
      assert 0.0 < (c + 0.055) / 1.055;
    }
  }

  /** The ratio does not depend on the order of its arguments, and a colour
      against itself has ratio 1. */
  lemma ContrastSymmetric(color1: string, color2: string, pow24: real -> real)
    requires PowNonNegative(pow24)
    ensures ContrastRatio(color1, color2, pow24) == ContrastRatio(color2, color1, pow24)
    ensures ReadRgb(color1).Some? ==> ContrastRatio(color1, color1, pow24) == Some(1.0)
  {
    if ReadRgb(color1).Some? {
      var c1 := ReadRgb(color1).value;
      LuminanceAboveFloor(c1, pow24);
      ContrastSelf(Luminance(c1, pow24));
      if ReadRgb(color2).Some? {
        var c2 := ReadRgb(color2).value;
        LuminanceAboveFloor(c2, pow24);
        ContrastSwap(Luminance(c1, pow24), Luminance(c2, pow24));
      }
    }
  }

  lemma ContrastSwap(lum1: real, lum2: real)
    requires -0.05 < lum1 && -0.05 < lum2
    ensures Contrast(lum1, lum2) == Contrast(lum2, lum1)
  {
  }

  lemma ContrastSelf(lum: real)
    requires -0.05 < lum
    ensures Contrast(lum, lum) == 1.0
  {
    var d := lum + 0.05;
    assert Contrast(lum, lum) == d / d;
    SelfQuotient(d);
  }

  lemma SelfQuotient(d: real)
    requires 0.0 < d
    ensures d / d == 1.0
  {
  }

  /** Black text on white has the largest WCAG ratio, 21, when the power
      curve maps 1 to 1. */
  lemma BlackOnWhite(pow24: real -> real)
    requires PowNonNegative(pow24) && pow24(1.0) == 1.0
    ensures ContrastRatio("#000000", "#ffffff", pow24) == Some(21.0)
  {
    RepeatedDigitIsHex('0');
    RepeatedDigitIsHex('f');
    var black := ChannelsOf("#000000");
    var white := ChannelsOf("#ffffff");
    PairValues();
    assert black == Rgb(0.0, 0.0, 0.0);
    assert white == Rgb(1.0, 1.0, 1.0);
    var lb, lw := Luminance(black, pow24), Luminance(white, pow24);
    assert lb == 0.0;
    assert Linearize(1.0, pow24) == 1.0;
    assert lw == 1.0;
    assert Contrast(lw, lb) == 21.0;
  }

  lemma RepeatedDigitIsHex(d: char)
    requires IsHexDigit(d)
    ensures IsHexColor(['#', d, d, d, d, d, d])
  {
  }

  lemma PairValues()
    ensures PairValue("#000000"[1..3]) == 0.0 && PairValue("#000000"[3..5]) == 0.0 && PairValue("#000000"[5..7]) == 0.0
    ensures PairValue("#ffffff"[1..3]) == 1.0 && PairValue("#ffffff"[3..5]) == 1.0 && PairValue("#ffffff"[5..7]) == 1.0
  {
    assert "#000000"[1..3] == "#000000"[3..5] == "#000000"[5..7] == "00";
    assert "#ffffff"[1..3] == "#ffffff"[3..5] == "#ffffff"[5..7] == "ff";
    assert HexValue("00") == 0;
    assert HexValue("ff") == 255;
  }

  /** The channels of a `#RRGGBB` colour, pair by pair. */
  lemma ChannelsOf(hex: string) returns (c: Rgb)
    requires IsHexColor(hex)
    ensures ReadRgb(hex) == Some(c)
    ensures c == Rgb(PairValue(hex[1..3]), PairValue(hex[3..5]), PairValue(hex[5..7]))
  {
    var r := ChannelOfPair(hex, 1);
    var g := ChannelOfPair(hex, 3);
    var b := ChannelOfPair(hex, 5);
    c := Rgb(r, g, b);
  }

  // ---------------------------------------------------------------------
  // Raising the contrast of a generated combination.

  datatype ColorCombination = ColorCombination(textColor: string, bgColor: string, bgGradient: (string, string))

  predicate WellFormedCombination(c: ColorCombination) {
    IsHexColor(c.textColor) && IsHexColor(c.bgColor) && IsHexColor(c.bgGradient.0) && IsHexColor(c.bgGradient.1)
  }

  /** Light text pushes a lightness down by `step`, dark text pushes it up,
      clamped to [0.1, 0.9]. */
  function AdjustLightness(textL: real, l: real, step: real): real {
    if textL > 0.5 then (if 0.1 >= l - step then 0.1 else l - step)
    else (if 0.9 <= l + step then 0.9 else l + step)
  }

  /** The colour with the same hue and saturation and the adjusted lightness. */
  function AdjustColor(hex: string, textL: real, step: real): string
    requires IsHexColor(hex)
  {
    var c := HexToHsl(hex);
    HslToHex(c.h, c.s, AdjustLightness(textL, c.l, step))
  }

  /** `ensureGoodContrast`: the background is moved away from the text's
      lightness by 0.4 when the ratio is below 4.5; both gradient stops are
      moved by 0.2 in every case. */
  function EnsureGoodContrast(c: ColorCombination, pow24: real -> real): (r: ColorCombination)
    requires WellFormedCombination(c) && PowNonNegative(pow24)
  {
    var ratio := ContrastRatio(c.textColor, c.bgColor, pow24).value;
    var textL := HexToHsl(c.textColor).l;
    var bg := if ratio < 4.5 then AdjustColor(c.bgColor, textL, 0.4) else c.bgColor;
    ColorCombination(c.textColor, bg,
      (AdjustColor(c.bgGradient.0, textL, 0.2), AdjustColor(c.bgGradient.1, textL, 0.2)))
  }

  /** The adjusted lightness stays in [0.1, 0.9]; under light text it is
      at most `1 - step` and below the old lightness unless clamped at 0.1,
      under dark text at least `step` and above it unless clamped at 0.9. */
  lemma AdjustLightnessRange(textL: real, l: real, step: real)
    requires 0.0 <= l <= 1.0 && 0.1 <= step <= 0.9
    ensures var n := AdjustLightness(textL, l, step);
      && 0.1 <= n <= 0.9
      && (textL > 0.5 ==> n <= 1.0 - step && (n < l || n == 0.1))
      && (textL <= 0.5 ==> step <= n && (n > l || n == 0.9))
  {
  }

  /** The text colour is kept, and so is the background when the ratio
      already reaches 4.5. */
  lemma EnsureGoodContrastKeeps(c: ColorCombination, pow24: real -> real)
    requires WellFormedCombination(c) && PowNonNegative(pow24)
    ensures var r := EnsureGoodContrast(c, pow24);
      && r.textColor == c.textColor
      && (4.5 <= ContrastRatio(c.textColor, c.bgColor, pow24).value ==> r.bgColor == c.bgColor)
  {
  }

  /** Below 4.5 the background is replaced by the colour of the same hue
      and saturation whose lightness `n` moved away from the text's by 0.4:
      `max(0.1, l - 0.4)` under light text, so at most 0.6 and strictly
      darker unless clamped, and `min(0.9, l + 0.4)` under dark text, so at
      least 0.4 and strictly lighter unless clamped. */
  lemma EnsureGoodContrastMoves(c: ColorCombination, pow24: real -> real) returns (n: real)
    requires WellFormedCombination(c) && PowNonNegative(pow24)
    requires ContrastRatio(c.textColor, c.bgColor, pow24).value < 4.5
    ensures var bg := HexToHsl(c.bgColor);
      var textL := HexToHsl(c.textColor).l;
      && EnsureGoodContrast(c, pow24).bgColor == HslToHex(bg.h, bg.s, n)
      && 0.1 <= n <= 0.9
      && (textL > 0.5 ==> n <= 0.6 && (n < bg.l || n == 0.1))
      && (textL <= 0.5 ==> 0.4 <= n && (n > bg.l || n == 0.9))
      && n == (if textL > 0.5 then (if bg.l - 0.4 <= 0.1 then 0.1 else bg.l - 0.4)
               else (if bg.l + 0.4 >= 0.9 then 0.9 else bg.l + 0.4))
  {
    var bg := HexToHsl(c.bgColor);
    var textL := HexToHsl(c.textColor).l;
    n := AdjustLightness(textL, bg.l, 0.4);
    AdjustLightnessRange(textL, bg.l, 0.4);
  }

  /** Both gradient stops are always rewritten with the 0.2 step, whatever
      the ratio. */
  lemma EnsureGoodContrastGradient(c: ColorCombination, pow24: real -> real)
    requires WellFormedCombination(c) && PowNonNegative(pow24)
    ensures var r := EnsureGoodContrast(c, pow24);
      var textL := HexToHsl(c.textColor).l;
      var g0 := HexToHsl(c.bgGradient.0);
      var g1 := HexToHsl(c.bgGradient.1);
      && r.bgGradient.0 == HslToHex(g0.h, g0.s, AdjustLightness(textL, g0.l, 0.2))
      && r.bgGradient.1 == HslToHex(g1.h, g1.s, AdjustLightness(textL, g1.l, 0.2))
  {
  }

  /** The result is again a well-formed combination, every adjusted colour
      in lower case. */
  lemma EnsureGoodContrastWellFormed(c: ColorCombination, pow24: real -> real)
    requires WellFormedCombination(c) && PowNonNegative(pow24)
    ensures WellFormedCombination(EnsureGoodContrast(c, pow24))
  {
    var textL := HexToHsl(c.textColor).l;
    AdjustColorWellFormed(c.bgColor, textL, 0.4);
    AdjustColorWellFormed(c.bgGradient.0, textL, 0.2);
    AdjustColorWellFormed(c.bgGradient.1, textL, 0.2);
  }

  lemma AdjustColorWellFormed(hex: string, textL: real, step: real)
    requires IsHexColor(hex) && 0.1 <= step <= 0.9
    ensures IsLowerHexColor(AdjustColor(hex, textL, step))
  {
    var c := HexToHsl(hex);
    AdjustLightnessRange(textL, c.l, step);
    HslToHexWellFormed(c.h, c.s, AdjustLightness(textL, c.l, step));
  }
}
