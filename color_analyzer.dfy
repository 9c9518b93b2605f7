/** Colour utilities of the analyser: hex rendering and parsing, the
    RGB to HSL conversion, the colour-name rules and the usage rules. */
module ColorAnalyzer {
  import opened Types
  import opened Strings

  datatype Rgb = Rgb(r: byte, g: byte, b: byte)

  datatype Hsl = Hsl(h: int, s: int, l: int)

  // ---------------------------------------------------------------------
  // Hexadecimal digits
  // ---------------------------------------------------------------------

  /** A digit of the case-insensitive class `[a-f\d]`. */
  predicate IsHexChar(c: char)
  {
    '0' <= c <= '9' || 'a' <= c <= 'f' || 'A' <= c <= 'F'
  }

  predicate IsLowerHexChar(c: char)
  {
    '0' <= c <= '9' || 'a' <= c <= 'f'
  }

  /** The lower-case digit that Number.prototype.toString(16) writes. */
  function HexDigit(d: nat): (c: char)
    requires d < 16
    ensures IsLowerHexChar(c)
  {
    if d < 10 then (48 + d) as char else (87 + d) as char
  }

  /** The value parseInt(_, 16) gives one digit. */
  function HexValue(c: char): (v: nat)
    requires IsHexChar(c)
    ensures v < 16
  {
    if c <= '9' then c as int - 48 else if c <= 'F' then c as int - 55 else c as int - 87
  }

  /** Number.prototype.toString(16) on a non-negative integer. */
  function ToBase16(n: nat): (s: string)
    ensures 1 <= |s|
    decreases n
  {
    if n < 16 then [HexDigit(n)] else ToBase16(n / 16) + [HexDigit(n % 16)]
  }

  /** The two digits of a byte, high digit first. */
  function HexPair(x: byte): string
  {
    [HexDigit(x as int / 16), HexDigit(x as int % 16)]
  }

  /** The value of two digits, as parseInt(pair, 16) reads them. */
  function PairValue(hi: char, lo: char): byte
    requires IsHexChar(hi) && IsHexChar(lo)
  {
    (16 * HexValue(hi) + HexValue(lo)) as byte
  }

  lemma ToBase16Step(q: nat, d: nat)
    requires 1 <= q && d < 16
    ensures ToBase16(16 * q + d) == ToBase16(q) + [HexDigit(d)]
  {
    var n := 16 * q + d;
    assert n / 16 == q && n % 16 == d;
  }

  /** Appending a byte in base 256 appends its two hex digits. */
  lemma Base16Byte(q: nat, x: byte)
    requires 1 <= q
    ensures ToBase16(256 * q + x as int) == ToBase16(q) + HexPair(x)
  {
    var hi, lo := x as int / 16, x as int % 16;
    assert 256 * q + x as int == 16 * (16 * q + hi) + lo;
    ToBase16Step(16 * q + hi, lo);
    ToBase16Step(q, hi);
  }

  /** The base-16 text of 2^24 + r*2^16 + g*2^8 + b is "1" and six digits. */
  lemma Base16OfRgb(r: byte, g: byte, b: byte)
    ensures ToBase16(0x100_0000 + r as int * 0x1_0000 + g as int * 0x100 + b as int)
            == "1" + HexPair(r) + HexPair(g) + HexPair(b)
  {
    var n1 := 256 + r as int;
    var n2 := 256 * n1 + g as int;
    assert 256 * n2 + b as int == 0x100_0000 + r as int * 0x1_0000 + g as int * 0x100 + b as int;
    assert ToBase16(n1) == "1" + HexPair(r) by {
      assert ToBase16(1) == "1";
      Base16Byte(1, r);
    }
    assert ToBase16(n2) == "1" + HexPair(r) + HexPair(g) by {
      Base16Byte(n1, g);
    }
    Base16Byte(n2, b);
  }

  // ---------------------------------------------------------------------
  // rgbToHex and hexToRgb
  // ---------------------------------------------------------------------

  /** rgbToHex: "#" and the base-16 text of 2^24 + (r << 16) + (g << 8) + b
      without its leading "1"; that is, two lower-case digits per channel. */
  function RgbToHex(r: byte, g: byte, b: byte): (hex: string)
    ensures hex == "#" + HexPair(r) + HexPair(g) + HexPair(b)
    ensures |hex| == 7 && hex[0] == '#'
    ensures forall i :: 1 <= i < 7 ==> IsLowerHexChar(hex[i])
  {
    Base16OfRgb(r, g, b);
    "#" + ToBase16(0x100_0000 + r as int * 0x1_0000 + g as int * 0x100 + b as int)[1..]
  }

  predicate AllHex(s: string)
  {
    forall i :: 0 <= i < |s| ==> IsHexChar(s[i])
  }

  /** The strings the pattern /^#?([a-f\d]{2})([a-f\d]{2})([a-f\d]{2})$/i matches:
      six hex digits of either case, with or without one leading '#'. */
  predicate MatchesHexPattern(s: string)
  {
    (|s| == 6 && AllHex(s)) || (|s| == 7 && s[0] == '#' && AllHex(s[1..]))
  }

  /** The match of hexToRgb's pattern, read as three bytes; None when the
      pattern does not match. */
  function ParseHex(s: string): (c: Option<Rgb>)
    ensures c.Some? <==> MatchesHexPattern(s)
  {
    var digits := if |s| > 0 && s[0] == '#' then s[1..] else s;
    if |digits| == 6 && AllHex(digits) then
      Some(Rgb(PairValue(digits[0], digits[1]), PairValue(digits[2], digits[3]), PairValue(digits[4], digits[5])))
    else
      None
  }

  /** hexToRgb: the parsed channels, and black for any string the pattern
      rejects. */
  function HexToRgb(hex: string): (c: Rgb)
    ensures !MatchesHexPattern(hex) ==> c == Rgb(0, 0, 0)
  {
    match ParseHex(hex)
    case Some(c) => c
    case None => Rgb(0, 0, 0)
  }

  lemma PairValueOfHexPair(x: byte)
    ensures PairValue(HexPair(x)[0], HexPair(x)[1]) == x
  {
  }

  /** Parsing the rendered hex gives back the channels. */
  lemma HexRoundTrip(r: byte, g: byte, b: byte)
    ensures HexToRgb(RgbToHex(r, g, b)) == Rgb(r, g, b)
  {
    var hex := RgbToHex(r, g, b);
    PairValueOfHexPair(r);
    PairValueOfHexPair(g);
    PairValueOfHexPair(b);
    assert hex[1..] == HexPair(r) + HexPair(g) + HexPair(b);
    assert AllHex(hex[1..]);
  }

  /** rgbToHex is one-to-one on channel triples. */
  lemma RgbToHexInjective(c: Rgb, d: Rgb)
    requires RgbToHex(c.r, c.g, c.b) == RgbToHex(d.r, d.g, d.b)
    ensures c == d
  {
    HexRoundTrip(c.r, c.g, c.b);
    HexRoundTrip(d.r, d.g, d.b);
  }

  /** Letter case does not matter to hexToRgb. */
  lemma LowerHexChar(c: char)
    ensures IsHexChar(LowerChar(c)) <==> IsHexChar(c)
    ensures IsHexChar(c) ==> HexValue(LowerChar(c)) == HexValue(c)
  {
  }

  /** Lower-casing the digits does not change what they are read as. */
  lemma AllHexLower(ds: string, dt: string)
    requires |dt| == |ds| && forall i :: 0 <= i < |ds| ==> dt[i] == LowerChar(ds[i])
    ensures AllHex(dt) <==> AllHex(ds)
    ensures AllHex(ds) ==> forall i :: 0 <= i < |ds| ==> HexValue(dt[i]) == HexValue(ds[i])
  {
    forall i | 0 <= i < |ds| ensures (IsHexChar(dt[i]) <==> IsHexChar(ds[i])) {
      LowerHexChar(ds[i]);
    }
    if AllHex(ds) {
      forall i | 0 <= i < |ds| ensures HexValue(dt[i]) == HexValue(ds[i]) {
        LowerHexChar(ds[i]);
      }
    }
  }

  lemma HexToRgbIgnoresCase(s: string)
    ensures HexToRgb(ToLower(s)) == HexToRgb(s)
  {
    var t := ToLower(s);
    var hash := |s| > 0 && s[0] == '#';
    assert hash <==> |t| > 0 && t[0] == '#';
    var ds := if hash then s[1..] else s;
    var dt := if hash then t[1..] else t;
    AllHexLower(ds, dt);
  }

  /** The leading '#' is optional. */
  lemma HexToRgbOptionalHash(s: string)
    requires |s| == 6
    ensures HexToRgb("#" + s) == HexToRgb(s)
  {
    assert ("#" + s)[1..] == s;
  }

  /** Any string other than six hex digits (optionally after one '#') reads as black. */
  lemma MalformedHexIsBlack(s: string)
    requires |s| != 6 && |s| != 7
    ensures HexToRgb(s) == Rgb(0, 0, 0)
  {
  }

  // ---------------------------------------------------------------------
  // rgbToHsl
  // ---------------------------------------------------------------------

  /** Math.round: the nearest integer, halves rounded up. */
  function Round(x: real): int
  {
    (x + 0.5).Floor
  }

  function Max3(a: real, b: real, c: real): real
  {
    if a >= b && a >= c then a else if b >= c then b else c
  }

  function Min3(a: real, b: real, c: real): real
  {
    if a <= b && a <= c then a else if b <= c then b else c
  }

  lemma QuotientBounds(a: real, b: real)
    requires 0.0 <= a <= b && 0.0 < b
    ensures 0.0 <= a / b <= 1.0
  {
  }

  /** A difference of two channels over their spread lies in [-1, 1] and keeps its sign. */
  lemma SignedQuotientBounds(a: real, d: real)
    requires -d <= a <= d && 0.0 < d
    ensures -1.0 <= a / d <= 1.0
    ensures a < 0.0 ==> a / d < 0.0
  {
    if a < 0.0 {
      QuotientBounds(-a, d);
      assert a / d == -((-a) / d);
    } else {
      QuotientBounds(a, d);
    }
  }

  lemma RoundBounds(x: real, lo: int, hi: int)
    requires lo as real <= x <= hi as real
    ensures lo <= Round(x) <= hi
  {
  }

  /** The hue sextant before scaling, in [0, 6]. */
  function HueSextant(r: real, g: real, b: real, max: real, d: real): (h: real)
    requires 0.0 < d
    requires max == Max3(r, g, b) && d == max - Min3(r, g, b)
    ensures 0.0 <= h <= 6.0
  {
    if max == r then
      SignedQuotientBounds(g - b, d);
      (g - b) / d + (if g < b then 6.0 else 0.0)
    else if max == g then
      SignedQuotientBounds(b - r, d);
      (b - r) / d + 2.0
    else
      SignedQuotientBounds(r - g, d);
      (r - g) / d + 4.0
  }

  /** rgbToHsl over exact rationals: hue in degrees, saturation and
      lightness in percent, each rounded to the nearest integer. */
  function RgbToHsl(r: byte, g: byte, b: byte): (c: Hsl)
    ensures 0 <= c.h <= 360 && 0 <= c.s <= 100 && 0 <= c.l <= 100
    ensures r == g == b ==> c.h == 0 && c.s == 0 && c.l == Round(100.0 * r as real / 255.0)
  {
    var r', g', b' := r as real / 255.0, g as real / 255.0, b as real / 255.0;
    var max := Max3(r', g', b');
    var min := Min3(r', g', b');
    var l := (max + min) / 2.0;
    RoundBounds(l * 100.0, 0, 100);
    if max == min then
      Hsl(0, 0, Round(l * 100.0))
    else
      var d := max - min;
      var s := if l > 0.5 then d / (2.0 - max - min) else d / (max + min);
      QuotientBounds(d, if l > 0.5 then 2.0 - max - min else max + min);
      var h := HueSextant(r', g', b', max, d) / 6.0;
      RoundBounds(h * 360.0, 0, 360);
      RoundBounds(s * 100.0, 0, 100);
      Hsl(Round(h * 360.0), Round(s * 100.0), Round(l * 100.0))
  }

  /** The hue 360 is reachable: rgb(255, 0, 1) rounds up to it. */
  lemma Hue360Reachable()
    ensures RgbToHsl(255, 0, 1).h == 360
  {
  }

  // ---------------------------------------------------------------------
  // generateColorName
  // ---------------------------------------------------------------------

  /** The exact-match table, keyed by lower-case hex. */
  function TableName(key: string): Option<string>
  {
    if key == "#ffffff" then Some("white")
    else if key == "#000000" then Some("black")
    else if key == "#ff0000" then Some("red")
    else if key == "#00ff00" then Some("green")
    else if key == "#0000ff" then Some("blue")
    else if key == "#ffff00" then Some("yellow")
    else if key == "#ff00ff" then Some("magenta")
    else if key == "#00ffff" then Some("cyan")
    else None
  }

  /** The grayscale ramp, by lightness band. */
  function GrayName(l: int): string
  {
    if l > 90 then "gray-50"
    else if l > 70 then "gray-200"
    else if l > 50 then "gray-400"
    else if l > 30 then "gray-600"
    else if l > 10 then "gray-800"
    else "gray-900"
  }

  const HueNames: seq<string> := ["red", "orange", "yellow", "green", "blue", "purple"]

  function ShadeSuffix(l: int): string
  {
    if l > 70 then "200" else if l > 50 then "500" else if l > 30 then "700" else "900"
  }

  function HslOfHex(hex: string): Hsl
  {
    var c := HexToRgb(hex);
    RgbToHsl(c.r, c.g, c.b)
  }

  /** The rules of generateColorName after a table miss: the grayscale ramp
      when the saturation is below 10, otherwise the hue sextant's name (an
      index off the list gives "gray") and a lightness suffix. */
  function NameFromHsl(hsl: Hsl): string
  {
    if hsl.s < 10 then GrayName(hsl.l)
    else
      var hue := Round(hsl.h as real / 60.0);
      var hueName := if 0 <= hue < |HueNames| then HueNames[hue] else "gray";
      hueName + "-" + ShadeSuffix(hsl.l)
  }

  /** generateColorName: the exact-match table wins; otherwise the name
      follows from the colour's HSL. */
  function GenerateColorName(hex: string): (name: string)
    ensures TableName(ToLower(hex)).Some? ==> name == TableName(ToLower(hex)).value
  {
    match TableName(ToLower(hex))
    case Some(n) => n
    case None => NameFromHsl(HslOfHex(hex))
  }

  lemma HueIndex(h: int)
    requires 0 <= h <= 360
    ensures Round(h as real / 60.0) == (h + 30) / 60
  {
    var q := (h + 30) / 60;
    assert 60 * q <= h + 30 < 60 * q + 60;
    assert q as real <= h as real / 60.0 + 0.5 < q as real + 1.0;
  }

  /** With saturation at least 10 and hue below 330 the name is the sextant
      (h + 30) / 60 and the lightness band. */
  lemma NameByHue(hsl: Hsl)
    requires 0 <= hsl.h < 330 && hsl.s >= 10
    ensures NameFromHsl(hsl) == HueNames[(hsl.h + 30) / 60] + "-" + ShadeSuffix(hsl.l)
  {
    HueIndex(hsl.h);
  }

  lemma GrayRampIsGray(l: int)
    ensures StartsWith(GrayName(l), "gray-")
  {
  }

  /** Sextant 6 (a hue of 330 or more) is off the list of hue names. */
  lemma LastSextantIsGray(hsl: Hsl)
    requires 330 <= hsl.h <= 360 && hsl.s >= 10
    ensures StartsWith(NameFromHsl(hsl), "gray-")
  {
    HueIndex(hsl.h);
    var name := NameFromHsl(hsl);
    assert name == "gray" + "-" + ShadeSuffix(hsl.l);
    assert name[..5] == "gray-";
  }

  lemma HueNamesNotGray(k: nat, suffix: string)
    requires k < 6
    ensures !StartsWith(HueNames[k] + suffix, "gray-")
  {
    var name := HueNames[k] + suffix;
    assert |HueNames[k]| >= 3 && (HueNames[k][0] != 'g' || HueNames[k][2] != 'a');
    assert name[0] != 'g' || name[2] != 'a';
  }

  /** Off the table, a name starts with "gray-" exactly when the saturation
      is below 10 or the hue is 330 or more (sextant 6 is off the list). */
  lemma NameGrayExactly(hsl: Hsl)
    requires 0 <= hsl.h <= 360
    ensures StartsWith(NameFromHsl(hsl), "gray-") <==> hsl.s < 10 || hsl.h >= 330
  {
    if hsl.s < 10 {
      GrayRampIsGray(hsl.l);
    } else if hsl.h >= 330 {
      LastSextantIsGray(hsl);
    } else {
      NameByHue(hsl);
      HueNamesNotGray((hsl.h + 30) / 60, "-" + ShadeSuffix(hsl.l));
    }
  }

  /** Off the table, a colour of saturation at least 10 is named by its
      sextant and lightness band. */
  lemma ColorNameByHue(hex: string)
    requires TableName(ToLower(hex)).None?
    requires HslOfHex(hex).s >= 10 && HslOfHex(hex).h < 330
    ensures GenerateColorName(hex) == HueNames[(HslOfHex(hex).h + 30) / 60] + "-" + ShadeSuffix(HslOfHex(hex).l)
  {
    NameByHue(HslOfHex(hex));
  }

  lemma TableNamesNotGray(key: string)
    ensures TableName(key).Some? ==> !StartsWith(TableName(key).value, "gray-")
  {
    if TableName(key).Some? {
      var n := TableName(key).value;
      assert |n| < 5 || n[0] != 'g' || n[2] != 'a';
    }
  }

  /** A colour's name starts with "gray-" exactly when the table misses and
      either its saturation is below 10 or its hue is 330 or more. */
  lemma ColorNameGrayExactly(hex: string)
    ensures StartsWith(GenerateColorName(hex), "gray-")
            <==> TableName(ToLower(hex)).None? && (HslOfHex(hex).s < 10 || HslOfHex(hex).h >= 330)
  {
    var key := ToLower(hex);
    if TableName(key).None? {
      assert GenerateColorName(hex) == NameFromHsl(HslOfHex(hex));
      NameGrayExactly(HslOfHex(hex));
    } else {
      TableNamesNotGray(key);
    }
  }

  // ---------------------------------------------------------------------
  // inferColorUsage
  // ---------------------------------------------------------------------

  /** (299r + 587g + 114b) / 1000, the perceived brightness in [0, 255]. */
  function Brightness(c: Rgb): real
  {
    (c.r as real * 299.0 + c.g as real * 587.0 + c.b as real * 114.0) / 1000.0
  }

  /** inferColorUsage: first match of background, text, border, in that order. */
  function InferColorUsage(hex: string, frequency: int): (u: Usage)
    ensures u != Shadow
  {
    var brightness := Brightness(HexToRgb(hex));
    if frequency > 1000 && brightness > 200.0 then Background
    else if brightness < 100.0 then Text
    else if frequency > 100 && frequency < 500 then Border
    else Other
  }

  /** 1000 times the brightness, an integer. */
  function Luma(c: Rgb): int
  {
    299 * c.r as int + 587 * c.g as int + 114 * c.b as int
  }

  /** The usage rules with the brightness tests compared exactly on integers. */
  lemma UsageRules(hex: string, f: int)
    ensures var y, u := Luma(HexToRgb(hex)), InferColorUsage(hex, f);
            && (u == Background <==> f > 1000 && y > 200000)
            && (u == Text <==> !(f > 1000 && y > 200000) && y < 100000)
            && (u == Border <==> !(f > 1000 && y > 200000) && y >= 100000 && 100 < f < 500)
            && (u == Other <==> !(f > 1000 && y > 200000) && y >= 100000 && !(100 < f < 500))
  {
    var c := HexToRgb(hex);
    assert Brightness(c) == Luma(c) as real / 1000.0;
  }
}
