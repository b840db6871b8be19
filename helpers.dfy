/**
 * The numeric, time-formatting and colour utilities of src/utils/helpers.js.
 * JavaScript numbers are modelled as `real` (no rounding, no NaN); a result
 * that JavaScript would make non-finite (a division by zero) is `None`.
 */
module Helpers {
  import opened Wrappers

  // ---------------------------------------------------------------------
  // Interpolation and ranges
  // ---------------------------------------------------------------------

  function Min(a: real, b: real): real { if a <= b then a else b }
  function Max(a: real, b: real): real { if a >= b then a else b }

  /** `lerp(start, end, t) = start * (1 - t) + end * t`. */
  function Lerp(start: real, end: real, t: real): (r: real)
    ensures t == 0.0 ==> r == start
    ensures t == 1.0 ==> r == end
    ensures start == end ==> r == start
  {
    start * (1.0 - t) + end * t
  }

  lemma LerpEndpoints(start: real, end: real)
    ensures Lerp(start, end, 0.0) == start
    ensures Lerp(start, end, 1.0) == end
  {
  }

  lemma MulNonNegative(x: real, y: real)
    requires x >= 0.0 && y >= 0.0
    ensures x * y >= 0.0
  {
  }

  lemma MulPositive(x: real, y: real)
    requires x > 0.0 && y > 0.0
    ensures x * y > 0.0
  {
  }

  /** For t in [0, 1] the interpolant lies between the two end points. */
  lemma LerpBetween(start: real, end: real, t: real)
    requires 0.0 <= t <= 1.0
    ensures Min(start, end) <= Lerp(start, end, t) <= Max(start, end)
  {
    var d := end - start;
    assert Lerp(start, end, t) == start + d * t;
    assert d - d * t == d * (1.0 - t);
    if d >= 0.0 {
      MulNonNegative(d, t);
      MulNonNegative(d, 1.0 - t);
    } else {
      MulNonNegative(-d, t);
      MulNonNegative(-d, 1.0 - t);
      assert -d * t == -(d * t);
      assert -d * (1.0 - t) == -(d * (1.0 - t));
    }
  }

  /** `clamp(value, min, max) = Math.min(Math.max(value, min), max)`. */
  function Clamp(value: real, lo: real, hi: real): (r: real)
    ensures lo <= hi ==> lo <= r <= hi
    ensures lo <= value <= hi ==> r == value
    ensures hi < lo ==> r == hi
    ensures lo <= hi && value < lo ==> r == lo
    ensures lo <= hi && hi < value ==> r == hi
  {
    Min(Max(value, lo), hi)
  }

  lemma ClampIdempotent(value: real, lo: real, hi: real)
    ensures Clamp(Clamp(value, lo, hi), lo, hi) == Clamp(value, lo, hi)
  {
  }

  /**
   * `map(value, inMin, inMax, outMin, outMax)`: the affine map sending
   * [inMin, inMax] onto [outMin, outMax]. `None` when inMin == inMax, where
   * JavaScript divides by zero.
   */
  function MapRange(value: real, inMin: real, inMax: real, outMin: real, outMax: real): (r: Option<real>)
    ensures r.None? <==> inMin == inMax
    ensures r.Some? && value == inMin ==> r.value == outMin
    ensures r.Some? && value == inMax ==> r.value == outMax
  {
    if inMax - inMin == 0.0 then None
    else Some(((value - inMin) * (outMax - outMin)) / (inMax - inMin) + outMin)
  }

  lemma DivSelf(x: real)
    requires x != 0.0
    ensures x / x == 1.0
  {
  }

  lemma MulDivCommute(a: real, b: real, c: real)
    requires c != 0.0
    ensures (a * b) / c == (a / c) * b
  {
  }

  /** `normalize(value, min, max) = (value - min) / (max - min)`. */
  function Normalize(value: real, lo: real, hi: real): (r: Option<real>)
    ensures r.None? <==> lo == hi
    ensures r.Some? && value == lo ==> r.value == 0.0
    ensures r.Some? && value == hi ==> r.value == 1.0
  {
    if hi - lo == 0.0 then None else DivSelf(hi - lo); Some((value - lo) / (hi - lo))
  }

  /** `map` is `lerp` of the output range at the normalised position. */
  lemma MapIsLerpOfNormalize(value: real, inMin: real, inMax: real, outMin: real, outMax: real)
    requires inMin != inMax
    ensures MapRange(value, inMin, inMax, outMin, outMax)
         == Some(Lerp(outMin, outMax, Normalize(value, inMin, inMax).value))
  {
    var t := (value - inMin) / (inMax - inMin);
    MulDivCommute(value - inMin, outMax - outMin, inMax - inMin);
    assert outMin * (1.0 - t) == outMin - outMin * t;
    assert t * (outMax - outMin) == t * outMax - t * outMin;
    assert Normalize(value, inMin, inMax).value == t;
    assert MapRange(value, inMin, inMax, outMin, outMax).value == t * (outMax - outMin) + outMin;
    assert Lerp(outMin, outMax, t) == t * (outMax - outMin) + outMin;
  }

  /** Mapping into a non-degenerate range and back again is the identity. */
  lemma MapRoundTrip(value: real, a: real, b: real, c: real, d: real)
    requires a != b && c != d
    ensures MapRange(MapRange(value, a, b, c, d).value, c, d, a, b) == Some(value)
  {
    var t := (value - a) / (b - a);
    var w := MapRange(value, a, b, c, d).value;
    assert w == t * (d - c) + c;
    assert (w - c) * (b - a) / (d - c) == t * (b - a);
    assert t * (b - a) == value - a;
  }

  // ---------------------------------------------------------------------
  // formatTime
  // ---------------------------------------------------------------------

  /** JavaScript `Math.trunc`. */
  function Trunc(x: real): int
  {
    if x >= 0.0 then x.Floor else -((-x).Floor)
  }

  /** JavaScript `%` on numbers: the remainder of truncated division. */
  function JsRem(x: real, d: real): real
    requires d != 0.0
  {
    x - d * (Trunc(x / d) as real)
  }

  function DigitChar(d: nat): char
    requires d < 10
  {
    "0123456789"[d]
  }

  /** Decimal rendering of a natural number, as `${n}` prints it. */
  function NatToString(n: nat): (s: string)
    ensures |s| > 0
    ensures forall k :: 0 <= k < |s| ==> '0' <= s[k] <= '9'
  {
    if n < 10 then [DigitChar(n)] else NatToString(n / 10) + [DigitChar(n % 10)]
  }

  /** Decimal rendering of an integer, with a leading '-' when negative. */
  function IntToString(i: int): (s: string)
    ensures |s| > 0 && ' ' !in s
    ensures i >= 0 ==> s == NatToString(i)
  {
    if i < 0 then "-" + NatToString(-i) else NatToString(i)
  }

  /** The decimal value of a string of digits: the inverse of NatToString. */
  function DecimalValue(s: string): int
  {
    if s == [] then 0 else 10 * DecimalValue(s[..|s| - 1]) + ((s[|s| - 1] as int) - ('0' as int))
  }

  lemma {:induction false} DecimalValueOfNatToString(n: nat)
    ensures DecimalValue(NatToString(n)) == n
  {
    if n >= 10 {
      var s := NatToString(n);
      assert s[..|s| - 1] == NatToString(n / 10);
      DecimalValueOfNatToString(n / 10);
    }
  }

  /** The three fields `formatTime` computes: hours, minutes and seconds. */
  datatype TimeParts = TimeParts(hours: int, minutes: int, secs: int)

  function Parts(seconds: real): TimeParts
  {
    TimeParts((seconds / 3600.0).Floor,
              (JsRem(seconds, 3600.0) / 60.0).Floor,
              JsRem(seconds, 60.0).Floor)
  }

  /** `formatTime(seconds)`: "Hh Mm", "Mm Ss" or "Ss". */
  function FormatTime(seconds: real): (s: string)
    ensures var p := Parts(seconds);
      && |s| >= 2
      && (s[|s| - 1] == 'm' <==> p.hours > 0)
      && (' ' in s <==> p.hours > 0 || p.minutes > 0)
  {
    var p := Parts(seconds);
    if p.hours > 0 then IntToString(p.hours) + "h " + IntToString(p.minutes) + "m"
    else if p.minutes > 0 then IntToString(p.minutes) + "m " + IntToString(p.secs) + "s"
    else IntToString(p.secs) + "s"
  }

  lemma MulCancelLe(d: real, a: real, b: real)
    requires d > 0.0 && d * a <= d * b
    ensures a <= b
  {
    if a > b {
      MulPositive(d, a - b);
    }
  }

  lemma MulCancelLt(d: real, a: real, b: real)
    requires d > 0.0 && d * a < d * b
    ensures a < b
  {
    if a >= b {
      MulNonNegative(d, a - b);
    }
  }

  /** Flooring commutes with dividing a non-negative number by a positive integer. */
  lemma FloorDiv(x: real, d: int)
    requires x >= 0.0 && d > 0
    ensures (x / d as real).Floor == x.Floor / d
    ensures (x - (d as real) * ((x.Floor / d) as real)).Floor == x.Floor % d
  {
    var n := x.Floor;
    var q, r := n / d, n % d;
    assert n == d * q + r && 0 <= r < d;
    var dd, qq := d as real, q as real;
    assert (n as real) == dd * qq + (r as real);
    assert (n as real) <= x < (n as real) + 1.0;
    var y := x / dd;
    assert dd * y == x;
    assert dd * (qq + 1.0) == dd * qq + dd;
    MulCancelLe(dd, qq, y);
    MulCancelLt(dd, y, qq + 1.0);
  }

  /** On non-negative input the JavaScript remainder by d keeps n % d whole units. */
  lemma JsRemFloor(x: real, d: int)
    requires x >= 0.0 && d > 0
    ensures JsRem(x, d as real) >= 0.0
    ensures JsRem(x, d as real).Floor == x.Floor % d
  {
    FloorDiv(x, d);
    assert Trunc(x / d as real) == x.Floor / d;
  }

  /** Division by 60 is determined by any quotient and remainder. */
  lemma DivModSixty(n: int, k: int, r: int)
    requires n == 60 * k + r && 0 <= r < 60
    ensures n / 60 == k && n % 60 == r
  {
  }

  /** The base-60 digits of a whole number of seconds. */
  lemma BaseSixty(n: int)
    requires n >= 0
    ensures 0 <= (n % 3600) / 60 <= 59 && 0 <= n % 60 <= 59 && n / 3600 >= 0
    ensures (n / 3600) * 3600 + ((n % 3600) / 60) * 60 + n % 60 == n
  {
    var h, rest := n / 3600, n % 3600;
    var m, sec := rest / 60, rest % 60;
    assert rest == 60 * m + sec;
    DivModSixty(n, 60 * h + m, sec);
  }

  /** For non-negative input the fields are the base-60 digits of the whole seconds. */
  lemma PartsOfNonNegative(seconds: real)
    requires seconds >= 0.0
    ensures var n, p := seconds.Floor, Parts(seconds);
      && p.hours == n / 3600 && p.minutes == (n % 3600) / 60 && p.secs == n % 60
      && 0 <= p.minutes <= 59 && 0 <= p.secs <= 59 && p.hours >= 0
      && p.hours * 3600 + p.minutes * 60 + p.secs == n
  {
    var n := seconds.Floor;
    FloorDiv(seconds, 3600);
    JsRemFloor(seconds, 3600);
    JsRemFloor(seconds, 60);
    var rest := JsRem(seconds, 3600.0);
    FloorDiv(rest, 60);
    BaseSixty(n);
  }

  /**
   * formatTime on a non-negative duration, stated on the whole number of
   * seconds n: at least an hour prints hours and minutes, at least a minute
   * prints minutes and seconds, anything shorter prints seconds.
   */
  lemma FormatTimeShape(seconds: real)
    requires seconds >= 0.0
    ensures var n := seconds.Floor;
      FormatTime(seconds) ==
        if n >= 3600 then NatToString(n / 3600) + "h " + NatToString((n % 3600) / 60) + "m"
        else if n >= 60 then NatToString(n / 60) + "m " + NatToString(n % 60) + "s"
        else NatToString(n) + "s"
  {
    PartsOfNonNegative(seconds);
    var n, p := seconds.Floor, Parts(seconds);
    if n >= 3600 {
      assert p.hours > 0;
    } else if n >= 60 {
      assert p.hours == 0 && p.minutes == n / 60 > 0 && p.secs == n % 60;
    } else {
      assert p.hours == 0 && p.minutes == 0 && p.secs == n;
    }
  }

  // ---------------------------------------------------------------------
  // Colours: hexToRgb, rgbToHex, interpolateColor
  // ---------------------------------------------------------------------

  datatype Rgb = Rgb(r: int, g: int, b: int)

  /** A character matched by `[a-f\d]` under the case-insensitive flag. */
  predicate IsHexDigit(c: char)
  {
    ('0' <= c <= '9') || ('a' <= c <= 'f') || ('A' <= c <= 'F')
  }

  function HexValue(c: char): (v: nat)
    requires IsHexDigit(c)
    ensures v < 16
  {
    if '0' <= c <= '9' then (c as int) - ('0' as int)
    else if 'a' <= c <= 'f' then (c as int) - ('a' as int) + 10
    else (c as int) - ('A' as int) + 10
  }

  /** The lower-case digit `toString(16)` prints for v. */
  function HexChar(v: nat): (c: char)
    requires v < 16
    ensures IsHexDigit(c) && IsLowerHexDigit(c)
  {
    "0123456789abcdef"[v]
  }

  predicate IsLowerHexDigit(c: char)
  {
    ('0' <= c <= '9') || ('a' <= c <= 'f')
  }

  lemma HexValueOfHexChar(v: nat)
    requires v < 16
    ensures HexValue(HexChar(v)) == v && IsLowerHexDigit(HexChar(v))
  {
  }

  /** Six hex digits, optionally preceded by '#': what the colour regex accepts. */
  predicate IsHexColor(hex: string)
  {
    || (|hex| == 6 && forall k :: 0 <= k < 6 ==> IsHexDigit(hex[k]))
    || (|hex| == 7 && hex[0] == '#' && forall k :: 1 <= k < 7 ==> IsHexDigit(hex[k]))
  }

  /** The six digits of a colour accepted by IsHexColor. */
  function ColorDigits(hex: string): (d: string)
    requires IsHexColor(hex)
    ensures |d| == 6 && forall k :: 0 <= k < 6 ==> IsHexDigit(d[k])
  {
    if |hex| == 7 then hex[1..] else hex
  }

  /** `parseInt` of two hex digits. */
  function ParseHexPair(hi: char, lo: char): (v: int)
    requires IsHexDigit(hi) && IsHexDigit(lo)
    ensures 0 <= v <= 255
  {
    16 * HexValue(hi) + HexValue(lo)
  }

  /** `hexToRgb(hex)`: the three components, or null. */
  function HexToRgb(hex: string): (c: Option<Rgb>)
    ensures c.Some? <==> IsHexColor(hex)
    ensures c.Some? ==> 0 <= c.value.r <= 255 && 0 <= c.value.g <= 255 && 0 <= c.value.b <= 255
  {
    var d := if |hex| > 0 && hex[0] == '#' then hex[1..] else hex;
    if |d| == 6 && forall k :: 0 <= k < 6 ==> IsHexDigit(d[k]) then
      Some(Rgb(ParseHexPair(d[0], d[1]), ParseHexPair(d[2], d[3]), ParseHexPair(d[4], d[5])))
    else
      None
  }

  /** ECMAScript ToInt32: the value modulo 2^32, read as a signed 32-bit integer. */
  function ToInt32(x: int): (r: int)
    ensures -0x8000_0000 <= r < 0x8000_0000
    ensures (r - x) % 0x1_0000_0000 == 0
  {
    var m := x % 0x1_0000_0000;
    if m >= 0x8000_0000 then m - 0x1_0000_0000 else m
  }

  /** `x << k`, where `scale` is 2^k for a shift count 0 <= k < 32. */
  function ShiftLeft(x: int, scale: nat): int
  {
    ToInt32(ToInt32(x) * scale)
  }

  /** Hex digits of a natural number, as `toString(16)` prints them. */
  function HexString(v: nat): (s: string)
    ensures |s| > 0
    ensures forall k :: 0 <= k < |s| ==> IsLowerHexDigit(s[k])
  {
    if v < 16 then [HexChar(v)] else HexString(v / 16) + [HexChar(v % 16)]
  }

  /** `toString(16)` of an integer. */
  function JsToHex(v: int): (s: string)
    ensures |s| > 0
    ensures s[0] == '-' <==> v < 0
    ensures forall k :: 1 <= k < |s| ==> IsLowerHexDigit(s[k])
  {
    if v < 0 then "-" + HexString(-v) else HexString(v)
  }

  /** `rgbToHex(r, g, b) = '#' + ((1 << 24) + (r << 16) + (g << 8) + b).toString(16).slice(1)`. */
  function RgbToHex(r: int, g: int, b: int): (s: string)
    ensures |s| >= 1 && s[0] == '#'
    ensures forall k :: 1 <= k < |s| ==> IsLowerHexDigit(s[k])
  {
    "#" + JsToHex(ShiftLeft(1, 0x100_0000) + ShiftLeft(r, 0x1_0000) + ShiftLeft(g, 0x100) + b)[1..]
  }

  /** The two lower-case hex digits of a byte. */
  function ByteDigits(v: int): (s: string)
    requires 0 <= v <= 255
    ensures |s| == 2
  {
    [HexChar(v / 16), HexChar(v % 16)]
  }

  /** ToInt32 leaves a non-negative 32-bit value alone. */
  lemma ToInt32Small(x: int)
    requires 0 <= x < 0x8000_0000
    ensures ToInt32(x) == x
  {
  }

  /** A shift of a small non-negative value is a multiplication. */
  lemma ShiftLeftSmall(x: int, scale: nat)
    requires 0 <= x < 0x8000_0000 && x * scale < 0x8000_0000
    ensures ShiftLeft(x, scale) == x * scale
  {
    ToInt32Small(x);
    ToInt32Small(x * scale);
  }

  /** One step of HexString, with the quotient and remainder given. */
  lemma HexStringStep(v: nat, q: nat, m: nat)
    requires v == 16 * q + m && m < 16 && q > 0
    ensures HexString(v) == HexString(q) + [HexChar(m)]
  {
    assert v / 16 == q && v % 16 == m;
  }

  /** Appending two base-16 digits to q appends their characters. */
  lemma HexStringAppendDigits(q: nat, hi: nat, lo: nat)
    requires q > 0 && hi < 16 && lo < 16
    ensures HexString(256 * q + 16 * hi + lo) == HexString(q) + [HexChar(hi), HexChar(lo)]
  {
    var m := 16 * q + hi;
    HexStringStep(256 * q + 16 * hi + lo, m, lo);
    HexStringStep(m, q, hi);
  }

  /** Appending a byte in base 256 appends its two hex digits. */
  lemma HexStringAppendByte(q: nat, x: int)
    requires q > 0 && 0 <= x <= 255
    ensures HexString(256 * q + x) == HexString(q) + ByteDigits(x)
  {
    var hi, lo := x / 16, x % 16;
    assert x == 16 * hi + lo;
    HexStringAppendDigits(q, hi, lo);
  }

  lemma HexStringOfPacked1(r: int)
    requires 0 <= r <= 255
    ensures HexString(256 + r) == "1" + ByteDigits(r)
  {
    assert HexString(1) == "1";
    HexStringAppendByte(1, r);
  }

  lemma HexStringOfPacked2(r: int, g: int)
    requires 0 <= r <= 255 && 0 <= g <= 255
    ensures HexString(256 * (256 + r) + g) == "1" + ByteDigits(r) + ByteDigits(g)
  {
    HexStringOfPacked1(r);
    HexStringAppendByte(256 + r, g);
  }

  /** The number rgbToHex renders, for in-range components, prints as '1' and six digits. */
  lemma HexStringOfPacked(r: int, g: int, b: int)
    requires 0 <= r <= 255 && 0 <= g <= 255 && 0 <= b <= 255
    ensures HexString(256 * (256 * (256 + r) + g) + b)
         == "1" + ByteDigits(r) + ByteDigits(g) + ByteDigits(b)
  {
    var q2 := 256 * (256 + r) + g;
    HexStringOfPacked2(r, g);
    HexStringAppendByte(q2, b);
  }

  /** For in-range components the shifted sum rgbToHex builds is 0x1rrggbb. */
  lemma PackedValue(r: int, g: int, b: int)
    requires 0 <= r <= 255 && 0 <= g <= 255 && 0 <= b <= 255
    ensures ShiftLeft(1, 0x100_0000) + ShiftLeft(r, 0x1_0000) + ShiftLeft(g, 0x100) + b
         == 256 * (256 * (256 + r) + g) + b
  {
    ShiftLeftSmall(1, 0x100_0000);
    ShiftLeftSmall(r, 0x1_0000);
    ShiftLeftSmall(g, 0x100);
  }

  /** For in-range components rgbToHex prints '#' and two digits per component. */
  lemma RgbToHexDigits(r: int, g: int, b: int)
    requires 0 <= r <= 255 && 0 <= g <= 255 && 0 <= b <= 255
    ensures RgbToHex(r, g, b) == "#" + ByteDigits(r) + ByteDigits(g) + ByteDigits(b)
  {
    var v := 256 * (256 * (256 + r) + g) + b;
    RgbToHexOfPacked(r, g, b);
    HexStringOfPacked(r, g, b);
    DropLeadingOne(HexString(v), ByteDigits(r) + ByteDigits(g) + ByteDigits(b));
  }

  /** For in-range components the shifted sum is the non-negative packed number. */
  lemma RgbToHexOfPacked(r: int, g: int, b: int)
    requires 0 <= r <= 255 && 0 <= g <= 255 && 0 <= b <= 255
    ensures RgbToHex(r, g, b) == "#" + HexString(256 * (256 * (256 + r) + g) + b)[1..]
  {
    PackedValue(r, g, b);
  }

  /** Slicing off the leading '1' of "1" + t and prefixing '#' gives "#" + t. */
  lemma DropLeadingOne(x: string, t: string)
    requires x == "1" + t
    ensures "#" + x[1..] == "#" + t
  {
    assert x[1..] == t;
  }

  /** rgbToHex yields '#' followed by six lower-case hex digits. */
  lemma RgbToHexWellFormed(r: int, g: int, b: int)
    requires 0 <= r <= 255 && 0 <= g <= 255 && 0 <= b <= 255
    ensures var s := RgbToHex(r, g, b);
      |s| == 7 && s[0] == '#' && forall k :: 1 <= k < 7 ==> IsLowerHexDigit(s[k])
  {
    RgbToHexDigits(r, g, b);
    ParseByteDigits(r);
    ParseByteDigits(g);
    ParseByteDigits(b);
    var s := RgbToHex(r, g, b);
    assert s[1] == ByteDigits(r)[0] && s[2] == ByteDigits(r)[1];
    assert s[3] == ByteDigits(g)[0] && s[4] == ByteDigits(g)[1];
    assert s[5] == ByteDigits(b)[0] && s[6] == ByteDigits(b)[1];
  }

  lemma ParseByteDigits(v: int)
    requires 0 <= v <= 255
    ensures IsLowerHexDigit(ByteDigits(v)[0]) && IsLowerHexDigit(ByteDigits(v)[1])
    ensures ParseHexPair(ByteDigits(v)[0], ByteDigits(v)[1]) == v
  {
    HexValueOfHexChar(v / 16);
    HexValueOfHexChar(v % 16);
  }

  /** hexToRgb of '#' and six hex digits reads the three pairs. */
  lemma HexToRgbOfHashed(s: string)
    requires |s| == 7 && s[0] == '#' && forall k :: 1 <= k < 7 ==> IsHexDigit(s[k])
    ensures HexToRgb(s) == Some(Rgb(ParseHexPair(s[1], s[2]), ParseHexPair(s[3], s[4]), ParseHexPair(s[5], s[6])))
  {
    var d := s[1..];
    assert forall k :: 0 <= k < 6 ==> IsHexDigit(d[k]) by {
      forall k | 0 <= k < 6 ensures IsHexDigit(d[k]) { assert d[k] == s[k + 1]; }
    }
  }

  /** Round trip: hexToRgb(rgbToHex(r, g, b)) = {r, g, b}. */
  lemma HexRoundTrip(r: int, g: int, b: int)
    requires 0 <= r <= 255 && 0 <= g <= 255 && 0 <= b <= 255
    ensures HexToRgb(RgbToHex(r, g, b)) == Some(Rgb(r, g, b))
  {
    RgbToHexWellFormed(r, g, b);
    RgbToHexDigits(r, g, b);
    ParseByteDigits(r);
    ParseByteDigits(g);
    ParseByteDigits(b);
    var s := RgbToHex(r, g, b);
    assert s[1] == ByteDigits(r)[0] && s[2] == ByteDigits(r)[1];
    assert s[3] == ByteDigits(g)[0] && s[4] == ByteDigits(g)[1];
    assert s[5] == ByteDigits(b)[0] && s[6] == ByteDigits(b)[1];
    HexToRgbOfHashed(s);
  }

  /** A hex digit in lower case. */
  function LowerHexDigit(c: char): (l: char)
    requires IsHexDigit(c)
    ensures IsLowerHexDigit(l)
  {
    HexValueOfHexChar(HexValue(c));
    HexChar(HexValue(c))
  }

  /** The canonical '#rrggbb' lower-case spelling of an accepted colour. */
  function Canonical(hex: string): (s: string)
    requires IsHexColor(hex)
    ensures |s| == 7
  {
    var d := ColorDigits(hex);
    "#" + seq(6, k requires 0 <= k < 6 => LowerHexDigit(d[k]))
  }

  /** hexToRgb reads the three digit pairs of an accepted colour. */
  lemma HexToRgbPairs(hex: string)
    requires IsHexColor(hex)
    ensures var d := ColorDigits(hex);
      HexToRgb(hex) == Some(Rgb(ParseHexPair(d[0], d[1]), ParseHexPair(d[2], d[3]), ParseHexPair(d[4], d[5])))
  {
    if |hex| == 7 {
      HexToRgbOfHashed(hex);
    }
  }

  /** Printing a parsed digit pair gives the pair back in lower case. */
  lemma ByteDigitsOfPair(hi: char, lo: char)
    requires IsHexDigit(hi) && IsHexDigit(lo)
    ensures ByteDigits(ParseHexPair(hi, lo)) == [LowerHexDigit(hi), LowerHexDigit(lo)]
  {
    var v := ParseHexPair(hi, lo);
    assert v / 16 == HexValue(hi) && v % 16 == HexValue(lo);
  }

  /** Printing the three parsed pairs of six digits gives the digits back in lower case. */
  lemma ByteDigitsOfPairs(d: string)
    requires |d| == 6 && forall k :: 0 <= k < 6 ==> IsHexDigit(d[k])
    ensures ByteDigits(ParseHexPair(d[0], d[1])) + ByteDigits(ParseHexPair(d[2], d[3]))
          + ByteDigits(ParseHexPair(d[4], d[5]))
         == seq(6, k requires 0 <= k < 6 => LowerHexDigit(d[k]))
  {
    var l := seq(6, k requires 0 <= k < 6 => LowerHexDigit(d[k]));
    ByteDigitsOfPair(d[0], d[1]);
    ByteDigitsOfPair(d[2], d[3]);
    ByteDigitsOfPair(d[4], d[5]);
    ConcatPairs(ByteDigits(ParseHexPair(d[0], d[1])), ByteDigits(ParseHexPair(d[2], d[3])),
                ByteDigits(ParseHexPair(d[4], d[5])), l);
  }

  /** Three two-character strings spelling consecutive pairs of l make up l. */
  lemma ConcatPairs(a: string, b: string, c: string, l: string)
    requires |l| == 6 && a == [l[0], l[1]] && b == [l[2], l[3]] && c == [l[4], l[5]]
    ensures a + b + c == l
  {
    assert l == [l[0], l[1]] + [l[2], l[3]] + [l[4], l[5]];
  }

  /** The other round trip: rgbToHex(hexToRgb(hex)) is hex in canonical spelling. */
  lemma RgbOfHexRoundTrip(hex: string)
    requires IsHexColor(hex)
    ensures var c := HexToRgb(hex).value; RgbToHex(c.r, c.g, c.b) == Canonical(hex)
  {
    HexToRgbPairs(hex);
    var d := ColorDigits(hex);
    var r, g, b := ParseHexPair(d[0], d[1]), ParseHexPair(d[2], d[3]), ParseHexPair(d[4], d[5]);
    RgbToHexDigits(r, g, b);
    ByteDigitsOfPairs(d);
  }

  /** JavaScript `Math.round` on the values used here: floor(x + 0.5). */
  function Round(x: real): int
  {
    (x + 0.5).Floor
  }

  /** `interpolateColor(color1, color2, factor)`. */
  function InterpolateColor(color1: string, color2: string, factor: real): (s: string)
    ensures !IsHexColor(color1) || !IsHexColor(color2) ==> s == color1
    ensures IsHexColor(color1) && IsHexColor(color2) ==>
      |s| >= 1 && s[0] == '#' && forall k :: 1 <= k < |s| ==> IsLowerHexDigit(s[k])
  {
    var c1 := HexToRgb(color1);
    var c2 := HexToRgb(color2);
    if c1.None? || c2.None? then color1
    else
      RgbToHex(Round(Lerp(c1.value.r as real, c2.value.r as real, factor)),
               Round(Lerp(c1.value.g as real, c2.value.g as real, factor)),
               Round(Lerp(c1.value.b as real, c2.value.b as real, factor)))
  }

  lemma InterpolateUnparsable(color1: string, color2: string, factor: real)
    requires !IsHexColor(color1) || !IsHexColor(color2)
    ensures InterpolateColor(color1, color2, factor) == color1
  {
  }

  lemma RoundOfInt(n: int)
    ensures Round(n as real) == n
  {
  }

  /** Factor 0 gives the first colour, in canonical spelling. */
  lemma InterpolateAtZero(color1: string, color2: string)
    requires IsHexColor(color1) && IsHexColor(color2)
    ensures InterpolateColor(color1, color2, 0.0) == Canonical(color1)
  {
    var c1, c2 := HexToRgb(color1).value, HexToRgb(color2).value;
    LerpEndpoints(c1.r as real, c2.r as real);
    LerpEndpoints(c1.g as real, c2.g as real);
    LerpEndpoints(c1.b as real, c2.b as real);
    RoundOfInt(c1.r);
    RoundOfInt(c1.g);
    RoundOfInt(c1.b);
    RgbOfHexRoundTrip(color1);
  }

  /** Factor 1 gives the second colour, in canonical spelling. */
  lemma InterpolateAtOne(color1: string, color2: string)
    requires IsHexColor(color1) && IsHexColor(color2)
    ensures InterpolateColor(color1, color2, 1.0) == Canonical(color2)
  {
    var c1, c2 := HexToRgb(color1).value, HexToRgb(color2).value;
    LerpEndpoints(c1.r as real, c2.r as real);
    LerpEndpoints(c1.g as real, c2.g as real);
    LerpEndpoints(c1.b as real, c2.b as real);
    RoundOfInt(c2.r);
    RoundOfInt(c2.g);
    RoundOfInt(c2.b);
    RgbOfHexRoundTrip(color2);
  }

  lemma RoundBetween(x: real, lo: int, hi: int)
    requires lo as real <= x <= hi as real
    ensures lo <= Round(x) <= hi
  {
  }

  /** With a factor in [0, 1] the blend of two colours is itself a colour. */
  lemma InterpolateIsColor(color1: string, color2: string, factor: real)
    requires IsHexColor(color1) && IsHexColor(color2) && 0.0 <= factor <= 1.0
    ensures var s := InterpolateColor(color1, color2, factor);
      IsHexColor(s) && |s| == 7 && s[0] == '#' && forall k :: 1 <= k < 7 ==> IsLowerHexDigit(s[k])
  {
    var c1, c2 := HexToRgb(color1).value, HexToRgb(color2).value;
    LerpBetween(c1.r as real, c2.r as real, factor);
    LerpBetween(c1.g as real, c2.g as real, factor);
    LerpBetween(c1.b as real, c2.b as real, factor);
    var r := Round(Lerp(c1.r as real, c2.r as real, factor));
    var g := Round(Lerp(c1.g as real, c2.g as real, factor));
    var b := Round(Lerp(c1.b as real, c2.b as real, factor));
    RoundBetween(Lerp(c1.r as real, c2.r as real, factor), 0, 255);
    RoundBetween(Lerp(c1.g as real, c2.g as real, factor), 0, 255);
    RoundBetween(Lerp(c1.b as real, c2.b as real, factor), 0, 255);
    RgbToHexWellFormed(r, g, b);
    HexRoundTrip(r, g, b);
  }
}
