/** server/src/ui-branding.ts and cli/src/commands/worktree-lib.ts: the colour of a worktree.

    Colours are computed over exact reals: rounding of floating-point numbers is not part of this model. */
module HslColor {
  import opened Text

  // ---------- hexadecimal text ----------

  predicate IsHexDigit(c: char) {
    '0' <= c <= '9' || 'a' <= c <= 'f' || 'A' <= c <= 'F'
  }

  function Lower(c: char): char {
    if 'A' <= c <= 'F' then c - 'A' + 'a' else c
  }

  function LowerText(s: string): string {
    if s == "" then "" else [Lower(s[0])] + LowerText(s[1..])
  }

  function Doubled(s: string): string {
    if s == "" then "" else [s[0], s[0]] + Doubled(s[1..])
  }

  predicate AllHex(s: string) {
    forall k :: 0 <= k < |s| ==> IsHexDigit(s[k])
  }

  /** A lower-case #rrggbb colour. */
  predicate IsColor(s: string) {
    |s| == 7 && s[0] == '#' && forall k :: 0 < k < 7 ==> IsHexDigit(s[k]) && Lower(s[k]) == s[k]
  }

  /** `normalizeHexColor` of a value that is set. */
  function NormalizeHexColor(value: string): Option<string> {
    var raw := Trim(value);
    var hex := if StartsWith(raw, "#") then raw[1..] else raw;
    if raw == "" then None
    else if |hex| == 3 && AllHex(hex) then Some("#" + LowerText(Doubled(hex)))
    else if |hex| == 6 && AllHex(hex) then Some("#" + LowerText(hex))
    else None
  }

  lemma {:induction false} LowerTextAt(s: string)
    ensures |LowerText(s)| == |s| && forall k :: 0 <= k < |s| ==> LowerText(s)[k] == Lower(s[k])
  {
    if s != "" {
      LowerTextAt(s[1..]);
    }
  }

  lemma {:induction false} TrimOfTrimmed(s: string)
    requires Trimmed(s)
    ensures Trim(s) == s
  {
  }

  lemma DoubledThree(hex: string)
    requires |hex| == 3
    ensures Doubled(hex) == [hex[0], hex[0], hex[1], hex[1], hex[2], hex[2]]
  {
    var one, two := hex[2..], hex[1..];
    assert one[1..] == "" && two[1..] == one;
    assert Doubled(one) == [hex[2], hex[2]];
    assert Doubled(two) == [hex[1], hex[1]] + Doubled(one);
  }

  /** Normalising yields a lower-case #rrggbb colour, and leaves exactly such colours alone. */
  lemma NormalColors(value: string)
    ensures NormalizeHexColor(value).Some? ==> IsColor(NormalizeHexColor(value).value)
    ensures NormalizeHexColor(value) == Some(value) <==> IsColor(value)
  {
    hide Doubled, LowerText, TrimStart, TrimEnd;
    var raw := Trim(value);
    var hex := if StartsWith(raw, "#") then raw[1..] else raw;
    LowerTextAt(hex);
    LowerTextAt(Doubled(hex));
    if |hex| == 3 {
      DoubledThree(hex);
    }
    if IsColor(value) {
      assert !IsSpace(value[6]) && !IsSpace(value[0]);
      TrimOfTrimmed(value);
      assert value[..1] == "#";
      assert hex == value[1..] && forall k :: 0 <= k < 6 ==> hex[k] == value[k + 1];
      assert LowerText(hex) == hex && value == "#" + hex;
      assert AllHex(hex);
    }
  }

  // ---------- hsl to rgb ----------

  function Clamp(lo: real, hi: real, x: real): real
    requires lo <= hi
  {
    if x < lo then lo else if x > hi then hi else x
  }

  function Abs(x: real): real {
    if x < 0.0 then -x else x
  }

  /** The remainder of JavaScript: it has the sign of the dividend. */
  function Remainder(x: real, n: real): real
    requires n > 0.0
  {
    if x >= 0.0 then x - n * (x / n).Floor as real else -(-x - n * (-x / n).Floor as real)
  }

  lemma RemainderOfCircle(x: real)
    ensures x >= 0.0 ==> 0.0 <= Remainder(x, 360.0) < 360.0
    ensures x < 0.0 ==> -360.0 < Remainder(x, 360.0) <= 0.0
    ensures 0.0 <= x < 360.0 ==> Remainder(x, 360.0) == x
    ensures 360.0 <= x < 720.0 ==> Remainder(x, 360.0) == x - 360.0
  {
    var q := (if x >= 0.0 then x else -x) / 360.0;
    assert q.Floor as real <= q < q.Floor as real + 1.0;
  }

  function Hue(hue: real): (h: real)
    ensures 0.0 <= h < 360.0
  {
    RemainderOfCircle(hue);
    RemainderOfCircle(Remainder(hue, 360.0) + 360.0);
    Remainder(Remainder(hue, 360.0) + 360.0, 360.0)
  }

  datatype Rgb = Rgb(r: real, g: real, b: real)

  function Times(a: real, b: real): real {
    a * b
  }

  /** The largest chroma a colour of this lightness can have. */
  function Width(l: real): real {
    1.0 - Abs(2.0 * l - 1.0)
  }

  function Chroma(s: real, l: real): real {
    Times(Width(l), s)
  }

  function Second(c: real, h: real): real
    requires 0.0 <= h
  {
    Times(c, 1.0 - Abs(Remainder(h / 60.0, 2.0) - 1.0))
  }

  /** Saturation and lightness as fractions, hue in degrees from 0 up to but excluding 360. */
  function Channels(h: real, s: real, l: real): Rgb
    requires 0.0 <= h < 360.0
  {
    var c := Chroma(s, l);
    var x := Second(c, h);
    var m := l - c / 2.0;
    if h < 60.0 then Rgb(c + m, x + m, 0.0 + m)
    else if h < 120.0 then Rgb(x + m, c + m, 0.0 + m)
    else if h < 180.0 then Rgb(0.0 + m, c + m, x + m)
    else if h < 240.0 then Rgb(0.0 + m, x + m, c + m)
    else if h < 300.0 then Rgb(x + m, 0.0 + m, c + m)
    else Rgb(c + m, 0.0 + m, x + m)
  }

  function Max3(p: Rgb): real {
    var u := if p.r >= p.g then p.r else p.g;
    if u >= p.b then u else p.b
  }

  function Min3(p: Rgb): real {
    var u := if p.r <= p.g then p.r else p.g;
    if u <= p.b then u else p.b
  }

  /** The hue of a colour of chroma c, in degrees. */
  function HueIn(p: Rgb, c: real): real
    requires c > 0.0
  {
    var sixth :=
      if Max3(p) == p.r then (if p.g >= p.b then (p.g - p.b) / c else (p.g - p.b) / c + 6.0)
      else if Max3(p) == p.g then (p.b - p.r) / c + 2.0
      else (p.r - p.g) / c + 4.0;
    60.0 * sixth
  }

  function HueOf(p: Rgb): real
    requires Max3(p) > Min3(p)
  {
    HueIn(p, Max3(p) - Min3(p))
  }

  predicate Fraction(x: real) {
    0.0 <= x <= 1.0
  }

  lemma Scaled(w: real, f: real)
    requires w >= 0.0 && Fraction(f)
    ensures 0.0 <= Times(w, f) <= w
  {
    assert w - w * f == w * (1.0 - f);
  }

  lemma WidthRange(l: real)
    requires Fraction(l)
    ensures 0.0 <= Width(l) && 0.0 <= l - Width(l) / 2.0 && l + Width(l) / 2.0 <= 1.0
  {
  }

  lemma ChromaRange(s: real, l: real)
    requires Fraction(s) && Fraction(l)
    ensures 0.0 <= Chroma(s, l) <= Width(l)
  {
    hide Width, Times;
    WidthRange(l);
    Scaled(Width(l), s);
  }

  /** Which sixth of the circle h lies in, and how far into it: the second channel rises in the even sixths. */
  lemma SecondAt(c: real, h: real, k: int)
    requires 0 <= k < 6 && k as real * 60.0 <= h < (k + 1) as real * 60.0 && c >= 0.0
    ensures var t := h / 60.0 - k as real;
            var f := if k % 2 == 0 then t else 1.0 - t;
            0.0 <= t < 1.0 && Second(c, h) == Times(c, f) && 0.0 <= Second(c, h) <= c
  {
    hide Times;
    var q := h / 60.0;
    var t := q - k as real;
    var f := if k % 2 == 0 then t else 1.0 - t;
    assert (q / 2.0).Floor == k / 2;
    var e := 1.0 - Abs(Remainder(q, 2.0) - 1.0);
    assert e == f;
    Scaled(c, f);
  }

  lemma Sixth(h: real) returns (k: int)
    requires 0.0 <= h < 360.0
    ensures 0 <= k < 6 && k as real * 60.0 <= h < (k + 1) as real * 60.0
  {
    k := if h < 60.0 then 0 else if h < 120.0 then 1 else if h < 180.0 then 2
         else if h < 240.0 then 3 else if h < 300.0 then 4 else 5;
  }

  /** Every channel lies between 0 and 1 before any clamping, and the colour has the lightness and the chroma
      asked for. */
  lemma ChannelsMeasured(h: real, s: real, l: real)
    requires 0.0 <= h < 360.0 && Fraction(s) && Fraction(l)
    ensures var p := Channels(h, s, l);
            && Fraction(p.r) && Fraction(p.g) && Fraction(p.b)
            && Max3(p) + Min3(p) == 2.0 * l
            && Max3(p) - Min3(p) == Chroma(s, l)
  {
    WidthRange(l);
    ChromaRange(s, l);
    var k := Sixth(h);
    SecondAt(Chroma(s, l), h, k);
    hide Width, Chroma, Second;
  }

  lemma Quotient(num: real, c: real, t: real)
    requires c > 0.0 && num == Times(c, t)
    ensures num / c == t
  {
  }

  /** The hue of channels given as offset, chroma and how far into sixth k they are. */
  lemma HueOfSixth(p: Rgb, m: real, c: real, x: real, k: int, t: real)
    requires c > 0.0 && 0 <= k < 6 && 0.0 <= t < 1.0 && 0.0 <= x <= c
    requires x == Times(c, if k % 2 == 0 then t else 1.0 - t)
    requires p == if k == 0 then Rgb(c + m, x + m, m) else if k == 1 then Rgb(x + m, c + m, m)
                  else if k == 2 then Rgb(m, c + m, x + m) else if k == 3 then Rgb(m, x + m, c + m)
                  else if k == 4 then Rgb(x + m, m, c + m) else Rgb(c + m, m, x + m)
    ensures Max3(p) > Min3(p) && HueOf(p) == 60.0 * (k as real + t)
  {
    hide Times;
    FarEnough(c, x, k, t);
    assert Max3(p) - Min3(p) == c;
    if k == 0 || k == 5 || Max3(p) == p.r {
      Quotient(p.g - p.b, c, if k == 0 then t else if k == 1 then 1.0 else t - 1.0);
    } else if Max3(p) == p.g {
      Quotient(p.b - p.r, c, if k == 1 then t - 1.0 else if k == 2 then t else 1.0);
    } else {
      Quotient(p.r - p.g, c, if k == 3 then t - 1.0 else t);
    }
  }

  /** Where the second channel reaches the chroma or is nothing. */
  lemma FarEnough(c: real, x: real, k: int, t: real)
    requires c > 0.0 && 0.0 <= t < 1.0
    requires x == Times(c, if k % 2 == 0 then t else 1.0 - t)
    ensures x == c ==> k % 2 == 1 && t == 0.0
    ensures k % 2 == 0 ==> x < c
    ensures k % 2 == 1 ==> x > 0.0
    ensures Times(c, t - 1.0) == Times(c, t) - c && Times(c, 1.0 - t) == c - Times(c, t) && Times(c, 1.0) == c
  {
    var f := if k % 2 == 0 then t else 1.0 - t;
    assert c - x == c * (1.0 - f);
    if f < 1.0 {
      Positive(c, 1.0 - f);
    }
    if k % 2 == 1 {
      Positive(c, f);
    }
  }

  lemma Positive(a: real, b: real)
    requires a > 0.0 && b > 0.0
    ensures a * b > 0.0
  {
  }

  /** The hue can be read back from the channels: the conversion picks the right branch in the right order. */
  lemma HueReadsBack(h: real, s: real, l: real)
    requires 0.0 <= h < 360.0 && Fraction(s) && Fraction(l) && Chroma(s, l) > 0.0
    ensures Max3(Channels(h, s, l)) > Min3(Channels(h, s, l)) && HueOf(Channels(h, s, l)) == h
  {
    hide Chroma, Second, Max3, Min3, HueOf, Times;
    var k := Sixth(h);
    var c := Chroma(s, l);
    SecondAt(c, h, k);
    HueOfSixth(Channels(h, s, l), l - c / 2.0, c, Second(c, h), k, h / 60.0 - k as real);
  }

  // ---------- to text ----------

  function HexChar(v: nat): char
    requires v < 16
  {
    if v < 10 then '0' + v as char else 'a' + (v - 10) as char
  }

  /** `toString(16)`. */
  function HexText(v: nat): string {
    if v < 16 then [HexChar(v)] else HexText(v / 16) + [HexChar(v % 16)]
  }

  function PadStart(s: string, n: nat, c: char): string
    decreases n
  {
    if |s| >= n then s else [c] + PadStart(s, n - 1, c)
  }

  function Round(x: real): int {
    (x + 0.5).Floor
  }

  function ComponentToHex(n: real): string {
    var v := Round(Clamp(0.0, 255.0, n));
    PadStart(HexText(v), 2, '0')
  }

  lemma ComponentDigits(n: real)
    ensures var v := Round(Clamp(0.0, 255.0, n));
            0 <= v < 256 && ComponentToHex(n) == [HexChar(v / 16), HexChar(v % 16)]
  {
    var v := Round(Clamp(0.0, 255.0, n));
    if v < 16 {
      assert PadStart([HexChar(v)], 2, '0') == ['0'] + PadStart([HexChar(v)], 1, '0');
    } else {
      assert HexText(v) == HexText(v / 16) + [HexChar(v % 16)];
    }
  }

  function HexOf(p: Rgb): string {
    "#" + ComponentToHex(p.r * 255.0) + ComponentToHex(p.g * 255.0) + ComponentToHex(p.b * 255.0)
  }

  lemma HexCharIsLower()
    ensures forall v: nat :: v < 16 ==> IsHexDigit(HexChar(v)) && Lower(HexChar(v)) == HexChar(v)
  {
  }

  lemma HexOfIsColor(p: Rgb)
    ensures IsColor(HexOf(p))
  {
    ComponentDigits(p.r * 255.0);
    ComponentDigits(p.g * 255.0);
    ComponentDigits(p.b * 255.0);
    hide ComponentToHex;
    HexCharIsLower();
  }

  lemma PercentIsFraction(x: real)
    ensures Fraction(Clamp(0.0, 100.0, x) / 100.0)
  {
  }

  /** The channels of a hue in degrees and two percentages, each taken into its range first. */
  function HslChannels(hue: real, saturation: real, lightness: real): Rgb {
    Channels(Hue(hue), Clamp(0.0, 100.0, saturation) / 100.0, Clamp(0.0, 100.0, lightness) / 100.0)
  }

  lemma HslChannelsInRange(hue: real, saturation: real, lightness: real)
    ensures var p := HslChannels(hue, saturation, lightness);
            Fraction(p.r) && Fraction(p.g) && Fraction(p.b)
  {
    hide Hue, Clamp, Channels, Max3, Min3, Chroma;
    PercentIsFraction(saturation);
    PercentIsFraction(lightness);
    ChannelsMeasured(Hue(hue), Clamp(0.0, 100.0, saturation) / 100.0, Clamp(0.0, 100.0, lightness) / 100.0);
  }

  /** The clamp of the components never acts: every channel is in range as it is. */
  lemma ClampNeverActs(hue: real, saturation: real, lightness: real)
    ensures var p := HslChannels(hue, saturation, lightness);
            && Clamp(0.0, 255.0, p.r * 255.0) == p.r * 255.0
            && Clamp(0.0, 255.0, p.g * 255.0) == p.g * 255.0
            && Clamp(0.0, 255.0, p.b * 255.0) == p.b * 255.0
  {
    hide HslChannels, Clamp;
    var p := HslChannels(hue, saturation, lightness);
    HslChannelsInRange(hue, saturation, lightness);
    ByteInRange(p.r);
    ByteInRange(p.g);
    ByteInRange(p.b);
  }

  lemma ByteInRange(x: real)
    requires Fraction(x)
    ensures Clamp(0.0, 255.0, x * 255.0) == x * 255.0
  {
  }

  /** `hslToHex`. */
  method HslToHex(hue: real, saturation: real, lightness: real) returns (color: string)
    ensures color == HexOf(HslChannels(hue, saturation, lightness))
    ensures IsColor(color) && NormalizeHexColor(color) == Some(color)
  {
    hide ComponentToHex, IsColor, NormalizeHexColor, Remainder, Abs, Clamp;
    var s := Clamp(0.0, 100.0, saturation) / 100.0;
    var l := Clamp(0.0, 100.0, lightness) / 100.0;
    var c := (1.0 - Abs(2.0 * l - 1.0)) * s;
    assert c == Chroma(s, l);
    hide Chroma;
    var h := Remainder(Remainder(hue, 360.0) + 360.0, 360.0);
    assert h == Hue(hue);
    hide Hue;
    var x := c * (1.0 - Abs(Remainder(h / 60.0, 2.0) - 1.0));
    var m := l - c / 2.0;
    assert x == Second(c, h);
    hide Second, Times, Width;
    var r, g, b := 0.0, 0.0, 0.0;
    if h < 60.0 {
      r := c;
      g := x;
    } else if h < 120.0 {
      r := x;
      g := c;
    } else if h < 180.0 {
      g := c;
      b := x;
    } else if h < 240.0 {
      g := x;
      b := c;
    } else if h < 300.0 {
      r := x;
      b := c;
    } else {
      r := c;
      b := x;
    }
    var p := Rgb(r + m, g + m, b + m);
    assert p == Channels(h, s, l);
    hide Channels;
    color := "#" + ComponentToHex((r + m) * 255.0) + ComponentToHex((g + m) * 255.0) + ComponentToHex((b + m) * 255.0);
    assert color == HexOf(p);
    HexOfIsColor(p);
    NormalColors(color);
  }

  // ---------- colour from a name ----------

  type CodePoint = x: int | 0 <= x < 0x110000

  /** `charCodeAt(0)` of a code point: itself, or the high half of its surrogate pair. */
  function FirstUnit(c: CodePoint): nat {
    if c < 0x10000 then c else 0xD800 + (c - 0x10000) / 0x400
  }

  function Hash(seed: seq<CodePoint>): nat {
    if seed == [] then 0
    else (Hash(seed[..|seed| - 1]) * 33 + FirstUnit(seed[|seed| - 1])) % 0x1_0000_0000
  }

  /** `deriveColorFromSeed`: the hash never leaves 32 bits, nor its intermediate value the 53 bits that JavaScript
      numbers hold exactly. */
  method DeriveColorFromSeed(seed: seq<CodePoint>) returns (color: string)
    ensures color == HexOf(HslChannels((Hash(seed) % 360) as real, 68.0, 56.0))
    ensures IsColor(color) && NormalizeHexColor(color) == Some(color)
  {
    var hash := 0;
    for k := 0 to |seed|
      invariant hash == Hash(seed[..k]) && 0 <= hash < 0x1_0000_0000
    {
      assert seed[..k + 1][..k] == seed[..k];
      var next := hash * 33 + FirstUnit(seed[k]);
      assert next < 0x20_0000_0000_0000;
      hash := next % 0x1_0000_0000;
    }
    assert seed[..|seed|] == seed;
    color := HslToHex((hash % 360) as real, 68.0, 56.0);
  }
}
