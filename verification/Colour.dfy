// The HSL conversion, in exact reals, and the published way back.
module Colour {

  datatype Rgb = Rgb(r: real, g: real, b: real)

  /** Hue in turns, saturation and lightness as fractions. */
  datatype Hsl = Hsl(h: real, s: real, l: real)

  predicate Unit(x: real)
  {
    0.0 <= x <= 1.0
  }

  predicate InGamut(c: Rgb)
  {
    Unit(c.r) && Unit(c.g) && Unit(c.b)
  }

  function Max(a: real, b: real): real
  {
    if a >= b then a else b
  }

  function Min(a: real, b: real): real
  {
    if a <= b then a else b
  }

  function MaxOf(c: Rgb): real
  {
    Max(c.r, Max(c.g, c.b))
  }

  function MinOf(c: Rgb): real
  {
    Min(c.r, Min(c.g, c.b))
  }

  function Lightness(c: Rgb): real
  {
    (MaxOf(c) + MinOf(c)) / 2.0
  }

  function Saturation(c: Rgb): real
    requires InGamut(c) && MaxOf(c) != MinOf(c)
  {
    var hi, lo := MaxOf(c), MinOf(c);
    if Lightness(c) > 0.5 then (hi - lo) / (2.0 - hi - lo) else (hi - lo) / (hi + lo)
  }

  /** Six times the hue. */
  function Sector(c: Rgb): real
    requires MaxOf(c) != MinOf(c)
  {
    var hi := MaxOf(c);
    var d := hi - MinOf(c);
    if hi == c.r then (c.g - c.b) / d + (if c.g < c.b then 6.0 else 0.0)
    else if hi == c.g then (c.b - c.r) / d + 2.0
    else (c.r - c.g) / d + 4.0
  }

  /** rgb_to_hsl after the transfer curve and before the rounding. */
  function RgbToHsl(c: Rgb): Hsl
    requires InGamut(c)
  {
    if MaxOf(c) != MinOf(c) then Hsl(Sector(c) / 6.0, Saturation(c), Lightness(c))
    else Hsl(0.0, 0.0, Lightness(c))
  }

  // ----- hslToRgb of CSS Color Module Level 4, section 7.1

  /** x modulo 12 for 0 <= x < 24. */
  function Mod12(x: real): real
  {
    if x >= 12.0 then x - 12.0 else x
  }

  function Ramp(k: real): real
  {
    Max(-1.0, Min(k - 3.0, Min(9.0 - k, 1.0)))
  }

  function Channel(n: real, c: Hsl): real
  {
    var a := c.s * Min(c.l, 1.0 - c.l);
    c.l - a * Ramp(Mod12(n + c.h * 12.0))
  }

  function HslToRgb(c: Hsl): Rgb
  {
    Rgb(Channel(0.0, c), Channel(8.0, c), Channel(4.0, c))
  }

  // ----- The way there stays in range

  lemma Quotient(n: real, d: real)
    requires d > 0.0
    ensures (n / d) * d == n
    ensures 0.0 <= n ==> 0.0 <= n / d
    ensures n <= d ==> n / d <= 1.0
    ensures -d <= n ==> -1.0 <= n / d
    ensures n < 0.0 ==> n / d < 0.0
  {
    var q := n / d;
    assert q * d == n;
    if 0.0 <= n && q < 0.0 { Sign(q, d); }
    assert (1.0 - q) * d == d - n && (q + 1.0) * d == n + d;
    if n <= d && q > 1.0 { Sign(1.0 - q, d); }
    if -d <= n && q < -1.0 { Sign(q + 1.0, d); }
    if n < 0.0 && q >= 0.0 { SignUp(q, d); }
  }

  lemma Sign(x: real, y: real)
    requires x < 0.0 && y > 0.0
    ensures x * y < 0.0
  {
  }

  lemma SignUp(x: real, y: real)
    requires x >= 0.0 && y > 0.0
    ensures x * y >= 0.0
  {
  }

  /** No denominator is zero, and hue, saturation and lightness are in range. */
  lemma HslInRange(c: Rgb)
    requires InGamut(c)
    ensures var hsl := RgbToHsl(c); 0.0 <= hsl.h < 1.0 && Unit(hsl.s) && Unit(hsl.l)
    ensures MaxOf(c) != MinOf(c) ==> MaxOf(c) - MinOf(c) > 0.0 && MaxOf(c) + MinOf(c) > 0.0
    ensures MaxOf(c) != MinOf(c) && Lightness(c) > 0.5 ==> 2.0 - MaxOf(c) - MinOf(c) > 0.0
  {
    var hi, lo := MaxOf(c), MinOf(c);
    if hi != lo {
      var d := hi - lo;
      if Lightness(c) > 0.5 { Quotient(d, 2.0 - hi - lo); } else { Quotient(d, hi + lo); }
      Quotient(c.g - c.b, d);
      Quotient(c.b - c.r, d);
      Quotient(c.r - c.g, d);
    }
  }

  /** The amplitude of the way back. */
  function Swing(c: Hsl): real
  {
    c.s * Min(c.l, 1.0 - c.l)
  }

  /** For a converted colour it is half the spread. */
  lemma SwingOfConverted(c: Rgb)
    requires InGamut(c) && MaxOf(c) != MinOf(c)
    ensures Swing(RgbToHsl(c)) == (MaxOf(c) - MinOf(c)) / 2.0
  {
    hide MaxOf, MinOf, Sector;
    HslInRange(c);
    HalfSpread(MaxOf(c), MinOf(c));
  }

  lemma HalfSpread(hi: real, lo: real)
    requires hi + lo > 0.0 && ((hi + lo) / 2.0 > 0.5 ==> 2.0 - hi - lo > 0.0)
    ensures var l := (hi + lo) / 2.0;
            var s := if l > 0.5 then (hi - lo) / (2.0 - hi - lo) else (hi - lo) / (hi + lo);
            s * Min(l, 1.0 - l) == (hi - lo) / 2.0
  {
    var l := (hi + lo) / 2.0;
    if l > 0.5 { Halve(hi - lo, 2.0 - hi - lo, 1.0 - l); } else { Halve(hi - lo, hi + lo, l); }
  }

  lemma Halve(n: real, whole: real, half: real)
    requires whole > 0.0 && whole == 2.0 * half
    ensures (n / whole) * half == n / 2.0
  {
    var q := n / whole;
    assert q * whole == n;
    assert q * whole == 2.0 * (q * half);
  }

  // ----- The three channels, told by the position on the hue ring

  /** The ramp at p + 2q on the ring, for p = 0, 4, 8 and q between -1 and 1. */
  function RingRamp(p: real, q: real): real
  {
    if p == 0.0 then -1.0
    else if p == 4.0 then (if q >= 0.0 then 1.0 else 1.0 + 2.0 * q)
    else (if q >= 0.0 then 1.0 - 2.0 * q else 1.0)
  }

  lemma ChannelOnRing(c: Hsl, n: real, p: real, q: real)
    requires -1.0 <= q <= 1.0 && (p == 0.0 || p == 4.0 || p == 8.0)
    requires 0.0 <= n + c.h * 12.0 < 24.0
    requires n + c.h * 12.0 == p + 2.0 * q || n + c.h * 12.0 == p + 2.0 * q + 12.0
    ensures Channel(n, c) == RingLevel(c.l, Swing(c), Swing(c) * q, p, q)
  {
    var k := Mod12(n + c.h * 12.0);
    assert Ramp(k) == RingRamp(p, q) by {
      RampOnRing(k, p, q);
    }
    hide Ramp, RingRamp, Mod12, Min, RingLevel;
    RampLevel(c.l, Swing(c), p, q);
  }

  /** The channel at that ring position; `aq` stands for a * q. */
  function RingLevel(l: real, a: real, aq: real, p: real, q: real): real
  {
    if p == 0.0 then l + a
    else if p == 4.0 then (if q >= 0.0 then l - a else l - a - 2.0 * aq)
    else (if q >= 0.0 then l - a + 2.0 * aq else l - a)
  }

  lemma RampLevel(l: real, a: real, p: real, q: real)
    ensures l - a * RingRamp(p, q) == RingLevel(l, a, a * q, p, q)
  {
    Products(a, q);
  }

  lemma RampOnRing(k: real, p: real, q: real)
    requires -1.0 <= q <= 1.0 && (p == 0.0 || p == 4.0 || p == 8.0) && 0.0 <= k < 12.0
    requires k == p + 2.0 * q || k == p + 2.0 * q + 12.0 || k == p + 2.0 * q - 12.0
    ensures Ramp(k) == RingRamp(p, q)
  {
  }

  lemma Products(a: real, q: real)
    ensures a * -1.0 == -a && a * 1.0 == a
    ensures a * (1.0 + 2.0 * q) == a + 2.0 * (a * q) && a * (1.0 - 2.0 * q) == a - 2.0 * (a * q)
  {
  }

  /** With the top channel at ring position t, the colour in terms of q. */
  lemma Channels(c: Hsl, t: real, q: real)
    requires -1.0 <= q <= 1.0 && (t == 0.0 || t == 4.0 || t == 8.0) && 0.0 <= c.h < 1.0
    requires c.h * 12.0 == t + 2.0 * q || c.h * 12.0 == t + 2.0 * q + 12.0
    ensures var hi, lo := c.l + Swing(c), c.l - Swing(c);
            var up, down := if q >= 0.0 then lo else lo - 2.0 * (Swing(c) * q), if q >= 0.0 then lo + 2.0 * (Swing(c) * q) else lo;
            HslToRgb(c) == if t == 0.0 then Rgb(hi, down, up) else if t == 4.0 then Rgb(up, hi, down) else Rgb(down, up, hi)
  {
    hide Channel, Swing;
    if t == 0.0 {
      ChannelOnRing(c, 0.0, 0.0, q);
      ChannelOnRing(c, 8.0, 8.0, q);
      ChannelOnRing(c, 4.0, 4.0, q);
    } else if t == 4.0 {
      ChannelOnRing(c, 0.0, 4.0, q);
      ChannelOnRing(c, 8.0, 0.0, q);
      ChannelOnRing(c, 4.0, 8.0, q);
    } else {
      ChannelOnRing(c, 0.0, 8.0, q);
      ChannelOnRing(c, 8.0, 4.0, q);
      ChannelOnRing(c, 4.0, 0.0, q);
    }
  }

  // ----- Both ways

  function Off(q: real, d: real): real
  {
    q * d
  }

  lemma OffBy(c: Rgb)
    requires MaxOf(c) != MinOf(c)
    ensures var d := MaxOf(c) - MinOf(c);
            && d > 0.0 && -d <= c.g - c.b <= d && -d <= c.b - c.r <= d && -d <= c.r - c.g <= d
            && (MaxOf(c) == c.r || MaxOf(c) == c.g || MaxOf(c) == c.b)
  {
  }

  /** Which channel is on top decides the ring position; the quotient says how far it is off. */
  lemma OnRing(c: Rgb) returns (t: real, q: real)
    requires InGamut(c) && MaxOf(c) != MinOf(c)
    ensures -1.0 <= q <= 1.0
    ensures var d, h := MaxOf(c) - MinOf(c), RgbToHsl(c).h;
            && (h * 12.0 == t + 2.0 * q || h * 12.0 == t + 2.0 * q + 12.0)
            && (if t == 0.0 then MaxOf(c) == c.r && Off(q, d) == c.g - c.b
                else if t == 4.0 then MaxOf(c) == c.g && Off(q, d) == c.b - c.r
                else t == 8.0 && MaxOf(c) == c.b && Off(q, d) == c.r - c.g)
  {
    hide RgbToHsl, MaxOf, MinOf, InGamut, Off;
    OffBy(c);
    HueInSixths(c);
    var hi, d := MaxOf(c), MaxOf(c) - MinOf(c);
    if hi == c.r {
      t, q := 0.0, (c.g - c.b) / d;
      Share(c.g - c.b, d);
    } else if hi == c.g {
      t, q := 4.0, (c.b - c.r) / d;
      Share(c.b - c.r, d);
    } else {
      t, q := 8.0, (c.r - c.g) / d;
      Share(c.r - c.g, d);
    }
  }

  lemma Share(n: real, d: real)
    requires d > 0.0 && -d <= n <= d
    ensures -1.0 <= n / d <= 1.0 && Off(n / d, d) == n
  {
    Quotient(n, d);
  }

  lemma HueInSixths(c: Rgb)
    requires InGamut(c) && MaxOf(c) != MinOf(c)
    ensures RgbToHsl(c).h * 12.0 == 2.0 * Sector(c)
  {
    hide Sector, Saturation, Lightness;
  }

  lemma SameSign(q: real, d: real)
    requires d > 0.0
    ensures q >= 0.0 <==> Off(q, d) >= 0.0
  {
    if q >= 0.0 { SignUp(q, d); } else { Sign(q, d); }
  }

  /** The colour between lo and hi whose top channel is at ring position t, and which is off by m. */
  function Painted(t: real, hi: real, lo: real, m: real): Rgb
  {
    var up, down := if m >= 0.0 then lo else lo - m, if m >= 0.0 then lo + m else lo;
    if t == 0.0 then Rgb(hi, down, up) else if t == 4.0 then Rgb(up, hi, down) else Rgb(down, up, hi)
  }

  lemma ChannelsPaint(c: Hsl, t: real, q: real, d: real)
    requires -1.0 <= q <= 1.0 && (t == 0.0 || t == 4.0 || t == 8.0) && 0.0 <= c.h < 1.0
    requires c.h * 12.0 == t + 2.0 * q || c.h * 12.0 == t + 2.0 * q + 12.0
    requires d > 0.0 && Swing(c) == d / 2.0
    ensures HslToRgb(c) == Painted(t, c.l + d / 2.0, c.l - d / 2.0, Off(q, d))
  {
    hide HslToRgb, Swing, Off;
    Channels(c, t, q);
    Twice(Swing(c), d, q);
    SameSign(q, d);
  }

  /** A colour is painted from its own extremes and the difference of its two lower channels. */
  lemma OwnPaint(c: Rgb, t: real, m: real)
    requires if t == 0.0 then MaxOf(c) == c.r && m == c.g - c.b
             else if t == 4.0 then MaxOf(c) == c.g && m == c.b - c.r
             else t == 8.0 && MaxOf(c) == c.b && m == c.r - c.g
    ensures Painted(t, MaxOf(c), MinOf(c), m) == c
  {
  }

  /** The published conversion undoes the script's, for every colour in gamut. */
  lemma ThereAndBack(c: Rgb)
    requires InGamut(c)
    ensures HslToRgb(RgbToHsl(c)) == c
  {
    hide HslToRgb, Swing, Saturation, Sector, Painted, MaxOf, MinOf, Off;
    var hsl := RgbToHsl(c);
    var hi, lo := MaxOf(c), MinOf(c);
    if hi == lo {
      Grey(hsl);
      AllEqual(c);
    } else {
      var t, q := OnRing(c);
      HslInRange(c);
      SwingOfConverted(c);
      ChannelsPaint(hsl, t, q, hi - lo);
      assert hsl.l + (hi - lo) / 2.0 == hi && hsl.l - (hi - lo) / 2.0 == lo;
      OwnPaint(c, t, Off(q, hi - lo));
    }
  }

  lemma AllEqual(c: Rgb)
    requires MaxOf(c) == MinOf(c)
    ensures c == Rgb(Lightness(c), Lightness(c), Lightness(c))
  {
  }

  /** No two colours in gamut convert to the same hue, saturation and lightness. */
  lemma ConversionIsInjective(a: Rgb, b: Rgb)
    requires InGamut(a) && InGamut(b) && RgbToHsl(a) == RgbToHsl(b)
    ensures a == b
  {
    ThereAndBack(a);
    ThereAndBack(b);
  }

  /** A proper colour: some saturation, neither black nor white. */
  predicate Chromatic(c: Hsl)
  {
    0.0 <= c.h < 1.0 && 0.0 < c.s <= 1.0 && 0.0 < c.l < 1.0
  }

  lemma SwingInRange(c: Hsl)
    requires Chromatic(c)
    ensures 0.0 < Swing(c) <= c.l && Swing(c) <= 1.0 - c.l
  {
    NarrowSide(c.l);
    hide Min;
    ShareInRange(c.s, Min(c.l, 1.0 - c.l), Swing(c));
  }

  lemma NarrowSide(l: real)
    requires 0.0 < l < 1.0
    ensures 0.0 < Min(l, 1.0 - l) <= l && Min(l, 1.0 - l) <= 1.0 - l
  {
  }

  lemma ShareInRange(s: real, m: real, share: real)
    requires 0.0 < s <= 1.0 && 0.0 < m && share == s * m
    ensures 0.0 < share <= m
  {
    Positive(s, m);
    if s < 1.0 { Positive(1.0 - s, m); }
    Rest(s, m);
  }

  lemma Positive(x: real, y: real)
    requires 0.0 < x && 0.0 < y
    ensures 0.0 < x * y
  {
  }

  lemma Rest(s: real, m: real)
    ensures (1.0 - s) * m == m - s * m
  {
  }

  /** The ring position of a hue: which channel is on top, ties going to red before green before blue. */
  function RingOf(h: real): (p: (real, real))
    requires 0.0 <= h < 1.0
    ensures -1.0 <= p.1 <= 1.0 && (p.0 == 0.0 || p.0 == 4.0 || p.0 == 8.0)
    ensures h * 12.0 == p.0 + 2.0 * p.1 || (p.0 == 0.0 && p.1 < 0.0 && h * 12.0 == 2.0 * p.1 + 12.0)
    ensures p.0 == 0.0 && h * 12.0 == 2.0 * p.1 ==> p.1 >= 0.0
    ensures (p.0 == 4.0 ==> p.1 > -1.0) && (p.0 == 8.0 ==> -1.0 < p.1 < 1.0)
  {
    var x := h * 6.0;
    if x <= 1.0 then (0.0, x) else if x <= 3.0 then (4.0, x - 2.0) else if x < 5.0 then (8.0, x - 4.0) else (0.0, x - 6.0)
  }

  /** What the conversion sees of a painted colour. */
  lemma PaintedParts(t: real, hi: real, lo: real, m: real)
    requires lo < hi && lo - hi <= m <= hi - lo && (t == 0.0 || t == 4.0 || t == 8.0)
    requires (t == 4.0 ==> lo - hi < m) && (t == 8.0 ==> lo - hi < m < hi - lo)
    ensures var c := Painted(t, hi, lo, m);
            && MaxOf(c) == hi && MinOf(c) == lo
            && (if t == 0.0 then c.r == hi && c.g - c.b == m
                else if t == 4.0 then c.r != hi && c.g == hi && c.b - c.r == m
                else c.r != hi && c.g != hi && c.r - c.g == m)
  {
  }

  lemma DivideBack(q: real, d: real)
    requires d > 0.0
    ensures Off(q, d) / d == q
  {
    var r := (q * d) / d;
    assert r * d == q * d;
    assert (r - q) * d == 0.0 && (q - r) * d == 0.0;
    if r > q { Sign(q - r, d); }
    if r < q { Sign(r - q, d); }
  }

  lemma Scaled(q: real, d: real)
    requires d > 0.0 && -1.0 <= q <= 1.0
    ensures -d <= Off(q, d) <= d
    ensures (q > -1.0 ==> Off(q, d) > -d) && (q < 1.0 ==> Off(q, d) < d)
  {
    assert (1.0 - q) * d == d - q * d && (1.0 + q) * d == d + q * d;
    SignUp(1.0 - q, d);
    SignUp(1.0 + q, d);
    if q > -1.0 { Sign(-1.0 - q, d); assert (-1.0 - q) * d == -d - q * d; }
    if q < 1.0 { Sign(q - 1.0, d); assert (q - 1.0) * d == q * d - d; }
  }

  /** The sector of a painted colour is its hue in sixths. */
  lemma SectorOfPainted(h: real, hi: real, lo: real)
    requires 0.0 <= h < 1.0 && lo < hi
    ensures var (t, q) := RingOf(h); var c := Painted(t, hi, lo, Off(q, hi - lo));
            MaxOf(c) == hi && MinOf(c) == lo && Sector(c) == h * 6.0
  {
    hide MaxOf, MinOf, Painted, Off;
    var (t, q) := RingOf(h);
    var d := hi - lo;
    Scaled(q, d);
    SameSign(q, d);
    PaintedParts(t, hi, lo, Off(q, d));
    DivideBack(q, d);
  }

  lemma SaturationBack(s: real, l: real)
    requires 0.0 < s <= 1.0 && 0.0 < l < 1.0
    ensures var a := s * Min(l, 1.0 - l);
            if l > 0.5 then (2.0 * a) / (2.0 - 2.0 * l) == s else (2.0 * a) / (2.0 * l) == s
  {
    if l > 0.5 {
      DivideBack(s, 2.0 - 2.0 * l);
      assert 2.0 * (s * (1.0 - l)) == s * (2.0 - 2.0 * l);
    } else {
      DivideBack(s, 2.0 * l);
      assert 2.0 * (s * l) == s * (2.0 * l);
    }
  }

  lemma PaintInGamut(t: real, hi: real, lo: real, m: real)
    requires 0.0 <= lo < hi <= 1.0 && lo - hi <= m <= hi - lo
    ensures InGamut(Painted(t, hi, lo, m))
  {
  }

  /** The script's conversion undoes the published one, on every proper colour. */
  lemma BackAndThere(c: Hsl)
    requires Chromatic(c)
    ensures InGamut(HslToRgb(c)) && RgbToHsl(HslToRgb(c)) == c
  {
    hide HslToRgb, Painted, RingOf, MaxOf, MinOf, Sector, InGamut, Off;
    var (t, q) := RingOf(c.h);
    var a := Swing(c);
    SwingInRange(c);
    ChannelsPaint(c, t, q, 2.0 * a);
    var hi, lo := c.l + a, c.l - a;
    assert hi - lo == 2.0 * a && (hi + lo) / 2.0 == c.l;
    SectorOfPainted(c.h, hi, lo);
    Scaled(q, 2.0 * a);
    PaintInGamut(t, hi, lo, Off(q, 2.0 * a));
    SaturationBack(c.s, c.l);
  }

  lemma Twice(a: real, d: real, q: real)
    requires a == d / 2.0
    ensures 2.0 * (a * q) == Off(q, d)
  {
    assert d == 2.0 * a;
    assert q * (2.0 * a) == 2.0 * (a * q);
  }

  lemma Grey(c: Hsl)
    requires c.s == 0.0
    ensures HslToRgb(c) == Rgb(c.l, c.l, c.l)
  {
    forall n: real ensures Channel(n, c) == c.l {
      assert c.s * Min(c.l, 1.0 - c.l) == 0.0;
      assert 0.0 * Ramp(Mod12(n + c.h * 12.0)) == 0.0;
    }
  }

  /** Greys, and no other colours, have no saturation; they get hue 0, and their channel is their lightness. */
  lemma GreyExactly(c: Rgb)
    requires InGamut(c)
    ensures RgbToHsl(c).s == 0.0 <==> c.r == c.g == c.b
    ensures c.r == c.g == c.b ==> RgbToHsl(c) == Hsl(0.0, 0.0, c.r)
  {
    if MaxOf(c) != MinOf(c) {
      SwingOfConverted(c);
      if RgbToHsl(c).s == 0.0 { NoSwing(RgbToHsl(c)); }
    }
  }

  lemma NoSwing(c: Hsl)
    requires c.s == 0.0
    ensures Swing(c) == 0.0
  {
  }
}
