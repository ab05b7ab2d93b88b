/**
 The accent palette's contrast arithmetic, over exact reals. The exponent 2.4 of the sRGB transfer
 curve is a parameter, pinned down by y^5 = x^12 on [0, 1].
 */
module Contrast {
  // Channels are the integers 0..255 a six-digit hex colour carries.
  type Channel = n: int | 0 <= n <= 255
  datatype Rgb = Rgb(r: Channel, g: Channel, b: Channel)

  const BLACK := Rgb(0, 0, 0)
  const WHITE := Rgb(255, 255, 255)

  datatype Theme = Light | Dark

  function Pow5(x: real): real {
    x * x * x * x * x
  }

  function Pow12(x: real): real {
    var cube := x * x * x;
    var sixth := cube * cube;
    sixth * sixth
  }

  predicate InUnit(x: real) {
    0.0 <= x <= 1.0
  }

  ghost predicate IsPower(power: real -> real) {
    forall x: real {:trigger InUnit(x)} | InUnit(x) :: power(x) >= 0.0 && Pow5(power(x)) == Pow12(x)
  }

  // ---------------------------------------------------------------------------------------------
  // Luminance and contrast
  // ---------------------------------------------------------------------------------------------

  function Linear(power: real -> real, n: Channel): real {
    var v := n as real / 255.0;
    if v <= 0.04045 then v / 12.92 else power((v + 0.055) / 1.055)
  }

  function Luminance(power: real -> real, c: Rgb): real {
    Linear(power, c.r) * 0.2126 + Linear(power, c.g) * 0.7152 + Linear(power, c.b) * 0.0722
  }

  function Max(x: real, y: real): real {
    if x < y then y else x
  }

  function Min(x: real, y: real): real {
    if x < y then x else y
  }

  // The WCAG ratio of two luminances.
  function Ratio(x: real, y: real): real
    requires x >= 0.0 && y >= 0.0
  {
    (Max(x, y) + 0.05) / (Min(x, y) + 0.05)
  }

  function ContrastOf(power: real -> real, a: Rgb, b: Rgb): real
    requires IsPower(power)
  {
    LuminanceInUnit(power, a);
    LuminanceInUnit(power, b);
    Ratio(Luminance(power, a), Luminance(power, b))
  }

  lemma MulMono(a: real, b: real, c: real, d: real)
    requires 0.0 <= a <= b && 0.0 <= c <= d
    ensures 0.0 <= a * c <= b * d
  {
    assert a * c <= b * c <= b * d;
  }

  lemma MulStrict(a: real, b: real, c: real)
    requires a < b && c > 0.0
    ensures a * c < b * c
  {
    assert (b - a) * c > 0.0;
  }

  lemma Pow5Split(x: real)
    ensures Pow5(x) == ((x * x) * (x * x)) * x
  {
  }

  lemma Pow5Mono(x: real, y: real)
    requires 0.0 <= x <= y
    ensures 0.0 <= Pow5(x) <= Pow5(y)
  {
    MulMono(x, y, x, y);
    MulMono(x * x, y * y, x * x, y * y);
    Pow5Split(x);
    Pow5Split(y);
    MulMono((x * x) * (x * x), (y * y) * (y * y), x, y);
  }

  // The fifth power leaves only 1 in place, and moves other numbers away from it.
  lemma Pow5AroundOne(y: real)
    requires y >= 0.0
    ensures y < 1.0 ==> Pow5(y) < 1.0
    ensures y > 1.0 ==> Pow5(y) > 1.0
  {
    if y <= 1.0 {
      MulMono(y, 1.0, y, 1.0);
      var y2 := y * y;
      MulMono(y2, 1.0, y2, 1.0);
      MulMono(y2 * y2, 1.0, y, y);
    } else {
      MulMono(1.0, y, 1.0, y);
      var y2 := y * y;
      MulMono(1.0, y2, 1.0, y2);
      MulMono(1.0, y2 * y2, y, y);
    }
    assert Pow5(y) == (y * y) * (y * y) * y;
  }

  lemma Pow12Mono(x: real, y: real)
    requires 0.0 <= x <= y
    ensures 0.0 <= Pow12(x) <= Pow12(y)
  {
    MulMono(x, y, x, y);
    MulMono(x * x, y * y, x, y);
    var p, q := x * x * x, y * y * y;
    MulMono(p, q, p, q);
    MulMono(p * p, q * q, p * p, q * q);
  }

  // A power below y on an argument at most x, whenever x^12 is below y^5; and the reverse.
  lemma PowerBelow(power: real -> real, x: real, top: real, y: real)
    requires IsPower(power) && 0.0 <= x <= top <= 1.0 && 0.0 <= y && Pow12(top) < Pow5(y)
    ensures 0.0 <= power(x) < y
  {
    assert InUnit(x);
    Pow12Mono(x, top);
    if power(x) >= y { Pow5Mono(y, power(x)); }
  }

  lemma PowerAbove(power: real -> real, x: real, bottom: real, y: real)
    requires IsPower(power) && 0.0 <= bottom <= x <= 1.0 && 0.0 <= y && Pow5(y) < Pow12(bottom)
    ensures power(x) > y
  {
    assert InUnit(x);
    Pow12Mono(bottom, x);
    if power(x) <= y { Pow5Mono(power(x), y); }
  }

  lemma PowerInUnit(power: real -> real, x: real)
    requires IsPower(power) && 0.0 <= x <= 1.0
    ensures 0.0 <= power(x) <= 1.0 && power(1.0) == 1.0
  {
    assert InUnit(x) && InUnit(1.0);
    Pow12Mono(x, 1.0);
    Pow5AroundOne(power(x));
    Pow5AroundOne(power(1.0));
  }

  lemma LinearInUnit(power: real -> real, n: Channel)
    requires IsPower(power)
    ensures 0.0 <= Linear(power, n) <= 1.0
  {
    PowerInUnit(power, (n as real / 255.0 + 0.055) / 1.055);
  }

  lemma LuminanceInUnit(power: real -> real, c: Rgb)
    requires IsPower(power)
    ensures 0.0 <= Luminance(power, c) <= 1.0
  {
    LinearInUnit(power, c.r);
    LinearInUnit(power, c.g);
    LinearInUnit(power, c.b);
  }

  lemma LinearExtremes(power: real -> real)
    requires power(1.0) == 1.0
    ensures Linear(power, 0) == 0.0 && Linear(power, 255) == 1.0
  {
    assert (255.0 / 255.0 + 0.055) / 1.055 == 1.0;
  }

  lemma Extremes(power: real -> real)
    requires IsPower(power)
    ensures Luminance(power, BLACK) == 0.0 && Luminance(power, WHITE) == 1.0
  {
    PowerInUnit(power, 1.0);
    LinearExtremes(power);
  }

  lemma MulLess(a: real, b: real, c: real, d: real)
    requires 0.0 <= a < b && 0.0 <= c <= d && d > 0.0
    ensures 0.0 <= a * c < b * d
  {
    MulMono(a, a, c, d);
    MulStrict(a, b, d);
  }

  lemma Pow12Strict(x: real, y: real)
    requires 0.0 <= x < y
    ensures Pow12(x) < Pow12(y)
  {
    MulLess(x, y, x, y);
    MulLess(x * x, y * y, x, y);
    var p, q := x * x * x, y * y * y;
    MulLess(p, q, p, q);
    MulLess(p * p, q * q, p * p, q * q);
  }

  lemma PowerGrows(power: real -> real, x: real, y: real)
    requires IsPower(power) && 0.0 <= x < y <= 1.0
    ensures power(x) < power(y)
  {
    assert InUnit(x) && InUnit(y);
    Pow12Strict(x, y);
    if power(x) >= power(y) { Pow5Mono(power(y), power(x)); }
  }

  // The curve rises from each channel value to the next, also where its two pieces meet.
  lemma LinearGrows(power: real -> real, m: Channel, n: Channel)
    requires IsPower(power) && m < n
    ensures Linear(power, m) < Linear(power, n)
  {
    var x, y := (m as real / 255.0 + 0.055) / 1.055, (n as real / 255.0 + 0.055) / 1.055;
    if m > 10 {
      PowerGrows(power, x, y);
    } else if n > 10 {
      assert Pow5(0.00304) < Pow12(0.093);
      PowerAbove(power, y, 0.093, 0.00304);
    }
  }

  // Luminance adds up over the channels, which weigh 0.2126, 0.7152 and 0.0722, and rises with each.
  lemma LuminanceWeighs(power: real -> real, c: Rgb)
    requires IsPower(power)
    ensures Luminance(power, c) == Luminance(power, Rgb(c.r, 0, 0)) + Luminance(power, Rgb(0, c.g, 0))
                                   + Luminance(power, Rgb(0, 0, c.b))
    ensures Luminance(power, Rgb(255, 0, 0)) == 0.2126 && Luminance(power, Rgb(0, 255, 0)) == 0.7152
    ensures Luminance(power, Rgb(0, 0, 255)) == 0.0722
  {
    PowerInUnit(power, 1.0);
    LinearExtremes(power);
  }

  lemma LuminanceGrows(power: real -> real, c: Rgb, n: Channel)
    requires IsPower(power)
    ensures c.r < n ==> Luminance(power, c) < Luminance(power, c.(r := n))
    ensures c.g < n ==> Luminance(power, c) < Luminance(power, c.(g := n))
    ensures c.b < n ==> Luminance(power, c) < Luminance(power, c.(b := n))
  {
    if c.r < n { LinearGrows(power, c.r, n); }
    if c.g < n { LinearGrows(power, c.g, n); }
    if c.b < n { LinearGrows(power, c.b, n); }
  }

  lemma RatioAtLeast(a: real, b: real, k: real)
    requires b > 0.0 && a >= k * b
    ensures a / b >= k
  {
    assert (a / b) * b == a;
    if a / b < k { MulStrict(a / b, k, b); }
  }

  lemma RatioAtMost(a: real, b: real, k: real)
    requires b > 0.0 && a <= k * b
    ensures a / b <= k
  {
    assert (a / b) * b == a;
    if a / b > k { MulStrict(k, a / b, b); }
  }

  lemma RatioRange(x: real, y: real)
    requires 0.0 <= x <= 1.0 && 0.0 <= y <= 1.0
    ensures 1.0 <= Ratio(x, y) <= 21.0 && Ratio(x, y) == Ratio(y, x)
  {
    RatioAtLeast(Max(x, y) + 0.05, Min(x, y) + 0.05, 1.0);
    RatioAtMost(Max(x, y) + 0.05, Min(x, y) + 0.05, 21.0);
  }

  // The contrast is symmetric and lies between 1 and 21.
  lemma ContrastRange(power: real -> real, a: Rgb, b: Rgb)
    requires IsPower(power)
    ensures 1.0 <= ContrastOf(power, a, b) <= 21.0 && ContrastOf(power, a, b) == ContrastOf(power, b, a)
  {
    LuminanceInUnit(power, a);
    LuminanceInUnit(power, b);
    RatioRange(Luminance(power, a), Luminance(power, b));
  }

  // ---------------------------------------------------------------------------------------------
  // Text on the accent
  // ---------------------------------------------------------------------------------------------

  function OnAccent(power: real -> real, hex: Rgb): Rgb
    requires IsPower(power)
  {
    if ContrastOf(power, hex, BLACK) >= ContrastOf(power, hex, WHITE) then BLACK else WHITE
  }

  lemma EndsMultiply(x: real)
    requires 0.0 <= x <= 1.0
    ensures Ratio(x, 0.0) * Ratio(x, 1.0) == 21.0
  {
    var t := x + 0.05;
    var p, q := t / 0.05, 1.05 / t;
    assert p == 20.0 * t && q * t == 1.05;
    assert p * q == 20.0 * (q * t);
    assert Ratio(x, 0.0) == p && Ratio(x, 1.0) == q;
  }

  lemma BlackTimesWhite(power: real -> real, c: Rgb)
    requires IsPower(power)
    ensures ContrastOf(power, c, BLACK) * ContrastOf(power, c, WHITE) == 21.0
  {
    LuminanceInUnit(power, c);
    Extremes(power);
    EndsMultiply(Luminance(power, c));
  }

  // The chosen text colour reaches the square root of 21, hence 4.5, on every accent.
  lemma OnAccentReadable(power: real -> real, hex: Rgb)
    requires IsPower(power)
    ensures var ratio := ContrastOf(power, hex, OnAccent(power, hex));
            ratio >= 4.5 && ratio * ratio >= 21.0
  {
    BlackTimesWhite(power, hex);
    ContrastRange(power, hex, BLACK);
    ContrastRange(power, hex, WHITE);
    LargerFactor(ContrastOf(power, hex, BLACK), ContrastOf(power, hex, WHITE));
  }

  lemma LargerSquare(low: real, high: real)
    requires 0.0 < low <= high && low * high == 21.0
    ensures high * high >= 21.0
  {
    MulMono(low, high, high, high);
  }

  lemma RootAbove(x: real)
    requires x > 0.0 && x * x >= 21.0
    ensures x >= 4.5
  {
    if x < 4.5 { MulMono(x, 4.5, x, 4.5); }
  }

  lemma LargerFactor(a: real, b: real)
    requires a > 0.0 && b > 0.0 && a * b == 21.0
    ensures Max(a, b) * Max(a, b) >= 21.0 && Max(a, b) >= 4.5
  {
    if a < b { LargerSquare(a, b); } else { LargerSquare(b, a); }
    RootAbove(Max(a, b));
  }

  // ---------------------------------------------------------------------------------------------
  // Readable accents
  // ---------------------------------------------------------------------------------------------

  function Round(x: real): int {
    (x + 0.5).Floor
  }

  function Clamp(x: real): (r: real)
    ensures 0.0 <= r <= 255.0
  {
    Min(255.0, Max(0.0, x))
  }

  function MixChannel(a: Channel, b: Channel, amount: real): Channel {
    Round(Clamp(a as real + (b - a) as real * amount))
  }

  function Mix(a: Rgb, b: Rgb, amount: real): Rgb {
    Rgb(MixChannel(a.r, b.r, amount), MixChannel(a.g, b.g, amount), MixChannel(a.b, b.b, amount))
  }

  function Surfaces(theme: Theme): seq<Rgb> {
    match theme
    case Dark => [Rgb(0x1C, 0x1E, 0x1B), Rgb(0x23, 0x26, 0x20), Rgb(0x29, 0x2C, 0x27), Rgb(0x34, 0x38, 0x32)]
    case Light => [Rgb(0xF4, 0xEE, 0xE4), Rgb(0xFB, 0xF7, 0xEF), Rgb(0xFF, 0xFD, 0xF8), Rgb(0xEC, 0xE3, 0xD5)]
  }

  function Alpha(theme: Theme): real {
    if theme == Dark then 0.18 else 0.14
  }

  function Extreme(theme: Theme): Rgb {
    if theme == Dark then WHITE else BLACK
  }

  // The four surfaces, then each tinted with the accent.
  function Backgrounds(hex: Rgb, theme: Theme): seq<Rgb> {
    var surfaces := Surfaces(theme);
    surfaces + seq(|surfaces|, i requires 0 <= i < |surfaces| => Mix(surfaces[i], hex, Alpha(theme)))
  }

  function Candidate(hex: Rgb, theme: Theme, step: nat): Rgb {
    Mix(hex, Extreme(theme), step as real / 100.0)
  }

  predicate Meets(power: real -> real, hex: Rgb, theme: Theme, colour: Rgb, minimum: real)
    requires IsPower(power)
  {
    forall background <- Backgrounds(hex, theme) :: ContrastOf(power, colour, background) >= minimum
  }

  // A channel is the nearest to a point, the upper one of two equally near.
  predicate Nearest(n: Channel, x: real) {
    x - 0.5 < n as real <= x + 0.5
  }

  predicate NearestTo(colour: Rgb, r: real, g: real, b: real) {
    Nearest(colour.r, r) && Nearest(colour.g, g) && Nearest(colour.b, b)
  }

  // The point a fraction of the way from one channel to another.
  function Point(a: Channel, b: Channel, fraction: real): real {
    a as real + (b as real - a as real) * fraction
  }

  lemma PointBetween(a: Channel, b: Channel, fraction: real)
    requires 0.0 <= fraction <= 1.0
    ensures a <= b ==> a as real <= Point(a, b, fraction) <= b as real
    ensures a >= b ==> b as real <= Point(a, b, fraction) <= a as real
  {
    if a <= b {
      MulMono(0.0, b as real - a as real, fraction, fraction);
      MulMono(b as real - a as real, b as real - a as real, fraction, 1.0);
    } else {
      MulMono(0.0, a as real - b as real, fraction, fraction);
      MulMono(a as real - b as real, a as real - b as real, fraction, 1.0);
      assert (b as real - a as real) * fraction == -((a as real - b as real) * fraction);
    }
  }

  // Mixing takes each channel to the nearest to that point, and no other channel is.
  lemma MixIsNearest(a: Channel, b: Channel, fraction: real, n: Channel)
    requires 0.0 <= fraction <= 1.0
    ensures Nearest(n, Point(a, b, fraction)) <==> n == MixChannel(a, b, fraction)
  {
    PointBetween(a, b, fraction);
    var x := Point(a, b, fraction);
    assert Clamp(x) == x && MixChannel(a, b, fraction) == (x + 0.5).Floor;
  }

  lemma MixedNearest(a: Rgb, b: Rgb, fraction: real, colour: Rgb)
    requires 0.0 <= fraction <= 1.0
    ensures NearestTo(colour, Point(a.r, b.r, fraction), Point(a.g, b.g, fraction), Point(a.b, b.b, fraction))
            <==> colour == Mix(a, b, fraction)
  {
    MixIsNearest(a.r, b.r, fraction, colour.r);
    MixIsNearest(a.g, b.g, fraction, colour.g);
    MixIsNearest(a.b, b.b, fraction, colour.b);
  }

  // The eight backgrounds: the theme's four surfaces, and the nearest colours to the points 0.18, in the
  // light theme 0.14, of the way from each to the accent.
  lemma BackgroundsAreTinted(hex: Rgb, theme: Theme, i: nat)
    requires i < 4
    ensures |Backgrounds(hex, theme)| == 8 && Backgrounds(hex, theme)[i] == Surfaces(theme)[i]
    ensures Surfaces(Dark) == [Rgb(28, 30, 27), Rgb(35, 38, 32), Rgb(41, 44, 39), Rgb(52, 56, 50)]
    ensures Surfaces(Light) == [Rgb(244, 238, 228), Rgb(251, 247, 239), Rgb(255, 253, 248), Rgb(236, 227, 213)]
    ensures var surface, alpha := Surfaces(theme)[i], if theme == Dark then 0.18 else 0.14;
      NearestTo(Backgrounds(hex, theme)[4 + i], Point(surface.r, hex.r, alpha), Point(surface.g, hex.g, alpha),
                Point(surface.b, hex.b, alpha))
  {
    MixedNearest(Surfaces(theme)[i], hex, Alpha(theme), Mix(Surfaces(theme)[i], hex, Alpha(theme)));
  }

  // The colour a number of hundredths of the way from the accent to white, in the light theme to black.
  predicate OnTheWay(colour: Rgb, hex: Rgb, theme: Theme, step: nat) {
    var end: Channel := if theme == Dark then 255 else 0;
    var fraction := step as real / 100.0;
    NearestTo(colour, Point(hex.r, end, fraction), Point(hex.g, end, fraction), Point(hex.b, end, fraction))
  }

  lemma CandidateOnTheWay(hex: Rgb, theme: Theme, step: nat, colour: Rgb)
    requires step <= 100
    ensures OnTheWay(colour, hex, theme, step) <==> colour == Candidate(hex, theme, step)
  {
    MixedNearest(hex, Extreme(theme), step as real / 100.0, colour);
  }

  lemma WayStarts(hex: Rgb, theme: Theme)
    ensures Candidate(hex, theme, 0) == hex
  {
    CandidateOnTheWay(hex, theme, 0, hex);
  }

  // Every background of the dark theme is dark, and of the light theme light, whatever the accent.
  predicate Shaded(c: Rgb, theme: Theme) {
    match theme
    case Dark => c.r <= 92 && c.g <= 92 && c.b <= 92
    case Light => c.r >= 183 && c.g >= 183 && c.b >= 183
  }

  lemma BackgroundsShaded(hex: Rgb, theme: Theme)
    ensures |Backgrounds(hex, theme)| == 8
    ensures forall background <- Backgrounds(hex, theme) :: Shaded(background, theme)
  {
    forall i | 0 <= i < 4
      ensures Shaded(Surfaces(theme)[i], theme) && Shaded(Mix(Surfaces(theme)[i], hex, Alpha(theme)), theme)
    {
      TintShaded(Surfaces(theme)[i], hex, theme);
    }
  }

  lemma TintShaded(surface: Rgb, hex: Rgb, theme: Theme)
    requires surface in Surfaces(theme)
    ensures Shaded(surface, theme) && Shaded(Mix(surface, hex, Alpha(theme)), theme)
  {
    ChannelShaded(surface.r, hex.r);
    ChannelShaded(surface.g, hex.g);
    ChannelShaded(surface.b, hex.b);
  }

  lemma ChannelShaded(surface: Channel, accent: Channel)
    ensures surface <= 56 ==> MixChannel(surface, accent, 0.18) <= 92
    ensures surface >= 213 ==> MixChannel(surface, accent, 0.14) >= 183
  {
  }

  lemma LinearShaded(power: real -> real, n: Channel)
    requires IsPower(power)
    ensures n <= 92 ==> Linear(power, n) <= 0.12
    ensures n >= 183 ==> Linear(power, n) >= 0.4
  {
    var x := (n as real / 255.0 + 0.055) / 1.055;
    if n <= 92 {
      assert Pow12(0.4) < Pow5(0.12);
      PowerBelow(power, x, 0.4, 0.12);
    } else if n >= 183 {
      assert Pow5(0.4) < Pow12(0.73);
      PowerAbove(power, x, 0.73, 0.4);
    }
  }

  lemma LuminanceShaded(power: real -> real, c: Rgb, theme: Theme)
    requires IsPower(power) && Shaded(c, theme)
    ensures theme == Dark ==> Luminance(power, c) <= 0.12
    ensures theme == Light ==> Luminance(power, c) >= 0.4
  {
    LinearShaded(power, c.r);
    LinearShaded(power, c.g);
    LinearShaded(power, c.b);
  }

  lemma EndsReadable(x: real)
    requires 0.0 <= x <= 1.0
    ensures x <= 0.12 ==> Ratio(1.0, x) >= 4.5
    ensures x >= 0.4 ==> Ratio(0.0, x) >= 4.5
  {
    if x <= 0.12 {
      RatioAtLeast(1.05, x + 0.05, 4.5);
    } else if x >= 0.4 {
      RatioAtLeast(x + 0.05, 0.05, 4.5);
    }
  }

  // Pure white, or pure black, is readable on every background: the last step cannot fail.
  lemma LastStepMeets(power: real -> real, hex: Rgb, theme: Theme)
    requires IsPower(power)
    ensures Candidate(hex, theme, 100) == Extreme(theme)
    ensures Meets(power, hex, theme, Extreme(theme), 4.5)
  {
    BackgroundsShaded(hex, theme);
    forall background | background in Backgrounds(hex, theme)
      ensures ContrastOf(power, Extreme(theme), background) >= 4.5
    {
      LuminanceShaded(power, background, theme);
      LuminanceInUnit(power, background);
      Extremes(power);
      EndsReadable(Luminance(power, background));
    }
  }

  // Nothing before a step meets the minimum.
  ghost predicate NoneBefore(power: real -> real, hex: Rgb, theme: Theme, step: nat, minimum: real)
    requires IsPower(power)
  {
    forall earlier: nat, other | earlier < step && OnTheWay(other, hex, theme, earlier) ::
      !Meets(power, hex, theme, other, minimum)
  }

  // Steps a hundredth at a time from the accent towards white or black, up to the first colour that
  // reaches the minimum on every background: the accent itself wherever that does. What it returns
  // reaches any minimum that some step does, and every minimum up to 4.5.
  method Readable(power: real -> real, hex: Rgb, theme: Theme, minimum: real) returns (colour: Rgb)
    requires IsPower(power)
    ensures exists step: nat | step <= 100 ::
              && OnTheWay(colour, hex, theme, step) && NoneBefore(power, hex, theme, step, minimum)
              && (Meets(power, hex, theme, colour, minimum) || step == 100)
    ensures Meets(power, hex, theme, hex, minimum) ==> colour == hex
    ensures minimum <= 4.5 ==> Meets(power, hex, theme, colour, minimum)
  {
    LastStepMeets(power, hex, theme);
    WayStarts(hex, theme);
    var step: nat := 0;
    while step <= 100
      invariant step <= 101 && NoneBefore(power, hex, theme, step, minimum)
      invariant step > 0 ==> !Meets(power, hex, theme, hex, minimum)
    {
      var candidate := Candidate(hex, theme, step);
      CandidateOnTheWay(hex, theme, step, candidate);
      if Meets(power, hex, theme, candidate, minimum) {
        return candidate;
      }
      NoneSoFar(power, hex, theme, step, minimum);
      step := step + 1;
    }
    colour := Extreme(theme);
    CandidateOnTheWay(hex, theme, 100, colour);
  }

  lemma NoneSoFar(power: real -> real, hex: Rgb, theme: Theme, step: nat, minimum: real)
    requires IsPower(power) && step <= 100 && NoneBefore(power, hex, theme, step, minimum)
    requires !Meets(power, hex, theme, Candidate(hex, theme, step), minimum)
    ensures NoneBefore(power, hex, theme, step + 1, minimum)
  {
    forall earlier: nat, other | earlier < step + 1 && OnTheWay(other, hex, theme, earlier)
      ensures !Meets(power, hex, theme, other, minimum)
    {
      CandidateOnTheWay(hex, theme, earlier, other);
    }
  }

  // What lies on the way lies between the accent and the end of the way, channel by channel.
  lemma BetweenEnds(hex: Rgb, theme: Theme, step: nat, colour: Rgb)
    requires step <= 100 && OnTheWay(colour, hex, theme, step)
    ensures theme == Dark ==> hex.r <= colour.r && hex.g <= colour.g && hex.b <= colour.b
    ensures theme == Light ==> colour.r <= hex.r && colour.g <= hex.g && colour.b <= hex.b
  {
    var end: Channel, fraction := if theme == Dark then 255 else 0, step as real / 100.0;
    PointBetween(hex.r, end, fraction);
    PointBetween(hex.g, end, fraction);
    PointBetween(hex.b, end, fraction);
  }

  // The border and text colours an accent yields meet their WCAG minima on all eight backgrounds, and
  // are the accent itself where that does.
  method AccentTokens(power: real -> real, hex: Rgb, theme: Theme) returns (border: Rgb, text: Rgb, onAccent: Rgb)
    requires IsPower(power)
    ensures Meets(power, hex, theme, border, 3.0) && Meets(power, hex, theme, text, 4.5)
    ensures Meets(power, hex, theme, hex, 3.0) ==> border == hex
    ensures Meets(power, hex, theme, hex, 4.5) ==> text == hex
    ensures exists step: nat | step <= 100 ::
              OnTheWay(border, hex, theme, step) && NoneBefore(power, hex, theme, step, 3.0)
    ensures exists step: nat | step <= 100 ::
              OnTheWay(text, hex, theme, step) && NoneBefore(power, hex, theme, step, 4.5)
    ensures ContrastOf(power, hex, onAccent) >= 4.5 && (onAccent == BLACK || onAccent == WHITE)
  {
    border := Readable(power, hex, theme, 3.0);
    text := Readable(power, hex, theme, 4.5);
    onAccent := OnAccent(power, hex);
    OnAccentReadable(power, hex);
  }
}
