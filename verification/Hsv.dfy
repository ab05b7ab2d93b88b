/**
 The colour picker's conversions between RGB and HSV, over exact reals. Channels are fractions of
 255, hue is in degrees, and the remainder is JavaScript's, which keeps the dividend's sign.
 */
module Hsv {
  datatype Colour = Colour(r: real, g: real, b: real)
  datatype Hue = Hue(h: real, s: real, v: real)

  function Abs(x: real): real {
    if x < 0.0 then -x else x
  }

  function Max(x: real, y: real): real {
    if x < y then y else x
  }

  function Min(x: real, y: real): real {
    if x < y then x else y
  }

  function Clamp(x: real): real {
    Min(1.0, Max(0.0, x))
  }

  function Truncate(x: real): int {
    if x >= 0.0 then x.Floor else -(-x).Floor
  }

  function Rem(a: real, n: real): real
    requires n > 0.0
  {
    a - n * Truncate(a / n) as real
  }

  lemma Sign(q: real, n: real)
    requires n > 0.0
    ensures q > 0.0 ==> q * n > 0.0
    ensures q < 0.0 ==> q * n < 0.0
    ensures q == 0.0 ==> q * n == 0.0
  {
  }

  lemma Scale(f: real, n: real, r: real)
    requires n > 0.0 && r == f * n
    ensures f < 1.0 ==> r < n
    ensures f > -1.0 ==> r > -n
  {
    assert f < 1.0 ==> (1.0 - f) * n > 0.0;
    assert f > -1.0 ==> (1.0 + f) * n > 0.0;
  }

  // A quotient is whole turns and a fraction of one on the dividend's side.
  lemma RemSplit(a: real, n: real) returns (f: real)
    requires n > 0.0
    ensures Rem(a, n) == f * n && (a >= 0.0 ==> 0.0 <= f < 1.0) && (a <= 0.0 ==> -1.0 < f <= 0.0)
  {
    var q := a / n;
    f := q - Truncate(q) as real;
    assert q * n == a;
    Sign(q, n);
  }

  // The remainder is what is left after whole turns, smaller than one turn, on the dividend's side.
  lemma RemSpec(a: real, n: real)
    requires n > 0.0
    ensures a >= 0.0 ==> 0.0 <= Rem(a, n) < n
    ensures a <= 0.0 ==> -n < Rem(a, n) <= 0.0
  {
    var f := RemSplit(a, n);
    Sign(f, n);
    Scale(f, n, Rem(a, n));
  }

  // ---------------------------------------------------------------------------------------------
  // The two conversions
  // ---------------------------------------------------------------------------------------------

  function Sextant(c: Colour, max: real, delta: real): real
    requires delta > 0.0
  {
    if max == c.r then Rem((c.g - c.b) / delta, 6.0)
    else if max == c.g then (c.b - c.r) / delta + 2.0
    else (c.r - c.g) / delta + 4.0
  }

  function ToHsv(c: Colour): Hue {
    var max := Max(c.r, Max(c.g, c.b));
    var min := Min(c.r, Min(c.g, c.b));
    var delta := max - min;
    var h := if delta == 0.0 then 0.0 else Sextant(c, max, delta);
    Hue(Rem(h * 60.0 + 360.0, 360.0), if max == 0.0 then 0.0 else delta / max, max)
  }

  function Turn(h: real): real {
    Rem(Rem(h, 360.0) + 360.0, 360.0)
  }

  // A triangle wave over the wheel's six parts.
  function WaveAt(hue: real): real {
    1.0 - Abs(Rem(hue, 2.0) - 1.0)
  }

  // The largest channel c, the second x, and zero, in the order of the sextant.
  function Sixth(hue: real, c: real, x: real): Colour {
    if hue < 1.0 then Colour(c, x, 0.0)
    else if hue < 2.0 then Colour(x, c, 0.0)
    else if hue < 3.0 then Colour(0.0, c, x)
    else if hue < 4.0 then Colour(0.0, x, c)
    else if hue < 5.0 then Colour(x, 0.0, c)
    else Colour(c, 0.0, x)
  }

  function Wheel(hue: real, c: real): Colour {
    Sixth(hue, c, c * WaveAt(hue))
  }

  // What the wheel needs: a position on it, the chroma, and the value.
  datatype Paint = Paint(hue: real, c: real, v: real)

  function PaintOf(hsv: Hue): Paint {
    Paint(Turn(hsv.h) / 60.0, Clamp(hsv.v) * Clamp(hsv.s), Clamp(hsv.v))
  }

  function Lifted(c: Colour, m: real): Colour {
    Colour(c.r + m, c.g + m, c.b + m)
  }

  function Painted(p: Paint): Colour {
    Lifted(Wheel(p.hue, p.c), p.v - p.c)
  }

  function ToRgb(hsv: Hue): Colour {
    Painted(PaintOf(hsv))
  }

  predicate InUnit(c: Colour) {
    0.0 <= c.r <= 1.0 && 0.0 <= c.g <= 1.0 && 0.0 <= c.b <= 1.0
  }

  // ---------------------------------------------------------------------------------------------
  // Remainders of the ranges that occur
  // ---------------------------------------------------------------------------------------------

  lemma QuotientWithin(a: real, n: real, low: real, high: real)
    requires n > 0.0 && low * n <= a < high * n
    ensures low <= a / n < high
  {
    var q := a / n;
    assert q * n == a;
    assert (q - low) * n == a - low * n && (high - q) * n == high * n - a;
    Sign(q - low, n);
    Sign(high - q, n);
  }

  lemma RemWithin(a: real, n: real, k: int)
    requires n > 0.0 && k >= 0 && k as real * n <= a < (k as real + 1.0) * n
    ensures Rem(a, n) == a - n * k as real
  {
    QuotientWithin(a, n, k as real, k as real + 1.0);
  }

  // A hue already in range is left alone by the normalisation.
  lemma TurnInRange(h: real)
    requires 0.0 <= h < 360.0
    ensures Turn(h) == h
  {
    RemWithin(h, 360.0, 0);
    RemWithin(h + 360.0, 360.0, 1);
  }

  // Any hue, negative ones included, normalises into [0, 360) by whole turns.
  lemma TurnRange(h: real) returns (turns: int)
    ensures 0.0 <= Turn(h) < 360.0 && h == Turn(h) + 360.0 * turns as real
  {
    RemSpec(h, 360.0);
    var inner := Rem(h, 360.0);
    turns := Truncate(h / 360.0);
    if inner >= 0.0 {
      RemWithin(inner + 360.0, 360.0, 1);
    } else {
      RemWithin(inner + 360.0, 360.0, 0);
      turns := turns - 1;
    }
  }

  // The second-largest channel's share within its sextant.
  lemma Wave(hue: real)
    requires 0.0 <= hue < 6.0
    ensures var wave := WaveAt(hue);
      && (hue < 1.0 ==> wave == hue) && (1.0 <= hue < 2.0 ==> wave == 2.0 - hue)
      && (2.0 <= hue < 3.0 ==> wave == hue - 2.0) && (3.0 <= hue < 4.0 ==> wave == 4.0 - hue)
      && (4.0 <= hue < 5.0 ==> wave == hue - 4.0) && (5.0 <= hue ==> wave == 6.0 - hue)
  {
    RemWithin(hue, 2.0, if hue < 2.0 then 0 else if hue < 4.0 then 1 else 2);
  }

  // ---------------------------------------------------------------------------------------------
  // RGB to HSV and back
  // ---------------------------------------------------------------------------------------------

  // The hue, as a position on the six-part wheel, without remainders.
  function Position(c: Colour, max: real, delta: real): real
    requires delta > 0.0
  {
    if max == c.r then (if c.g >= c.b then (c.g - c.b) / delta else (c.g - c.b) / delta + 6.0)
    else if max == c.g then (c.b - c.r) / delta + 2.0
    else (c.r - c.g) / delta + 4.0
  }

  lemma Share(part: real, delta: real)
    requires delta > 0.0 && -delta <= part <= delta
    ensures -1.0 <= part / delta <= 1.0 && (part / delta) * delta == part
    ensures part >= 0.0 ==> part / delta >= 0.0
    ensures part < 0.0 ==> part / delta < 0.0
    ensures part == delta ==> part / delta == 1.0
    ensures part < delta ==> part / delta < 1.0
    ensures part > -delta ==> part / delta > -1.0
  {
    var q := part / delta;
    assert q * delta == part;
    assert (1.0 - q) * delta == delta - part && (1.0 + q) * delta == delta + part;
    Sign(q, delta);
    Sign(1.0 - q, delta);
    Sign(1.0 + q, delta);
  }

  lemma AsPosition(c: Colour)
    requires InUnit(c)
    ensures var max := Max(c.r, Max(c.g, c.b));
            var delta := max - Min(c.r, Min(c.g, c.b));
            delta > 0.0 ==> && 0.0 <= Position(c, max, delta) < 6.0
                            && ToHsv(c) == Hue(60.0 * Position(c, max, delta), delta / max, max)
  {
    var max := Max(c.r, Max(c.g, c.b));
    var delta := max - Min(c.r, Min(c.g, c.b));
    if delta > 0.0 {
      Share(c.g - c.b, delta);
      Share(c.b - c.r, delta);
      Share(c.r - c.g, delta);
      if max == c.r {
        var q := (c.g - c.b) / delta;
        SmallRem(q);
        RemWithin(q * 60.0 + 360.0, 360.0, if q >= 0.0 then 1 else 0);
      } else {
        RemWithin(Position(c, max, delta) * 60.0 + 360.0, 360.0, 1);
      }
    }
  }

  // A fraction of at most one in size is its own remainder by six.
  lemma SmallRem(q: real)
    requires -1.0 <= q <= 1.0
    ensures Rem(q, 6.0) == q
  {
    assert (q / 6.0).Floor == 0 || (-q / 6.0).Floor == 0;
  }

  // The colour above its grey part, each sextant pair by the channel on top.
  lemma RedAboveGreen(c: Colour, delta: real)
    requires c.r >= c.g >= c.b && delta == c.r - c.b > 0.0
    ensures Wheel((c.g - c.b) / delta, delta) == Colour(delta, c.g - c.b, 0.0)
  {
    var q := (c.g - c.b) / delta;
    Share(c.g - c.b, delta);
    Wave(q);
    assert delta * q == c.g - c.b;
    if q >= 1.0 { assert q == 1.0 && delta * 1.0 == delta; }
  }

  lemma RedAboveBlue(c: Colour, delta: real)
    requires c.r >= c.b > c.g && delta == c.r - c.g
    ensures Wheel((c.g - c.b) / delta + 6.0, delta) == Colour(delta, 0.0, c.b - c.g)
  {
    var q := (c.g - c.b) / delta;
    Share(c.g - c.b, delta);
    Wave(q + 6.0);
    assert 6.0 - (q + 6.0) == -q && delta * -q == c.b - c.g;
  }

  lemma RedOnTop(c: Colour, min: real)
    requires c.r >= c.g && c.r >= c.b && min == Min(c.g, c.b) && c.r > min
    ensures Wheel(Position(c, c.r, c.r - min), c.r - min) == Colour(c.r - min, c.g - min, c.b - min)
  {
    if c.g >= c.b { RedAboveGreen(c, c.r - min); } else { RedAboveBlue(c, c.r - min); }
  }

  lemma GreenOnTop(c: Colour, min: real)
    requires c.g > c.r && c.g >= c.b && min == Min(c.r, c.b)
    ensures Wheel(Position(c, c.g, c.g - min), c.g - min) == Colour(c.r - min, c.g - min, c.b - min)
  {
    var delta := c.g - min;
    var q := (c.b - c.r) / delta;
    Share(c.b - c.r, delta);
    Wave(Position(c, c.g, delta));
    assert delta * q == c.b - c.r && delta * -q == c.r - c.b;
    assert 2.0 - (q + 2.0) == -q && (q + 2.0) - 2.0 == q && 4.0 - (q + 2.0) == 2.0 - q;
  }

  lemma BlueOnTop(c: Colour, min: real)
    requires c.b > c.r && c.b > c.g && min == Min(c.r, c.g)
    ensures Wheel(Position(c, c.b, c.b - min), c.b - min) == Colour(c.r - min, c.g - min, c.b - min)
  {
    var delta := c.b - min;
    var q := (c.r - c.g) / delta;
    Share(c.r - c.g, delta);
    Wave(Position(c, c.b, delta));
    assert delta * q == c.r - c.g && delta * -q == c.g - c.r;
  }

  // Saturation and value give back the chroma.
  lemma Chroma(delta: real, max: real)
    requires 0.0 < delta <= max <= 1.0
    ensures Clamp(max) * Clamp(delta / max) == delta
  {
    Share(delta, max);
  }

  lemma AboveGrey(c: Colour, max: real, min: real)
    requires max == Max(c.r, Max(c.g, c.b)) && min == Min(c.r, Min(c.g, c.b)) && max > min
    ensures Wheel(Position(c, max, max - min), max - min) == Colour(c.r - min, c.g - min, c.b - min)
  {
    if max == c.r {
      RedOnTop(c, min);
    } else if max == c.g {
      GreenOnTop(c, min);
    } else {
      BlueOnTop(c, min);
    }
  }

  // A grey has no chroma: the wheel contributes nothing, whatever the hue.
  lemma NoChroma(hsv: Hue)
    requires hsv.s == 0.0 && 0.0 <= hsv.v <= 1.0
    ensures ToRgb(hsv) == Colour(hsv.v, hsv.v, hsv.v)
  {
    assert Clamp(hsv.v) * Clamp(0.0) == 0.0;
  }

  lemma SixtyDegrees(position: real)
    requires 0.0 <= position < 6.0
    ensures Turn(60.0 * position) / 60.0 == position
  {
    TurnInRange(60.0 * position);
  }

  lemma PaintFrom(position: real, delta: real, max: real)
    requires 0.0 <= position < 6.0 && 0.0 < delta <= max <= 1.0
    ensures PaintOf(Hue(60.0 * position, delta / max, max)) == Paint(position, delta, max)
  {
    SixtyDegrees(position);
    Chroma(delta, max);
  }

  // What the wheel gets for a colour that is not grey.
  lemma PaintOfColour(c: Colour, max: real, min: real)
    requires InUnit(c) && max == Max(c.r, Max(c.g, c.b)) && min == Min(c.r, Min(c.g, c.b)) && max > min
    ensures PaintOf(ToHsv(c)) == Paint(Position(c, max, max - min), max - min, max)
  {
    AsPosition(c);
    PaintFrom(Position(c, max, max - min), max - min, max);
  }

  lemma PaintedAbove(c: Colour, max: real, min: real)
    requires max == Max(c.r, Max(c.g, c.b)) && min == Min(c.r, Min(c.g, c.b)) && max > min
    ensures Painted(Paint(Position(c, max, max - min), max - min, max)) == c
  {
    AboveGrey(c, max, min);
  }

  // Converting to HSV and back loses nothing: sextant boundaries, greys and black included.
  lemma RoundTrip(c: Colour)
    requires InUnit(c)
    ensures ToRgb(ToHsv(c)) == c
  {
    var max := Max(c.r, Max(c.g, c.b));
    var min := Min(c.r, Min(c.g, c.b));
    if max == min {
      Grey(c);
      NoChroma(ToHsv(c));
    } else {
      PaintOfColour(c, max, min);
      PaintedAbove(c, max, min);
    }
  }

  lemma Grey(c: Colour)
    requires InUnit(c) && c.r == c.g == c.b
    ensures ToHsv(c).s == 0.0 && ToHsv(c).v == c.r
  {
    if c.r != 0.0 { Share(0.0, c.r); }
  }

  // ---------------------------------------------------------------------------------------------
  // The other way round, and on the 256 levels of a hex colour
  // ---------------------------------------------------------------------------------------------

  lemma Fraction(delta: real, w: real)
    requires delta > 0.0 && 0.0 <= w <= 1.0
    ensures 0.0 <= delta * w <= delta && (delta * w == delta <==> w == 1.0)
    ensures (delta * w) / delta == w && -(delta * w) / delta == -w
  {
    assert delta * (1.0 - w) == delta - delta * w;
    Sign(w, delta);
    Sign(1.0 - w, delta);
    Quotient(w, delta);
    Quotient(-w, delta);
  }

  lemma Quotient(w: real, delta: real)
    requires delta > 0.0
    ensures (delta * w) / delta == w
  {
    var q := (delta * w) / delta;
    assert (q - w) * delta == q * delta - w * delta;
    Sign(q - w, delta);
  }

  // Position is recovered from the three channels: the one on top, the one at the grey level, and
  // the one a fraction w of the way between.
  predicate Levels(v: real, low: real, mid: real, w: real) {
    && 0.0 <= low <= mid <= v <= 1.0 && low < v && 0.0 <= w <= 1.0
    && (mid == v <==> w == 1.0)
    && (mid - low) / (v - low) == w && (low - mid) / (v - low) == -w
  }

  function Placed(sextant: int, v: real, low: real, mid: real): Colour {
    match sextant
    case 0 => Colour(v, mid, low)
    case 1 => Colour(mid, v, low)
    case 2 => Colour(low, v, mid)
    case 3 => Colour(low, mid, v)
    case 4 => Colour(mid, low, v)
    case _ => Colour(v, low, mid)
  }

  lemma PositionOf(sextant: int, v: real, low: real, mid: real, w: real)
    requires Levels(v, low, mid, w) && SextantShare(sextant, w)
    ensures var c := Placed(sextant, v, low, mid);
      && InUnit(c) && Max(c.r, Max(c.g, c.b)) == v && Min(c.r, Min(c.g, c.b)) == low
      && Position(c, v, v - low) == sextant as real + if sextant % 2 == 0 then w else 1.0 - w
  {
    Share(v - low, v - low);
  }

  lemma LevelsOf(delta: real, v: real, w: real)
    requires 0.0 < delta <= v <= 1.0 && 0.0 <= w <= 1.0
    ensures Levels(v, v - delta, v - delta + delta * w, w)
  {
    Fraction(delta, w);
  }

  predicate SextantShare(sextant: int, w: real) {
    0 <= sextant < 6 && 0.0 <= w <= 1.0 && if sextant % 2 == 0 then w < 1.0 else w > 0.0
  }

  lemma WaveShare(position: real) returns (sextant: int, w: real)
    requires 0.0 <= position < 6.0
    ensures SextantShare(sextant, w) && sextant == position.Floor && WaveAt(position) == w
    ensures position == sextant as real + if sextant % 2 == 0 then w else 1.0 - w
  {
    Wave(position);
    sextant := position.Floor;
    w := if sextant % 2 == 0 then position - sextant as real else 1.0 - (position - sextant as real);
  }

  lemma SixthPlaced(position: real, c: real, x: real, v: real, sextant: int)
    requires 0.0 <= position < 6.0 && sextant == position.Floor
    ensures Lifted(Sixth(position, c, x), v - c) == Placed(sextant, v, v - c, v - c + x)
  {
  }

  lemma PaintedAt(position: real, delta: real, v: real, w: real)
    requires WaveAt(position) == w
    ensures Painted(Paint(position, delta, v)) == Lifted(Sixth(position, delta, delta * w), v - delta)
  {
  }

  // On the wheel the three channels stand in the order of the sextant.
  lemma PaintedLevels(position: real, delta: real, v: real) returns (sextant: int, w: real)
    requires 0.0 <= position < 6.0
    ensures SextantShare(sextant, w) && position == sextant as real + if sextant % 2 == 0 then w else 1.0 - w
    ensures Painted(Paint(position, delta, v)) == Placed(sextant, v, v - delta, v - delta + delta * w)
  {
    sextant, w := WaveShare(position);
    PaintedAt(position, delta, v, w);
    SixthPlaced(position, delta, delta * w, v, sextant);
  }

  lemma PositionOfPaint(position: real, delta: real, v: real)
    requires 0.0 <= position < 6.0 && 0.0 < delta <= v <= 1.0
    ensures var c := Painted(Paint(position, delta, v));
      && InUnit(c) && Max(c.r, Max(c.g, c.b)) == v && Min(c.r, Min(c.g, c.b)) == v - delta
      && Position(c, v, delta) == position
  {
    var sextant, w := PaintedLevels(position, delta, v);
    LevelsOf(delta, v, w);
    PositionOf(sextant, v, v - delta, v - delta + delta * w, w);
  }

  lemma ChromaWithin(v: real, s: real)
    requires 0.0 < v && 0.0 < s <= 1.0
    ensures 0.0 < v * s <= v && (v * s) / v == s
  {
    Fraction(v, s);
    Sign(s, v);
  }

  lemma HsvOfPaint(position: real, delta: real, v: real)
    requires 0.0 <= position < 6.0 && 0.0 < delta <= v <= 1.0
    ensures var c := Painted(Paint(position, delta, v));
            InUnit(c) && ToHsv(c) == Hue(60.0 * position, delta / v, v)
  {
    PositionOfPaint(position, delta, v);
    AsPosition(Painted(Paint(position, delta, v)));
  }

  // A saturated, visible HSV value comes back from RGB unchanged.
  lemma RoundTripHsv(hsv: Hue)
    requires 0.0 <= hsv.h < 360.0 && 0.0 < hsv.s <= 1.0 && 0.0 < hsv.v <= 1.0
    ensures InUnit(ToRgb(hsv)) && ToHsv(ToRgb(hsv)) == hsv
  {
    var position, delta := hsv.h / 60.0, hsv.v * hsv.s;
    ChromaWithin(hsv.v, hsv.s);
    assert hsv == Hue(60.0 * position, delta / hsv.v, hsv.v);
    PaintFrom(position, delta, hsv.v);
    HsvOfPaint(position, delta, hsv.v);
  }

  lemma TurnIsCyclic(h: real, turns: int)
    ensures Turn(h + 360.0 * turns as real) == Turn(h)
  {
    var there := TurnRange(h + 360.0 * turns as real);
    var here := TurnRange(h);
    assert there == here + turns;
  }

  lemma PaintIsCyclic(hsv: Hue, h: real)
    requires Turn(h) == Turn(hsv.h)
    ensures PaintOf(hsv.(h := h)) == PaintOf(hsv)
  {
  }

  // Whole turns of the hue, in either direction, change nothing.
  lemma HueIsCyclic(hsv: Hue, turns: int)
    ensures ToRgb(hsv.(h := hsv.h + 360.0 * turns as real)) == ToRgb(hsv)
  {
    TurnIsCyclic(hsv.h, turns);
    PaintIsCyclic(hsv, hsv.h + 360.0 * turns as real);
  }

  function Round(x: real): int {
    (x + 0.5).Floor
  }

  // A hex colour's channel, as the picker reads and writes it.
  function Level(n: int): real {
    n as real / 255.0
  }

  function Channel(x: real): int {
    Round(Min(255.0, Max(0.0, x * 255.0)))
  }

  // Every hex colour survives the picker's round trip, rounding included.
  lemma HexRoundTrip(r: int, g: int, b: int)
    requires 0 <= r <= 255 && 0 <= g <= 255 && 0 <= b <= 255
    ensures var c := ToRgb(ToHsv(Colour(Level(r), Level(g), Level(b))));
            Channel(c.r) == r && Channel(c.g) == g && Channel(c.b) == b
  {
    RoundTrip(Colour(Level(r), Level(g), Level(b)));
  }

  // A channel is written as the nearest level, the upper one of two equally near, and kept within 0 to 255.
  lemma ChannelIsNearest(x: real)
    ensures 0 <= Channel(x) <= 255
    ensures 0.0 <= x <= 1.0 ==> x * 255.0 - 0.5 < Channel(x) as real <= x * 255.0 + 0.5
    ensures (x < 0.0 ==> Channel(x) == 0) && (x > 1.0 ==> Channel(x) == 255)
  {
  }

  lemma ClampsOnce(x: real)
    ensures Clamp(Max(0.0, Min(1.0, x))) == Clamp(x)
  {
  }

  // Saturation and value beyond their range count as its ends.
  lemma BeyondTheRange(h: real, s: real, v: real)
    ensures PaintOf(Hue(h, s, v)) == PaintOf(Hue(h, Max(0.0, Min(1.0, s)), Max(0.0, Min(1.0, v))))
  {
    ClampsOnce(s);
    ClampsOnce(v);
  }

  // A grey has no hue and no saturation.
  lemma GreyHasNoHue(v: real)
    requires 0.0 <= v <= 1.0
    ensures ToHsv(Colour(v, v, v)) == Hue(0.0, 0.0, v)
  {
    Grey(Colour(v, v, v));
    RemWithin(360.0, 360.0, 1);
  }

  // The corners of the wheel: red, yellow, green, cyan, blue and magenta stand at 0, 60, 120, 180, 240 and
  // 300 degrees.
  lemma Corners()
    ensures ToHsv(Colour(1.0, 0.0, 0.0)) == Hue(0.0, 1.0, 1.0) && ToHsv(Colour(1.0, 1.0, 0.0)) == Hue(60.0, 1.0, 1.0)
    ensures ToHsv(Colour(0.0, 1.0, 0.0)) == Hue(120.0, 1.0, 1.0) && ToHsv(Colour(0.0, 1.0, 1.0)) == Hue(180.0, 1.0, 1.0)
    ensures ToHsv(Colour(0.0, 0.0, 1.0)) == Hue(240.0, 1.0, 1.0) && ToHsv(Colour(1.0, 0.0, 1.0)) == Hue(300.0, 1.0, 1.0)
  {
    AsPosition(Colour(1.0, 0.0, 0.0));
    AsPosition(Colour(1.0, 1.0, 0.0));
    AsPosition(Colour(0.0, 1.0, 0.0));
    AsPosition(Colour(0.0, 1.0, 1.0));
    AsPosition(Colour(0.0, 0.0, 1.0));
    AsPosition(Colour(1.0, 0.0, 1.0));
  }
}
