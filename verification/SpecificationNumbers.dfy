/**
 Numbers read out of specification values by the editor, and the server's test that a decimal is
 stored in NUMERIC(24, 8) without overflow or rounding.
 */
module SpecificationNumbers {
  import opened Prelude
  import opened SpecificationKeys

  predicate IsDigit(c: char) {
    '0' <= c <= '9'
  }

  predicate Digits(s: string) {
    forall c <- s :: IsDigit(c)
  }

  predicate Spaces(s: string) {
    forall c <- s :: IsSpace(c)
  }

  // ---------------------------------------------------------------------------------------------
  // The editor's expression
  // ---------------------------------------------------------------------------------------------

  datatype Number = Number(sign: string, whole: string, point: string, fraction: string) {
    function Text(): string {
      sign + whole + point + fraction
    }

    // [+-]?\d{1,16}(?:[.,]\d{1,8})?
    predicate Valid() {
      && (sign == "" || sign == "+" || sign == "-")
      && 1 <= |whole| <= 16 && Digits(whole)
      && if point == "" then fraction == ""
         else (point == "." || point == ",") && 1 <= |fraction| <= 8 && Digits(fraction)
    }
  }

  // The letters of a unit, \p{L} being a parameter.
  predicate Opening(letter: char -> bool, c: char) {
    letter(c) || c == '%' || c == '°' || c == 'Ω' || c == 'µ' || c == 'μ'
  }

  predicate Following(letter: char -> bool, c: char) {
    || Opening(letter, c) || c == '/' || c == '²' || c == '³' || c == '^' || IsDigit(c) || c == '.' || c == '-'
  }

  predicate Unit(letter: char -> bool, s: string) {
    1 <= |s| <= 32 && Opening(letter, s[0]) && forall c <- s :: Following(letter, c)
  }

  // Unicode letters are neither digits, separators nor white space.
  ghost predicate Letters(letter: char -> bool) {
    forall c :: letter(c) ==> !IsDigit(c) && !IsSpace(c) && c != '.' && c != ','
  }

  // A reading of the value: number, optional white space, unit.
  predicate Reads(letter: char -> bool, value: string, number: Number, gap: string, unit: string) {
    value == number.Text() + gap + unit && number.Valid() && Spaces(gap) && Unit(letter, unit)
  }

  datatype Split = Split(head: string, rest: string)

  // The longest prefix of one kind of character.
  function Take(s: string, p: char -> bool): (r: Split)
    ensures s == r.head + r.rest && (forall c <- r.head :: p(c)) && (r.rest != "" ==> !p(r.rest[0]))
  {
    if s == "" || !p(s[0]) then Split("", s)
    else var tail := Take(s[1..], p); Split([s[0]] + tail.head, tail.rest)
  }

  function TakeOne(s: string, p: char -> bool): (r: Split)
    ensures s == r.head + r.rest
  {
    if s == "" || !p(s[0]) then Split("", s) else Split(s[..1], s[1..])
  }

  predicate IsSign(c: char) {
    c == '+' || c == '-'
  }

  predicate IsPoint(c: char) {
    c == '.' || c == ','
  }

  // One pass from the left, without backtracking: the longest number, and what follows it.
  function ScanNumber(value: string): (Number, string) {
    var sign := TakeOne(value, IsSign);
    var whole := Take(sign.rest, IsDigit);
    var point := TakeOne(whole.rest, IsPoint);
    var fraction := if point.head == "" then Split("", point.rest) else Take(point.rest, IsDigit);
    (Number(sign.head, whole.head, point.head, fraction.head), fraction.rest)
  }

  function Scan(letter: char -> bool, value: string): Option<(Number, string)> {
    var (number, tail) := ScanNumber(value);
    var unit := Take(tail, IsSpace).rest;
    if number.Valid() && Unit(letter, unit) then Some((number, unit)) else None
  }

  // A cross between a number and an `x`, Latin or Cyrillic, is a size, not a unit.
  predicate IsCross(c: char) {
    c == 'x' || c == 'X' || c == 'х' || c == 'Х'
  }

  predicate CrossesDigit(unit: string) {
    exists i, j | 0 <= i < j < |unit| :: IsCross(unit[i]) && IsDigit(unit[j]) && Spaces(unit[i + 1..j])
  }

  // The value's number, with a decimal point, and its unit.
  function Metadata(letter: char -> bool, value: string): Option<(Number, string)> {
    match Scan(letter, value)
    case None => None
    case Some((number, unit)) =>
      if CrossesDigit(unit) then None
      else Some((number.(point := if number.point == "," then "." else number.point), unit))
  }

  lemma {:induction false} TakeOf(a: string, b: string, p: char -> bool)
    requires (forall c <- a :: p(c)) && (b != "" ==> !p(b[0]))
    ensures Take(a + b, p) == Split(a, b)
  {
    if a != "" {
      assert (a + b)[1..] == a[1..] + b;
      TakeOf(a[1..], b, p);
    } else {
      assert a + b == b;
    }
  }

  lemma TakeOneOf(a: string, b: string, p: char -> bool)
    requires if a == "" then b != "" ==> !p(b[0]) else |a| == 1 && p(a[0])
    ensures TakeOne(a + b, p) == Split(a, b)
  {
  }

  lemma Parts(a: string, b: string, c: string, d: string, e: string)
    ensures a + (b + (c + (d + e))) == a + b + c + d + e
  {
  }

  lemma ScanNumberSplits(value: string)
    ensures value == ScanNumber(value).0.Text() + ScanNumber(value).1
  {
    var (number, tail) := ScanNumber(value);
    Parts(number.sign, number.whole, number.point, number.fraction, tail);
  }

  lemma ThreeParts(value: string, number: string, tail: string, gap: string, unit: string)
    requires value == number + tail && tail == gap + unit
    ensures value == number + gap + unit
  {
  }

  lemma ScanReads(letter: char -> bool, value: string) returns (gap: string)
    ensures match Scan(letter, value)
            case Some((number, unit)) => Reads(letter, value, number, gap, unit)
            case None => true
  {
    ScanNumberSplits(value);
    var (number, tail) := ScanNumber(value);
    var split := Take(tail, IsSpace);
    gap := split.head;
    ThreeParts(value, number.Text(), tail, gap, split.rest);
  }

  // What follows a number starts with neither a digit nor a separator, so the scan stops there.
  predicate Ends(tail: string) {
    tail != "" && !IsDigit(tail[0]) && !IsPoint(tail[0])
  }

  lemma ScanNumberFinds(number: Number, tail: string)
    requires number.Valid() && Ends(tail)
    ensures ScanNumber(number.Text() + tail) == (number, tail)
  {
    var decimals := number.fraction + tail;
    var after := number.point + decimals;
    var unsigned := number.whole + after;
    Parts(number.sign, number.whole, number.point, number.fraction, tail);
    assert unsigned[0] == number.whole[0] && IsDigit(number.whole[0]);
    TakeOneOf(number.sign, unsigned, IsSign);
    TakeOf(number.whole, after, IsDigit);
    TakeOneOf(number.point, decimals, IsPoint);
    if number.point == "" {
      assert decimals == tail;
    } else {
      TakeOf(number.fraction, tail, IsDigit);
    }
  }

  lemma GapEnds(letter: char -> bool, gap: string, unit: string)
    requires Letters(letter) && Spaces(gap) && Unit(letter, unit)
    ensures Ends(gap + unit) && !IsSpace(unit[0])
  {
    assert Opening(letter, unit[0]);
    if gap != "" {
      assert gap[0] in gap && (gap + unit)[0] == gap[0];
    }
  }

  // The parts of any reading are what the scan finds: the expression is unambiguous.
  lemma ReadsScan(letter: char -> bool, value: string, number: Number, gap: string, unit: string)
    requires Letters(letter) && Reads(letter, value, number, gap, unit)
    ensures Scan(letter, value) == Some((number, unit))
  {
    assert value == number.Text() + (gap + unit);
    GapEnds(letter, gap, unit);
    ScanNumberFinds(number, gap + unit);
    TakeOf(gap, unit, IsSpace);
  }

  // The scan succeeds on exactly the values the expression matches, with the one reading there is.
  lemma ScanExact(letter: char -> bool, value: string, number: Number, unit: string)
    requires Letters(letter)
    ensures Scan(letter, value) == Some((number, unit)) <==> exists gap :: Reads(letter, value, number, gap, unit)
  {
    var gap := ScanReads(letter, value);
    if other :| Reads(letter, value, number, other, unit) {
      ReadsScan(letter, value, number, other, unit);
    }
  }

  // The expression reads the value as this number, with a point for a comma, and this unit, which is no
  // size.
  ghost predicate ReadsAs(letter: char -> bool, value: string, n: Number, unit: string) {
    !CrossesDigit(unit) && exists number, gap ::
      Reads(letter, value, number, gap, unit) && n == number.(point := if number.point == "" then "" else ".")
  }

  // A value has a number and a unit exactly if the expression reads them there.
  lemma MetadataExact(letter: char -> bool, value: string, n: Number, unit: string)
    requires Letters(letter)
    ensures Metadata(letter, value) == Some((n, unit)) <==> ReadsAs(letter, value, n, unit)
  {
    var gap := ScanReads(letter, value);
    if ReadsAs(letter, value, n, unit) {
      var number, other :| Reads(letter, value, number, other, unit)
                           && n == number.(point := if number.point == "" then "" else ".");
      ReadsScan(letter, value, number, other, unit);
    }
    if Metadata(letter, value) == Some((n, unit)) {
      var number := Scan(letter, value).value.0;
      assert Reads(letter, value, number, gap, unit);
    }
  }

  lemma ScanFinds(letter: char -> bool, number: Number, unit: string)
    requires Letters(letter) && Unit(letter, unit) && Digits(number.whole) && number.whole != "" && number.sign == ""
    requires if number.point == "" then number.fraction == "" else number.point == "." && number.fraction != ""
    requires Digits(number.fraction)
    ensures Scan(letter, number.Text() + unit) == if number.Valid() then Some((number, unit)) else None
  {
    var decimals := number.fraction + unit;
    var after := number.point + decimals;
    GapEnds(letter, "", unit);
    assert "" + unit == unit;
    Parts(number.sign, number.whole, number.point, number.fraction, unit);
    assert (number.whole + after)[0] == number.whole[0] && number.whole[0] in number.whole;
    if number.point == "" { assert decimals == unit && after == unit; }
    TakeOneOf(number.sign, number.whole + after, IsSign);
    TakeOf(number.whole, after, IsDigit);
    TakeOneOf(number.point, decimals, IsPoint);
    if number.point != "" { TakeOf(number.fraction, unit, IsDigit); }
    TakeOf("", unit, IsSpace);
  }

  // How many digits are read: up to sixteen before the point, and up to eight behind it.
  lemma WholeLimit(letter: char -> bool, whole: string, unit: string)
    requires Letters(letter) && Unit(letter, unit) && !CrossesDigit(unit) && Digits(whole) && whole != ""
    ensures Metadata(letter, whole + unit).Some? <==> |whole| <= 16
  {
    var number := Number("", whole, "", "");
    ScanFinds(letter, number, unit);
    assert number.Text() == whole;
  }

  lemma DecimalText(whole: string, fraction: string)
    ensures Number("", whole, ".", fraction).Text() == whole + "." + fraction
  {
  }

  lemma MetadataFinds(letter: char -> bool, number: Number, text: string, unit: string)
    requires Scan(letter, text) == (if number.Valid() then Some((number, unit)) else None) && !CrossesDigit(unit)
    ensures Metadata(letter, text).Some? <==> number.Valid()
  {
  }

  lemma DecimalLimit(letter: char -> bool, whole: string, fraction: string, unit: string)
    requires Letters(letter) && Unit(letter, unit) && !CrossesDigit(unit)
    requires Digits(whole) && Digits(fraction) && whole != "" && fraction != ""
    ensures Metadata(letter, whole + "." + fraction + unit).Some? <==> |whole| <= 16 && |fraction| <= 8
  {
    var number := Number("", whole, ".", fraction);
    ScanFinds(letter, number, unit);
    DecimalText(whole, fraction);
    MetadataFinds(letter, number, whole + "." + fraction + unit, unit);
    assert number.Valid() <==> |whole| <= 16 && |fraction| <= 8;
  }

  // Which single characters are units.
  lemma UnitSigns(letter: char -> bool, c: char)
    ensures Unit(letter, [c]) <==> letter(c) || c in "%°Ωµμ"
  {
  }

  // ---------------------------------------------------------------------------------------------
  // Decimals and their storage
  // ---------------------------------------------------------------------------------------------

  // A finite decimal is its digits times a power of ten; infinities and NaNs are the rest.
  datatype Decimal = Finite(negative: bool, digits: seq<nat>, exponent: int) | NotFinite

  predicate Canonical(digits: seq<nat>) {
    digits != [] && (forall d <- digits :: d < 10) && (digits[0] != 0 || |digits| == 1)
  }

  function Pow10(n: nat): (r: nat)
    ensures r >= 1
  {
    if n == 0 then 1 else 10 * Pow10(n - 1)
  }

  function Value(digits: seq<nat>): nat {
    if digits == [] then 0 else 10 * Value(digits[..|digits| - 1]) + digits[|digits| - 1]
  }

  function Scaled(digits: seq<nat>, shift: nat): nat {
    Value(digits) * Pow10(shift)
  }

  // digits * 10^exponent == k / 10^8, without fractions.
  predicate Denotes(k: nat, digits: seq<nat>, exponent: int) {
    if exponent >= -8 then k == Scaled(digits, exponent + 8)
    else k * Pow10(-8 - exponent) == Value(digits)
  }

  // A NUMERIC(24, 8) column holds the multiples of 10^-8 below 10^16 in size.
  ghost predicate Representable(d: Decimal) {
    d.Finite? && exists k: nat :: k < Pow10(24) && Denotes(k, d.digits, d.exponent)
  }

  lemma {:induction false} Pow10Add(a: nat, b: nat)
    ensures Pow10(a + b) == Pow10(a) * Pow10(b)
  {
    if a > 0 {
      Pow10Add(a - 1, b);
      assert Pow10(a - 1 + b) == Pow10(a + b - 1);
    }
  }

  lemma {:induction false} Pow10Mono(a: nat, b: nat)
    requires a <= b
    ensures Pow10(a) <= Pow10(b)
  {
    if a < b { Pow10Mono(a, b - 1); }
  }

  lemma {:induction false} ValueBelow(digits: seq<nat>)
    requires forall d <- digits :: d < 10
    ensures Value(digits) < Pow10(|digits|)
  {
    if digits != [] {
      var rest := digits[..|digits| - 1];
      assert forall d <- rest :: d in digits;
      ValueBelow(rest);
      assert digits[|digits| - 1] in digits;
    }
  }

  lemma {:induction false} ValueAbove(digits: seq<nat>)
    requires digits != [] && digits[0] != 0
    ensures Value(digits) >= Pow10(|digits| - 1)
  {
    if |digits| > 1 { ValueAbove(digits[..|digits| - 1]); }
  }

  lemma {:induction false} TrailingZeros(digits: seq<nat>, t: nat)
    requires t <= |digits| && forall i | |digits| - t <= i < |digits| :: digits[i] == 0
    ensures Value(digits) == Value(digits[..|digits| - t]) * Pow10(t)
    decreases t
  {
    if t == 0 {
      assert digits[..|digits|] == digits;
    } else {
      var rest := digits[..|digits| - 1];
      TrailingZeros(rest, t - 1);
      assert rest[..|rest| - (t - 1)] == digits[..|digits| - t];
    }
  }

  // Scaling past a number of places leaves the numbers that short; up to it, it does not.
  lemma ScaledRange(digits: seq<nat>, shift: nat, width: nat)
    requires Canonical(digits) && digits[0] != 0
    ensures Scaled(digits, shift) < Pow10(width) <==> |digits| + shift <= width
  {
    if |digits| + shift <= width { ScaledWithin(digits, shift, width); } else { ScaledBeyond(digits, shift, width); }
  }

  lemma ScaledWithin(digits: seq<nat>, shift: nat, width: nat)
    requires Canonical(digits) && |digits| + shift <= width
    ensures Scaled(digits, shift) < Pow10(width)
  {
    ValueBelow(digits);
    Pow10Add(|digits|, shift);
    Pow10Mono(|digits| + shift, width);
    Product(Value(digits), Pow10(|digits|), Pow10(shift));
  }

  lemma ScaledBeyond(digits: seq<nat>, shift: nat, width: nat)
    requires Canonical(digits) && digits[0] != 0 && |digits| + shift > width
    ensures Scaled(digits, shift) >= Pow10(width)
  {
    ValueAbove(digits);
    Pow10Add(|digits| - 1, shift);
    Pow10Mono(width, |digits| - 1 + shift);
    AtMost(Pow10(|digits| - 1), Value(digits), Pow10(shift));
  }

  lemma Product(a: nat, b: nat, c: nat)
    requires a < b && c >= 1
    ensures a * c < b * c
  {
  }

  lemma AtMost(a: nat, b: nat, c: nat)
    requires a <= b
    ensures a * c <= b * c
  {
  }

  // Below the eighth decimal, the digits must end in enough zeros.
  lemma EnoughZeros(digits: seq<nat>, t: nat, cut: nat)
    requires cut <= t <= |digits| && forall i | |digits| - t <= i < |digits| :: digits[i] == 0
    ensures Value(digits[..|digits| - t]) * Pow10(t - cut) * Pow10(cut) == Value(digits)
  {
    TrailingZeros(digits, t);
    Pow10Add(t - cut, cut);
    Regroup(Value(digits[..|digits| - t]), Pow10(t - cut), Pow10(cut));
  }

  lemma TooFewZeros(digits: seq<nat>, t: nat, cut: nat, k: nat)
    requires t < |digits| && 0 < digits[|digits| - 1 - t] < 10 && t < cut
    requires forall i | |digits| - t <= i < |digits| :: digits[i] == 0
    ensures k * Pow10(cut) != Value(digits)
  {
    var head := digits[..|digits| - t];
    TrailingZeros(digits, t);
    Pow10Add(cut - t, t);
    Regroup(k, Pow10(cut - t), Pow10(t));
    LastDigit(k, Pow10(cut - t - 1), head);
    if k * Pow10(cut) == Value(digits) {
      Cancel(k * Pow10(cut - t), Value(head), Pow10(t));
    }
  }

  lemma Regroup(a: nat, b: nat, c: nat)
    ensures a * b * c == a * (b * c)
  {
  }

  lemma Cancel(a: nat, b: nat, c: nat)
    requires c >= 1 && a * c == b * c
    ensures a == b
  {
  }

  lemma LastDigit(k: nat, p: nat, head: seq<nat>)
    requires head != [] && 0 < head[|head| - 1] < 10
    ensures k * (10 * p) != Value(head)
  {
    assert k * (10 * p) == 10 * (k * p);
  }

  lemma ZeroDenotes(digits: seq<nat>, exponent: int)
    requires Value(digits) == 0
    ensures Denotes(0, digits, exponent)
  {
  }

  // Canonical digits are zero only as the single digit.
  lemma ZeroExactly(digits: seq<nat>)
    requires Canonical(digits)
    ensures Value(digits) == 0 <==> digits[0] == 0
  {
    if digits[0] != 0 {
      ValueAbove(digits);
    } else {
      assert Value(digits[..0]) == 0;
    }
  }

  // The trailing zeros of a nonzero decimal.
  predicate Trailing(digits: seq<nat>, t: nat) {
    && Canonical(digits) && digits[0] != 0 && t < |digits| && digits[|digits| - 1 - t] != 0
    && forall i | |digits| - t <= i < |digits| :: digits[i] == 0
  }

  lemma FitsWhole(d: Decimal)
    requires d.Finite? && Canonical(d.digits) && d.digits[0] != 0
    requires d.exponent >= -8 && |d.digits| + d.exponent <= 16
    ensures Representable(d)
  {
    ScaledRange(d.digits, d.exponent + 8, 24);
    assert Denotes(Scaled(d.digits, d.exponent + 8), d.digits, d.exponent);
  }

  lemma CutDenotes(digits: seq<nat>, exponent: int, t: nat) returns (k: nat)
    requires Trailing(digits, t) && -8 - t <= exponent < -8
    ensures Denotes(k, digits, exponent) && k * Pow10(-8 - exponent) == Value(digits)
  {
    k := Value(digits[..|digits| - t]) * Pow10(t + 8 + exponent);
    EnoughZeros(digits, t, -8 - exponent);
  }

  lemma FitsCut(d: Decimal, t: nat)
    requires d.Finite? && Trailing(d.digits, t)
    requires -8 - t <= d.exponent < -8 && |d.digits| + d.exponent <= 16
    ensures Representable(d)
  {
    var k := CutDenotes(d.digits, d.exponent, t);
    ValueBelow(d.digits);
    Below(k, Value(d.digits), |d.digits|, -8 - d.exponent);
  }

  // A multiple of a power of ten is that much shorter.
  lemma Below(k: nat, value: nat, n: nat, cut: nat)
    requires k * Pow10(cut) == value && value < Pow10(n) && n <= 24 + cut
    ensures k < Pow10(24)
  {
    if k >= Pow10(24) {
      AtMost(Pow10(24), k, Pow10(cut));
      Pow10Add(24, cut);
      Pow10Mono(n, 24 + cut);
    }
  }

  lemma FitsOnly(d: Decimal, t: nat)
    requires d.Finite? && Trailing(d.digits, t) && Representable(d)
    ensures |d.digits| + d.exponent <= 16 && d.exponent + t >= -8
  {
    var k: nat :| k < Pow10(24) && Denotes(k, d.digits, d.exponent);
    if d.exponent >= -8 {
      ScaledRange(d.digits, d.exponent + 8, 24);
    } else {
      assert d.digits[|d.digits| - 1 - t] in d.digits;
      if t < -8 - d.exponent { TooFewZeros(d.digits, t, -8 - d.exponent, k); }
      NotLonger(d.digits, -8 - d.exponent, k, 24);
    }
  }

  lemma NotLonger(digits: seq<nat>, cut: nat, k: nat, width: nat)
    requires digits != [] && digits[0] != 0 && k < Pow10(width) && k * Pow10(cut) == Value(digits)
    ensures |digits| <= width + cut
  {
    if |digits| > width + cut {
      ValueAbove(digits);
      Pow10Mono(width + cut, |digits| - 1);
      Pow10Add(width, cut);
      Product(k, Pow10(width), Pow10(cut));
    }
  }

  // The server's guard accepts exactly the decimals the column stores unchanged.
  method FitsNumericStorage(d: Decimal) returns (fits: bool)
    requires d.Finite? ==> Canonical(d.digits)
    ensures fits <==> Representable(d)
  {
    if d.NotFinite? {
      return false;
    }
    ZeroExactly(d.digits);
    if d.digits[0] == 0 {
      ZeroDenotes(d.digits, d.exponent);
      return true;
    }
    var trailing := 0;
    while trailing < |d.digits| && d.digits[|d.digits| - 1 - trailing] == 0
      invariant trailing < |d.digits|
      invariant forall i | |d.digits| - trailing <= i < |d.digits| :: d.digits[i] == 0
    {
      trailing := trailing + 1;
    }
    // The exponent of the leading digit.
    var adjusted := d.exponent + |d.digits| - 1;
    fits := adjusted <= 15 && d.exponent + trailing >= -8;
    if fits {
      if d.exponent >= -8 { FitsWhole(d); } else { FitsCut(d, trailing); }
    } else if Representable(d) {
      FitsOnly(d, trailing);
    }
  }

  // ---------------------------------------------------------------------------------------------
  // What the editor sends is stored unchanged
  // ---------------------------------------------------------------------------------------------

  function Figure(c: char): (d: nat)
    requires IsDigit(c)
    ensures d < 10
  {
    c as int - '0' as int
  }

  function Figures(s: string): (r: seq<nat>)
    requires Digits(s)
    ensures |r| == |s| && forall d <- r :: d < 10
  {
    if s == "" then [] else assert s[0] in s; [Figure(s[0])] + Figures(s[1..])
  }

  function Unpadded(digits: seq<nat>): (r: seq<nat>)
    requires digits != []
    ensures r != [] && |r| <= |digits| && (r[0] != 0 || |r| == 1) && forall d <- r :: d in digits
  {
    if |digits| > 1 && digits[0] == 0 then Unpadded(digits[1..]) else digits
  }

  // How the server's Decimal reads the number's text.
  function DecimalOf(n: Number): Decimal
    requires n.Valid()
  {
    Finite(n.sign == "-", Unpadded(Figures(n.whole + n.fraction)), -|n.fraction|)
  }

  lemma {:induction false} UnpaddedValue(digits: seq<nat>)
    requires digits != []
    ensures Value(Unpadded(digits)) == Value(digits)
  {
    if |digits| > 1 && digits[0] == 0 {
      LeadingZero(digits[1..]);
      assert digits == [0] + digits[1..];
      UnpaddedValue(digits[1..]);
    }
  }

  lemma {:induction false} LeadingZero(digits: seq<nat>)
    ensures Value([0] + digits) == Value(digits)
  {
    if digits != [] {
      var rest := digits[..|digits| - 1];
      LeadingZero(rest);
      assert ([0] + digits)[..|digits|] == [0] + rest;
    }
  }

  lemma MetadataValid(letter: char -> bool, value: string)
    requires Metadata(letter, value).Some?
    ensures var (n, unit) := Metadata(letter, value).value;
            n.Valid() && n.point != "," && Unit(letter, unit)
  {
  }

  // Every number taken from a value, whole and fraction digits as written, is a multiple k of 10^-8
  // that the column holds, within the server's text limits.
  lemma NumbersAreStored(letter: char -> bool, value: string) returns (k: nat)
    requires Metadata(letter, value).Some?
    ensures var (n, unit) := Metadata(letter, value).value;
      && n.Valid() && n.point != "," && |n.Text()| <= 64 && 1 <= |unit| <= 32
      && StoredAs(n, k)
  {
    MetadataValid(letter, value);
    k := ValidIsStored(Metadata(letter, value).value.0);
  }

  // The column's value k / 10^8 is the number as written and as the server's Decimal reads it.
  predicate StoredAs(n: Number, k: nat)
    requires n.Valid()
  {
    && Canonical(DecimalOf(n).digits) && k < Pow10(24)
    && Denotes(k, Figures(n.whole + n.fraction), -|n.fraction|)
    && Denotes(k, DecimalOf(n).digits, DecimalOf(n).exponent)
  }

  lemma ShortIsStored(digits: seq<nat>, decimals: nat)
    requires Canonical(digits) && decimals <= 8 && |digits| <= 16 + decimals
    ensures Scaled(digits, 8 - decimals) < Pow10(24)
  {
    ZeroExactly(digits);
    if digits[0] != 0 { ScaledRange(digits, 8 - decimals, 24); }
  }

  lemma ShortDenotes(digits: seq<nat>, decimals: int)
    requires 0 <= decimals <= 8
    ensures Denotes(Scaled(digits, 8 - decimals), digits, -decimals)
  {
  }

  lemma DigitsOfValid(n: Number)
    requires n.Valid()
    ensures |n.fraction| <= 8 && Canonical(Unpadded(Figures(n.whole + n.fraction)))
    ensures |Unpadded(Figures(n.whole + n.fraction))| <= 16 + |n.fraction|
  {
  }

  lemma ValidIsStored(n: Number) returns (k: nat)
    requires n.Valid()
    ensures StoredAs(n, k)
  {
    var figures, decimals := Figures(n.whole + n.fraction), |n.fraction|;
    DigitsOfValid(n);
    k := Scaled(Unpadded(figures), 8 - decimals);
    UnpaddedValue(figures);
    ShortIsStored(Unpadded(figures), decimals);
    ShortDenotes(Unpadded(figures), decimals);
    ShortDenotes(figures, decimals);
  }
}
