/** Decimal numbers: exact values, the two roundings the code uses, and the
    fixed-point text form that carries them through the workflow state. */
module Decimals {
  import opened Options

  function Pow10(n: nat): (p: nat)
    ensures p >= 1
  {
    if n == 0 then 1 else 10 * Pow10(n - 1)
  }

  /** `unscaled` / 10^`scale`, as a database column of fixed scale delivers it. */
  datatype Decimal = Decimal(unscaled: int, scale: nat) {
    function Value(): real {
      unscaled as real / Pow10(scale) as real
    }
  }

  // ----- rounding

  /** ROUND_HALF_UP: to the nearest integer, ties away from zero. */
  function RoundHalfUp(x: real): (n: int)
    ensures x - 0.5 <= n as real <= x + 0.5
    ensures x >= 0.0 ==> x - 0.5 < n as real
    ensures x <= 0.0 ==> n as real < x + 0.5
  {
    if x >= 0.0 then (x + 0.5).Floor else -(-x + 0.5).Floor
  }

  /** ROUND_CEILING: the least integer not below `x`. */
  function Ceiling(x: real): (n: int)
    ensures n as real - 1.0 < x <= n as real
  {
    -(-x).Floor
  }

  /** Decimal.quantize with ROUND_HALF_UP. */
  function Quantize(x: real, places: nat): Decimal {
    Decimal(RoundHalfUp(x * Pow10(places) as real), places)
  }

  lemma RoundHalfUpMonotone(x: real, y: real)
    requires x <= y
    ensures RoundHalfUp(x) <= RoundHalfUp(y)
  {
  }

  lemma ScaleMonotone(x: real, y: real, k: real)
    requires x <= y && k >= 0.0
    ensures x * k <= y * k
  {
  }

  lemma QuantizedUnscaledMonotone(x: real, y: real, places: nat)
    requires x <= y
    ensures Quantize(x, places).unscaled <= Quantize(y, places).unscaled
  {
    var a, b := x * Pow10(places) as real, y * Pow10(places) as real;
    assert a <= b by { ScaleMonotone(x, y, Pow10(places) as real); }
    RoundHalfUpMonotone(a, b);
  }

  lemma SameScaleMonotone(a: int, b: int, scale: nat)
    requires a <= b
    ensures Decimal(a, scale).Value() <= Decimal(b, scale).Value()
  {
  }

  /** Rounding keeps the order. */
  lemma QuantizeMonotone(x: real, y: real, places: nat)
    requires x <= y
    ensures Quantize(x, places).Value() <= Quantize(y, places).Value()
  {
    QuantizedUnscaledMonotone(x, y, places);
    SameScaleMonotone(Quantize(x, places).unscaled, Quantize(y, places).unscaled, places);
  }

  lemma CeilingMonotone(x: real, y: real)
    requires x <= y
    ensures Ceiling(x) <= Ceiling(y)
  {
  }

  /** Rounding to a scale the value already has changes nothing. */
  lemma QuantizeExact(d: Decimal)
    ensures Quantize(d.Value(), d.scale) == d
  {
  }

  /** `n` is the integer nearest to `y`, and a tie goes away from zero. */
  predicate RoundsTo(y: real, n: int) {
    y - 0.5 <= n as real <= y + 0.5 && (y >= 0.0 ==> y - 0.5 < n as real) && (y <= 0.0 ==> n as real < y + 0.5)
  }

  lemma RoundsHalfUp(y: real)
    ensures RoundsTo(y, RoundHalfUp(y))
  {
  }

  /** Rounding goes to the nearest multiple of the last place. */
  lemma QuantizeNearest(x: real, places: nat)
    ensures Quantize(x, places).scale == places
    ensures RoundsTo(x * Pow10(places) as real, Quantize(x, places).unscaled)
  {
    RoundsHalfUp(x * Pow10(places) as real);
  }

  /** With two places: off by at most half a hundredth. */
  lemma QuantizeCents(x: real)
    ensures x - 0.005 <= Quantize(x, 2).Value() <= x + 0.005
  {
    var n := RoundHalfUp(x * 100.0);
    assert Pow10(2) == 100;
    assert Quantize(x, 2) == Decimal(n, 2);
    assert Decimal(n, 2).Value() == n as real / 100.0;
  }

  // ----- text

  predicate IsDigit(c: char) {
    '0' <= c <= '9'
  }

  ghost predicate AllDigits(s: string) {
    forall i :: 0 <= i < |s| ==> IsDigit(s[i])
  }

  function DigitChar(d: nat): (c: char)
    requires d < 10
    ensures IsDigit(c) && c as int - '0' as int == d
  {
    (d + '0' as int) as char
  }

  function Digits(n: nat): (s: string)
    ensures s != [] && AllDigits(s)
  {
    if n < 10 then [DigitChar(n)] else Digits(n / 10) + [DigitChar(n % 10)]
  }

  function ZeroPad(s: string, width: nat): (r: string)
    ensures |r| >= width && |r| >= |s|
    ensures AllDigits(s) ==> AllDigits(r)
    decreases width - |s|
  {
    if |s| >= width then s else ZeroPad(['0'] + s, width)
  }

  function PrintUnsigned(n: nat, scale: nat): (s: string)
    ensures s != [] && IsDigit(s[0])
  {
    var ds := ZeroPad(Digits(n), scale + 1);
    var point := |ds| - scale;
    ds[..point] + if scale == 0 then "" else "." + ds[point..]
  }

  /** format(d, "f"). */
  function Print(d: Decimal): string {
    if d.unscaled < 0 then "-" + PrintUnsigned(-d.unscaled, d.scale)
    else PrintUnsigned(d.unscaled, d.scale)
  }

  function DigitsValue(s: string): nat
    requires AllDigits(s)
  {
    if s == [] then 0 else 10 * DigitsValue(s[..|s| - 1]) + (s[|s| - 1] as int - '0' as int)
  }

  function IndexOf(s: string, c: char): (i: nat)
    ensures i <= |s| && c !in s[..i] && (i < |s| ==> s[i] == c)
  {
    if s == [] || s[0] == c then 0 else 1 + IndexOf(s[1..], c)
  }

  function FromParts(whole: string, fraction: string): (r: Option<Decimal>)
    ensures r.Some? ==> r.value.unscaled >= 0
  {
    var digits := whole + fraction;
    if digits == "" || exists k :: 0 <= k < |digits| && !IsDigit(digits[k]) then None
    else Some(Decimal(DigitsValue(digits), |fraction|))
  }

  function ParseUnsigned(body: string): (r: Option<Decimal>)
    ensures r.Some? ==> r.value.unscaled >= 0
  {
    var i := IndexOf(body, '.');
    FromParts(body[..i], if i == |body| then "" else body[i + 1..])
  }

  /** Decimal(text), for plain fixed-point text: sign, digits, optional point and digits. */
  function Parse(s: string): Option<Decimal> {
    if s != "" && s[0] == '-' then
      match ParseUnsigned(s[1..])
      case None => None
      case Some(d) => Some(Decimal(-d.unscaled, d.scale))
    else if s != "" && s[0] == '+' then ParseUnsigned(s[1..])
    else ParseUnsigned(s)
  }

  lemma {:induction false} DigitsRoundTrip(n: nat)
    ensures DigitsValue(Digits(n)) == n
  {
    if n >= 10 {
      DigitsRoundTrip(n / 10);
      assert Digits(n)[..|Digits(n)| - 1] == Digits(n / 10);
    }
  }

  lemma {:induction false} LeadingZero(s: string)
    requires AllDigits(s)
    ensures DigitsValue(['0'] + s) == DigitsValue(s)
  {
    if s != [] {
      LeadingZero(s[..|s| - 1]);
      assert (['0'] + s)[..|s|] == ['0'] + s[..|s| - 1];
    }
  }

  lemma {:induction false} ZeroPadValue(s: string, width: nat)
    requires AllDigits(s)
    ensures DigitsValue(ZeroPad(s, width)) == DigitsValue(s)
    decreases width - |s|
  {
    if |s| < width {
      LeadingZero(s);
      ZeroPadValue(['0'] + s, width);
    }
  }

  lemma {:induction false} IndexOfAfterDigits(w: string, rest: string)
    requires AllDigits(w) && (rest == "" || rest[0] == '.')
    ensures IndexOf(w + rest, '.') == |w|
  {
    if w == [] {
      assert w + rest == rest;
    } else {
      assert (w + rest)[1..] == w[1..] + rest;
      IndexOfAfterDigits(w[1..], rest);
    }
  }

  lemma DigitPartsParse(ds: string, point: nat)
    requires AllDigits(ds) && 0 < point <= |ds|
    ensures FromParts(ds[..point], ds[point..]) == Some(Decimal(DigitsValue(ds), |ds| - point))
  {
    assert ds[..point] + ds[point..] == ds;
  }

  lemma PointedDigitsParse(ds: string, point: nat)
    requires AllDigits(ds) && 0 < point <= |ds|
    ensures ParseUnsigned(ds[..point] + if point == |ds| then "" else "." + ds[point..])
         == FromParts(ds[..point], ds[point..])
  {
    var rest := if point == |ds| then "" else "." + ds[point..];
    var body := ds[..point] + rest;
    IndexOfAfterDigits(ds[..point], rest);
    assert (if point == |body| then "" else body[point + 1..]) == ds[point..];
    assert body[..point] == ds[..point];
  }

  lemma UnsignedRoundTrip(n: nat, scale: nat)
    ensures ParseUnsigned(PrintUnsigned(n, scale)) == Some(Decimal(n, scale))
  {
    var ds := ZeroPad(Digits(n), scale + 1);
    DigitsRoundTrip(n);
    ZeroPadValue(Digits(n), scale + 1);
    PointedDigitsParse(ds, |ds| - scale);
    DigitPartsParse(ds, |ds| - scale);
  }

  /** Printing and parsing undo each other, at every scale and sign. */
  lemma PrintParse(d: Decimal)
    ensures Parse(Print(d)) == Some(d)
  {
    UnsignedRoundTrip(if d.unscaled < 0 then -d.unscaled else d.unscaled, d.scale);
    if d.unscaled < 0 {
      assert Print(d)[1..] == PrintUnsigned(-d.unscaled, d.scale);
    }
  }
}
