/** Rendering of the statistics summaries: decimal digits, fixed-point
    numbers with a given number of decimals, byte sizes with a unit chosen
    in steps of 1000 (KB = 1000 bytes, MB = 10^6 bytes), percentages, and
    substring search, which is how the summaries are inspected. All
    arithmetic is exact (integers and reals); there is no floating point. */
module Formatting {

  datatype Option<T> = None | Some(value: T)

  function Pow10(n: nat): (r: nat)
    ensures r >= 1
  {
    if n == 0 then 1 else 10 * Pow10(n - 1)
  }

  predicate IsDigit(c: char) { '0' <= c <= '9' }

  predicate AllDigits(s: string) { forall i :: 0 <= i < |s| ==> IsDigit(s[i]) }

  function DigitValue(c: char): (d: nat)
    requires IsDigit(c)
    ensures d < 10
  {
    c as int - '0' as int
  }

  function DigitChar(d: nat): (c: char)
    requires d < 10
    ensures IsDigit(c) && DigitValue(c) == d
  {
    ('0' as int + d) as char
  }

  /** The number a string of decimal digits denotes, most significant first. */
  function ParseDigits(s: string): (n: nat)
    requires AllDigits(s)
  {
    if s == [] then 0 else 10 * ParseDigits(s[..|s| - 1]) + DigitValue(s[|s| - 1])
  }

  lemma ParseDigitsSnoc(s: string, c: char)
    requires AllDigits(s) && IsDigit(c)
    ensures AllDigits(s + [c]) && ParseDigits(s + [c]) == 10 * ParseDigits(s) + DigitValue(c)
  {
    assert (s + [c])[..|s|] == s;
  }

  /** Decimal rendering of n without leading zeros ("0" for zero). */
  function NatToString(n: nat): (s: string)
    ensures 1 <= |s| && AllDigits(s)
    ensures ParseDigits(s) == n
    ensures |s| == 1 || s[0] != '0'
    decreases n
  {
    if n < 10 then [DigitChar(n)]
    else
      var prefix := NatToString(n / 10);
      ParseDigitsSnoc(prefix, DigitChar(n % 10));
      prefix + [DigitChar(n % 10)]
  }

  /** Exactly `width` decimal digits of n, padded with leading zeros. */
  function PadDigits(n: nat, width: nat): (s: string)
    requires n < Pow10(width)
    ensures |s| == width && AllDigits(s)
    ensures ParseDigits(s) == n
  {
    if width == 0 then ""
    else
      assert n / 10 < Pow10(width - 1);
      var prefix := PadDigits(n / 10, width - 1);
      ParseDigitsSnoc(prefix, DigitChar(n % 10));
      prefix + [DigitChar(n % 10)]
  }

  function Magnitude(x: real): (m: real)
    ensures m >= 0.0 && (m == x || m == -x)
  {
    if x < 0.0 then -x else x
  }

  /** Nearest integer to y, halves rounded up. */
  function RoundHalfUp(y: real): (r: int)
    ensures y - 0.5 < r as real <= y + 0.5
  {
    (y + 0.5).Floor
  }

  /** |x| in units of the last of d decimals, rounded to the nearest unit. */
  function ScaledDigits(x: real, d: nat): (q: nat)
    ensures Magnitude(x) * Pow10(d) as real - 0.5 < q as real <= Magnitude(x) * Pow10(d) as real + 0.5
  {
    RoundHalfUp(Magnitude(x) * Pow10(d) as real)
  }

  /** q with its last d decimal digits dropped (q div 10^d, by repeated
      division by the constant 10). */
  function IntegerPart(q: nat, d: nat): nat
  {
    if d == 0 then q else IntegerPart(q / 10, d - 1)
  }

  /** a * 10^d, by repeated multiplication by the constant 10. */
  function ShiftLeft(a: nat, d: nat): nat
  {
    if d == 0 then a else 10 * ShiftLeft(a, d - 1)
  }

  /** The last d decimal digits of q, so that q splits into IntegerPart and
      FractionPart. */
  function FractionPart(q: nat, d: nat): (f: nat)
    ensures f < Pow10(d)
    ensures ShiftLeft(IntegerPart(q, d), d) + f == q
  {
    if d == 0 then 0
    else
      var f := FractionPart(q / 10, d - 1);
      assert ShiftLeft(IntegerPart(q, d), d) == 10 * ShiftLeft(IntegerPart(q / 10, d - 1), d - 1);
      10 * f + q % 10
  }

  /** The scaled value q (in units of the last of d decimals) written with
      exactly d decimals and no sign. */
  function UnsignedDecimal(q: nat, d: nat): (s: string)
    ensures |s| > 0 && IsDigit(s[0])
  {
    var ip := NatToString(IntegerPart(q, d));
    assert (ip + if d == 0 then "" else "." + PadDigits(FractionPart(q, d), d))[0] == ip[0];
    ip + (if d == 0 then "" else "." + PadDigits(FractionPart(q, d), d))
  }

  /** As UnsignedDecimal, with a leading minus sign when neg holds. */
  function DecimalString(neg: bool, q: nat, d: nat): string
  {
    (if neg then "-" else "") + UnsignedDecimal(q, d)
  }

  /** x written with exactly d decimals ("66.7", "-0.50", "12"), as a fixed
      printf-style conversion shows it; a negative x keeps its minus sign
      even when it rounds to zero. */
  function FixedPoint(x: real, d: nat): (r: string)
    ensures |r| > 0
    ensures r[0] == '-' <==> x < 0.0
  {
    var body := UnsignedDecimal(ScaledDigits(x, d), d);
    assert x < 0.0 ==> ("-" + body)[0] == '-';
    DecimalString(x < 0.0, ScaledDigits(x, d), d)
  }

  /** The value, in units of the last of d decimals, that a fixed-point
      string with d decimals denotes, or None when the string is not one. */
  function ParseFixed(s: string, d: nat): Option<int>
  {
    if |s| > 0 && s[0] == '-' then
      match ParseUnsignedFixed(s[1..], d)
      case None => None
      case Some(v) => Some(-(v as int))
    else
      match ParseUnsignedFixed(s, d)
      case None => None
      case Some(v) => Some(v as int)
  }

  function ParseUnsignedFixed(body: string, d: nat): Option<nat>
  {
    if d == 0 then
      if 1 <= |body| && AllDigits(body) then Some(ParseDigits(body)) else None
    else if |body| < d + 2 then None
    else
      var k := |body| - d - 1;
      if body[k] == '.' && AllDigits(body[..k]) && AllDigits(body[k + 1..]) then
        Some(ShiftLeft(ParseDigits(body[..k]), d) + ParseDigits(body[k + 1..]))
      else None
  }

  lemma ParseUnsignedFixedSplit(ip: string, fp: string, d: nat)
    requires d > 0 && |fp| == d && 1 <= |ip|
    requires AllDigits(ip) && AllDigits(fp)
    ensures ParseUnsignedFixed(ip + "." + fp, d) == Some(ShiftLeft(ParseDigits(ip), d) + ParseDigits(fp))
  {
    var body := ip + "." + fp;
    var k := |body| - d - 1;
    assert k == |ip|;
    assert body[..k] == ip;
    assert body[k] == '.';
    assert body[k + 1..] == fp;
  }

  lemma UnsignedDecimalRoundTrip(q: nat, d: nat)
    ensures ParseUnsignedFixed(UnsignedDecimal(q, d), d) == Some(q)
  {
    var ip := NatToString(IntegerPart(q, d));
    if d > 0 {
      var fp := PadDigits(FractionPart(q, d), d);
      assert UnsignedDecimal(q, d) == ip + "." + fp;
      ParseUnsignedFixedSplit(ip, fp, d);
    } else {
      assert UnsignedDecimal(q, d) == ip;
    }
  }

  lemma ParseFixedUnsigned(body: string, d: nat)
    requires |body| > 0 && IsDigit(body[0])
    ensures ParseFixed(body, d) == match ParseUnsignedFixed(body, d)
                                   case None => None
                                   case Some(v) => Some(v as int)
  {
  }

  lemma ParseFixedNegated(body: string, d: nat)
    ensures ParseFixed("-" + body, d) == match ParseUnsignedFixed(body, d)
                                         case None => None
                                         case Some(v) => Some(-(v as int))
  {
    assert ("-" + body)[1..] == body;
  }

  /** A decimal rendering reads back as the scaled value it was given,
      with the sign it was given. */
  lemma DecimalStringRoundTrip(neg: bool, q: nat, d: nat)
    ensures ParseFixed(DecimalString(neg, q, d), d) == Some(if neg then -(q as int) else q as int)
  {
    var body := UnsignedDecimal(q, d);
    UnsignedDecimalRoundTrip(q, d);
    if neg {
      assert DecimalString(neg, q, d) == "-" + body;
      ParseFixedNegated(body, d);
    } else {
      assert DecimalString(neg, q, d) == body;
      ParseFixedUnsigned(body, d);
    }
  }

  /** Signed digits a fixed-point rendering stands for. */
  function SignedDigits(x: real, d: nat): int
  {
    if x < 0.0 then -(ScaledDigits(x, d) as int) else ScaledDigits(x, d) as int
  }

  /** A fixed-point rendering of x reads back as |x| rounded to d decimals,
      with x's sign. */
  lemma FixedPointRoundTrip(x: real, d: nat)
    ensures ParseFixed(FixedPoint(x, d), d) == Some(SignedDigits(x, d))
  {
    DecimalStringRoundTrip(x < 0.0, ScaledDigits(x, d), d);
  }

  /** Units of a byte count, each 1000 times the one before. */
  const UNITS: seq<string> := ["B", "KB", "MB", "GB"]

  /** x * 1000^n, by repeated multiplication by the constant 1000. */
  function Times1000(x: real, n: nat): real
  {
    if n == 0 then x else 1000.0 * Times1000(x, n - 1)
  }

  /** Divides v by 1000 while its magnitude exceeds 1000 and a larger unit
      is left, starting from unit i; returns the scaled value and its unit. */
  function ScaleToUnit(v: real, i: nat): (p: (real, nat))
    requires i < |UNITS|
    ensures i <= p.1 < |UNITS|
    ensures Times1000(p.0, p.1 - i) == v
    ensures p.1 == |UNITS| - 1 || -1000.0 <= p.0 <= 1000.0
    ensures p.1 > i ==> p.0 > 1.0 || p.0 < -1.0
    decreases |UNITS| - i
  {
    if (v > 1000.0 || v < -1000.0) && i < |UNITS| - 1 then
      var r := ScaleToUnit(v / 1000.0, i + 1);
      assert Times1000(r.0, r.1 - i) == 1000.0 * Times1000(r.0, r.1 - (i + 1));
      r
    else (v, i)
  }

  /** A byte count with two decimals in the unit ScaleToUnit picks: the
      count is divided by 1000 while its magnitude exceeds 1000 and a larger
      unit is left ("49.50KB", "4.95MB", "1000.00B", "0.50B"). */
  function FormatInfoUnit(v: real): string
  {
    var p := ScaleToUnit(v, 0);
    FixedPoint(p.0, 2) + UNITS[p.1]
  }

  /** A byte count renders as a fixed-point number followed by a unit name:
      the number parses back to the count in that unit, rounded to two
      decimals, and that unit times 1000 per step above bytes is the count. */
  lemma FormatInfoUnitRoundTrip(v: real)
    ensures var p := ScaleToUnit(v, 0);
            var r := FormatInfoUnit(v);
            var n := |r| - |UNITS[p.1]|;
            0 < n && r[n..] == UNITS[p.1] && ParseFixed(r[..n], 2) == Some(SignedDigits(p.0, 2))
            && Times1000(p.0, p.1) == v
  {
    var p := ScaleToUnit(v, 0);
    var f := FixedPoint(p.0, 2);
    FixedPointRoundTrip(p.0, 2);
    assert (f + UNITS[p.1])[..|f|] == f;
    assert (f + UNITS[p.1])[|f|..] == UNITS[p.1];
  }

  /** A fraction shown as a percentage with one decimal ("66.7%"). */
  function Percent(ratio: real): string
  {
    FixedPoint(100.0 * ratio, 1) + "%"
  }

  /** A percentage is a fixed-point number and a '%': the number parses
      back to 100 times the fraction, rounded to one decimal. */
  lemma PercentRoundTrip(ratio: real)
    ensures var r := Percent(ratio);
            |r| > 1 && r[|r| - 1] == '%' && ParseFixed(r[..|r| - 1], 1) == Some(SignedDigits(100.0 * ratio, 1))
  {
    var f := FixedPoint(100.0 * ratio, 1);
    FixedPointRoundTrip(100.0 * ratio, 1);
    assert (f + "%")[..|f|] == f;
  }

  /** t occurs in s as a contiguous piece. */
  predicate Contains(s: string, t: string)
    ensures Contains(s, t) ==> |t| <= |s|
    decreases |s|
  {
    |t| <= |s| && (s[..|t|] == t || (|s| > 0 && Contains(s[1..], t)))
  }

  /** t starts at position i of s. */
  predicate OccursAt(s: string, t: string, i: int)
  {
    0 <= i && i + |t| <= |s| && s[i..i + |t|] == t
  }

  /** Contains holds exactly when t starts at some position of s, which
      is what a substring search that does not fail reports. */
  lemma {:induction false} ContainsMeaning(s: string, t: string)
    ensures Contains(s, t) <==> exists i :: OccursAt(s, t, i)
    decreases |s|
  {
    if Contains(s, t) {
      if s[..|t|] == t {
        assert OccursAt(s, t, 0);
      } else {
        ContainsMeaning(s[1..], t);
        var i :| OccursAt(s[1..], t, i);
        assert s[1..][i..i + |t|] == s[i + 1..i + 1 + |t|];
        assert OccursAt(s, t, i + 1);
      }
    }
    if exists i :: OccursAt(s, t, i) {
      var i :| OccursAt(s, t, i);
      if i == 0 {
        assert s[..|t|] == t;
      } else {
        assert s[1..][i - 1..i - 1 + |t|] == s[i..i + |t|];
        assert OccursAt(s[1..], t, i - 1);
        ContainsMeaning(s[1..], t);
      }
    }
  }

  lemma {:induction false} ContainsInfix(p: string, t: string, q: string)
    ensures Contains(p + t + q, t)
  {
    if p == [] {
      assert (p + t + q)[..|t|] == t;
    } else {
      ContainsInfix(p[1..], t, q);
      assert (p + t + q)[1..] == p[1..] + t + q;
    }
  }

  lemma {:induction false} ContainsExtended(p: string, s: string, t: string)
    requires Contains(s, t)
    ensures Contains(p + s, t)
    decreases |p|
  {
    if p != [] {
      ContainsExtended(p[1..], s, t);
      assert (p + s)[1..] == p[1..] + s;
      assert |t| <= |s| <= |p + s|;
    } else {
      assert p + s == s;
    }
  }

  /** The lines, each followed by a newline. */
  function JoinLines(lines: seq<string>): string
  {
    if lines == [] then "" else lines[0] + "\n" + JoinLines(lines[1..])
  }

  lemma {:induction false} JoinLinesContains(lines: seq<string>, i: nat)
    requires i < |lines|
    ensures Contains(JoinLines(lines), lines[i])
  {
    var rest := JoinLines(lines[1..]);
    if i == 0 {
      ContainsInfix([], lines[0], "\n" + rest);
      assert JoinLines(lines) == [] + lines[0] + ("\n" + rest);
    } else {
      JoinLinesContains(lines[1..], i - 1);
      ContainsExtended(lines[0] + "\n", rest, lines[i]);
    }
  }

  /** With d > 0 decimals, the rendering is the whole part, a point and
      the d-digit fraction. */
  lemma DecimalParts(q: nat, d: nat)
    requires d > 0
    ensures UnsignedDecimal(q, d) == NatToString(IntegerPart(q, d)) + "." + PadDigits(FractionPart(q, d), d)
  {
  }

  /** Fixed-point rendering of a non-negative value is the rendering of its
      scaled digits. */
  lemma FixedPointUnsigned(x: real, d: nat)
    requires x >= 0.0
    ensures FixedPoint(x, d) == UnsignedDecimal(ScaledDigits(x, d), d)
  {
  }

  /** Zero has no whole part and no fraction, whatever the number of decimals. */
  lemma {:induction false} ZeroParts(d: nat)
    ensures IntegerPart(0, d) == 0 && FractionPart(0, d) == 0
  {
    if d > 0 {
      ZeroParts(d - 1);
    }
  }

  function Zeros(n: nat): (s: string)
    ensures |s| == n
  {
    seq(n, _ => '0')
  }

  /** Zero padded to any width is a run of '0' digits. */
  lemma {:induction false} PadZeros(width: nat)
    ensures PadDigits(0, width) == Zeros(width)
  {
    if width > 0 {
      PadZeros(width - 1);
      assert Zeros(width - 1) + ['0'] == Zeros(width);
    }
  }

  /** Zero with d > 0 decimals is written "0." and d zeros. */
  lemma ZeroDecimal(d: nat)
    requires d > 0
    ensures UnsignedDecimal(0, d) == "0." + Zeros(d)
  {
    ZeroParts(d);
    PadZeros(d);
    assert NatToString(0) == "0";
  }

  // The zero renderings below take the zero as a parameter rather than as a
  // literal, which keeps the verifier from evaluating the renderings itself.

  /** A zero ratio renders as "0.0%". */
  lemma ZeroPercent(ratio: real)
    requires ratio == 0.0
    ensures Percent(ratio) == "0.0%"
  {
    ZeroFixed(100.0 * ratio, 1);
    assert "0." + Zeros(1) + "%" == "0.0%";
  }

  /** Zero with d > 0 decimals, as a real. */
  lemma ZeroFixed(x: real, d: nat)
    requires x == 0.0 && d > 0
    ensures FixedPoint(x, d) == "0." + Zeros(d)
  {
    assert ScaledDigits(x, d) == 0;
    ZeroDecimal(d);
  }

  /** A zero byte count renders as "0.00B". */
  lemma ZeroBytes(v: real)
    requires v == 0.0
    ensures FormatInfoUnit(v) == "0.00B"
  {
    assert ScaleToUnit(v, 0) == (v, 0);
    ZeroFixed(v, 2);
    assert "0." + Zeros(2) + "B" == "0.00B";
  }
}
