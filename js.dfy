// JavaScript number and string behaviour the application relies on, stated
// over exact integers: Math.round on ratios, the NaN produced by 0/0,
// Number.prototype.toString on non-negative integers, String.padStart and
// the decimal subset of parseInt.
module Js {

  datatype Option<+T> = None | Some(value: T)

  /** A JavaScript number as far as the application can observe it: an
      integer, or the NaN that a 0/0 ratio yields. */
  datatype Number = Finite(value: int) | NaN

  /** Math.round(a / b) for b > 0: the nearest integer, halves rounded up. */
  function RoundDiv(a: int, b: nat): (r: int)
    requires b > 0
    ensures b * (2 * r - 1) <= 2 * a < b * (2 * r + 1)
  {
    (2 * a + b) / (2 * b)
  }

  lemma {:induction false} RoundDivMonotone(a1: int, a2: int, b: nat)
    requires b > 0 && a1 <= a2
    ensures RoundDiv(a1, b) <= RoundDiv(a2, b)
  {
    var r1, r2 := RoundDiv(a1, b), RoundDiv(a2, b);
    if r2 < r1 {
      assert b * (2 * r2 + 1) <= b * (2 * r1 - 1) by {
        MulMonotone(b, 2 * r2 + 1, 2 * r1 - 1);
      }
    }
  }

  lemma {:induction false} RoundDivBetween(a: int, b: nat, lo: int, hi: int)
    requires b > 0 && lo * b <= a <= hi * b
    ensures lo <= RoundDiv(a, b) <= hi
  {
    var r := RoundDiv(a, b);
    if r > hi {
      MulMonotone(b, 2 * hi + 1, 2 * r - 1);
      assert false;
    }
    if r < lo {
      MulMonotone(b, 2 * r + 1, 2 * lo - 1);
      assert false;
    }
  }

  lemma MulMonotone(k: nat, x: int, y: int)
    requires x <= y
    ensures k * x <= k * y
  {
    assert k * y - k * x == k * (y - x);
  }

  lemma MulLeftMonotone(k: nat, x: nat, y: nat)
    requires x <= y
    ensures 0 <= k * x <= k * y
  {
    MulMonotone(k, x, y);
  }

  /** Math.round(part / whole * scale), the shape of every percentage and
      score the application shows: NaN when whole is 0 (and so part is 0). */
  function ScaledRound(part: nat, whole: nat, scale: nat): (r: Number)
    requires part <= whole
    ensures r.NaN? <==> whole == 0
    ensures r.Finite? ==> 0 <= r.value <= scale
    ensures part == whole && whole > 0 ==> r == Finite(scale)
    ensures part == 0 && whole > 0 ==> r == Finite(0)
  {
    if whole == 0 then NaN
    else
      MulLeftMonotone(scale, part, whole);
      RoundDivBetween(scale * part, whole, 0, scale);
      if part == whole then RoundDivBetween(scale * part, whole, scale, scale); Finite(RoundDiv(scale * part, whole))
      else Finite(RoundDiv(scale * part, whole))
  }

  /** Math.round applied to a number that may be NaN. */
  function RoundNumber(n: Number, mul: nat, div: nat): (r: Number)
    requires div > 0
    ensures r.NaN? <==> n.NaN?
    ensures n.Finite? && 0 <= n.value <= div ==> 0 <= r.value <= mul
  {
    match n
    case NaN => NaN
    case Finite(v) =>
      if 0 <= v <= div then
        MulLeftMonotone(mul, v, div);
        RoundDivBetween(mul * v, div, 0, mul);
        Finite(RoundDiv(mul * v, div))
      else Finite(RoundDiv(mul * v, div))
  }

  // ---- decimal digits ----

  predicate IsDigit(c: char) { '0' <= c <= '9' }

  predicate AllDigits(s: string) { forall i :: 0 <= i < |s| ==> IsDigit(s[i]) }

  function DigitChar(d: nat): (c: char)
    requires d < 10
    ensures IsDigit(c) && c as int - '0' as int == d
  {
    ('0' as int + d) as char
  }

  /** The value of a string of decimal digits, most significant first. */
  function DigitsValue(s: string): (v: nat)
    requires AllDigits(s)
  {
    if s == [] then 0
    else DigitsValue(s[..|s| - 1]) * 10 + (s[|s| - 1] as int - '0' as int)
  }

  /** Number.prototype.toString on a non-negative integer. */
  function NatToString(n: nat): (s: string)
    ensures 1 <= |s| && AllDigits(s)
    ensures n < 10 <==> |s| == 1
    decreases n
  {
    if n < 10 then [DigitChar(n)] else NatToString(n / 10) + [DigitChar(n % 10)]
  }

  lemma {:induction false} NatToStringRoundTrip(n: nat)
    ensures DigitsValue(NatToString(n)) == n
    decreases n
  {
    var s := NatToString(n);
    if n >= 10 {
      NatToStringRoundTrip(n / 10);
      assert s[..|s| - 1] == NatToString(n / 10);
    }
  }

  /** String.prototype.padStart(2, '0'). */
  function PadStart2(s: string): (r: string)
    ensures |s| < 2 ==> |r| == 2 && r[2 - |s|..] == s && forall i :: 0 <= i < 2 - |s| ==> r[i] == '0'
    ensures |s| >= 2 ==> r == s
    decreases 2 - |s|
  {
    if |s| >= 2 then s else PadStart2(['0'] + s)
  }

  lemma {:induction false} LeadingZeroValue(s: string)
    requires AllDigits(s)
    ensures AllDigits(['0'] + s) && DigitsValue(['0'] + s) == DigitsValue(s)
    decreases |s|
  {
    if s != [] {
      LeadingZeroValue(s[..|s| - 1]);
      assert (['0'] + s)[..|s|] == ['0'] + s[..|s| - 1];
    }
  }

  // ---- parseInt ----

  predicate IsSpace(c: char) { c == ' ' || c == '\t' || c == '\n' || c == '\r' }

  /** The longest prefix of s made of decimal digits. */
  function DigitPrefix(s: string): (p: string)
    ensures AllDigits(p) && p <= s
    ensures |p| < |s| ==> !IsDigit(s[|p|])
  {
    if s != [] && IsDigit(s[0]) then [s[0]] + DigitPrefix(s[1..]) else []
  }

  /** s without its leading white space. */
  function TrimStart(s: string): (t: string)
    ensures |t| <= |s| && t == s[|s| - |t|..]
    ensures forall i :: 0 <= i < |s| - |t| ==> IsSpace(s[i])
    ensures t == [] || !IsSpace(t[0])
  {
    if s != [] && IsSpace(s[0]) then TrimStart(s[1..]) else s
  }

  /** parseInt(s) with no radix, for decimal text: leading white space is
      skipped, one optional sign is read, then the longest run of digits;
      no digits at all gives NaN, written None. */
  function ParseInt(s: string): (r: Option<int>)
    ensures var t := TrimStart(s);
            var digits := DigitPrefix(if t != [] && (t[0] == '-' || t[0] == '+') then t[1..] else t);
            (r.None? <==> digits == []) &&
            (r.Some? ==> r.value == if t != [] && t[0] == '-' then -(DigitsValue(digits) as int) else DigitsValue(digits))
  {
    var t := TrimStart(s);
    var neg := t != [] && t[0] == '-';
    var body := if t != [] && (t[0] == '-' || t[0] == '+') then t[1..] else t;
    var digits := DigitPrefix(body);
    if digits == [] then None
    else
      var v: int := if neg then -(DigitsValue(digits) as int) else DigitsValue(digits);
      Some(v)
  }

  lemma {:induction false} DigitPrefixOfDigits(s: string, rest: string)
    requires AllDigits(s)
    requires rest == [] || !IsDigit(rest[0])
    ensures DigitPrefix(s + rest) == s
    decreases |s|
  {
    if s != [] {
      assert (s + rest)[1..] == s[1..] + rest;
      DigitPrefixOfDigits(s[1..], rest);
    }
  }

  /** parseInt reads back what toString wrote, whatever follows it that is
      not a digit (a decimal point, an exponent, nothing). */
  lemma {:induction false} ParseIntOfNatToString(n: nat, rest: string)
    requires rest == [] || !IsDigit(rest[0])
    ensures ParseInt(NatToString(n) + rest) == Some(n)
  {
    var s := NatToString(n);
    var x := s + rest;
    assert x[0] == s[0];
    ParseIntUnsigned(x);
    DigitPrefixOfDigits(s, rest);
    NatToStringRoundTrip(n);
  }

  /** Text that starts with a digit reads as its leading digits. */
  lemma ParseIntUnsigned(x: string)
    requires x != [] && IsDigit(x[0])
    ensures ParseInt(x) == Some(DigitsValue(DigitPrefix(x)))
  {
    TrimStartOfNonSpace(x);
    assert x[0] != '-' && x[0] != '+';
    assert DigitPrefix(x) != [];
  }

  lemma TrimStartOfNonSpace(x: string)
    requires x != [] && !IsSpace(x[0])
    ensures TrimStart(x) == x
  {
  }
}
