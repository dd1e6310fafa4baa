/** Numeric literals: how finite decimals are written without an exponent, and what they read as. */
module Decimals {
  import opened Common

  const MAX_NUMBER_LITERAL_LEN := 128

  /** A Python float as `Decimal(repr(value))` sees it: sign, shortest digits, power of ten. */
  datatype Float = NotFinite | Finite(negative: bool, coefficient: nat, exponent: int)

  function Pow10(k: nat): (r: nat)
    ensures r >= 1
  {
    if k == 0 then 1 else 10 * Pow10(k - 1)
  }

  /** `k` zeros written after a whole number. */
  function Grow(n: nat, k: nat): nat {
    if k == 0 then n else 10 * Grow(n, k - 1)
  }

  lemma {:induction false} GrowMultiplies(n: nat, k: nat)
    ensures Grow(n, k) == n * Pow10(k)
  {
    if k > 0 { GrowMultiplies(n, k - 1); }
  }

  /** The decimal point moved `k` places to the left of a whole number. */
  function Shift(n: nat, k: nat): real {
    if k == 0 then n as real else Shift(n, k - 1) / 10.0
  }

  lemma {:induction false} ShiftDivides(n: nat, k: nat)
    ensures Shift(n, k) * Pow10(k) as real == n as real
  {
    if k > 0 { ShiftDivides(n, k - 1); }
  }

  /** The number itself. */
  function RealOf(f: Float): real
    requires f.Finite?
  {
    if f.negative then -Size(f) else Size(f)
  }

  function Size(f: Float): real
    requires f.Finite?
  {
    if f.exponent >= 0 then Grow(f.coefficient, f.exponent) as real
    else Shift(f.coefficient, -f.exponent)
  }

  // ---------------------------------------------------------------- reading

  predicate IsDigit(c: char) { '0' <= c <= '9' }

  predicate AllDigits(s: string) { forall i :: 0 <= i < |s| ==> IsDigit(s[i]) }

  function DigitValue(c: char): nat {
    if IsDigit(c) then c as int - '0' as int else 0
  }

  function NatOf(s: string): nat {
    if s == "" then 0 else 10 * NatOf(s[..|s| - 1]) + DigitValue(s[|s| - 1])
  }

  /** Index of the first point, or the length when there is none. */
  function PointAt(s: string): (i: nat)
    ensures i <= |s|
  {
    if s == "" || s[0] == '.' then 0 else 1 + PointAt(s[1..])
  }

  lemma {:induction false} FirstPoint(s: string)
    ensures '.' !in s[..PointAt(s)]
    ensures PointAt(s) < |s| ==> s[PointAt(s)] == '.'
  {
    if s != "" && s[0] != '.' {
      FirstPoint(s[1..]);
      assert s[..PointAt(s)] == [s[0]] + s[1..][..PointAt(s[1..])];
    }
  }

  function Unsigned(s: string): string {
    if s != "" && s[0] == '-' then s[1..] else s
  }

  function Magnitude(u: string): real {
    var i := PointAt(u);
    if i == |u| then NatOf(u) as real
    else Shift(NatOf(u[..i] + u[i + 1..]), |u| - i - 1)
  }

  function ValueOf(s: string): real {
    if Unsigned(s) == s then Magnitude(s) else -Magnitude(Unsigned(s))
  }

  function IntOf(s: string): int {
    if Unsigned(s) == s then NatOf(s) else 0 - NatOf(Unsigned(s)) as int
  }

  /** An optional sign, digits, and at most one point with digits on both sides: no exponent. */
  predicate IsNumeral(s: string) {
    var u := Unsigned(s);
    var i := PointAt(u);
    && i > 0 && AllDigits(u[..i])
    && (i == |u| || (i + 1 < |u| && AllDigits(u[i + 1..])))
  }

  // ---------------------------------------------------------------- writing

  function Digits(n: nat): (s: string)
    ensures |s| > 0 && AllDigits(s)
  {
    if n < 10 then ['0' + n as char] else Digits(n / 10) + ['0' + (n % 10) as char]
  }

  function Zeros(k: nat): (s: string)
    ensures |s| == k && AllDigits(s)
  {
    seq(k, _ => '0')
  }

  /** At least one digit in front of the last `k`. */
  function Padded(c: nat, k: nat): (p: string)
    ensures AllDigits(p) && |p| > k
  {
    var d := Digits(c);
    if |d| > k then d else Zeros(k + 1 - |d|) + d
  }

  function WholeText(coefficient: nat, zeros: nat): string {
    if coefficient == 0 then "0" else Digits(coefficient) + Zeros(zeros)
  }

  function FractionText(coefficient: nat, places: nat): string {
    var p := Padded(coefficient, places);
    p[..|p| - places] + "." + p[|p| - places..]
  }

  /** `format(Decimal, "f")` without the sign. */
  function PlainDigits(coefficient: nat, exponent: int): string {
    if exponent >= 0 then WholeText(coefficient, exponent) else FractionText(coefficient, -exponent)
  }

  function Sign(negative: bool): string {
    if negative then "-" else ""
  }

  function PlainText(f: Float): string
    requires f.Finite?
  {
    Sign(f.negative) + PlainDigits(f.coefficient, f.exponent)
  }

  function EncodeFloat(f: Float): Result<string> {
    if f.NotFinite? then Refused(NonFiniteFloat)
    else
      var text := PlainText(f);
      if |text| > MAX_NUMBER_LITERAL_LEN then Refused(NumberTooLong)
      else if '.' in text then Ok(text)
      else Ok(text + ".0")
  }

  function EncodeInt(n: int): Result<string> {
    if -0x8000_0000_0000_0000 <= n < 0x8000_0000_0000_0000 then
      Ok(Sign(n < 0) + Digits(if n < 0 then -n else n))
    else Refused(IntegerOutOfRange)
  }

  // ---------------------------------------------------------------- what a literal reads as

  lemma {:induction false} DigitsRead(n: nat)
    ensures NatOf(Digits(n)) == n
  {
    var s := Digits(n);
    if n >= 10 {
      DigitsRead(n / 10);
      assert s[..|s| - 1] == Digits(n / 10);
    } else {
      assert s[..|s| - 1] == "";
    }
  }

  lemma {:induction false} TrailingZerosScale(s: string, k: nat)
    ensures NatOf(s + Zeros(k)) == Grow(NatOf(s), k)
  {
    if k == 0 {
      assert s + Zeros(0) == s;
    } else {
      var t := s + Zeros(k);
      assert t[..|t| - 1] == s + Zeros(k - 1);
      TrailingZerosScale(s, k - 1);
    }
  }

  lemma {:induction false} LeadingZerosVanish(k: nat, s: string)
    ensures NatOf(Zeros(k) + s) == NatOf(s)
    decreases |s|, k
  {
    var t := Zeros(k) + s;
    if s != "" {
      assert t[..|t| - 1] == Zeros(k) + s[..|s| - 1];
      LeadingZerosVanish(k, s[..|s| - 1]);
    } else if k > 0 {
      assert t[..|t| - 1] == Zeros(k - 1) + s;
      LeadingZerosVanish(k - 1, s);
    }
  }

  lemma {:induction false} PointAfter(a: string, b: string)
    requires AllDigits(a)
    ensures PointAt(a) == |a| && PointAt(a + "." + b) == |a|
  {
    var t := a + "." + b;
    if a != "" {
      assert a[0] != '.' && t[0] == a[0] && t[1..] == a[1..] + "." + b;
      PointAfter(a[1..], b);
    }
  }

  lemma {:induction false} DigitsAlone(u: string)
    requires u != "" && AllDigits(u)
    ensures PointAt(u) == |u| && Unsigned(u) == u && '.' !in u && IsNumeral(u)
    ensures Magnitude(u) == NatOf(u) as real
  {
    PointAfter(u, "");
    assert IsDigit(u[0]);
    assert u[..|u|] == u;
  }

  /** `a.b` with digits on both sides is a numeral whose only point is the one written. */
  lemma {:induction false} PointedNumeral(a: string, b: string)
    requires a != "" && AllDigits(a) && b != "" && AllDigits(b)
    ensures var t := a + "." + b;
            && PointAt(t) == |a| && Unsigned(t) == t && IsNumeral(t) && '.' in t
            && Magnitude(t) == Shift(NatOf(a + b), |b|)
  {
    var t := a + "." + b;
    PointAfter(a, b);
    assert t[..|a|] == a && t[|a| + 1..] == b;
    assert IsDigit(a[0]) && t[0] == a[0];
    assert t[|a|] == '.';
  }

  /** The digits of a whole number, before `.0` is added. */
  lemma {:induction false} WholeDigits(c: nat, e: nat)
    ensures var t := WholeText(c, e);
            t != "" && AllDigits(t) && NatOf(t) == Grow(c, e)
  {
    DigitsRead(c);
    if c == 0 {
      assert WholeText(c, e) == Digits(0);
      GrowMultiplies(0, e);
    } else {
      TrailingZerosScale(Digits(c), e);
    }
  }

  lemma {:induction false} PaddedRead(c: nat, k: nat)
    ensures NatOf(Padded(c, k)) == c
  {
    DigitsRead(c);
    if |Digits(c)| <= k { LeadingZerosVanish(k + 1 - |Digits(c)|, Digits(c)); }
  }

  /** A numeral that starts with a digit, has a point and reads as `x`. */
  predicate Pointed(u: string, x: real) {
    u != "" && IsDigit(u[0]) && IsNumeral(u) && '.' in u && Magnitude(u) == x
  }

  /** The digits of a fraction: the magnitude text reads back as coefficient / 10^k. */
  lemma {:induction false} FractionDigits(c: nat, k: nat)
    requires k > 0
    ensures Pointed(FractionText(c, k), Shift(c, k))
  {
    var p := Padded(c, k);
    var a, b := p[..|p| - k], p[|p| - k..];
    PaddedRead(c, k);
    SplitDigits(p, |p| - k);
    StartsDigit(a, b);
    PointedNumeral(a, b);
  }

  lemma {:induction false} SplitDigits(p: string, i: nat)
    requires AllDigits(p) && 0 < i < |p|
    ensures var a, b := p[..i], p[i..];
            && a != "" && b != "" && AllDigits(a) && AllDigits(b) && a + b == p && |b| == |p| - i
  {
  }

  lemma {:induction false} StartsDigit(a: string, b: string)
    requires a != "" && AllDigits(a)
    ensures a + "." + b != "" && IsDigit((a + "." + b)[0])
  {
    assert (a + "." + b)[0] == a[0] && IsDigit(a[0]);
  }

  predicate OnePoint(s: string) {
    exists i :: 0 <= i < |s| && s[i] == '.' && '.' !in s[..i] && '.' !in s[i + 1..]
  }

  /** A sign in front keeps a numeral a numeral and only negates what it reads as. */
  lemma {:induction false} SignedNumeral(u: string, negative: bool)
    requires u != "" && IsDigit(u[0]) && IsNumeral(u)
    ensures var t := Sign(negative) + u;
            && Unsigned(t) == u && IsNumeral(t)
            && ValueOf(t) == (if negative then -Magnitude(u) else Magnitude(u))
  {
    var t := Sign(negative) + u;
    if negative { assert t[1..] == u; } else { assert t == u; }
  }

  lemma {:induction false} SignedPoint(u: string, negative: bool)
    requires IsNumeral(u) && '.' in u
    ensures OnePoint(Sign(negative) + u)
  {
    var i := PointAt(u);
    FirstPoint(u);
    assert u[..|u|] == u;
    PointBehind(Sign(negative), u, i);
  }

  lemma {:induction false} PointBehind(sign: string, u: string, i: nat)
    requires i < |u| && u[i] == '.' && '.' !in u[..i] && '.' !in u[i + 1..] && '.' !in sign
    ensures OnePoint(sign + u)
  {
    var t, j := sign + u, |sign| + i;
    assert t[j] == '.' && t[..j] == sign + u[..i] && t[j + 1..] == u[i + 1..];
  }

  /** `.0` after a whole number changes neither its value nor its being a numeral. */
  lemma {:induction false} PointZero(u: string)
    requires u != "" && AllDigits(u)
    ensures var t := u + ".0";
            IsDigit(t[0]) && IsNumeral(t) && '.' in t && Magnitude(t) == NatOf(u) as real
  {
    var z := Zeros(1);
    PointedNumeral(u, z);
    TrailingZerosScale(u, 1);
    assert u + "." + z == u + ".0";
    assert (u + ".0")[0] == u[0];
    assert Shift(NatOf(u + z), 1) == Shift(NatOf(u + z), 0) / 10.0;
  }

  lemma {:induction false} SignHasNoPoint(negative: bool, u: string)
    ensures '.' in Sign(negative) + u <==> '.' in u
    ensures (Sign(negative) + u) + ".0" == Sign(negative) + (u + ".0")
  {
    var t := Sign(negative) + u;
    if '.' in u {
      var i :| 0 <= i < |u| && u[i] == '.';
      assert t[|Sign(negative)| + i] == '.';
    }
  }

  /** Which text is emitted: `.0` is added exactly when the exponent is not negative. */
  lemma {:induction false} EncodedText(f: Float)
    requires EncodeFloat(f).Ok?
    ensures f.exponent < 0 ==>
              EncodeFloat(f).value == Sign(f.negative) + FractionText(f.coefficient, -f.exponent)
    ensures f.exponent >= 0 ==>
              EncodeFloat(f).value == Sign(f.negative) + (WholeText(f.coefficient, f.exponent) + ".0")
  {
    SignHasNoPoint(f.negative, PlainDigits(f.coefficient, f.exponent));
    if f.exponent < 0 {
      FractionDigits(f.coefficient, -f.exponent);
    } else {
      WholeDigits(f.coefficient, f.exponent);
      DigitsAlone(WholeText(f.coefficient, f.exponent));
    }
  }

  predicate Exact(t: string, f: Float)
    requires f.Finite?
  {
    IsNumeral(t) && OnePoint(t) && ValueOf(t) == RealOf(f)
  }

  lemma {:induction false} SignedExact(f: Float, u: string)
    requires f.Finite? && Pointed(u, Size(f))
    ensures Exact(Sign(f.negative) + u, f)
  {
    SignedNumeral(u, f.negative);
    SignedPoint(u, f.negative);
  }

  lemma {:induction false} FractionExact(f: Float, c: nat, k: nat)
    requires f.Finite? && c == f.coefficient && k == -f.exponent && k > 0
    ensures Exact(Sign(f.negative) + FractionText(c, k), f)
  {
    FractionDigits(c, k);
    SizeShifted(f, c, k);
    SignedExact(f, FractionText(c, k));
  }

  lemma {:induction false} SizeShifted(f: Float, c: nat, k: nat)
    requires f.Finite? && c == f.coefficient && k == -f.exponent && k > 0
    ensures Size(f) == Shift(c, k)
  {
  }

  lemma {:induction false} ExactWhole(f: Float)
    requires f.Finite? && f.exponent >= 0
    ensures Exact(Sign(f.negative) + (WholeText(f.coefficient, f.exponent) + ".0"), f)
  {
    WholeDigits(f.coefficient, f.exponent);
    PointZero(WholeText(f.coefficient, f.exponent));
    SignedExact(f, WholeText(f.coefficient, f.exponent) + ".0");
  }

  lemma {:induction false} EncodedLength(f: Float)
    requires EncodeFloat(f).Ok?
    ensures |EncodeFloat(f).value| == |PlainText(f)| + if f.exponent < 0 then 0 else 2
  {
    SignHasNoPoint(f.negative, PlainDigits(f.coefficient, f.exponent));
    if f.exponent < 0 {
      FractionDigits(f.coefficient, -f.exponent);
    } else {
      WholeDigits(f.coefficient, f.exponent);
      DigitsAlone(WholeText(f.coefficient, f.exponent));
    }
  }

  /** Every finite decimal is either refused for length or written exactly: one point, no exponent, the
      same value. The literal is longer than the limit exactly when its `.0` was added after the check
      to a text of more than 126 characters, and then it has at most 130. */
  lemma {:induction false} FloatLiteral(f: Float)
    ensures EncodeFloat(f).Ok? <==> f.Finite? && |PlainText(f)| <= MAX_NUMBER_LITERAL_LEN
    ensures EncodeFloat(f).Ok? ==>
              var t := EncodeFloat(f).value;
              && Exact(t, f) && |t| <= MAX_NUMBER_LITERAL_LEN + 2
              && (|t| > MAX_NUMBER_LITERAL_LEN <==> f.exponent >= 0 && |PlainText(f)| > MAX_NUMBER_LITERAL_LEN - 2)
  {
    if EncodeFloat(f).Ok? {
      EncodedLength(f);
      EncodedText(f);
      if f.exponent < 0 { FractionExact(f, f.coefficient, -f.exponent); } else { ExactWhole(f); }
    }
  }

  /** The bound of 130 is reached: the length is checked before `.0` is added. */
  lemma {:induction false} LongestLiteral()
    ensures EncodeFloat(Finite(false, 1, 127)).Ok?
    ensures |EncodeFloat(Finite(false, 1, 127)).value| == 130
  {
    WholeDigits(1, 127);
    DigitsAlone(WholeText(1, 127));
    assert PlainText(Finite(false, 1, 127)) == Digits(1) + Zeros(127);
  }

  /** An integer is refused outside 64 bits, and otherwise its literal reads back as itself. */
  lemma {:induction false} IntLiteral(n: int)
    ensures EncodeInt(n).Ok? <==> -0x8000_0000_0000_0000 <= n < 0x8000_0000_0000_0000
    ensures EncodeInt(n).Ok? ==>
              var t := EncodeInt(n).value;
              IsNumeral(t) && '.' !in t && IntOf(t) == n
  {
    if EncodeInt(n).Ok? {
      var m: nat := if n < 0 then -n else n;
      var u := Digits(m);
      DigitsRead(m);
      DigitsAlone(u);
      SignedNumeral(u, n < 0);
    }
  }
}
