/**
 * JsNumber: how the frontend prints a number it received as JSON. The
 * backend writes a double with Java's `Double.toString`; the browser
 * parses it into a Number and a template literal prints that with
 * Number::toString (section 6.1.6.1.20 of ECMA-262), which differs: "1.0"
 * prints as "1", "1.0E7" as "10000000", "1.0E-5" as "0.00001".
 *
 * Both languages print the shortest digit string that reads back as the
 * same double, so the digits are taken from Java's text and only their
 * layout is changed.
 */
module JsNumber {
  import opened Wrappers
  import opened Text
  import opened Records
  import ItemEntity

  /**
   * A finite decimal: (-1)^negative × 0.digits × 10^point, with no leading
   * or trailing '0' in digits; zero has no digits.
   */
  datatype Decimal = Decimal(negative: bool, digits: string, point: int)

  /** The index of the first c in s, or |s| when there is none. */
  function IndexOf(s: string, c: char): (r: nat)
    ensures r <= |s|
  {
    if s == [] || s[0] == c then 0 else 1 + IndexOf(s[1..], c)
  }

  /** The exponent after the 'E' of Java's computerized scientific notation: digits with an optional '-'. */
  function ParseExponent(s: string): Option<int>
  {
    if s != [] && s[0] == '-' then
      if s[1..] != [] && AllDigits(s[1..]) then Some(0 - DigitsValue(s[1..])) else None
    else if s != [] && AllDigits(s) then Some(DigitsValue(s))
    else None
  }

  /** A mantissa and the exponent after its 'E', or 0 when there is none. */
  function SplitExponent(body: string): Option<(string, int)>
  {
    var e := IndexOf(body, 'E');
    if e == |body| then Some((body, 0))
    else
      match ParseExponent(body[e + 1..])
      case Some(x) => Some((body[..e], x))
      case None => None
  }

  /** The digits before and after the '.' of a mantissa, both non-empty. */
  function SplitPoint(mantissa: string): Option<(string, string)>
  {
    var p := IndexOf(mantissa, '.');
    if p == 0 || p == |mantissa| then None
    else
      var whole := mantissa[..p];
      var fraction := mantissa[p + 1..];
      if fraction == [] || !AllDigits(whole) || !AllDigits(fraction) then None
      else Some((whole, fraction))
  }

  /** The digits of an unsigned `Double.toString` text and where its point goes. */
  function ParseUnsigned(body: string): Option<(string, int)>
  {
    match SplitExponent(body)
    case None => None
    case Some((mantissa, exponent)) =>
      match SplitPoint(mantissa)
      case None => None
      case Some((whole, fraction)) => Some((whole + fraction, |whole| + exponent))
  }

  /**
   * The decimal a `Double.toString` text stands for: an optional '-',
   * digits, '.', digits, and optionally 'E' and an exponent. "NaN" and the
   * infinities are not finite decimals.
   */
  function ParseJavaDouble(t: string): Option<Decimal>
  {
    var negative := t != [] && t[0] == '-';
    match ParseUnsigned(if negative then t[1..] else t)
    case None => None
    case Some((digits, point)) => Some(Normalize(negative, digits, point))
  }

  /** The decimal 0.digits × 10^point with its leading and trailing zeros dropped. */
  function Normalize(negative: bool, digits: string, point: int): Decimal
  {
    var significant := TrimStart(digits, IsZeroDigit);
    Decimal(negative, StripTrailingZeros(significant), point - (|digits| - |significant|))
  }

  /** n zeros. */
  function Zeros(n: nat): (r: string)
    ensures |r| == n
  {
    seq(n, _ => '0')
  }

  /**
   * Number::toString of a decimal with k digits and point n: the digits
   * padded with zeros when 21 >= n >= k, with a decimal point inside when
   * 0 < n < k, after "0." and zeros when -6 < n <= 0, and in exponential
   * form otherwise. Zero prints as "0", whatever its sign.
   */
  function DecimalText(d: Decimal): string
  {
    if d.digits == [] then "0"
    else (if d.negative then "-" else "") + MagnitudeText(d.digits, d.point)
  }

  /** Number::toString of 0.digits × 10^n, for non-empty digits. */
  function MagnitudeText(digits: string, n: int): string
    requires digits != []
  {
    var k := |digits|;
    if k <= n <= 21 then digits + Zeros(n - k)
    else if 0 < n <= 21 then digits[..n] + "." + digits[n..]
    else if -6 < n <= 0 then "0." + Zeros(-n) + digits
    else
      var e := n - 1;
      var exponent := (if e < 0 then "-" else "+") + NatToString(if e < 0 then -e else e);
      if k == 1 then digits + "e" + exponent
      else [digits[0]] + "." + digits[1..] + "e" + exponent
  }

  /**
   * The text a template literal gives a Number parsed from the double's
   * Java text. "NaN", "Infinity" and "-Infinity" read the same in both
   * languages and are kept.
   */
  function JsNumberText(d: Double): string
  {
    match ParseJavaDouble(d.text)
    case Some(dec) => DecimalText(dec)
    case None => d.text
  }

  // ---------------------------------------------------------------------
  // Whole numbers: Java's "123.0" and "1.2345678E7" print as 123 and 12345678
  // ---------------------------------------------------------------------

  /** The first c in x + y is in y when x has none. */
  lemma {:induction false} IndexOfSkips(x: string, c: char, y: string)
    requires c !in x
    ensures IndexOf(x + y, c) == |x| + IndexOf(y, c)
    decreases |x|
  {
    if x == [] {
      assert x + y == y;
    } else {
      assert (x + y)[0] == x[0] && (x + y)[1..] == x[1..] + y;
      IndexOfSkips(x[1..], c, y);
    }
  }

  /** A character s does not hold is found at its end. */
  lemma IndexOfAbsent(s: string, c: char)
    requires c !in s
    ensures IndexOf(s, c) == |s|
  {
    IndexOfSkips(s, c, []);
    assert s + [] == s;
  }

  /** The decimal rendering of a positive number has no leading zero. */
  lemma {:induction false} NoLeadingZero(m: nat)
    requires m > 0
    ensures NatToString(m)[0] != '0'
  {
    if m >= 10 {
      NoLeadingZero(m / 10);
      assert NatToString(m)[0] == NatToString(m / 10)[0];
    }
  }

  function Pow10(k: nat): (r: nat)
    ensures r >= 1
  {
    if k == 0 then 1 else 10 * Pow10(k - 1)
  }

  lemma TenToTheTwentyOne()
    ensures Pow10(21) == 1_000_000_000_000_000_000_000
  {
    assert Pow10(3) == 1000;
    assert Pow10(6) == 1000 * Pow10(3);
    assert Pow10(9) == 1000 * Pow10(6);
    assert Pow10(12) == 1000 * Pow10(9);
    assert Pow10(15) == 1000 * Pow10(12);
    assert Pow10(18) == 1000 * Pow10(15);
    assert Pow10(21) == 1000 * Pow10(18);
  }

  /** A number below 10^k has at most k digits. */
  lemma {:induction false} DigitCount(m: nat, k: nat)
    requires 1 <= k && m < Pow10(k)
    ensures |NatToString(m)| <= k
  {
    if m >= 10 {
      assert k >= 2;
      assert m / 10 < Pow10(k - 1);
      DigitCount(m / 10, k - 1);
    }
  }

  /** Dropping the trailing zeros of a run that ends in '0' is dropping them from the rest. */
  lemma StripLastZero(x: string)
    ensures StripTrailingZeros(x + "0") == StripTrailingZeros(x)
  {
    assert (x + "0")[..|x|] == x;
  }

  /** A first digit other than '0' stays in front of the stripped rest. */
  lemma {:induction false} StripBehindLead(c: char, x: string)
    requires c != '0'
    ensures StripTrailingZeros([c] + x) == [c] + StripTrailingZeros(x)
    decreases |x|
  {
    if x != [] && x[|x| - 1] == '0' {
      assert ([c] + x)[..|x|] == [c] + x[..|x| - 1];
      StripBehindLead(c, x[..|x| - 1]);
    }
  }

  /** Stripping twice strips no more. */
  lemma StripTwice(x: string)
    ensures StripTrailingZeros(StripTrailingZeros(x)) == StripTrailingZeros(x)
  {
  }

  /** The stripped digits padded back with zeros are the digits. */
  lemma StripPadded(d: string)
    ensures var s := StripTrailingZeros(d);
      s + Zeros(|d| - |s|) == d
  {
    var s := StripTrailingZeros(d);
    TrimEndDropsSpaces(d, IsZeroDigit);
    assert forall i :: |s| <= i < |d| ==> d[i] == '0';
    assert forall i :: 0 <= i < |d| ==> (s + Zeros(|d| - |s|))[i] == d[i];
  }

  /** A text without 'E' has no exponent. */
  lemma NoExponent(m: string)
    requires 'E' !in m
    ensures SplitExponent(m) == Some((m, 0))
  {
    IndexOfAbsent(m, 'E');
  }

  /** A text whose first 'E' is followed by a valid exponent splits there. */
  lemma ExponentAfter(m: string, x: string)
    requires 'E' !in m && ParseExponent(x).Some?
    ensures SplitExponent(m + "E" + x) == Some((m, ParseExponent(x).value))
  {
    var b := m + "E" + x;
    IndexOfSkips(m, 'E', "E" + x);
    assert b == m + ("E" + x);
    assert b[..|m|] == m && b[|m| + 1..] == x;
  }

  /** A mantissa whose first '.' has digits on both sides splits there. */
  lemma PointAfter(w: string, f: string)
    requires w != [] && f != [] && AllDigits(w) && AllDigits(f)
    ensures SplitPoint(w + "." + f) == Some((w, f))
  {
    var m := w + "." + f;
    assert '.' !in w by {
      assert forall i :: 0 <= i < |w| ==> IsDigit(w[i]);
    }
    IndexOfSkips(w, '.', "." + f);
    assert m == w + ("." + f);
    assert m[..|w|] == w && m[|w| + 1..] == f;
  }

  /** Digits hold no 'E'. */
  lemma DigitsNoE(d: string)
    requires AllDigits(d)
    ensures 'E' !in d
  {
    assert forall i :: 0 <= i < |d| ==> IsDigit(d[i]);
  }

  /** What an unsigned whole number's Java text reads as: its digits, stripped, with the point after all of them. */
  predicate ReadsAsWhole(p: Option<(string, int)>, d: string)
  {
    && p.Some?
    && TrimStart(p.value.0, IsZeroDigit) == p.value.0
    && StripTrailingZeros(p.value.0) == StripTrailingZeros(d)
    && p.value.1 == |d|
  }

  /** Below ten million: "123.0" reads as the digits 1230 with the point after three. */
  lemma ShortWholeDigits(d: string)
    requires d != [] && AllDigits(d) && d[0] != '0' && |d| <= 7
    ensures ReadsAsWhole(ParseUnsigned(ItemEntity.DigitsDoubleText(d)), d)
  {
    var u := ItemEntity.DigitsDoubleText(d);
    assert u == d + "." + "0";
    assert 'E' !in u by {
      assert forall i :: 0 <= i < |u| ==> IsDigit(u[i]) || u[i] == '.' by {
        assert forall i :: 0 <= i < |d| ==> u[i] == d[i];
      }
    }
    NoExponent(u);
    PointAfter(d, "0");
    assert ParseUnsigned(u) == Some((d + "0", |d|));
    assert (d + "0")[0] == d[0];
    StripLastZero(d);
  }

  /** The fraction Java writes for a long whole number: its digits after the first, stripped, or "0". */
  function LongFraction(d: string): string
    requires d != []
  {
    var stripped := StripTrailingZeros(d[1..]);
    if stripped == [] then "0" else stripped
  }

  /** From ten million on: "1.2345678E7" reads as the digits 12345678 with the point after eight. */
  lemma LongWholeDigits(d: string)
    requires d != [] && AllDigits(d) && d[0] != '0' && |d| > 7
    ensures ReadsAsWhole(ParseUnsigned(ItemEntity.DigitsDoubleText(d)), d)
  {
    var f := LongFraction(d);
    LongParts(d);
    assert ([d[0]] + f)[0] == d[0];
    LongFractionStrips(d);
  }

  /** The parts of a long whole number's Java text: the first digit and the fraction, and the point after all digits. */
  lemma LongParts(d: string)
    requires d != [] && AllDigits(d) && |d| > 7
    ensures ParseUnsigned(ItemEntity.DigitsDoubleText(d)) == Some(([d[0]] + LongFraction(d), |d|))
  {
    var u := ItemEntity.DigitsDoubleText(d);
    var f := LongFraction(d);
    var x := NatToString(|d| - 1);
    var m := [d[0]] + "." + f;
    assert u == m + "E" + x;
    assert AllDigits(f) && f != [] by {
      if f != "0" {
        assert forall i :: 0 <= i < |f| ==> f[i] == d[1..][i];
      }
    }
    assert 'E' !in m by {
      assert forall i :: 0 <= i < |m| ==> IsDigit(m[i]) || m[i] == '.' by {
        assert forall i :: 2 <= i < |m| ==> m[i] == f[i - 2];
      }
    }
    assert ParseExponent(x) == Some(|d| - 1) by {
      assert IsDigit(x[0]);
      DigitsValueOfNatToString(|d| - 1);
    }
    ExponentAfter(m, x);
    assert AllDigits([d[0]]) by {
      assert IsDigit(d[0]);
    }
    PointAfter([d[0]], f);
  }

  /** The first digit and the fraction, stripped, are the digits stripped. */
  lemma LongFractionStrips(d: string)
    requires d != [] && d[0] != '0'
    ensures StripTrailingZeros([d[0]] + LongFraction(d)) == StripTrailingZeros(d)
  {
    var stripped := StripTrailingZeros(d[1..]);
    StripBehindLead(d[0], LongFraction(d));
    StripBehindLead(d[0], d[1..]);
    assert [d[0]] + d[1..] == d;
    if stripped == [] {
      assert StripTrailingZeros("0") == [];
    } else {
      StripTwice(d[1..]);
    }
  }

  /** A whole number's digits, read back and laid out by Number::toString, are the digits. */
  lemma WholeLayout(negative: bool, p: Option<(string, int)>, d: string)
    requires d != [] && d[0] != '0' && |d| <= 21 && ReadsAsWhole(p, d)
    ensures DecimalText(Normalize(negative, p.value.0, p.value.1)) == (if negative then "-" else "") + d
  {
    var s := StripTrailingZeros(d);
    assert Normalize(negative, p.value.0, p.value.1) == Decimal(negative, s, |d|);
    assert s != [] by {
      StripBehindLead(d[0], d[1..]);
      assert [d[0]] + d[1..] == d;
    }
    StripPadded(d);
  }

  /**
   * A whole number below 10^21 in magnitude, printed by Java as a double
   * and then by JavaScript, gives its plain decimal digits: "5.0" prints
   * as 5 and "1.0E7" as 10000000.
   */
  lemma WholeNumberText(v: int)
    requires -1_000_000_000_000_000_000_000 < v < 1_000_000_000_000_000_000_000
    ensures JsNumberText(Double(ItemEntity.IntegerDoubleText(v))) == IntToString(v)
  {
    if v == 0 {
      assert ItemEntity.IntegerDoubleText(v) == "0.0";
      ZeroText();
    } else {
      NonZeroWholeText(v);
    }
  }

  /** WholeNumberText away from zero. */
  lemma NonZeroWholeText(v: int)
    requires -1_000_000_000_000_000_000_000 < v < 1_000_000_000_000_000_000_000 && v != 0
    ensures JsNumberText(Double(ItemEntity.IntegerDoubleText(v))) == IntToString(v)
  {
    var m: nat := if v < 0 then -v else v;
    var d := NatToString(m);
    var sign := if v < 0 then "-" else "";
    var t := ItemEntity.IntegerDoubleText(v);
    var u := ItemEntity.DigitsDoubleText(d);
    var p := ParseUnsigned(u);
    assert |d| <= 21 && d[0] != '0' && AllDigits(d) by {
      TenToTheTwentyOne();
      DigitCount(m, 21);
      NoLeadingZero(m);
    }
    assert ReadsAsWhole(p, d) by {
      if |d| <= 7 {
        ShortWholeDigits(d);
      } else {
        LongWholeDigits(d);
      }
    }
    var dec := Normalize(v < 0, p.value.0, p.value.1);
    assert ParseJavaDouble(t) == Some(dec) by {
      assert u[0] == d[0] && IsDigit(d[0]);
      assert t == sign + u;
      SignRead(v < 0, u);
    }
    assert DecimalText(dec) == sign + d by {
      WholeLayout(v < 0, p, d);
    }
  }

  /** Java's "0.0" prints as 0. */
  lemma ZeroText()
    ensures JsNumberText(Double("0.0")) == "0"
  {
    var z := "0";
    assert AllDigits(z) && 'E' !in z + "." + z;
    NoExponent(z + "." + z);
    PointAfter(z, z);
    assert TrimStart(z + z, IsZeroDigit) == [];
    assert z + "." + z == "0.0";
  }

  /**
   * A single significant digit c times 10^-n, which Java writes as
   * "c.0E-n", prints as "0." followed by n - 1 zeros and c when n is at
   * most 6: Java's "1.0E-5" prints as 0.00001.
   */
  lemma SmallNumberText(c: char, n: nat)
    requires '1' <= c <= '9' && 1 <= n <= 6
    ensures JsNumberText(Double([c] + ".0E-" + NatToString(n))) == "0." + Zeros(n - 1) + [c]
  {
    SmallNumberRead(c, n);
    assert MagnitudeText([c], 1 - n) == "0." + Zeros(n - 1) + [c];
  }

  /** "c.0E-n" reads as the single digit c with the point n - 1 places before it. */
  lemma SmallNumberRead(c: char, n: nat)
    requires '1' <= c <= '9' && 1 <= n
    ensures ParseJavaDouble([c] + ".0E-" + NatToString(n)) == Some(Decimal(false, [c], 1 - n))
  {
    var t := [c] + ".0E-" + NatToString(n);
    assert ParseUnsigned(t) == Some(([c] + "0", 1 - n)) by {
      var x := "-" + NatToString(n);
      var m := [c] + "." + "0";
      assert t == m + "E" + x;
      assert ParseExponent(x) == Some(0 - n) by {
        assert x[1..] == NatToString(n);
        DigitsValueOfNatToString(n);
      }
      assert 'E' !in m;
      ExponentAfter(m, x);
      assert AllDigits([c]);
      PointAfter([c], "0");
    }
    assert Normalize(false, [c] + "0", 1 - n) == Decimal(false, [c], 1 - n) by {
      assert TrimStart([c] + "0", IsZeroDigit) == [c] + "0";
      StripBehindLead(c, "0");
      assert StripTrailingZeros("0") == [];
    }
    SignRead(false, t);
    assert "" + t == t;
  }

  /** A leading '-' makes the decimal negative and leaves the rest to be read unsigned. */
  lemma SignRead(negative: bool, u: string)
    requires u != [] && u[0] != '-' && ParseUnsigned(u).Some?
    ensures var p := ParseUnsigned(u).value;
      ParseJavaDouble((if negative then "-" else "") + u) == Some(Normalize(negative, p.0, p.1))
  {
    var t := (if negative then "-" else "") + u;
    if negative {
      assert t[0] == '-' && t[1..] == u;
    } else {
      assert t == u;
    }
  }
}
