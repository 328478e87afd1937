/**
 * String helpers shared by the backend (Java) and the frontend (TypeScript)
 * models. Strings are sequences of Unicode scalar values; case mapping is
 * ASCII-only.
 */
module Text {

  /** Java's String.trim() strips every character at or below U+0020. */
  predicate IsJavaSpace(c: char) { c <= ' ' }

  /** The WhiteSpace and LineTerminator characters JavaScript's trim() strips. */
  predicate IsJsSpace(c: char)
  {
    c == ' ' || c == '\t' || c == '\n' || c == '\U{0B}' || c == '\U{0C}' || c == '\r'
    || c == '\U{A0}' || c == '\U{1680}' || ('\U{2000}' <= c <= '\U{200A}')
    || c == '\U{2028}' || c == '\U{2029}' || c == '\U{202F}' || c == '\U{205F}'
    || c == '\U{3000}' || c == '\U{FEFF}'
  }

  /** The class `\s` of Java regular expressions: [ \t\n\x0B\f\r]. */
  predicate IsRegexSpace(c: char)
  {
    c == ' ' || c == '\t' || c == '\n' || c == '\U{0B}' || c == '\U{0C}' || c == '\r'
  }

  /** Drops the leading characters that satisfy isSpace. */
  function TrimStart(s: string, isSpace: char -> bool): (r: string)
    ensures |r| <= |s| && r == s[|s| - |r|..]
    ensures r != [] ==> !isSpace(r[0])
  {
    if s != [] && isSpace(s[0]) then TrimStart(s[1..], isSpace) else s
  }

  /** Every character TrimStart drops is a space. */
  lemma {:induction false} TrimStartDropsSpaces(s: string, isSpace: char -> bool)
    ensures forall i :: 0 <= i < |s| - |TrimStart(s, isSpace)| ==> isSpace(s[i])
  {
    if s != [] && isSpace(s[0]) {
      TrimStartDropsSpaces(s[1..], isSpace);
      forall i | 0 < i < |s| - |TrimStart(s, isSpace)| ensures isSpace(s[i]) {
        assert s[i] == s[1..][i - 1];
      }
    }
  }

  /** Drops the trailing characters that satisfy isSpace. */
  function TrimEnd(s: string, isSpace: char -> bool): (r: string)
    ensures |r| <= |s| && r == s[..|r|]
    ensures r != [] ==> !isSpace(r[|r| - 1])
  {
    if s != [] && isSpace(s[|s| - 1]) then TrimEnd(s[..|s| - 1], isSpace) else s
  }

  /** Every character TrimEnd drops is a space. */
  lemma {:induction false} TrimEndDropsSpaces(s: string, isSpace: char -> bool)
    ensures forall i :: |TrimEnd(s, isSpace)| <= i < |s| ==> isSpace(s[i])
  {
    if s != [] && isSpace(s[|s| - 1]) {
      TrimEndDropsSpaces(s[..|s| - 1], isSpace);
      forall i | |TrimEnd(s, isSpace)| <= i < |s| - 1 ensures isSpace(s[i]) {
        assert s[i] == s[..|s| - 1][i];
      }
    }
  }

  /** TrimEnd keeps every character up to a visible one. */
  lemma {:induction false} TrimEndKeepsVisible(s: string, k: nat, isSpace: char -> bool)
    requires k < |s| && !isSpace(s[k])
    ensures k < |TrimEnd(s, isSpace)|
  {
    if isSpace(s[|s| - 1]) {
      TrimEndKeepsVisible(s[..|s| - 1], k, isSpace);
    }
  }

  /** TrimStart keeps every character from a visible one on. */
  lemma {:induction false} TrimStartKeepsVisible(s: string, k: nat, isSpace: char -> bool)
    requires k < |s| && !isSpace(s[k])
    ensures |s| - |TrimStart(s, isSpace)| <= k
  {
    if isSpace(s[0]) {
      TrimStartKeepsVisible(s[1..], k - 1, isSpace);
    }
  }

  /** Drops the characters that satisfy isSpace from both ends. */
  function Trim(s: string, isSpace: char -> bool): (r: string)
  {
    TrimEnd(TrimStart(s, isSpace), isSpace)
  }

  /** A string that does not trim to nothing trims to one that begins and ends with a visible character. */
  lemma TrimEndsVisible(s: string, isSpace: char -> bool)
    ensures var r := Trim(s, isSpace);
      r != [] ==> !isSpace(r[0]) && !isSpace(r[|r| - 1])
  {
    var t := TrimStart(s, isSpace);
    var r := TrimEnd(t, isSpace);
    if r != [] {
      assert r[0] == t[0];
    }
  }

  /** Trimming twice trims no more than trimming once. */
  lemma TrimIdempotent(s: string, isSpace: char -> bool)
    ensures Trim(Trim(s, isSpace), isSpace) == Trim(s, isSpace)
  {
    var r := Trim(s, isSpace);
    TrimEndsVisible(s, isSpace);
    if r != [] {
      assert TrimStart(r, isSpace) == r;
      TrimEndKeepsVisible(r, |r| - 1, isSpace);
    }
  }

  /** A string trims to nothing exactly when every character in it is a space. */
  lemma TrimEmptyIffAllSpace(s: string, isSpace: char -> bool)
    ensures Trim(s, isSpace) == [] <==> forall i :: 0 <= i < |s| ==> isSpace(s[i])
  {
    var t := TrimStart(s, isSpace);
    TrimStartDropsSpaces(s, isSpace);
    TrimEndDropsSpaces(t, isSpace);
    if Trim(s, isSpace) == [] {
      forall i | 0 <= i < |s| ensures isSpace(s[i]) {
        if i >= |s| - |t| {
          assert t[i - (|s| - |t|)] == s[i];
        }
      }
    }
  }

  /**
   * Java's `s.trim().isEmpty()`, stated on the characters: by
   * TrimEmptyIffAllSpace the two agree.
   */
  predicate IsBlank(s: string) { forall i :: 0 <= i < |s| ==> IsJavaSpace(s[i]) }

  /** JavaScript's `!s.trim()`, stated on the characters as IsBlank is. */
  predicate IsBlankJs(s: string) { forall i :: 0 <= i < |s| ==> IsJsSpace(s[i]) }

  /** Java's String.contains and JavaScript's String.includes. */
  predicate Contains(s: string, sub: string)
  {
    exists i | 0 <= i <= |s| - |sub| :: OccursAt(s, sub, i)
  }

  /** `sub` occurs in `s` starting at index i. */
  predicate OccursAt(s: string, sub: string, i: int)
  {
    0 <= i <= |s| - |sub| && s[i..i + |sub|] == sub
  }

  /** An occurrence lies inside any slice that spans it. */
  lemma OccursInSlice(s: string, sub: string, i: int, lo: int, hi: int)
    requires OccursAt(s, sub, i) && 0 <= lo <= i && i + |sub| <= hi <= |s|
    ensures OccursAt(s[lo..hi], sub, i - lo)
  {
    var t := s[lo..hi];
    forall m | 0 <= m < |sub| ensures t[i - lo..i - lo + |sub|][m] == sub[m] {
      assert t[i - lo + m] == s[i + m] == s[i..i + |sub|][m];
    }
  }

  /** TrimStart keeps an occurrence of a text that begins with a visible character, shifted by what it drops. */
  lemma TrimStartKeepsOccurrence(s: string, sub: string, i: int, isSpace: char -> bool)
    requires OccursAt(s, sub, i) && sub != [] && !isSpace(sub[0])
    ensures var k := |s| - |TrimStart(s, isSpace)|;
      k <= i && OccursAt(TrimStart(s, isSpace), sub, i - k)
  {
    assert s[i] == sub[0];
    TrimStartKeepsVisible(s, i, isSpace);
    var t := TrimStart(s, isSpace);
    assert t == s[|s| - |t|..|s|];
    OccursInSlice(s, sub, i, |s| - |t|, |s|);
  }

  /** TrimEnd keeps an occurrence of a text that ends with a visible character. */
  lemma TrimEndKeepsOccurrence(s: string, sub: string, i: int, isSpace: char -> bool)
    requires OccursAt(s, sub, i) && sub != [] && !isSpace(sub[|sub| - 1])
    ensures OccursAt(TrimEnd(s, isSpace), sub, i)
  {
    assert s[i + |sub| - 1] == sub[|sub| - 1];
    TrimEndKeepsVisible(s, i + |sub| - 1, isSpace);
    var u := TrimEnd(s, isSpace);
    assert u == s[0..|u|];
    OccursInSlice(s, sub, i, 0, |u|);
  }

  /** Trimming keeps an occurrence of a text that begins and ends with a visible character. */
  lemma TrimKeepsInner(s: string, sub: string, isSpace: char -> bool)
    requires Contains(s, sub) && sub != [] && !isSpace(sub[0]) && !isSpace(sub[|sub| - 1])
    ensures Contains(Trim(s, isSpace), sub)
  {
    var i :| 0 <= i <= |s| - |sub| && OccursAt(s, sub, i);
    TrimStartKeepsOccurrence(s, sub, i, isSpace);
    var t := TrimStart(s, isSpace);
    TrimEndKeepsOccurrence(t, sub, i - (|s| - |t|), isSpace);
  }

  /** Java's String.startsWith. */
  predicate StartsWith(s: string, prefix: string)
  {
    |prefix| <= |s| && s[..|prefix|] == prefix
  }

  /** Java's String.endsWith. */
  predicate EndsWith(s: string, suffix: string)
  {
    |suffix| <= |s| && s[|s| - |suffix|..] == suffix
  }

  /** A concatenation starts with its first part and ends with its last. */
  lemma ConcatEnds(a: string, b: string)
    ensures StartsWith(a + b, a) && EndsWith(a + b, b)
  {
    assert (a + b)[..|a|] == a;
    assert (a + b)[|a|..] == b;
  }

  /** Appending keeps a prefix. */
  lemma StartsWithAppend(a: string, b: string, prefix: string)
    requires StartsWith(a, prefix)
    ensures StartsWith(a + b, prefix)
  {
    assert (a + b)[..|prefix|] == a[..|prefix|];
  }

  /** What occurs in a part occurs in the concatenation. */
  lemma ContainsInParts(a: string, b: string, sub: string)
    ensures Contains(a, sub) ==> Contains(a + b, sub)
    ensures Contains(b, sub) ==> Contains(a + b, sub)
  {
    if Contains(a, sub) {
      var i :| 0 <= i <= |a| - |sub| && OccursAt(a, sub, i);
      assert (a + b)[i..i + |sub|] == a[i..i + |sub|];
      assert OccursAt(a + b, sub, i);
    }
    if Contains(b, sub) {
      var i :| 0 <= i <= |b| - |sub| && OccursAt(b, sub, i);
      assert (a + b)[|a| + i..|a| + i + |sub|] == b[i..i + |sub|];
      assert OccursAt(a + b, sub, |a| + i);
    }
  }

  /**
   * Concatenation is associative. Stated on names rather than on the pieces
   * themselves, it spares the solver re-associating long concatenations.
   */
  lemma AppendAssoc(a: string, b: string, c: string)
    ensures (a + b) + c == a + (b + c)
  {
  }

  /** A string occurs in itself. */
  lemma ContainsItself(s: string)
    ensures Contains(s, s)
  {
    assert OccursAt(s, s, 0);
  }

  predicate IsUpperAscii(c: char) { 'A' <= c <= 'Z' }

  function LowerChar(c: char): (r: char)
    ensures !IsUpperAscii(r)
  {
    if IsUpperAscii(c) then (c as int + 32) as char else c
  }

  function UpperChar(c: char): (r: char)
    ensures !('a' <= r <= 'z')
  {
    if 'a' <= c <= 'z' then (c as int - 32) as char else c
  }

  /** toLowerCase, for the ASCII letters. */
  function Lower(s: string): (r: string)
    ensures |r| == |s|
    ensures forall i :: 0 <= i < |r| ==> !IsUpperAscii(r[i])
  {
    seq(|s|, i requires 0 <= i < |s| => LowerChar(s[i]))
  }

  /** toUpperCase, for the ASCII letters. */
  function Upper(s: string): (r: string)
    ensures |r| == |s|
    ensures forall i :: 0 <= i < |r| ==> !('a' <= r[i] <= 'z')
  {
    seq(|s|, i requires 0 <= i < |s| => UpperChar(s[i]))
  }

  /** Replaces every occurrence of one character by another. */
  function ReplaceChar(s: string, from: char, to: char): (r: string)
    ensures |r| == |s|
    ensures forall i :: 0 <= i < |s| ==> r[i] == if s[i] == from then to else s[i]
  {
    seq(|s|, i requires 0 <= i < |s| => if s[i] == from then to else s[i])
  }

  predicate IsDigit(c: char) { '0' <= c <= '9' }

  function DigitChar(d: nat): (c: char)
    requires d < 10
    ensures IsDigit(c) && c as int - '0' as int == d
  {
    ('0' as int + d) as char
  }

  predicate AllDigits(s: string)
  {
    forall i :: 0 <= i < |s| ==> IsDigit(s[i])
  }

  /** Decimal rendering of a natural number, as `%d` and `String.valueOf` print it. */
  function NatToString(n: nat): (r: string)
    ensures r != [] && forall i :: 0 <= i < |r| ==> IsDigit(r[i])
  {
    if n < 10 then [DigitChar(n)] else NatToString(n / 10) + [DigitChar(n % 10)]
  }

  predicate IsZeroDigit(c: char) { c == '0' }

  /** A run of digits without its trailing zeros. */
  function StripTrailingZeros(d: string): (r: string)
  {
    TrimEnd(d, IsZeroDigit)
  }

  /** The value of a run of decimal digits (0 for the empty run). */
  function DigitsValue(d: string): nat
    requires AllDigits(d)
  {
    if d == [] then 0 else DigitsValue(d[..|d| - 1]) * 10 + (d[|d| - 1] as int - '0' as int)
  }

  /** Reading back the decimal rendering of n gives n. */
  lemma {:induction false} DigitsValueOfNatToString(n: nat)
    ensures DigitsValue(NatToString(n)) == n
  {
    if n >= 10 {
      var d := NatToString(n);
      assert d[..|d| - 1] == NatToString(n / 10);
      DigitsValueOfNatToString(n / 10);
    }
  }

  /** Decimal rendering of an integer, with a leading '-' when negative. */
  function IntToString(i: int): string
  {
    if i < 0 then "-" + NatToString(-i) else NatToString(i)
  }

  /** A rendering starts with '-' exactly when the number is negative. */
  lemma RenderingSign(i: int)
    ensures |IntToString(i)| > 0 && (IntToString(i)[0] == '-' <==> i < 0)
  {
    if i >= 0 {
      assert IsDigit(NatToString(i)[0]);
    }
  }

  /** Decimal rendering tells integers apart. */
  lemma IntToStringInjective(a: int, b: int)
    requires IntToString(a) == IntToString(b)
    ensures a == b
  {
    if a < 0 && b < 0 {
      assert ("-" + NatToString(-a))[1..] == NatToString(-a);
      assert ("-" + NatToString(-b))[1..] == NatToString(-b);
      DigitsValueOfNatToString(-a);
      DigitsValueOfNatToString(-b);
    } else if a >= 0 && b >= 0 {
      assert NatToString(a) == NatToString(b);
      DigitsValueOfNatToString(a);
      DigitsValueOfNatToString(b);
    } else {
      RenderingSign(a);
      RenderingSign(b);
      assert false;
    }
  }

  /** String.join / Collectors.joining / Array.prototype.join. */
  function Join(parts: seq<string>, sep: string): string
  {
    if |parts| == 0 then ""
    else if |parts| == 1 then parts[0]
    else parts[0] + sep + Join(parts[1..], sep)
  }

  lemma {:induction false} JoinAppend(parts: seq<string>, p: string, sep: string)
    ensures Join(parts + [p], sep) == if parts == [] then p else Join(parts, sep) + sep + p
  {
    if |parts| > 1 {
      assert (parts + [p])[1..] == parts[1..] + [p];
      JoinAppend(parts[1..], p, sep);
    } else if |parts| == 1 {
      assert (parts + [p])[1..] == [p];
    }
  }
}
