/**
 * String helpers with PHP's meaning: decimal rendering of integers,
 * `intval` on strings, `str_pad`, `strtolower`, `trim`, substring search,
 * and the byte-wise lexicographic order a database uses on string keys.
 */
module Text {

  predicate IsDigit(c: char) {
    '0' <= c <= '9'
  }

  predicate AllDigits(s: string) {
    forall i :: 0 <= i < |s| ==> IsDigit(s[i])
  }

  function DigitValue(c: char): (d: nat)
    requires IsDigit(c)
    ensures d < 10
  {
    c as int - '0' as int
  }

  function DigitChar(d: nat): (c: char)
    requires d < 10
    ensures IsDigit(c)
    ensures DigitValue(c) == d
  {
    ('0' as int + d) as char
  }

  /** Decimal rendering of `n` without leading zeros ("0" for zero). */
  function NatToDigits(n: nat): (s: string)
    ensures 1 <= |s|
    ensures AllDigits(s)
    ensures n > 0 ==> s[0] != '0'
    ensures n < 10 <==> |s| == 1
  {
    if n < 10 then [DigitChar(n)] else NatToDigits(n / 10) + [DigitChar(n % 10)]
  }

  /** The number a string of decimal digits denotes. */
  function DigitsValue(s: string): nat
    requires AllDigits(s)
  {
    if |s| == 0 then 0 else DigitsValue(s[..|s| - 1]) * 10 + DigitValue(s[|s| - 1])
  }

  /** Reading back a rendered natural number gives the number. */
  lemma {:induction false} DigitsRoundTrip(n: nat)
    ensures DigitsValue(NatToDigits(n)) == n
  {
    if n >= 10 {
      var s := NatToDigits(n);
      assert s[..|s| - 1] == NatToDigits(n / 10);
      DigitsRoundTrip(n / 10);
    }
  }

  /** Values below 10^k render in at most k digits. */
  lemma {:induction false} DigitsLength(n: nat, k: nat, bound: nat)
    requires bound == Pow10(k)
    requires n < bound
    requires 1 <= k
    ensures |NatToDigits(n)| <= k
  {
    if n >= 10 {
      assert Pow10(1) == 10;
      assert k >= 2;
      Pow10Step(k - 1);
      DigitsLength(n / 10, k - 1, Pow10(k - 1));
    }
  }

  function Pow10(k: nat): (p: nat)
    ensures p >= 1
  {
    if k == 0 then 1 else 10 * Pow10(k - 1)
  }

  lemma Pow10Step(k: nat)
    ensures Pow10(k + 1) == 10 * Pow10(k)
  {
  }

  /** `k` copies of `c`. */
  function Repeat(c: char, k: nat): (r: string)
    ensures |r| == k
    ensures forall i :: 0 <= i < k ==> r[i] == c
  {
    if k == 0 then [] else [c] + Repeat(c, k - 1)
  }

  /** Leading zeros do not change the value of a digit string. */
  lemma {:induction false} LeadingZeros(k: nat, s: string)
    requires AllDigits(s)
    ensures AllDigits(Repeat('0', k) + s)
    ensures DigitsValue(Repeat('0', k) + s) == DigitsValue(s)
  {
    var t := Repeat('0', k) + s;
    if |s| == 0 {
      assert t == Repeat('0', k);
      ZerosValue(k);
    } else {
      assert t[..|t| - 1] == Repeat('0', k) + s[..|s| - 1];
      LeadingZeros(k, s[..|s| - 1]);
    }
  }

  lemma {:induction false} ZerosValue(k: nat)
    ensures AllDigits(Repeat('0', k))
    ensures DigitsValue(Repeat('0', k)) == 0
  {
    if k > 0 {
      var z := Repeat('0', k);
      assert z[..k - 1] == Repeat('0', k - 1);
      ZerosValue(k - 1);
    }
  }

  /** PHP's `(string)$i` for an integer. */
  function IntToString(i: int): (s: string)
    ensures 1 <= |s|
    ensures i >= 0 ==> AllDigits(s) && DigitsValue(s) == i
    ensures i < 0 ==> s[0] == '-' && AllDigits(s[1..]) && DigitsValue(s[1..]) == -i
  {
    DigitsRoundTrip(if i < 0 then -i else i);
    if i < 0 then "-" + NatToDigits(-i) else NatToDigits(i)
  }

  /** PHP's `str_pad($s, $width, $c, STR_PAD_LEFT)`: pads, never truncates. */
  function PadLeft(s: string, width: nat, c: char): (r: string)
    ensures |r| == if |s| >= width then |s| else width
    ensures r[|r| - |s|..] == s
    ensures forall i :: 0 <= i < |r| - |s| ==> r[i] == c
  {
    if |s| >= width then s else Repeat(c, width - |s|) + s
  }

  /** PHP's `substr($s, -k)`: the last `k` characters, or all of `s` when shorter. */
  function LastChars(s: string, k: nat): (r: string)
    ensures |r| == if |s| >= k then k else |s|
    ensures s == s[..|s| - |r|] + r
  {
    if |s| >= k then s[|s| - k..] else s
  }

  /** The white-space characters PHP skips before a number. */
  predicate IsNumericSpace(c: char) {
    c == ' ' || c == '\t' || c == '\n' || c == '\r' || c == '\U{0B}' || c == '\U{0C}'
  }

  function SkipSpace(s: string): (r: string)
    ensures |r| <= |s|
    ensures r == s[|s| - |r|..]
    ensures |r| > 0 ==> !IsNumericSpace(r[0])
  {
    if |s| > 0 && IsNumericSpace(s[0]) then SkipSpace(s[1..]) else s
  }

  /** The longest prefix of `s` made of decimal digits. */
  function DigitPrefix(s: string): (r: string)
    ensures AllDigits(r)
    ensures r <= s
    ensures |r| < |s| ==> !IsDigit(s[|r|])
  {
    if |s| > 0 && IsDigit(s[0]) then [s[0]] + DigitPrefix(s[1..]) else []
  }

  /**
   * PHP's `intval` on a string: leading white space, an optional sign, then
   * as many digits as follow; anything else yields 0.
   */
  function IntVal(s: string): int {
    var t := SkipSpace(s);
    if |t| > 0 && t[0] == '-' then -(DigitsValue(DigitPrefix(t[1..])) as int)
    else if |t| > 0 && t[0] == '+' then DigitsValue(DigitPrefix(t[1..]))
    else DigitsValue(DigitPrefix(t))
  }

  lemma {:induction false} DigitPrefixOfDigits(s: string)
    requires AllDigits(s)
    ensures DigitPrefix(s) == s
  {
    if |s| > 0 {
      DigitPrefixOfDigits(s[1..]);
    }
  }

  /** On a string of digits, `intval` is the digits' value. */
  lemma IntValOfDigits(s: string)
    requires AllDigits(s)
    ensures IntVal(s) == DigitsValue(s)
  {
    if |s| > 0 {
      assert !IsNumericSpace(s[0]) by { assert IsDigit(s[0]); }
    }
    assert SkipSpace(s) == s;
    DigitPrefixOfDigits(s);
  }

  /** `intval` reads a negative number: "-0001" is -1. */
  lemma IntValNegative(s: string)
    requires |s| >= 2 && s[0] == '-' && AllDigits(s[1..])
    ensures IntVal(s) == -(DigitsValue(s[1..]) as int)
  {
    assert SkipSpace(s) == s;
    DigitPrefixOfDigits(s[1..]);
  }

  /** A string PHP treats as true: neither empty nor "0". */
  predicate Truthy(s: string) {
    s != "" && s != "0"
  }

  /** PHP's `strtolower`: ASCII letters only. */
  function LowerChar(c: char): char {
    if 'A' <= c <= 'Z' then (c as int + 32) as char else c
  }

  function ToLower(s: string): (r: string)
    ensures |r| == |s|
    ensures forall i :: 0 <= i < |s| ==> r[i] == LowerChar(s[i])
  {
    if |s| == 0 then [] else [LowerChar(s[0])] + ToLower(s[1..])
  }

  /** PHP's `strtoupper`: ASCII letters only. */
  function UpperChar(c: char): char {
    if 'a' <= c <= 'z' then (c as int - 32) as char else c
  }

  function ToUpper(s: string): (r: string)
    ensures |r| == |s|
    ensures forall i :: 0 <= i < |s| ==> r[i] == UpperChar(s[i])
  {
    if |s| == 0 then [] else [UpperChar(s[0])] + ToUpper(s[1..])
  }

  /** The characters PHP's `trim` removes from both ends. */
  predicate IsTrimmed(c: char) {
    c == ' ' || c == '\t' || c == '\n' || c == '\r' || c == '\0' || c == '\U{0B}'
  }

  function TrimLeft(s: string): (r: string)
    ensures |r| <= |s|
    ensures |r| > 0 ==> !IsTrimmed(r[0])
  {
    if |s| > 0 && IsTrimmed(s[0]) then TrimLeft(s[1..]) else s
  }

  function TrimRight(s: string): (r: string)
    ensures |r| <= |s|
    ensures |r| > 0 ==> !IsTrimmed(r[|r| - 1])
    ensures r == s[..|r|]
  {
    if |s| > 0 && IsTrimmed(s[|s| - 1]) then TrimRight(s[..|s| - 1]) else s
  }

  function Trim(s: string): string {
    TrimRight(TrimLeft(s))
  }

  /** `needle` occurs in `hay` as a contiguous substring (SQL `LIKE '%needle%'`). */
  predicate Contains(hay: string, needle: string) {
    exists i :: 0 <= i <= |hay| - |needle| && OccursAt(hay, needle, i)
  }

  predicate OccursAt(hay: string, needle: string, i: int)
    requires 0 <= i <= |hay| - |needle|
  {
    hay[i..i + |needle|] == needle
  }

  /**
   * Byte-wise lexicographic order on strings, the order a database applies
   * to string keys such as UUIDs (`<` on Dafny sequences is the prefix order).
   */
  predicate LexLess(a: string, b: string)
    decreases |a|
  {
    if |a| == 0 then |b| > 0
    else if |b| == 0 then false
    else a[0] < b[0] || (a[0] == b[0] && LexLess(a[1..], b[1..]))
  }

  lemma {:induction false} LexLessIrreflexive(a: string)
    ensures !LexLess(a, a)
    decreases |a|
  {
    if |a| > 0 {
      LexLessIrreflexive(a[1..]);
    }
  }

  lemma {:induction false} LexLessTransitive(a: string, b: string, c: string)
    requires LexLess(a, b) && LexLess(b, c)
    ensures LexLess(a, c)
    decreases |a|
  {
    if |a| > 0 && |b| > 0 && |c| > 0 && a[0] == b[0] == c[0] {
      LexLessTransitive(a[1..], b[1..], c[1..]);
    }
  }

  /** Any two different strings are ordered one way or the other. */
  lemma {:induction false} LexLessTotal(a: string, b: string)
    requires a != b
    ensures LexLess(a, b) || LexLess(b, a)
    decreases |a|
  {
    if |a| > 0 && |b| > 0 && a[0] == b[0] {
      assert a == [a[0]] + a[1..] && b == [b[0]] + b[1..];
      LexLessTotal(a[1..], b[1..]);
    }
  }

  lemma LexLessAsymmetric(a: string, b: string)
    requires LexLess(a, b)
    ensures !LexLess(b, a)
  {
    if LexLess(b, a) {
      LexLessTransitive(a, b, a);
      LexLessIrreflexive(a);
    }
  }
}
