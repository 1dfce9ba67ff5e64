/**
 * Fixed-point money. Every `decimal(12,2)` column is an integer number of
 * hundredths (`Cents`); an amount that need not be a whole number of
 * hundredths (a percentage commission, a running total built from them) is
 * an exact `real` counted in hundredths. Rendering follows
 * `number_format($v, 2, '.', '')`: round half away from zero to hundredths,
 * '.' as the separator, exactly two fraction digits, no grouping.
 */
module Money {
  import opened Wrappers
  import opened Text

  /** A `decimal(12,2)` amount as a count of hundredths. */
  type Cents = int

  /** The two fraction digits of a non-negative count of hundredths. */
  function Fraction(n: nat): (f: string)
    ensures |f| == 2 && AllDigits(f)
    ensures DigitsValue(f) == n % 100
  {
    var f := [DigitChar(n % 100 / 10), DigitChar(n % 10)];
    assert f[..1] == [f[0]];
    assert DigitsValue(f[..1]) == n % 100 / 10 by {
      assert f[..1][..0] == [];
    }
    assert n % 100 == n % 100 / 10 * 10 + n % 10;
    f
  }

  /** `number_format(c / 100, 2, '.', '')` for a whole number of hundredths. */
  function FormatCents(c: Cents): (s: string)
    ensures 4 <= |s|
    ensures s[|s| - 3] == '.'
    ensures AllDigits(s[|s| - 2..])
    ensures c < 0 <==> s[0] == '-'
  {
    if c < 0 then "-" + FormatUnsigned(-c) else FormatUnsigned(c)
  }

  /** The rendering of a non-negative count of hundredths: whole units, '.', two digits. */
  function FormatUnsigned(n: nat): (s: string)
    ensures 4 <= |s|
    ensures s[|s| - 3] == '.'
    ensures AllDigits(s[|s| - 2..])
    ensures IsDigit(s[0])
  {
    var s := NatToDigits(n / 100) + "." + Fraction(n);
    assert s[|s| - 2..] == Fraction(n);
    s
  }

  /** Reads "[-]digits.dd" back into hundredths; None for any other shape. */
  function ParseCents(s: string): Option<Cents> {
    if |s| > 0 && s[0] == '-' then
      match ParseUnsigned(s[1..])
      case None => None
      case Some(v) => Some(-(v as int))
    else
      match ParseUnsigned(s)
      case None => None
      case Some(v) => Some(v)
  }

  /** Reads "digits.dd" into hundredths; None for any other shape. */
  function ParseUnsigned(body: string): Option<nat> {
    if |body| < 4 || body[|body| - 3] != '.' then None
    else
      var whole := body[..|body| - 3];
      var frac := body[|body| - 2..];
      if !AllDigits(whole) || !AllDigits(frac) then None
      else Some(DigitsValue(whole) * 100 + DigitsValue(frac))
  }

  /** Formatting loses nothing: the rendered amount parses back to itself. */
  lemma FormatParseRoundTrip(c: Cents)
    ensures ParseCents(FormatCents(c)) == Some(c)
  {
    var n: nat := if c < 0 then -c else c;
    UnsignedRoundTrip(n);
    Signs(FormatUnsigned(n), n);
  }

  /** An unsigned reading carries over to the text with and without a leading '-'. */
  lemma Signs(u: string, n: nat)
    requires 0 < |u| && u[0] != '-'
    requires ParseUnsigned(u) == Some(n)
    ensures ParseCents(u) == Some(n)
    ensures ParseCents("-" + u) == Some(-(n as int))
  {
    assert ("-" + u)[1..] == u;
  }

  /** The unsigned rendering of a count of hundredths reads back as that count. */
  lemma UnsignedRoundTrip(n: nat)
    ensures ParseUnsigned(FormatUnsigned(n)) == Some(n)
  {
    var q := n / 100;
    DigitsRoundTrip(q);
    ParseDigits(NatToDigits(q), Fraction(n));
    assert q * 100 + n % 100 == n;
  }

  /** "whole.ff" with digits on both sides reads as whole * 100 + ff. */
  lemma ParseDigits(whole: string, frac: string)
    requires 1 <= |whole| && AllDigits(whole)
    requires |frac| == 2 && AllDigits(frac)
    ensures ParseUnsigned(whole + "." + frac) == Some(DigitsValue(whole) * 100 + DigitsValue(frac))
  {
    var body := whole + "." + frac;
    assert body[..|body| - 3] == whole;
    assert body[|body| - 2..] == frac;
  }

  /** Rounding half away from zero, as `number_format` does. */
  function RoundHalfAway(x: real): (r: int)
    ensures x >= 0.0 ==> x - 0.5 < r as real <= x + 0.5
    ensures x < 0.0 ==> x - 0.5 <= r as real < x + 0.5
  {
    if x >= 0.0 then (x + 0.5).Floor else -((-x + 0.5).Floor)
  }

  lemma RoundWhole(c: Cents)
    ensures RoundHalfAway(c as real) == c
  {
  }

  /** `number_format((float) $v, 2, '.', '')` for an exact amount in hundredths. */
  function FormatAmount(x: real): (s: string)
    ensures 4 <= |s| && s[|s| - 3] == '.'
    ensures ParseCents(s) == Some(RoundHalfAway(x))
  {
    var c := RoundHalfAway(x);
    FormatParseRoundTrip(c);
    FormatCents(c)
  }

  /**
   * The resource rendering of a nullable stored amount: a null or zero
   * amount shows as "0.00", any other as its formatted value.
   */
  function RenderStored(a: Option<Cents>): (s: string)
    ensures a.None? ==> s == "0.00"
    ensures a.Some? ==> ParseCents(s) == Some(a.value)
  {
    match a
    case None => "0.00"
    case Some(v) => FormatParseRoundTrip(v); FormatCents(v)
  }

  lemma RenderZero()
    ensures RenderStored(Some(0)) == "0.00"
    ensures FormatCents(0) == "0.00"
  {
  }

  /** 50000 renders as "50000.00". */
  lemma RenderFiftyThousand()
    ensures FormatCents(5000000) == "50000.00"
  {
    FiftyThousandDigits();
    assert Fraction(5000000) == "00";
    assert FormatUnsigned(5000000) == "50000" + "." + "00";
  }

  lemma FiftyThousandDigits()
    ensures NatToDigits(50000) == "50000"
  {
    assert NatToDigits(5) == "5";
    assert NatToDigits(50) == "50";
    assert NatToDigits(500) == "500";
    assert NatToDigits(5000) == "5000";
  }

  /** An exact 450 renders as "450.00". */
  lemma RenderFourHundredFifty()
    ensures FormatAmount(45000.0) == "450.00"
  {
    RoundWhole(45000);
    assert NatToDigits(4) == "4";
    assert NatToDigits(45) == "45";
    assert NatToDigits(450) == "450";
    assert FormatCents(45000) == "450.00";
  }

  /** `s` with every '.' removed. */
  function Undot(s: string): string {
    if |s| == 0 then [] else (if s[0] == '.' then [] else [s[0]]) + Undot(s[1..])
  }

  lemma UndotAppend(a: string, b: string)
    ensures Undot(a + b) == Undot(a) + Undot(b)
  {
    if |a| == 0 {
      assert a + b == b;
    } else {
      var head: string := if a[0] == '.' then [] else [a[0]];
      assert (a + b)[0] == a[0];
      assert (a + b)[1..] == a[1..] + b;
      UndotAppend(a[1..], b);
      assert Undot(a + b) == head + (Undot(a[1..]) + Undot(b));
      assert Undot(a) == head + Undot(a[1..]);
    }
  }

  lemma UndotDigits(d: string)
    requires AllDigits(d)
    ensures Undot(d) == d
  {
    if |d| > 0 {
      UndotDigits(d[1..]);
    }
  }

  /**
   * Thousands grouping: a '.' exactly at every fourth place counted from
   * the right, so that between the dots sit groups of three characters,
   * the leftmost group holding one to three.
   */
  predicate ThousandsGrouped(r: string) {
    && (|Undot(r)| > 0 ==> |r| == |Undot(r)| + (|Undot(r)| - 1) / 3)
    && DotsEveryFourth(r)
  }

  /** A '.' exactly at every fourth place counted from the right. */
  predicate DotsEveryFourth(r: string) {
    forall i :: 0 <= i < |r| ==> (r[i] == '.' <==> (|r| - i) % 4 == 0)
  }

  /** Digits grouped in threes from the right with '.' between groups. */
  function GroupThousands(d: string): (r: string)
    requires AllDigits(d)
    ensures Undot(r) == d
    ensures |d| > 0 ==> |r| == |d| + (|d| - 1) / 3 && r[0] == d[0]
    ensures DotsEveryFourth(r)
  {
    if |d| <= 3 then
      UndotDigits(d);
      ShortDigitsUndotted(d);
      d
    else
      var head := d[..|d| - 3];
      var tail := d[|d| - 3..];
      var g := GroupThousands(head);
      UndotGroup(g, tail);
      assert d == head + tail;
      GroupLength(|d|);
      DotsAfterAppend(g, tail);
      g + "." + tail
  }

  /** The dot before a group of digits is the only one the group adds. */
  lemma UndotGroup(g: string, tail: string)
    requires AllDigits(tail)
    ensures Undot(g + "." + tail) == Undot(g) + tail
  {
    var dotted := g + ".";
    UndotAppend(g, ".");
    UndotDot();
    assert Undot(dotted) == Undot(g);
    UndotAppend(dotted, tail);
    UndotDigits(tail);
  }

  lemma UndotDot()
    ensures Undot(".") == []
  {
    assert "."[1..] == [];
  }

  /** Up to three digits need no dot. */
  lemma ShortDigitsUndotted(d: string)
    requires AllDigits(d) && |d| <= 3
    ensures DotsEveryFourth(d)
  {
    forall i | 0 <= i < |d|
      ensures d[i] == '.' <==> (|d| - i) % 4 == 0
    {
      assert IsDigit(d[i]);
      assert 1 <= |d| - i <= 3;
    }
  }

  /** A price of one and a half million is labelled "1.500.000". */
  lemma GroupMillionAndHalf()
    ensures GroupThousands("1500000") == "1.500.000"
  {
    assert "1500000"[..4] == "1500" && "1500000"[4..] == "000";
    GroupFifteenHundred();
  }

  lemma GroupFifteenHundred()
    ensures GroupThousands("1500") == "1.500"
  {
    assert "1500"[..1] == "1" && "1500"[1..] == "500";
  }

  /** One more group of three adds four characters, dot included. */
  lemma GroupLength(n: int)
    requires n >= 4
    ensures (n - 3) + (n - 4) / 3 + 4 == n + (n - 1) / 3
  {
  }

  /** Appending '.' and a group of three digits keeps the dots every fourth place from the right. */
  lemma DotsAfterAppend(g: string, tail: string)
    requires AllDigits(tail) && |tail| == 3
    requires DotsEveryFourth(g)
    ensures DotsEveryFourth(g + "." + tail)
  {
    var r := g + "." + tail;
    forall i | 0 <= i < |r|
      ensures r[i] == '.' <==> (|r| - i) % 4 == 0
    {
      if i < |g| {
        assert r[i] == g[i];
        assert |r| - i == (|g| - i) + 4;
      } else if i == |g| {
        assert |r| - i == 4;
      } else {
        assert r[i] == tail[i - |g| - 1];
        assert 1 <= |r| - i <= 3;
      }
    }
  }

  /**
   * `number_format(price, 0, ',', '.')`: whole units, '.' between
   * thousands, and a leading '-' exactly for a negative rounded price.
   */
  function FormatRupiah(c: Cents): (s: string)
    ensures Undot(s) == IntToString(RoundHalfAway(c as real / 100.0))
    ensures |s| > 0 && (s[0] == '-' <==> RoundHalfAway(c as real / 100.0) < 0)
    ensures ThousandsGrouped(if s[0] == '-' then s[1..] else s)
  {
    var u := RoundHalfAway(c as real / 100.0);
    var n: nat := if u < 0 then -u else u;
    var g := GroupThousands(NatToDigits(n));
    assert IsDigit(g[0]);
    if u < 0 then
      UndotAppend("-", g);
      assert Undot("-") == "-";
      assert ("-" + g)[1..] == g;
      "-" + g
    else
      g
  }
}
