/**
 * Submission numbers "SUB-<year>-<counter>": the counter is read back from
 * the last five characters of the year's latest number and incremented.
 */
module Numbering {
  import opened Wrappers
  import opened Text

  /** What numbering needs of an existing submission. */
  datatype NumberedRecord = NumberedRecord(number: string, createdYear: int, createdAt: int)

  /** The latest submission created in `year` (`whereYear ... orderBy(created_at desc) ->first()`). */
  function LatestInYear(records: seq<NumberedRecord>, year: int): (r: Option<nat>)
    ensures r.Some? ==> r.value < |records| && records[r.value].createdYear == year
    ensures r.Some? ==> forall j :: 0 <= j < |records| && records[j].createdYear == year ==>
      records[j].createdAt <= records[r.value].createdAt
    ensures r.None? <==> forall j :: 0 <= j < |records| ==> records[j].createdYear != year
  {
    if |records| == 0 then None
    else
      var rest := LatestInYear(records[1..], year);
      assert forall j :: 1 <= j < |records| ==> records[j] == records[1..][j - 1];
      if records[0].createdYear != year then
        match rest
        case None => None
        case Some(i) => Some(i + 1)
      else
        match rest
        case None => Some(0)
        case Some(i) => if records[i + 1].createdAt > records[0].createdAt then Some(i + 1) else Some(0)
  }

  /** The counter after `latest`: one more than `intval` of its last five characters, or 1. */
  function NextCounter(latest: Option<string>): int {
    match latest
    case None => 1
    case Some(number) => IntVal(LastChars(number, 5)) + 1
  }

  /** 'SUB-' . year . '-' . str_pad(counter, 5, '0', STR_PAD_LEFT). */
  function FormatNumber(year: nat, counter: int): (s: string)
    ensures |s| >= 10 && s[..4] == "SUB-"
  {
    "SUB-" + IntToString(year) + "-" + PadLeft(IntToString(counter), 5, '0')
  }

  function GenerateSubmissionNumber(records: seq<NumberedRecord>, year: nat): string {
    var latest := LatestInYear(records, year);
    FormatNumber(year, NextCounter(if latest.Some? then Some(records[latest.value].number) else None))
  }

  /** The creating hook: a supplied number PHP considers non-empty is kept, else one is generated. */
  function NumberOnCreate(supplied: Option<string>, records: seq<NumberedRecord>, year: nat): (r: string)
    ensures supplied.Some? && Truthy(supplied.value) ==> r == supplied.value
    ensures !(supplied.Some? && Truthy(supplied.value)) ==> r == GenerateSubmissionNumber(records, year)
  {
    if supplied.Some? && Truthy(supplied.value) then supplied.value
    else GenerateSubmissionNumber(records, year)
  }

  /** The first number of a year is counter 1. */
  lemma FirstOfYear(records: seq<NumberedRecord>, year: nat)
    requires forall j :: 0 <= j < |records| ==> records[j].createdYear != year
    ensures GenerateSubmissionNumber(records, year) == "SUB-" + IntToString(year) + "-00001"
  {
    assert IntToString(1) == "1";
    assert Repeat('0', 4) == "0000";
  }

  /** A suffix of exactly `k` characters is what `substr(..., -k)` returns. */
  lemma LastCharsOfAppend(prefix: string, tail: string, k: nat)
    requires |tail| == k
    ensures LastChars(prefix + tail, k) == tail
  {
    assert (prefix + tail)[|prefix|..] == tail;
  }

  /** A counter up to 99999 pads to five digits denoting the counter. */
  lemma {:induction false} PaddedCounter(counter: nat)
    requires counter <= 99999
    ensures |PadLeft(IntToString(counter), 5, '0')| == 5
    ensures AllDigits(PadLeft(IntToString(counter), 5, '0'))
    ensures DigitsValue(PadLeft(IntToString(counter), 5, '0')) == counter
  {
    var digits := IntToString(counter);
    assert Pow10(5) == 100000 by {
      assert Pow10(2) == 100;
      assert Pow10(4) == 10000;
    }
    DigitsLength(counter, 5, Pow10(5));
    assert PadLeft(digits, 5, '0') == Repeat('0', 5 - |digits|) + digits;
    LeadingZeros(5 - |digits|, digits);
  }

  /** For counters up to 99999 the five-character suffix is the padded counter. */
  lemma SuffixOfNumber(year: nat, counter: nat)
    requires counter <= 99999
    ensures LastChars(FormatNumber(year, counter), 5) == PadLeft(IntToString(counter), 5, '0')
  {
    PaddedCounter(counter);
    LastCharsOfAppend("SUB-" + IntToString(year) + "-", PadLeft(IntToString(counter), 5, '0'), 5);
  }

  /** Reading back a generated number's counter gives the counter, for 0 through 99999. */
  lemma NumberRoundTrip(year: nat, counter: nat)
    requires counter <= 99999
    ensures IntVal(LastChars(FormatNumber(year, counter), 5)) == counter
  {
    SuffixOfNumber(year, counter);
    PaddedCounter(counter);
    IntValOfDigits(PadLeft(IntToString(counter), 5, '0'));
  }

  /** Below 100000, each number is followed by the next counter, so numbers increase. */
  lemma Successor(year: nat, counter: nat)
    requires counter <= 99999
    ensures NextCounter(Some(FormatNumber(year, counter))) == counter + 1
  {
    NumberRoundTrip(year, counter);
  }

  /**
   * At 100000 padding does not truncate, the last five characters read
   * "00000", and the counter starts again at 1.
   */
  lemma CounterRestartsAfterOverflow(year: nat)
    ensures NextCounter(Some(FormatNumber(year, 100000))) == 1
  {
    OverflowNumber(year);
    LastCharsOfAppend("SUB-" + IntToString(year) + "-1", "00000", 5);
    ZerosParse();
  }

  lemma OverflowNumber(year: nat)
    ensures FormatNumber(year, 100000) == ("SUB-" + IntToString(year) + "-1") + "00000"
  {
    OverflowRendering();
  }

  lemma OverflowRendering()
    ensures PadLeft(IntToString(100000), 5, '0') == "1" + "00000"
  {
    assert NatToDigits(10) == "10";
    assert NatToDigits(100) == "100";
    assert NatToDigits(1000) == "1000";
    assert NatToDigits(10000) == "10000";
  }

  lemma ZerosParse()
    ensures IntVal("00000") == 0
  {
    ZerosValue(5);
    assert Repeat('0', 5) == "00000";
    IntValOfDigits("00000");
  }

  /**
   * A legacy number such as "PSBA-2024-0001" ends in "-0001", which
   * `intval` reads as -1, so the next counter is 0.
   */
  lemma LegacyNumber()
    ensures NextCounter(Some("PSBA-2024-0001")) == 0
  {
    LegacySuffix();
    MinusOneParses();
    DigitsOfOne();
  }

  lemma LegacySuffix()
    ensures LastChars("PSBA-2024-0001", 5) == "-0001"
  {
    LastCharsOfAppend("PSBA-2024", "-0001", 5);
    assert "PSBA-2024" + "-0001" == "PSBA-2024-0001";
  }

  lemma MinusOneParses()
    ensures IntVal("-0001") == -(DigitsValue("0001") as int)
  {
    IntValNegative("-0001");
    assert "-0001"[1..] == "0001";
  }

  lemma DigitsOfOne()
    ensures DigitsValue("0001") == 1
  {
    LeadingZeros(3, "1");
    assert Repeat('0', 3) + "1" == "0001";
  }

  /** The number generated after that legacy one therefore carries counter 0. */
  lemma AfterLegacyNumber()
    ensures FormatNumber(2024, 0) == "SUB-2024-00000"
  {
    YearRendering();
    ZeroPadding();
    assert "SUB-" + "2024" + "-" + "00000" == "SUB-2024-00000";
  }

  lemma YearRendering()
    ensures IntToString(2024) == "2024"
  {
    assert NatToDigits(20) == "20";
    assert NatToDigits(202) == "202";
  }

  lemma ZeroPadding()
    ensures PadLeft(IntToString(0), 5, '0') == "00000"
  {
    assert IntToString(0) == "0";
    assert Repeat('0', 4) == "0000";
  }
}
