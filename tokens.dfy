/**
 * Token-budget reporting: how token counts are combined, rendered and
 * banded against the per-chunk maximum.
 *
 * The BPE tokenizer behind `count_tokens` is a foreign library; here it is a
 * function passed in by the caller, of which nothing is assumed.
 */
module TokenBudget {
  import opened Paths
  import opened Decimal

  /** `count_tokens`: the number of tokens the tokenizer produces for a text. */
  type Tokenizer = String -> nat

  /** The text `count_tokens_in_lines` hands to the tokenizer: the lines joined by `\n`. */
  function JoinLines(lines: seq<String>): (text: String)
    ensures |lines| == 0 ==> text == ""
    ensures |lines| == 1 ==> text == lines[0]
  {
    Join(lines, "\n")
  }

  /** Lines as read from a file (no `\n` in them) are exactly recovered from the joined text. */
  lemma JoinedLinesSplitBack(lines: seq<String>)
    requires |lines| >= 1
    requires forall i :: 0 <= i < |lines| ==> '\n' !in lines[i]
    ensures Split(JoinLines(lines), '\n') == lines
  {
    SplitJoin(lines, '\n');
  }

  /** `count_tokens_in_lines`: tokens of the whole block, newlines included. */
  function CountTokensInLines(countTokens: Tokenizer, lines: seq<String>): (n: nat)
    ensures n == countTokens(JoinLines(lines))
    ensures |lines| == 1 ==> n == countTokens(lines[0])
    ensures |lines| == 0 ==> n == countTokens("")
  {
    countTokens(JoinLines(lines))
  }

  /** `count_tokens_per_line`: one count per line, in order. */
  function CountTokensPerLine(countTokens: Tokenizer, lines: seq<String>): (counts: seq<nat>)
    ensures |counts| == |lines|
    ensures forall i :: 0 <= i < |lines| ==> counts[i] == countTokens(lines[i])
  {
    if |lines| == 0 then []
    else [countTokens(lines[0])] + CountTokensPerLine(countTokens, lines[1..])
  }

  function Noun(count: nat): String
  {
    if count == 1 then " token" else " tokens"
  }

  /** `format_token_count`: `"0 tokens"`, `"1 token"`, otherwise `"{n} tokens"`. */
  function FormatTokenCount(count: nat): (r: String)
    ensures r == NatToDecimal(count) + Noun(count)
  {
    match count
    case 0 => "0 tokens"
    case 1 => "1 token"
    case _ => NatToDecimal(count) + " tokens"
  }

  /** The number in front of the first space reads back as the count. */
  lemma FormatTokenCountReadsBack(count: nat)
    requires count <= UsizeMax
    ensures var r := FormatTokenCount(count);
      FirstIndexOf(r, ' ').Some? && ParseUsize(r[..FirstIndexOf(r, ' ').value]) == Some(count)
  {
    var digits := NatToDecimal(count);
    var r := FormatTokenCount(count);
    assert ' ' !in digits by {
      assert forall i :: 0 <= i < |digits| ==> IsDigit(digits[i]);
    }
    var rest := Noun(count)[1..];
    assert r == digits + [' '] + rest;
    FirstIndexAfterPrefix(digits, ' ', rest);
    assert r[..|digits|] == digits;
    DecimalRoundTrip(count);
  }

  /** `token_usage_percentage`: 0 for a zero maximum, otherwise `count / max * 100`. */
  function TokenUsagePercentage(count: nat, max: nat): (p: real)
    ensures max == 0 ==> p == 0.0
    ensures max > 0 ==> p * max as real == 100.0 * count as real
    ensures 0.0 <= p
  {
    if max == 0 then 0.0 else (count as real / max as real) * 100.0
  }

  /** The six bands of `token_usage_description`, lowest first. */
  datatype Band = VeryLow | Low | Medium | High | VeryHigh | OverLimit
  {
    function Rank(): nat
    {
      match this
      case VeryLow => 0
      case Low => 1
      case Medium => 2
      case High => 3
      case VeryHigh => 4
      case OverLimit => 5
    }

    function Label(): String
    {
      match this
      case VeryLow => "VERY LOW"
      case Low => "LOW"
      case Medium => "MEDIUM"
      case High => "HIGH"
      case VeryHigh => "VERY HIGH"
      case OverLimit => "OVER LIMIT"
    }

    function Color(): String
    {
      match this
      case VeryLow => "cyan"
      case Low => "blue"
      case Medium => "green"
      case High => "yellow"
      case VeryHigh => "red"
      case OverLimit => "red"
    }
  }

  /** The first threshold the percentage reaches, from the top. */
  function BandOf(p: real): Band
  {
    if p >= 100.0 then OverLimit
    else if p >= 90.0 then VeryHigh
    else if p >= 75.0 then High
    else if p >= 50.0 then Medium
    else if p >= 25.0 then Low
    else VeryLow
  }

  /** `token_usage_description`: the `(label, color)` pair of the usage band. */
  function TokenUsageDescription(count: nat, max: nat): (d: (String, String))
    ensures d == (BandOfCounts(count, max).Label(), BandOfCounts(count, max).Color())
  {
    var b := BandOf(TokenUsagePercentage(count, max));
    BandMatchesCounts(count, max);
    (b.Label(), b.Color())
  }

  /** The band read off in whole numbers: `count` reaches `t` percent of `max` iff `100 * count >= t * max`. */
  function BandOfCounts(count: nat, max: nat): Band
  {
    if max == 0 then VeryLow
    else if 100 * count >= 100 * max then OverLimit
    else if 100 * count >= 90 * max then VeryHigh
    else if 100 * count >= 75 * max then High
    else if 100 * count >= 50 * max then Medium
    else if 100 * count >= 25 * max then Low
    else VeryLow
  }

  lemma ReachesThreshold(count: nat, max: nat, t: nat)
    requires max > 0
    ensures TokenUsagePercentage(count, max) >= t as real <==> 100 * count >= t * max
  {
    var p := TokenUsagePercentage(count, max);
    var m := max as real;
    assert p * m == 100.0 * count as real;
    if p >= t as real {
      assert p * m >= t as real * m;
    } else {
      assert p * m < t as real * m;
    }
  }

  /** The real-valued banding agrees with the whole-number one for every count and maximum. */
  lemma BandMatchesCounts(count: nat, max: nat)
    ensures BandOf(TokenUsagePercentage(count, max)) == BandOfCounts(count, max)
  {
    if max > 0 {
      ReachesThreshold(count, max, 100);
      ReachesThreshold(count, max, 90);
      ReachesThreshold(count, max, 75);
      ReachesThreshold(count, max, 50);
      ReachesThreshold(count, max, 25);
    }
  }

  /** For a fixed maximum, more tokens never give a lower band. */
  lemma BandMonotone(count: nat, more: nat, max: nat)
    requires count <= more
    ensures BandOf(TokenUsagePercentage(count, max)).Rank()
         <= BandOf(TokenUsagePercentage(more, max)).Rank()
  {
    BandMatchesCounts(count, max);
    BandMatchesCounts(more, max);
  }

  /** The band edges at a maximum of 100 tokens. */
  lemma BandEdgesAtHundred()
    ensures TokenUsageDescription(24, 100) == ("VERY LOW", "cyan")
    ensures TokenUsageDescription(25, 100) == ("LOW", "blue")
    ensures TokenUsageDescription(49, 100) == ("LOW", "blue")
    ensures TokenUsageDescription(50, 100) == ("MEDIUM", "green")
    ensures TokenUsageDescription(74, 100) == ("MEDIUM", "green")
    ensures TokenUsageDescription(75, 100) == ("HIGH", "yellow")
    ensures TokenUsageDescription(89, 100) == ("HIGH", "yellow")
    ensures TokenUsageDescription(90, 100) == ("VERY HIGH", "red")
    ensures TokenUsageDescription(99, 100) == ("VERY HIGH", "red")
    ensures TokenUsageDescription(100, 100) == ("OVER LIMIT", "red")
    ensures TokenUsageDescription(101, 100) == ("OVER LIMIT", "red")
  {
    BandMatchesCounts(24, 100);
    BandMatchesCounts(25, 100);
    BandMatchesCounts(49, 100);
    BandMatchesCounts(50, 100);
    BandMatchesCounts(74, 100);
    BandMatchesCounts(75, 100);
    BandMatchesCounts(89, 100);
    BandMatchesCounts(90, 100);
    BandMatchesCounts(99, 100);
    BandMatchesCounts(100, 100);
    BandMatchesCounts(101, 100);
  }
}
