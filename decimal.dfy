/**
 * Decimal rendering (`format!("{}", n)`) and parsing (`str::parse::<usize>()`)
 * of unsigned integers, and the 64-bit wrap-around of `usize` arithmetic.
 * The model assumes a 64-bit target, so `usize` and `u64` share one range.
 */
module Decimal {
  import opened Paths

  /** `usize::MAX` (and `u64::MAX`) on a 64-bit target. */
  const UsizeMax: nat := 0xFFFF_FFFF_FFFF_FFFF

  /** The number of `usize` values; `as usize` casts reduce modulo this. */
  const UsizeModulus: nat := 0x1_0000_0000_0000_0000

  /** `(x as isize) as usize` style reinterpretation: two's-complement wrap. */
  function WrapUsize(x: int): (r: nat)
    ensures r <= UsizeMax
    ensures 0 <= x <= UsizeMax ==> r == x
    ensures -(UsizeModulus as int) <= x < 0 ==> r == x + UsizeModulus
  {
    x % UsizeModulus
  }

  predicate IsDigit(c: char) { '0' <= c <= '9' }

  predicate AllDigits(s: String) { forall i :: 0 <= i < |s| ==> IsDigit(s[i]) }

  function DigitChar(d: nat): (c: char)
    requires d < 10
    ensures IsDigit(c)
  {
    (48 + d) as char
  }

  function DigitValue(c: char): (d: nat)
    requires IsDigit(c)
    ensures d < 10 && DigitChar(d) == c
  {
    (c as int - 48) as nat
  }

  /** `n.to_string()`: the shortest decimal numeral of `n`. */
  function NatToDecimal(n: nat): (r: String)
    ensures |r| >= 1 && AllDigits(r)
    ensures |r| > 1 ==> r[0] != '0'
  {
    if n < 10 then [DigitChar(n)]
    else NatToDecimal(n / 10) + [DigitChar(n % 10)]
  }

  /** The value of a string of ASCII digits, most significant first. */
  function DigitsValue(s: String): nat
    requires AllDigits(s)
  {
    if |s| == 0 then 0
    else DigitsValue(s[..|s| - 1]) * 10 + DigitValue(s[|s| - 1])
  }

  /**
   * `s.parse::<usize>()` as Rust's `FromStr` does it: an optional leading
   * `+`, then at least one ASCII digit and nothing else, and a value that
   * fits the type; anything else is an error (`None`).
   */
  function ParseUsize(s: String): (r: Option<nat>)
    ensures r.Some? ==> r.value <= UsizeMax
  {
    var digits := if |s| > 0 && s[0] == '+' then s[1..] else s;
    if |digits| == 0 || !AllDigits(digits) then None
    else
      var v := DigitsValue(digits);
      if v <= UsizeMax then Some(v) else None
  }

  lemma {:induction false} DigitsValueOfDecimal(n: nat)
    ensures DigitsValue(NatToDecimal(n)) == n
  {
    var r := NatToDecimal(n);
    if n < 10 {
      assert r[..0] == [];
    } else {
      DigitsValueOfDecimal(n / 10);
      assert r[..|r| - 1] == NatToDecimal(n / 10);
    }
  }

  /** Parsing reads back every rendered value that fits in a `usize`. */
  lemma DecimalRoundTrip(n: nat)
    requires n <= UsizeMax
    ensures ParseUsize(NatToDecimal(n)) == Some(n)
  {
    DigitsValueOfDecimal(n);
  }
}
