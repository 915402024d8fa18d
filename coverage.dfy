/**
 * Coverage of a file's lines by inclusive `(start, end)` ranges.
 *
 * The viewer, the store and the explorer each compute a chunking percentage
 * the same way: a `vec![false; total]` is marked over
 * `start ..= min(end, total - 1)` for every range, and the marked lines are
 * counted, so a line covered by several ranges counts once. `CountCovered`
 * is that loop; `CoveredBelow` is what it computes.
 */
module Coverage {
  import opened Paths

  /** An inclusive line range `(start, end)`. */
  type Range = (nat, nat)

  predicate InRange(r: Range, line: nat)
  {
    r.0 <= line <= r.1
  }

  /** Some range of `ranges` contains `line`. */
  predicate Covered(ranges: seq<Range>, line: nat)
  {
    exists k :: 0 <= k < |ranges| && InRange(ranges[k], line)
  }

  /** How many of the lines `0 .. n` are covered, each line counted once. */
  function CoveredBelow(ranges: seq<Range>, n: nat): (count: nat)
    ensures count <= n
  {
    if n == 0 then 0
    else CoveredBelow(ranges, n - 1) + (if Covered(ranges, n - 1) then 1 else 0)
  }

  /** `(covered / total) * 100`, computed exactly; 0 for an empty file. */
  function Percent(covered: nat, total: nat): real
  {
    if total == 0 then 0.0 else (covered as real / total as real) * 100.0
  }

  /**
   * The marking loop of the source: mark every line of every range (clamped
   * to the last line), then count the marks.
   */
  method CountCovered(ranges: seq<Range>, total: nat) returns (count: nat)
    requires total > 0
    ensures count == CoveredBelow(ranges, total)
  {
    var chunked := new bool[total](_ => false);
    var k := 0;
    while k < |ranges|
      invariant 0 <= k <= |ranges|
      invariant forall i :: 0 <= i < total ==> chunked[i] == Covered(ranges[..k], i)
    {
      var (start, end) := ranges[k];
      var last := Min(end, total - 1);
      var i := start;
      while i <= last
        invariant start <= i
        invariant i <= last + 1 || i == start
        invariant forall j :: 0 <= j < total ==>
          chunked[j] == (Covered(ranges[..k], j) || start <= j < i)
      {
        chunked[i] := true;
        i := i + 1;
      }
      forall j | 0 <= j < total
        ensures chunked[j] == Covered(ranges[..k + 1], j)
      {
        CoveredSnoc(ranges[..k], ranges[k], j);
        assert ranges[..k + 1] == ranges[..k] + [ranges[k]];
      }
      k := k + 1;
    }
    assert ranges[..k] == ranges;
    count := 0;
    var n := 0;
    while n < total
      invariant 0 <= n <= total
      invariant count == CoveredBelow(ranges, n)
    {
      if chunked[n] {
        count := count + 1;
      }
      n := n + 1;
    }
  }

  lemma CoveredSnoc(ranges: seq<Range>, r: Range, line: nat)
    ensures Covered(ranges + [r], line) <==> Covered(ranges, line) || InRange(r, line)
  {
    var rs := ranges + [r];
    if InRange(r, line) {
      assert rs[|ranges|] == r;
    }
    if Covered(ranges, line) {
      var k :| 0 <= k < |ranges| && InRange(ranges[k], line);
      assert rs[k] == ranges[k];
    }
    if Covered(rs, line) {
      var k :| 0 <= k < |rs| && InRange(rs[k], line);
      if k < |ranges| {
        assert rs[k] == ranges[k];
      }
    }
  }

  /** Lines `0 .. n` inside `r` that `ranges` does not already cover. */
  function NewlyCovered(ranges: seq<Range>, r: Range, n: nat): (count: nat)
    ensures count <= n
  {
    if n == 0 then 0
    else NewlyCovered(ranges, r, n - 1)
         + (if InRange(r, n - 1) && !Covered(ranges, n - 1) then 1 else 0)
  }

  /**
   * Adding a range raises the coverage by exactly the lines it newly covers:
   * coverage never decreases, and overlapping lines are not counted twice.
   */
  lemma {:induction false} CoverageAfterAdding(ranges: seq<Range>, r: Range, n: nat)
    ensures CoveredBelow(ranges + [r], n) == CoveredBelow(ranges, n) + NewlyCovered(ranges, r, n)
  {
    if n > 0 {
      CoverageAfterAdding(ranges, r, n - 1);
      CoveredSnoc(ranges, r, n - 1);
    }
  }

  /** Coverage is monotone: adding a range never lowers it. */
  lemma CoverageMonotone(ranges: seq<Range>, r: Range, n: nat)
    ensures CoveredBelow(ranges, n) <= CoveredBelow(ranges + [r], n)
  {
    CoverageAfterAdding(ranges, r, n);
  }

  /** A range whose lines are all already covered leaves the coverage as it was. */
  lemma {:induction false} RedundantRangeAddsNothing(ranges: seq<Range>, r: Range, n: nat)
    requires forall line: nat :: InRange(r, line) && line < n ==> Covered(ranges, line)
    ensures CoveredBelow(ranges + [r], n) == CoveredBelow(ranges, n)
  {
    CoverageAfterAdding(ranges, r, n);
    NoNewLines(ranges, r, n);
  }

  lemma {:induction false} NoNewLines(ranges: seq<Range>, r: Range, n: nat)
    requires forall line: nat :: InRange(r, line) && line < n ==> Covered(ranges, line)
    ensures NewlyCovered(ranges, r, n) == 0
  {
    if n > 0 {
      NoNewLines(ranges, r, n - 1);
    }
  }

  /** Coverage of lines `lo .. hi` when every one of them is covered. */
  lemma {:induction false} CoveredRun(ranges: seq<Range>, lo: nat, hi: nat)
    requires lo <= hi
    requires forall line: nat :: lo <= line < hi ==> Covered(ranges, line)
    ensures CoveredBelow(ranges, hi) == CoveredBelow(ranges, lo) + (hi - lo)
  {
    if lo < hi {
      CoveredRun(ranges, lo, hi - 1);
    }
  }

  /** Coverage of lines `lo .. hi` when none of them is covered. */
  lemma {:induction false} UncoveredRun(ranges: seq<Range>, lo: nat, hi: nat)
    requires lo <= hi
    requires forall line: nat :: lo <= line < hi ==> !Covered(ranges, line)
    ensures CoveredBelow(ranges, hi) == CoveredBelow(ranges, lo)
  {
    if lo < hi {
      UncoveredRun(ranges, lo, hi - 1);
    }
  }

  /** The percentage lies in `[0, 100]` and grows with the covered count. */
  lemma PercentBounds(covered: nat, more: nat, total: nat)
    requires covered <= more <= total
    ensures 0.0 <= Percent(covered, total) <= Percent(more, total) <= 100.0
  {
    if total > 0 {
      var t := total as real;
      var a := covered as real / t;
      var b := more as real / t;
      var c := 1.0 - b;
      assert a * t == covered as real && b * t == more as real;
      assert (b - a) * t == (more - covered) as real;
      NonNegativeFactor(b - a, t);
      assert c * t == (total - more) as real;
      NonNegativeFactor(c, t);
      NonNegativeFactor(a, t);
    }
  }

  /** A product that is not negative, with a positive factor, has a non-negative other factor. */
  lemma NonNegativeFactor(x: real, t: real)
    requires t > 0.0 && x * t >= 0.0
    ensures x >= 0.0
  {
    if x < 0.0 {
      assert false;
    }
  }

  /** The percentage is positive exactly when some line is covered. */
  lemma PercentPositive(covered: nat, total: nat)
    requires total > 0
    ensures Percent(covered, total) > 0.0 <==> covered > 0
  {
    var q := covered as real / total as real;
    if covered > 0 {
      assert q > 0.0;
    } else {
      assert q == 0.0;
    }
  }
}
