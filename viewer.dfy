/**
 * The text viewer: a file's working lines and the baseline they were read
 * as, a cursor and a scroll position, an optional selection anchor, and the
 * line ranges already saved as chunks. Viewer lines are 0-indexed; ranges are
 * inclusive `(start, end)` pairs in viewer lines.
 *
 * Reading the file is a parameter (the lines read, or `None` when reading
 * failed); the chunk store and its file system are the `ChunkStore` model.
 */
module TextViewer {
  import opened Paths
  import opened Decimal
  import opened Coverage
  import opened TokenBudget
  import opened ChunkStore

  /** The number of lines the navigation code assumes are on screen. */
  const ScrollMargin: nat := 20

  /** What `save_selection_as_chunk` appends to the chunk id when the selection overlaps a saved range. */
  const OverlapWarning: String := " (Warning: Overlaps with existing chunks)"

  /** The default of `max_tokens_per_chunk`. */
  const DefaultMaxTokens: nat := 8192

  datatype ViewerError =
    | NoSelection             // "No text selected"
    | InvalidRange            // "Invalid selection range"
    | NoFile                  // "No file opened"
    | CannotRead              // opening or reading the file failed
    | StoreFailed(cause: StoreError)

  /** How an operation that can panic ends: it returns a value, or it panics. */
  datatype Outcome<T> = Returned(value: T) | Panicked

  // ---------------------------------------------------------------------
  // Line numbering
  // ---------------------------------------------------------------------

  /** `to_storage_index`: a viewer line as the 1-indexed line a chunk stores. */
  function ToStorageIndex(viewerIndex: nat): (s: nat)
    ensures s >= 1
  {
    viewerIndex + 1
  }

  /** `to_viewer_index`: a stored line back as a viewer line, saturating at 0. */
  function ToViewerIndex(storageIndex: nat): (v: nat)
    ensures v <= storageIndex
    ensures storageIndex == 0 ==> v == 0
  {
    SatSub(storageIndex, 1)
  }

  /** The two numberings are inverse on every viewer line and every stored line from 1. */
  lemma IndexRoundTrip(n: nat)
    ensures ToViewerIndex(ToStorageIndex(n)) == n
    ensures n >= 1 ==> ToStorageIndex(ToViewerIndex(n)) == n
  {
  }

  /** The viewer ranges of the chunks `load_chunked_ranges` finds. */
  function ViewerRanges(chunks: seq<Chunk>): (r: seq<Range>)
    ensures |r| == |chunks|
    ensures forall i :: 0 <= i < |chunks| ==>
      r[i] == (ToViewerIndex(chunks[i].startLine), ToViewerIndex(chunks[i].endLine))
  {
    if |chunks| == 0 then []
    else ViewerRanges(chunks[..|chunks| - 1])
         + [(ToViewerIndex(chunks[|chunks| - 1].startLine), ToViewerIndex(chunks[|chunks| - 1].endLine))]
  }

  /**
   * A chunk saved from viewer lines `start ..= end` of a file comes back as
   * the range `(start, end)` the next time the file's ranges are loaded,
   * after those of the chunks saved before it.
   */
  lemma SavedRangeReloads(chunks: seq<Chunk>, c: Chunk, path: Path, start: nat, end: nat)
    requires c.filePath == path && c.startLine == ToStorageIndex(start) && c.endLine == ToStorageIndex(end)
    ensures ViewerRanges(FilterByFile(chunks + [c], path))
         == ViewerRanges(FilterByFile(chunks, path)) + [(start, end)]
  {
    FilterConcat(chunks, [c], path);
    assert FilterByFile([c], path) == [c] by {
      assert [c][1..] == [];
    }
    var before := FilterByFile(chunks, path);
    assert (before + [c])[..|before + [c]| - 1] == before;
  }

  // ---------------------------------------------------------------------
  // Overlap and membership
  // ---------------------------------------------------------------------

  /** The test of `check_chunk_overlap`: `r` and `[a, b]` are not disjoint. */
  predicate Intersects(r: Range, a: nat, b: nat)
  {
    !(b < r.0 || a > r.1)
  }

  /** Some range of `ranges` intersects `[a, b]`. */
  predicate AnyOverlap(ranges: seq<Range>, a: nat, b: nat)
  {
    exists k :: 0 <= k < |ranges| && Intersects(ranges[k], a, b)
  }

  /** For ordered intervals the test means exactly that the two share a line. */
  lemma IntersectsIffSharedLine(r: Range, a: nat, b: nat)
    requires a <= b && r.0 <= r.1
    ensures Intersects(r, a, b) <==> exists line: nat :: a <= line <= b && InRange(r, line)
  {
    if Intersects(r, a, b) {
      var line: nat := Max(a, r.0);
      assert a <= line <= b && InRange(r, line);
    }
  }

  /** Overlap with a one-line selection is membership of that line. */
  lemma OverlapOfOneLine(ranges: seq<Range>, line: nat)
    ensures AnyOverlap(ranges, line, line) <==> Covered(ranges, line)
  {
    if AnyOverlap(ranges, line, line) {
      var k :| 0 <= k < |ranges| && Intersects(ranges[k], line, line);
      assert InRange(ranges[k], line);
    }
    if Covered(ranges, line) {
      var k :| 0 <= k < |ranges| && InRange(ranges[k], line);
      assert Intersects(ranges[k], line, line);
    }
  }

  /** The chunking percentage is positive exactly when some line of the file is chunked. */
  lemma {:induction false} SomeLineChunked(ranges: seq<Range>, n: nat)
    ensures CoveredBelow(ranges, n) > 0 <==> exists line: nat :: line < n && Covered(ranges, line)
  {
    if n > 0 {
      SomeLineChunked(ranges, n - 1);
      if Covered(ranges, n - 1) {
        var line: nat := n - 1;
        assert line < n && Covered(ranges, line);
      }
      if exists line: nat :: line < n && Covered(ranges, line) {
        var line: nat :| line < n && Covered(ranges, line);
        if line < n - 1 {
          assert exists l: nat :: l < n - 1 && Covered(ranges, l);
        }
      }
    }
  }

  // ---------------------------------------------------------------------
  // Editing a selection
  // ---------------------------------------------------------------------

  /** `content.splice(start..=end, edited)`. */
  function Splice(content: seq<String>, start: nat, end: nat, edited: seq<String>): (r: seq<String>)
    requires start <= end < |content|
    ensures |r| == |content| - (end - start + 1) + |edited|
    ensures r[..start] == content[..start]
    ensures r[start..start + |edited|] == edited
    ensures r[start + |edited|..] == content[end + 1..]
  {
    content[..start] + edited + content[end + 1..]
  }

  /** The zip-and-compare of the source: the lengths differ or some pair of lines differs. */
  predicate Differs(before: seq<String>, after: seq<String>)
  {
    |before| != |after| || exists i :: 0 <= i < |before| && i < |after| && before[i] != after[i]
  }

  lemma DiffersIffUnequal(before: seq<String>, after: seq<String>)
    ensures Differs(before, after) <==> before != after
  {
    if !Differs(before, after) {
      assert forall i :: 0 <= i < |before| ==> before[i] == after[i];
      assert before == after;
    }
  }

  /**
   * `has_edited_content` as written: `None` where slicing the baseline at
   * `start ..= end` panics, which happens when the baseline is shorter than
   * the working lines the selection was checked against.
   */
  function EditedFlagAsWritten(original: seq<String>, start: nat, end: nat, edited: seq<String>): (r: Option<bool>)
    requires start <= end
    ensures r.None? <==> end >= |original|
    ensures r.Some? ==> (r.value <==> original[start..end + 1] != edited)
  {
    if end < |original| then
      DiffersIffUnequal(original[start..end + 1], edited);
      Some(Differs(original[start..end + 1], edited))
    else None
  }

  /** `has_edited_content` as intended: selected lines past the baseline count as edited. */
  function EditedFlag(original: seq<String>, start: nat, end: nat, edited: seq<String>): (r: bool)
    requires start <= end
    ensures end < |original| ==> (r <==> original[start..end + 1] != edited)
    ensures end >= |original| ==> r
  {
    if end < |original| then
      DiffersIffUnequal(original[start..end + 1], edited);
      Differs(original[start..end + 1], edited)
    else true
  }

  /** The two agree wherever the source does not panic. */
  lemma EditedFlagAgrees(original: seq<String>, start: nat, end: nat, edited: seq<String>)
    requires start <= end < |original|
    ensures EditedFlagAsWritten(original, start, end, edited) == Some(EditedFlag(original, start, end, edited))
  {
  }

  /**
   * A file of one line whose line is replaced by three: the working lines
   * now have three lines, a selection of lines 1 ..= 2 passes the bounds
   * check, and the baseline slice of the source is out of bounds.
   */
  lemma GrowingEditThenBaselinePanics()
    ensures Splice(["a"], 0, 0, ["x", "y", "z"]) == ["x", "y", "z"]
    ensures EditedFlagAsWritten(["a"], 1, 2, ["q"]) == None
    ensures EditedFlag(["a"], 1, 2, ["q"])
  {
    assert ["a"][..0] + ["x", "y", "z"] + ["a"][1..] == ["x", "y", "z"];
  }

  /** `line_diff` applied to one end of a range, through `as isize` and back `as usize`. */
  function ShiftEnd(x: nat, start: nat, end: nat, newLen: nat): nat
    requires start <= end
  {
    WrapUsize(x + newLen - (end - start + 1))
  }

  function Shifted(r: Range, start: nat, end: nat, newLen: nat): Range
    requires start <= end
  {
    (ShiftEnd(r.0, start, end, newLen), ShiftEnd(r.1, start, end, newLen))
  }

  /** What becomes of one range when lines `start ..= end` are replaced by `newLen` lines. */
  function RepairOne(r: Range, start: nat, end: nat, newLen: nat): seq<Range>
    requires start <= end
  {
    if r.0 > end then [Shifted(r, start, end, newLen)]
    else if r.1 >= start then []
    else [r]
  }

  /** The range repair as intended: later ranges shift, ranges touching the edit go, earlier ranges stay. */
  function RepairRanges(ranges: seq<Range>, start: nat, end: nat, newLen: nat): (r: seq<Range>)
    requires start <= end
    ensures |r| <= |ranges|
  {
    if |ranges| == 0 then []
    else RepairRanges(ranges[..|ranges| - 1], start, end, newLen)
         + RepairOne(ranges[|ranges| - 1], start, end, newLen)
  }

  /** What the repair makes of each range is in its result: later ranges shifted, earlier ones as they were. */
  lemma {:induction false} RepairKeeps(ranges: seq<Range>, start: nat, end: nat, newLen: nat, k: nat)
    requires start <= end && k < |ranges|
    ensures forall x :: x in RepairOne(ranges[k], start, end, newLen) ==> x in RepairRanges(ranges, start, end, newLen)
  {
    var init := ranges[..|ranges| - 1];
    if k < |ranges| - 1 {
      RepairKeeps(init, start, end, newLen, k);
      assert init[k] == ranges[k];
    }
  }

  /** Nothing else is in the result: every range in it comes from one range of the input. */
  lemma {:induction false} RepairSound(ranges: seq<Range>, start: nat, end: nat, newLen: nat, x: Range)
    requires start <= end
    requires x in RepairRanges(ranges, start, end, newLen)
    ensures exists k :: 0 <= k < |ranges| && x in RepairOne(ranges[k], start, end, newLen)
  {
    var init := ranges[..|ranges| - 1];
    var last := |ranges| - 1;
    if x in RepairRanges(init, start, end, newLen) {
      RepairSound(init, start, end, newLen, x);
      var k :| 0 <= k < |init| && x in RepairOne(init[k], start, end, newLen);
      assert ranges[k] == init[k];
    } else {
      assert x in RepairOne(ranges[last], start, end, newLen);
    }
  }

  /**
   * A range after the edit, shifted, still shows the lines it showed before
   * the edit.
   */
  lemma ShiftedRangeKeepsLines(content: seq<String>, start: nat, end: nat, edited: seq<String>, r: Range)
    requires start <= end < r.0 <= r.1 < |content|
    requires |content| + |edited| <= UsizeMax
    ensures var s := Shifted(r, start, end, |edited|);
      var after := Splice(content, start, end, edited);
      s.0 <= s.1 < |after| && after[s.0..s.1 + 1] == content[r.0..r.1 + 1]
  {
    var after := Splice(content, start, end, edited);
    var s := Shifted(r, start, end, |edited|);
    var d := start + |edited|;
    assert s.0 == r.0 - (end + 1) + d && s.1 == r.1 - (end + 1) + d;
    assert after[d..] == content[end + 1..];
    assert after[s.0..s.1 + 1] == after[d..][r.0 - (end + 1)..r.1 - end];
  }

  /** A range before the edit still shows the lines it showed. */
  lemma EarlierRangeKeepsLines(content: seq<String>, start: nat, end: nat, edited: seq<String>, r: Range)
    requires r.0 <= r.1 < start <= end < |content|
    ensures var after := Splice(content, start, end, edited);
      r.1 < |after| && after[r.0..r.1 + 1] == content[r.0..r.1 + 1]
  {
    var after := Splice(content, start, end, edited);
    assert after[..start] == content[..start];
    assert after[r.0..r.1 + 1] == after[..start][r.0..r.1 + 1];
  }

  /** Every range after the marking step of the source: `(0, 0)` marks a range for removal. */
  function MarkAsWritten(r: Range, start: nat, end: nat, newLen: nat): Range
    requires start <= end
  {
    if r.0 > end then Shifted(r, start, end, newLen)
    else if r.1 >= start then (0, 0)
    else r
  }

  /** `retain(|&range| range != (0, 0))`. */
  function RemoveSentinels(ranges: seq<Range>): (r: seq<Range>)
    ensures (0, 0) !in r
    ensures forall x :: x in r ==> x in ranges
  {
    if |ranges| == 0 then []
    else RemoveSentinels(ranges[..|ranges| - 1])
         + (if ranges[|ranges| - 1] == (0, 0) then [] else [ranges[|ranges| - 1]])
  }

  /** The range repair as written: mark, then drop every `(0, 0)`. */
  function RepairRangesAsWritten(ranges: seq<Range>, start: nat, end: nat, newLen: nat): (r: seq<Range>)
    requires start <= end
    ensures (0, 0) !in r
  {
    if |ranges| == 0 then []
    else
      var m := MarkAsWritten(ranges[|ranges| - 1], start, end, newLen);
      RepairRangesAsWritten(ranges[..|ranges| - 1], start, end, newLen)
      + (if m == (0, 0) then [] else [m])
  }

  lemma {:induction false} RemoveSentinelsConcat(a: seq<Range>, b: seq<Range>)
    ensures RemoveSentinels(a + b) == RemoveSentinels(a) + RemoveSentinels(b)
    decreases |b|
  {
    if |b| == 0 {
      assert a + b == a;
    } else {
      var ab := a + b;
      assert ab[..|ab| - 1] == a + b[..|b| - 1];
      assert ab[|ab| - 1] == b[|b| - 1];
      RemoveSentinelsConcat(a, b[..|b| - 1]);
    }
  }

  /** The source's repair is the intended one with every `(0, 0)` range dropped as well. */
  lemma {:induction false} AsWrittenDropsSentinels(ranges: seq<Range>, start: nat, end: nat, newLen: nat)
    requires start <= end
    ensures RepairRangesAsWritten(ranges, start, end, newLen)
         == RemoveSentinels(RepairRanges(ranges, start, end, newLen))
  {
    if |ranges| > 0 {
      var init := ranges[..|ranges| - 1];
      var last := ranges[|ranges| - 1];
      AsWrittenDropsSentinels(init, start, end, newLen);
      RemoveSentinelsConcat(RepairRanges(init, start, end, newLen), RepairOne(last, start, end, newLen));
      MarkedOne(last, start, end, newLen);
    }
  }

  /** On one range, marking and dropping `(0, 0)` is the intended repair with `(0, 0)` dropped. */
  lemma MarkedOne(x: Range, start: nat, end: nat, newLen: nat)
    requires start <= end
    ensures var m := MarkAsWritten(x, start, end, newLen);
      RemoveSentinels(RepairOne(x, start, end, newLen)) == (if m == (0, 0) then [] else [m])
  {
    var one := RepairOne(x, start, end, newLen);
    if |one| == 1 {
      assert one[..0] == [];
    }
  }

  /**
   * A chunk of the first line alone, `(0, 0)`, lies before an edit that
   * grows line 5 into two lines: it should be kept, but the source drops it.
   */
  lemma SentinelDropsFirstLineChunk()
    ensures RepairRangesAsWritten([(0, 0), (10, 12)], 5, 5, 2) == [(11, 13)]
    ensures RepairRanges([(0, 0), (10, 12)], 5, 5, 2) == [(0, 0), (11, 13)]
  {
    var rs: seq<Range> := [(0, 0), (10, 12)];
    assert rs[..1] == [(0, 0)];
    assert rs[..1][..0] == [];
    assert Shifted((10, 12), 5, 5, 2) == (11, 13);
  }

  /** Cursor and scroll after an edit, as written: only the cursor is clamped to the new length. */
  function ClampAfterEditAsWritten(cursor: nat, scroll: nat, newLen: nat): (r: (nat, nat))
    ensures r.1 == scroll
    ensures newLen > 0 ==> r.0 < newLen
  {
    (if cursor >= newLen then SatSub(newLen, 1) else cursor, scroll)
  }

  /** As intended: the scroll position is clamped the same way, so it stays on screen. */
  function ClampAfterEdit(cursor: nat, scroll: nat, newLen: nat): (r: (nat, nat))
    ensures scroll <= cursor ==> r.1 <= r.0
    ensures r.0 <= cursor && r.1 <= scroll
    ensures newLen > 0 ==> r.0 < newLen && r.1 < newLen
    ensures newLen == 0 ==> r == (0, 0)
    ensures cursor < newLen && scroll < newLen ==> r == (cursor, scroll)
  {
    (if cursor >= newLen then SatSub(newLen, 1) else cursor,
     if scroll >= newLen then SatSub(newLen, 1) else scroll)
  }

  /**
   * Fifty lines, cursor on line 45 and scroll at line 40; lines 10 ..= 45
   * are replaced by one line, leaving 15. The source keeps the scroll at 40,
   * past the last line, so the slice in `visible_content` starts after it
   * ends.
   */
  lemma ScrollPastEndAfterShrinkingEdit()
    ensures |Splice(seq(50, _ => "l"), 10, 45, ["e"])| == 15
    ensures ClampAfterEditAsWritten(45, 40, 15) == (14, 40)
    ensures ClampAfterEditAsWritten(45, 40, 15).1 > Min(40 + ScrollMargin, 15)
    ensures ClampAfterEdit(45, 40, 15) == (14, 14)
  {
  }

  /** The saved ranges after the marking loop of `update_selected_content`, each one marked in place. */
  function MarkAll(ranges: seq<Range>, start: nat, end: nat, newLen: nat): (r: seq<Range>)
    requires start <= end
    ensures |r| == |ranges|
    ensures forall i :: 0 <= i < |r| ==> r[i] == MarkAsWritten(ranges[i], start, end, newLen)
  {
    seq(|ranges|, i requires 0 <= i < |ranges| => MarkAsWritten(ranges[i], start, end, newLen))
  }

  /** Marking every range and then dropping every `(0, 0)` is the repair as written. */
  lemma {:induction false} MarkThenRetain(ranges: seq<Range>, start: nat, end: nat, newLen: nat)
    requires start <= end
    ensures RemoveSentinels(MarkAll(ranges, start, end, newLen)) == RepairRangesAsWritten(ranges, start, end, newLen)
  {
    if |ranges| > 0 {
      var init := ranges[..|ranges| - 1];
      var marked := MarkAll(ranges, start, end, newLen);
      assert marked[..|marked| - 1] == MarkAll(init, start, end, newLen);
      MarkThenRetain(init, start, end, newLen);
    }
  }

  // ---------------------------------------------------------------------
  // The viewer
  // ---------------------------------------------------------------------

  class Viewer {
    var filePath: Option<Path>
    var content: seq<String>
    var originalContent: seq<String>
    var scrollPosition: nat
    var selectionMode: bool
    var selectionStart: Option<nat>
    var cursorPosition: nat
    var chunkedRanges: seq<Range>
    var hasEditedContent: bool
    var totalTokens: nat
    var tokensPerLine: seq<nat>
    var maxTokensPerChunk: nat
    /** The tokenizer behind `count_tokens`. */
    const countTokens: Tokenizer

    /** The selection flag mirrors the anchor: what every operation keeps. */
    predicate Valid()
      reads this
    {
      selectionMode == selectionStart.Some?
    }

    /**
     * The cursor is on a line of the file with the scroll position at or
     * above it (both 0 when the file is empty). Opening a file settles the
     * view and navigation keeps it settled; an edit that shrinks the file
     * can leave the scroll position past the end.
     */
    predicate Settled()
      reads this
    {
      (|content| == 0 ==> cursorPosition == 0 && scrollPosition == 0)
      && (|content| > 0 ==> scrollPosition <= cursorPosition < |content|)
    }

    /** Everything but the cursor and the scroll position is as it was. */
    twostate predicate OnlyMoved()
      reads this
    {
      filePath == old(filePath) && content == old(content)
      && originalContent == old(originalContent) && selectionMode == old(selectionMode)
      && selectionStart == old(selectionStart) && chunkedRanges == old(chunkedRanges)
      && hasEditedContent == old(hasEditedContent) && totalTokens == old(totalTokens)
      && tokensPerLine == old(tokensPerLine) && maxTokensPerChunk == old(maxTokensPerChunk)
    }

    /** Everything but the saved ranges is as it was. */
    twostate predicate OnlyRangesChanged()
      reads this
    {
      filePath == old(filePath) && content == old(content)
      && originalContent == old(originalContent) && selectionMode == old(selectionMode)
      && selectionStart == old(selectionStart) && hasEditedContent == old(hasEditedContent)
      && totalTokens == old(totalTokens) && tokensPerLine == old(tokensPerLine)
      && maxTokensPerChunk == old(maxTokensPerChunk)
      && cursorPosition == old(cursorPosition) && scrollPosition == old(scrollPosition)
    }

    /** `Viewer::new`. */
    constructor(countTokens: Tokenizer)
      ensures Valid()
      ensures filePath == None && content == [] && originalContent == []
      ensures scrollPosition == 0 && cursorPosition == 0
      ensures !selectionMode && selectionStart == None
      ensures chunkedRanges == [] && !hasEditedContent
      ensures totalTokens == 0 && tokensPerLine == []
      ensures maxTokensPerChunk == DefaultMaxTokens
      ensures this.countTokens == countTokens
    {
      filePath := None;
      content := [];
      originalContent := [];
      scrollPosition := 0;
      selectionMode := false;
      selectionStart := None;
      cursorPosition := 0;
      chunkedRanges := [];
      hasEditedContent := false;
      totalTokens := 0;
      tokensPerLine := [];
      maxTokensPerChunk := DefaultMaxTokens;
      this.countTokens := countTokens;
    }

    method SetMaxTokensPerChunk(maxTokens: nat)
      modifies this
      ensures maxTokensPerChunk == maxTokens
      ensures filePath == old(filePath) && content == old(content)
      ensures originalContent == old(originalContent) && selectionMode == old(selectionMode)
      ensures selectionStart == old(selectionStart) && chunkedRanges == old(chunkedRanges)
      ensures hasEditedContent == old(hasEditedContent) && totalTokens == old(totalTokens)
      ensures tokensPerLine == old(tokensPerLine)
      ensures cursorPosition == old(cursorPosition) && scrollPosition == old(scrollPosition)
    {
      maxTokensPerChunk := maxTokens;
    }

    /**
     * `open_file`: on a successful read every field is reset to the new
     * file and the token counts are recomputed; on a failed read nothing
     * changes.
     */
    method OpenFile(path: Path, read: Option<seq<String>>) returns (r: Result<(), ViewerError>)
      modifies this
      ensures read.None? ==> r == Err(CannotRead) && unchanged(this)
      ensures read.Some? ==> r.Ok? && Valid() && Settled()
      ensures read.Some? ==> filePath == Some(path) && content == read.value && originalContent == read.value
      ensures read.Some? ==> scrollPosition == 0 && cursorPosition == 0
      ensures read.Some? ==> !selectionMode && selectionStart == None
      ensures read.Some? ==> chunkedRanges == [] && !hasEditedContent
      ensures read.Some? ==> totalTokens == CountTokensInLines(countTokens, content)
      ensures read.Some? ==> tokensPerLine == CountTokensPerLine(countTokens, content)
      ensures maxTokensPerChunk == old(maxTokensPerChunk)
    {
      if read.None? {
        return Err(CannotRead);
      }
      filePath := Some(path);
      content := read.value;
      originalContent := read.value;
      scrollPosition := 0;
      cursorPosition := 0;
      selectionMode := false;
      selectionStart := None;
      chunkedRanges := [];
      hasEditedContent := false;
      UpdateTokenCounts();
      r := Ok(());
    }

    /** `update_token_counts`: the whole-file count and one count per line. */
    method UpdateTokenCounts()
      modifies this
      ensures totalTokens == CountTokensInLines(countTokens, content)
      ensures tokensPerLine == CountTokensPerLine(countTokens, content)
      ensures filePath == old(filePath) && content == old(content)
      ensures originalContent == old(originalContent) && selectionMode == old(selectionMode)
      ensures selectionStart == old(selectionStart) && chunkedRanges == old(chunkedRanges)
      ensures hasEditedContent == old(hasEditedContent) && maxTokensPerChunk == old(maxTokensPerChunk)
      ensures cursorPosition == old(cursorPosition) && scrollPosition == old(scrollPosition)
    {
      totalTokens := CountTokensInLines(countTokens, content);
      var lines := content;
      var counts: seq<nat> := [];
      var i := 0;
      while i < |lines|
        invariant 0 <= i <= |lines|
        invariant |counts| == i
        invariant forall j :: 0 <= j < i ==> counts[j] == countTokens(lines[j])
      {
        counts := counts + [countTokens(lines[i])];
        i := i + 1;
      }
      tokensPerLine := counts;
    }

    /** `toggle_selection_mode`: anchor at the cursor, or drop the anchor; nothing on an empty file. */
    method ToggleSelectionMode()
      modifies this
      requires Valid()
      ensures Valid()
      ensures |content| == 0 ==> selectionStart == old(selectionStart)
      ensures |content| > 0 && old(selectionStart).None? ==> selectionStart == Some(cursorPosition)
      ensures |content| > 0 && old(selectionStart).Some? ==> selectionStart == None
      ensures cursorPosition == old(cursorPosition) && scrollPosition == old(scrollPosition)
      ensures filePath == old(filePath) && content == old(content)
      ensures originalContent == old(originalContent) && chunkedRanges == old(chunkedRanges)
      ensures hasEditedContent == old(hasEditedContent) && totalTokens == old(totalTokens)
      ensures tokensPerLine == old(tokensPerLine) && maxTokensPerChunk == old(maxTokensPerChunk)
    {
      if |content| > 0 {
        if !selectionMode {
          selectionMode := true;
          selectionStart := Some(cursorPosition);
        } else {
          selectionMode := false;
          selectionStart := None;
        }
      }
    }

    /** `clear_selection`. */
    method ClearSelection()
      modifies this
      requires Valid()
      ensures Valid()
      ensures !selectionMode && selectionStart == None
      ensures cursorPosition == old(cursorPosition) && scrollPosition == old(scrollPosition)
      ensures filePath == old(filePath) && content == old(content)
      ensures originalContent == old(originalContent) && chunkedRanges == old(chunkedRanges)
      ensures hasEditedContent == old(hasEditedContent) && totalTokens == old(totalTokens)
      ensures tokensPerLine == old(tokensPerLine) && maxTokensPerChunk == old(maxTokensPerChunk)
    {
      selectionMode := false;
      selectionStart := None;
    }

    /** `selection_range`: anchor and cursor, smaller first; `None` without an anchor. */
    function SelectionRange(): (r: Option<Range>)
      reads this
      ensures r.None? <==> selectionStart.None?
      ensures r.Some? ==> r.value.0 <= r.value.1
      ensures r.Some? ==> {r.value.0, r.value.1} == {selectionStart.value, cursorPosition}
    {
      match selectionStart
      case None => None
      case Some(start) =>
        if start <= cursorPosition then Some((start, cursorPosition)) else Some((cursorPosition, start))
    }

    /** `selection_token_count`: 0 when the selection runs past the file. */
    function SelectionTokenCount(): (r: Option<nat>)
      reads this
      ensures r.None? <==> selectionStart.None?
      ensures r.Some? && SelectionRange().value.1 >= |content| ==> r.value == 0
      ensures r.Some? && SelectionRange().value.1 < |content| ==>
        r.value == countTokens(JoinLines(content[SelectionRange().value.0..SelectionRange().value.1 + 1]))
    {
      match SelectionRange()
      case None => None
      case Some(range) =>
        if range.0 >= |content| || range.1 >= |content| then Some(0)
        else Some(CountTokensInLines(countTokens, content[range.0..range.1 + 1]))
    }

    /** `cursor_up`: saturates at the first line; the view follows the cursor up. */
    method CursorUp()
      modifies this
      requires Valid()
      ensures Valid() && OnlyMoved()
      ensures old(Settled()) ==> Settled()
      ensures cursorPosition == SatSub(old(cursorPosition), 1)
      ensures scrollPosition == Min(old(scrollPosition), cursorPosition)
    {
      cursorPosition := SatSub(cursorPosition, 1);
      if cursorPosition < scrollPosition {
        scrollPosition := cursorPosition;
      }
    }

    /** `cursor_down`: stops at the last line; the view follows once the cursor is 20 lines below its top. */
    method CursorDown()
      modifies this
      requires Valid()
      ensures Valid() && OnlyMoved()
      ensures old(Settled()) ==> Settled()
      ensures |content| == 0 ==> cursorPosition == old(cursorPosition) && scrollPosition == old(scrollPosition)
      ensures |content| > 0 ==> cursorPosition == Min(old(cursorPosition) + 1, |content| - 1)
      ensures |content| > 0 && cursorPosition >= old(scrollPosition) + ScrollMargin ==>
        scrollPosition == cursorPosition - (ScrollMargin - 1)
      ensures |content| > 0 && cursorPosition < old(scrollPosition) + ScrollMargin ==>
        scrollPosition == old(scrollPosition)
    {
      if |content| > 0 {
        cursorPosition := Min(cursorPosition + 1, SatSub(|content|, 1));
        if cursorPosition >= scrollPosition + ScrollMargin {
          scrollPosition := Min(cursorPosition - (ScrollMargin - 1), SatSub(|content|, 1));
        }
      }
    }

    /** `scroll_up`: saturates at 0; the cursor moves up one line only when it is more than 20 lines below the view. */
    method ScrollUp()
      modifies this
      requires Valid()
      ensures Valid() && OnlyMoved()
      ensures old(Settled()) ==> Settled()
      ensures scrollPosition == SatSub(old(scrollPosition), 1)
      ensures old(cursorPosition) > scrollPosition + ScrollMargin ==> cursorPosition == old(cursorPosition) - 1
      ensures old(cursorPosition) <= scrollPosition + ScrollMargin ==> cursorPosition == old(cursorPosition)
    {
      scrollPosition := SatSub(scrollPosition, 1);
      if cursorPosition > scrollPosition + ScrollMargin {
        cursorPosition := SatSub(cursorPosition, 1);
      }
    }

    /** `scroll_down`: stops at the last line; the cursor is pulled down to the view. */
    method ScrollDown()
      modifies this
      requires Valid()
      ensures Valid() && OnlyMoved()
      ensures old(Settled()) ==> Settled()
      ensures |content| == 0 ==> cursorPosition == old(cursorPosition) && scrollPosition == old(scrollPosition)
      ensures |content| > 0 ==> scrollPosition == Min(old(scrollPosition) + 1, |content| - 1)
      ensures |content| > 0 ==> cursorPosition == Max(old(cursorPosition), scrollPosition)
    {
      if |content| > 0 {
        scrollPosition := Min(scrollPosition + 1, SatSub(|content|, 1));
        if cursorPosition < scrollPosition {
          cursorPosition := scrollPosition;
        }
      }
    }

    /** `scroll_page_up`: the view moves up by up to a page and the cursor by as much, never above the view. */
    method ScrollPageUp(pageSize: nat)
      modifies this
      requires Valid()
      ensures Valid() && OnlyMoved()
      ensures old(Settled()) ==> Settled()
      ensures scrollPosition == SatSub(old(scrollPosition), pageSize)
      ensures cursorPosition == Max(SatSub(old(cursorPosition), old(scrollPosition) - scrollPosition), scrollPosition)
    {
      var oldPosition := scrollPosition;
      scrollPosition := SatSub(scrollPosition, pageSize);
      var scrollDelta := oldPosition - scrollPosition;
      cursorPosition := Max(SatSub(cursorPosition, scrollDelta), scrollPosition);
    }

    /**
     * `scroll_page_down`: the view moves down by up to a page, stopping at
     * the last line, and the cursor by as much. The distance moved is a
     * `usize` subtraction, which underflows (a panic) when the view already
     * sits past the last line, as an edit that shrinks the file can leave it.
     */
    method ScrollPageDown(pageSize: nat) returns (r: Outcome<()>)
      modifies this
      requires Valid()
      ensures Valid() && OnlyMoved()
      ensures old(Settled()) ==> Settled() && r.Returned?
      ensures r.Panicked? <==> |content| > 0 && old(scrollPosition) >= |content|
      ensures |content| == 0 ==> cursorPosition == old(cursorPosition) && scrollPosition == old(scrollPosition)
      ensures r.Returned? && |content| > 0 ==> scrollPosition == Min(old(scrollPosition) + pageSize, |content| - 1)
      ensures r.Returned? && scrollPosition > old(scrollPosition) ==>
        cursorPosition == Min(old(cursorPosition) + (scrollPosition - old(scrollPosition)), |content| - 1)
      ensures r.Returned? && scrollPosition == old(scrollPosition) ==> cursorPosition == old(cursorPosition)
    {
      if |content| > 0 {
        var oldPosition := scrollPosition;
        scrollPosition := Min(scrollPosition + pageSize, SatSub(|content|, 1));
        if scrollPosition < oldPosition {
          return Panicked;
        }
        var scrollDelta := scrollPosition - oldPosition;
        if scrollDelta > 0 {
          cursorPosition := Min(cursorPosition + scrollDelta, SatSub(|content|, 1));
        }
      }
      r := Returned(());
    }

    /** `scroll_to_top`. */
    method ScrollToTop()
      modifies this
      requires Valid()
      ensures Valid() && OnlyMoved()
      ensures old(Settled()) ==> Settled()
      ensures scrollPosition == 0 && cursorPosition == 0
    {
      scrollPosition := 0;
      cursorPosition := 0;
    }

    /** `scroll_to_bottom`: both on the last line; nothing on an empty file. */
    method ScrollToBottom()
      modifies this
      requires Valid()
      ensures Valid() && OnlyMoved()
      ensures old(Settled()) ==> Settled()
      ensures |content| == 0 ==> cursorPosition == old(cursorPosition) && scrollPosition == old(scrollPosition)
      ensures |content| > 0 ==> scrollPosition == |content| - 1 && cursorPosition == |content| - 1
    {
      if |content| > 0 {
        scrollPosition := |content| - 1;
        cursorPosition := |content| - 1;
      }
    }

    /** `scroll_to_position`: the view jumps (clamped to the last line) and the cursor is kept within 20 lines of it. */
    method ScrollToPosition(position: nat)
      modifies this
      requires Valid()
      ensures Valid() && OnlyMoved()
      ensures old(Settled()) ==> Settled()
      ensures |content| == 0 ==> cursorPosition == old(cursorPosition) && scrollPosition == old(scrollPosition)
      ensures |content| > 0 ==> scrollPosition == Min(position, |content| - 1)
      ensures |content| > 0 ==>
        cursorPosition == Min(Max(old(cursorPosition), scrollPosition), scrollPosition + ScrollMargin)
    {
      if |content| > 0 {
        scrollPosition := Min(position, |content| - 1);
        if cursorPosition < scrollPosition {
          cursorPosition := scrollPosition;
        } else if cursorPosition > scrollPosition + ScrollMargin {
          cursorPosition := scrollPosition + ScrollMargin;
        }
      }
    }

    /**
     * `visible_content(height)`: up to `height` lines from the top of the
     * view. The slice panics when the view starts past the end of the file;
     * a settled view never does.
     */
    function VisibleContent(height: nat): (r: Outcome<seq<String>>)
      reads this
      ensures r.Panicked? <==> |content| > 0 && scrollPosition > |content|
      ensures Settled() ==> r.Returned?
      ensures |content| == 0 ==> r == Returned([])
      ensures r.Returned? && |content| > 0 ==> |r.value| == Min(height, |content| - scrollPosition)
      ensures r.Returned? ==> forall i :: 0 <= i < |r.value| ==> r.value[i] == content[scrollPosition + i]
    {
      if |content| == 0 then Returned([])
      else if scrollPosition > Min(scrollPosition + height, |content|) then Panicked
      else Returned(content[scrollPosition..Min(scrollPosition + height, |content|)])
    }

    /** `check_chunk_overlap(a, b)`: whether some saved range intersects `[a, b]`. */
    method CheckChunkOverlap(startLine: nat, endLine: nat) returns (overlap: bool)
      ensures overlap == AnyOverlap(chunkedRanges, startLine, endLine)
    {
      var k := 0;
      while k < |chunkedRanges|
        invariant 0 <= k <= |chunkedRanges|
        invariant forall j :: 0 <= j < k ==> !Intersects(chunkedRanges[j], startLine, endLine)
      {
        var (chunkStart, chunkEnd) := chunkedRanges[k];
        if !(endLine < chunkStart || startLine > chunkEnd) {
          assert Intersects(chunkedRanges[k], startLine, endLine);
          return true;
        }
        k := k + 1;
      }
      return false;
    }

    /**
     * `is_line_chunked`: some saved range contains the line. It is the
     * overlap test on a one-line selection, and exactly the lines it holds
     * for add one to the chunked count.
     */
    function IsLineChunked(line: nat): (r: bool)
      reads this
      ensures r <==> AnyOverlap(chunkedRanges, line, line)
      ensures r <==> CoveredBelow(chunkedRanges, line + 1) == CoveredBelow(chunkedRanges, line) + 1
    {
      OverlapOfOneLine(chunkedRanges, line);
      Covered(chunkedRanges, line)
    }

    /**
     * `chunking_percentage`: 0 for an empty file, otherwise the share of
     * lines inside some saved range, each line counted once.
     */
    method ChunkingPercentage() returns (p: real)
      ensures p == Percent(CoveredBelow(chunkedRanges, |content|), |content|)
      ensures 0.0 <= p <= 100.0
      ensures p > 0.0 <==> exists line: nat :: line < |content| && IsLineChunked(line)
    {
      if |content| == 0 {
        return 0.0;
      }
      var count := CountCovered(chunkedRanges, |content|);
      p := Percent(count, |content|);
      PercentBounds(0, count, |content|);
      PercentPositive(count, |content|);
      SomeLineChunked(chunkedRanges, |content|);
      if count > 0 {
        var line: nat :| line < |content| && Covered(chunkedRanges, line);
        assert IsLineChunked(line);
      }
      if exists line: nat :: line < |content| && IsLineChunked(line) {
        var line: nat :| line < |content| && IsLineChunked(line);
        assert Covered(chunkedRanges, line);
      }
    }

    /**
     * `load_chunked_ranges`: with a file open, the saved ranges become
     * those of the store's chunks for the root-relative path, in viewer
     * lines; with no file open nothing changes.
     */
    method LoadChunkedRanges(store: ChunkStorage, root: Path)
      modifies this
      ensures filePath.None? ==> unchanged(this)
      ensures filePath.Some? ==>
        chunkedRanges == ViewerRanges(store.GetChunksForFile(RelativeTo(filePath.value, root)))
      ensures filePath == old(filePath) && content == old(content)
      ensures originalContent == old(originalContent) && selectionMode == old(selectionMode)
      ensures selectionStart == old(selectionStart) && hasEditedContent == old(hasEditedContent)
      ensures totalTokens == old(totalTokens) && tokensPerLine == old(tokensPerLine)
      ensures maxTokensPerChunk == old(maxTokensPerChunk)
      ensures cursorPosition == old(cursorPosition) && scrollPosition == old(scrollPosition)
    {
      if filePath.None? {
        return;
      }
      var fileChunks := store.GetChunksForFile(RelativeTo(filePath.value, root));
      var ranges: seq<Range> := [];
      var i := 0;
      while i < |fileChunks|
        invariant 0 <= i <= |fileChunks|
        invariant ranges == ViewerRanges(fileChunks[..i])
      {
        assert fileChunks[..i + 1][..i] == fileChunks[..i];
        ranges := ranges + [(ToViewerIndex(fileChunks[i].startLine), ToViewerIndex(fileChunks[i].endLine))];
        i := i + 1;
      }
      assert fileChunks[..i] == fileChunks;
      chunkedRanges := ranges;
    }

    /**
     * The marking loop of `update_selected_content`: in place, a saved range
     * after the edit is shifted, one touching it is set to `(0, 0)`, and one
     * before it is kept.
     */
    method MarkChunkedRanges(start: nat, end: nat, newLen: nat)
      modifies this
      requires start <= end
      ensures chunkedRanges == MarkAll(old(chunkedRanges), start, end, newLen)
      ensures OnlyRangesChanged()
    {
      var i := 0;
      while i < |chunkedRanges|
        invariant 0 <= i <= |chunkedRanges| == |old(chunkedRanges)|
        invariant forall j :: 0 <= j < i ==> chunkedRanges[j] == MarkAsWritten(old(chunkedRanges)[j], start, end, newLen)
        invariant forall j :: i <= j < |chunkedRanges| ==> chunkedRanges[j] == old(chunkedRanges)[j]
        invariant OnlyRangesChanged()
      {
        var (chunkStart, chunkEnd) := chunkedRanges[i];
        if chunkStart > end {
          chunkedRanges := chunkedRanges[i := (ShiftEnd(chunkStart, start, end, newLen), ShiftEnd(chunkEnd, start, end, newLen))];
        } else if chunkEnd >= start {
          chunkedRanges := chunkedRanges[i := (0, 0)];
        }
        i := i + 1;
      }
    }

    /** `chunked_ranges.retain(|&range| range != (0, 0))`. */
    method RetainChunkedRanges()
      modifies this
      ensures chunkedRanges == RemoveSentinels(old(chunkedRanges))
      ensures OnlyRangesChanged()
    {
      var kept: seq<Range> := [];
      var i := 0;
      while i < |chunkedRanges|
        invariant 0 <= i <= |chunkedRanges|
        invariant kept == RemoveSentinels(chunkedRanges[..i])
      {
        assert chunkedRanges[..i + 1][..i] == chunkedRanges[..i];
        if chunkedRanges[i] != (0, 0) {
          kept := kept + [chunkedRanges[i]];
        }
        i := i + 1;
      }
      assert chunkedRanges[..i] == chunkedRanges;
      chunkedRanges := kept;
    }

    /** The range repair of `update_selected_content`: mark in place, then drop every `(0, 0)`. */
    method RepairChunkedRanges(start: nat, end: nat, newLen: nat)
      modifies this
      requires start <= end
      ensures chunkedRanges == RepairRangesAsWritten(old(chunkedRanges), start, end, newLen)
      ensures OnlyRangesChanged()
    {
      MarkChunkedRanges(start, end, newLen);
      RetainChunkedRanges();
      MarkThenRetain(old(chunkedRanges), start, end, newLen);
    }

    /**
     * `update_selected_content`: with a selection inside the working lines,
     * the baseline is sliced at the selection, which panics (before anything
     * changes) when the baseline is shorter; otherwise the edited flag
     * compares that slice with `edited`, the selected lines are replaced by
     * `edited`, the saved ranges are marked and the marked ones dropped when
     * the line count changes, and the cursor alone is clamped to the new
     * length. Without such a selection nothing changes.
     */
    method UpdateSelectedContent(edited: seq<String>) returns (r: Outcome<bool>)
      modifies this
      requires Valid()
      ensures Valid()
      ensures old(SelectionRange()).None? || old(SelectionRange()).value.1 >= old(|content|) ==>
        r == Returned(false) && unchanged(this)
      ensures old(SelectionRange()).Some? && old(SelectionRange()).value.1 < old(|content|) ==>
        (r.Panicked? <==> old(SelectionRange()).value.1 >= |originalContent|)
      ensures r.Panicked? ==> unchanged(this)
      ensures old(SelectionRange()).Some? && old(SelectionRange()).value.1 < old(|content|) && r.Returned? ==>
        var start := old(SelectionRange()).value.0;
        var end := old(SelectionRange()).value.1;
        r.value
        && content == Splice(old(content), start, end, edited)
        && EditedFlagAsWritten(originalContent, start, end, edited) == Some(hasEditedContent)
        && chunkedRanges == (if |edited| == end - start + 1 then old(chunkedRanges)
                             else RepairRangesAsWritten(old(chunkedRanges), start, end, |edited|))
        && (cursorPosition, scrollPosition)
           == ClampAfterEditAsWritten(old(cursorPosition), old(scrollPosition), |content|)
      ensures r == Returned(true) && old(Settled()) && old(scrollPosition) < |content| ==> Settled()
      ensures filePath == old(filePath) && originalContent == old(originalContent)
      ensures selectionMode == old(selectionMode) && selectionStart == old(selectionStart)
      ensures totalTokens == old(totalTokens) && tokensPerLine == old(tokensPerLine)
      ensures maxTokensPerChunk == old(maxTokensPerChunk)
    {
      var range := SelectionRange();
      if range.None? {
        return Returned(false);
      }
      var (start, end) := range.value;
      if start >= |content| || end >= |content| {
        return Returned(false);
      }
      var flag := EditedFlagAsWritten(originalContent, start, end, edited);
      if flag.None? {
        return Panicked;
      }
      hasEditedContent := flag.value;
      var rangeLen := end - start + 1;
      var replacementLen := |edited|;
      content := content[..start] + edited + content[end + 1..];
      if rangeLen != replacementLen {
        RepairChunkedRanges(start, end, replacementLen);
      }
      if cursorPosition >= |content| {
        cursorPosition := SatSub(|content|, 1);
      }
      return Returned(true);
    }

    /** A selection inside the file of an open file: what `save_selection_as_chunk` can save. */
    predicate CanSave()
      reads this
    {
      SelectionRange().Some? && SelectionRange().value.1 < |content| && filePath.Some?
    }

    /**
     * The chunk `save_selection_as_chunk` makes: the root-relative path, the
     * selection in 1-indexed lines, its lines joined by `\n`, and the edited
     * flag.
     */
    function SelectionChunk(root: Path, uuid: nat, clockSecs: int): (c: Chunk)
      reads this
      requires uuid < 0x1_0000_0000_0000_0000_0000_0000_0000_0000
      requires CanSave()
      ensures c.filePath == RelativeTo(filePath.value, root)
      ensures c.startLine == SelectionRange().value.0 + 1 && c.endLine == SelectionRange().value.1 + 1
      ensures c.content == Join(content[SelectionRange().value.0..SelectionRange().value.1 + 1], "\n")
      ensures c.edited == hasEditedContent && c.labels == [] && |c.id| == 36
    {
      var range := SelectionRange().value;
      NewChunk(uuid, clockSecs, RelativeTo(filePath.value, root), ToStorageIndex(range.0),
               ToStorageIndex(range.1), Join(content[range.0..range.1 + 1], "\n"), hasEditedContent)
    }

    /**
     * `save_selection_as_chunk`: the selection's chunk is appended to the
     * store (which then rewrites its file), and the range is recorded in the
     * viewer once the store has saved. The result is the chunk's id, with a
     * warning when the selection overlaps a saved range; an overlap never
     * prevents the save. The errors, in the order they are checked: no
     * selection, a selection past the end of the file, no file open.
     */
    method SaveSelectionAsChunk(store: ChunkStorage, fs: FileSystem, root: Path,
                                uuid: nat, clockSecs: int, outcome: WriteOutcome)
      returns (r: Result<String, ViewerError>)
      modifies this, store, fs
      requires uuid < 0x1_0000_0000_0000_0000_0000_0000_0000_0000
      ensures !old(CanSave()) ==> unchanged(this) && unchanged(store) && unchanged(fs)
      ensures old(SelectionRange()).None? ==> r == Err(NoSelection)
      ensures old(SelectionRange()).Some? && old(SelectionRange()).value.1 >= old(|content|) ==>
        r == Err(InvalidRange)
      ensures old(SelectionRange()).Some? && old(SelectionRange()).value.1 < old(|content|) && old(filePath).None? ==>
        r == Err(NoFile)
      ensures old(CanSave()) ==>
        store.chunks == old(store.chunks) + [old(SelectionChunk(root, uuid, clockSecs))]
      ensures old(CanSave()) ==>
        fs.files == FilesAfterSave(old(fs.files), store.csvPath, EncodeStore(store.chunks), outcome)
      ensures old(CanSave()) && outcome.Written? ==>
        chunkedRanges == old(chunkedRanges) + [old(SelectionRange()).value]
        && r == Ok(old(SelectionChunk(root, uuid, clockSecs)).id
                   + (if AnyOverlap(old(chunkedRanges), old(SelectionRange()).value.0, old(SelectionRange()).value.1)
                      then OverlapWarning else ""))
      ensures old(CanSave()) && !outcome.Written? ==>
        chunkedRanges == old(chunkedRanges) && r == Err(StoreFailed(IoError))
      ensures OnlyRangesChanged()
    {
      var range := SelectionRange();
      if range.None? {
        return Err(NoSelection);
      }
      var (start, end) := range.value;
      if start >= |content| || end >= |content| {
        return Err(InvalidRange);
      }
      var hasOverlap := CheckChunkOverlap(start, end);
      if filePath.None? {
        return Err(NoFile);
      }
      var chunk := SelectionChunk(root, uuid, clockSecs);
      r := AppendSelection(store, fs, chunk, (start, end), outcome, hasOverlap);
    }

    /** The second half of `save_selection_as_chunk`: store the chunk, then record the range. */
    method AppendSelection(store: ChunkStorage, fs: FileSystem, chunk: Chunk, range: Range,
                           outcome: WriteOutcome, hasOverlap: bool)
      returns (r: Result<String, ViewerError>)
      modifies this, store, fs
      ensures store.chunks == old(store.chunks) + [chunk]
      ensures fs.files == FilesAfterSave(old(fs.files), store.csvPath, EncodeStore(store.chunks), outcome)
      ensures outcome.Written? ==>
        chunkedRanges == old(chunkedRanges) + [range]
        && r == Ok(chunk.id + (if hasOverlap then OverlapWarning else ""))
      ensures !outcome.Written? ==>
        chunkedRanges == old(chunkedRanges) && r == Err(StoreFailed(IoError))
      ensures OnlyRangesChanged()
    {
      var saved := store.AddChunk(chunk, fs, outcome);
      if saved.Ok? {
        chunkedRanges := chunkedRanges + [range];
        r := Ok(chunk.id + (if hasOverlap then OverlapWarning else ""));
      } else {
        r := Err(StoreFailed(saved.error));
      }
    }
  }
}
