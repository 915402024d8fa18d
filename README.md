# packrat chunk tracking, modelled in Dafny

packrat is a terminal tool for cutting source files into "chunks": line
ranges that are saved, with their text, for later use. This project models
the part of it that keeps track of chunks, and proves properties of that
model:

- the **viewer** (`TextViewer.Viewer`): an open file's lines and their
  baseline, the cursor, the scroll position, the selection anchor and the
  list of chunked line ranges. It covers navigation, selection, editing the
  selected lines (with the repair of the range list), overlap and coverage
  queries, and saving the selection as a chunk;
- the **chunk store** (`ChunkStore.ChunkStorage`): the chunks in memory,
  their CSV file (every field quoted, quotes doubled, the labels joined by
  `|`), filtering by file and the per-file coverage percentage;
- the **chunk file names** (`ChunkFiles`): `truncate_string`,
  `generate_chunk_filename` and the parse that reads a name back into a
  stem and a line range;
- the **file explorer** (`FileExplorer.Explorer`): the entries of the
  current directory (directories before files, each group by name, with
  the `..` entry sorted among the directories by its name), the
  selection, opening directories, going up, and the cache of per-file
  chunking progress that is rebuilt from the chunk directory;
- **token-budget reporting** (`TokenBudget`): token counts of lines, their
  text form, and the usage bands;
- the centred panel title (`TitleBar`).

Shared pieces: `Paths` (strings, separators and component-wise paths),
`Decimal` (`usize` rendering, parsing and wrap-around on a 64-bit target),
`Coverage` (the marked-lines count that the viewer, the store and the
explorer each compute) and `Csv` (the always-quoted CSV writer and the
reader).

Each state-changing method of the source is a method of a Dafny class. Its
contract gives the whole new state, in terms of specification functions
such as `Splice`, `RepairRangesAsWritten`, `EncodeStore`, `FilesAfterSave`,
`Loaded`, `PatternScores` and `ShowProgress`. The classes follow the code as
written, including where it panics (an `Outcome` that is `Panicked`) and
where it is evidently wrong; for each such place a corrected definition
sits beside the as-written one with the intended property proved about it
(see Findings). The lemmas about the specification functions carry the
properties (round trips, coverage bounds and monotonicity, ordering, the
root as a component-wise prefix of the explorer's current directory).
Percentages are exact reals.

## Model

| member | source | states |
|---|---|---|
| Paths.SatSub | src/viewer/mod.rs:69-71 | `saturating_sub`: the difference when it is not negative, otherwise 0 |
| Paths.Split | src/storage/mod.rs:88 | `split('|')` yields at least one piece and no piece contains the separator |
| Paths.SplitJoin | src/storage/mod.rs:85-89 | splitting the joined pieces gives the pieces back when none contains the separator |
| Paths.JoinSplit | src/storage/mod.rs:48 | joining the pieces of any split string gives the string back |
| Paths.LastIndexOf | src/explorer/mod.rs:77 | `rfind`: None exactly when the character is absent; otherwise an occurrence with none after it |
| Paths.FirstIndexOf | src/explorer/mod.rs:79 | the first occurrence (as `split_once` uses it): None exactly when absent; otherwise an occurrence with none before it |
| Paths.RelativeTo | src/utils/mod.rs:41-48 | a path under the root loses exactly the root's components and becomes relative; any other path is unchanged |
| Paths.Child | src/explorer/mod.rs:198-204 | joining a name appends exactly that component |
| Paths.Parent | src/explorer/mod.rs:325-326 | `parent()` is None exactly for a path without components; otherwise joining the last component to it gives the path back |
| Paths.PathStringRoundTrip | src/storage/mod.rs:52 | a path written as its string and read back as a `PathBuf` is the same path |
| Decimal.WrapUsize | src/viewer/mod.rs:513-516 | an `isize` sum cast back to `usize` is the value itself when it fits and wraps by 2^64 when it is negative |
| Decimal.NatToDecimal | src/utils/mod.rs:67 | a number renders as a non-empty string of digits with no leading zero |
| Decimal.ParseUsize | src/explorer/mod.rs:80 | `parse::<usize>()` accepts only values that fit in a `usize` |
| Decimal.DecimalRoundTrip | src/explorer/mod.rs:80 | every `usize` value, rendered in decimal, parses back to itself |
| Coverage.CoveredBelow | src/storage/mod.rs:207-217 | the number of covered lines among the first n is at most n |
| Coverage.CountCovered | src/storage/mod.rs:208-217 | the marking loop over a `vec![false; total]` counts exactly the lines some range covers, each once |
| Coverage.CoverageAfterAdding | src/storage/mod.rs:210-214 | one more range raises the count by exactly the lines it newly covers |
| Coverage.CoverageMonotone | src/storage/mod.rs:210-214 | one more range never lowers the count |
| Coverage.RedundantRangeAddsNothing | src/storage/mod.rs:210-214 | a range whose lines are already covered leaves the count unchanged, so overlaps are not counted twice |
| Coverage.PercentBounds | src/storage/mod.rs:218 | the percentage lies between 0 and 100 and grows with the covered count |
| Coverage.PercentPositive | src/viewer/mod.rs:470-471 | for a non-empty file the percentage is positive exactly when some line is covered |
| TokenBudget.JoinLines | src/utils/tokenizer.rs:21-24 | the text handed to the tokenizer is empty for no lines and the line itself for one line |
| TokenBudget.JoinedLinesSplitBack | src/utils/tokenizer.rs:21-24 | lines without `\n` are recovered exactly by splitting the joined text |
| TokenBudget.CountTokensInLines | src/utils/tokenizer.rs:21-24 | the tokenizer's count of the lines joined by `\n`; a single line counts as that line's tokens, and no lines as the empty text's |
| TokenBudget.CountTokensPerLine | src/utils/tokenizer.rs:27-33 | one count per line, in order, each the tokenizer's count of that line |
| TokenBudget.FormatTokenCount | src/utils/tokenizer.rs:36-42 | the decimal count followed by " token" for 1 and " tokens" otherwise |
| TokenBudget.FormatTokenCountReadsBack | src/utils/tokenizer.rs:36-42 | the text has a space, and the number in front of the first space parses back to the count |
| TokenBudget.TokenUsagePercentage | src/utils/tokenizer.rs:45-50 | 0 for a zero maximum; otherwise the exact value with `p * max == 100 * count` |
| TokenBudget.ReachesThreshold | src/utils/tokenizer.rs:53-64 | the percentage reaches t exactly when `100 * count >= t * max` |
| TokenBudget.BandMatchesCounts | src/utils/tokenizer.rs:53-64 | the real-valued banding equals the whole-number banding for every count and maximum |
| TokenBudget.TokenUsageDescription | src/utils/tokenizer.rs:53-64 | the label and colour of the band the count reaches, read in whole numbers: OVER LIMIT/red from `100 * count >= 100 * max`, VERY HIGH/red from `90 * max`, HIGH/yellow from `75 * max`, MEDIUM/green from `50 * max`, LOW/blue from `25 * max`, otherwise VERY LOW/cyan, and VERY LOW/cyan for a zero maximum |
| TokenBudget.BandMonotone | src/utils/tokenizer.rs:53-64 | for a fixed maximum, more tokens never give a lower band |
| TokenBudget.BandEdgesAtHundred | src/utils/tokenizer.rs:117-129 | the labels and colours on both sides of each threshold at a maximum of 100 |
| TitleBar.Spaces | src/ui/mod.rs:286 | `" ".repeat(n)` is n spaces |
| TitleBar.CenteredTitle | src/ui/mod.rs:267-287 | the bare padded title when the width is at most 4 or the title does not fit; otherwise the title centred with the right padding equal to the left or one more |
| TitleBar.CenteredTitleLength | src/ui/mod.rs:267-287 | the result has the larger of the title plus 2 and the width minus 2 characters |
| ChunkFiles.Utf8Len | src/utils/mod.rs:6 | `str::len` in UTF-8 bytes lies between one and four bytes per character |
| ChunkFiles.AsciiBytesAreChars | src/utils/mod.rs:6 | on ASCII text the byte length is the character count |
| ChunkFiles.TakeChars | src/utils/mod.rs:12 | `chars().take(n)` is the prefix of `min(n, len)` characters |
| ChunkFiles.TruncateString | src/utils/mod.rs:5-19 | unchanged when the byte length fits; a bare character prefix for a limit under 3; otherwise `limit - 3` characters and `...` |
| ChunkFiles.TruncateStringOvershoots | src/utils/mod.rs:16-17 | on non-ASCII text the "truncated" result can be longer than its input and than the limit |
| ChunkFiles.TruncateChars | src/utils/mod.rs:5-19 | the corrected truncation: never longer than the limit, a prefix of the input or a prefix followed by `...` |
| ChunkFiles.TruncateAgreesOnAscii | src/utils/mod.rs:5-19 | on ASCII text the source's truncation and the corrected one agree, with length `min(len, limit)` |
| ChunkFiles.ReplaceSpecials | src/utils/mod.rs:52-54 | same length; exactly the special characters and the underscores become underscores, every other character is kept |
| ChunkFiles.NoSpecialsKept | src/utils/mod.rs:52-54 | text without special characters is left as it is |
| ChunkFiles.TrimUnderscores | src/utils/mod.rs:57 | `trim_start_matches('_')` removes exactly the leading underscores |
| ChunkFiles.SanitizedPath | src/utils/mod.rs:51-57 | the stem has no special character and does not start with `_` |
| ChunkFiles.ChunkStem | src/utils/mod.rs:51-64 | the stem is never empty (`unnamed_file` stands in), has no special character and does not start with `_` |
| ChunkFiles.StemsCollide | src/utils/mod.rs:52-54 | two paths differing only in punctuation get the same stem |
| ChunkFiles.GenerateChunkFilename | src/utils/mod.rs:39-68 | the name starts with the stem and ends with `_{start+1}-{end+1}.txt` |
| ChunkFiles.Extension | src/explorer/mod.rs:72 | None exactly for `..`, for a name without a dot and for a name whose only dot leads it; otherwise the text after the last dot, which holds no dot, with something before that dot |
| ChunkFiles.SplitChunkFilename | src/explorer/mod.rs:72-78 | only `.txt` names with an underscore split, at their last underscore |
| ChunkFiles.ParseRange | src/explorer/mod.rs:79-83 | a range without `-` is rejected |
| ChunkFiles.ParseGeneratedRange | src/explorer/mod.rs:79-83 | `A-B` rendered from two `usize` values parses back to them less one |
| ChunkFiles.ParseChunkFilename | src/explorer/mod.rs:72-92 | only `.txt` names with an underscore parse, and the stem is a proper prefix of the name |
| ChunkFiles.ParseStemAndSuffix | src/explorer/mod.rs:72-92 | a stem followed by a generated suffix parses back to the stem and the 0-indexed range |
| ChunkFiles.ChunkFilenameRoundTrip | src/utils/mod.rs:39-68 | parsing a generated name gives back its stem, start and end |
| Csv.EscapeQuotes | src/storage/mod.rs:229 | doubling quotes never shortens a field |
| Csv.QuoteField | src/storage/mod.rs:227-229 | every field is written between quotes |
| Csv.EncodeRecordsSnoc | src/storage/mod.rs:233-235 | writing one more record appends exactly that record's line |
| Csv.ReadEscaped | src/storage/mod.rs:254-257 | inside a quoted field the escaped text reads back verbatim up to the closing quote |
| Csv.ReadQuotedField | src/storage/mod.rs:254-257 | a quoted field read from the start of a field yields its text |
| Csv.ReadFields | src/storage/mod.rs:254-263 | the fields of a written record read back in order up to its terminator |
| Csv.ReadRecords | src/storage/mod.rs:254-263 | written records read back in order, appended to the records already read |
| Csv.CsvRoundTrip | src/storage/mod.rs:227-263 | reading written records gives them back, whatever quotes, commas or newlines their fields contain |
| ChunkStore.UuidString | src/storage/mod.rs:114 | the hyphenated 36-character form of a 128-bit id |
| ChunkStore.NewChunk | src/storage/mod.rs:106-126 | the given path, lines, content and edited flag, no labels, a 36-character id, the clock's seconds (0 before the epoch) |
| ChunkStore.DecodeLabels | src/storage/mod.rs:85-89 | the empty field, and only it, decodes to no labels |
| ChunkStore.LabelsRoundTrip | src/storage/mod.rs:85-89 | labels without `|` survive encoding and decoding, except the lone empty label |
| ChunkStore.LoneEmptyLabelIsLost | src/storage/mod.rs:85-89 | a single empty label reads back as no labels |
| ChunkStore.LabelsFieldRoundTrip | src/storage/mod.rs:48 | every labels field is written back exactly as it was read |
| ChunkStore.Header | src/storage/mod.rs:50-58 | the header has the eight columns, in field order |
| ChunkStore.HeaderNames | src/storage/mod.rs:50-58 | the column names are those of the serialised fields |
| ChunkStore.ParseBool | src/storage/mod.rs:77 | a parsed bool is the one whose text was read |
| ChunkStore.ChunkToRecord | src/storage/mod.rs:40-60 | a row has one field per column |
| ChunkStore.ColumnOf | src/storage/mod.rs:69-81 | the column found has the name looked up; none is found only when no column has it |
| ChunkStore.RecordToChunk | src/storage/mod.rs:65-101 | a decoded chunk's line numbers fit in a `usize` |
| ChunkStore.HeaderColumns | src/storage/mod.rs:69-81 | under the written header each field name finds its own column |
| ChunkStore.LookupUnderHeader | src/storage/mod.rs:69-81 | under the written header each field name reads its own field of a full row |
| ChunkStore.RecordRoundTrip | src/storage/mod.rs:40-101 | a storable chunk's row, read under the written header, is the chunk again |
| ChunkStore.ChunkRows | src/storage/mod.rs:233-235 | one row per chunk, in order |
| ChunkStore.DecodeAll | src/storage/mod.rs:261-264 | a successful decode yields one chunk per row |
| ChunkStore.DecodeEachRow | src/storage/mod.rs:261-264 | rows that each decode decode together, in order |
| ChunkStore.DecodeFailureSticks | src/storage/mod.rs:261-264 | one row that fails fails the whole load |
| ChunkStore.DecodeChunkRows | src/storage/mod.rs:261-264 | the written rows of storable chunks decode to those chunks |
| ChunkStore.StoreRoundTrip | src/storage/mod.rs:222-267 | saving and then loading gives back the same chunks, content byte for byte |
| ChunkStore.FilterByFile | src/storage/mod.rs:171-177 | the filtered chunks all belong to the file |
| ChunkStore.FilterMembers | src/storage/mod.rs:171-177 | a chunk is in the filtered list exactly when it is in the store and belongs to the file |
| ChunkStore.FilterConcat | src/storage/mod.rs:171-177 | filtering keeps store order and distributes over concatenation |
| ChunkStore.ChunkedRanges | src/storage/mod.rs:180-187 | one `(start_line, end_line)` per chunk of the file, unconverted |
| ChunkStore.AddingChunkNeverLowersCoverage | src/storage/mod.rs:190-219 | adding a chunk never lowers a file's coverage and leaves other files' coverage unchanged |
| ChunkStore.StoreCoverageAtMostHundred | src/storage/mod.rs:190-219 | a file's coverage lies between 0 and 100 |
| ChunkStore.CoverageScenarioTwoChunks | src/storage/mod.rs:386-415 | chunks over lines 0-9 and 20-29 of a 100-line file give 20 percent |
| ChunkStore.CoverageScenarioOverlap | src/storage/mod.rs:417-428 | a third chunk over lines 5-15 gives 26 percent; the overlap counts once |
| ChunkStore.DecodeRows | src/storage/mod.rs:259-264 | the decoding loop stops at the first bad row and otherwise yields every chunk in order |
| ChunkStore.LoadChunks | src/storage/mod.rs:244-267 | the chunks of a well-formed file, or a CSV error |
| ChunkStore.WriteRecords | src/storage/mod.rs:232-235 | the writer loop produces the header and one row per chunk |
| ChunkStore.FilesAfterSave | src/storage/mod.rs:222-241 | a failed create leaves every file as it was; otherwise only the store's file changes, to the written text or, after a failed write, to a prefix of it |
| ChunkStore.FailedSaveLosesChunks | src/storage/mod.rs:223-237 | a write that fails before any byte leaves an empty file, which loads as a store with no chunks |
| ChunkStore.ChunkStorage.constructor | src/storage/mod.rs:153-156 | the store holds the given path and chunks |
| ChunkStore.ChunkStorage.Open | src/storage/mod.rs:140-157 | an existing file that cannot be read gives an I/O error; a readable one is loaded or the load fails; a missing one gives an empty store, unless its directory cannot be created |
| ChunkStore.ChunkStorage.Save | src/storage/mod.rs:222-241 | when the file cannot be created nothing changes; otherwise it is truncated and then holds the encoding of the chunks, or only a prefix of it when the write fails; Ok exactly when the write succeeds |
| ChunkStore.ChunkStorage.AddChunk | src/storage/mod.rs:160-163 | exactly one chunk is appended at the end, then the file is saved as by `Save`; the chunk stays in memory even when saving fails |
| ChunkStore.ChunkStorage.GetChunksForFile | src/storage/mod.rs:171-177 | the store's chunks of that file in store order, and exactly those |
| ChunkStore.ChunkStorage.GetChunkedRanges | src/storage/mod.rs:180-187 | the ranges of exactly those chunks, position by position |
| ChunkStore.ChunkStorage.CalculateChunkingPercentage | src/storage/mod.rs:190-219 | the file's coverage, counting each line once, between 0 and 100 |
| TextViewer.ToStorageIndex | src/viewer/mod.rs:60-62 | a stored line number is at least 1 |
| TextViewer.ToViewerIndex | src/viewer/mod.rs:69-71 | never above the stored number, and 0 for 0 |
| TextViewer.IndexRoundTrip | src/viewer/mod.rs:60-71 | the two numberings invert each other on every viewer line and every stored line from 1 |
| TextViewer.ViewerRanges | src/viewer/mod.rs:428-441 | one range per chunk, both ends converted to viewer lines |
| TextViewer.SavedRangeReloads | src/viewer/mod.rs:363-375 | a chunk saved from viewer lines `start..=end` reloads as `(start, end)`, after the file's earlier chunks |
| TextViewer.IntersectsIffSharedLine | src/viewer/mod.rs:387-395 | the overlap test holds exactly when the two intervals share a line |
| TextViewer.OverlapOfOneLine | src/viewer/mod.rs:387-404 | overlap with a one-line selection is the same as that line being chunked |
| TextViewer.SomeLineChunked | src/viewer/mod.rs:448-472 | the covered count is positive exactly when some line of the file is chunked |
| TextViewer.Splice | src/viewer/mod.rs:496 | the lines before the selection, then the edited lines, then the lines after it |
| TextViewer.DiffersIffUnequal | src/viewer/mod.rs:488-489 | the length-and-zip comparison holds exactly when the two line lists differ |
| TextViewer.EditedFlagAsWritten | src/viewer/mod.rs:484-489 | the flag as written panics exactly when the selection reaches past the baseline |
| TextViewer.EditedFlag | src/viewer/mod.rs:484-489 | the corrected flag: the baseline comparison inside the baseline, edited past it |
| TextViewer.EditedFlagAgrees | src/viewer/mod.rs:484-489 | both flags agree wherever the source does not panic |
| TextViewer.GrowingEditThenBaselinePanics | src/viewer/mod.rs:484 | a growing edit followed by a selection past the baseline makes the source panic |
| TextViewer.RepairRanges | src/viewer/mod.rs:499-528 | the repair never adds ranges |
| TextViewer.RepairKeeps | src/viewer/mod.rs:511-523 | earlier ranges are kept and later ranges are kept shifted |
| TextViewer.RepairSound | src/viewer/mod.rs:511-523 | every repaired range comes from one range of the input |
| TextViewer.ShiftedRangeKeepsLines | src/viewer/mod.rs:511-516 | a range after the edit, once shifted, still shows the lines it showed |
| TextViewer.EarlierRangeKeepsLines | src/viewer/mod.rs:511-523 | a range before the edit still shows the lines it showed |
| TextViewer.RemoveSentinels | src/viewer/mod.rs:527 | `retain` drops exactly the `(0, 0)` ranges and keeps nothing else |
| TextViewer.RepairRangesAsWritten | src/viewer/mod.rs:503-527 | the repair as written contains no `(0, 0)` range |
| TextViewer.AsWrittenDropsSentinels | src/viewer/mod.rs:503-527 | the repair as written is the intended repair with every `(0, 0)` dropped as well |
| TextViewer.SentinelDropsFirstLineChunk | src/viewer/mod.rs:520-527 | a genuine chunk of the first line alone is lost by an unrelated edit |
| TextViewer.ClampAfterEditAsWritten | src/viewer/mod.rs:530-533 | as written only the cursor is clamped; the scroll position is kept |
| TextViewer.ClampAfterEdit | src/viewer/mod.rs:530-533 | the corrected clamp: both positions on a line of the new content, the scroll at or above the cursor, unchanged when they already fit |
| TextViewer.ScrollPastEndAfterShrinkingEdit | src/viewer/mod.rs:530-533 | a shrinking edit leaves the scroll position past the end of the file |
| TextViewer.MarkThenRetain | src/viewer/mod.rs:503-527 | marking every range in place and then dropping every `(0, 0)` is the repair as written |
| TextViewer.Viewer.MarkChunkedRanges | src/viewer/mod.rs:503-524 | each saved range is replaced, in place, by its marked form; nothing else changes |
| TextViewer.Viewer.RetainChunkedRanges | src/viewer/mod.rs:527 | the saved ranges lose exactly their `(0, 0)` entries, in order; nothing else changes |
| TextViewer.Viewer.RepairChunkedRanges | src/viewer/mod.rs:499-528 | the saved ranges become the repair as written of the old ones; nothing else changes |
| TextViewer.Viewer.constructor | src/viewer/mod.rs:38-53 | no file, no content, positions 0, no selection, no ranges, the default token budget |
| TextViewer.Viewer.SetMaxTokensPerChunk | src/viewer/mod.rs:74-76 | only the budget changes |
| TextViewer.Viewer.OpenFile | src/viewer/mod.rs:84-120 | an unreadable file changes nothing; otherwise its lines become the content and the baseline, with positions, selection and ranges reset, the view settled and tokens counted |
| TextViewer.Viewer.UpdateTokenCounts | src/viewer/mod.rs:123-132 | the whole-file and per-line counts of the content; nothing else changes |
| TextViewer.Viewer.ToggleSelectionMode | src/viewer/mod.rs:135-147 | nothing on an empty file; otherwise the anchor is set at the cursor or dropped |
| TextViewer.Viewer.ClearSelection | src/viewer/mod.rs:193-196 | no selection afterwards; nothing else changes |
| TextViewer.Viewer.SelectionRange | src/viewer/mod.rs:160-169 | None exactly without an anchor; otherwise the anchor and the cursor, smaller first |
| TextViewer.Viewer.SelectionTokenCount | src/viewer/mod.rs:172-181 | None without an anchor; 0 past the end; otherwise the tokens of the selected lines |
| TextViewer.Viewer.CursorUp | src/viewer/mod.rs:214-221 | the cursor moves up one line, stopping at 0, and the view follows it; a settled view stays settled |
| TextViewer.Viewer.CursorDown | src/viewer/mod.rs:224-233 | the cursor moves down one line, stopping at the last, and the view follows once it is 20 lines below the top; a settled view stays settled |
| TextViewer.Viewer.ScrollUp | src/viewer/mod.rs:237-244 | the view moves up one line, stopping at 0; the cursor follows only when it is more than 20 lines below the view; a settled view stays settled |
| TextViewer.Viewer.ScrollDown | src/viewer/mod.rs:248-257 | the view moves down one line, stopping at the last, and pulls the cursor down to it; a settled view stays settled |
| TextViewer.Viewer.ScrollPageUp | src/viewer/mod.rs:260-267 | the view moves up a page, stopping at 0; the cursor moves as far and stays at or below the view; a settled view stays settled |
| TextViewer.Viewer.ScrollPageDown | src/viewer/mod.rs:270-281 | panics exactly when the view already sits past the last line of a non-empty file (the distance moved underflows); otherwise the view moves down a page, stopping at the last line, and the cursor as far, stopping at the last line; a settled view stays settled and never panics |
| TextViewer.Viewer.ScrollToTop | src/viewer/mod.rs:284-287 | both positions become 0 |
| TextViewer.Viewer.ScrollToBottom | src/viewer/mod.rs:290-296 | both positions become the last line; nothing on an empty file |
| TextViewer.Viewer.ScrollToPosition | src/viewer/mod.rs:300-310 | the view jumps to the position, clamped to the last line, and the cursor is kept within 20 lines of it; a settled view stays settled |
| TextViewer.Viewer.VisibleContent | src/viewer/mod.rs:313-324 | panics exactly when the view starts past the end of a non-empty file, never for a settled view; otherwise exactly the lines from the top of the view, at most `height` of them; nothing for an empty file |
| TextViewer.Viewer.CheckChunkOverlap | src/viewer/mod.rs:387-395 | true exactly when some saved range intersects the interval |
| TextViewer.Viewer.IsLineChunked | src/viewer/mod.rs:400-404 | some saved range contains the line (0-indexed): exactly when the overlap test holds for that one line, and exactly when the line adds one to the chunked count |
| TextViewer.Viewer.ChunkingPercentage | src/viewer/mod.rs:448-472 | the share of lines inside some saved range, each counted once, between 0 and 100, positive exactly when some line is chunked |
| TextViewer.Viewer.LoadChunkedRanges | src/viewer/mod.rs:413-445 | with a file open, the ranges become those of the store's chunks for the root-relative path, in viewer lines; nothing else changes |
| TextViewer.Viewer.UpdateSelectedContent | src/viewer/mod.rs:475-539 | without a selection inside the content nothing changes; a selection reaching past the baseline panics before anything changes; otherwise the lines are spliced, the flag compares the baseline slice with the edit, the ranges are repaired as written when the line count changes, and only the cursor is clamped; a settled view whose scroll position still fits stays settled |
| TextViewer.Viewer.SelectionChunk | src/viewer/mod.rs:341-369 | the chunk of the selection: root-relative path, 1-indexed lines, the lines joined by `\n`, the edited flag |
| TextViewer.Viewer.SaveSelectionAsChunk | src/viewer/mod.rs:329-382 | the three errors in order with nothing changed; otherwise exactly one chunk appended to the store, the range recorded and the id returned, with a warning on overlap |
| TextViewer.Viewer.AppendSelection | src/viewer/mod.rs:371-381 | the chunk is appended; the range is recorded only when the store saved |
| FileExplorer.EntryLeTotal | src/explorer/mod.rs:227-233 | the comparator orders any two entries |
| FileExplorer.EntryLeTrans | src/explorer/mod.rs:227-233 | the comparator is transitive |
| FileExplorer.InsertEntry | src/explorer/mod.rs:227-233 | inserting adds exactly the entry |
| FileExplorer.SortEntries | src/explorer/mod.rs:227-233 | the sort is a permutation of its input, ordered by the comparator |
| FileExplorer.SortedIsUnique | src/explorer/mod.rs:227-233 | two sorted lists of the same entries with distinct keys are equal, so the order does not depend on the sort |
| FileExplorer.DirectoriesFirst | src/explorer/mod.rs:228-230 | in a sorted list no file comes before a directory |
| FileExplorer.SortSameMembers | src/explorer/mod.rs:227-233 | sorting keeps exactly the entries it was given |
| FileExplorer.SortKeepsParent | src/explorer/mod.rs:227-233 | sorting neither adds nor removes a `..` entry |
| FileExplorer.LoadedOrder | src/explorer/mod.rs:187-195 | the sorted listing has a `..` entry exactly when the directory is not the root |
| FileExplorer.ParentEntryAsWritten | src/explorer/mod.rs:188-195 | the `..` entry as written names `current/..` |
| FileExplorer.ParentEntryEscapesRoot | src/explorer/mod.rs:188-195 | opening the written `..` entry twice from a directory below the root lands above the root |
| FileExplorer.ParentEntry | src/explorer/mod.rs:188-195 | the corrected `..` entry leads to the parent directory |
| FileExplorer.ParentStaysConfined | src/explorer/mod.rs:301-311 | with the corrected `..` entry, the parent of a directory inside the root other than the root is inside the root |
| FileExplorer.ChildStaysConfined | src/explorer/mod.rs:301-311 | with the corrected `..` entry, a listed subdirectory of a directory inside the root is inside the root |
| FileExplorer.ChildKeepsPrefix | src/explorer/mod.rs:301-311 | opening any entry as written, `..` included, appends one component, so the root stays a prefix of the current directory |
| FileExplorer.ParentKeepsPrefix | src/explorer/mod.rs:319-331 | below the root, `parent()` exists and keeps the root as a prefix |
| FileExplorer.ListedEntry | src/explorer/mod.rs:204-223 | the entry has the listed name and kind, the path under the directory, and a file's cached progress or 0 |
| FileExplorer.Readable | src/explorer/mod.rs:198-203 | the listed names up to the first unreadable entry |
| FileExplorer.EntriesOf | src/explorer/mod.rs:198-224 | one entry per readable name, in listing order |
| FileExplorer.ParentEntries | src/explorer/mod.rs:187-195 | one `..` entry exactly when the directory is not the root, none otherwise |
| FileExplorer.PushedInDirectory | src/explorer/mod.rs:187-224 | every entry pushed belongs to the directory listed: its `..` entry, named `current/..`, or a child with a proper name |
| FileExplorer.SortedInDirectory | src/explorer/mod.rs:227-233 | sorting keeps every entry in its directory |
| FileExplorer.ReadListing | src/explorer/mod.rs:187-224 | the `..` entry, `current/..`, away from the root, then one entry per name read, in the listing's order; complete exactly when every entry could be read |
| FileExplorer.ParseAll | src/explorer/mod.rs:67-92 | one parse per name of the chunk directory |
| FileExplorer.RangesFor | src/explorer/mod.rs:89-91 | a stem has no ranges exactly when no name parses under it |
| FileExplorer.StemsOf | src/explorer/mod.rs:89-91 | exactly the stems some name parses under |
| FileExplorer.ChunkGroups | src/explorer/mod.rs:64-92 | each stem maps to the ranges of its names, in listing order, and only stems with a name are keys |
| FileExplorer.GroupChunkRanges | src/explorer/mod.rs:64-97 | the loop over the chunk directory builds exactly that grouping |
| FileExplorer.SavedNamesParse | src/explorer/mod.rs:77-86 | the names generated for a file's chunks parse to its stem and their ranges |
| FileExplorer.GroupSaved | src/explorer/mod.rs:89-91 | grouping one file's parsed names gives back its ranges in order |
| FileExplorer.SavedChunksGroupUnderStem | src/explorer/mod.rs:64-92 | a file's chunk file names group back to the file's ranges under its stem |
| FileExplorer.MatchKey | src/explorer/mod.rs:128-148 | a file is matched exactly when it is under the root and its path has no `chunks/`, under its sanitised relative path |
| FileExplorer.Matching | src/explorer/mod.rs:113-151 | the matched files all carry the pattern as their stem |
| FileExplorer.MatchFiles | src/explorer/mod.rs:113-151 | the walk loop collects exactly the matching files in walk order |
| FileExplorer.FileScore | src/explorer/mod.rs:156-171 | a score exists exactly for a readable file with lines, and lies between 0 and 100 |
| FileExplorer.ScoreAll | src/explorer/mod.rs:154-177 | only the walked files get a score |
| FileExplorer.PatternScores | src/explorer/mod.rs:111-180 | a pattern's pass scores only files filed under that pattern |
| FileExplorer.ScoresWithin | src/explorer/mod.rs:99-102 | the passes over a set of stems score only files filed under those stems |
| FileExplorer.PatternIsWithin | src/explorer/mod.rs:99-102 | one pattern's pass records what the combined passes record for that stem |
| FileExplorer.ScoresUnion | src/explorer/mod.rs:99-102 | one more stem's pass adds its scores to the others', in any order |
| FileExplorer.ChunkedFileScored | src/explorer/mod.rs:57-108 | a file whose chunks were saved under their generated names gets the share of its lines they cover |
| FileExplorer.PlainNameKey | src/explorer/mod.rs:128-148 | a root file whose name has no special character and no leading `_` is filed under its name |
| FileExplorer.MisfiledChunks | src/explorer/mod.rs:128-171 | a file filed under another key than its chunk stem gets none of its chunks, and a file filed under that stem gets them all |
| FileExplorer.DashFileLosesItsChunks | src/explorer/mod.rs:138-148 | a root file called `-` gets no progress from its chunks, which go to a file called `unnamed_file` |
| FileExplorer.StemKey | src/utils/mod.rs:51-64 | the corrected key: defined exactly for the considered files, it is their chunk stem, and it agrees with the key as written whenever the sanitised name is not empty |
| FileExplorer.ChunkedFileScoredByStem | src/explorer/mod.rs:57-108 | filed under its chunk stem, every considered file gets the share of its lines its saved chunks cover, whatever its name |
| FileExplorer.FirstWithPath | src/explorer/mod.rs:338-343 | the first entry for the path, or None when no entry has it |
| FileExplorer.ShowProgress | src/explorer/mod.rs:337-343 | the same entries with the same names, paths and kinds; the first entry of each path in the map shows its value, every other entry is unchanged |
| FileExplorer.ShowNothing | src/explorer/mod.rs:337-343 | showing no scores leaves the entries as they are |
| FileExplorer.ShowUpdate | src/explorer/mod.rs:334-344 | recording one more score is what `update_chunking_progress` does to the entries |
| FileExplorer.ShowTwice | src/explorer/mod.rs:334-344 | showing one map of scores and then another is showing their union, the later winning |
| FileExplorer.Explorer.constructor | src/explorer/mod.rs:42-48 | at the root, nothing listed, nothing selected, an empty cache |
| FileExplorer.Explorer.New | src/explorer/mod.rs:35-54 | an explorer at the root with its listing loaded, or the load's error exactly when an entry cannot be read |
| FileExplorer.Explorer.LoadEntries | src/explorer/mod.rs:183-236 | the `..` entry away from the root, the listed entries sorted, the first selected; on an unreadable entry the error and the unsorted entries read so far |
| FileExplorer.Explorer.SelectPrevious | src/explorer/mod.rs:259-263 | one up, stopping at the first; only the selection moves |
| FileExplorer.Explorer.SelectNext | src/explorer/mod.rs:266-270 | one down, stopping at the last; only the selection moves |
| FileExplorer.Explorer.SelectPageUp | src/explorer/mod.rs:273-277 | a page up, stopping at the first; only the selection moves |
| FileExplorer.Explorer.SelectPageDown | src/explorer/mod.rs:280-284 | a page down, stopping at the last; only the selection moves |
| FileExplorer.Explorer.SelectFirst | src/explorer/mod.rs:287-291 | the first entry is selected |
| FileExplorer.Explorer.SelectLast | src/explorer/mod.rs:294-298 | the last entry is selected; nothing on an empty list |
| FileExplorer.Explorer.OpenSelected | src/explorer/mod.rs:301-316 | a selected directory becomes current and is listed; otherwise nothing changes; the root stays a prefix of the current directory |
| FileExplorer.Explorer.GoToParent | src/explorer/mod.rs:319-331 | nothing at the root; otherwise the current directory loses its last component and is listed |
| FileExplorer.Explorer.GetChunkingProgress | src/explorer/mod.rs:347-349 | the cached percentage, 0 for a file never measured |
| FileExplorer.Explorer.UpdateChunkingProgress | src/explorer/mod.rs:334-344 | the cache maps the path to the value and only the first entry with that path shows it |
| FileExplorer.Explorer.CalculateProgressForPattern | src/explorer/mod.rs:111-180 | the cache gains exactly the pattern's scores, and the first listed entry of each scored path shows its score |
| FileExplorer.Explorer.RecordScores | src/explorer/mod.rs:154-177 | the cache gains exactly the scores of the matched files, and the first listed entry of each scored path shows its score |
| FileExplorer.Explorer.InitChunkingProgress | src/explorer/mod.rs:57-108 | nothing without a chunk directory; otherwise the cache gains every stem's scores and the directory is listed again |
| FileExplorer.Explorer.RecordAllGroups | src/explorer/mod.rs:99-102 | the cache gains the scores of every stem of the grouping, and the listed entries show them, whatever the order the stems are taken in |

## Left out

- File and directory I/O is not modelled as such. A file's lines, a directory listing, the chunk directory's names and the files under the root are values the caller passes in. The CSV file lives in a `FileSystem` object. Whether reading the store's file and creating its directory succeed are parameters of `Open`. How a save ends is a parameter of `Save`: written, not created, or failed after some characters.
- `Uuid::new_v4()` and `SystemTime::now()` in `Chunk::new` are parameters (`uuid`, `clockSecs`).
- The tiktoken BPE tokenizer behind `count_tokens` is a function parameter of which nothing is assumed.
- `f64` arithmetic is exact `real` arithmetic. Rounding at the band edges of the token report and in the percentages is not modelled.
- `canonicalize` in `Explorer::new` is not modelled: the root is taken to be canonical already.
- A chunk directory that cannot be read, or a non-UTF-8 file name, is not modelled. The names are given as strings.
- The walk in `load_entries` yields names already in order. The model takes the listing in any order, and the sort fixes it.
- Walk errors in the pattern pass are skipped by the source. The model receives only the regular files the walk yields.
- `HashMap` iteration order in `init_chunking_progress` is an arbitrary choice in `RecordAllGroups`. The result is proved the same for every order.
- A panic ends the program. The model returns `Panicked` and keeps the state it had at that point; `catch_unwind` and what a caller sees afterwards are not modelled.
- TextViewer.Viewer.ScrollPageDown: the `usize` underflow is a panic, as in a debug build. A release build would wrap instead, which is not modelled.
- ChunkStore.ChunkStorage.Open: a read that fails part-way through the file is the same outcome as one that fails at the start.
- ChunkFiles.GenerateChunkFilename: `start_line + 1` and `end_line + 1` cannot overflow a `usize` in the model, where a debug build would panic at `usize::MAX`. Integers are unbounded.
- TextViewer.Viewer.VisibleContent: `scroll_position + height` cannot overflow a `usize` in the model; the slice simply ends at the last line. A debug build panics there when `height` is near `usize::MAX`, and a release build wraps and then panics at the slice.
- TextViewer.RepairRangesAsWritten: a range after the edit is shifted by exact integer arithmetic. The source shifts through `as isize` and back `as usize`, which differs only for line numbers above `isize::MAX`.
- FileExplorer.Explorer.SelectPageDown: `selected_index + page_size` cannot overflow a `usize` in the model. Integers are unbounded.
- TextViewer.Viewer.ScrollPageDown: `scroll_position + page_size` cannot overflow a `usize` in the model, for the same reason.
- TextViewer.Viewer.OpenFile: `lines()` splitting of the file's text is not modelled; the file arrives as its lines.
- The parts of the repository outside chunk tracking are not part of this model: the terminal UI, the editor, the file watcher, the event loop, configuration and the CSV experiment binary.
- Two places where the documentation and the code disagree follow the code. The store's coverage uses `start_line` directly as a line index, although chunks store 1-indexed lines. Saving a selection does not clear it.

## Findings

| source | as written | input that shows it | evidently intended | confidence | as-written member | corrected member |
|---|---|---|---|---|---|---|
| src/viewer/mod.rs:520-527 | ranges to drop are marked `(0, 0)` and then every `(0, 0)` is removed | ranges `[(0,0), (10,12)]`, replace line 5 by 2 lines: the chunk of line 0 alone disappears | only the ranges touching the edit are removed | high (proved; not executed) | TextViewer.SentinelDropsFirstLineChunk | TextViewer.RepairRanges |
| src/viewer/mod.rs:530-533 | only the cursor is clamped after an edit | 50 lines, scroll 40, cursor 45, lines 10..=45 replaced by one line: scroll stays 40 of 15 lines, and `visible_content` slices past the end | the scroll position is clamped like the cursor | high (proved; not executed) | TextViewer.ScrollPastEndAfterShrinkingEdit | TextViewer.ClampAfterEdit |
| src/viewer/mod.rs:484 | the baseline `original_content[start..=end]` is sliced with positions in the edited content | baseline `["a"]`, line 0 replaced by 3 lines, then lines 1..=2 selected and edited: the slice is out of bounds and the program panics | lines past the baseline count as edited | high (proved; not executed) | TextViewer.GrowingEditThenBaselinePanics | TextViewer.EditedFlag |
| src/utils/mod.rs:6-17 | the length test counts UTF-8 bytes but the cut counts characters | `truncate_string("ééé", 4)` gives `"é..."`: 4 characters from a 3-character input, and 5 bytes against a limit of 4 | the result is at most `max_len` characters | high (proved; not executed) | ChunkFiles.TruncateStringOvershoots | ChunkFiles.TruncateChars |
| src/explorer/mod.rs:188-195 | the `..` entry's path is `current_dir.join("..")` | root `/r`, in `/r/d`: opening `..` gives `/r/d/..`, which differs from the root, so `..` is offered again and leads to `/` | `..` leads to the parent and never above the root | high (proved; not executed) | FileExplorer.ParentEntryEscapesRoot | FileExplorer.ParentEntry |
| src/explorer/mod.rs:138-148 | the pattern pass files a file under its sanitised relative path, with no `unnamed_file` stand-in | a root file called `-`: its chunks are saved as `unnamed_file_1-3.txt`, the pass files `-` under the empty stem, so it shows 0 and a file called `unnamed_file` shows 30 | each file is filed under the stem its chunk names use | high (proved; not executed) | FileExplorer.DashFileLosesItsChunks | FileExplorer.ChunkedFileScoredByStem |
