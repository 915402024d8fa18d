/**
 * The chunk store: chunk records, their CSV form, and the in-memory store
 * that appends chunks and rewrites its CSV file after every change.
 *
 * The file system is a `FileSystem` object mapping paths to file contents;
 * whether a write or a directory creation succeeds is a parameter, since
 * the model cannot see why I/O fails.
 */
module ChunkStore {
  import opened Paths
  import opened Decimal
  import opened Coverage
  import opened Csv

  /** A saved chunk: lines `startLine ..= endLine` of `filePath` (relative to the root). */
  datatype Chunk = Chunk(
    id: String,
    filePath: Path,
    startLine: nat,
    endLine: nat,
    content: String,
    timestamp: nat,
    edited: bool,
    labels: seq<String>)

  // ---------------------------------------------------------------------
  // Chunk::new
  // ---------------------------------------------------------------------

  function HexDigit(d: nat): (c: char)
    requires d < 16
  {
    if d < 10 then (48 + d) as char else (87 + d) as char
  }

  /** The low `n` hexadecimal digits of `v`, most significant first, lower case. */
  function Hex(v: nat, n: nat): (r: String)
    ensures |r| == n
    ensures forall i :: 0 <= i < n ==> ('0' <= r[i] <= '9' || 'a' <= r[i] <= 'f')
  {
    if n == 0 then "" else Hex(v / 16, n - 1) + [HexDigit(v % 16)]
  }

  /** `Uuid::to_string`: the hyphenated 8-4-4-4-12 form of a 128-bit value. */
  function UuidString(uuid: nat): (r: String)
    requires uuid < 0x1_0000_0000_0000_0000_0000_0000_0000_0000
    ensures |r| == 36
    ensures r[8] == '-' && r[13] == '-' && r[18] == '-' && r[23] == '-'
  {
    var h := Hex(uuid, 32);
    h[..8] + "-" + h[8..12] + "-" + h[12..16] + "-" + h[16..20] + "-" + h[20..]
  }

  /**
   * `Chunk::new`: the random identifier and the clock (whole seconds since
   * the Unix epoch, negative before it) are parameters; a clock before the
   * epoch gives timestamp 0.
   */
  function NewChunk(uuid: nat, clockSecs: int, filePath: Path, startLine: nat, endLine: nat,
                    content: String, edited: bool): (c: Chunk)
    requires uuid < 0x1_0000_0000_0000_0000_0000_0000_0000_0000
    ensures c.filePath == filePath && c.startLine == startLine && c.endLine == endLine
    ensures c.content == content && c.edited == edited
    ensures c.labels == [] && |c.id| == 36
    ensures c.timestamp == Max(clockSecs, 0)
  {
    Chunk(UuidString(uuid), filePath, startLine, endLine, content,
          if clockSecs < 0 then 0 else clockSecs, edited, [])
  }

  // ---------------------------------------------------------------------
  // Labels: one CSV field, joined by `|`
  // ---------------------------------------------------------------------

  function EncodeLabels(labels: seq<String>): String
  {
    Join(labels, "|")
  }

  /** An empty field is no labels; anything else is split on `|`. */
  function DecodeLabels(s: String): (labels: seq<String>)
    ensures s == "" <==> labels == []
  {
    if s == "" then [] else Split(s, '|')
  }

  /** Labels free of `|` survive, except the lone empty label, which reads back as none. */
  lemma LabelsRoundTrip(labels: seq<String>)
    requires forall i :: 0 <= i < |labels| ==> '|' !in labels[i]
    requires labels != [""]
    ensures DecodeLabels(EncodeLabels(labels)) == labels
  {
    if |labels| >= 1 {
      SplitJoin(labels, '|');
      if |labels| >= 2 {
        assert EncodeLabels(labels) == labels[0] + "|" + Join(labels[1..], "|");
        assert EncodeLabels(labels)[|labels[0]|] == '|';
      }
    }
  }

  lemma LoneEmptyLabelIsLost()
    ensures DecodeLabels(EncodeLabels([""])) == []
  {
  }

  /** Every labels field is written back exactly as it was read. */
  lemma LabelsFieldRoundTrip(s: String)
    ensures EncodeLabels(DecodeLabels(s)) == s
  {
    if s != "" {
      JoinSplit(s, '|');
    }
  }

  // ---------------------------------------------------------------------
  // CSV rows
  // ---------------------------------------------------------------------

  /** The name of column `i`: the fields of `Chunk` in declaration order. */
  function ColumnName(i: int): String
  {
    match i
    case 0 => "id"
    case 1 => "file_path"
    case 2 => "start_line"
    case 3 => "end_line"
    case 4 => "content"
    case 5 => "timestamp"
    case 6 => "edited"
    case _ => "labels"
  }

  /**
   * The header the writer emits. It is built from `ColumnName` rather than
   * written out so that the verifier does not expand its CSV text wherever
   * the encoded store is mentioned.
   */
  function Header(): (r: Record)
    ensures |r| == 8 && forall i :: 0 <= i < 8 ==> r[i] == ColumnName(i)
  {
    seq(8, i => ColumnName(i))
  }

  lemma HeaderNames()
    ensures Header() == ["id", "file_path", "start_line", "end_line", "content", "timestamp", "edited", "labels"]
  {
  }

  function BoolText(b: bool): String
  {
    if b then "true" else "false"
  }

  /** `bool::from_str`: exactly `true` or `false`. */
  function ParseBool(s: String): (r: Option<bool>)
    ensures r.Some? ==> BoolText(r.value) == s
  {
    if s == "true" then Some(true) else if s == "false" then Some(false) else None
  }

  /** The row `serialize` writes for a chunk, in field order. */
  function ChunkToRecord(c: Chunk): (r: Record)
    ensures |r| == |Header()|
  {
    [c.id, PathToString(c.filePath), NatToDecimal(c.startLine), NatToDecimal(c.endLine),
     c.content, NatToDecimal(c.timestamp), BoolText(c.edited), EncodeLabels(c.labels)]
  }

  /** The first column whose header is `name`. */
  function ColumnOf(header: Record, name: String): (r: Option<nat>)
    ensures r.Some? ==> r.value < |header| && header[r.value] == name
    ensures r.None? ==> name !in header
  {
    if |header| == 0 then None
    else if header[0] == name then Some(0)
    else
      var k := ColumnOf(header[1..], name);
      if k.None? then None else Some(k.value + 1)
  }

  /** The field of `row` under the column named `name`; missing in a short row. */
  function Lookup(header: Record, row: Record, name: String): Option<String>
  {
    match ColumnOf(header, name)
    case None => None
    case Some(k) => if k < |row| then Some(row[k]) else None
  }

  /**
   * Deserialising one row by header name: every field of `Chunk` must be
   * present and parse; columns with other names are ignored.
   */
  function RecordToChunk(header: Record, row: Record): (c: Option<Chunk>)
    ensures c.Some? ==> c.value.startLine <= UsizeMax && c.value.endLine <= UsizeMax
  {
    var id := Lookup(header, row, "id");
    var path := Lookup(header, row, "file_path");
    var start := Lookup(header, row, "start_line");
    var end := Lookup(header, row, "end_line");
    var content := Lookup(header, row, "content");
    var timestamp := Lookup(header, row, "timestamp");
    var edited := Lookup(header, row, "edited");
    var labels := Lookup(header, row, "labels");
    if id.None? || path.None? || start.None? || end.None? || content.None?
       || timestamp.None? || edited.None? || labels.None? then None
    else
      var s := ParseUsize(start.value);
      var e := ParseUsize(end.value);
      var t := ParseUsize(timestamp.value);
      var b := ParseBool(edited.value);
      if s.None? || e.None? || t.None? || b.None? then None
      else Some(Chunk(id.value, PathFromString(path.value), s.value, e.value, content.value,
                      t.value, b.value, DecodeLabels(labels.value)))
  }

  /** A chunk the CSV form can carry: a path of normal components, `usize` numbers, labels without `|`. */
  predicate Persistable(c: Chunk)
  {
    WellFormedPath(c.filePath)
    && c.startLine <= UsizeMax && c.endLine <= UsizeMax && c.timestamp <= UsizeMax
    && (forall i :: 0 <= i < |c.labels| ==> '|' !in c.labels[i])
    && c.labels != [""]
  }

  lemma HeaderColumns()
    ensures ColumnOf(Header(), "id") == Some(0)
    ensures ColumnOf(Header(), "file_path") == Some(1)
    ensures ColumnOf(Header(), "start_line") == Some(2)
    ensures ColumnOf(Header(), "end_line") == Some(3)
    ensures ColumnOf(Header(), "content") == Some(4)
    ensures ColumnOf(Header(), "timestamp") == Some(5)
    ensures ColumnOf(Header(), "edited") == Some(6)
    ensures ColumnOf(Header(), "labels") == Some(7)
  {
    var h := Header();
    forall k | 0 <= k < 8
      ensures ColumnOf(h, h[k]) == Some(k)
    {
      ColumnNamesDistinct(k);
      ColumnOfDistinct(h, k);
    }
  }

  /** Every column name differs from the ones before it. */
  lemma ColumnNamesDistinct(k: nat)
    requires k < 8
    ensures forall i :: 0 <= i < k ==> Header()[i] != Header()[k]
  {
    HeaderNames();
  }

  /** A name that no earlier column has is found at its own position. */
  lemma {:induction false} ColumnOfDistinct(header: Record, k: nat)
    requires k < |header|
    requires forall i :: 0 <= i < k ==> header[i] != header[k]
    ensures ColumnOf(header, header[k]) == Some(k)
  {
    if k > 0 {
      assert header[0] != header[k];
      ColumnOfDistinct(header[1..], k - 1);
    }
  }

  /** Under the writer's header, each field name finds its own column of a full row. */
  lemma LookupUnderHeader(row: Record)
    requires |row| == |Header()|
    ensures Lookup(Header(), row, "id") == Some(row[0])
    ensures Lookup(Header(), row, "file_path") == Some(row[1])
    ensures Lookup(Header(), row, "start_line") == Some(row[2])
    ensures Lookup(Header(), row, "end_line") == Some(row[3])
    ensures Lookup(Header(), row, "content") == Some(row[4])
    ensures Lookup(Header(), row, "timestamp") == Some(row[5])
    ensures Lookup(Header(), row, "edited") == Some(row[6])
    ensures Lookup(Header(), row, "labels") == Some(row[7])
  {
    HeaderColumns();
  }

  /** A persistable chunk's row, read under the writer's header, is the chunk again. */
  lemma RecordRoundTrip(c: Chunk)
    requires Persistable(c)
    ensures RecordToChunk(Header(), ChunkToRecord(c)) == Some(c)
  {
    var row := ChunkToRecord(c);
    LookupUnderHeader(row);
    DecimalRoundTrip(c.startLine);
    DecimalRoundTrip(c.endLine);
    DecimalRoundTrip(c.timestamp);
    PathStringRoundTrip(c.filePath);
    LabelsRoundTrip(c.labels);
    assert ParseBool(BoolText(c.edited)) == Some(c.edited);
  }

  // ---------------------------------------------------------------------
  // The whole file
  // ---------------------------------------------------------------------

  function ChunkRows(chunks: seq<Chunk>): (rows: seq<Record>)
    ensures |rows| == |chunks|
    ensures forall i :: 0 <= i < |chunks| ==> rows[i] == ChunkToRecord(chunks[i])
  {
    seq(|chunks|, i requires 0 <= i < |chunks| => ChunkToRecord(chunks[i]))
  }

  /** What `save` leaves in the file: nothing for an empty store, else the header and one row per chunk. */
  function EncodeStore(chunks: seq<Chunk>): String
  {
    EncodeTable(Header(), ChunkRows(chunks))
  }

  /** A header followed by rows; nothing at all when there are no rows. */
  function EncodeTable(header: Record, rows: seq<Record>): String
  {
    if |rows| == 0 then "" else EncodeRecords([header] + rows)
  }

  /** Deserialising a row by the names in `header`. */
  function RowDecoder(header: Record): Record -> Option<Chunk>
  {
    row => RecordToChunk(header, row)
  }

  /** Decoding rows in order; the first row that fails fails them all. */
  function DecodeAll(decode: Record -> Option<Chunk>, rows: seq<Record>): (r: Option<seq<Chunk>>)
    ensures r.Some? ==> |r.value| == |rows|
  {
    if |rows| == 0 then Some([])
    else
      match DecodeAll(decode, rows[..|rows| - 1])
      case None => None
      case Some(done) =>
        match decode(rows[|rows| - 1])
        case None => None
        case Some(c) => Some(done + [c])
  }

  /** `load_chunks` on the text of the file: the first record is the header, the rest are chunks. */
  function DecodeStore(text: String): Option<seq<Chunk>>
  {
    var records := ParseCsv(text);
    if |records| == 0 then Some([]) else DecodeAll(RowDecoder(records[0]), records[1..])
  }

  /** Rows that each decode decode together, in order. */
  lemma {:induction false} DecodeEachRow(decode: Record -> Option<Chunk>, rows: seq<Record>, chunks: seq<Chunk>)
    requires |rows| == |chunks|
    requires forall i :: 0 <= i < |rows| ==> decode(rows[i]) == Some(chunks[i])
    ensures DecodeAll(decode, rows) == Some(chunks)
  {
    if |rows| > 0 {
      var n := |rows| - 1;
      DecodeEachRow(decode, rows[..n], chunks[..n]);
      assert chunks[..n] + [chunks[n]] == chunks;
    }
  }

  /** Once a prefix of the rows fails to decode, the rows fail as a whole. */
  lemma {:induction false} DecodeFailureSticks(decode: Record -> Option<Chunk>, rows: seq<Record>, n: nat)
    requires n <= |rows| && DecodeAll(decode, rows[..n]) == None
    ensures DecodeAll(decode, rows) == None
    decreases |rows| - n
  {
    if n < |rows| {
      var longer := rows[..n + 1];
      assert longer[..|longer| - 1] == rows[..n];
      assert DecodeAll(decode, longer) == None;
      DecodeFailureSticks(decode, rows, n + 1);
    } else {
      assert rows[..n] == rows;
    }
  }

  lemma DecodeChunkRows(chunks: seq<Chunk>)
    requires forall i :: 0 <= i < |chunks| ==> Persistable(chunks[i])
    ensures DecodeAll(RowDecoder(Header()), ChunkRows(chunks)) == Some(chunks)
  {
    var rows := ChunkRows(chunks);
    var decode := RowDecoder(Header());
    forall i | 0 <= i < |rows|
      ensures decode(rows[i]) == Some(chunks[i])
    {
      RecordRoundTrip(chunks[i]);
    }
    DecodeEachRow(decode, rows, chunks);
  }

  /** Saving and then loading gives back the same chunks, contents byte for byte. */
  lemma StoreRoundTrip(chunks: seq<Chunk>)
    requires forall i :: 0 <= i < |chunks| ==> Persistable(chunks[i])
    ensures DecodeStore(EncodeStore(chunks)) == Some(chunks)
  {
    if |chunks| > 0 {
      var records := [Header()] + ChunkRows(chunks);
      CsvRoundTrip(records);
      assert records[1..] == ChunkRows(chunks);
      DecodeChunkRows(chunks);
    } else {
      assert ParseCsv("") == [];
    }
  }

  lemma ChunkRowsSnoc(chunks: seq<Chunk>, c: Chunk)
    ensures ChunkRows(chunks + [c]) == ChunkRows(chunks) + [ChunkToRecord(c)]
  {
    var l := ChunkRows(chunks + [c]);
    var r := ChunkRows(chunks) + [ChunkToRecord(c)];
    assert |l| == |r|;
    forall i | 0 <= i < |l|
      ensures l[i] == r[i]
    {
      if i < |chunks| {
        assert (chunks + [c])[i] == chunks[i];
      }
    }
  }

  /** Writing one more row: the header before the first row, then the row. */
  lemma EncodeTableSnoc(header: Record, rows: seq<Record>, row: Record)
    ensures EncodeTable(header, rows + [row])
         == (if |rows| == 0 then EncodeRecord(header) else EncodeTable(header, rows)) + EncodeRecord(row)
  {
    EncodeRecordsSnoc([header] + rows, row);
    assert [header] + (rows + [row]) == [header] + rows + [row];
    if |rows| == 0 {
      assert [header] + rows == [header];
      assert EncodeRecords([header]) == EncodeRecord(header) + EncodeRecords([]);
    }
  }

  // ---------------------------------------------------------------------
  // Queries
  // ---------------------------------------------------------------------

  /** `get_chunks_for_file`: the chunks of one file, in store order. */
  function FilterByFile(chunks: seq<Chunk>, path: Path): (r: seq<Chunk>)
    ensures |r| <= |chunks|
    ensures forall i :: 0 <= i < |r| ==> r[i].filePath == path
  {
    if |chunks| == 0 then []
    else
      var rest := FilterByFile(chunks[1..], path);
      if chunks[0].filePath == path then [chunks[0]] + rest else rest
  }

  /** The filtered chunks are exactly the store's chunks of that file. */
  lemma {:induction false} FilterMembers(chunks: seq<Chunk>, path: Path, c: Chunk)
    ensures c in FilterByFile(chunks, path) <==> c in chunks && c.filePath == path
  {
    if |chunks| > 0 {
      FilterMembers(chunks[1..], path, c);
      assert c in chunks <==> c == chunks[0] || c in chunks[1..];
    }
  }

  /** Filtering distributes over concatenation, so order is kept and nothing is duplicated. */
  lemma {:induction false} FilterConcat(a: seq<Chunk>, b: seq<Chunk>, path: Path)
    ensures FilterByFile(a + b, path) == FilterByFile(a, path) + FilterByFile(b, path)
  {
    if |a| == 0 {
      assert a + b == b;
    } else {
      var fa, fb := FilterByFile(a[1..], path), FilterByFile(b, path);
      FilterConcat(a[1..], b, path);
      assert (a + b)[1..] == a[1..] + b;
      if a[0].filePath == path {
        assert FilterByFile(a, path) == [a[0]] + fa;
        assert FilterByFile(a + b, path) == [a[0]] + (fa + fb);
      } else {
        assert FilterByFile(a, path) == fa;
        assert FilterByFile(a + b, path) == fa + fb;
      }
    }
  }

  /** `get_chunked_ranges`: the `(start_line, end_line)` of each chunk of the file, unconverted. */
  function ChunkedRanges(chunks: seq<Chunk>, path: Path): (r: seq<Range>)
    ensures |r| == |FilterByFile(chunks, path)|
    ensures forall i :: 0 <= i < |r| ==>
      r[i] == (FilterByFile(chunks, path)[i].startLine, FilterByFile(chunks, path)[i].endLine)
  {
    var f := FilterByFile(chunks, path);
    seq(|f|, i requires 0 <= i < |f| => (f[i].startLine, f[i].endLine))
  }

  /**
   * What `calculate_chunking_percentage` computes: 0 for an empty file or
   * one without chunks, else the share of lines `0 .. total` covered by the
   * file's ranges, each line once, with `start_line` used directly as a
   * 0-based index.
   */
  function StoreCoverage(chunks: seq<Chunk>, path: Path, totalLines: nat): real
  {
    if totalLines == 0 || |FilterByFile(chunks, path)| == 0 then 0.0
    else Percent(CoveredBelow(ChunkedRanges(chunks, path), totalLines), totalLines)
  }

  /** Adding a chunk never lowers any file's coverage, and leaves other files' unchanged. */
  lemma AddingChunkNeverLowersCoverage(chunks: seq<Chunk>, c: Chunk, path: Path, totalLines: nat)
    ensures StoreCoverage(chunks, path, totalLines) <= StoreCoverage(chunks + [c], path, totalLines)
    ensures c.filePath != path ==> StoreCoverage(chunks + [c], path, totalLines) == StoreCoverage(chunks, path, totalLines)
  {
    FilterConcat(chunks, [c], path);
    var before := ChunkedRanges(chunks, path);
    var after := ChunkedRanges(chunks + [c], path);
    if c.filePath == path {
      assert FilterByFile([c], path) == [c];
      assert after == before + [(c.startLine, c.endLine)];
      CoverageMonotone(before, (c.startLine, c.endLine), totalLines);
      if totalLines > 0 {
        PercentBounds(CoveredBelow(before, totalLines), CoveredBelow(after, totalLines), totalLines);
      }
    } else {
      assert FilterByFile([c], path) == [];
      assert FilterByFile(chunks + [c], path) == FilterByFile(chunks, path);
    }
  }

  /** A file's coverage is at most 100 percent. */
  lemma StoreCoverageAtMostHundred(chunks: seq<Chunk>, path: Path, totalLines: nat)
    ensures 0.0 <= StoreCoverage(chunks, path, totalLines) <= 100.0
  {
    if totalLines > 0 {
      var n := CoveredBelow(ChunkedRanges(chunks, path), totalLines);
      PercentBounds(n, n, totalLines);
      PercentBounds(0, n, totalLines);
    }
  }

  /** Chunks over lines 0-9 and 20-29 of a 100-line file cover 20 percent. */
  lemma CoverageScenarioTwoChunks(p: Path, c1: Chunk, c2: Chunk)
    requires c1.filePath == p && c1.startLine == 0 && c1.endLine == 9
    requires c2.filePath == p && c2.startLine == 20 && c2.endLine == 29
    ensures ChunkedRanges([c1, c2], p) == [(0, 9), (20, 29)]
    ensures StoreCoverage([c1, c2], p, 100) == 20.0
  {
    FilterConcat([c1], [c2], p);
    assert [c1] + [c2] == [c1, c2];
    var r2 := ChunkedRanges([c1, c2], p);
    assert r2 == [(0, 9), (20, 29)];
    CoveredRunAt(r2, 0, 0, 10);
    UncoveredRunFrom(r2, 10, 20);
    CoveredRunAt(r2, 1, 20, 30);
    UncoveredRunFrom(r2, 30, 100);
  }

  /** A third chunk over lines 5-15 brings the same file to 26 percent: the overlap counts once. */
  lemma CoverageScenarioOverlap(p: Path, c1: Chunk, c2: Chunk, c3: Chunk)
    requires c1.filePath == p && c1.startLine == 0 && c1.endLine == 9
    requires c2.filePath == p && c2.startLine == 20 && c2.endLine == 29
    requires c3.filePath == p && c3.startLine == 5 && c3.endLine == 15
    ensures StoreCoverage([c1, c2, c3], p, 100) == 26.0
  {
    CoverageScenarioTwoChunks(p, c1, c2);
    FilterConcat([c1, c2], [c3], p);
    assert [c1, c2] + [c3] == [c1, c2, c3];
    var r3 := ChunkedRanges([c1, c2, c3], p);
    assert r3 == [(0, 9), (20, 29), (5, 15)];
    CoveredRunAt(r3, 0, 0, 10);
    CoveredRunAt(r3, 2, 10, 16);
    UncoveredRunFrom(r3, 16, 20);
    CoveredRunAt(r3, 1, 20, 30);
    UncoveredRunFrom(r3, 30, 100);
  }

  /** Lines `lo .. hi` all inside range `k`. */
  lemma CoveredRunAt(ranges: seq<Range>, k: nat, lo: nat, hi: nat)
    requires lo <= hi && k < |ranges| && ranges[k].0 <= lo && hi <= ranges[k].1 + 1
    ensures CoveredBelow(ranges, hi) == CoveredBelow(ranges, lo) + (hi - lo)
  {
    forall line: nat | lo <= line < hi
      ensures Covered(ranges, line)
    {
      assert InRange(ranges[k], line);
    }
    CoveredRun(ranges, lo, hi);
  }

  /** Lines `lo .. hi` outside every range. */
  lemma UncoveredRunFrom(ranges: seq<Range>, lo: nat, hi: nat)
    requires lo <= hi
    requires forall k :: 0 <= k < |ranges| ==> ranges[k].1 < lo || hi <= ranges[k].0
    ensures CoveredBelow(ranges, hi) == CoveredBelow(ranges, lo)
  {
    UncoveredRun(ranges, lo, hi);
  }

  // ---------------------------------------------------------------------
  // The store and its file
  // ---------------------------------------------------------------------

  datatype StoreError = IoError | MalformedCsv

  /** The files the store reads and writes, by path. */
  class FileSystem {
    var files: map<Path, String>

    constructor(files: map<Path, String>)
      ensures this.files == files
    {
      this.files := files;
    }
  }

  /**
   * How a rewrite of the file goes: it is written in full, the file cannot
   * be created (it is left as it was), or writing fails after `File::create`
   * has emptied it, with the first `kept` characters on disk.
   */
  datatype WriteOutcome = Written | CreateFailed | WriteFailed(kept: nat)

  /** The files after rewriting `path` with `text`. */
  function FilesAfterSave(files: map<Path, String>, path: Path, text: String, outcome: WriteOutcome)
    : (r: map<Path, String>)
    ensures outcome.CreateFailed? ==> r == files
    ensures !outcome.CreateFailed? ==>
      path in r && StartsWith(text, r[path]) && r.Keys == files.Keys + {path}
      && forall p :: p in files && p != path ==> r[p] == files[p]
    ensures outcome.Written? ==> r[path] == text
    ensures outcome.WriteFailed? ==> |r[path]| <= outcome.kept
  {
    match outcome
    case Written => files[path := text]
    case CreateFailed => files
    case WriteFailed(kept) => files[path := text[..Min(kept, |text|)]]
  }

  /** A write that fails before anything reaches the file leaves a store that loads empty. */
  lemma FailedSaveLosesChunks(files: map<Path, String>, path: Path, chunks: seq<Chunk>)
    ensures DecodeStore(FilesAfterSave(files, path, EncodeStore(chunks), WriteFailed(0))[path]) == Some([])
  {
    var r := FilesAfterSave(files, path, EncodeStore(chunks), WriteFailed(0));
    assert r[path] == "";
    assert ParseCsv("") == [];
  }

  /** The decoding loop of `load_chunks`: rows one at a time, stopping at the first bad one. */
  method DecodeRows(decode: Record -> Option<Chunk>, rows: seq<Record>) returns (r: Option<seq<Chunk>>)
    ensures r == DecodeAll(decode, rows)
  {
    var chunks: seq<Chunk> := [];
    var i := 0;
    while i < |rows|
      invariant 0 <= i <= |rows|
      invariant DecodeAll(decode, rows[..i]) == Some(chunks)
    {
      assert rows[..i + 1][..i] == rows[..i];
      match decode(rows[i]) {
        case None =>
          assert DecodeAll(decode, rows[..i + 1]) == None;
          DecodeFailureSticks(decode, rows, i + 1);
          return None;
        case Some(c) =>
          chunks := chunks + [c];
      }
      i := i + 1;
    }
    assert rows[..i] == rows;
    return Some(chunks);
  }

  /** `load_chunks`: the records of the file, the first naming the columns; any bad row fails the load. */
  method LoadChunks(text: String) returns (r: Result<seq<Chunk>, StoreError>)
    ensures DecodeStore(text).Some? ==> r == Ok(DecodeStore(text).value)
    ensures DecodeStore(text).None? ==> r == Err(MalformedCsv)
  {
    var records := ParseCsv(text);
    if |records| == 0 {
      return Ok([]);
    }
    var decoded := DecodeRows(RowDecoder(records[0]), records[1..]);
    if decoded.None? {
      return Err(MalformedCsv);
    }
    return Ok(decoded.value);
  }

  /** One turn of the writer loop: the table of one more chunk. */
  lemma WriteStep(header: Record, chunks: seq<Chunk>, i: nat)
    requires i < |chunks|
    ensures EncodeTable(header, ChunkRows(chunks[..i + 1]))
         == (if i == 0 then EncodeRecord(header) else EncodeTable(header, ChunkRows(chunks[..i])))
            + EncodeRecord(ChunkToRecord(chunks[i]))
  {
    ChunkRowsSnoc(chunks[..i], chunks[i]);
    EncodeTableSnoc(header, ChunkRows(chunks[..i]), ChunkToRecord(chunks[i]));
    assert chunks[..i + 1] == chunks[..i] + [chunks[i]];
  }

  /** The writer loop of `save`: the header with the first row, then one row per chunk. */
  method WriteRecords(header: Record, chunks: seq<Chunk>) returns (text: String)
    ensures text == EncodeTable(header, ChunkRows(chunks))
  {
    text := "";
    var i := 0;
    while i < |chunks|
      invariant 0 <= i <= |chunks|
      invariant text == EncodeTable(header, ChunkRows(chunks[..i]))
    {
      WriteStep(header, chunks, i);
      if i == 0 {
        text := EncodeRecord(header);
      }
      text := text + EncodeRecord(ChunkToRecord(chunks[i]));
      i := i + 1;
    }
    assert chunks[..i] == chunks;
  }

  /** `ChunkStorage`: the CSV file's path and the chunks held in memory. */
  class ChunkStorage {
    const csvPath: Path
    var chunks: seq<Chunk>

    constructor(csvPath: Path, chunks: seq<Chunk>)
      ensures this.csvPath == csvPath && this.chunks == chunks
    {
      this.csvPath := csvPath;
      this.chunks := chunks;
    }

    /**
     * `ChunkStorage::new`: load the file when it exists; otherwise create
     * its parent directories (which may fail) and start empty. `readOk` says
     * whether opening and reading the existing file succeed.
     */
    static method Open(csvPath: Path, fs: FileSystem, readOk: bool, mkdirOk: bool)
      returns (r: Result<ChunkStorage, StoreError>)
      ensures csvPath in fs.files && readOk && DecodeStore(fs.files[csvPath]).Some? ==>
        r.Ok? && fresh(r.value) && r.value.csvPath == csvPath
        && r.value.chunks == DecodeStore(fs.files[csvPath]).value
      ensures csvPath in fs.files && readOk && DecodeStore(fs.files[csvPath]).None? ==> r == Err(MalformedCsv)
      ensures csvPath in fs.files && !readOk ==> r == Err(IoError)
      ensures csvPath !in fs.files && mkdirOk ==>
        r.Ok? && fresh(r.value) && r.value.csvPath == csvPath && r.value.chunks == []
      ensures csvPath !in fs.files && !mkdirOk ==> r == Err(IoError)
    {
      if csvPath in fs.files {
        if !readOk {
          return Err(IoError);
        }
        var loaded := LoadChunks(fs.files[csvPath]);
        if loaded.Err? {
          return Err(loaded.error);
        }
        var store := new ChunkStorage(csvPath, loaded.value);
        return Ok(store);
      }
      if !mkdirOk {
        return Err(IoError);
      }
      var store := new ChunkStorage(csvPath, []);
      return Ok(store);
    }

    /**
     * `save`: truncate the file, then write the header and one row per
     * chunk. A failure to create the file leaves it alone; a failure while
     * writing leaves what had reached the file before it.
     */
    method Save(fs: FileSystem, outcome: WriteOutcome) returns (r: Result<(), StoreError>)
      modifies fs
      ensures fs.files == FilesAfterSave(old(fs.files), csvPath, EncodeStore(chunks), outcome)
      ensures r.Ok? <==> outcome.Written?
      ensures r.Err? ==> r.error == IoError
    {
      if outcome.CreateFailed? {
        return Err(IoError);
      }
      var text := WriteRecords(Header(), chunks);
      fs.files := FilesAfterSave(fs.files, csvPath, text, outcome);
      r := if outcome.Written? then Ok(()) else Err(IoError);
    }

    /** `add_chunk`: append in memory, then save; the chunk stays in memory even when saving fails. */
    method AddChunk(c: Chunk, fs: FileSystem, outcome: WriteOutcome) returns (r: Result<(), StoreError>)
      modifies this, fs
      ensures chunks == old(chunks) + [c]
      ensures fs.files == FilesAfterSave(old(fs.files), csvPath, EncodeStore(chunks), outcome)
      ensures r.Ok? <==> outcome.Written?
      ensures r.Err? ==> r.error == IoError
    {
      chunks := chunks + [c];
      r := Save(fs, outcome);
    }

    /** `get_chunks_for_file`. */
    function GetChunksForFile(path: Path): (r: seq<Chunk>)
      reads this
      ensures r == FilterByFile(chunks, path)
      ensures forall c :: c in r <==> c in chunks && c.filePath == path
    {
      forall c ensures c in FilterByFile(chunks, path) <==> c in chunks && c.filePath == path {
        FilterMembers(chunks, path, c);
      }
      FilterByFile(chunks, path)
    }

    /** `get_chunked_ranges`. */
    function GetChunkedRanges(path: Path): (r: seq<Range>)
      reads this
      ensures |r| == |GetChunksForFile(path)|
      ensures forall i :: 0 <= i < |r| ==>
        r[i] == (GetChunksForFile(path)[i].startLine, GetChunksForFile(path)[i].endLine)
    {
      ChunkedRanges(chunks, path)
    }

    /** `calculate_chunking_percentage`: the marking loop over the file's ranges. */
    method CalculateChunkingPercentage(path: Path, totalLines: nat) returns (p: real)
      ensures p == StoreCoverage(chunks, path, totalLines)
      ensures 0.0 <= p <= 100.0
    {
      StoreCoverageAtMostHundred(chunks, path, totalLines);
      if totalLines == 0 {
        return 0.0;
      }
      var fileChunks := FilterByFile(chunks, path);
      if |fileChunks| == 0 {
        return 0.0;
      }
      var count := CountCovered(ChunkedRanges(chunks, path), totalLines);
      p := Percent(count, totalLines);
    }
  }
}
