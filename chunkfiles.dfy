/**
 * The names under which chunks are written to disk, and string truncation.
 *
 * A chunk of lines `start ..= end` (0-indexed) of a file is saved as
 * `<stem>_<start+1>-<end+1>.txt`, where the stem is the file's path relative
 * to the root with separators and punctuation turned into `_`. The explorer
 * reads such names back to rebuild each file's chunked ranges, so the name
 * must be decodable: `ParseChunkFilename` is that decoder.
 */
module ChunkFiles {
  import opened Paths
  import opened Decimal

  // ---------------------------------------------------------------------
  // truncate_string
  // ---------------------------------------------------------------------

  /** Bytes taken by a scalar value in UTF-8. */
  function Utf8Width(c: char): (w: nat)
    ensures 1 <= w <= 4
    ensures w == 1 <==> c as int < 0x80
  {
    if c as int < 0x80 then 1
    else if c as int < 0x800 then 2
    else if c as int < 0x1_0000 then 3
    else 4
  }

  /** `str::len`: the length of a string in UTF-8 bytes. */
  function Utf8Len(s: String): (n: nat)
    ensures |s| <= n <= 4 * |s|
  {
    if |s| == 0 then 0 else Utf8Width(s[0]) + Utf8Len(s[1..])
  }

  predicate Ascii(s: String)
  {
    forall i :: 0 <= i < |s| ==> s[i] as int < 0x80
  }

  lemma {:induction false} AsciiBytesAreChars(s: String)
    requires Ascii(s)
    ensures Utf8Len(s) == |s|
  {
    if |s| > 0 {
      AsciiBytesAreChars(s[1..]);
    }
  }

  /** `s.chars().take(n).collect()`. */
  function TakeChars(s: String, n: nat): (r: String)
    ensures StartsWith(s, r) && |r| == Min(n, |s|)
  {
    s[..Min(n, |s|)]
  }

  /**
   * `truncate_string(s, max_len)` as written: the test compares the UTF-8
   * byte length with `max_len`, the cut counts characters. Unchanged when it
   * fits; the first `max_len` characters when `max_len < 3`; otherwise the
   * first `max_len - 3` characters followed by `"..."`.
   */
  function TruncateString(s: String, maxLen: nat): (r: String)
    ensures Utf8Len(s) <= maxLen ==> r == s
    ensures Utf8Len(s) > maxLen && maxLen < 3 ==> StartsWith(s, r) && |r| == Min(maxLen, |s|)
    ensures Utf8Len(s) > maxLen && maxLen >= 3 ==>
      EndsWith(r, "...") && StartsWith(s, r[..|r| - 3]) && |r| == Min(maxLen - 3, |s|) + 3
  {
    if Utf8Len(s) <= maxLen then s
    else if maxLen < 3 then TakeChars(s, maxLen)
    else TakeChars(s, maxLen - 3) + "..."
  }

  /**
   * A three-character string of two-byte characters is "truncated" to four
   * characters and five bytes for a limit of four: longer than the input in
   * characters and longer than the limit in bytes.
   */
  lemma TruncateStringOvershoots()
    ensures TruncateString("ééé", 4) == "é..."
    ensures |TruncateString("ééé", 4)| > |"ééé"|
    ensures Utf8Len(TruncateString("ééé", 4)) > 4
  {
    var s := "ééé";
    assert Utf8Len(s) == 6 by {
      assert s[1..] == "éé";
      assert s[1..][1..] == "é";
    }
    var r := TruncateString(s, 4);
    assert r == "é...";
    assert Utf8Len(r) == 5 by {
      assert r[1..] == "...";
      assert r[1..][1..] == "..";
      assert r[1..][1..][1..] == ".";
    }
  }

  /**
   * `truncate_string` measuring in characters throughout, as its callers
   * use it (a width on screen): never longer than `max_len` characters.
   */
  function TruncateChars(s: String, maxLen: nat): (r: String)
    ensures |s| <= maxLen ==> r == s
    ensures |r| == Min(|s|, maxLen)
    ensures StartsWith(s, r) || (|r| >= 3 && EndsWith(r, "...") && StartsWith(s, r[..|r| - 3]))
  {
    if |s| <= maxLen then s
    else if maxLen < 3 then TakeChars(s, maxLen)
    else TakeChars(s, maxLen - 3) + "..."
  }

  /** On ASCII text bytes are characters, so both readings agree. */
  lemma TruncateAgreesOnAscii(s: String, maxLen: nat)
    requires Ascii(s)
    ensures TruncateString(s, maxLen) == TruncateChars(s, maxLen)
    ensures |TruncateString(s, maxLen)| == Min(|s|, maxLen)
  {
    AsciiBytesAreChars(s);
  }

  // ---------------------------------------------------------------------
  // The chunk file stem
  // ---------------------------------------------------------------------

  /** The characters the stem replaces by `_`. */
  predicate Special(c: char)
  {
    c == '/' || c == '\\' || c == '.' || c == ' ' || c == '-' || c == ':' || c == '+'
  }

  /** The two `replace` passes: every special character becomes `_`. */
  function ReplaceSpecials(s: String): (r: String)
    ensures |r| == |s|
    ensures forall i :: 0 <= i < |s| ==> !Special(r[i])
    ensures forall i :: 0 <= i < |s| ==> (r[i] == '_' <==> s[i] == '_' || Special(s[i]))
    ensures forall i :: 0 <= i < |s| && !Special(s[i]) ==> r[i] == s[i]
  {
    if |s| == 0 then ""
    else [if Special(s[0]) then '_' else s[0]] + ReplaceSpecials(s[1..])
  }

  /** Text without special characters is left as it is. */
  lemma NoSpecialsKept(s: String)
    requires forall i :: 0 <= i < |s| ==> !Special(s[i])
    ensures ReplaceSpecials(s) == s
  {
  }

  /** `trim_start_matches('_')`. */
  function TrimUnderscores(s: String): (r: String)
    ensures |r| <= |s| && r == s[|s| - |r|..]
    ensures forall i :: 0 <= i < |s| - |r| ==> s[i] == '_'
    ensures |r| > 0 ==> r[0] != '_'
  {
    if |s| == 0 || s[0] != '_' then s
    else TrimUnderscores(s[1..])
  }

  /** The stem both the file-name encoder and the explorer's matcher compute. */
  function SanitizedPath(relative: Path): (r: String)
    ensures forall i :: 0 <= i < |r| ==> !Special(r[i])
    ensures |r| > 0 ==> r[0] != '_'
  {
    var replaced := ReplaceSpecials(PathToString(relative));
    var r := TrimUnderscores(replaced);
    assert forall i :: 0 <= i < |r| ==> r[i] == replaced[|replaced| - |r| + i];
    r
  }

  /** The stem of `generate_chunk_filename`, with `unnamed_file` standing in for an empty one. */
  function ChunkStem(file: Path, root: Path): (r: String)
    ensures |r| > 0 && r[0] != '_'
    ensures forall i :: 0 <= i < |r| ==> !Special(r[i])
  {
    var s := SanitizedPath(RelativeTo(file, root));
    if |s| == 0 then "unnamed_file" else s
  }

  /** Paths that differ only in punctuation share a stem, and so share their chunk files. */
  lemma StemsCollide()
    ensures ChunkStem(Path(false, ["a.b"]), Path(false, [])) == ChunkStem(Path(false, ["a_b"]), Path(false, []))
  {
    var root := Path(false, []);
    var p := Path(false, ["a.b"]);
    var q := Path(false, ["a_b"]);
    assert RelativeTo(p, root) == p && RelativeTo(q, root) == q by {
      assert PathStartsWith(p, root) && PathStartsWith(q, root);
    }
    SingleComponentString("a.b");
    SingleComponentString("a_b");
    DotBecomesUnderscore();
    NoSpecialsKept("a_b");
  }

  /** A relative path of one component prints as that component. */
  lemma SingleComponentString(name: String)
    ensures PathToString(Path(false, [name])) == name
  {
  }

  lemma DotBecomesUnderscore()
    ensures ReplaceSpecials("a.b") == "a_b"
  {
    assert "a.b"[1..] == ".b";
    assert "a.b"[1..][1..] == "b";
  }

  // ---------------------------------------------------------------------
  // generate_chunk_filename and its inverse
  // ---------------------------------------------------------------------

  /** `_<start>-<end>.txt` with the numbers already made 1-indexed. */
  function RangeSuffix(first: nat, last: nat): String
  {
    "_" + NatToDecimal(first) + "-" + NatToDecimal(last) + ".txt"
  }

  /** `generate_chunk_filename(file, root, start, end)`. */
  function GenerateChunkFilename(file: Path, root: Path, start: nat, end: nat): (name: String)
    ensures StartsWith(name, ChunkStem(file, root))
    ensures EndsWith(name, RangeSuffix(start + 1, end + 1))
  {
    var stem := ChunkStem(file, root);
    var suffix := RangeSuffix(start + 1, end + 1);
    assert (stem + suffix)[..|stem|] == stem;
    assert (stem + suffix)[|stem + suffix| - |suffix|..] == suffix;
    stem + suffix
  }

  /** `Path::extension` of a file name: after the last `.`, unless that dot leads the name. */
  function Extension(name: String): (r: Option<String>)
    ensures r.None? <==> name == ".." || '.' !in name || (name[0] == '.' && '.' !in name[1..])
    ensures r.Some? ==> EndsWith(name, "." + r.value) && |r.value| + 1 < |name| && '.' !in r.value
  {
    if name == ".." then None
    else
      match LastIndexOf(name, '.')
      case None => None
      case Some(i) =>
        if i == 0 then None
        else
          assert name[i..] == "." + name[i + 1..];
          Some(name[i + 1..])
  }

  /** What one chunk file name contributes: the stem it belongs to and its 0-indexed range. */
  datatype ChunkName = ChunkName(stem: String, start: nat, end: nat)

  /**
   * The first steps of the parse: a `.txt` file name, its last `_`, and the
   * text between that `_` and the `.txt` suffix.
   */
  function SplitChunkFilename(name: String): (r: Option<(nat, String)>)
    ensures Extension(name) != Some("txt") ==> r.None?
    ensures '_' !in name ==> r.None?
    ensures r.Some? ==> r.value.0 < |name| && name[r.value.0] == '_' && '_' !in name[r.value.0 + 1..]
  {
    if Extension(name) != Some("txt") then None
    else
      match LastIndexOf(name, '_')
      case None => None
      case Some(u) =>
        var tail := name[u + 1..];
        if !EndsWith(tail, ".txt") then None
        else Some((u, tail[..|tail| - 4]))
  }

  /** `split_once('-')` on the range text, both halves parsed as `usize`, then made 0-indexed. */
  function ParseRange(range: String): (r: Option<(nat, nat)>)
    ensures '-' !in range ==> r.None?
  {
    match FirstIndexOf(range, '-')
    case None => None
    case Some(k) =>
      var first := ParseUsize(range[..k]);
      var last := ParseUsize(range[k + 1..]);
      if first.None? || last.None? then None
      else Some((SatSub(first.value, 1), SatSub(last.value, 1)))
  }

  /**
   * The parse inside `init_chunking_progress`: a `.txt` file whose name is
   * `<stem>_<A>-<B>.txt` (split at the last `_` and the first `-` after it)
   * with both numbers parsing as `usize` gives `(A - 1, B - 1)`, saturating,
   * for `stem`; every other name is skipped.
   */
  function ParseChunkFilename(name: String): (r: Option<ChunkName>)
    ensures Extension(name) != Some("txt") || '_' !in name ==> r.None?
    ensures r.Some? ==> |r.value.stem| < |name| && name[..|r.value.stem|] == r.value.stem
                        && name[|r.value.stem|] == '_' && '_' !in name[|r.value.stem| + 1..]
  {
    match SplitChunkFilename(name)
    case None => None
    case Some((u, range)) =>
      match ParseRange(range)
      case None => None
      case Some((start, end)) => Some(ChunkName(name[..u], start, end))
  }

  lemma DecimalHasNoSeparators(n: nat)
    ensures '_' !in NatToDecimal(n) && '-' !in NatToDecimal(n) && '.' !in NatToDecimal(n)
  {
    var d := NatToDecimal(n);
    assert forall i :: 0 <= i < |d| ==> IsDigit(d[i]);
  }

  /** In `p + [c] + s` with no `c` in `s`, the last `c` is at `|p|`. */
  lemma {:induction false} LastIndexBeforeFreeSuffix(p: String, c: char, s: String)
    requires c !in s
    ensures LastIndexOf(p + [c] + s, c) == Some(|p|)
  {
    var t := p + [c] + s;
    if |s| > 0 {
      LastIndexBeforeFreeSuffix(p, c, s[..|s| - 1]);
      assert s[|s| - 1] in s;
      assert t[..|t| - 1] == p + [c] + s[..|s| - 1];
    }
  }

  /** Any non-empty base with `.txt` appended has extension `txt`. */
  lemma TxtExtension(base: String)
    requires |base| > 0
    ensures Extension(base + ".txt") == Some("txt")
  {
    var name := base + ".txt";
    assert name == base + ['.'] + "txt";
    LastIndexBeforeFreeSuffix(base, '.', "txt");
    assert |name| > 2;
    assert name[|base| + 1..] == "txt";
  }

  /** A name `<stem>_<range>.txt` splits into the stem's length and the range text. */
  lemma SplitGenerated(stem: String, range: String)
    requires |stem| > 0
    requires '_' !in range && '.' !in range
    ensures SplitChunkFilename(stem + "_" + range + ".txt") == Some((|stem|, range))
  {
    var name := stem + "_" + range + ".txt";
    var tail := range + ".txt";
    TxtExtension(stem + "_" + range);
    assert name == stem + ['_'] + tail;
    assert '_' !in tail;
    LastIndexBeforeFreeSuffix(stem, '_', tail);
    assert name[|stem| + 1..] == tail;
    assert EndsWith(tail, ".txt");
    assert tail[..|tail| - 4] == range;
  }

  /** `<A>-<B>` with no `-` in `A` splits at that dash and parses both halves. */
  lemma ParseRangeOf(a: String, b: String, x: nat, y: nat)
    requires '-' !in a && ParseUsize(a) == Some(x) && ParseUsize(b) == Some(y)
    ensures ParseRange(a + "-" + b) == Some((SatSub(x, 1), SatSub(y, 1)))
  {
    var range := a + "-" + b;
    assert range == a + ['-'] + b;
    FirstIndexAfterPrefix(a, '-', b);
    assert range[..|a|] == a;
    assert range[|a| + 1..] == b;
  }

  /** `<A>-<B>` rendered from two `usize` values parses back to them, less one. */
  lemma ParseGeneratedRange(first: nat, last: nat)
    requires 1 <= first <= UsizeMax && 1 <= last <= UsizeMax
    ensures ParseRange(NatToDecimal(first) + "-" + NatToDecimal(last)) == Some((first - 1, last - 1))
  {
    DecimalHasNoSeparators(first);
    DecimalRoundTrip(first);
    DecimalRoundTrip(last);
    ParseRangeOf(NatToDecimal(first), NatToDecimal(last), first, last);
  }

  /** A name split at the stem's length with a range that parses gives that stem and range. */
  lemma ParseSplitName(name: String, stem: String, range: String, start: nat, end: nat)
    requires |stem| <= |name| && name[..|stem|] == stem
    requires SplitChunkFilename(name) == Some((|stem|, range))
    requires ParseRange(range) == Some((start, end))
    ensures ParseChunkFilename(name) == Some(ChunkName(stem, start, end))
  {
  }

  /** The generated suffix is `_`, the range text, then `.txt`. */
  lemma RangeSuffixShape(stem: String, first: nat, last: nat)
    ensures stem + RangeSuffix(first, last) == stem + "_" + (NatToDecimal(first) + "-" + NatToDecimal(last)) + ".txt"
  {
  }

  /** A stem followed by a generated suffix parses back to the stem and the 0-indexed range. */
  lemma ParseStemAndSuffix(stem: String, start: nat, end: nat)
    requires |stem| > 0
    requires start + 1 <= UsizeMax && end + 1 <= UsizeMax
    ensures ParseChunkFilename(stem + RangeSuffix(start + 1, end + 1)) == Some(ChunkName(stem, start, end))
  {
    var range := NatToDecimal(start + 1) + "-" + NatToDecimal(end + 1);
    DecimalHasNoSeparators(start + 1);
    DecimalHasNoSeparators(end + 1);
    var name := stem + RangeSuffix(start + 1, end + 1);
    RangeSuffixShape(stem, start + 1, end + 1);
    SplitGenerated(stem, range);
    ParseGeneratedRange(start + 1, end + 1);
    assert name[..|stem|] == stem;
    ParseSplitName(name, stem, range, start, end);
  }

  /**
   * Decoding a generated name gives back the stem and the 0-indexed range,
   * for every range whose 1-indexed ends fit in a `usize`.
   */
  lemma ChunkFilenameRoundTrip(file: Path, root: Path, start: nat, end: nat)
    requires start + 1 <= UsizeMax && end + 1 <= UsizeMax
    ensures ParseChunkFilename(GenerateChunkFilename(file, root, start, end))
         == Some(ChunkName(ChunkStem(file, root), start, end))
  {
    ParseStemAndSuffix(ChunkStem(file, root), start, end);
  }
}
