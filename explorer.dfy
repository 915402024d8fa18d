/**
 * The file explorer: the entries of the current directory (directories
 * first, then files, each group by name), a selected index, and a cache of
 * per-file chunking progress filled from the chunk files on disk.
 *
 * The file system is given as values: a directory listing is the sequence
 * of entries `WalkDir` yields at depth 1 (`None` for an entry it could not
 * read), the files under the root are given with their line counts, and the
 * chunk directory by the names of the files in it.
 */
module FileExplorer {
  import opened Paths
  import opened Decimal
  import opened Coverage
  import opened ChunkFiles

  /** `DirectoryEntry`; the progress is a percentage in `0 .. 100`. */
  datatype Entry = Entry(name: String, path: Path, isDir: bool, progress: real)

  /** One entry of a directory listing: its file name and whether it is a directory. */
  datatype Listed = Listed(name: String, isDir: bool)

  /** A regular file under the root, with its line count, or `None` when reading it fails. */
  datatype FileInfo = FileInfo(path: Path, lines: Option<nat>)

  datatype ExplorerError = UnreadableEntry

  /** The name of the entry that leads to the parent directory. */
  const ParentName: String := ".."

  // ---------------------------------------------------------------------
  // The order of the entry list
  // ---------------------------------------------------------------------

  /**
   * `String::cmp` as `<=`: lexicographic on bytes, which for UTF-8 is
   * lexicographic on the characters.
   */
  predicate NameLe(a: String, b: String)
  {
    |a| == 0 || (|b| > 0 && (a[0] < b[0] || (a[0] == b[0] && NameLe(a[1..], b[1..]))))
  }

  lemma {:induction false} NameLeTotal(a: String, b: String)
    ensures NameLe(a, b) || NameLe(b, a)
  {
    if |a| > 0 && |b| > 0 && a[0] == b[0] {
      NameLeTotal(a[1..], b[1..]);
    }
  }

  lemma {:induction false} NameLeTrans(a: String, b: String, c: String)
    requires NameLe(a, b) && NameLe(b, c)
    ensures NameLe(a, c)
  {
    if |a| > 0 && a[0] == b[0] && b[0] == c[0] {
      NameLeTrans(a[1..], b[1..], c[1..]);
    }
  }

  lemma {:induction false} NameLeAntisymmetric(a: String, b: String)
    requires NameLe(a, b) && NameLe(b, a)
    ensures a == b
  {
    if |a| > 0 {
      NameLeAntisymmetric(a[1..], b[1..]);
      assert a == [a[0]] + a[1..] && b == [b[0]] + b[1..];
    }
  }

  /** The comparator of `load_entries`: directories before files, then by name. */
  predicate EntryLe(a: Entry, b: Entry)
  {
    (a.isDir && !b.isDir) || (a.isDir == b.isDir && NameLe(a.name, b.name))
  }

  lemma EntryLeTotal(a: Entry, b: Entry)
    ensures EntryLe(a, b) || EntryLe(b, a)
  {
    NameLeTotal(a.name, b.name);
  }

  lemma EntryLeTrans(a: Entry, b: Entry, c: Entry)
    requires EntryLe(a, b) && EntryLe(b, c)
    ensures EntryLe(a, c)
  {
    if a.isDir == b.isDir == c.isDir {
      NameLeTrans(a.name, b.name, c.name);
    }
  }

  predicate SortedEntries(s: seq<Entry>)
  {
    forall i, j :: 0 <= i < j < |s| ==> EntryLe(s[i], s[j])
  }

  /** `x` placed after every entry of `s` that does not come strictly after it. */
  function InsertEntry(x: Entry, s: seq<Entry>): (r: seq<Entry>)
    ensures |r| == |s| + 1
    ensures multiset(r) == multiset(s) + multiset{x}
  {
    if |s| == 0 then [x]
    else if EntryLe(x, s[0]) && !EntryLe(s[0], x) then [x] + s
    else
      assert s == [s[0]] + s[1..];
      [s[0]] + InsertEntry(x, s[1..])
  }

  lemma {:induction false} InsertSorted(x: Entry, s: seq<Entry>)
    requires SortedEntries(s)
    ensures SortedEntries(InsertEntry(x, s))
  {
    if |s| > 0 && !(EntryLe(x, s[0]) && !EntryLe(s[0], x)) {
      InsertSorted(x, s[1..]);
      EntryLeTotal(x, s[0]);
      var rest := InsertEntry(x, s[1..]);
      forall k | 0 <= k < |rest|
        ensures EntryLe(s[0], rest[k])
      {
        assert rest[k] in multiset(s[1..]) + multiset{x} by {
          assert rest[k] in multiset(rest);
        }
        if rest[k] != x {
          var m :| 0 <= m < |s[1..]| && s[1..][m] == rest[k];
          assert s[m + 1] == rest[k];
        }
      }
    } else if |s| > 0 {
      forall i, j | 0 <= i < j < |s| + 1
        ensures EntryLe(([x] + s)[i], ([x] + s)[j])
      {
        if i == 0 && j > 1 {
          EntryLeTrans(x, s[0], s[j - 1]);
        }
      }
    }
  }

  /**
   * `sort_by` with the comparator of `load_entries`, as a stable insertion
   * sort: sorted, and a permutation of its input.
   */
  function SortEntries(s: seq<Entry>): (r: seq<Entry>)
    ensures |r| == |s|
    ensures multiset(r) == multiset(s)
    ensures SortedEntries(r)
  {
    if |s| == 0 then []
    else
      var sorted := SortEntries(s[..|s| - 1]);
      SortStep(s, sorted);
      InsertEntry(s[|s| - 1], sorted)
  }

  /** Inserting the last entry into the sorted rest keeps the result sorted and a permutation. */
  lemma SortStep(s: seq<Entry>, sorted: seq<Entry>)
    requires |s| > 0 && SortedEntries(sorted) && multiset(sorted) == multiset(s[..|s| - 1])
    ensures SortedEntries(InsertEntry(s[|s| - 1], sorted))
    ensures multiset(InsertEntry(s[|s| - 1], sorted)) == multiset(s)
  {
    InsertSorted(s[|s| - 1], sorted);
    assert s == s[..|s| - 1] + [s[|s| - 1]];
  }

  /** No two entries share their kind and name, as in one directory. */
  predicate DistinctKeys(s: seq<Entry>)
  {
    forall i, j :: 0 <= i < j < |s| ==> (s[i].isDir, s[i].name) != (s[j].isDir, s[j].name)
  }

  /**
   * Two sorted lists with the same entries are equal when their keys are
   * distinct: the order of a directory's entries is unique.
   */
  lemma {:induction false} SortedIsUnique(a: seq<Entry>, b: seq<Entry>)
    requires SortedEntries(a) && SortedEntries(b) && multiset(a) == multiset(b)
    requires DistinctKeys(a)
    ensures a == b
    decreases |a|
  {
    SameLength(a, b);
    if |a| > 0 {
      SortedHeadsAgree(a, b);
      TailOf(a);
      TailOf(b);
      assert multiset(a[1..]) == multiset(b[1..]);
      SortedIsUnique(a[1..], b[1..]);
      ConsEqual(a, b);
    }
  }

  lemma SameLength(a: seq<Entry>, b: seq<Entry>)
    requires multiset(a) == multiset(b)
    ensures |a| == |b|
  {
    assert |a| == |multiset(a)| == |multiset(b)| == |b|;
  }

  lemma ConsEqual(a: seq<Entry>, b: seq<Entry>)
    requires |a| > 0 && |b| > 0 && a[0] == b[0] && a[1..] == b[1..]
    ensures a == b
  {
    assert a == [a[0]] + a[1..] && b == [b[0]] + b[1..];
  }

  /** What the tail of a list keeps of the list's properties. */
  lemma TailOf(a: seq<Entry>)
    requires |a| > 0
    ensures multiset(a[1..]) == multiset(a) - multiset{a[0]}
    ensures SortedEntries(a) ==> SortedEntries(a[1..])
    ensures DistinctKeys(a) ==> DistinctKeys(a[1..])
  {
    assert a == [a[0]] + a[1..];
  }

  /** The least entry of two sorted lists with the same entries is the same entry. */
  lemma SortedHeadsAgree(a: seq<Entry>, b: seq<Entry>)
    requires |a| > 0 && |b| > 0
    requires SortedEntries(a) && SortedEntries(b) && multiset(a) == multiset(b)
    requires DistinctKeys(a)
    ensures a[0] == b[0]
  {
    assert a[0] in multiset(b);
    assert b[0] in multiset(a);
    var i :| 0 <= i < |b| && b[i] == a[0];
    var j :| 0 <= j < |a| && a[j] == b[0];
    EntryLe0(a, j);
    EntryLe0(b, i);
    if a[0].isDir == b[0].isDir {
      NameLeAntisymmetric(a[0].name, b[0].name);
    }
    assert j == 0;
  }

  lemma EntryLe0(s: seq<Entry>, k: nat)
    requires SortedEntries(s) && k < |s|
    ensures EntryLe(s[0], s[k])
  {
    if k == 0 {
      EntryLeTotal(s[0], s[0]);
    }
  }

  // ---------------------------------------------------------------------
  // Confinement to the root and the parent entry
  // ---------------------------------------------------------------------

  /**
   * `p` lies under `root` and has no `..` component, so it names a
   * directory inside the root (the root itself is canonical).
   */
  predicate Confined(p: Path, root: Path)
  {
    PathStartsWith(p, root) && forall i :: 0 <= i < |p.parts| ==> p.parts[i] != ParentName
  }

  /** The directory a path names once every `..` is resolved lexically. */
  function Resolve(parts: seq<String>): (r: seq<String>)
    ensures |r| <= |parts|
  {
    if |parts| == 0 then []
    else
      var init := Resolve(parts[..|parts| - 1]);
      if parts[|parts| - 1] == ParentName then (if |init| == 0 then [] else init[..|init| - 1])
      else init + [parts[|parts| - 1]]
  }

  lemma {:induction false} ResolveConfined(parts: seq<String>)
    requires forall i :: 0 <= i < |parts| ==> parts[i] != ParentName
    ensures Resolve(parts) == parts
  {
    if |parts| > 0 {
      ResolveConfined(parts[..|parts| - 1]);
      assert parts == parts[..|parts| - 1] + [parts[|parts| - 1]];
    }
  }

  /** The `..` entry as written: `current_dir.join("..")`. */
  function ParentEntryAsWritten(current: Path): (e: Entry)
    ensures e.isDir && e.name == ParentName && e.path.parts == current.parts + [ParentName]
  {
    Entry(ParentName, Child(current, ParentName), true, 0.0)
  }

  /**
   * Opening the `..` entry as written twice from `/r/d`, with root `/r`:
   * the first step lands on `/r/d/..`, which is the root but does not compare
   * equal to it, so the `..` entry is offered again, and the second step
   * names `/`, above the root.
   */
  lemma ParentEntryEscapesRoot()
    ensures var root := Path(true, ["r"]);
      var once := ParentEntryAsWritten(Path(true, ["r", "d"])).path;
      var twice := ParentEntryAsWritten(once).path;
      Resolve(once.parts) == root.parts && once != root
      && Resolve(twice.parts) == [] && !PathStartsWith(Path(true, Resolve(twice.parts)), root)
  {
    var once: seq<String> := ["r", "d", ParentName];
    var twice: seq<String> := ["r", "d", ParentName, ParentName];
    assert once[..2] == ["r", "d"] && ["r", "d"][..1] == ["r"] && ["r"][..0] == [];
    assert twice[..3] == once;
  }

  /** The `..` entry as intended: it leads to the parent, `current_dir.parent()`. */
  function ParentEntry(current: Path): (e: Entry)
    ensures e.isDir && e.name == ParentName
    ensures |current.parts| > 0 ==> Some(e.path) == Parent(current)
  {
    Entry(ParentName, match Parent(current) case Some(p) => p case None => current, true, 0.0)
  }

  /** Leaving a confined directory other than the root for its parent stays inside the root. */
  lemma ParentStaysConfined(current: Path, root: Path)
    requires Confined(current, root) && current != root
    ensures Parent(current).Some? && Confined(Parent(current).value, root)
  {
    assert |current.parts| != |root.parts|;
    var p := Parent(current).value;
    assert p.parts == current.parts[..|current.parts| - 1];
    assert p.parts[..|root.parts|] == current.parts[..|root.parts|];
  }

  /** A file name a directory listing can yield: one component, never `.` or `..`. */
  predicate ProperName(name: String)
  {
    name != "" && name != "." && name != ParentName && '/' !in name
  }

  /** Entering a listed subdirectory of a confined directory stays inside the root. */
  lemma ChildStaysConfined(current: Path, root: Path, name: String)
    requires Confined(current, root) && ProperName(name)
    ensures Confined(Child(current, name), root)
  {
    var c := Child(current, name);
    assert c.parts[..|root.parts|] == current.parts[..|root.parts|];
  }

  /**
   * What the explorer as written keeps: its current directory starts with
   * the root, component by component. Opening any entry, `..` included,
   * appends one component, so the prefix stays.
   */
  lemma ChildKeepsPrefix(current: Path, root: Path, name: String)
    requires PathStartsWith(current, root)
    ensures PathStartsWith(Child(current, name), root)
  {
    var c := Child(current, name);
    assert c.parts[..|root.parts|] == current.parts[..|root.parts|];
  }

  /** Below the root, dropping the last component keeps the root as a prefix. */
  lemma ParentKeepsPrefix(current: Path, root: Path)
    requires PathStartsWith(current, root) && current != root
    ensures Parent(current).Some? && PathStartsWith(Parent(current).value, root)
  {
    assert |current.parts| != |root.parts|;
    var p := Parent(current).value;
    assert p.parts == current.parts[..|current.parts| - 1];
    assert p.parts[..|root.parts|] == current.parts[..|root.parts|];
  }

  // ---------------------------------------------------------------------
  // Building the entry list
  // ---------------------------------------------------------------------

  /** The entry `load_entries` makes of one listed name: files carry their cached progress. */
  function ListedEntry(current: Path, l: Listed, progress: map<Path, real>): (e: Entry)
    ensures e.name == l.name && e.isDir == l.isDir && e.path == Child(current, l.name)
    ensures e.isDir ==> e.progress == 0.0
    ensures !e.isDir && e.path in progress ==> e.progress == progress[e.path]
    ensures !e.isDir && e.path !in progress ==> e.progress == 0.0
  {
    var path := Child(current, l.name);
    Entry(l.name, path, l.isDir, if l.isDir then 0.0 else ProgressOf(progress, path))
  }

  /** `*map.get(path).unwrap_or(&0.0)`. */
  function ProgressOf(progress: map<Path, real>, path: Path): real
  {
    if path in progress then progress[path] else 0.0
  }

  /** The listed names up to the first one that could not be read. */
  function Readable(listing: seq<Option<Listed>>): (r: seq<Listed>)
    ensures |r| <= |listing|
    ensures forall i :: 0 <= i < |r| ==> listing[i] == Some(r[i])
    ensures |r| < |listing| ==> listing[|r|].None?
  {
    if |listing| == 0 || listing[0].None? then []
    else [listing[0].value] + Readable(listing[1..])
  }

  /** The listing is the children of one directory: proper names, each once. */
  predicate ProperListing(listing: seq<Option<Listed>>)
  {
    (forall i :: 0 <= i < |listing| && listing[i].Some? ==> ProperName(listing[i].value.name))
    && forall i, j :: 0 <= i < j < |listing| && listing[i].Some? && listing[j].Some?
         ==> listing[i].value.name != listing[j].value.name
  }

  /** The listing could be read to the end. */
  predicate AllReadable(listing: seq<Option<Listed>>)
  {
    |Readable(listing)| == |listing|
  }

  /** `Readable` is the only prefix of values that stops at an unreadable entry or the end. */
  lemma ReadableUnique(listing: seq<Option<Listed>>, vals: seq<Listed>)
    requires |vals| <= |listing| && forall k :: 0 <= k < |vals| ==> listing[k] == Some(vals[k])
    requires |vals| < |listing| ==> listing[|vals|].None?
    ensures Readable(listing) == vals
  {
    var r := Readable(listing);
    assert |r| == |vals|;
    assert forall k :: 0 <= k < |r| ==> listing[k] == Some(r[k]) == Some(vals[k]);
  }

  /** The entries `load_entries` pushes for the listed names, in listing order. */
  function EntriesOf(current: Path, listed: seq<Listed>, progress: map<Path, real>): (r: seq<Entry>)
    ensures |r| == |listed|
    ensures forall k :: 0 <= k < |r| ==> r[k] == ListedEntry(current, listed[k], progress)
  {
    if |listed| == 0 then []
    else EntriesOf(current, listed[..|listed| - 1], progress) + [ListedEntry(current, listed[|listed| - 1], progress)]
  }

  /** The `..` entry as written, present wherever the current directory differs from the root. */
  function ParentEntries(current: Path, root: Path): (r: seq<Entry>)
    ensures |r| <= 1
    ensures |r| == 1 <==> current != root
  {
    if current != root then [ParentEntryAsWritten(current)] else []
  }

  /** In a sorted list the directories come first. */
  lemma DirectoriesFirst(s: seq<Entry>)
    requires SortedEntries(s)
    ensures forall i, j :: 0 <= i < j < |s| && s[j].isDir ==> s[i].isDir
  {
    forall i, j | 0 <= i < j < |s| && s[j].isDir
      ensures s[i].isDir
    {
      assert EntryLe(s[i], s[j]);
    }
  }

  /** Sorting keeps exactly the entries it was given. */
  lemma SortSameMembers(s: seq<Entry>)
    ensures forall e :: e in SortEntries(s) <==> e in s
  {
    var es := SortEntries(s);
    forall e
      ensures e in es <==> e in s
    {
      assert e in es <==> e in multiset(es);
      assert e in s <==> e in multiset(s);
    }
  }

  /** The list holds a `..` entry. */
  predicate HasParentEntry(es: seq<Entry>)
  {
    exists e :: e in es && e.name == ParentName
  }

  /** Sorting neither adds nor removes a `..` entry. */
  lemma SortKeepsParent(s: seq<Entry>)
    ensures HasParentEntry(SortEntries(s)) <==> HasParentEntry(s)
  {
    SortSameMembers(s);
  }

  /**
   * The list `load_entries` shows once every entry was read, sorted, has a
   * `..` entry exactly when the directory is not the root.
   */
  lemma LoadedOrder(current: Path, root: Path, listed: seq<Entry>)
    requires forall e :: e in listed ==> e.name != ParentName
    ensures HasParentEntry(SortEntries(ParentEntries(current, root) + listed)) <==> current != root
  {
    var front := ParentEntries(current, root);
    var pushed := front + listed;
    SortKeepsParent(pushed);
    if current != root {
      assert pushed[0] in pushed;
    } else {
      assert pushed == listed;
    }
  }

  /** No entry made from a proper listing is called `..`. */
  lemma NoListedParent(current: Path, listing: seq<Option<Listed>>, progress: map<Path, real>)
    requires ProperListing(listing)
    ensures forall e :: e in EntriesOf(current, Readable(listing), progress) ==> e.name != ParentName
  {
    var listed := EntriesOf(current, Readable(listing), progress);
    forall e | e in listed
      ensures e.name != ParentName
    {
      var k :| 0 <= k < |listed| && listed[k] == e;
      assert listing[k].Some? && listed[k].name == listing[k].value.name;
    }
  }

  // ---------------------------------------------------------------------
  // Chunk files and the progress they give
  // ---------------------------------------------------------------------

  /** What the parse makes of each name of the chunk directory. */
  function ParseAll(names: seq<String>): (r: seq<Option<ChunkName>>)
    ensures |r| == |names|
    ensures forall k :: 0 <= k < |r| ==> r[k] == ParseChunkFilename(names[k])
  {
    seq(|names|, k requires 0 <= k < |names| => ParseChunkFilename(names[k]))
  }

  /** A parsed name that belongs to `stem`. */
  predicate IsChunkOf(n: Option<ChunkName>, stem: String)
  {
    n.Some? && n.value.stem == stem
  }

  /** The ranges the parsed chunk files record for `stem`, in listing order. */
  function RangesFor(parsed: seq<Option<ChunkName>>, stem: String): (r: seq<Range>)
    ensures |r| == 0 <==> forall i :: 0 <= i < |parsed| ==> !IsChunkOf(parsed[i], stem)
  {
    if |parsed| == 0 then []
    else
      var init := parsed[..|parsed| - 1];
      var last := parsed[|parsed| - 1];
      assert forall i :: 0 <= i < |parsed| - 1 ==> parsed[i] == init[i];
      if IsChunkOf(last, stem) then RangesFor(init, stem) + [(last.value.start, last.value.end)]
      else RangesFor(init, stem)
  }

  /** The stems of the parsed chunk files. */
  function StemsOf(parsed: seq<Option<ChunkName>>): (r: set<String>)
    ensures forall stem :: stem in r <==> exists i :: 0 <= i < |parsed| && IsChunkOf(parsed[i], stem)
  {
    if |parsed| == 0 then {}
    else
      var init := parsed[..|parsed| - 1];
      var last := parsed[|parsed| - 1];
      assert forall i :: 0 <= i < |parsed| - 1 ==> parsed[i] == init[i];
      if last.Some? then StemsOf(init) + {last.value.stem} else StemsOf(init)
  }

  /** The map `init_chunking_progress` builds: each stem to the ranges of its chunk files. */
  function ChunkGroups(parsed: seq<Option<ChunkName>>): (m: map<String, seq<Range>>)
    ensures m.Keys == StemsOf(parsed)
    ensures forall stem :: stem in m ==> m[stem] == RangesFor(parsed, stem) && |m[stem]| > 0
  {
    map stem | stem in StemsOf(parsed) :: RangesFor(parsed, stem)
  }

  /** The names `generate_chunk_filename` gives the chunks `ranges` of one file. */
  function ChunkFileNames(file: Path, root: Path, ranges: seq<Range>): (r: seq<String>)
    ensures |r| == |ranges|
    ensures forall k :: 0 <= k < |r| ==> r[k] == GenerateChunkFilename(file, root, ranges[k].0, ranges[k].1)
  {
    seq(|ranges|, k requires 0 <= k < |ranges| => GenerateChunkFilename(file, root, ranges[k].0, ranges[k].1))
  }

  /** Ranges as their chunk files parse: each under `stem`. */
  function SavedUnder(stem: String, ranges: seq<Range>): (r: seq<Option<ChunkName>>)
    ensures |r| == |ranges|
    ensures forall k :: 0 <= k < |r| ==> r[k] == Some(ChunkName(stem, ranges[k].0, ranges[k].1))
  {
    if |ranges| == 0 then []
    else SavedUnder(stem, ranges[..|ranges| - 1]) + [Some(ChunkName(stem, ranges[|ranges| - 1].0, ranges[|ranges| - 1].1))]
  }

  /** The names generated for a file's chunks parse back to the file's stem and the chunks' ranges. */
  lemma SavedNamesParse(file: Path, root: Path, ranges: seq<Range>)
    requires forall k :: 0 <= k < |ranges| ==> ranges[k].0 + 1 <= UsizeMax && ranges[k].1 + 1 <= UsizeMax
    ensures ParseAll(ChunkFileNames(file, root, ranges)) == SavedUnder(ChunkStem(file, root), ranges)
  {
    var names := ChunkFileNames(file, root, ranges);
    forall k | 0 <= k < |ranges|
      ensures ParseChunkFilename(names[k]) == Some(ChunkName(ChunkStem(file, root), ranges[k].0, ranges[k].1))
    {
      ChunkFilenameRoundTrip(file, root, ranges[k].0, ranges[k].1);
    }
  }

  /** Grouping the parsed names of one file's chunks gives back its ranges, in order. */
  lemma {:induction false} GroupSaved(stem: String, ranges: seq<Range>)
    ensures RangesFor(SavedUnder(stem, ranges), stem) == ranges
  {
    if |ranges| > 0 {
      var init := ranges[..|ranges| - 1];
      GroupSaved(stem, init);
      assert SavedUnder(stem, ranges)[..|ranges| - 1] == SavedUnder(stem, init);
      assert ranges == init + [ranges[|ranges| - 1]];
    }
  }

  /**
   * The chunk files saved for a file are found again under the file's stem,
   * with the ranges they were saved for, in order.
   */
  lemma SavedChunksGroupUnderStem(file: Path, root: Path, ranges: seq<Range>)
    requires forall k :: 0 <= k < |ranges| ==> ranges[k].0 + 1 <= UsizeMax && ranges[k].1 + 1 <= UsizeMax
    ensures RangesFor(ParseAll(ChunkFileNames(file, root, ranges)), ChunkStem(file, root)) == ranges
  {
    SavedNamesParse(file, root, ranges);
    GroupSaved(ChunkStem(file, root), ranges);
  }

  /** The stem a file under the root is matched under: its relative path, sanitized. */
  function FileStem(path: Path, root: Path): String
  {
    SanitizedPath(RelativeTo(path, root))
  }

  /** The pattern pass skips files whose path mentions `chunks/` and files outside the root. */
  predicate Considered(path: Path, root: Path)
  {
    !Contains(PathToString(path), "chunks/") && PathStartsWith(path, root)
  }

  /** The stem the pattern pass files `path` under, or `None` when it skips the file. */
  function MatchKey(root: Path, path: Path): (r: Option<String>)
    ensures r.Some? <==> Considered(path, root)
    ensures r.Some? ==> r.value == FileStem(path, root)
  {
    if Considered(path, root) then Some(FileStem(path, root)) else None
  }

  /** `MatchKey` for one root, as the argument of the functions below. */
  function KeyOf(root: Path): Path -> Option<String>
  {
    p => MatchKey(root, p)
  }

  /** The files of the walk that belong to `pattern`, in walk order. */
  function Matching(pattern: String, files: seq<FileInfo>, key: Path -> Option<String>): (r: seq<FileInfo>)
    ensures |r| <= |files|
    ensures forall k :: 0 <= k < |r| ==> key(r[k].path) == Some(pattern)
  {
    if |files| == 0 then []
    else
      var f := files[|files| - 1];
      var init := Matching(pattern, files[..|files| - 1], key);
      if key(f.path) == Some(pattern) then init + [f] else init
  }

  /** The percentage a file gets from `ranges`, when it can be read and has lines. */
  function FileScore(f: FileInfo, ranges: seq<Range>): (r: Option<real>)
    ensures r.Some? <==> f.lines.Some? && f.lines.value > 0
    ensures r.Some? ==> 0.0 <= r.value <= 100.0
  {
    if f.lines.Some? && f.lines.value > 0 then
      var total := f.lines.value;
      PercentBounds(CoveredBelow(ranges, total), total, total);
      Some(Percent(CoveredBelow(ranges, total), total))
    else None
  }

  /** The progress recorded for `files` in order, a later entry for a path replacing an earlier one. */
  function ScoreAll(ranges: seq<Range>, files: seq<FileInfo>): (m: map<Path, real>)
    ensures forall p :: p in m ==> exists k :: 0 <= k < |files| && files[k].path == p
  {
    if |files| == 0 then map[]
    else
      var f := files[|files| - 1];
      var init := ScoreAll(ranges, files[..|files| - 1]);
      assert forall k :: 0 <= k < |files| - 1 ==> files[..|files| - 1][k] == files[k];
      match FileScore(f, ranges)
      case Some(v) => init[f.path := v]
      case None => init
  }

  /** What `calculate_chunking_progress_for_pattern` records. */
  function PatternScores(pattern: String, ranges: seq<Range>, files: seq<FileInfo>, key: Path -> Option<String>)
    : (m: map<Path, real>)
    ensures forall p :: p in m ==> key(p) == Some(pattern)
  {
    var matched := Matching(pattern, files, key);
    var m := ScoreAll(ranges, matched);
    assert forall p :: p in m ==> exists k :: 0 <= k < |matched| && matched[k].path == p;
    m
  }

  /**
   * The progress recorded once the stems `done` of `groups` are processed:
   * for every file of the walk filed under one of them, in walk order.
   */
  function ScoresWithin(groups: map<String, seq<Range>>, done: set<String>, files: seq<FileInfo>,
                        key: Path -> Option<String>): (m: map<Path, real>)
    ensures forall p :: p in m ==> key(p).Some? && key(p).value in done && key(p).value in groups
  {
    if |files| == 0 then map[]
    else
      var f := files[|files| - 1];
      var init := ScoresWithin(groups, done, files[..|files| - 1], key);
      var stem := key(f.path);
      if stem.Some? && stem.value in done && stem.value in groups then
        match FileScore(f, groups[stem.value])
        case Some(v) => init[f.path := v]
        case None => init
      else init
  }

  /** One pattern's pass records what the combined passes record for that stem alone. */
  lemma {:induction false} PatternIsWithin(groups: map<String, seq<Range>>, k: String, files: seq<FileInfo>,
                                           key: Path -> Option<String>)
    requires k in groups
    ensures PatternScores(k, groups[k], files, key) == ScoresWithin(groups, {k}, files, key)
  {
    if |files| > 0 {
      var init := files[..|files| - 1];
      var f := files[|files| - 1];
      PatternIsWithin(groups, k, init, key);
      var m := Matching(k, init, key);
      assert (m + [f])[..|m|] == m;
    }
  }

  /**
   * The passes of different stems touch different files, so processing one
   * more stem adds exactly what that stem's pass records, whatever the order
   * the stems are taken in.
   */
  lemma {:induction false} ScoresUnion(groups: map<String, seq<Range>>, done: set<String>, k: String,
                                       files: seq<FileInfo>, key: Path -> Option<String>)
    requires k !in done
    ensures ScoresWithin(groups, done + {k}, files, key)
         == ScoresWithin(groups, done, files, key) + ScoresWithin(groups, {k}, files, key)
  {
    if |files| > 0 {
      var init := files[..|files| - 1];
      var f := files[|files| - 1];
      ScoresUnion(groups, done, k, init, key);
      var a := ScoresWithin(groups, done, init, key);
      var b := ScoresWithin(groups, {k}, init, key);
      var stem := key(f.path);
      if stem.Some? && stem.value in groups && FileScore(f, groups[stem.value]).Some? {
        var v := FileScore(f, groups[stem.value]).value;
        if stem.value in done {
          assert f.path !in b;
          assert a[f.path := v] + b == (a + b)[f.path := v];
        } else if stem.value == k {
          assert a + b[f.path := v] == (a + b)[f.path := v];
        }
      }
    }
  }

  /** A stem with at least one range is a key of the grouping, holding those ranges. */
  lemma StemGrouped(parsed: seq<Option<ChunkName>>, stem: String)
    requires |RangesFor(parsed, stem)| > 0
    ensures stem in ChunkGroups(parsed) && ChunkGroups(parsed)[stem] == RangesFor(parsed, stem)
  {
    var i :| 0 <= i < |parsed| && IsChunkOf(parsed[i], stem);
  }

  /** A walk of one file filed under a grouped stem records that file's percentage. */
  lemma SingleFileScore(groups: map<String, seq<Range>>, f: FileInfo, key: Path -> Option<String>, stem: String)
    requires key(f.path) == Some(stem) && stem in groups && f.lines.Some? && f.lines.value > 0
    ensures ScoresWithin(groups, groups.Keys, [f], key)
         == map[f.path := Percent(CoveredBelow(groups[stem], f.lines.value), f.lines.value)]
  {
    assert [f][..0] == [];
  }

  /**
   * A file whose chunks were saved under their generated names is given, by
   * the progress scan, the share of its lines those chunks cover.
   */
  lemma ChunkedFileScored(file: Path, root: Path, ranges: seq<Range>, lines: nat)
    requires |ranges| > 0
    requires forall k :: 0 <= k < |ranges| ==> ranges[k].0 + 1 <= UsizeMax && ranges[k].1 + 1 <= UsizeMax
    requires Considered(file, root) && FileStem(file, root) != [] && lines > 0
    ensures var groups := ChunkGroups(ParseAll(ChunkFileNames(file, root, ranges)));
      ScoresWithin(groups, groups.Keys, [FileInfo(file, Some(lines))], KeyOf(root))
      == map[file := Percent(CoveredBelow(ranges, lines), lines)]
  {
    var parsed := ParseAll(ChunkFileNames(file, root, ranges));
    var stem := FileStem(file, root);
    SavedChunksGroupUnderStem(file, root, ranges);
    assert ChunkStem(file, root) == stem;
    StemGrouped(parsed, stem);
    assert KeyOf(root)(file) == Some(stem);
    SingleFileScore(ChunkGroups(parsed), FileInfo(file, Some(lines)), KeyOf(root), stem);
  }

  /**
   * The pattern pass as written files a file under its sanitised relative
   * path with no `unnamed_file` stand-in. A root file called `-` has its
   * chunks saved as `unnamed_file_…`; the pass then gives those chunks' share
   * to a file called `unnamed_file` and none to the file they came from.
   */
  lemma DashFileLosesItsChunks()
    ensures var root := Path(true, []);
      var dash := Path(true, ["-"]);
      var other := Path(true, ["unnamed_file"]);
      var ranges: seq<Range> := [(0, 2)];
      var groups := ChunkGroups(ParseAll(ChunkFileNames(dash, root, ranges)));
      ScoresWithin(groups, groups.Keys, [FileInfo(dash, Some(10)), FileInfo(other, Some(10))], KeyOf(root))
      == map[other := Percent(CoveredBelow(ranges, 10), 10)]
  {
    DashStems();
    MisfiledChunks(Path(true, ["-"]), Path(true, ["unnamed_file"]), Path(true, []), [(0, 2)], 10);
  }

  /**
   * When the pattern pass files a file under another key than its chunk
   * stem, and a second file under that stem, the second file gets the
   * first one's chunks and the first gets nothing.
   */
  lemma MisfiledChunks(file: Path, other: Path, root: Path, ranges: seq<Range>, lines: nat)
    requires |ranges| > 0 && lines > 0
    requires forall k :: 0 <= k < |ranges| ==> ranges[k].0 + 1 <= UsizeMax && ranges[k].1 + 1 <= UsizeMax
    requires MatchKey(root, file).Some? && MatchKey(root, file).value != ChunkStem(file, root)
    requires MatchKey(root, other) == Some(ChunkStem(file, root))
    ensures var groups := ChunkGroups(ParseAll(ChunkFileNames(file, root, ranges)));
      ScoresWithin(groups, groups.Keys, [FileInfo(file, Some(lines)), FileInfo(other, Some(lines))], KeyOf(root))
      == map[other := Percent(CoveredBelow(ranges, lines), lines)]
  {
    SavedGroups(file, root, ranges);
    MisfiledIn(ChunkGroups(ParseAll(ChunkFileNames(file, root, ranges))), ChunkStem(file, root),
               file, other, root, ranges, lines);
  }

  /** `MisfiledChunks` for any grouping that holds the ranges under the stem alone. */
  lemma MisfiledIn(groups: map<String, seq<Range>>, stem: String, file: Path, other: Path, root: Path,
                   ranges: seq<Range>, lines: nat)
    requires lines > 0 && stem in groups && groups[stem] == ranges && groups.Keys <= {stem}
    requires MatchKey(root, file).Some? && MatchKey(root, file).value != stem
    requires MatchKey(root, other) == Some(stem)
    ensures ScoresWithin(groups, groups.Keys, [FileInfo(file, Some(lines)), FileInfo(other, Some(lines))], KeyOf(root))
      == map[other := Percent(CoveredBelow(ranges, lines), lines)]
  {
    assert KeyOf(root)(file) == MatchKey(root, file) && KeyOf(root)(other) == Some(stem);
    TwoFileScores(groups, FileInfo(file, Some(lines)), FileInfo(other, Some(lines)), KeyOf(root), stem);
  }

  /** The keys of the example above: `-` sanitises to nothing, `unnamed_file` to itself. */
  lemma DashStems()
    ensures var root := Path(true, []);
      var dash := Path(true, ["-"]);
      var other := Path(true, ["unnamed_file"]);
      MatchKey(root, dash) == Some("") && ChunkStem(dash, root) == "unnamed_file"
      && MatchKey(root, other) == Some("unnamed_file")
  {
    DashStem();
    UnnamedStem();
  }

  lemma DashStem()
    ensures MatchKey(Path(true, []), Path(true, ["-"])) == Some("")
    ensures ChunkStem(Path(true, ["-"]), Path(true, [])) == "unnamed_file"
  {
    DashSanitizesToNothing();
    DashConsidered();
  }

  lemma DashSanitizesToNothing()
    ensures FileStem(Path(true, ["-"]), Path(true, [])) == ""
  {
    assert RelativeTo(Path(true, ["-"]), Path(true, [])) == Path(false, ["-"]);
    assert PathToString(Path(false, ["-"])) == "-";
    assert ReplaceSpecials("-") == "_";
    assert TrimUnderscores("_") == "";
  }

  lemma DashConsidered()
    ensures Considered(Path(true, ["-"]), Path(true, []))
  {
    assert PathToString(Path(true, ["-"])) == "/-";
    NoChunksDir("/-");
  }

  lemma UnnamedStem()
    ensures MatchKey(Path(true, []), Path(true, ["unnamed_file"])) == Some("unnamed_file")
  {
    var stem := "unnamed_file";
    assert forall i :: 0 <= i < |stem| ==> !Special(stem[i]);
    PlainNameKey(stem);
  }

  /** A root file whose name has no special character and no leading `_` is filed under its name. */
  lemma PlainNameKey(name: String)
    requires |name| > 0 && name[0] != '_'
    requires forall i :: 0 <= i < |name| ==> !Special(name[i])
    ensures MatchKey(Path(true, []), Path(true, [name])) == Some(name)
  {
    PlainNameStem(name);
    PlainNameConsidered(name);
  }

  lemma PlainNameStem(name: String)
    requires |name| > 0 && name[0] != '_'
    requires forall i :: 0 <= i < |name| ==> !Special(name[i])
    ensures FileStem(Path(true, [name]), Path(true, [])) == name
  {
    assert RelativeTo(Path(true, [name]), Path(true, [])) == Path(false, [name]);
    assert PathToString(Path(false, [name])) == name;
    NoSpecialsKept(name);
  }

  lemma PlainNameConsidered(name: String)
    requires forall i :: 0 <= i < |name| ==> !Special(name[i])
    ensures Considered(Path(true, [name]), Path(true, []))
  {
    var s := PathToString(Path(true, [name]));
    assert s == "/" + name;
    assert forall i :: 1 <= i < |s| ==> s[i] == name[i - 1];
    NoChunksDir(s);
  }

  /** A file's saved chunk names group under its stem alone, with its ranges. */
  lemma SavedGroups(file: Path, root: Path, ranges: seq<Range>)
    requires |ranges| > 0
    requires forall k :: 0 <= k < |ranges| ==> ranges[k].0 + 1 <= UsizeMax && ranges[k].1 + 1 <= UsizeMax
    ensures var groups := ChunkGroups(ParseAll(ChunkFileNames(file, root, ranges)));
      ChunkStem(file, root) in groups && groups[ChunkStem(file, root)] == ranges
      && groups.Keys <= {ChunkStem(file, root)}
  {
    SavedNamesParse(file, root, ranges);
    SavedUnderGroups(ChunkStem(file, root), ranges);
  }

  /** Ranges parsed under one stem group under that stem alone. */
  lemma SavedUnderGroups(stem: String, ranges: seq<Range>)
    requires |ranges| > 0
    ensures var groups := ChunkGroups(SavedUnder(stem, ranges));
      stem in groups && groups[stem] == ranges && groups.Keys <= {stem}
  {
    var parsed := SavedUnder(stem, ranges);
    GroupSaved(stem, ranges);
    StemGrouped(parsed, stem);
    OneStemGroups(parsed, stem);
  }

  /** Names that all parse under one stem group under that stem alone. */
  lemma OneStemGroups(parsed: seq<Option<ChunkName>>, stem: String)
    requires forall k :: 0 <= k < |parsed| ==> IsChunkOf(parsed[k], stem)
    ensures ChunkGroups(parsed).Keys <= {stem}
  {
  }

  /** Two files: one filed under a stem with no chunks, the other under a grouped stem. */
  lemma TwoFileScores(groups: map<String, seq<Range>>, a: FileInfo, b: FileInfo,
                      key: Path -> Option<String>, stem: String)
    requires key(a.path).Some? && key(a.path).value !in groups
    requires key(b.path) == Some(stem) && stem in groups && b.lines.Some? && b.lines.value > 0
    ensures ScoresWithin(groups, groups.Keys, [a, b], key)
         == map[b.path := Percent(CoveredBelow(groups[stem], b.lines.value), b.lines.value)]
  {
    assert [a, b][..1] == [a] && [a][..0] == [];
    assert ScoresWithin(groups, groups.Keys, [a], key) == map[] by {
      assert ScoresWithin(groups, groups.Keys, [], key) == map[];
    }
    var v := Percent(CoveredBelow(groups[stem], b.lines.value), b.lines.value);
    assert FileScore(b, groups[stem]) == Some(v);
  }

  /** A path string with no `/` past its first character never contains `chunks/`. */
  lemma NoChunksDir(s: String)
    requires forall i :: 1 <= i < |s| ==> s[i] != '/'
    ensures !Contains(s, "chunks/")
  {
    forall i: nat | i <= |s| && OccursAt(s, "chunks/", i)
      ensures false
    {
      SlashAtSix(s, i);
    }
  }

  lemma SlashAtSix(s: String, i: nat)
    requires OccursAt(s, "chunks/", i)
    ensures i + 6 < |s| && s[i + 6] == '/'
  {
    assert s[i..i + 7][6] == '/';
  }

  /** The key the pattern pass would need to find chunks saved under `unnamed_file`: the chunk stem itself. */
  function StemKey(root: Path, path: Path): (r: Option<String>)
    ensures r.Some? <==> Considered(path, root)
    ensures r.Some? ==> r.value == ChunkStem(path, root)
    ensures r.Some? && FileStem(path, root) != [] ==> r == MatchKey(root, path)
  {
    if Considered(path, root) then Some(ChunkStem(path, root)) else None
  }

  /** `StemKey` for one root. */
  function StemKeyOf(root: Path): Path -> Option<String>
  {
    p => StemKey(root, p)
  }

  /**
   * Filed under its chunk stem, every considered file whose chunks were
   * saved under their generated names gets the share of its lines they
   * cover, whatever its name sanitises to.
   */
  lemma ChunkedFileScoredByStem(file: Path, root: Path, ranges: seq<Range>, lines: nat)
    requires |ranges| > 0
    requires forall k :: 0 <= k < |ranges| ==> ranges[k].0 + 1 <= UsizeMax && ranges[k].1 + 1 <= UsizeMax
    requires Considered(file, root) && lines > 0
    ensures var groups := ChunkGroups(ParseAll(ChunkFileNames(file, root, ranges)));
      ScoresWithin(groups, groups.Keys, [FileInfo(file, Some(lines))], StemKeyOf(root))
      == map[file := Percent(CoveredBelow(ranges, lines), lines)]
  {
    var parsed := ParseAll(ChunkFileNames(file, root, ranges));
    var stem := ChunkStem(file, root);
    SavedChunksGroupUnderStem(file, root, ranges);
    StemGrouped(parsed, stem);
    assert StemKeyOf(root)(file) == Some(stem);
    SingleFileScore(ChunkGroups(parsed), FileInfo(file, Some(lines)), StemKeyOf(root), stem);
  }

  /** One more parsed name: its range joins its stem's list, a new stem starting a list. */
  lemma GroupSnoc(parsed: seq<Option<ChunkName>>, n: Option<ChunkName>)
    ensures var before := ChunkGroups(parsed);
      ChunkGroups(parsed + [n])
      == if n.None? then before
         else before[n.value.stem := (if n.value.stem in before then before[n.value.stem] else [])
                                      + [(n.value.start, n.value.end)]]
  {
    if n.Some? {
      GroupSnocSome(parsed, n.value);
    } else {
      GroupSnocNone(parsed);
    }
  }

  lemma GroupSnocSome(parsed: seq<Option<ChunkName>>, c: ChunkName)
    ensures var before := ChunkGroups(parsed);
      ChunkGroups(parsed + [Some(c)])
      == before[c.stem := (if c.stem in before then before[c.stem] else []) + [(c.start, c.end)]]
  {
    var before := ChunkGroups(parsed);
    var lhs := ChunkGroups(parsed + [Some(c)]);
    var rhs := before[c.stem := (if c.stem in before then before[c.stem] else []) + [(c.start, c.end)]];
    StemsOfSnoc(parsed, Some(c));
    assert lhs.Keys == rhs.Keys;
    forall stem | stem in lhs
      ensures lhs[stem] == rhs[stem]
    {
      RangesForSnoc(parsed, Some(c), stem);
      if stem == c.stem && c.stem !in before {
        NotGroupedNoRanges(parsed, stem);
      }
    }
  }

  lemma NotGroupedNoRanges(parsed: seq<Option<ChunkName>>, stem: String)
    requires stem !in ChunkGroups(parsed)
    ensures RangesFor(parsed, stem) == []
  {
  }

  lemma GroupSnocNone(parsed: seq<Option<ChunkName>>)
    ensures ChunkGroups(parsed + [None]) == ChunkGroups(parsed)
  {
    var lhs := ChunkGroups(parsed + [None]);
    StemsOfSnoc(parsed, None);
    forall stem | stem in lhs
      ensures lhs[stem] == ChunkGroups(parsed)[stem]
    {
      RangesForSnoc(parsed, None, stem);
    }
  }

  lemma StemsOfSnoc(parsed: seq<Option<ChunkName>>, n: Option<ChunkName>)
    ensures StemsOf(parsed + [n]) == if n.Some? then StemsOf(parsed) + {n.value.stem} else StemsOf(parsed)
  {
    assert (parsed + [n])[..|parsed|] == parsed;
  }

  lemma RangesForSnoc(parsed: seq<Option<ChunkName>>, n: Option<ChunkName>, stem: String)
    ensures RangesFor(parsed + [n], stem)
         == if IsChunkOf(n, stem) then RangesFor(parsed, stem) + [(n.value.start, n.value.end)] else RangesFor(parsed, stem)
  {
    assert (parsed + [n])[..|parsed|] == parsed;
  }

  /**
   * The first loop of `init_chunking_progress`: each chunk file name that
   * parses adds its range to its stem's list.
   */
  method GroupChunkRanges(names: seq<String>) returns (groups: map<String, seq<Range>>)
    ensures groups == ChunkGroups(ParseAll(names))
  {
    groups := map[];
    ghost var seen: seq<Option<ChunkName>> := [];
    var i := 0;
    while i < |names|
      invariant 0 <= i <= |names|
      invariant seen == ParseAll(names[..i])
      invariant groups == ChunkGroups(seen)
    {
      var parsed := ParseChunkFilename(names[i]);
      GroupSnoc(seen, parsed);
      ParseAllSnoc(names, i);
      if parsed.Some? {
        var c := parsed.value;
        var existing := if c.stem in groups then groups[c.stem] else [];
        groups := groups[c.stem := existing + [(c.start, c.end)]];
      }
      seen := seen + [parsed];
      i := i + 1;
    }
    assert names[..i] == names;
  }

  /** Parsing one more name appends its parse. */
  lemma ParseAllSnoc(names: seq<String>, i: nat)
    requires i < |names|
    ensures ParseAll(names[..i + 1]) == ParseAll(names[..i]) + [ParseChunkFilename(names[i])]
  {
  }

  // ---------------------------------------------------------------------
  // The explorer
  // ---------------------------------------------------------------------

  /**
   * What `load_entries` makes of a listing: when every entry could be read,
   * the `..` entry and the listed entries, sorted; otherwise those pushed
   * before the unreadable one, unsorted, and an error.
   */
  function Loaded(current: Path, root: Path, listing: seq<Option<Listed>>, progress: map<Path, real>)
    : (out: (Result<(), ExplorerError>, seq<Entry>))
  {
    var pushed := ParentEntries(current, root) + EntriesOf(current, Readable(listing), progress);
    if AllReadable(listing) then (Ok(()), SortEntries(pushed)) else (Err(UnreadableEntry), pushed)
  }

  /** `e` is an entry of the directory `current`: its `..` entry, or one of its children. */
  predicate InDirectory(e: Entry, current: Path, root: Path)
  {
    || (e.name == ParentName && e.isDir && current != root && e.path == Child(current, ParentName))
    || (ProperName(e.name) && e.path == Child(current, e.name))
  }

  /** Every entry `load_entries` pushes belongs to the directory it lists. */
  lemma PushedInDirectory(current: Path, root: Path, listing: seq<Option<Listed>>, progress: map<Path, real>)
    requires ProperListing(listing)
    ensures var pushed := ParentEntries(current, root) + EntriesOf(current, Readable(listing), progress);
      forall e :: e in pushed ==> InDirectory(e, current, root)
  {
    var listed := EntriesOf(current, Readable(listing), progress);
    forall e | e in listed
      ensures InDirectory(e, current, root)
    {
      var k :| 0 <= k < |listed| && listed[k] == e;
      assert listing[k].Some? && e.name == listing[k].value.name;
    }
  }

  /** `Explorer`: the current and root directories, the entries, the selection and the progress cache. */
  class Explorer {
    var currentDir: Path
    const rootDir: Path
    var entries: seq<Entry>
    var selectedIndex: nat
    var progress: map<Path, real>

    /**
     * The selection is on an entry (or at 0 when there is none), the current
     * directory starts with the root component by component, and every
     * entry belongs to it.
     */
    predicate Valid()
      reads this
    {
      && (if |entries| == 0 then selectedIndex == 0 else selectedIndex < |entries|)
      && PathStartsWith(currentDir, rootDir)
      && forall k :: 0 <= k < |entries| ==> InDirectory(entries[k], currentDir, rootDir)
    }

    /** Only the selection may have moved. */
    twostate predicate OnlySelectionMoved()
      reads this
    {
      currentDir == old(currentDir) && entries == old(entries) && progress == old(progress)
    }

    /** What `load_entries` leaves for `listing` and its result `r`, with the selection on the first entry. */
    predicate Shows(listing: seq<Option<Listed>>, r: Result<(), ExplorerError>)
      reads this
    {
      selectedIndex == 0 && (r, entries) == Loaded(currentDir, rootDir, listing, progress)
    }

    /** An explorer at `root` with no entries loaded yet. */
    constructor(root: Path)
      requires Confined(root, root)
      ensures Valid() && rootDir == root && currentDir == root
      ensures entries == [] && selectedIndex == 0 && progress == map[]
    {
      rootDir := root;
      currentDir := root;
      entries := [];
      selectedIndex := 0;
      progress := map[];
    }

    /**
     * `Explorer::new` for an already canonical root: start there and load
     * its entries, failing when one of them cannot be read.
     */
    static method New(root: Path, listing: seq<Option<Listed>>) returns (r: Result<Explorer, ExplorerError>)
      requires Confined(root, root) && ProperListing(listing)
      ensures r.Ok? <==> AllReadable(listing)
      ensures r.Ok? ==> fresh(r.value) && r.value.Valid() && r.value.rootDir == root
                        && r.value.currentDir == root && r.value.progress == map[] && r.value.Shows(listing, Ok(()))
      ensures r.Err? ==> r.error == UnreadableEntry
    {
      var e := new Explorer(root);
      var loaded := e.LoadEntries(listing);
      if loaded.Err? {
        return Err(loaded.error);
      }
      return Ok(e);
    }

    /** `load_entries`: list the current directory and select its first entry. */
    method LoadEntries(listing: seq<Option<Listed>>) returns (r: Result<(), ExplorerError>)
      requires PathStartsWith(currentDir, rootDir) && ProperListing(listing)
      modifies this
      ensures Valid() && Shows(listing, r)
      ensures currentDir == old(currentDir) && progress == old(progress)
    {
      var es, complete := ReadListing(currentDir, rootDir, listing, progress);
      selectedIndex := 0;
      PushedInDirectory(currentDir, rootDir, listing, progress);
      if !complete {
        entries := es;
        return Err(UnreadableEntry);
      }
      SortedInDirectory(es, currentDir, rootDir);
      entries := SortEntries(es);
      r := Ok(());
    }

    /** `select_previous`: one up, stopping at the first entry. */
    method SelectPrevious()
      requires Valid()
      modifies this
      ensures Valid() && OnlySelectionMoved()
      ensures |entries| > 0 ==> selectedIndex == SatSub(old(selectedIndex), 1)
      ensures |entries| == 0 ==> selectedIndex == old(selectedIndex)
    {
      if |entries| > 0 {
        selectedIndex := SatSub(selectedIndex, 1);
      }
    }

    /** `select_next`: one down, stopping at the last entry. */
    method SelectNext()
      requires Valid()
      modifies this
      ensures Valid() && OnlySelectionMoved()
      ensures |entries| > 0 ==> selectedIndex == Min(old(selectedIndex) + 1, |entries| - 1)
      ensures |entries| == 0 ==> selectedIndex == old(selectedIndex)
    {
      if |entries| > 0 {
        selectedIndex := Min(selectedIndex + 1, |entries| - 1);
      }
    }

    /** `select_page_up`: `pageSize` up, stopping at the first entry. */
    method SelectPageUp(pageSize: nat)
      requires Valid()
      modifies this
      ensures Valid() && OnlySelectionMoved()
      ensures |entries| > 0 ==> selectedIndex == SatSub(old(selectedIndex), pageSize)
      ensures |entries| == 0 ==> selectedIndex == old(selectedIndex)
    {
      if |entries| > 0 {
        selectedIndex := SatSub(selectedIndex, pageSize);
      }
    }

    /** `select_page_down`: `pageSize` down, stopping at the last entry. */
    method SelectPageDown(pageSize: nat)
      requires Valid()
      modifies this
      ensures Valid() && OnlySelectionMoved()
      ensures |entries| > 0 ==> selectedIndex == Min(old(selectedIndex) + pageSize, |entries| - 1)
      ensures |entries| == 0 ==> selectedIndex == old(selectedIndex)
    {
      if |entries| > 0 {
        selectedIndex := Min(selectedIndex + pageSize, |entries| - 1);
      }
    }

    /** `select_first`. */
    method SelectFirst()
      requires Valid()
      modifies this
      ensures Valid() && OnlySelectionMoved()
      ensures selectedIndex == 0
    {
      if |entries| > 0 {
        selectedIndex := 0;
      }
    }

    /** `select_last`. */
    method SelectLast()
      requires Valid()
      modifies this
      ensures Valid() && OnlySelectionMoved()
      ensures |entries| > 0 ==> selectedIndex == |entries| - 1
      ensures |entries| == 0 ==> selectedIndex == old(selectedIndex)
    {
      if |entries| > 0 {
        selectedIndex := |entries| - 1;
      }
    }

    /**
     * `open_selected`: a selected directory becomes the current directory
     * and is listed; a selected file, or no entry at all, changes nothing.
     * The `..` entry appends `..` to the current directory, so the root stays
     * a lexical prefix while the directory named can lie above the root.
     */
    method OpenSelected(listing: seq<Option<Listed>>) returns (r: Result<(), ExplorerError>)
      requires Valid() && ProperListing(listing)
      modifies this
      ensures Valid() && progress == old(progress)
      ensures |old(entries)| == 0 || !old(entries)[old(selectedIndex)].isDir ==>
        r == Ok(()) && currentDir == old(currentDir) && entries == old(entries) && selectedIndex == old(selectedIndex)
      ensures |old(entries)| > 0 && old(entries)[old(selectedIndex)].isDir ==>
        currentDir == old(entries)[old(selectedIndex)].path && Shows(listing, r)
    {
      if |entries| == 0 {
        return Ok(());
      }
      var selected := entries[selectedIndex];
      if selected.isDir {
        assert InDirectory(selected, currentDir, rootDir);
        ChildKeepsPrefix(currentDir, rootDir, selected.name);
        currentDir := selected.path;
        r := LoadEntries(listing);
      } else {
        r := Ok(());
      }
    }

    /** `go_to_parent`: nothing at the root; otherwise the parent becomes current and is listed. */
    method GoToParent(listing: seq<Option<Listed>>) returns (r: Result<(), ExplorerError>)
      requires Valid() && ProperListing(listing)
      modifies this
      ensures Valid() && progress == old(progress)
      ensures old(currentDir) == rootDir ==>
        r == Ok(()) && currentDir == old(currentDir) && entries == old(entries) && selectedIndex == old(selectedIndex)
      ensures old(currentDir) != rootDir ==> Parent(old(currentDir)) == Some(currentDir) && Shows(listing, r)
    {
      if currentDir == rootDir {
        return Ok(());
      }
      // Below the root the current directory always has a parent.
      ParentKeepsPrefix(currentDir, rootDir);
      currentDir := Parent(currentDir).value;
      r := LoadEntries(listing);
    }

    /** `get_chunking_progress`: the cached percentage, 0 for a file never measured. */
    function GetChunkingProgress(path: Path): (r: real)
      reads this
      ensures path !in progress ==> r == 0.0
      ensures path in progress ==> r == progress[path]
    {
      ProgressOf(progress, path)
    }

    /**
     * `update_chunking_progress`: cache the percentage, and show it on the
     * first entry for that path, if one is listed.
     */
    method UpdateChunkingProgress(path: Path, value: real)
      requires Valid()
      modifies this
      ensures Valid() && currentDir == old(currentDir) && selectedIndex == old(selectedIndex)
      ensures progress == old(progress)[path := value]
      ensures GetChunkingProgress(path) == value
      ensures FirstWithPath(old(entries), path).None? ==> entries == old(entries)
      ensures FirstWithPath(old(entries), path).Some? ==>
        var k := FirstWithPath(old(entries), path).value;
        entries == old(entries)[k := old(entries)[k].(progress := value)]
    {
      progress := progress[path := value];
      var i := 0;
      while i < |entries| && entries[i].path != path
        invariant 0 <= i <= |entries|
        invariant forall k :: 0 <= k < i ==> entries[k].path != path
      {
        i := i + 1;
      }
      if i < |entries| {
        entries := entries[i := entries[i].(progress := value)];
      }
    }

    /**
     * `calculate_chunking_progress_for_pattern`: collect the files of the
     * walk filed under `pattern`, then record the percentage of every one
     * that can be read and has lines.
     */
    method CalculateProgressForPattern(pattern: String, ranges: seq<Range>, files: seq<FileInfo>)
      requires Valid()
      modifies this
      ensures Valid() && currentDir == old(currentDir) && selectedIndex == old(selectedIndex)
      ensures progress == old(progress) + PatternScores(pattern, ranges, files, KeyOf(rootDir))
      ensures entries == ShowProgress(old(entries), PatternScores(pattern, ranges, files, KeyOf(rootDir)))
    {
      var matched := MatchFiles(pattern, files, KeyOf(rootDir));
      RecordScores(ranges, matched);
    }

    /** The update loop of the pattern pass: record the percentage of every readable file with lines. */
    method RecordScores(ranges: seq<Range>, matched: seq<FileInfo>)
      requires Valid()
      modifies this
      ensures Valid() && currentDir == old(currentDir) && selectedIndex == old(selectedIndex)
      ensures progress == old(progress) + ScoreAll(ranges, matched)
      ensures entries == ShowProgress(old(entries), ScoreAll(ranges, matched))
    {
      var j := 0;
      ShowNothing(entries);
      while j < |matched|
        invariant 0 <= j <= |matched|
        invariant Valid() && currentDir == old(currentDir) && selectedIndex == old(selectedIndex)
        invariant progress == old(progress) + ScoreAll(ranges, matched[..j])
        invariant entries == ShowProgress(old(entries), ScoreAll(ranges, matched[..j]))
      {
        var f := matched[j];
        ScoreStep(ranges, matched, j);
        if f.lines.Some? && f.lines.value > 0 {
          var total := f.lines.value;
          var count := CountCovered(ranges, total);
          UnionUpdate(old(progress), ScoreAll(ranges, matched[..j]), f.path, Percent(count, total));
          ShowUpdate(old(entries), ScoreAll(ranges, matched[..j]), f.path, Percent(count, total));
          UpdateChunkingProgress(f.path, Percent(count, total));
        }
        j := j + 1;
      }
      assert matched[..j] == matched;
    }

    /**
     * `init_chunking_progress`: nothing when the chunk directory does not
     * exist; otherwise group its chunk files by stem, run the pattern pass
     * for every stem, and list the current directory again.
     */
    method InitChunkingProgress(chunkDir: Option<seq<String>>, files: seq<FileInfo>, listing: seq<Option<Listed>>)
      returns (r: Result<(), ExplorerError>)
      requires Valid() && ProperListing(listing)
      modifies this
      ensures Valid() && currentDir == old(currentDir)
      ensures chunkDir.None? ==>
        r == Ok(()) && entries == old(entries) && selectedIndex == old(selectedIndex) && progress == old(progress)
      ensures chunkDir.Some? ==>
        var groups := ChunkGroups(ParseAll(chunkDir.value));
        progress == old(progress) + ScoresWithin(groups, groups.Keys, files, KeyOf(rootDir)) && Shows(listing, r)
    {
      if chunkDir.None? {
        return Ok(());
      }
      var groups := GroupChunkRanges(chunkDir.value);
      RecordAllGroups(groups, files);
      r := LoadEntries(listing);
    }

    /**
     * The per-pattern loop of `init_chunking_progress`, taking the stems in
     * whatever order the map yields them.
     */
    method RecordAllGroups(groups: map<String, seq<Range>>, files: seq<FileInfo>)
      requires Valid()
      modifies this
      ensures Valid() && currentDir == old(currentDir) && selectedIndex == old(selectedIndex)
      ensures progress == old(progress) + ScoresWithin(groups, groups.Keys, files, KeyOf(rootDir))
      ensures entries == ShowProgress(old(entries), ScoresWithin(groups, groups.Keys, files, KeyOf(rootDir)))
    {
      var todo := groups.Keys;
      ghost var done: set<String> := {};
      NothingDone(groups, files, KeyOf(rootDir));
      ShowNothing(entries);
      while todo != {}
        invariant Valid() && currentDir == old(currentDir) && selectedIndex == old(selectedIndex)
        invariant todo !! done && todo + done == groups.Keys
        invariant progress == old(progress) + ScoresWithin(groups, done, files, KeyOf(rootDir))
        invariant entries == ShowProgress(old(entries), ScoresWithin(groups, done, files, KeyOf(rootDir)))
        decreases |todo|
      {
        var pattern :| pattern in todo;
        ghost var key := KeyOf(rootDir);
        PatternIsWithin(groups, pattern, files, key);
        ScoresUnion(groups, done, pattern, files, key);
        UnionAssoc(old(progress), ScoresWithin(groups, done, files, key), ScoresWithin(groups, {pattern}, files, key));
        ShowTwice(old(entries), ScoresWithin(groups, done, files, key), ScoresWithin(groups, {pattern}, files, key));
        CalculateProgressForPattern(pattern, groups[pattern], files);
        todo := todo - {pattern};
        done := done + {pattern};
      }
    }
  }

  /**
   * The loop of `load_entries`: the `..` entry, then one entry per listed
   * name, stopping at the first that cannot be read.
   */
  method ReadListing(current: Path, root: Path, listing: seq<Option<Listed>>, progress: map<Path, real>)
    returns (es: seq<Entry>, complete: bool)
    ensures complete <==> AllReadable(listing)
    ensures es == ParentEntries(current, root) + EntriesOf(current, Readable(listing), progress)
  {
    var listed: seq<Entry> := [];
    ghost var vals: seq<Listed> := [];
    var i := 0;
    while i < |listing| && listing[i].Some?
      invariant 0 <= i <= |listing| && |vals| == i
      invariant forall k :: 0 <= k < i ==> listing[k] == Some(vals[k])
      invariant listed == EntriesOf(current, vals, progress)
    {
      EntriesSnoc(current, vals, listing[i].value, progress);
      listed := listed + [ListedEntry(current, listing[i].value, progress)];
      vals := vals + [listing[i].value];
      i := i + 1;
    }
    ReadableUnique(listing, vals);
    es := ParentEntries(current, root) + listed;
    complete := i == |listing|;
  }

  /** One more readable name adds its entry at the end. */
  lemma EntriesSnoc(current: Path, vals: seq<Listed>, v: Listed, progress: map<Path, real>)
    ensures EntriesOf(current, vals + [v], progress) == EntriesOf(current, vals, progress) + [ListedEntry(current, v, progress)]
  {
    assert (vals + [v])[..|vals|] == vals;
  }

  /** Sorting keeps every entry in the directory it belongs to. */
  lemma SortedInDirectory(es: seq<Entry>, current: Path, root: Path)
    requires forall e :: e in es ==> InDirectory(e, current, root)
    ensures forall k :: 0 <= k < |SortEntries(es)| ==> InDirectory(SortEntries(es)[k], current, root)
  {
    var sorted := SortEntries(es);
    SortSameMembers(es);
    forall k | 0 <= k < |sorted|
      ensures InDirectory(sorted[k], current, root)
    {
      assert sorted[k] in es;
    }
  }

  /** The collecting loop of the pattern pass: the files filed under `pattern`, in walk order. */
  method MatchFiles(pattern: String, files: seq<FileInfo>, key: Path -> Option<String>) returns (matched: seq<FileInfo>)
    ensures matched == Matching(pattern, files, key)
  {
    matched := [];
    var i := 0;
    while i < |files|
      invariant 0 <= i <= |files|
      invariant matched == Matching(pattern, files[..i], key)
    {
      var f := files[i];
      assert files[..i + 1][..i] == files[..i];
      if key(f.path) == Some(pattern) {
        matched := matched + [f];
      }
      i := i + 1;
    }
    assert files[..i] == files;
  }

  /** One more file records its score, if it has one. */
  lemma ScoreStep(ranges: seq<Range>, files: seq<FileInfo>, j: nat)
    requires j < |files|
    ensures ScoreAll(ranges, files[..j + 1])
         == match FileScore(files[j], ranges)
            case Some(v) => ScoreAll(ranges, files[..j])[files[j].path := v]
            case None => ScoreAll(ranges, files[..j])
  {
    assert files[..j + 1][..j] == files[..j];
  }

  lemma UnionAssoc<K, V>(a: map<K, V>, b: map<K, V>, c: map<K, V>)
    ensures a + (b + c) == (a + b) + c
  {
  }

  lemma UnionUpdate<K, V>(a: map<K, V>, b: map<K, V>, k: K, v: V)
    ensures a + b[k := v] == (a + b)[k := v]
  {
  }

  /** Before any stem is processed nothing is recorded. */
  lemma NothingDone(groups: map<String, seq<Range>>, files: seq<FileInfo>, key: Path -> Option<String>)
    ensures ScoresWithin(groups, {}, files, key) == map[]
  {
    var m := ScoresWithin(groups, {}, files, key);
    assert forall p :: p !in m;
  }

  /** The position of the first entry for `path`, if any. */
  function FirstWithPath(entries: seq<Entry>, path: Path): (r: Option<nat>)
    ensures r.None? <==> forall k :: 0 <= k < |entries| ==> entries[k].path != path
    ensures r.Some? ==> r.value < |entries| && entries[r.value].path == path
                        && forall k :: 0 <= k < r.value ==> entries[k].path != path
  {
    if |entries| == 0 then None
    else if entries[0].path == path then Some(0)
    else
      var rest := FirstWithPath(entries[1..], path);
      assert forall k :: 1 <= k < |entries| ==> entries[k] == entries[1..][k - 1];
      if rest.None? then None else Some(rest.value + 1)
  }

  /** `entries[k]` is the first entry for its path. */
  predicate FirstOfItsPath(entries: seq<Entry>, k: nat)
    requires k < |entries|
  {
    FirstWithPath(entries, entries[k].path) == Some(k)
  }

  /**
   * The entry list once the percentages `m` have been recorded one by one
   * with `update_chunking_progress`: the first entry for each recorded path
   * shows its percentage, every other entry is left as it was.
   */
  function ShowProgress(entries: seq<Entry>, m: map<Path, real>): (r: seq<Entry>)
    ensures |r| == |entries|
    ensures forall k :: 0 <= k < |r| ==>
      r[k].name == entries[k].name && r[k].path == entries[k].path && r[k].isDir == entries[k].isDir
    ensures forall k :: 0 <= k < |r| && FirstOfItsPath(entries, k) && entries[k].path in m ==>
      r[k].progress == m[entries[k].path]
    ensures forall k :: 0 <= k < |r| && !(FirstOfItsPath(entries, k) && entries[k].path in m) ==>
      r[k] == entries[k]
  {
    seq(|entries|, k requires 0 <= k < |entries| =>
      if FirstOfItsPath(entries, k) && entries[k].path in m
      then entries[k].(progress := m[entries[k].path]) else entries[k])
  }

  /** Lists with the same paths position by position find the same first entry for a path. */
  lemma FirstWithPathSamePaths(a: seq<Entry>, b: seq<Entry>, path: Path)
    requires |a| == |b| && forall k :: 0 <= k < |a| ==> a[k].path == b[k].path
    ensures FirstWithPath(a, path) == FirstWithPath(b, path)
  {
  }

  /** Recording nothing leaves the list as it is. */
  lemma ShowNothing(entries: seq<Entry>)
    ensures ShowProgress(entries, map[]) == entries
  {
  }

  /** Recording one more percentage, as `update_chunking_progress` does, on a list that shows `m`. */
  lemma ShowUpdate(entries: seq<Entry>, m: map<Path, real>, path: Path, value: real)
    ensures var shown := ShowProgress(entries, m);
      FirstWithPath(shown, path) == FirstWithPath(entries, path)
      && (FirstWithPath(shown, path).None? ==> ShowProgress(entries, m[path := value]) == shown)
      && (FirstWithPath(shown, path).Some? ==>
            var k := FirstWithPath(shown, path).value;
            ShowProgress(entries, m[path := value]) == shown[k := shown[k].(progress := value)])
  {
    var shown := ShowProgress(entries, m);
    FirstWithPathSamePaths(shown, entries, path);
  }

  /** Recording `a` and then `b` shows what recording their union shows. */
  lemma ShowTwice(entries: seq<Entry>, a: map<Path, real>, b: map<Path, real>)
    ensures ShowProgress(ShowProgress(entries, a), b) == ShowProgress(entries, a + b)
  {
    var shown := ShowProgress(entries, a);
    forall k | 0 <= k < |entries|
      ensures FirstOfItsPath(shown, k) == FirstOfItsPath(entries, k)
    {
      FirstWithPathSamePaths(shown, entries, entries[k].path);
    }
  }
}
