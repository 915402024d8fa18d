/**
 * Strings, separators and component-wise paths shared by the whole model.
 *
 * A Rust `String` is modelled as a sequence of Unicode scalar values; a
 * `PathBuf` as an optional root followed by a sequence of components, which
 * is how `Path::starts_with`, `strip_prefix`, `parent` and `==` see it.
 */
module Paths {

  type String = seq<char>

  datatype Option<T> = None | Some(value: T)

  datatype Result<T, E> = Ok(value: T) | Err(error: E)

  function Min(a: int, b: int): int { if a <= b then a else b }

  function Max(a: int, b: int): int { if a <= b then b else a }

  /** `n.saturating_sub(k)` on unsigned integers. */
  function SatSub(n: nat, k: nat): (r: nat)
    ensures n >= k ==> r + k == n
    ensures n < k ==> r == 0
  {
    if n >= k then n - k else 0
  }

  // ---------------------------------------------------------------------
  // Joining and splitting on a separator (`[..].join(sep)`, `str::split(c)`)
  // ---------------------------------------------------------------------

  function Join(parts: seq<String>, sep: String): String
  {
    if |parts| == 0 then []
    else if |parts| == 1 then parts[0]
    else parts[0] + sep + Join(parts[1..], sep)
  }

  /** `s.split(c)`: the pieces between occurrences of `c`; never empty. */
  function Split(s: String, c: char): (r: seq<String>)
    ensures |r| >= 1
    ensures forall i :: 0 <= i < |r| ==> c !in r[i]
  {
    if |s| == 0 then [[]]
    else
      var rest := Split(s[1..], c);
      if s[0] == c then [[]] + rest
      else [[s[0]] + rest[0]] + rest[1..]
  }

  /** Splitting a piece that has no separator in it gives the piece back. */
  lemma {:induction false} SplitNoSeparator(a: String, c: char)
    requires c !in a
    ensures Split(a, c) == [a]
  {
    if |a| > 0 {
      SplitNoSeparator(a[1..], c);
      assert a[0] != c;
      assert [a[0]] + a[1..] == a;
    }
  }

  /** Splitting `a + c + b` cuts at the first separator, right after `a`. */
  lemma {:induction false} SplitAtFirst(a: String, c: char, b: String)
    requires c !in a
    ensures Split(a + [c] + b, c) == [a] + Split(b, c)
  {
    if |a| == 0 {
      assert a + [c] + b == [c] + b;
      assert ([c] + b)[1..] == b;
    } else {
      SplitAtFirst(a[1..], c, b);
      assert (a + [c] + b)[1..] == a[1..] + [c] + b;
      assert [a[0]] + a[1..] == a;
    }
  }

  /** `split` inverts `join` when no piece contains the separator. */
  lemma {:induction false} SplitJoin(parts: seq<String>, c: char)
    requires |parts| >= 1
    requires forall i :: 0 <= i < |parts| ==> c !in parts[i]
    ensures Split(Join(parts, [c]), c) == parts
  {
    if |parts| == 1 {
      SplitNoSeparator(parts[0], c);
    } else {
      SplitJoin(parts[1..], c);
      SplitAtFirst(parts[0], c, Join(parts[1..], [c]));
      assert [parts[0]] + parts[1..] == parts;
    }
  }

  /** `join` inverts `split`, for every string. */
  lemma {:induction false} JoinSplit(s: String, c: char)
    ensures Join(Split(s, c), [c]) == s
  {
    if |s| > 0 {
      JoinSplit(s[1..], c);
      var rest := Split(s[1..], c);
      if s[0] != c {
        var r := Split(s, c);
        assert r == [[s[0]] + rest[0]] + rest[1..];
        if |rest| == 1 {
          assert r == [[s[0]] + rest[0]];
        } else {
          assert r[1..] == rest[1..];
          assert Join(rest, [c]) == rest[0] + [c] + Join(rest[1..], [c]);
        }
        assert [s[0]] + s[1..] == s;
      } else {
        assert [s[0]] + s[1..] == s;
      }
    }
  }

  // ---------------------------------------------------------------------
  // Prefixes, suffixes and searching
  // ---------------------------------------------------------------------

  predicate StartsWith<T(==)>(s: seq<T>, prefix: seq<T>)
  {
    |prefix| <= |s| && s[..|prefix|] == prefix
  }

  predicate EndsWith<T(==)>(s: seq<T>, suffix: seq<T>)
  {
    |suffix| <= |s| && s[|s| - |suffix|..] == suffix
  }

  /** `pat` occurs in `s` starting at index `i`. */
  predicate OccursAt(s: String, pat: String, i: nat)
  {
    i + |pat| <= |s| && s[i..i + |pat|] == pat
  }

  /** `s.contains(pat)` for a string pattern. */
  predicate Contains(s: String, pat: String)
  {
    exists i: nat :: i <= |s| && OccursAt(s, pat, i)
  }

  /** `s.rfind(c)`: the index of the last occurrence of `c`. */
  function LastIndexOf(s: String, c: char): (r: Option<nat>)
    ensures r.None? <==> c !in s
    ensures r.Some? ==> r.value < |s| && s[r.value] == c && c !in s[r.value + 1..]
  {
    if |s| == 0 then None
    else if s[|s| - 1] == c then Some(|s| - 1)
    else
      var r := LastIndexOf(s[..|s| - 1], c);
      assert s == s[..|s| - 1] + [s[|s| - 1]];
      r
  }

  /** `s.find(c)`: the index of the first occurrence of `c`. */
  function FirstIndexOf(s: String, c: char): (r: Option<nat>)
    ensures r.None? <==> c !in s
    ensures r.Some? ==> r.value < |s| && s[r.value] == c && c !in s[..r.value]
  {
    if |s| == 0 then None
    else if s[0] == c then Some(0)
    else
      var r := FirstIndexOf(s[1..], c);
      if r.None? then None else Some(r.value + 1)
  }

  /** The first `c` in `p + [c] + s` is the one right after `p` when `p` has none. */
  lemma {:induction false} FirstIndexAfterPrefix(p: String, c: char, s: String)
    requires c !in p
    ensures FirstIndexOf(p + [c] + s, c) == Some(|p|)
  {
    if |p| > 0 {
      FirstIndexAfterPrefix(p[1..], c, s);
      assert (p + [c] + s)[1..] == p[1..] + [c] + s;
    }
  }

  // ---------------------------------------------------------------------
  // Component-wise paths
  // ---------------------------------------------------------------------

  /** A path: whether it starts at the root `/`, then its normal components. */
  datatype Path = Path(absolute: bool, parts: seq<String>)

  /** `Path::starts_with`: a whole-component prefix under the same root. */
  predicate PathStartsWith(p: Path, base: Path)
  {
    p.absolute == base.absolute && StartsWith(p.parts, base.parts)
  }

  /**
   * The root-relative form used by the viewer, the file-name encoder and the
   * store: `strip_prefix(root)` when the path starts with the root (that
   * call cannot fail then), the path unchanged otherwise.
   */
  function RelativeTo(p: Path, root: Path): (r: Path)
    ensures PathStartsWith(p, root) ==> !r.absolute && root.parts + r.parts == p.parts
    ensures !PathStartsWith(p, root) ==> r == p
  {
    if PathStartsWith(p, root) then
      assert p.parts == p.parts[..|root.parts|] + p.parts[|root.parts|..];
      Path(false, p.parts[|root.parts|..])
    else p
  }

  /** `PathBuf::join(name)` for a single normal component. */
  function Child(p: Path, name: String): (r: Path)
    ensures r.absolute == p.absolute && r.parts == p.parts + [name]
  {
    Path(p.absolute, p.parts + [name])
  }

  /** `Path::parent`: `None` for the root and for the empty path. */
  function Parent(p: Path): (r: Option<Path>)
    ensures r.None? <==> |p.parts| == 0
    ensures r.Some? ==> Child(r.value, p.parts[|p.parts| - 1]) == p
  {
    if |p.parts| == 0 then None
    else
      assert p.parts == p.parts[..|p.parts| - 1] + [p.parts[|p.parts| - 1]];
      Some(Path(p.absolute, p.parts[..|p.parts| - 1]))
  }

  /** `to_string_lossy()` on a Unix path: components joined by `/`. */
  function PathToString(p: Path): String
  {
    (if p.absolute then "/" else "") + Join(p.parts, "/")
  }

  /** Keeps the components a parsed path retains: drops `""` and `"."`. */
  function NormalParts(pieces: seq<String>): (r: seq<String>)
    ensures forall i :: 0 <= i < |r| ==> r[i] in pieces && r[i] != "" && r[i] != "."
  {
    if |pieces| == 0 then []
    else if pieces[0] == "" || pieces[0] == "." then NormalParts(pieces[1..])
    else [pieces[0]] + NormalParts(pieces[1..])
  }

  /** `PathBuf::from(s)` read component by component. */
  function PathFromString(s: String): Path
  {
    Path(|s| > 0 && s[0] == '/', NormalParts(Split(s, '/')))
  }

  /** Components as `Path::components` yields them for a path built by the source. */
  predicate WellFormedPath(p: Path)
  {
    forall i :: 0 <= i < |p.parts| ==> p.parts[i] != "" && p.parts[i] != "." && '/' !in p.parts[i]
  }

  lemma {:induction false} NormalPartsKeepsNormal(pieces: seq<String>)
    requires forall i :: 0 <= i < |pieces| ==> pieces[i] != "" && pieces[i] != "."
    ensures NormalParts(pieces) == pieces
  {
    if |pieces| > 0 {
      NormalPartsKeepsNormal(pieces[1..]);
      assert [pieces[0]] + pieces[1..] == pieces;
    }
  }

  /** A well-formed path survives being written as a string and read back. */
  lemma PathStringRoundTrip(p: Path)
    requires WellFormedPath(p)
    ensures PathFromString(PathToString(p)) == p
  {
    var s := PathToString(p);
    if |p.parts| == 0 {
      if p.absolute {
        assert s == "/" == [] + ['/'] + [];
        SplitAtFirst([], '/', []);
        assert Split(s, '/') == [[], []];
      } else {
        assert s == [];
      }
    } else {
      SplitJoin(p.parts, '/');
      NormalPartsKeepsNormal(p.parts);
      if p.absolute {
        assert s == [] + ['/'] + Join(p.parts, "/");
        SplitAtFirst([], '/', Join(p.parts, "/"));
        assert Split(s, '/') == [[]] + p.parts;
        assert NormalParts([[]] + p.parts) == NormalParts(p.parts) by {
          assert ([[]] + p.parts)[1..] == p.parts;
        }
      } else {
        assert s == Join(p.parts, "/");
        JoinStartsWithFirst(p.parts, "/");
        assert s[0] == p.parts[0][0];
      }
    }
  }

  lemma {:induction false} JoinStartsWithFirst(parts: seq<String>, sep: String)
    requires |parts| >= 1
    ensures StartsWith(Join(parts, sep), parts[0])
  {
    if |parts| > 1 {
      var j := Join(parts, sep);
      assert j == parts[0] + (sep + Join(parts[1..], sep));
    }
  }
}
