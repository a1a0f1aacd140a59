/**
 * Path strings of the in-memory tree store (rxFS+): `_normalizePath`, the
 * segment split `_getNode` and `_getParentAndKey` walk, and the pure path
 * helpers `joinPath`, `getBasename`, `getDirname` and `getExtension`.
 * Unlike the record store, this normaliser does not resolve "." or "..".
 */
module RxPaths {
  import opened Strings

  /** The shape every `_normalizePath` result has. */
  predicate Canonical(s: string)
  {
    && |s| > 0
    && s[0] == '/'
    && NoDouble(s, '/')
    && (s[|s| - 1] == '/' ==> s == "/")
  }

  /**
   * `_normalizePath`: `String(path || "")`, every run of '/' becomes one '/',
   * `trim()`, one trailing '/' is dropped from anything longer than one
   * character, and a leading '/' is added when missing.
   */
  function NormalizePath(path: string): (r: string)
    ensures Canonical(r)
    ensures Blank(path) ==> r == "/"
  {
    var stripped := Stripped(path);
    if |stripped| > 0 && stripped[0] == '/' then stripped
    else
      SlashPrefix(stripped);
      "/" + stripped
  }

  /** The steps of `_normalizePath` before the leading '/' is added. */
  function Stripped(path: string): (r: string)
    ensures NoDouble(r, '/')
    ensures |r| > 1 ==> r[|r| - 1] != '/'
    ensures Blank(path) ==> r == []
  {
    var trimmed := Trim(Collapse(path, '/'));
    TrimmedShape(path);
    if |trimmed| > 1 && trimmed[|trimmed| - 1] == '/' then
      NoDoubleSlice(trimmed, '/', 0, |trimmed| - 1);
      assert trimmed[|trimmed| - 2] != '/';
      trimmed[..|trimmed| - 1]
    else trimmed
  }

  lemma TrimmedShape(path: string)
    ensures NoDouble(Trim(Collapse(path, '/')), '/')
    ensures Blank(path) ==> Trim(Collapse(path, '/')) == []
  {
    var collapsed := Collapse(path, '/');
    TrimSlice(collapsed);
    NoDoubleSlice(collapsed, '/', TrimOffset(collapsed), TrimOffset(collapsed) + |Trim(collapsed)|);
    CollapseBlank(path, '/');
  }

  lemma SlashPrefix(t: string)
    requires NoDouble(t, '/') && (|t| > 1 ==> t[|t| - 1] != '/')
    requires t == [] || t[0] != '/'
    ensures Canonical("/" + t)
  {
    var s := "/" + t;
    forall i | 0 <= i < |s| - 1 ensures s[i] != '/' || s[i + 1] != '/' {
      if i > 0 {
        assert s[i] == t[i - 1] && s[i + 1] == t[i];
      }
    }
  }

  /** `s.split("/").filter((p) => p.length > 0)`: the names a lookup walks through. */
  function Segments(s: string): (r: seq<string>)
    ensures forall i | 0 <= i < |r| :: r[i] != "" && '/' !in r[i]
  {
    NonEmpty(Split(s, '/'))
  }

  function NonEmpty(parts: seq<string>): (r: seq<string>)
    ensures forall i | 0 <= i < |r| :: r[i] != "" && r[i] in parts
  {
    if parts == [] then []
    else
      var rest := NonEmpty(parts[1..]);
      assert forall i | 0 <= i < |rest| :: rest[i] in parts by {
        forall i | 0 <= i < |rest| ensures rest[i] in parts {
          assert rest[i] in parts[1..];
        }
      }
      (if parts[0] == "" then [] else [parts[0]]) + rest
  }

  lemma {:induction false} NonEmptyId(parts: seq<string>)
    requires forall i | 0 <= i < |parts| :: parts[i] != ""
    ensures NonEmpty(parts) == parts
  {
    if parts != [] {
      NonEmptyId(parts[1..]);
    }
  }

  /** A proper segment list: non-empty names free of '/'. */
  predicate CleanNames(segs: seq<string>)
  {
    forall i | 0 <= i < |segs| :: segs[i] != "" && '/' !in segs[i]
  }

  /**
   * Pieces of a string without doubled or trailing separators: all pieces
   * after the first are non-empty, and the first is empty exactly when the
   * string starts with the separator.
   */
  lemma {:induction false} SplitPieces(t: string)
    requires NoDouble(t, '/')
    requires t == [] || t[|t| - 1] != '/'
    ensures forall i | 1 <= i < |Split(t, '/')| :: Split(t, '/')[i] != ""
    ensures t != [] ==> (Split(t, '/')[0] == "" <==> t[0] == '/')
  {
    if t != [] {
      SplitPieces(t[1..]);
      if t[0] == '/' {
        assert t[1..] != [] && t[1] != '/';
      }
    }
  }

  /** A canonical path is '/' followed by its segments joined with '/'. */
  lemma CanonicalSegments(s: string)
    requires Canonical(s)
    ensures s == "/" <==> Segments(s) == []
    ensures s != "/" ==> s == "/" + Join(Segments(s), '/')
  {
    var t := s[1..];
    assert s == "/" + t;
    SplitPieces(t);
    assert Split(s, '/') == [""] + Split(t, '/');
    assert NonEmpty(Split(s, '/')) == NonEmpty(Split(t, '/'));
    if s != "/" {
      assert t != [] && t[0] != '/';
      NonEmptyId(Split(t, '/'));
      JoinSplit(t, '/');
    } else {
      assert Split(t, '/') == [""];
    }
  }

  /** Joining clean segments behind '/' gives a canonical path with those segments. */
  lemma {:induction false} SegmentsOfJoin(segs: seq<string>)
    requires segs != [] && CleanNames(segs)
    ensures Canonical("/" + Join(segs, '/'))
    ensures Segments("/" + Join(segs, '/')) == segs
  {
    var t := Join(segs, '/');
    SplitJoin(segs, '/');
    JoinShape(segs);
    assert Split("/" + t, '/') == [""] + segs;
    NonEmptyId(segs);
    assert NonEmpty([""] + segs) == NonEmpty(segs);
  }

  lemma {:induction false} JoinShape(segs: seq<string>)
    requires segs != [] && CleanNames(segs)
    ensures Join(segs, '/') != [] && Join(segs, '/')[0] != '/'
    ensures Join(segs, '/')[|Join(segs, '/')| - 1] != '/'
    ensures NoDouble("/" + Join(segs, '/'), '/')
  {
    var t := Join(segs, '/');
    if |segs| > 1 {
      JoinShape(segs[1..]);
      var u := Join(segs[1..], '/');
      assert t == segs[0] + "/" + u;
      var s := "/" + t;
      forall i | 0 <= i < |s| - 1 ensures s[i] != '/' || s[i + 1] != '/' {
        if i <= |segs[0]| {
          if i >= 1 && i - 1 < |segs[0]| {
            assert s[i] == segs[0][i - 1];
            assert s[i] != '/' by { assert segs[0][i - 1] in segs[0]; }
          }
          if i + 1 <= |segs[0]| {
            assert s[i + 1] == segs[0][i];
            assert s[i + 1] != '/' by { assert segs[0][i] in segs[0]; }
          }
        } else {
          assert ("/" + u)[i - |segs[0]| - 1] == s[i];
          assert ("/" + u)[i - |segs[0]|] == s[i + 1];
        }
      }
    } else {
      assert t == segs[0];
      assert t[|t| - 1] != '/' by { assert t[|t| - 1] in segs[0]; }
      assert t[0] != '/' by { assert t[0] in segs[0]; }
      var s := "/" + t;
      forall i | 0 <= i < |s| - 1 ensures s[i] != '/' || s[i + 1] != '/' {
        assert s[i + 1] == t[i];
        assert t[i] in segs[0];
      }
    }
  }

  /** The full path `list` reports for child `key` of directory `dir`. */
  function ChildPath(dir: string, key: string): string
  {
    (if dir == "/" then "/" else dir + "/") + key
  }

  /** A child path of a canonical directory adds exactly one segment. */
  lemma ChildPathSegments(dir: string, key: string)
    requires Canonical(dir) && key != "" && '/' !in key
    ensures Canonical(ChildPath(dir, key))
    ensures Segments(ChildPath(dir, key)) == Segments(dir) + [key]
  {
    CanonicalSegments(dir);
    var segs := Segments(dir) + [key];
    assert CleanNames(segs);
    if dir == "/" {
      assert ChildPath(dir, key) == "/" + Join([key], '/');
      SegmentsOfJoin([key]);
    } else {
      JoinAppend(Segments(dir), [key], '/');
      assert ChildPath(dir, key) == "/" + Join(segs, '/');
      SegmentsOfJoin(segs);
    }
  }

  /** `s.replace(/\/+$/, "")`. */
  function TrimTrailingSlashes(s: string): (r: string)
    ensures |r| <= |s| && r == s[..|r|] && (r == [] || r[|r| - 1] != '/')
    ensures forall i | |r| <= i < |s| :: s[i] == '/'
  {
    if |s| > 0 && s[|s| - 1] == '/' then TrimTrailingSlashes(s[..|s| - 1]) else s
  }

  /** `s.replace(/^\/+/, "")`. */
  function TrimLeadingSlashes(s: string): (r: string)
    ensures |r| <= |s| && r == s[|s| - |r|..] && (r == [] || r[0] != '/')
    ensures forall i | 0 <= i < |s| - |r| :: s[i] == '/'
  {
    if |s| > 0 && s[0] == '/' then TrimLeadingSlashes(s[1..]) else s
  }

  /**
   * `joinPath`: trailing slashes of the first part and leading slashes of the
   * second are dropped, an empty first part means "/", and the two are joined
   * with one '/'.
   */
  function JoinPath(a: string, b: string): (r: string)
    ensures r != []
  {
    var part1 := TrimTrailingSlashes(if a == "" then "/" else a);
    var part2 := TrimLeadingSlashes(b);
    var part1 := if part1 == "" then "/" else part1;
    if part1 == "/" then (if part2 == "" then "/" else "/" + part2)
    else if part2 == "" then part1
    else part1 + "/" + part2
  }

  /** Joining a canonical directory with a plain name gives the path `list` reports. */
  lemma JoinPathChild(dir: string, key: string)
    requires Canonical(dir) && key != "" && key[0] != '/'
    ensures JoinPath(dir, key) == ChildPath(dir, key)
  {
    if dir != "/" {
      assert TrimTrailingSlashes(dir) == dir;
    } else {
      assert TrimTrailingSlashes("/") == TrimTrailingSlashes("");
    }
  }

  /** `getBasename`: "/" for the root, otherwise the last piece of the normalised path. */
  function Basename(path: string): string
  {
    var norm := NormalizePath(path);
    if norm == "/" then "/"
    else
      var parts := Split(norm, '/');
      parts[|parts| - 1]
  }

  /** `getDirname`: the normalised path without its last piece, "/" when nothing is left. */
  function Dirname(path: string): string
  {
    var norm := NormalizePath(path);
    if norm == "/" then "/"
    else
      var parts := Split(norm, '/');
      var parts := parts[..|parts| - 1];
      if parts == [""] then "/"
      else
        var joined := Join(parts, '/');
        if joined == "" then "/" else joined
  }

  /** `getExtension`: the extension of the base name. */
  function Extension(path: string): string
  {
    ExtensionOf(Basename(path))
  }

  /**
   * The extension of a base name: "." and the text after its last '.', or ""
   * when the name is "/", has no '.', or starts with '.'.
   */
  function ExtensionOf(b: string): (r: string)
    ensures r != "" <==> b != "/" && '.' in b && b[0] != '.'
    ensures r != "" ==> r[0] == '.' && '.' !in r[1..] && |r| <= |b| && b[|b| - |r|..] == r
  {
    if b == "/" || !Contains(b, '.') then ""
    else
      var parts := Split(b, '.');
      SplitLast(b, '.');
      if |parts| > 1 && parts[0] != "" then "." + parts[|parts| - 1] else ""
  }

  /**
   * Splitting on a separator that occurs: there are at least two pieces, the
   * first is empty exactly when the string starts with the separator, and
   * the string ends with the separator and the last piece.
   */
  lemma SplitLast(s: string, c: char)
    requires c in s
    ensures |Split(s, c)| > 1
    ensures Split(s, c)[0] == "" <==> s[0] == c
    ensures var last := Split(s, c)[|Split(s, c)| - 1]; |last| + 1 <= |s| && s[|s| - |last| - 1..] == [c] + last
  {
    var parts := Split(s, c);
    SplitCount(s, c);
    SplitFirst(s, c);
    var init, last := parts[..|parts| - 1], parts[|parts| - 1];
    InitLastParts(parts);
    JoinSplit(s, c);
    JoinAppend(init, [last], c);
    var j := Join(init, c);
    assert s == j + [c] + last;
    SuffixOf(j, c, last);
  }

  lemma InitLastParts(parts: seq<string>)
    requires parts != []
    ensures parts[..|parts| - 1] + [parts[|parts| - 1]] == parts
  {
  }

  lemma SuffixOf(j: string, c: char, last: string)
    ensures var s := j + [c] + last; |last| + 1 <= |s| && s[|s| - |last| - 1..] == [c] + last
  {
    var s := j + [c] + last;
    assert s[|j|..] == [c] + last;
  }

  lemma {:induction false} SplitCount(s: string, c: char)
    ensures |Split(s, c)| > 1 <==> c in s
  {
    if s != [] {
      SplitCount(s[1..], c);
      assert c in s <==> s[0] == c || c in s[1..];
    }
  }

  lemma SplitFirst(s: string, c: char)
    requires s != []
    ensures Split(s, c)[0] == "" <==> s[0] == c
  {
  }

  /** `_normalizePath` is the identity on canonical paths that do not end in whitespace. */
  lemma NormalizeCanonical(s: string)
    requires Canonical(s) && !IsWhitespace(s[|s| - 1])
    ensures NormalizePath(s) == s
  {
    CollapseNoDouble(s, '/');
    assert !IsWhitespace(s[0]);
    TrimFixed(s);
  }

  lemma TrimFixed(s: string)
    requires s != [] && !IsWhitespace(s[0]) && !IsWhitespace(s[|s| - 1])
    ensures Trim(s) == s
  {
    assert TrimStart(s) == s;
    assert TrimEnd(s) == s;
  }

  /**
   * The base name of a child path is the child's name, provided the name
   * does not end in whitespace (which the `trim` inside `_normalizePath`
   * would remove).
   */
  lemma BasenameOfChild(dir: string, key: string)
    requires Canonical(dir) && key != "" && '/' !in key && !IsWhitespace(key[|key| - 1])
    ensures Basename(ChildPath(dir, key)) == key
  {
    ChildPathSplit(dir, key);
    var parts := Split(ChildPath(dir, key), '/');
    assert parts[|parts| - 1] == key;
  }

  /** The directory name of a child path is the directory, under the same proviso. */
  lemma DirnameOfChild(dir: string, key: string)
    requires Canonical(dir) && key != "" && '/' !in key && !IsWhitespace(key[|key| - 1])
    ensures Dirname(ChildPath(dir, key)) == dir
  {
    ChildPathSplit(dir, key);
    var parts := Split(ChildPath(dir, key), '/');
    assert parts[..|parts| - 1] == [""] + Segments(dir);
    DirnameParts(dir);
  }

  lemma ChildPathSplit(dir: string, key: string)
    requires Canonical(dir) && key != "" && '/' !in key && !IsWhitespace(key[|key| - 1])
    ensures NormalizePath(ChildPath(dir, key)) == ChildPath(dir, key) != "/"
    ensures Split(ChildPath(dir, key), '/') == [""] + Segments(dir) + [key]
  {
    ChildPathNormal(dir, key);
    ChildPathPieces(dir, key);
  }

  /** A child path of a canonical directory is already normal, and is not the root. */
  lemma ChildPathNormal(dir: string, key: string)
    requires Canonical(dir) && key != "" && '/' !in key && !IsWhitespace(key[|key| - 1])
    ensures NormalizePath(ChildPath(dir, key)) == ChildPath(dir, key) != "/"
  {
    var p := ChildPath(dir, key);
    ChildPathSegments(dir, key);
    assert p[|p| - 1] == key[|key| - 1];
    NormalizeCanonical(p);
  }

  /** A child path of a canonical directory splits into an empty piece, the directory's segments and the key. */
  lemma ChildPathPieces(dir: string, key: string)
    requires Canonical(dir) && key != "" && '/' !in key
    ensures Split(ChildPath(dir, key), '/') == [""] + Segments(dir) + [key]
  {
    var p := ChildPath(dir, key);
    ChildPathSegments(dir, key);
    assert |p| > 1;
    SplitCanonical(p);
  }

  /** A canonical path other than "/" splits into an empty piece and its segments. */
  lemma SplitCanonical(s: string)
    requires Canonical(s) && s != "/"
    ensures Split(s, '/') == [""] + Segments(s)
  {
    var t := s[1..];
    assert s == "/" + t;
    SplitPieces(t);
    assert Split(s, '/') == [""] + Split(t, '/');
    assert t != [] && t[0] != '/';
    NonEmptyId(Split(t, '/'));
    assert NonEmpty(Split(s, '/')) == NonEmpty(Split(t, '/'));
  }

  lemma DirnameParts(dir: string)
    requires Canonical(dir)
    ensures var parts := [""] + Segments(dir);
      (if parts == [""] then "/" else var j := Join(parts, '/'); if j == "" then "/" else j) == dir
  {
    CanonicalSegments(dir);
    if dir != "/" {
      var ds := Segments(dir);
      JoinAppend([""], ds, '/');
      assert Join([""] + ds, '/') == "/" + Join(ds, '/');
    }
  }

  /**
   * `_normalizePath` is not idempotent: a slash stripped after `trim` can
   * expose trailing whitespace, which a second pass removes.
   */
  lemma NormalizeTwiceDiffers()
    ensures NormalizePath("a /") == "/a "
    ensures NormalizePath("/a ") == "/a"
  {
    NormalizeFirstPass();
    NormalizeSecondPass();
  }

  lemma NormalizeFirstPass()
    ensures NormalizePath("a /") == "/a "
  {
    CollapseFirstPass();
    TrimFirstPass();
    DropFirstPass();
    NormalizedOf("a /", "a ");
  }

  lemma CollapseFirstPass()
    ensures Collapse("a /", '/') == "a /"
  {
    assert NoDouble("a /", '/');
    CollapseNoDouble("a /", '/');
  }

  lemma TrimFirstPass()
    ensures Trim("a /") == "a /"
  {
    assert !IsWhitespace('/') && !IsWhitespace('a');
    TrimFixed("a /");
  }

  lemma DropFirstPass()
    ensures "a /"[..2] == "a "
  {
  }

  lemma NormalizeSecondPass()
    ensures NormalizePath("/a ") == "/a"
  {
    CollapseSecondPass();
    TrimSecondPass();
    NormalizedOf("/a ", "/a");
  }

  lemma CollapseSecondPass()
    ensures Collapse("/a ", '/') == "/a "
  {
    assert NoDouble("/a ", '/');
    CollapseNoDouble("/a ", '/');
  }

  lemma TrimSecondPass()
    ensures Trim("/a ") == "/a"
  {
    var t := "/a ";
    assert !IsWhitespace('/') && !IsWhitespace('a') && IsWhitespace(' ');
    TrimStartFixed(t);
    assert t[..2] == "/a";
  }

  /** `NormalizePath` once the stripped form is known. */
  lemma NormalizedOf(path: string, t: string)
    requires Stripped(path) == t
    ensures |t| > 0 && t[0] == '/' ==> NormalizePath(path) == t
    ensures !(|t| > 0 && t[0] == '/') ==> NormalizePath(path) == "/" + t
  {
  }

  /** When the source's segments strictly prefix the destination's, the string guard `dst.startsWith(src + "/")` fires. */
  lemma ContainedPathGuard(src: string, dst: string)
    requires Canonical(src) && Canonical(dst) && src != "/"
    requires Segments(src) < Segments(dst)
    ensures StartsWith(dst, src + "/")
  {
    CanonicalSegments(src);
    CanonicalSegments(dst);
    var a := Segments(src);
    var b := Segments(dst);
    var rest := b[|a|..];
    assert b == a + rest;
    JoinAppend(a, rest, '/');
  }
}
