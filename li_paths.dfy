/**
 * Path normalisation of the LiFS record store: backslashes become '/',
 * runs of '/' collapse, outer slashes go, and the pieces are resolved with
 * "." skipped and ".." dropping the previous name (or nothing at the root).
 */
module LiPaths {
  import opened Strings
  import opened JsonValues
  import opened RxPaths

  /** `normalizePath` of a value that is not a string: the root. */
  function NormalizeValue(v: Json): string
  {
    if v.JStr? then NormalizePath(v.s) else "/"
  }

  /** `normalizePath`. */
  function NormalizePath(path: string): string
  {
    if Blank(path) then "/"
    else "/" + Join(Resolve([], Pieces(path)), '/')
  }

  /** The pieces between slashes once backslashes are turned and outer slashes dropped. */
  function Pieces(path: string): seq<string>
  {
    Split(Unslashed(Collapse(ReplaceChar(path, '\\', '/'), '/')), '/')
  }

  /** `s.replace(/^\/+|\/+$/g, "")`. */
  function Unslashed(s: string): string
  {
    DropTrailing(DropLeading(s, '/'), '/')
  }

  function DropLeading(s: string, c: char): (r: string)
    ensures r == [] || r[0] != c
    ensures |r| <= |s| && r == s[|s| - |r|..]
  {
    if |s| > 0 && s[0] == c then DropLeading(s[1..], c) else s
  }

  function DropTrailing(s: string, c: char): (r: string)
    ensures r == [] || r[|r| - 1] != c
    ensures |r| <= |s| && r == s[..|r|]
  {
    if |s| > 0 && s[|s| - 1] == c then DropTrailing(s[..|s| - 1], c) else s
  }

  /** One turn of the resolving loop: skip "" and ".", pop for "..", push anything else. */
  function Step(resolved: seq<string>, part: string): seq<string>
  {
    if part == "" || part == "." then resolved
    else if part == ".." then (if |resolved| > 0 then resolved[..|resolved| - 1] else resolved)
    else resolved + [part]
  }

  /** The resolving loop over `parts`, starting from the names already resolved. */
  function Resolve(resolved: seq<string>, parts: seq<string>): seq<string>
    decreases |parts|
  {
    if parts == [] then resolved else Resolve(Step(resolved, parts[0]), parts[1..])
  }

  /** A name a normalised path can hold. */
  predicate PlainName(name: string)
  {
    name != "" && name != "." && name != ".." && '/' !in name && '\\' !in name
  }

  predicate PlainNames(names: seq<string>)
  {
    forall i | 0 <= i < |names| :: PlainName(names[i])
  }

  /** The names a normalised path is made of. */
  function NamesOf(path: string): seq<string>
  {
    if Blank(path) then [] else Resolve([], Pieces(path))
  }

  /** Characters of a piece come from the split string. */
  lemma {:induction false} SplitChars(s: string, c: char, x: char)
    requires x !in s
    ensures forall i | 0 <= i < |Split(s, c)| :: x !in Split(s, c)[i]
  {
    if s != [] {
      SplitChars(s[1..], c, x);
    }
  }

  /** Joining adds only separators. */
  lemma {:induction false} JoinFree(parts: seq<string>, c: char, x: char)
    requires x != c && forall i | 0 <= i < |parts| :: x !in parts[i]
    ensures x !in Join(parts, c)
  {
    if |parts| > 1 {
      JoinFree(parts[1..], c, x);
    }
  }

  /** No backslash survives to the pieces. */
  lemma PiecesFree(path: string)
    ensures forall i | 0 <= i < |Pieces(path)| :: '/' !in Pieces(path)[i] && '\\' !in Pieces(path)[i]
  {
    var t := ReplaceChar(path, '\\', '/');
    assert '\\' !in t by {
      forall i | 0 <= i < |t| ensures t[i] != '\\' {
      }
    }
    var u := Unslashed(Collapse(t, '/'));
    assert '\\' !in u;
    SplitChars(u, '/', '\\');
  }

  /** Resolving pieces free of separators gives plain names. */
  lemma {:induction false} ResolvePlain(resolved: seq<string>, parts: seq<string>)
    requires PlainNames(resolved)
    requires forall i | 0 <= i < |parts| :: '/' !in parts[i] && '\\' !in parts[i]
    ensures PlainNames(Resolve(resolved, parts))
    decreases |parts|
  {
    if parts != [] {
      ResolvePlain(Step(resolved, parts[0]), parts[1..]);
    }
  }

  /** Resolving plain names appends them unchanged. */
  lemma {:induction false} ResolveNames(resolved: seq<string>, names: seq<string>)
    requires PlainNames(names)
    ensures Resolve(resolved, names) == resolved + names
    decreases |names|
  {
    if names != [] {
      ResolveNames(resolved + [names[0]], names[1..]);
      assert resolved + [names[0]] + names[1..] == resolved + names;
    }
  }

  /**
   * Every result starts with '/', is made of plain names (no empty, "." or
   * ".." piece, no backslash), and is "/" for a blank argument.
   */
  lemma NormalShape(path: string)
    ensures var r := NormalizePath(path);
      && r == "/" + Join(NamesOf(path), '/') && PlainNames(NamesOf(path))
      && r[0] == '/' && '\\' !in r
      && (Blank(path) ==> r == "/")
  {
    PiecesFree(path);
    ResolvePlain([], Pieces(path));
    JoinFree(NamesOf(path), '/', '\\');
  }

  /** Normalising a normalised path changes nothing. */
  lemma NormalizeIdempotent(path: string)
    ensures NormalizePath(NormalizePath(path)) == NormalizePath(path)
  {
    NormalShape(path);
    NormalizeNames(NamesOf(path));
  }

  /** A path built from plain names normalises to itself, with the same names. */
  lemma NormalizeNames(names: seq<string>)
    requires PlainNames(names)
    ensures NormalizePath("/" + Join(names, '/')) == "/" + Join(names, '/')
    ensures NamesOf("/" + Join(names, '/')) == names
  {
    var r := "/" + Join(names, '/');
    assert !Blank(r) by {
      assert r[0] == '/';
    }
    assert NormalizePath(r) == "/" + Join(Resolve([], Pieces(r)), '/');
    PiecesOfNames(names);
    if names == [] {
      assert Resolve([], [""]) == [];
    } else {
      ResolveNames([], names);
      assert Resolve([], Pieces(r)) == names;
    }
  }

  /** The pieces of a path built from plain names are those names. */
  lemma PiecesOfNames(names: seq<string>)
    requires PlainNames(names)
    ensures Pieces("/" + Join(names, '/')) == if names == [] then [""] else names
  {
    var j := Join(names, '/');
    var r := "/" + j;
    if names == [] {
      assert r == "/";
      assert Unslashed(Collapse(ReplaceChar(r, '\\', '/'), '/')) == "";
    } else {
      assert CleanNames(names);
      JoinShape(names);
      assert Collapse(ReplaceChar(r, '\\', '/'), '/') == r by {
        JoinFree(names, '/', '\\');
        Unchanged(r);
        CollapseNoDouble(r, '/');
      }
      assert Unslashed(r) == j by {
        assert r[1..] == j;
        assert DropLeading(r, '/') == DropLeading(j, '/');
      }
      SplitJoin(names, '/');
    }
  }

  /** Turning backslashes into '/' leaves a string without backslashes alone. */
  lemma Unchanged(s: string)
    requires '\\' !in s
    ensures ReplaceChar(s, '\\', '/') == s
  {
  }

  /** A ".." above the root is dropped. */
  lemma DotDotAtRoot(parts: seq<string>)
    ensures Resolve([], [".."] + parts) == Resolve([], parts)
  {
    assert ([".."] + parts)[1..] == parts;
  }

  /** Normalised paths of names: "." is skipped, ".." pops the name before it. */
  lemma ResolveDots(resolved: seq<string>, name: string, parts: seq<string>)
    requires PlainName(name)
    ensures Resolve(resolved, ["."] + parts) == Resolve(resolved, parts)
    ensures Resolve(resolved, [name, ".."] + parts) == Resolve(resolved, parts)
  {
    assert (["."] + parts)[1..] == parts;
    assert ([name, ".."] + parts)[1..] == [".."] + parts;
    assert ([".."] + parts)[1..] == parts;
    assert (resolved + [name])[..|resolved|] == resolved;
  }

  /** `normalizePath` of a value that is not a string is the root, as for a blank string. */
  lemma NonStringRoot(v: Json)
    requires !v.JStr?
    ensures NormalizeValue(v) == "/" && NormalizePath("") == "/"
  {
  }

  /** `path.substring(0, path.lastIndexOf('/')) || '/'`: the parent of a normalised path. */
  function ParentPath(path: string): string
  {
    var i := LastIndex(path, '/');
    if i <= 0 then "/" else path[..i]
  }

  /** `s.lastIndexOf(c)`, -1 when absent. */
  function LastIndex(s: string, c: char): (r: int)
    ensures -1 <= r < |s|
    ensures r >= 0 ==> s[r] == c && c !in s[r + 1..]
    ensures r == -1 ==> c !in s
  {
    if s == [] then -1
    else if s[|s| - 1] == c then |s| - 1
    else
      var r := LastIndex(s[..|s| - 1], c);
      assert s == s[..|s| - 1] + [s[|s| - 1]];
      r
  }

  /** The parent of a normalised path is the path of all but its last name. */
  lemma ParentOfNames(init: seq<string>, last: string)
    requires PlainNames(init) && PlainName(last)
    ensures ParentPath("/" + Join(init + [last], '/')) == "/" + Join(init, '/')
  {
    if init == [] {
      assert init + [last] == [last];
      ParentOfTop(last);
    } else {
      JoinAppend(init, [last], '/');
      assert Join([last], '/') == last;
      assert "/" + Join(init + [last], '/') == ("/" + Join(init, '/')) + "/" + last;
      ParentOfChild("/" + Join(init, '/'), last);
    }
  }

  lemma ParentOfTop(last: string)
    requires '/' !in last
    ensures ParentPath("/" + last) == "/"
  {
    LastIndexAt("/" + last, 0);
  }

  lemma ParentOfChild(p: string, last: string)
    requires '/' !in last && |p| > 0
    ensures ParentPath(p + "/" + last) == p
  {
    var s := p + "/" + last;
    assert s[|p| + 1..] == last;
    LastIndexAt(s, |p|);
    assert s[..|p|] == p;
  }

  /** The last index of `c` is `i` when `c` sits at `i` and not after it. */
  lemma LastIndexAt(s: string, i: nat)
    requires i < |s| && s[i] == '/' && '/' !in s[i + 1..]
    ensures LastIndex(s, '/') == i
  {
    var r := LastIndex(s, '/');
    assert r >= i by {
      assert s[i] == '/';
    }
  }
}
