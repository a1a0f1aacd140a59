/**
 * The store object of rxFS+: the tree it holds and the message of the last
 * operation, changed in place by each block. The walks the source writes as
 * loops (`_getNode`, the lookup half of `_getParentAndKey`, the `for ... in`
 * of `list`) are methods proved against the functions of RxOps; every other
 * block sets the state to what its RxOps function gives.
 */
module RxStore {
  import opened Wrappers
  import opened Strings
  import opened JsonValues
  import opened RxPaths
  import opened RxTree
  import opened RxDocument
  import opened RxOps

  /** `_getNode`: follows the names of the normalised path down from the root. */
  method GetNode(root: Node, path: string) returns (r: Option<Node>)
    ensures r == Lookup(root, path)
  {
    var norm := NormalizePath(path);
    if norm == "/" {
      CanonicalSegments(norm);
      return Some(root);
    }
    r := Walk(root, Segments(norm));
  }

  /** The loop of `_getNode`: one name at a time, stopping at a file or a missing name. */
  method Walk(root: Node, parts: seq<string>) returns (r: Option<Node>)
    ensures r == Find(root, parts)
  {
    var current := root;
    var i := 0;
    while i < |parts|
      invariant 0 <= i <= |parts|
      invariant Find(root, parts[..i]) == Some(current)
    {
      var part := parts[i];
      FindStep(root, parts, i);
      if !current.Dir? || part !in current.children {
        return None;
      }
      current := current.children[part];
      i := i + 1;
    }
    assert parts[..i] == parts;
    return Some(current);
  }

  /** One step of a walk: the next prefix is one name below, and a dead end stays dead. */
  lemma FindStep(root: Node, parts: seq<string>, i: nat)
    requires i < |parts| && Find(root, parts[..i]).Some?
    ensures var n := Find(root, parts[..i]).value;
      && Find(root, parts[..i + 1]) == (if n.Dir? && parts[i] in n.children then Some(n.children[parts[i]]) else None)
      && (Find(root, parts[..i + 1]).None? ==> Find(root, parts).None?)
  {
    var n := Find(root, parts[..i]).value;
    FindAppend(root, parts[..i], [parts[i]]);
    assert parts[..i] + [parts[i]] == parts[..i + 1];
    assert [parts[i]][1..] == [];
    FindAppend(root, parts[..i + 1], parts[i + 1..]);
    assert parts[..i + 1] + parts[i + 1..] == parts;
  }

  /** The parent `_getParentAndKey(path, false)` finds: its names, the node itself and the key. */
  datatype Parent = Parent(dir: seq<string>, node: Node, key: string)

  /**
   * `_getParentAndKey(path, false)`: walks to the parent of the last name and
   * gives up at the root path, at a missing name and at a file on the way.
   */
  method GetParentAndKey(root: Node, path: string) returns (r: Option<Parent>)
    requires root.Dir?
    ensures var p := PathOf(path);
      && (r.Some? <==> p != [] && IsDirAt(root, p[..|p| - 1]))
      && (r.Some? ==> r.value.dir + [r.value.key] == p && Find(root, r.value.dir) == Some(r.value.node))
  {
    var norm := NormalizePath(path);
    CanonicalSegments(norm);
    if norm == "/" {
      return None;
    }
    var parts := Segments(norm);
    InitLast(parts);
    var parent := WalkDirs(root, parts[..|parts| - 1]);
    if parent.None? {
      return None;
    }
    return Some(Parent(parts[..|parts| - 1], parent.value, parts[|parts| - 1]));
  }

  /** The loop of `_getParentAndKey`: every name on the way must be a directory. */
  method WalkDirs(root: Node, dirs: seq<string>) returns (r: Option<Node>)
    requires root.Dir?
    ensures r.Some? <==> IsDirAt(root, dirs)
    ensures r.Some? ==> Find(root, dirs) == r
  {
    var current := root;
    var i := 0;
    while i < |dirs|
      invariant 0 <= i <= |dirs|
      invariant Find(root, dirs[..i]) == Some(current) && current.Dir?
    {
      var part := dirs[i];
      FindStep(root, dirs, i);
      if part !in current.children || !current.children[part].Dir? {
        MissingBelow(root, dirs, i, |dirs|);
        assert dirs[..|dirs|] == dirs;
        return None;
      }
      current := current.children[part];
      i := i + 1;
    }
    assert dirs[..i] == dirs;
    return Some(current);
  }

  /** A walk that stops at step `i` reaches no directory at any longer prefix. */
  lemma MissingBelow(root: Node, parts: seq<string>, i: nat, j: nat)
    requires i < j <= |parts| && !IsDirAt(root, parts[..i + 1])
    ensures !IsDirAt(root, parts[..j])
  {
    FindAppend(root, parts[..i + 1], parts[i + 1..j]);
    assert parts[..i + 1] + parts[i + 1..j] == parts[..j];
    if Find(root, parts[..i + 1]).Some? {
      var n := Find(root, parts[..i + 1]).value;
      if parts[i + 1..j] != [] {
        assert !n.Dir?;
      }
    }
  }

  /** The `for ... in` of `list`: the full paths of the wanted children, one key at a time. */
  method ListChildren(norm: string, children: map<string, Node>, kind: string) returns (entries: set<string>)
    ensures entries == set k | k in children && Wanted(kind, children[k]) :: ChildPath(norm, k)
  {
    var keys := children.Keys;
    entries := {};
    while keys != {}
      invariant keys <= children.Keys
      invariant entries == set k | k in children.Keys - keys && Wanted(kind, children[k]) :: ChildPath(norm, k)
      decreases keys
    {
      var key :| key in keys;
      if Wanted(kind, children[key]) {
        entries := entries + {ChildPath(norm, key)};
      }
      keys := keys - {key};
    }
  }

  /** `list`: the looked-up directory's wanted children, or a message. */
  method ListDir(root: Node, path: string, kind: string) returns (r: Answer<set<string>>)
    ensures r == List(root, path, kind)
  {
    var norm := NormalizePath(path);
    var node := GetNode(root, norm);
    if node.None? {
      return Answer({}, "Path not found");
    }
    if !node.value.Dir? {
      return Answer({}, "Path is a file");
    }
    var entries := ListChildren(norm, node.value.children, kind);
    return Answer(entries, "");
  }

  /** An instance of the extension: the tree `fsRoot` and `lastError`. */
  class RxFS {
    var root: Node
    var lastError: string

    /** The root is always a directory. */
    predicate Valid()
      reads this
    {
      root.Dir?
    }

    /** A fresh store: an empty root directory and no message. */
    constructor(now: int)
      ensures Valid() && root == EmptyDir(now) && lastError == ""
    {
      root := EmptyDir(now);
      lastError := "";
    }

    /** The new tree and message an operation gives. */
    method Apply(o: Outcome)
      requires o.root.Dir?
      modifies this
      ensures Valid() && root == o.root && lastError == o.error
    {
      root := o.root;
      lastError := o.error;
    }

    method Clean(now: int)
      modifies this
      ensures Valid() && root == EmptyDir(now) && lastError == ""
    {
      Apply(RxOps.Clean(now));
    }

    method CreateFile(path: string, now: int)
      requires Valid()
      modifies this
      ensures Valid() && Outcome(root, lastError) == RxOps.CreateFile(old(root), path, now)
    {
      Apply(RxOps.CreateFile(root, path, now));
    }

    method CreateDirectory(path: string, now: int)
      requires Valid()
      modifies this
      ensures Valid() && Outcome(root, lastError) == RxOps.CreateDirectory(old(root), path, now)
    {
      Apply(RxOps.CreateDirectory(root, path, now));
    }

    method WriteFile(path: string, data: string, now: int)
      requires Valid()
      modifies this
      ensures Valid() && Outcome(root, lastError) == RxOps.WriteFile(old(root), path, data, now)
    {
      Apply(RxOps.WriteFile(root, path, data, now));
    }

    /** `appendFile`, step by step over the parent `_getParentAndKey` finds. */
    method AppendFile(path: string, data: string, now: int)
      requires Valid()
      modifies this
      ensures Valid() && Outcome(root, lastError) == RxOps.AppendFile(old(root), path, data, now)
    {
      lastError := "";
      var parent := GetParentAndKey(root, path);
      if parent.None? {
        lastError := "Path not found";
        return;
      }
      var Parent(dir, node, key) := parent.value;
      if key !in node.children {
        lastError := "File not found";
        return;
      }
      var file := node.children[key];
      if !file.File? {
        lastError := "Path is a directory";
        return;
      }
      root := Put(root, dir, key, file.(content := file.content + data, mtime := now), now);
    }

    /** `readFile`, over `_getNode`. */
    method ReadFile(path: string) returns (content: string)
      requires Valid()
      modifies this
      ensures Valid() && root == old(root) && Answer(content, lastError) == RxOps.ReadFile(root, path)
    {
      lastError := "";
      var node := GetNode(root, path);
      if node.None? {
        lastError := "File not found";
        return "";
      }
      if !node.value.File? {
        lastError := "Path is a directory";
        return "";
      }
      return node.value.content;
    }

    method Remove(path: string, now: int)
      requires Valid()
      modifies this
      ensures Valid() && Outcome(root, lastError) == RxOps.Remove(old(root), path, now)
    {
      Apply(RxOps.Remove(root, path, now));
    }

    method Move(src: string, dst: string, now: int)
      requires Valid()
      modifies this
      ensures Valid() && Outcome(root, lastError) == RxOps.Move(old(root), src, dst, now)
    {
      Apply(RxOps.Move(root, src, dst, now));
    }

    method Copy(src: string, dst: string, now: int)
      requires Valid()
      modifies this
      ensures Valid() && Outcome(root, lastError) == RxOps.Copy(old(root), src, dst, now)
    {
      Apply(RxOps.Copy(root, src, dst, now));
    }

    /** `rename`, with the `OVER` argument read as the source reads it. */
    method Rename(src: string, dst: string, over: string, now: int)
      requires Valid()
      modifies this
      ensures Valid() && Outcome(root, lastError) == RxOps.Rename(old(root), src, dst, OverwriteFlag(over), now)
    {
      Apply(RxOps.Rename(root, src, dst, OverwriteFlag(over), now));
    }

    /** `list`, over the listing walk. */
    method List(path: string, kind: string) returns (entries: set<string>)
      requires Valid()
      modifies this
      ensures Valid() && root == old(root) && Answer(entries, lastError) == RxOps.List(root, path, kind)
    {
      var r := ListDir(root, path, kind);
      entries, lastError := r.value, r.error;
    }

    method PathExists(path: string) returns (b: bool)
      requires Valid()
      modifies this
      ensures Valid() && root == old(root) && lastError == "" && b == RxOps.PathExists(root, path)
    {
      lastError := "";
      var node := GetNode(root, path);
      b := node.Some?;
    }

    method GetPathType(path: string) returns (t: string)
      requires Valid()
      modifies this
      ensures Valid() && root == old(root) && lastError == "" && t == RxOps.PathType(root, path)
    {
      lastError := "";
      var node := GetNode(root, path);
      t := if node.None? then "none" else if node.value.File? then "file" else "directory";
    }

    method ChangeMode(path: string, mode: string, depth: string, now: int)
      requires Valid()
      modifies this
      ensures Valid() && Outcome(root, lastError) == RxOps.ChangeMode(old(root), path, mode, depth, now)
    {
      Apply(RxOps.ChangeMode(root, path, mode, depth, now));
    }

    method Touch(path: string, now: int)
      requires Valid()
      modifies this
      ensures Valid() && Outcome(root, lastError) == RxOps.Touch(old(root), path, now)
    {
      Apply(RxOps.Touch(root, path, now));
    }

    method GetSize(path: string) returns (size: nat)
      requires Valid()
      modifies this
      ensures Valid() && root == old(root) && Answer(size, lastError) == RxOps.Size(root, path)
    {
      lastError := "";
      var node := GetNode(root, path);
      if node.None? {
        lastError := "Path not found";
        return 0;
      }
      size := if node.value.File? then Utf8Length(node.value.content) else |node.value.children|;
    }

    method GetCTime(path: string) returns (t: int)
      requires Valid()
      modifies this
      ensures Valid() && root == old(root) && Answer(t, lastError) == RxOps.CTime(root, path)
    {
      lastError := "";
      var node := GetNode(root, path);
      if node.None? {
        lastError := "Path not found";
        return 0;
      }
      t := node.value.ctime;
    }

    method GetMTime(path: string) returns (t: int)
      requires Valid()
      modifies this
      ensures Valid() && root == old(root) && Answer(t, lastError) == RxOps.MTime(root, path)
    {
      lastError := "";
      var node := GetNode(root, path);
      if node.None? {
        lastError := "Path not found";
        return 0;
      }
      t := node.value.mtime;
    }

    /** `in`: replaces the tree with an imported one, or keeps it and records why not. */
    method In(input: string, unpack: string -> Unpacked, parse: string -> Option<Json>)
      requires Valid()
      modifies this
      ensures Valid() && Outcome(root, lastError) == RxOps.Import(old(root), input, unpack, parse)
    {
      Apply(RxOps.Import(root, input, unpack, parse));
    }

    /** `out`: the packed document of the tree. */
    method Out(pack: string -> string, stringify: Json -> string) returns (text: string)
      requires Valid()
      modifies this
      ensures Valid() && root == old(root) && lastError == "" && text == Export(root, pack, stringify)
    {
      lastError := "";
      text := Export(root, pack, stringify);
    }

    /** `getLastError`: the message, which stays in place. */
    method GetLastError() returns (e: string)
      ensures e == lastError
    {
      e := lastError;
    }
  }
}
