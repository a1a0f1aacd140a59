/**
 * Laws of the tree store's operations: what reading sees after writing,
 * what removal, move, rename and copy do to the tree and when they refuse,
 * how far `chmod` reaches, and the export/import round trip.
 */
module RxLaws {
  import opened Wrappers
  import opened Strings
  import opened JsonValues
  import opened RxPaths
  import opened RxTree
  import opened RxDocument
  import opened RxOps

  /** The names of an existing non-root node split into its parent's names and its own. */
  lemma ExistingSlot(root: Node, p: seq<string>)
    requires p != [] && Find(root, p).Some?
    ensures IsDirAt(root, p[..|p| - 1]) && p[|p| - 1] in Find(root, p[..|p| - 1]).value.children
    ensures Find(root, p[..|p| - 1]).value.children[p[|p| - 1]] == Find(root, p).value
  {
    InitLast(p);
    FindAppend(root, p[..|p| - 1], [p[|p| - 1]]);
  }

  /** A path split into all names but the last, and the last. */
  lemma SlotParts(dir: seq<string>, key: string, p: seq<string>)
    requires dir + [key] == p
    ensures p != [] && dir == p[..|p| - 1] && key == p[|p| - 1]
  {
    assert p[..|dir|] == dir;
  }

  /** The walk with `create` changes nothing when the path's parent already exists. */
  lemma LocateExisting(root: Node, path: string, now: int)
    requires root.Dir? && PathOf(path) != [] && Find(root, PathOf(path)).Some?
    ensures Locate(root, path, true, now).Some? && Locate(root, path, true, now).value.root == root
  {
    var p := PathOf(path);
    ExistingSlot(root, p);
    EnsureDirsExisting(root, p[..|p| - 1], now);
  }

  /** After the walk with `create`, the path itself holds what it held before, or nothing. */
  lemma LocateTarget(root: Node, path: string, now: int)
    requires root.Dir? && Locate(root, path, true, now).Some?
    ensures var s := Locate(root, path, true, now).value;
      Find(s.root, PathOf(path)) == Find(root, PathOf(path))
  {
    var s := Locate(root, path, true, now).value;
    var p := PathOf(path);
    if Find(root, p).Some? {
      EnsureDirsFrame(root, s.dir, now, p);
    } else if Find(s.root, p).Some? {
      EnsureDirsFrame(root, s.dir, now, p);
      assert false;
    }
  }

  /** `writeFile` followed by `readFile` of the same path gives back what was written. */
  lemma WriteThenRead(root: Node, path: string, data: string, now: int)
    requires root.Dir? && WriteFile(root, path, data, now).error == ""
    ensures ReadFile(WriteFile(root, path, data, now).root, path) == Answer(data, "")
  {
    var s := Locate(root, path, true, now).value;
    var parent := Find(s.root, s.dir).value;
    var child := if s.key in parent.children && parent.children[s.key].File?
                 then parent.children[s.key].(content := data, mtime := now)
                 else File(data, FileMode, now, now);
    var written := Put(s.root, s.dir, s.key, child, now);
    assert WriteFile(root, path, data, now).root == written;
    assert Lookup(written, path) == Some(child) by {
      assert s.dir + [s.key] == PathOf(path);
      PutFinds(s.root, s.dir, s.key, child, now);
    }
    assert child.File? && child.content == data;
  }

  /** The node just put under a key is found at the key's path. */
  lemma PutFinds(root: Node, dir: seq<string>, key: string, child: Node, now: int)
    requires IsDirAt(root, dir)
    ensures Find(Put(root, dir, key, child, now), dir + [key]) == Some(child)
  {
    FindPut(root, dir, key, child, now, dir + [key]);
    assert (dir + [key])[|dir| + 1..] == [];
  }

  /**
   * Writing to, or reading, an existing directory records "Path is a
   * directory"; the write leaves the tree as it was and the read gives "".
   */
  lemma WriteToDirectory(root: Node, path: string, data: string, now: int)
    requires root.Dir? && PathOf(path) != [] && Lookup(root, path).Some? && Lookup(root, path).value.Dir?
    ensures WriteFile(root, path, data, now) == Outcome(root, "Path is a directory")
    ensures ReadFile(root, path) == Answer("", "Path is a directory")
  {
    LocateExisting(root, path, now);
    ExistingSlot(root, PathOf(path));
  }

  /**
   * The walk to a path and the write of its last name leave every node that is
   * neither on the way to the path nor below it as it was.
   */
  lemma SlotPutFrame(root: Node, path: string, create: bool, now: int, child: Node, q: seq<string>)
    requires root.Dir? && Locate(root, path, create, now).Some? && Find(root, q).Some?
    requires !(q <= PathOf(path)) && !(PathOf(path) <= q)
    ensures var s := Locate(root, path, create, now).value;
      && Find(s.root, q) == Find(root, q)
      && Find(Put(s.root, s.dir, s.key, child, now), q) == Find(root, q)
  {
    var s := Locate(root, path, create, now).value;
    if create {
      EnsureDirsFrame(root, s.dir, now, q);
    }
    FindPut(s.root, s.dir, s.key, child, now, q);
  }

  /** The walk that creates the missing parents of a path changes nothing off the way to it. */
  lemma WalkFrame(root: Node, path: string, now: int, q: seq<string>)
    requires root.Dir? && Locate(root, path, true, now).Some? && !(q <= PathOf(path))
    ensures Find(Locate(root, path, true, now).value.root, q) == Find(root, q)
  {
    var s := Locate(root, path, true, now).value;
    EnsureDirsFrame(root, s.dir, now, q);
    if q <= s.dir {
      PrefixOfParent(q, s.dir, s.key);
    }
  }

  /** `createFile` leaves every existing node off the way to the path, and not below it, as it was. */
  lemma CreateFileLocal(root: Node, path: string, now: int, q: seq<string>)
    requires root.Dir? && Find(root, q).Some?
    requires !(q <= PathOf(path)) && !(PathOf(path) <= q)
    ensures Find(CreateFile(root, path, now).root, q) == Find(root, q)
  {
    match Locate(root, path, true, now)
    case None =>
    case Some(s) =>
      var parent := Find(s.root, s.dir).value;
      var child := if s.key in parent.children && parent.children[s.key].File?
                   then parent.children[s.key].(content := "", mtime := now)
                   else File("", FileMode, now, now);
      SlotPutFrame(root, path, true, now, child, q);
  }

  /** `createDirectory` leaves every existing node off the way to the path, and not below it, as it was. */
  lemma CreateDirectoryLocal(root: Node, path: string, now: int, q: seq<string>)
    requires root.Dir? && Find(root, q).Some?
    requires !(q <= PathOf(path)) && !(PathOf(path) <= q)
    ensures Find(CreateDirectory(root, path, now).root, q) == Find(root, q)
  {
    match Locate(root, path, true, now)
    case None =>
    case Some(s) =>
      SlotPutFrame(root, path, true, now, EmptyDir(now), q);
  }

  /** `writeFile` leaves every existing node off the way to the path, and not below it, as it was. */
  lemma WriteFileLocal(root: Node, path: string, data: string, now: int, q: seq<string>)
    requires root.Dir? && Find(root, q).Some?
    requires !(q <= PathOf(path)) && !(PathOf(path) <= q)
    ensures Find(WriteFile(root, path, data, now).root, q) == Find(root, q)
  {
    match Locate(root, path, true, now)
    case None =>
    case Some(s) =>
      var parent := Find(s.root, s.dir).value;
      var child := if s.key in parent.children && parent.children[s.key].File?
                   then parent.children[s.key].(content := data, mtime := now)
                   else File(data, FileMode, now, now);
      SlotPutFrame(root, path, true, now, child, q);
  }

  /** `appendFile` leaves every existing node off the way to the path, and not below it, as it was. */
  lemma AppendFileLocal(root: Node, path: string, data: string, now: int, q: seq<string>)
    requires root.Dir? && Find(root, q).Some?
    requires !(q <= PathOf(path)) && !(PathOf(path) <= q)
    ensures Find(AppendFile(root, path, data, now).root, q) == Find(root, q)
  {
    match Locate(root, path, false, now)
    case None =>
    case Some(s) =>
      var parent := Find(s.root, s.dir).value;
      if s.key in parent.children && parent.children[s.key].File? {
        var node := parent.children[s.key];
        SlotPutFrame(root, path, false, now, node.(content := node.content + data, mtime := now), q);
      }
  }

  /**
   * `createFile` on a path whose parent can be walked leaves an empty file
   * there with mtime `now`: an existing file keeps its mode and ctime (it is
   * truncated), a new one gets mode 0o644 and ctime `now`.
   */
  lemma CreateFileEffect(root: Node, path: string, now: int)
    requires root.Dir? && CreateFile(root, path, now).error == ""
    ensures var f := Lookup(CreateFile(root, path, now).root, path);
      && f.Some? && f.value.File? && f.value.content == "" && f.value.mtime == now
      && (Lookup(root, path).None? ==> f.value == File("", FileMode, now, now))
      && (Lookup(root, path).Some? ==> f.value.permissions == Lookup(root, path).value.permissions
                                       && f.value.ctime == Lookup(root, path).value.ctime)
    ensures ReadFile(CreateFile(root, path, now).root, path) == Answer("", "")
  {
    var s := Locate(root, path, true, now).value;
    LocateTarget(root, path, now);
    FindAppend(s.root, s.dir, [s.key]);
    var parent := Find(s.root, s.dir).value;
    var child := if s.key in parent.children && parent.children[s.key].File?
                 then parent.children[s.key].(content := "", mtime := now)
                 else File("", FileMode, now, now);
    FindPut(s.root, s.dir, s.key, child, now, s.dir + [s.key]);
    assert (s.dir + [s.key])[|s.dir| + 1..] == [];
  }

  /**
   * `createDirectory` that records no error leaves a directory at the path:
   * the one that was there, or a new empty one stamped `now`.
   */
  lemma CreateDirectoryEffect(root: Node, path: string, now: int)
    requires root.Dir? && CreateDirectory(root, path, now).error == ""
    ensures var d := Lookup(CreateDirectory(root, path, now).root, path);
      && d.Some? && d.value.Dir?
      && (Lookup(root, path).None? ==> d.value == EmptyDir(now))
      && (Lookup(root, path).Some? ==> CreateDirectory(root, path, now).root == root)
  {
    if Lookup(root, path).Some? {
      CreateDirectoryExisting(root, path, now);
    } else {
      CreateDirectoryNew(root, path, now);
    }
  }

  /** `createDirectory` on an existing directory records no error and changes nothing. */
  lemma CreateDirectoryExisting(root: Node, path: string, now: int)
    requires root.Dir? && CreateDirectory(root, path, now).error == "" && Lookup(root, path).Some?
    ensures CreateDirectory(root, path, now).root == root
    ensures Lookup(root, path).value.Dir?
  {
    var p := PathOf(path);
    LocateExisting(root, path, now);
    var s := Locate(root, path, true, now).value;
    assert s.root == root;
    SlotParts(s.dir, s.key, p);
    ExistingSlot(root, p);
    assert s.key in Find(root, s.dir).value.children;
  }

  /** `createDirectory` on a missing path leaves a new empty directory stamped `now` there. */
  lemma CreateDirectoryNew(root: Node, path: string, now: int)
    requires root.Dir? && CreateDirectory(root, path, now).error == "" && Lookup(root, path).None?
    ensures Lookup(CreateDirectory(root, path, now).root, path) == Some(EmptyDir(now))
  {
    var s := Locate(root, path, true, now).value;
    LocateTarget(root, path, now);
    FindAppend(s.root, s.dir, [s.key]);
    FindPut(s.root, s.dir, s.key, EmptyDir(now), now, s.dir + [s.key]);
    assert (s.dir + [s.key])[|s.dir| + 1..] == [];
  }

  /**
   * `appendFile` that records no error extends the file's content by `data`,
   * and its `getSize` by the UTF-8 length of `data`; on a directory it records
   * "Path is a directory" and changes nothing; on a missing path it records
   * "Path not found" or "File not found" and changes nothing.
   */
  lemma AppendEffect(root: Node, path: string, data: string, now: int)
    requires root.Dir?
    ensures AppendFile(root, path, data, now).error == "" ==>
      && ReadFile(AppendFile(root, path, data, now).root, path).value == ReadFile(root, path).value + data
      && Size(AppendFile(root, path, data, now).root, path).value == Size(root, path).value + Utf8Length(data)
    ensures PathOf(path) != [] && Lookup(root, path).Some? && Lookup(root, path).value.Dir? ==>
      AppendFile(root, path, data, now) == Outcome(root, "Path is a directory")
    ensures Lookup(root, path).None? ==>
      AppendFile(root, path, data, now).root == root &&
      AppendFile(root, path, data, now).error in {"Path not found", "File not found"}
  {
    if Lookup(root, path).None? {
      AppendMissing(root, path, data, now);
    }
    if AppendFile(root, path, data, now).error == "" {
      AppendExtends(root, path, data, now);
      Utf8LengthAppend(Lookup(root, path).value.content, data);
    }
    if PathOf(path) != [] && Lookup(root, path).Some? && Lookup(root, path).value.Dir? {
      AppendToDirectory(root, path, data, now);
    }
  }

  /** Appending to a path with no node fails with one of the two not-found messages. */
  lemma AppendMissing(root: Node, path: string, data: string, now: int)
    requires root.Dir? && Lookup(root, path).None?
    ensures AppendFile(root, path, data, now).root == root
    ensures AppendFile(root, path, data, now).error in {"Path not found", "File not found"}
  {
    if Locate(root, path, false, now).Some? {
      var s := Locate(root, path, false, now).value;
      assert s.dir + [s.key] == PathOf(path);
      FindAppend(root, s.dir, [s.key]);
      assert s.key !in Find(root, s.dir).value.children;
    }
  }

  /** The first half of `AppendEffect`: an append that records no error extends the file at the path. */
  lemma AppendExtends(root: Node, path: string, data: string, now: int)
    requires root.Dir? && AppendFile(root, path, data, now).error == ""
    ensures Lookup(root, path).Some? && Lookup(root, path).value.File?
    ensures var node := Lookup(root, path).value;
      Lookup(AppendFile(root, path, data, now).root, path) == Some(node.(content := node.content + data, mtime := now))
  {
    var s := Locate(root, path, false, now).value;
    var node := Find(root, s.dir).value.children[s.key];
    var appended := node.(content := node.content + data, mtime := now);
    assert s.dir + [s.key] == PathOf(path);
    assert Lookup(root, path) == Some(node) by { FindAppend(root, s.dir, [s.key]); }
    assert AppendFile(root, path, data, now).root == Put(root, s.dir, s.key, appended, now);
    PutFinds(root, s.dir, s.key, appended, now);
  }

  /** The second half of `AppendEffect`: appending to a directory changes nothing. */
  lemma AppendToDirectory(root: Node, path: string, data: string, now: int)
    requires root.Dir? && PathOf(path) != [] && Lookup(root, path).Some? && Lookup(root, path).value.Dir?
    ensures AppendFile(root, path, data, now) == Outcome(root, "Path is a directory")
  {
    ExistingSlot(root, PathOf(path));
  }

  /** `remove` of the root path records "Cannot remove root" and changes nothing. */
  lemma RemoveRoot(root: Node, path: string, now: int)
    requires root.Dir? && NormalizePath(path) == "/"
    ensures Remove(root, path, now) == Outcome(root, "Cannot remove root")
  {
  }

  /**
   * `remove` succeeds exactly when the (twice normalised) path names an
   * existing node other than the root.
   */
  lemma RemoveSucceeds(root: Node, path: string, now: int)
    requires root.Dir?
    ensures var p := PathOf(NormalizePath(path));
      Remove(root, path, now).error == "" <==> p != [] && Find(root, p).Some?
  {
    var p := PathOf(NormalizePath(path));
    if Remove(root, path, now).error == "" {
      RemovedExisted(root, path, now);
    } else if p != [] && Find(root, p).Some? {
      RemoveOfExisting(root, path, now);
    }
  }

  lemma RemovedExisted(root: Node, path: string, now: int)
    requires root.Dir? && Remove(root, path, now).error == ""
    ensures PathOf(NormalizePath(path)) != [] && Find(root, PathOf(NormalizePath(path))).Some?
  {
    var norm := NormalizePath(path);
    SlotOfRemove(root, path, now);
    var s := Locate(root, norm, false, now).value;
    assert s.dir + [s.key] == PathOf(norm);
    SourceNode(root, norm, now);
  }

  lemma SlotOfRemove(root: Node, path: string, now: int)
    requires root.Dir? && Remove(root, path, now).error == ""
    ensures NormalizePath(path) != "/" && Locate(root, NormalizePath(path), false, now).Some?
    ensures var s := Locate(root, NormalizePath(path), false, now).value;
      s.key in Find(root, s.dir).value.children
  {
    RemoveAccepted(root, path, now);
    RemoveFoundKey(root, path, now);
  }

  lemma RemoveAccepted(root: Node, path: string, now: int)
    requires root.Dir? && Remove(root, path, now).error == ""
    ensures NormalizePath(path) != "/" && Locate(root, NormalizePath(path), false, now).Some?
  {
  }

  lemma RemoveFoundKey(root: Node, path: string, now: int)
    requires root.Dir? && Remove(root, path, now).error == ""
    requires NormalizePath(path) != "/" && Locate(root, NormalizePath(path), false, now).Some?
    ensures var s := Locate(root, NormalizePath(path), false, now).value;
      s.key in Find(root, s.dir).value.children
  {
  }

  lemma RemoveOfExisting(root: Node, path: string, now: int)
    requires root.Dir? && PathOf(NormalizePath(path)) != [] && Find(root, PathOf(NormalizePath(path))).Some?
    ensures Remove(root, path, now).error == ""
  {
    var norm := NormalizePath(path);
    var p := PathOf(norm);
    assert norm != "/" by {
      NormalizeCanonical("/");
      CanonicalSegments("/");
    }
    assert Locate(root, norm, false, now).Some? by {
      ExistingSlot(root, p);
    }
    var s := Locate(root, norm, false, now).value;
    assert s.key in Find(root, s.dir).value.children by {
      ExistingSlot(root, p);
      SlotParts(s.dir, s.key, p);
    }
    RemoveOfSlot(root, path, now);
  }

  lemma RemoveOfSlot(root: Node, path: string, now: int)
    requires root.Dir? && NormalizePath(path) != "/"
    requires Locate(root, NormalizePath(path), false, now).Some?
    requires var s := Locate(root, NormalizePath(path), false, now).value;
      s.key in Find(root, s.dir).value.children
    ensures Remove(root, path, now).error == ""
  {
  }

  /** A `remove` that records an error leaves the tree as it was. */
  lemma RemoveFails(root: Node, path: string, now: int)
    requires root.Dir? && Remove(root, path, now).error != ""
    ensures Remove(root, path, now).root == root
  {
    var norm := NormalizePath(path);
    if norm != "/" {
      match Locate(root, norm, false, now)
      case None =>
      case Some(s) =>
    }
  }

  /**
   * After a `remove` that succeeds nothing is found at or below the removed
   * path, and every node that is not on the way to it is unchanged.
   */
  lemma RemoveEffect(root: Node, path: string, now: int, q: seq<string>)
    requires root.Dir? && Remove(root, path, now).error == ""
    ensures var p, r := PathOf(NormalizePath(path)), Remove(root, path, now);
      && (p <= q ==> Find(r.root, q).None?)
      && (!(p <= q) && !(q < p) ==> Find(r.root, q) == Find(root, q))
  {
    var norm := NormalizePath(path);
    var s := Locate(root, norm, false, now).value;
    FindDrop(root, s.dir, s.key, now, q);
    assert q < s.dir + [s.key] <==> q <= s.dir;
  }

  /** Two prefixes of one sequence are prefixes of each other, one way or the other. */
  lemma PrefixesComparable<T>(a: seq<T>, b: seq<T>, c: seq<T>)
    requires a <= c && b <= c
    ensures a <= b || b <= a
  {
    if |a| <= |b| {
      assert a == c[..|a|] == b[..|a|];
    } else {
      assert b == c[..|b|] == a[..|b|];
    }
  }

  /**
   * A path whose normal form ends in a non-blank character normalises to the
   * same names again, so the source's second normalisation changes nothing.
   */
  predicate Settled(path: string)
  {
    var norm := NormalizePath(path);
    !IsWhitespace(norm[|norm| - 1])
  }

  lemma SettledPath(path: string)
    requires Settled(path)
    ensures PathOf(NormalizePath(path)) == Segments(NormalizePath(path))
  {
    NormalizeCanonical(NormalizePath(path));
  }

  /**
   * The walk with `create` to an existing node leaves the tree as it was and
   * finds the node under its parent; the walk to a missing node finds its key
   * absent from the parent.
   */
  lemma LocateNode(root: Node, path: string, now: int)
    requires root.Dir? && Locate(root, path, true, now).Some?
    ensures var s := Locate(root, path, true, now).value;
      && (s.key in Find(s.root, s.dir).value.children <==> Find(root, PathOf(path)).Some?)
      && (Find(root, PathOf(path)).Some? ==> s.root == root)
  {
    var s := Locate(root, path, true, now).value;
    var p := PathOf(path);
    assert s.dir + [s.key] == p;
    var parent := Find(s.root, s.dir).value;
    assert parent.Dir?;
    assert Find(s.root, p) == Find(root, p) by { LocateTarget(root, path, now); }
    assert Find(s.root, p) == (if s.key in parent.children then Some(parent.children[s.key]) else None) by {
      FindAppend(s.root, s.dir, [s.key]);
      assert [s.key][1..] == [];
    }
    if Find(root, p).Some? {
      LocateExisting(root, path, now);
    }
  }

  /** What a `move` that records no error has found and built. */
  lemma MoveSlots(root: Node, src: string, dst: string, now: int)
    requires root.Dir? && Move(root, src, dst, now).error == ""
    ensures var s, d := NormalizePath(src), NormalizePath(dst);
      && s != "/" && d != "/" && !StartsWith(d, s + "/")
      && Locate(root, s, false, now).Some? && Locate(root, d, true, now).Some?
    ensures var s, d := NormalizePath(src), NormalizePath(dst);
      var a, b := Locate(root, s, false, now).value, Locate(root, d, true, now).value;
      && a.key in Find(root, a.dir).value.children
      && b.key !in Find(b.root, b.dir).value.children
      && IsDirAt(b.root, a.dir)
      && IsDirAt(Put(b.root, b.dir, b.key, Find(root, a.dir).value.children[a.key].(mtime := now), now), a.dir)
      && Move(root, src, dst, now).root
         == Drop(Put(b.root, b.dir, b.key, Find(root, a.dir).value.children[a.key].(mtime := now), now), a.dir, a.key, now)
  {
    MoveAccepted(root, src, dst, now);
    MoveSourceSlot(root, src, dst, now);
    MoveDestinationSlot(root, src, dst, now);
    MoveResult(root, src, dst, now);
  }

  lemma MoveAccepted(root: Node, src: string, dst: string, now: int)
    requires root.Dir? && Move(root, src, dst, now).error == ""
    ensures var s, d := NormalizePath(src), NormalizePath(dst);
      && s != "/" && d != "/" && !StartsWith(d, s + "/")
      && Locate(root, s, false, now).Some? 
  {
  }
  lemma MoveSourceSlot(root: Node, src: string, dst: string, now: int)
    requires root.Dir? && Move(root, src, dst, now).error == ""
    requires var s, d := NormalizePath(src), NormalizePath(dst);
      && s != "/" && d != "/" && !StartsWith(d, s + "/")
      && Locate(root, s, false, now).Some? 
    ensures var s, d := NormalizePath(src), NormalizePath(dst);
      var a := Locate(root, s, false, now).value;
      && a.key in Find(root, a.dir).value.children
      && Locate(root, d, true, now).Some?
  {
  }
  lemma MoveDestinationSlot(root: Node, src: string, dst: string, now: int)
    requires root.Dir? && Move(root, src, dst, now).error == ""
    requires var s, d := NormalizePath(src), NormalizePath(dst);
      && s != "/" && d != "/" && !StartsWith(d, s + "/")
      && Locate(root, s, false, now).Some? && Locate(root, d, true, now).Some?
      && var a := Locate(root, s, false, now).value; a.key in Find(root, a.dir).value.children
    ensures var s, d := NormalizePath(src), NormalizePath(dst);
      var a, b := Locate(root, s, false, now).value, Locate(root, d, true, now).value;
      && b.key !in Find(b.root, b.dir).value.children
  {
  }
  lemma MoveResult(root: Node, src: string, dst: string, now: int)
    requires root.Dir? && Move(root, src, dst, now).error == ""
    requires var s, d := NormalizePath(src), NormalizePath(dst);
      && s != "/" && d != "/" && !StartsWith(d, s + "/")
      && Locate(root, s, false, now).Some? && Locate(root, d, true, now).Some?
      && var a, b := Locate(root, s, false, now).value, Locate(root, d, true, now).value;
      a.key in Find(root, a.dir).value.children && b.key !in Find(b.root, b.dir).value.children
    ensures var s, d := NormalizePath(src), NormalizePath(dst);
      var a, b := Locate(root, s, false, now).value, Locate(root, d, true, now).value;
      && IsDirAt(b.root, a.dir)
      && IsDirAt(Put(b.root, b.dir, b.key, Find(root, a.dir).value.children[a.key].(mtime := now), now), a.dir)
      && Move(root, src, dst, now).root
         == Drop(Put(b.root, b.dir, b.key, Find(root, a.dir).value.children[a.key].(mtime := now), now), a.dir, a.key, now)
  {
    var s, d := NormalizePath(src), NormalizePath(dst);
    var a, b := Locate(root, s, false, now).value, Locate(root, d, true, now).value;
    assert IsDirAt(b.root, a.dir) by { LocateKeepsDir(root, d, now, a.dir); }
    MoveBuilds(root, src, dst, now);
  }

  /**
   * A `move` that records no error found a node at the source and nothing at
   * the destination, and the destination is not on the way to the source.
   */
  lemma MoveFound(root: Node, src: string, dst: string, now: int)
    requires root.Dir? && Move(root, src, dst, now).error == ""
    ensures var sp, dp := PathOf(NormalizePath(src)), PathOf(NormalizePath(dst));
      && sp != [] && dp != [] && Find(root, sp).Some? && Find(root, dp).None? && !(dp <= sp)
  {
    MoveSlots(root, src, dst, now);
    SlotsFound(root, NormalizePath(src), NormalizePath(dst), now);
  }

  /**
   * When the source's parent holds its key and the destination's parent
   * (after the walk) does not, a node lies at the source, none at the
   * destination, and the destination is not on the way to the source.
   */
  lemma SlotsFound(root: Node, s: string, d: string, now: int)
    requires root.Dir? && Locate(root, s, false, now).Some? && Locate(root, d, true, now).Some?
    requires var a, b := Locate(root, s, false, now).value, Locate(root, d, true, now).value;
      a.key in Find(root, a.dir).value.children && b.key !in Find(b.root, b.dir).value.children
    ensures Find(root, PathOf(s)) == Some(Find(root, Locate(root, s, false, now).value.dir).value.children[Locate(root, s, false, now).value.key])
    ensures PathOf(s) != [] && PathOf(d) != [] && Find(root, PathOf(d)).None? && !(PathOf(d) <= PathOf(s))
  {
    var a := Locate(root, s, false, now).value;
    FindAppend(root, a.dir, [a.key]);
    LocateNode(root, d, now);
    if PathOf(d) <= PathOf(s) {
      FindPrefix(root, PathOf(d), PathOf(s));
    }
  }

  /**
   * Linking `child` under a new key and then unlinking another key whose
   * path is unrelated leaves `child`'s subtree at the new path and nothing
   * at the old one.
   */
  lemma RelinkEffect(root1: Node, sd: seq<string>, sk: string, dd: seq<string>, dk: string, child: Node, now: int, q: seq<string>)
    requires IsDirAt(root1, dd) && IsDirAt(Put(root1, dd, dk, child, now), sd)
    requires !(sd + [sk] <= dd + [dk]) && !(dd + [dk] <= sd + [sk])
    ensures var r := Drop(Put(root1, dd, dk, child, now), sd, sk, now);
      Find(r, sd + [sk] + q).None? && Find(r, dd + [dk] + q) == Find(child, q)
  {
    var sp, dp := sd + [sk], dd + [dk];
    var root2 := Put(root1, dd, dk, child, now);
    FindDrop(root2, sd, sk, now, sp + q);
    if sp <= dp + q {
      PrefixesComparable(sp, dp, dp + q);
    }
    FindDrop(root2, sd, sk, now, dp + q);
    FindPut(root1, dd, dk, child, now, dp + q);
    assert (dp + q)[|dd| + 1..] == q;
  }

  /**
   * A `move` of settled paths that records no error has a destination that
   * is neither the source nor below it.
   */
  lemma MoveGuard(root: Node, src: string, dst: string, now: int)
    requires root.Dir? && Settled(src) && Settled(dst) && Move(root, src, dst, now).error == ""
    ensures !(PathOf(NormalizePath(src)) <= PathOf(NormalizePath(dst)))
  {
    var s, d := NormalizePath(src), NormalizePath(dst);
    MoveSlots(root, src, dst, now);
    MoveFound(root, src, dst, now);
    SettledPath(src);
    SettledPath(dst);
    if Segments(s) < Segments(d) {
      ContainedPathGuard(s, d);
    }
  }

  /**
   * A `move` that records no error, where the destination is not below the
   * source (always so for settled paths, by `MoveGuard`), leaves nothing at
   * the source and, at the destination, the source's subtree with the moved
   * node's mtime set to `now`.
   */
  lemma MoveEffect(root: Node, src: string, dst: string, now: int, q: seq<string>)
    requires root.Dir? && Move(root, src, dst, now).error == ""
    requires !(PathOf(NormalizePath(src)) <= PathOf(NormalizePath(dst)))
    ensures var sp, dp, r := PathOf(NormalizePath(src)), PathOf(NormalizePath(dst)), Move(root, src, dst, now);
      && Find(root, sp).Some?
      && Find(r.root, sp + q).None?
      && Find(r.root, dp + q) == Find(Find(root, sp).value.(mtime := now), q)
  {
    var s, d := NormalizePath(src), NormalizePath(dst);
    MoveSlots(root, src, dst, now);
    SlotsFound(root, s, d, now);
    var a, b := Locate(root, s, false, now).value, Locate(root, d, true, now).value;
    var node := Find(root, a.dir).value.children[a.key];
    RelinkEffect(b.root, a.dir, a.key, b.dir, b.key, node.(mtime := now), now, q);
  }

  /**
   * A `move` that records no error leaves every path that is neither on the
   * way to nor below the source or the destination as it was.
   */
  lemma MoveFrame(root: Node, src: string, dst: string, now: int, q: seq<string>)
    requires root.Dir? && Move(root, src, dst, now).error == ""
    requires var sp, dp := PathOf(NormalizePath(src)), PathOf(NormalizePath(dst));
      !(sp <= q) && !(q <= sp) && !(dp <= q) && !(q <= dp)
    ensures Find(Move(root, src, dst, now).root, q) == Find(root, q)
  {
    var s, d := NormalizePath(src), NormalizePath(dst);
    MoveSlots(root, src, dst, now);
    var a, b := Locate(root, s, false, now).value, Locate(root, d, true, now).value;
    var node := Find(root, a.dir).value.children[a.key].(mtime := now);
    if q <= a.dir {
      PrefixOfParent(q, a.dir, a.key);
    }
    if q <= b.dir {
      PrefixOfParent(q, b.dir, b.key);
    }
    FindDrop(Put(b.root, b.dir, b.key, node, now), a.dir, a.key, now, q);
    FindPut(b.root, b.dir, b.key, node, now, q);
    WalkFrame(root, d, now, q);
  }

  /** When the source's parent holds its key, a node lies at the source. */
  lemma SourceSlot(root: Node, s: string, now: int)
    requires root.Dir?
    ensures Locate(root, s, false, now).Some? && Locate(root, s, false, now).value.key in Find(root, Locate(root, s, false, now).value.dir).value.children
            ==> Find(root, PathOf(s)).Some?
  {
    if Locate(root, s, false, now).Some? {
      var a := Locate(root, s, false, now).value;
      FindAppend(root, a.dir, [a.key]);
    }
  }

  /** The node under the source's key is the node at the source path. */
  lemma SourceNode(root: Node, s: string, now: int)
    requires root.Dir? && Locate(root, s, false, now).Some?
    requires Locate(root, s, false, now).value.key in Find(root, Locate(root, s, false, now).value.dir).value.children
    ensures var a := Locate(root, s, false, now).value;
      Find(root, PathOf(s)) == Some(Find(root, a.dir).value.children[a.key])
  {
    var a := Locate(root, s, false, now).value;
    FindAppend(root, a.dir, [a.key]);
  }

  /** An existing node other than the root is found under its parent by the walk without `create`. */
  lemma ExistingSource(root: Node, s: string, now: int)
    requires root.Dir? && PathOf(s) != [] && Find(root, PathOf(s)).Some?
    ensures Locate(root, s, false, now).Some?
    ensures Locate(root, s, false, now).value.key in Find(root, Locate(root, s, false, now).value.dir).value.children
  {
    ExistingSlot(root, PathOf(s));
    var a := Locate(root, s, false, now).value;
    SlotParts(a.dir, a.key, PathOf(s));
  }

  /** `move` of a missing source records "Source path not found" and changes nothing. */
  lemma MoveSourceMissing(root: Node, src: string, dst: string, now: int)
    requires root.Dir?
    requires var s, d := NormalizePath(src), NormalizePath(dst);
      s != "/" && d != "/" && !StartsWith(d, s + "/") && Find(root, PathOf(s)).None?
    ensures Move(root, src, dst, now) == Outcome(root, "Source path not found")
  {
    SourceSlot(root, NormalizePath(src), now);
  }

  /**
   * `move` onto an existing destination records "Destination path already
   * exists" and changes nothing.
   */
  lemma MoveOntoExisting(root: Node, src: string, dst: string, now: int)
    requires root.Dir?
    requires var s, d := NormalizePath(src), NormalizePath(dst);
      && s != "/" && d != "/" && !StartsWith(d, s + "/")
      && PathOf(s) != [] && Find(root, PathOf(s)).Some?
      && PathOf(d) != [] && Find(root, PathOf(d)).Some?
    ensures Move(root, src, dst, now) == Outcome(root, "Destination path already exists")
  {
    var s, d := NormalizePath(src), NormalizePath(dst);
    ExistingSource(root, s, now);
    assert Locate(root, d, true, now).Some? by { LocateExisting(root, d, now); }
    var b := Locate(root, d, true, now).value;
    assert b.root == root && b.key in Find(b.root, b.dir).value.children by { LocateNode(root, d, now); }
    DestinationTaken(root, src, dst, now);
  }

  /** Past the source checks, a destination slot already holding its key stops the move. */
  lemma DestinationTaken(root: Node, src: string, dst: string, now: int)
    requires root.Dir?
    requires var s, d := NormalizePath(src), NormalizePath(dst);
      && s != "/" && d != "/" && !StartsWith(d, s + "/")
      && Locate(root, s, false, now).Some? && Locate(root, d, true, now).Some?
      && var a, b := Locate(root, s, false, now).value, Locate(root, d, true, now).value;
      a.key in Find(root, a.dir).value.children && b.key in Find(b.root, b.dir).value.children
    ensures Move(root, src, dst, now) == Outcome(Locate(root, NormalizePath(dst), true, now).value.root, "Destination path already exists")
  {
  }

  /**
   * `move` to a destination with a file on the way records "Invalid
   * destination path" and changes nothing.
   */
  lemma MoveThroughFile(root: Node, src: string, dst: string, now: int, i: nat)
    requires root.Dir?
    requires var s, d := NormalizePath(src), NormalizePath(dst);
      && s != "/" && d != "/" && !StartsWith(d, s + "/")
      && PathOf(s) != [] && Find(root, PathOf(s)).Some?
      && 1 <= i < |PathOf(d)| && Find(root, PathOf(d)[..i]).Some? && Find(root, PathOf(d)[..i]).value.File?
    ensures Move(root, src, dst, now) == Outcome(root, "Invalid destination path")
  {
    ExistingSource(root, NormalizePath(src), now);
    BlockedWalk(root, NormalizePath(dst), now, i);
    DestinationBlocked(root, src, dst, now);
  }

  /** Past the source checks, a walk to the destination that fails stops the move. */
  lemma DestinationBlocked(root: Node, src: string, dst: string, now: int)
    requires root.Dir?
    requires var s, d := NormalizePath(src), NormalizePath(dst);
      && s != "/" && d != "/" && !StartsWith(d, s + "/")
      && Locate(root, s, false, now).Some? && Locate(root, d, true, now).None?
      && var a := Locate(root, s, false, now).value; a.key in Find(root, a.dir).value.children
    ensures Move(root, src, dst, now) == Outcome(root, "Invalid destination path")
  {
  }

  /** The walk with `create` fails when a file lies on the way to the path's parent. */
  lemma BlockedWalk(root: Node, path: string, now: int, i: nat)
    requires root.Dir?
    requires 1 <= i < |PathOf(path)| && Find(root, PathOf(path)[..i]).Some? && Find(root, PathOf(path)[..i]).value.File?
    ensures Locate(root, path, true, now).None?
  {
    var p := PathOf(path);
    EnsureDirsFails(root, p[..|p| - 1], now);
    assert p[..|p| - 1][..i] == p[..i];
  }

  /** A `move` whose checks all pass links the source node under the destination key and unlinks it from its parent. */
  lemma MoveBuilds(root: Node, src: string, dst: string, now: int)
    requires root.Dir?
    requires var s, d := NormalizePath(src), NormalizePath(dst);
      && s != "/" && d != "/" && !StartsWith(d, s + "/")
      && Locate(root, s, false, now).Some? && Locate(root, d, true, now).Some?
      && var a, b := Locate(root, s, false, now).value, Locate(root, d, true, now).value;
      a.key in Find(root, a.dir).value.children && b.key !in Find(b.root, b.dir).value.children
    ensures var s, d := NormalizePath(src), NormalizePath(dst);
      var a, b := Locate(root, s, false, now).value, Locate(root, d, true, now).value;
      && IsDirAt(Put(b.root, b.dir, b.key, Find(root, a.dir).value.children[a.key].(mtime := now), now), a.dir)
      && Move(root, src, dst, now)
         == Outcome(Drop(Put(b.root, b.dir, b.key, Find(root, a.dir).value.children[a.key].(mtime := now), now), a.dir, a.key, now), "")
  {
    var s, d := NormalizePath(src), NormalizePath(dst);
    var a, b := Locate(root, s, false, now).value, Locate(root, d, true, now).value;
    var node := Find(root, a.dir).value.children[a.key];
    assert IsDirAt(b.root, a.dir) by { LocateKeepsDir(root, d, now, a.dir); }
    assert !(b.dir + [b.key] <= a.dir) by { PutKeepsDirOnMove(b.root, b.dir, b.key, a.dir); }
    assert IsDirAt(Put(b.root, b.dir, b.key, node.(mtime := now), now), a.dir) by {
      PutKeepsDir(b.root, b.dir, b.key, node.(mtime := now), now, a.dir);
    }
  }

  /**
   * A `move` whose source names a directory directly under the root once
   * normalised twice, and whose destination lies inside that directory but
   * got past the guard, reports success and leaves neither the directory
   * nor the moved node in the tree. `BypassPaths` shows that "a /" and
   * "/a/b" are such a pair.
   */
  lemma MoveIntoItselfLosesSubtree(root: Node, src: string, dst: string, k: string, j: string, now: int)
    requires root.Dir? && IsDirAt(root, [k]) && j !in Find(root, [k]).value.children
    requires var s, d := NormalizePath(src), NormalizePath(dst);
      && s != "/" && d != "/" && !StartsWith(d, s + "/")
      && PathOf(s) == [k] && PathOf(d) == [k, j]
    ensures var r := Move(root, src, dst, now);
      r.error == "" && Find(r.root, [k]).None? && Find(r.root, [k, j]).None?
  {
    assert k in root.children by { assert Find(root, [k]) == Find(root.children[k], []); }
    MoveUnderRoot(root, src, dst, k, j, now);
    DropParentOfMoved(root, k, j, root.children[k], now);
  }

  /** `MoveBuildsAt` for a source directly under the root and a destination directly under the source. */
  lemma MoveUnderRoot(root: Node, src: string, dst: string, k: string, j: string, now: int)
    requires root.Dir? && k in root.children && IsDirAt(root, [k]) && j !in Find(root, [k]).value.children
    requires var s, d := NormalizePath(src), NormalizePath(dst);
      && s != "/" && d != "/" && !StartsWith(d, s + "/")
      && PathOf(s) == [k] && PathOf(d) == [k, j]
    ensures Move(root, src, dst, now) == Outcome(Drop(Put(root, [k], j, Retimed(root.children[k], now), now), [], k, now), "")
  {
    assert Find(root, []) == Some(root);
    assert [] + [k] == [k] && [k] + [j] == [k, j];
    MoveBuildsAt(root, src, dst, [], k, [k], j, now);
  }

  /** Unlinking the parent of a node just linked in takes the node away too. */
  lemma DropParentOfMoved(root: Node, k: string, j: string, child: Node, now: int)
    requires IsDirAt(root, [k])
    ensures IsDirAt(Put(root, [k], j, Retimed(child, now), now), [])
    ensures var r := Drop(Put(root, [k], j, Retimed(child, now), now), [], k, now);
      Find(r, [k]).None? && Find(r, [k, j]).None?
  {
    var root2 := Put(root, [k], j, Retimed(child, now), now);
    FindPut(root, [k], j, Retimed(child, now), now, []);
    FindDrop(root2, [], k, now, [k]);
    FindDrop(root2, [], k, now, [k, j]);
  }

  /** A node with its mtime set to `now`. */
  function Retimed(n: Node, now: int): Node
  {
    n.(mtime := now)
  }

  /** `MoveBuilds` for a source and destination given by their parents' names and their own. */
  lemma MoveBuildsAt(root: Node, src: string, dst: string, sd: seq<string>, sk: string, dd: seq<string>, dk: string, now: int)
    requires root.Dir?
    requires var s, d := NormalizePath(src), NormalizePath(dst);
      && s != "/" && d != "/" && !StartsWith(d, s + "/")
      && PathOf(s) == sd + [sk] && PathOf(d) == dd + [dk]
    requires IsDirAt(root, sd) && sk in Find(root, sd).value.children
    requires IsDirAt(root, dd) && dk !in Find(root, dd).value.children
    ensures IsDirAt(Put(root, dd, dk, Find(root, sd).value.children[sk].(mtime := now), now), sd)
    ensures Move(root, src, dst, now)
      == Outcome(Drop(Put(root, dd, dk, Find(root, sd).value.children[sk].(mtime := now), now), sd, sk, now), "")
  {
    var s, d := NormalizePath(src), NormalizePath(dst);
    SlotAt(root, s, sd, sk, false, now);
    SlotAt(root, d, dd, dk, true, now);
    MoveBuilds(root, src, dst, now);
  }

  /** The walk to an existing directory's child finds that slot and changes nothing. */
  lemma SlotAt(root: Node, path: string, dir: seq<string>, key: string, create: bool, now: int)
    requires root.Dir? && PathOf(path) == dir + [key] && IsDirAt(root, dir)
    ensures Locate(root, path, create, now) == Some(Slot(root, dir, key))
  {
    InitLast(dir + [key]);
    assert (dir + [key])[..|dir|] == dir;
    EnsureDirsExisting(root, dir, now);
    var s := Locate(root, path, create, now).value;
    SlotParts(s.dir, s.key, PathOf(path));
  }

  /**
   * "a /" normalises to "/a ", which is not settled: the second
   * normalisation gives "/a". "/a/b" does not start with "/a /", so the
   * guard lets the pair through to `MoveIntoItselfLosesSubtree`.
   */
  lemma BypassPaths()
    ensures NormalizePath("a /") == "/a " && PathOf("/a ") == ["a"] && !Settled("a /")
    ensures NormalizePath("/a/b") == "/a/b" && PathOf("/a/b") == ["a", "b"]
    ensures !StartsWith("/a/b", "/a /")
  {
    BypassSource();
    BypassDestination();
  }

  lemma BypassSource()
    ensures NormalizePath("a /") == "/a " && PathOf("/a ") == ["a"]
  {
    NormalizeTwiceDiffers();
    RootChild("a");
  }

  lemma BypassDestination()
    ensures NormalizePath("/a/b") == "/a/b" && PathOf("/a/b") == ["a", "b"]
  {
    assert Segments("/a/b") == ["a", "b"] && Canonical("/a/b") by {
      RootChild("a");
      ChildPathSegments("/a", "b");
      assert ChildPath("/a", "b") == "/a/b";
    }
    NormalizeCanonical("/a/b");
  }

  /** A name directly under the root. */
  lemma RootChild(key: string)
    requires key != "" && '/' !in key
    ensures Canonical("/" + key) && Segments("/" + key) == [key]
  {
    CanonicalSegments("/");
    assert Canonical("/");
    ChildPathSegments("/", key);
  }

  /** What a `rename` that records no error has checked. */
  lemma RenameAccepted(root: Node, src: string, dst: string, overwrite: bool, now: int)
    requires root.Dir? && Rename(root, src, dst, overwrite, now).error == ""
    ensures var s, d := NormalizePath(src), NormalizePath(dst);
      && s != "/" && d != "/" && !StartsWith(d, s + "/")
      && Locate(root, s, false, now).Some?
  {
  }

  lemma RenameSourceSlot(root: Node, src: string, dst: string, overwrite: bool, now: int)
    requires root.Dir? && Rename(root, src, dst, overwrite, now).error == ""
    requires var s, d := NormalizePath(src), NormalizePath(dst);
      && s != "/" && d != "/" && !StartsWith(d, s + "/")
      && Locate(root, s, false, now).Some?
    ensures var s, d := NormalizePath(src), NormalizePath(dst);
      var a := Locate(root, s, false, now).value;
      && a.key in Find(root, a.dir).value.children
      && Locate(root, d, true, now).Some?
  {
  }

  lemma RenameDestinationSlot(root: Node, src: string, dst: string, overwrite: bool, now: int)
    requires root.Dir? && Rename(root, src, dst, overwrite, now).error == ""
    requires var s, d := NormalizePath(src), NormalizePath(dst);
      && s != "/" && d != "/" && !StartsWith(d, s + "/")
      && Locate(root, s, false, now).Some? && Locate(root, d, true, now).Some?
      && var a := Locate(root, s, false, now).value; a.key in Find(root, a.dir).value.children
    ensures var s, d := NormalizePath(src), NormalizePath(dst);
      var b := Locate(root, d, true, now).value;
      b.key in Find(b.root, b.dir).value.children ==> overwrite
  {
  }

  /**
   * A `rename` whose checks all pass links the source node, unchanged, under
   * the destination key and then unlinks it from its old parent, unless the
   * destination was on the way to that parent.
   */
  lemma RenameBuilds(root: Node, src: string, dst: string, overwrite: bool, now: int)
    requires root.Dir?
    requires var s, d := NormalizePath(src), NormalizePath(dst);
      && s != "/" && d != "/" && !StartsWith(d, s + "/")
      && Locate(root, s, false, now).Some? && Locate(root, d, true, now).Some?
      && var a, b := Locate(root, s, false, now).value, Locate(root, d, true, now).value;
      && a.key in Find(root, a.dir).value.children
      && (b.key in Find(b.root, b.dir).value.children ==> overwrite)
    ensures var s, d := NormalizePath(src), NormalizePath(dst);
      var a, b := Locate(root, s, false, now).value, Locate(root, d, true, now).value;
      var root2 := Put(b.root, b.dir, b.key, Find(root, a.dir).value.children[a.key], now);
      && (b.dir + [b.key] <= a.dir ==> Rename(root, src, dst, overwrite, now) == Outcome(root2, ""))
      && (!(b.dir + [b.key] <= a.dir) ==>
            IsDirAt(root2, a.dir) && Rename(root, src, dst, overwrite, now) == Outcome(Drop(root2, a.dir, a.key, now), ""))
  {
    var s, d := NormalizePath(src), NormalizePath(dst);
    var a, b := Locate(root, s, false, now).value, Locate(root, d, true, now).value;
    var node := Find(root, a.dir).value.children[a.key];
    LocateKeepsDir(root, d, now, a.dir);
    if !(b.dir + [b.key] <= a.dir) {
      PutKeepsDir(b.root, b.dir, b.key, node, now, a.dir);
    }
  }

  /** What a `rename` that records no error has found and built. */
  lemma RenameSlots(root: Node, src: string, dst: string, overwrite: bool, now: int)
    requires root.Dir? && Rename(root, src, dst, overwrite, now).error == ""
    ensures var s, d := NormalizePath(src), NormalizePath(dst);
      && s != "/" && d != "/" && !StartsWith(d, s + "/")
      && Locate(root, s, false, now).Some? && Locate(root, d, true, now).Some?
    ensures var s, d := NormalizePath(src), NormalizePath(dst);
      var a, b := Locate(root, s, false, now).value, Locate(root, d, true, now).value;
      && a.key in Find(root, a.dir).value.children
      && IsDirAt(b.root, a.dir)
      && var root2 := Put(b.root, b.dir, b.key, Find(root, a.dir).value.children[a.key], now);
      && (b.dir + [b.key] <= a.dir ==> Rename(root, src, dst, overwrite, now).root == root2)
      && (!(b.dir + [b.key] <= a.dir) ==>
            IsDirAt(root2, a.dir) && Rename(root, src, dst, overwrite, now).root == Drop(root2, a.dir, a.key, now))
  {
    var s, d := NormalizePath(src), NormalizePath(dst);
    RenameAccepted(root, src, dst, overwrite, now);
    RenameSourceSlot(root, src, dst, overwrite, now);
    RenameDestinationSlot(root, src, dst, overwrite, now);
    RenameBuilds(root, src, dst, overwrite, now);
    LocateKeepsDir(root, d, now, Locate(root, s, false, now).value.dir);
  }

  /**
   * Linking `node` under a new key and unlinking the old key, unless the
   * new path is on the way to the old parent: `node`'s subtree is found at
   * the new path, and nothing at the old one when it was unlinked.
   */
  lemma RenameTree(root1: Node, sd: seq<string>, sk: string, dd: seq<string>, dk: string, node: Node, now: int, q: seq<string>)
    requires IsDirAt(root1, dd) && IsDirAt(root1, sd) && !(sd + [sk] <= dd + [dk])
    ensures dd + [dk] <= sd ==> Find(Put(root1, dd, dk, node, now), dd + [dk] + q) == Find(node, q)
    ensures !(dd + [dk] <= sd) ==> IsDirAt(Put(root1, dd, dk, node, now), sd)
    ensures !(dd + [dk] <= sd) ==> var r := Drop(Put(root1, dd, dk, node, now), sd, sk, now);
      Find(r, dd + [dk] + q) == Find(node, q) && Find(r, sd + [sk] + q).None?
  {
    if dd + [dk] <= sd {
      FindPut(root1, dd, dk, node, now, dd + [dk] + q);
      assert (dd + [dk] + q)[|dd| + 1..] == q;
    } else {
      PutKeepsDir(root1, dd, dk, node, now, sd);
      RelinkEffect(root1, sd, sk, dd, dk, node, now, q);
    }
  }

  /**
   * A `rename` that records no error, where the destination is not below
   * the source, leaves the source's subtree unchanged (mtime included) at the
   * destination, and nothing at the source unless the destination was one of
   * the source's ancestors.
   */
  lemma RenameEffect(root: Node, src: string, dst: string, overwrite: bool, now: int, q: seq<string>)
    requires root.Dir? && Rename(root, src, dst, overwrite, now).error == ""
    requires !(PathOf(NormalizePath(src)) <= PathOf(NormalizePath(dst)))
    ensures var sp, dp, r := PathOf(NormalizePath(src)), PathOf(NormalizePath(dst)), Rename(root, src, dst, overwrite, now);
      && Find(root, sp).Some?
      && Find(r.root, dp + q) == Find(Find(root, sp).value, q)
      && (!(dp < sp) ==> Find(r.root, sp + q).None?)
  {
    var s, d := NormalizePath(src), NormalizePath(dst);
    var sp, dp := PathOf(s), PathOf(d);
    RenameSlots(root, src, dst, overwrite, now);
    var a, b := Locate(root, s, false, now).value, Locate(root, d, true, now).value;
    var node := Find(root, a.dir).value.children[a.key];
    SourceNode(root, s, now);
    var r := Rename(root, src, dst, overwrite, now).root;
    RenameTree(b.root, a.dir, a.key, b.dir, b.key, node, now, q);
    if b.dir + [b.key] <= a.dir {
      PrefixOfParent(b.dir + [b.key], a.dir, a.key);
      assert r == Put(b.root, b.dir, b.key, node, now);
    } else {
      assert r == Drop(Put(b.root, b.dir, b.key, node, now), a.dir, a.key, now);
    }
  }

  /**
   * A `rename` that records no error leaves every path that is neither on the
   * way to nor below the source or the destination as it was.
   */
  lemma RenameFrame(root: Node, src: string, dst: string, overwrite: bool, now: int, q: seq<string>)
    requires root.Dir? && Rename(root, src, dst, overwrite, now).error == ""
    requires var sp, dp := PathOf(NormalizePath(src)), PathOf(NormalizePath(dst));
      !(sp <= q) && !(q <= sp) && !(dp <= q) && !(q <= dp)
    ensures Find(Rename(root, src, dst, overwrite, now).root, q) == Find(root, q)
  {
    var s, d := NormalizePath(src), NormalizePath(dst);
    RenameSlots(root, src, dst, overwrite, now);
    var a, b := Locate(root, s, false, now).value, Locate(root, d, true, now).value;
    var node := Find(root, a.dir).value.children[a.key];
    var root2 := Put(b.root, b.dir, b.key, node, now);
    if q <= a.dir {
      PrefixOfParent(q, a.dir, a.key);
    }
    if q <= b.dir {
      PrefixOfParent(q, b.dir, b.key);
    }
    if !(b.dir + [b.key] <= a.dir) {
      FindDrop(root2, a.dir, a.key, now, q);
    }
    FindPut(b.root, b.dir, b.key, node, now, q);
    WalkFrame(root, d, now, q);
  }

  /** A prefix of a parent's names is a strict prefix of its child's. */
  lemma PrefixOfParent(p: seq<string>, dir: seq<string>, key: string)
    requires p <= dir
    ensures p < dir + [key]
  {
    assert (dir + [key])[..|p|] == dir[..|p|];
  }

  /** `rename` of an existing path onto itself with `overwrite` reports success and deletes it. */
  lemma RenameOntoItselfDeletes(root: Node, src: string, now: int)
    requires root.Dir? && NormalizePath(src) != "/"
    requires PathOf(NormalizePath(src)) != [] && Find(root, PathOf(NormalizePath(src))).Some?
    ensures var r := Rename(root, src, src, true, now);
      r.error == "" && Find(r.root, PathOf(NormalizePath(src))).None?
  {
    var s := NormalizePath(src);
    var p := PathOf(s);
    ExistingSlot(root, p);
    var sd, sk := p[..|p| - 1], p[|p| - 1];
    InitLast(p);
    SlotAt(root, s, sd, sk, false, now);
    SlotAt(root, s, sd, sk, true, now);
    assert !StartsWith(s, s + "/");
    RenameBuilds(root, src, src, true, now);
    FindDrop(Put(root, sd, sk, Find(root, sd).value.children[sk], now), sd, sk, now, p);
  }

  /** `rename` of a missing source records "Source path not found" and changes nothing. */
  lemma RenameSourceMissing(root: Node, src: string, dst: string, overwrite: bool, now: int)
    requires root.Dir?
    requires var s, d := NormalizePath(src), NormalizePath(dst);
      s != "/" && d != "/" && !StartsWith(d, s + "/") && Find(root, PathOf(s)).None?
    ensures Rename(root, src, dst, overwrite, now) == Outcome(root, "Source path not found")
  {
    SourceSlot(root, NormalizePath(src), now);
  }

  /**
   * `rename` onto an existing destination without `overwrite` records
   * "Destination path already exists" and changes nothing.
   */
  lemma RenameOntoExisting(root: Node, src: string, dst: string, now: int)
    requires root.Dir?
    requires var s, d := NormalizePath(src), NormalizePath(dst);
      && s != "/" && d != "/" && !StartsWith(d, s + "/")
      && PathOf(s) != [] && Find(root, PathOf(s)).Some?
      && PathOf(d) != [] && Find(root, PathOf(d)).Some?
    ensures Rename(root, src, dst, false, now) == Outcome(root, "Destination path already exists")
  {
    var s, d := NormalizePath(src), NormalizePath(dst);
    ExistingSource(root, s, now);
    assert Locate(root, d, true, now).Some? by { LocateExisting(root, d, now); }
    var b := Locate(root, d, true, now).value;
    assert b.root == root && b.key in Find(b.root, b.dir).value.children by { LocateNode(root, d, now); }
    RenameDestinationTaken(root, src, dst, now);
  }

  /** Past the source checks, a destination slot already holding its key stops a `rename` without `overwrite`. */
  lemma RenameDestinationTaken(root: Node, src: string, dst: string, now: int)
    requires root.Dir?
    requires var s, d := NormalizePath(src), NormalizePath(dst);
      && s != "/" && d != "/" && !StartsWith(d, s + "/")
      && Locate(root, s, false, now).Some? && Locate(root, d, true, now).Some?
      && var a, b := Locate(root, s, false, now).value, Locate(root, d, true, now).value;
      a.key in Find(root, a.dir).value.children && b.key in Find(b.root, b.dir).value.children
    ensures Rename(root, src, dst, false, now) == Outcome(Locate(root, NormalizePath(dst), true, now).value.root, "Destination path already exists")
  {
  }

  /** What a `copy` that records no error has checked. */
  lemma CopyAccepted(root: Node, src: string, dst: string, now: int)
    requires root.Dir? && Copy(root, src, dst, now).error == ""
    ensures var s, d := NormalizePath(src), NormalizePath(dst);
      && s != "/" && !StartsWith(d, s + "/")
      && Lookup(root, s).Some? && Locate(root, d, true, now).Some?
  {
  }

  /** What a `copy` that records no error has built. */
  lemma CopyResult(root: Node, src: string, dst: string, now: int)
    requires root.Dir? && Copy(root, src, dst, now).error == ""
    requires var s, d := NormalizePath(src), NormalizePath(dst);
      && s != "/" && !StartsWith(d, s + "/")
      && Lookup(root, s).Some? && Locate(root, d, true, now).Some?
    ensures var s, d := NormalizePath(src), NormalizePath(dst);
      var b := Locate(root, d, true, now).value;
      && b.key !in Find(b.root, b.dir).value.children
      && Lookup(b.root, s).Some?
      && Copy(root, src, dst, now).root == Put(b.root, b.dir, b.key, Clone(Lookup(b.root, s).value, now), now)
  {
    LocateKeepsNode(root, NormalizePath(dst), now, PathOf(NormalizePath(src)));
  }

  /**
   * A `copy` that records no error, where the destination is not below the
   * source, leaves a clone of the source's subtree (every node stamped
   * `now`, modes and contents kept) at the destination and the source as it
   * was.
   */
  lemma CopyEffect(root: Node, src: string, dst: string, now: int, q: seq<string>)
    requires root.Dir? && Copy(root, src, dst, now).error == ""
    requires !(PathOf(NormalizePath(src)) <= PathOf(NormalizePath(dst)))
    ensures var sp, dp, r := PathOf(NormalizePath(src)), PathOf(NormalizePath(dst)), Copy(root, src, dst, now);
      && Find(root, sp).Some?
      && Find(r.root, dp + q) == Find(Clone(Find(root, sp).value, now), q)
      && Find(r.root, sp) == Find(root, sp)
  {
    var s, d := NormalizePath(src), NormalizePath(dst);
    CopyAccepted(root, src, dst, now);
    CopyResult(root, src, dst, now);
    var b := Locate(root, d, true, now).value;
    CopyTree(root, s, d, now, q);
  }

  /**
   * A `copy` that records no error leaves every path that is neither on the
   * way to nor below the destination as it was.
   */
  lemma CopyFrame(root: Node, src: string, dst: string, now: int, q: seq<string>)
    requires root.Dir? && Copy(root, src, dst, now).error == ""
    requires var dp := PathOf(NormalizePath(dst)); !(dp <= q) && !(q <= dp)
    ensures Find(Copy(root, src, dst, now).root, q) == Find(root, q)
  {
    var d := NormalizePath(dst);
    CopyAccepted(root, src, dst, now);
    CopyResult(root, src, dst, now);
    var b := Locate(root, d, true, now).value;
    if q <= b.dir {
      PrefixOfParent(q, b.dir, b.key);
    }
    FindPut(b.root, b.dir, b.key, Clone(Lookup(b.root, NormalizePath(src)).value, now), now, q);
    WalkFrame(root, d, now, q);
  }

  /**
   * Cloning the node at `s` (found after the walk to `d`) under the
   * destination key: the clone's subtree is found at the destination and the
   * source is unchanged, when the destination is new and not below the
   * source.
   */
  lemma CopyTree(root: Node, s: string, d: string, now: int, q: seq<string>)
    requires root.Dir? && Lookup(root, s).Some? && Locate(root, d, true, now).Some?
    requires !(PathOf(s) <= PathOf(d))
    requires var b := Locate(root, d, true, now).value; b.key !in Find(b.root, b.dir).value.children
    ensures var b := Locate(root, d, true, now).value;
      && Lookup(b.root, s) == Lookup(root, s)
      && var r := Put(b.root, b.dir, b.key, Clone(Lookup(root, s).value, now), now);
      && Find(r, PathOf(d) + q) == Find(Clone(Lookup(root, s).value, now), q)
      && Find(r, PathOf(s)) == Find(root, PathOf(s))
  {
    var sp, dp := PathOf(s), PathOf(d);
    var b := Locate(root, d, true, now).value;
    if sp <= b.dir {
      PrefixOfParent(sp, b.dir, b.key);
    }
    EnsureDirsFrame(root, b.dir, now, sp);
    LocateNode(root, d, now);
    if dp <= sp {
      FindPrefix(root, dp, sp);
    }
    var clone := Clone(Lookup(root, s).value, now);
    FindPut(b.root, b.dir, b.key, clone, now, dp + q);
    assert (dp + q)[|b.dir| + 1..] == q;
    FindPut(b.root, b.dir, b.key, clone, now, sp);
  }

  /** `copy` of a missing source records "Source path not found" and changes nothing. */
  lemma CopySourceMissing(root: Node, src: string, dst: string, now: int)
    requires root.Dir?
    requires var s, d := NormalizePath(src), NormalizePath(dst);
      s != "/" && !StartsWith(d, s + "/") && Find(root, PathOf(s)).None?
    ensures Copy(root, src, dst, now) == Outcome(root, "Source path not found")
  {
  }

  /**
   * `copy` onto an existing destination records "Destination path already
   * exists" and changes nothing.
   */
  lemma CopyOntoExisting(root: Node, src: string, dst: string, now: int)
    requires root.Dir?
    requires var s, d := NormalizePath(src), NormalizePath(dst);
      && s != "/" && !StartsWith(d, s + "/") && Find(root, PathOf(s)).Some?
      && PathOf(d) != [] && Find(root, PathOf(d)).Some?
    ensures Copy(root, src, dst, now) == Outcome(root, "Destination path already exists")
  {
    var d := NormalizePath(dst);
    LocateExisting(root, d, now);
    LocateNode(root, d, now);
  }

  /**
   * A source that is not "/" once normalised but names the root once
   * normalised again gets past the guard against copying the root: the
   * whole tree is cloned under the destination. `BlankSourcePaths` shows
   * that "/ /" is such a source, and `SettledRootChild` that "/x" is such a
   * destination.
   */
  lemma CopyRootThroughBlank(root: Node, src: string, dst: string, k: string, now: int)
    requires root.Dir? && k !in root.children
    requires var s, d := NormalizePath(src), NormalizePath(dst);
      && s != "/" && !StartsWith(d, s + "/") && PathOf(s) == [] && PathOf(d) == [k]
    ensures var r := Copy(root, src, dst, now);
      r.error == "" && Find(r.root, [k]) == Some(Clone(root, now))
  {
    CopyOfRoot(root, src, dst, k, now);
    assert [] + [k] == [k];
    PutFinds(root, [], k, Clone(root, now), now);
  }

  /** A `copy` whose source names the root and whose destination is a new name under it links a clone of the root. */
  lemma CopyOfRoot(root: Node, src: string, dst: string, k: string, now: int)
    requires root.Dir? && k !in root.children
    requires var s, d := NormalizePath(src), NormalizePath(dst);
      && s != "/" && !StartsWith(d, s + "/") && PathOf(s) == [] && PathOf(d) == [k]
    ensures Copy(root, src, dst, now) == Outcome(Put(root, [], k, Clone(root, now), now), "")
  {
    var d := NormalizePath(dst);
    assert [] + [k] == [k];
    SlotAt(root, d, [], k, true, now);
  }

  /** "/ /" normalises to "/ ", which names the root once normalised again. */
  lemma BlankSourcePaths()
    ensures NormalizePath("/ /") == "/ " && PathOf("/ ") == []
  {
    BlankOnce();
    BlankTwice();
  }

  /** A name directly under the root that ends in a non-blank character is settled. */
  lemma SettledRootChild(key: string)
    requires key != "" && '/' !in key && !IsWhitespace(key[|key| - 1])
    ensures NormalizePath("/" + key) == "/" + key && PathOf("/" + key) == [key]
  {
    RootChild(key);
    NormalizeCanonical("/" + key);
  }

  lemma BlankOnce()
    ensures NormalizePath("/ /") == "/ "
  {
    StrippedBlankOnce();
    NormalizedOf("/ /", "/ ");
  }

  /** The collapse and trim steps keep "/ /" whole, and the trailing '/' goes. */
  lemma StrippedBlankOnce()
    ensures Stripped("/ /") == "/ "
  {
    CollapseBlankOnce();
    TrimBlankOnce();
    DropBlankOnce();
  }

  lemma CollapseBlankOnce()
    ensures Collapse("/ /", '/') == "/ /"
  {
    assert NoDouble("/ /", '/');
    CollapseNoDouble("/ /", '/');
  }

  lemma TrimBlankOnce()
    ensures Trim("/ /") == "/ /"
  {
    assert !IsWhitespace('/');
    TrimFixed("/ /");
  }

  lemma DropBlankOnce()
    ensures "/ /"[..2] == "/ "
  {
  }

  lemma BlankTwice()
    ensures PathOf("/ ") == []
  {
    StrippedBlankTwice();
    NormalizedOf("/ ", "/");
    CanonicalSegments("/");
  }

  lemma StrippedBlankTwice()
    ensures Stripped("/ ") == "/"
  {
    CollapseBlankTwice();
    TrimBlankTwice();
  }

  lemma CollapseBlankTwice()
    ensures Collapse("/ ", '/') == "/ "
  {
    assert NoDouble("/ ", '/');
    CollapseNoDouble("/ ", '/');
  }

  lemma TrimBlankTwice()
    ensures Trim("/ ") == "/"
  {
    var s := "/ ";
    assert !IsWhitespace('/') && IsWhitespace(' ');
    TrimStartFixed(s);
    assert s[..1] == "/";
  }

  /**
   * `chmod` on an existing path with a readable mode and depth records no
   * error; the same paths exist below it with the same kinds, contents,
   * names and ctimes, and a node `|q|` levels down gets the new mode and mtime
   * `now` exactly when the depth reaches it.
   */
  lemma ChmodBelow(root: Node, path: string, mode: string, depth: string, now: int, q: seq<string>)
    requires root.Dir? && Lookup(root, path).Some? && ParseInt(mode, 8).Some? && DepthArg(depth).Some?
    ensures var p, r := PathOf(path), ChangeMode(root, path, mode, depth, now);
      && r.error == ""
      && (Find(r.root, p + q).Some? <==> Find(root, p + q).Some?)
      && (Find(root, p + q).Some? ==> var x, y := Find(root, p + q).value, Find(r.root, p + q).value;
            && y.Dir? == x.Dir? && (y.File? ==> y.content == x.content)
            && (y.Dir? ==> y.children.Keys == x.children.Keys) && y.ctime == x.ctime
            && (if Reaches(DepthArg(depth).value, |q|) then y.permissions == ParseInt(mode, 8).value && y.mtime == now
                else y.permissions == x.permissions && y.mtime == x.mtime))
  {
    var p := PathOf(path);
    var node := Lookup(root, path).value;
    var m := Chmod(node, ParseInt(mode, 8).value, DepthArg(depth).value, now);
    FindReplace(root, p, m, p + q);
    assert (p + q)[|p|..] == q;
    FindAppend(root, p, q);
    FindChmod(node, ParseInt(mode, 8).value, DepthArg(depth).value, now, q);
  }

  /**
   * `chmod` leaves every node off the way to the path, and not below it, as
   * it was; the directories on the way keep their names, modes and times.
   */
  lemma ChmodElsewhere(root: Node, path: string, mode: string, depth: string, now: int, q: seq<string>)
    requires root.Dir? && Lookup(root, path).Some? && ParseInt(mode, 8).Some? && DepthArg(depth).Some?
    requires !(PathOf(path) <= q)
    ensures var p, r := PathOf(path), ChangeMode(root, path, mode, depth, now);
      && (!(q <= p) ==> Find(r.root, q) == Find(root, q))
      && (q < p ==> Find(root, q).Some? && Find(r.root, q).Some? && SameHeader(Find(r.root, q).value, Find(root, q).value))
  {
    var node := Lookup(root, path).value;
    FindReplace(root, PathOf(path), Chmod(node, ParseInt(mode, 8).value, DepthArg(depth).value, now), q);
  }

  /**
   * `chmod` refuses a missing path, a mode `parseInt(mode, 8)` cannot read
   * and a depth `parseInt(depth, 10)` cannot read, in that order, changing
   * nothing.
   */
  lemma ChmodRejects(root: Node, path: string, mode: string, depth: string, now: int)
    requires root.Dir?
    ensures Lookup(root, path).None? ==> ChangeMode(root, path, mode, depth, now) == Outcome(root, "Path not found")
    ensures Lookup(root, path).Some? && ParseInt(mode, 8).None? ==>
      ChangeMode(root, path, mode, depth, now) == Outcome(root, "Invalid permission mode")
    ensures Lookup(root, path).Some? && ParseInt(mode, 8).Some? && DepthArg(depth).None? ==>
      ChangeMode(root, path, mode, depth, now) == Outcome(root, "Invalid depth")
  {
  }

  /** The mode "755" reads as 0o755 = 493, and a blank depth means every level. */
  lemma ModeExample()
    ensures ParseInt("755", 8) == Some(493) && DirMode == 493
    ensures DepthArg("") == Some(-1) && forall level: nat :: Reaches(-1, level)
  {
    assert Numeral(493, 8) == "755" by {
      assert Numeral(7, 8) == "7";
      assert Numeral(61, 8) == "75";
    }
    ParseNumeral(493, 8, "");
    assert "755" + "" == "755";
  }

  /** `touch` on a missing path does what `createFile` does. */
  lemma TouchMissing(root: Node, path: string, now: int)
    requires root.Dir? && Lookup(root, path).None?
    ensures Touch(root, path, now) == CreateFile(root, path, now)
  {
  }

  /**
   * `touch` on an existing path sets the node's mtime, and its parent's, to
   * `now`, and leaves every other node (those below it included) as it was.
   */
  lemma TouchEffect(root: Node, path: string, now: int, q: seq<string>)
    requires root.Dir? && Lookup(root, path).Some?
    ensures var p, r := PathOf(path), Touch(root, path, now);
      && r.error == ""
      && Find(r.root, p) == Some(Lookup(root, path).value.(mtime := now))
      && (p != [] ==> Find(r.root, p[..|p| - 1]).Some? && Find(r.root, p[..|p| - 1]).value.mtime == now)
      && ((!(q <= p) && !(p <= q)) || p < q ==> Find(r.root, q) == Find(root, q))
  {
    var p := PathOf(path);
    if p == [] {
      FindStamp(root, p, now, p);
      FindStamp(root, p, now, q);
    } else {
      FindStamp(root, p, now, p[..|p| - 1]);
      TouchTree(root, p, now, q);
    }
  }

  /** Stamping a node and then its parent. */
  lemma TouchTree(root: Node, p: seq<string>, now: int, q: seq<string>)
    requires p != [] && Find(root, p).Some? && Find(Stamp(root, p, now), p[..|p| - 1]).Some?
    ensures var r := Stamp(Stamp(root, p, now), p[..|p| - 1], now);
      && Find(r, p) == Some(Find(root, p).value.(mtime := now))
      && Find(r, p[..|p| - 1]).Some? && Find(r, p[..|p| - 1]).value.mtime == now
      && ((!(q <= p) && !(p <= q)) || p < q ==> Find(r, q) == Find(root, q))
  {
    var dir := p[..|p| - 1];
    var root' := Stamp(root, p, now);
    FindStamp(root, p, now, p);
    FindStamp(root, p, now, q);
    FindStamp(root', dir, now, dir);
    FindStamp(root', dir, now, p);
    FindStamp(root', dir, now, q);
    if (!(q <= p) && !(p <= q)) || p < q {
      if q <= dir {
        PrefixOfParent(q, dir, p[|p| - 1]);
        InitLast(p);
      }
    }
  }

  /** A name that survives being a path's last segment unchanged. */
  predicate PlainKey(key: string)
  {
    key != "" && '/' !in key && !IsWhitespace(key[|key| - 1])
  }

  /** `list` reports a missing path and a file path, and lists a directory. */
  lemma ListErrors(root: Node, path: string, kind: string)
    requires Settled(path)
    ensures var r := List(root, path, kind);
      && (r.error == "Path not found" <==> Lookup(root, path).None?)
      && (r.error == "Path is a file" <==> Lookup(root, path).Some? && Lookup(root, path).value.File?)
      && (r.error == "" <==> IsDirAt(root, PathOf(path)))
      && (r.error != "" ==> r.value == {})
  {
    SettledLookup(root, path);
  }

  /** For a settled path the source's second normalisation finds the same node. */
  lemma SettledLookup(root: Node, path: string)
    requires Settled(path)
    ensures Lookup(root, NormalizePath(path)) == Lookup(root, path)
  {
    SettledPath(path);
  }

  /**
   * The listing of a directory holds the full path of a plainly named child
   * exactly when that child exists and is of the wanted kind, and looking that
   * path up finds the child.
   */
  lemma ListEntry(root: Node, path: string, kind: string, key: string)
    requires Settled(path) && PlainKey(key) && IsDirAt(root, PathOf(path))
    ensures var node, e := Lookup(root, path).value, ChildPath(NormalizePath(path), key);
      && (e in List(root, path, kind).value <==> key in node.children && Wanted(kind, node.children[key]))
      && Lookup(root, e) == (if key in node.children then Some(node.children[key]) else None)
  {
    var norm := NormalizePath(path);
    var node := Lookup(root, path).value;
    var e := ChildPath(norm, key);
    SettledLookup(root, path);
    ListMember(root, path, kind, key);
    assert Lookup(root, e) == Find(node, [key]) by {
      SettledPath(path);
      ChildLookup(root, norm, key);
      FindAppend(root, Segments(norm), [key]);
    }
    FindChild(node, key);
  }

  /** A one-name lookup is a child lookup. */
  lemma FindChild(n: Node, key: string)
    ensures Find(n, [key]) == if n.Dir? && key in n.children then Some(n.children[key]) else None
  {
    assert [key][1..] == [];
  }

  /** Membership of a child path in the listing of a directory. */
  lemma ListMember(root: Node, path: string, kind: string, key: string)
    requires Lookup(root, NormalizePath(path)).Some? && Lookup(root, NormalizePath(path)).value.Dir?
    ensures var node := Lookup(root, NormalizePath(path)).value;
      ChildPath(NormalizePath(path), key) in List(root, path, kind).value <==> key in node.children && Wanted(kind, node.children[key])
  {
    var node := Lookup(root, NormalizePath(path)).value;
    ListedMember(NormalizePath(path), node.children, kind, key);
  }

  /** The set `list` builds from a directory's children, one name at a time. */
  lemma ListedMember(norm: string, children: map<string, Node>, kind: string, key: string)
    ensures var s := set k | k in children && Wanted(kind, children[k]) :: ChildPath(norm, k);
      ChildPath(norm, key) in s <==> key in children && Wanted(kind, children[key])
  {
    var s := set k | k in children && Wanted(kind, children[k]) :: ChildPath(norm, k);
    if ChildPath(norm, key) in s {
      var k :| k in children && Wanted(kind, children[k]) && ChildPath(norm, k) == ChildPath(norm, key);
      ChildKeyUnique(norm, k, key);
    }
  }

  /** Looking up a plainly named child path is one step below the directory. */
  lemma ChildLookup(root: Node, dir: string, key: string)
    requires Canonical(dir) && PlainKey(key)
    ensures Lookup(root, ChildPath(dir, key)) == Find(root, Segments(dir) + [key])
  {
    ChildPathSplit(dir, key);
    ChildPathSegments(dir, key);
  }

  /** Two child paths of one directory are equal only for the same name. */
  lemma ChildKeyUnique(dir: string, k: string, key: string)
    requires ChildPath(dir, k) == ChildPath(dir, key)
    ensures k == key
  {
    var pre := if dir == "/" then "/" else dir + "/";
    assert k == (pre + k)[|pre|..] && key == (pre + key)[|pre|..];
  }

  /** Every entry of a listing is a child path of the listed directory. */
  lemma ListShape(root: Node, path: string, kind: string, e: string)
    requires e in List(root, path, kind).value
    ensures exists k :: k in Lookup(root, NormalizePath(path)).value.children && e == ChildPath(NormalizePath(path), k)
  {
  }

  /**
   * `in` of `out`: a directory tree exported with a packer and stringifier
   * and imported with their inverses comes back unchanged, whatever tree the
   * store held before.
   */
  lemma ExportImport(root: Node, other: Node, pack: string -> string, unpack: string -> Unpacked,
                     stringify: Json -> string, parse: string -> Option<Json>)
    requires root.Dir? && other.Dir?
    requires var t := stringify(Encode(root)); unpack(pack(t)) == Text(t) && parse(t) == Some(Encode(root))
    ensures Import(other, Export(root, pack, stringify), unpack, parse) == Outcome(root, "")
  {
    DecodeEncode(root);
    ShapeOfEncode(root);
  }

  /**
   * `in` rejects a document that does not decode to a directory and keeps
   * the tree it had; only an accepted document replaces the tree. (The
   * source's own check is on the shape alone.)
   */
  lemma ImportRejects(root: Node, input: string, unpack: string -> Unpacked, parse: string -> Option<Json>)
    requires root.Dir?
    ensures var r := Import(root, input, unpack, parse);
      && (r.error != "" ==> r.root == root)
      && (r.error == "" <==> unpack(input).Text? && parse(unpack(input).text).Some?
                              && Decode(parse(unpack(input).text).value).Some?
                              && Decode(parse(unpack(input).text).value).value.Dir?)
      && (r.error == "" ==> r.root == Decode(parse(unpack(input).text).value).value)
  {
    if unpack(input).Text? && parse(unpack(input).text).Some? {
      var doc := parse(unpack(input).text).value;
      if Decode(doc).Some? && Decode(doc).value.Dir? {
        ShapeOfDecoded(doc);
      }
    }
  }

  /** An exported file-rooted tree is refused: the root must be a directory. */
  lemma ImportFileRoot(root: Node, file: Node, pack: string -> string, unpack: string -> Unpacked,
                       stringify: Json -> string, parse: string -> Option<Json>)
    requires root.Dir? && file.File?
    requires var t := stringify(Encode(file)); unpack(pack(t)) == Text(t) && parse(t) == Some(Encode(file))
    ensures Import(root, Export(file, pack, stringify), unpack, parse) == Outcome(root, "Invalid FS data structure")
  {
    ShapeOfEncode(file);
  }

  /** `pathExists` and `getPathType` agree, and a path is "directory" exactly where `list` succeeds. */
  lemma PathTypeAgrees(root: Node, path: string)
    requires Settled(path)
    ensures PathExists(root, path) <==> PathType(root, path) != "none"
    ensures PathType(root, path) == "directory" <==> List(root, path, "").error == ""
    ensures PathType(root, path) == "file" <==> ReadFile(root, path).error == ""
  {
    SettledLookup(root, path);
  }

  /** `getSize` of a directory counts its entries, of a file the UTF-8 bytes of its text. */
  lemma SizeCounts(root: Node, path: string)
    requires Lookup(root, path).Some?
    ensures var n, r := Lookup(root, path).value, Size(root, path);
      && r.error == ""
      && (n.Dir? ==> r.value == |n.children|)
      && (n.File? ==> r.value == Utf8Length(n.content) && (n.content == "" <==> r.value == 0))
  {
  }
}
