/**
 * The operations of the tree store as functions from the old tree to the
 * new tree and the message left in `lastError` ("" when none). The class in
 * RxStore carries them out step by step; the laws about them are in RxLaws.
 */
module RxOps {
  import opened Wrappers
  import opened Strings
  import opened JsonValues
  import opened RxPaths
  import opened RxTree
  import opened RxDocument

  /** The tree after an operation, and the message it leaves in `lastError`. */
  datatype Outcome = Outcome(root: Node, error: string)

  /** What a query returns, and the message it leaves in `lastError`. */
  datatype Answer<T> = Answer(value: T, error: string)

  /** The names `_getNode` and `_getParentAndKey` walk for `path`. */
  function PathOf(path: string): seq<string>
  {
    Segments(NormalizePath(path))
  }

  /** `_getNode(path)`. */
  function Lookup(root: Node, path: string): Option<Node>
  {
    Find(root, PathOf(path))
  }

  /** A resolved parent: the tree after any directories were created, the parent's names and the key. */
  datatype Slot = Slot(root: Node, dir: seq<string>, key: string)

  /**
   * `_getParentAndKey(path, create)`: None for the root path or when the
   * walk to the parent meets a file or (without `create`) a missing name.
   */
  function Locate(root: Node, path: string, create: bool, now: int): (r: Option<Slot>)
    requires root.Dir?
    ensures r.Some? ==> && r.value.root.Dir? && IsDirAt(r.value.root, r.value.dir)
                        && r.value.dir + [r.value.key] == PathOf(path)
                        && r.value.key != "" && '/' !in r.value.key
    ensures !create ==> (r.Some? <==> PathOf(path) != [] && IsDirAt(root, PathOf(path)[..|PathOf(path)| - 1]))
    ensures !create && r.Some? ==> r.value.root == root
    ensures create ==> (r.Some? <==> PathOf(path) != [] && EnsureDirs(root, PathOf(path)[..|PathOf(path)| - 1], now).Some?)
  {
    var norm := NormalizePath(path);
    CanonicalSegments(norm);
    if norm == "/" then None
    else
      var segs := Segments(norm);
      var dir, key := segs[..|segs| - 1], segs[|segs| - 1];
      InitLast(segs);
      if create then
        match EnsureDirs(root, dir, now)
        case None => None
        case Some(root') => Some(Slot(root', dir, key))
      else if IsDirAt(root, dir) then Some(Slot(root, dir, key))
      else None
  }

  /** `clean`: a fresh empty root. */
  function Clean(now: int): Outcome
  {
    Outcome(EmptyDir(now), "")
  }

  /** `createFile`: a new empty file, or an existing file truncated to "". */
  function CreateFile(root: Node, path: string, now: int): (r: Outcome)
    requires root.Dir?
    ensures r.root.Dir?
  {
    match Locate(root, path, true, now)
    case None => Outcome(root, "Invalid path")
    case Some(Slot(root', dir, key)) =>
      var parent := Find(root', dir).value;
      if key in parent.children then
        var node := parent.children[key];
        if node.File? then Outcome(Put(root', dir, key, node.(content := "", mtime := now), now), "")
        else Outcome(root', "Path is a directory")
      else Outcome(Put(root', dir, key, File("", FileMode, now, now), now), "")
  }

  /** `createDirectory`: a new empty directory; an existing directory is no error. */
  function CreateDirectory(root: Node, path: string, now: int): (r: Outcome)
    requires root.Dir?
    ensures r.root.Dir?
  {
    match Locate(root, path, true, now)
    case None => Outcome(root, "Invalid path")
    case Some(Slot(root', dir, key)) =>
      var parent := Find(root', dir).value;
      if key in parent.children then
        Outcome(root', if parent.children[key].Dir? then "" else "Path is a file")
      else Outcome(Put(root', dir, key, EmptyDir(now), now), "")
  }

  /** `writeFile`: replaces a file's content, creating the file and its parents if needed. */
  function WriteFile(root: Node, path: string, data: string, now: int): (r: Outcome)
    requires root.Dir?
    ensures r.root.Dir?
  {
    match Locate(root, path, true, now)
    case None => Outcome(root, "Invalid path")
    case Some(Slot(root', dir, key)) =>
      var parent := Find(root', dir).value;
      if key !in parent.children then
        Outcome(Put(root', dir, key, File(data, FileMode, now, now), now), "")
      else if parent.children[key].File? then
        Outcome(Put(root', dir, key, parent.children[key].(content := data, mtime := now), now), "")
      else Outcome(root', "Path is a directory")
  }

  /** `appendFile`: adds to an existing file's content; creates nothing. */
  function AppendFile(root: Node, path: string, data: string, now: int): (r: Outcome)
    requires root.Dir?
    ensures r.root.Dir?
  {
    match Locate(root, path, false, now)
    case None => Outcome(root, "Path not found")
    case Some(Slot(_, dir, key)) =>
      var parent := Find(root, dir).value;
      if key !in parent.children then Outcome(root, "File not found")
      else if parent.children[key].File? then
        var node := parent.children[key];
        Outcome(Put(root, dir, key, node.(content := node.content + data, mtime := now), now), "")
      else Outcome(root, "Path is a directory")
  }

  /** `readFile`: a file's content, or "" with a message. */
  function ReadFile(root: Node, path: string): Answer<string>
  {
    match Lookup(root, path)
    case None => Answer("", "File not found")
    case Some(node) => if node.File? then Answer(node.content, "") else Answer("", "Path is a directory")
  }

  /**
   * `remove`: unlinks a node from its parent. The root check is made on the
   * normalised path, the lookup normalises that path a second time.
   */
  function Remove(root: Node, path: string, now: int): (r: Outcome)
    requires root.Dir?
    ensures r.root.Dir?
  {
    var norm := NormalizePath(path);
    if norm == "/" then Outcome(root, "Cannot remove root")
    else
      match Locate(root, norm, false, now)
      case None => Outcome(root, "Path not found")
      case Some(Slot(_, dir, key)) =>
        if key !in Find(root, dir).value.children then Outcome(root, "Path not found")
        else Outcome(Drop(root, dir, key, now), "")
  }

  /** A directory found before a walk with `create` is still a directory after it. */
  lemma LocateKeepsDir(root: Node, path: string, now: int, q: seq<string>)
    requires root.Dir? && IsDirAt(root, q) && Locate(root, path, true, now).Some?
    ensures IsDirAt(Locate(root, path, true, now).value.root, q)
  {
    var s := Locate(root, path, true, now).value;
    EnsureDirsFrame(root, s.dir, now, q);
  }

  /** A node found before a walk with `create` is still found after it. */
  lemma LocateKeepsNode(root: Node, path: string, now: int, q: seq<string>)
    requires root.Dir? && Find(root, q).Some? && Locate(root, path, true, now).Some?
    ensures Find(Locate(root, path, true, now).value.root, q).Some?
  {
    var s := Locate(root, path, true, now).value;
    EnsureDirsFrame(root, s.dir, now, q);
  }

  /** A directory that is not at or below the new child survives a `Put`. */
  lemma PutKeepsDir(root: Node, dir: seq<string>, key: string, child: Node, now: int, q: seq<string>)
    requires IsDirAt(root, dir) && IsDirAt(root, q) && !(dir + [key] <= q)
    ensures IsDirAt(Put(root, dir, key, child, now), q)
  {
    FindPut(root, dir, key, child, now, q);
  }

  /** Whatever lies on the way to an existing node exists too. */
  lemma FindPrefix(n: Node, p: seq<string>, q: seq<string>)
    requires p <= q && Find(n, q).Some?
    ensures Find(n, p).Some?
  {
    assert q == p + q[|p|..];
    FindAppend(n, p, q[|p|..]);
  }

  /**
   * `move`: the node at the source gets mtime `now` and is linked under the
   * destination key (whose missing parents are created), then unlinked from
   * its old parent; both parents get mtime `now`.
   */
  function Move(root: Node, src: string, dst: string, now: int): (r: Outcome)
    requires root.Dir?
    ensures r.root.Dir?
  {
    var s, d := NormalizePath(src), NormalizePath(dst);
    if s == "/" || d == "/" then Outcome(root, "Cannot move root")
    else if StartsWith(d, s + "/") then Outcome(root, "Cannot move a directory into itself")
    else
      match Locate(root, s, false, now)
      case None => Outcome(root, "Source path not found")
      case Some(Slot(_, sd, sk)) =>
        if sk !in Find(root, sd).value.children then Outcome(root, "Source path not found")
        else
          var node := Find(root, sd).value.children[sk];
          match Locate(root, d, true, now)
          case None => Outcome(root, "Invalid destination path")
          case Some(Slot(root1, dd, dk)) =>
            if dk in Find(root1, dd).value.children then Outcome(root1, "Destination path already exists")
            else
              LocateKeepsDir(root, d, now, sd);
              PutKeepsDirOnMove(root1, dd, dk, sd);
              var root2 := Put(root1, dd, dk, node.(mtime := now), now);
              PutKeepsDir(root1, dd, dk, node.(mtime := now), now, sd);
              Outcome(Drop(root2, sd, sk, now), "")
  }

  /** The destination key is new, so no existing directory lies at or below it. */
  lemma PutKeepsDirOnMove(root1: Node, dd: seq<string>, dk: string, sd: seq<string>)
    requires IsDirAt(root1, dd) && IsDirAt(root1, sd) && dk !in Find(root1, dd).value.children
    ensures !(dd + [dk] <= sd)
  {
    if dd + [dk] <= sd {
      FindPrefix(root1, dd + [dk], sd);
      FindAppend(root1, dd, [dk]);
    }
  }

  /**
   * `copy`: a clone of the source node, taken after the destination's
   * parents were created, is linked under the destination key; the
   * destination parent gets mtime `now`.
   */
  function Copy(root: Node, src: string, dst: string, now: int): (r: Outcome)
    requires root.Dir?
    ensures r.root.Dir?
  {
    var s, d := NormalizePath(src), NormalizePath(dst);
    if s == "/" then Outcome(root, "Cannot copy root")
    else if StartsWith(d, s + "/") then Outcome(root, "Cannot copy a directory into itself")
    else if Lookup(root, s).None? then Outcome(root, "Source path not found")
    else
      match Locate(root, d, true, now)
      case None => Outcome(root, "Invalid destination path")
      case Some(Slot(root1, dd, dk)) =>
        if dk in Find(root1, dd).value.children then Outcome(root1, "Destination path already exists")
        else
          LocateKeepsNode(root, d, now, PathOf(s));
          var node := Lookup(root1, s).value;
          Outcome(Put(root1, dd, dk, Clone(node, now), now), "")
  }

  /**
   * `rename`: like `move`, but an existing destination is replaced when
   * `overwrite` holds and the node keeps its own mtime. When the destination
   * was an ancestor of the source's parent, that parent is no longer in the
   * tree by the time the source key is deleted from it.
   */
  function Rename(root: Node, src: string, dst: string, overwrite: bool, now: int): (r: Outcome)
    requires root.Dir?
    ensures r.root.Dir?
  {
    var s, d := NormalizePath(src), NormalizePath(dst);
    if s == "/" || d == "/" then Outcome(root, "Cannot rename root")
    else if StartsWith(d, s + "/") then Outcome(root, "Cannot rename a directory into itself")
    else
      match Locate(root, s, false, now)
      case None => Outcome(root, "Source path not found")
      case Some(Slot(_, sd, sk)) =>
        if sk !in Find(root, sd).value.children then Outcome(root, "Source path not found")
        else
          var node := Find(root, sd).value.children[sk];
          match Locate(root, d, true, now)
          case None => Outcome(root, "Invalid destination path")
          case Some(Slot(root1, dd, dk)) =>
            if dk in Find(root1, dd).value.children && !overwrite then
              Outcome(root1, "Destination path already exists")
            else
              var root2 := Put(root1, dd, dk, node, now);
              if dd + [dk] <= sd then Outcome(root2, "")
              else
                LocateKeepsDir(root, d, now, sd);
                PutKeepsDir(root1, dd, dk, node, now, sd);
                Outcome(Drop(root2, sd, sk, now), "")
  }

  /** The `overwrite` argument of `rename`: `String(OVER || "false").toLowerCase() === "true"`. */
  predicate OverwriteFlag(over: string)
  {
    |over| == 4 && LowerAscii(over[0]) == 't' && LowerAscii(over[1]) == 'r'
    && LowerAscii(over[2]) == 'u' && LowerAscii(over[3]) == 'e'
  }

  /** `toLowerCase` on the letters that can spell "true". */
  function LowerAscii(c: char): char
  {
    if 'A' <= c <= 'Z' then (c as int + 32) as char else c
  }

  /** Whether `list` with `kind` reports `child`. */
  predicate Wanted(kind: string, child: Node)
  {
    (kind == "files" && child.File?) || (kind == "directories" && child.Dir?) || kind == "both"
  }

  /** `list`: the full paths of the wanted children of a directory. */
  function List(root: Node, path: string, kind: string): Answer<set<string>>
  {
    var norm := NormalizePath(path);
    match Lookup(root, norm)
    case None => Answer({}, "Path not found")
    case Some(node) =>
      if node.File? then Answer({}, "Path is a file")
      else Answer(set k | k in node.children && Wanted(kind, node.children[k]) :: ChildPath(norm, k), "")
  }

  /** `pathExists`. */
  function PathExists(root: Node, path: string): bool
  {
    Lookup(root, path).Some?
  }

  /** `getPathType`: "none", "file" or "directory". */
  function PathType(root: Node, path: string): string
  {
    match Lookup(root, path)
    case None => "none"
    case Some(node) => if node.File? then "file" else "directory"
  }

  /** The depth `chmod` passes on: -1 for a blank argument, otherwise `parseInt(depth, 10)`. */
  function DepthArg(depth: string): Option<int>
  {
    if Blank(depth) then Some(-1) else ParseInt(depth, 10)
  }

  /** `chmod`: the mode `parseInt(mode, 8)` applied down to the given depth. */
  function ChangeMode(root: Node, path: string, mode: string, depth: string, now: int): (r: Outcome)
    requires root.Dir?
    ensures r.root.Dir?
  {
    match Lookup(root, path)
    case None => Outcome(root, "Path not found")
    case Some(node) =>
      match ParseInt(mode, 8)
      case None => Outcome(root, "Invalid permission mode")
      case Some(perms) =>
        match DepthArg(depth)
        case None => Outcome(root, "Invalid depth")
        case Some(levels) => Outcome(Replace(root, PathOf(path), Chmod(node, perms, levels, now)), "")
  }

  /**
   * `touch`: a missing path is created as by `createFile`; otherwise the
   * node and its parent get mtime `now`.
   */
  function Touch(root: Node, path: string, now: int): (r: Outcome)
    requires root.Dir?
    ensures r.root.Dir?
  {
    match Lookup(root, path)
    case None => CreateFile(root, path, now)
    case Some(_) =>
      var p := PathOf(path);
      var root' := Stamp(root, p, now);
      if p == [] then Outcome(root', "")
      else
        FindStamp(root, p, now, p[..|p| - 1]);
        Outcome(Stamp(root', p[..|p| - 1], now), "")
  }

  /** `getSize`: UTF-8 bytes of a file, number of children of a directory. */
  function Size(root: Node, path: string): Answer<nat>
  {
    match Lookup(root, path)
    case None => Answer(0, "Path not found")
    case Some(node) =>
      var size: nat := if node.File? then Utf8Length(node.content) else |node.children|;
      Answer(size, "")
  }

  /** `getCTime`. */
  function CTime(root: Node, path: string): Answer<int>
  {
    match Lookup(root, path)
    case None => Answer(0, "Path not found")
    case Some(node) => Answer(node.ctime, "")
  }

  /** `getMTime`. */
  function MTime(root: Node, path: string): Answer<int>
  {
    match Lookup(root, path)
    case None => Answer(0, "Path not found")
    case Some(node) => Answer(node.mtime, "")
  }

  /** What `LZString.decompressFromBase64` gives: text, `null`, or an exception. */
  datatype Unpacked = Text(text: string) | NullText | Thrown

  /**
   * `in`: unpack, parse and check the document; install it as the new root
   * when it has the directory shape and decodes to a tree.
   */
  function Import(root: Node, input: string, unpack: string -> Unpacked, parse: string -> Option<Json>): (r: Outcome)
    requires root.Dir?
    ensures r.root.Dir?
  {
    match unpack(input)
    case Thrown => Outcome(root, "Failed to parse or decompress FS data")
    case NullText => Outcome(root, "Decompression failed (null)")
    case Text(text) =>
      match parse(text)
      case None => Outcome(root, "Failed to parse FS JSON")
      case Some(doc) =>
        if ShapeOk(doc) && Decode(doc).Some? then
          DecodedShape(doc);
          Outcome(Decode(doc).value, "")
        else Outcome(root, "Invalid FS data structure")
  }

  /** `out`: the packed text of the stringified tree. */
  function Export(root: Node, pack: string -> string, stringify: Json -> string): string
  {
    pack(stringify(Encode(root)))
  }
}
