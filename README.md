# rxFS+ and LiFS in Dafny

This project models the two file stores of a Scratch/TurboWarp extension and
proves properties about them.

- **rxFS+** (`rxFS+.js`) keeps a whole file system in memory as one tree. The
  root is a directory node whose `children` map names to file or directory
  nodes, each with `permissions`, `ctime` and `mtime`. Every block
  normalises its path argument and reports failure by storing a message in
  `lastError`. The tree can be exported as an
  encoded JSON document and imported back.
- **LiFS** (`LiFS.js`) keeps a flat table of records in a browser database
  named `lif-s-<namespace>`. Each record is keyed by its normalised absolute
  path. Directories are records with `isDirectory: true`. Deleting or renaming
  a directory acts on every record whose key starts with its path followed by
  `/`.

Layout:

- `wrappers.dfy`: `Option` and `Result`.
- `strings.dfy`: trimming, splitting, joining, numerals and `parseInt`, and
  the UTF-8 byte length that `TextEncoder` yields.
- `json.dfy`: the JSON value type both stores exchange.
- `rx_paths.dfy`: `_normalizePath` and the path helpers.
- `rx_tree.dfy`: nodes, lookup by segments, and the structural edits
  (put, drop, stamp, clone, chmod, missing-directory creation).
- `rx_document.dfy`: the JSON encoding of a tree and its decoder.
- `rx_ops.dfy`: each block as a function from the old tree to the new tree
  and error.
- `rx_store.dfy`: the `RxFS` class (fields `root` and `lastError`) and the
  loops of `_getNode`, `_getParentAndKey` and `list`.
- `rx_laws.dfy`: what the blocks do.
- `li_paths.dfy`: LiFS `normalizePath`, which also resolves `.` and `..`, and
  the parent-path expression.
- `li_ops.dfy`: the module state (database map, current database name, ready
  flag, last error) and each operation as a function on it.
- `li_store.dfy`: the `LiFS` class and the cursor and put loops as methods
  proved against `li_ops.dfy`.
- `li_laws.dfy`: what the operations do.

The source has two quirks that the model keeps.

- In rxFS+, `move`, `rename` and `copy` test the "into itself" guard on the
  normalised strings. They then walk paths that are normalised a second
  time. So `"a /"` normalises to `"/a "` but walks as `["a"]`, and the
  guard lets a directory be moved into itself. The subtree is then lost
  (`RxLaws.MoveIntoItselfLosesSubtree`).
- In LiFS, `isDirectory` awaits the store lookup but never returns its
  value. On a loaded store it therefore yields `undefined`
  (`LiLaws.IsDirectoryUndefined`).

## Model

| member | source | states |
|---|---|---|
| `RxPaths.NormalizePath` | rxFS+.js:574-585 | the result always starts with `/`, has no doubled or trailing slash, and is `/` for a blank path |
| `RxPaths.Stripped` | rxFS+.js:575-580 | collapsing slashes and trimming leaves no doubled slash and no trailing slash; a blank path gives the empty string |
| `RxPaths.TrimmedShape` | rxFS+.js:575-577 | collapse-then-trim leaves no doubled slash and turns a blank path into the empty string |
| `RxPaths.SlashPrefix` | rxFS+.js:581-583 | prefixing a slash-free-ended cleaned string with `/` yields a canonical path |
| `RxPaths.Segments` | rxFS+.js:588-590 | the segments a path is walked by are non-empty and contain no `/` |
| `RxPaths.NonEmpty` | rxFS+.js:590 | filtering out empty parts keeps only non-empty parts taken from the input |
| `RxPaths.NonEmptyId` | rxFS+.js:590 | filtering changes nothing when no part is empty |
| `RxPaths.SplitPieces` | rxFS+.js:590 | splitting a cleaned path on `/` yields an empty first piece exactly when it starts with `/`, and no other empty piece |
| `RxPaths.CanonicalSegments` | rxFS+.js:574-590 | a canonical path is `/` exactly when it has no segments, and otherwise is `/` joined with its segments |
| `RxPaths.SegmentsOfJoin` | rxFS+.js:574-590 | joining clean names under `/` gives a canonical path whose segments are exactly those names |
| `RxPaths.JoinShape` | rxFS+.js:574-590 | joined clean names neither start nor end with `/` and contain no doubled slash |
| `RxPaths.ChildPathSegments` | rxFS+.js:1447 | the listed child path `dir/key` is canonical and its segments are the directory's plus the key |
| `RxPaths.TrimTrailingSlashes` | rxFS+.js:1555 | the result is a prefix of the input, doesn't end in `/`, and only slashes were removed |
| `RxPaths.TrimLeadingSlashes` | rxFS+.js:1556 | the result is a suffix of the input, doesn't start with `/`, and only slashes were removed |
| `RxPaths.JoinPath` | rxFS+.js:1554-1565 | `joinPath` never returns the empty string |
| `RxPaths.JoinPathChild` | rxFS+.js:1554-1565 | joining a canonical directory with a plain name gives the child path that `list` reports |
| `RxPaths.Basename` | rxFS+.js:1567-1572 | `getBasename`: `/` for the root, otherwise the last piece of the normalised path; its law is `BasenameOfChild` |
| `RxPaths.Dirname` | rxFS+.js:1574-1581 | `getDirname`: the normalised path without its last piece, `/` when nothing is left; its law is `DirnameOfChild` |
| `RxPaths.Extension` | rxFS+.js:1583-1591 | `getExtension`: the extension of the base name, as `ExtensionOf` states it |
| `RxPaths.ExtensionOf` | rxFS+.js:1583-1591 | the extension is non-empty iff the base name has a `.` not at its start; then it is the base name's suffix from its last `.` |
| `RxPaths.SplitLast` | rxFS+.js:1567-1581 | when the separator occurs, the last split piece is exactly what follows its last occurrence |
| `RxPaths.SplitCount` | rxFS+.js:1567-1581 | a split has more than one piece exactly when the separator occurs |
| `RxPaths.SplitFirst` | rxFS+.js:1567-1581 | the first split piece is empty exactly when the string starts with the separator |
| `RxPaths.NormalizeCanonical` | rxFS+.js:574-585 | normalising a canonical path that doesn't end in whitespace returns it unchanged |
| `RxPaths.TrimFixed` | rxFS+.js:575-577 | trimming a string with no outer whitespace returns it unchanged |
| `RxPaths.BasenameOfChild` | rxFS+.js:1567-1572 | the base name of `dir/key` is `key` |
| `RxPaths.DirnameOfChild` | rxFS+.js:1574-1581 | the directory name of `dir/key` is `dir` |
| `RxPaths.ChildPathSplit` | rxFS+.js:1567-1581 | `dir/key` is already normalised, is not `/`, and splits into `""`, the segments of `dir` and `key` |
| `RxPaths.SplitCanonical` | rxFS+.js:1574-1581 | a canonical non-root path splits into `""` followed by its segments |
| `RxPaths.DirnameParts` | rxFS+.js:1574-1581 | rejoining `""` with the segments of a canonical directory yields that directory |
| `RxPaths.NormalizeTwiceDiffers` | rxFS+.js:574-585 | normalisation is not idempotent: `"a /"` gives `"/a "`, which normalises again to `"/a"` |
| `RxPaths.ContainedPathGuard` | rxFS+.js:1307-1310 | when one canonical path's segments strictly prefix another's, the string guard `dst.startsWith(src + "/")` fires |
| `RxTree.Find` | rxFS+.js:591-602 | the node reached by following names from a directory's `children`, missing once a name is absent or a file is met; its laws are `FindAppend` and `RxStore.Walk` |
| `RxTree.Replace` | rxFS+.js:1159-1188 | an in-place edit of the node at a path, as the source mutates the object it walked to; its law is `FindReplace` |
| `RxTree.Put` | rxFS+.js:1180-1187 | `parent.children[key] = child; parent.mtime = now` on the directory at a path; its law is `FindPut` |
| `RxTree.Drop` | rxFS+.js:1294-1295 | `delete parent.children[key]; parent.mtime = now` on the directory at a path; its law is `FindDrop` |
| `RxTree.Stamp` | rxFS+.js:1508-1513 | `node.mtime = now` on the node at a path; its law is `FindStamp` |
| `RxTree.Chmod` | rxFS+.js:663-675 | `_recursiveChmod`: mode and mtime set on the node, and passed on to the children unless the depth is 0, with -1 meaning unlimited; its law is `FindChmod` |
| `RxTree.FindAppend` | rxFS+.js:587-603 | looking up `p + q` is looking up `q` from the node found at `p` |
| `RxTree.FindReplace` | rxFS+.js:605-637 | replacing the node at `p` changes lookups below `p` to the new node's and leaves disjoint paths alone |
| `RxTree.FindEdited` | rxFS+.js:605-637 | editing one key of a directory changes only lookups through that key |
| `RxTree.FindPut` | rxFS+.js:1159-1244 | storing a child under `dir/key` makes lookups below it read the child, keeps disjoint paths, and keeps ancestors directories |
| `RxTree.FindDrop` | rxFS+.js:1282-1296 | deleting `dir/key` makes everything below it missing, keeps disjoint paths, and keeps ancestors directories |
| `RxTree.FindStamp` | rxFS+.js:1501-1515 | stamping `mtime` at `p` changes only that node's `mtime` and keeps everything else |
| `RxTree.Fresh` | rxFS+.js:612-635 | a chain of new directories has a directory at the whole chain |
| `RxTree.EnsureDirs` | rxFS+.js:612-635 | creating missing directories, when it succeeds, leaves a directory at every prefix of the chain |
| `RxTree.EnsureDirsExisting` | rxFS+.js:612-635 | when every directory on the chain exists, creating missing directories changes nothing |
| `RxTree.EnsureDirsFails` | rxFS+.js:612-635 | the walk fails exactly when some prefix of the chain is a file |
| `RxTree.EnsureDirsFrame` | rxFS+.js:612-635 | existing nodes off the chain are untouched, and new nodes appear only along the chain |
| `RxTree.FreshFrame` | rxFS+.js:612-635 | a fresh chain has nodes only at prefixes of the chain |
| `RxTree.Clone` | rxFS+.js:639-661 | a deep copy has fresh times, the same permissions, kind and content, and the same child names |
| `RxTree.FindClone` | rxFS+.js:639-661 | the copy has a node at exactly the source's paths, each with fresh times and the same permissions, kind, content and child names |
| `RxTree.FindChmod` | rxFS+.js:663-675 | recursive chmod keeps every path, kind, content and `ctime`, and sets permissions and `mtime` exactly at the depths the limit reaches |
| `RxDocument.Encode` | rxFS+.js:1645-1655 | the JSON object `JSON.stringify(fsRoot)` writes for a node: type, content or children, permissions and times; its laws are `EncodedDirFields` and `DecodeEncode` |
| `RxDocument.Decode` | rxFS+.js:1611-1643 | the tree a parsed document describes when every node in it carries a type, permissions, times and content or children; its law is `DecodeEncode` |
| `RxDocument.ShapeOk` | rxFS+.js:1628-1633 | the import guard: an object whose `type` is `"directory"` and whose `children` is a non-null object (arrays included); its laws are `ShapeOfEncode` and `ShapeOfDecoded` |
| `RxDocument.DecodeEncode` | rxFS+.js:1611-1655 | decoding the JSON encoding of any tree gives the tree back |
| `RxDocument.DecodeEncodeDir` | rxFS+.js:1611-1655 | a directory round-trips when all its children do |
| `RxDocument.EncodedDirFields` | rxFS+.js:1645-1655 | an encoded directory carries type `directory`, its children's encodings, and its permissions and times |
| `RxDocument.ShapeOfEncode` | rxFS+.js:1628-1638 | the import shape check accepts an encoding exactly when the tree root is a directory |
| `RxDocument.ShapeOfDecoded` | rxFS+.js:1628-1638 | a document that decodes to a directory passes the shape check |
| `RxDocument.DecodedShape` | rxFS+.js:1628-1638 | a document that passes the shape check and decodes gives a directory |
| `RxOps.Lookup` | rxFS+.js:587-603 | `_getNode`: the node at the normalised path's segments, the root for `/`; `RxStore.GetNode` is proved equal to it |
| `RxOps.Clean` | rxFS+.js:1154-1157 | `clean`: an empty root directory with mode 0o755 and no error |
| `RxOps.ReadFile` | rxFS+.js:1268-1280 | `readFile`: a file's content, otherwise `""` with "File not found" or "Path is a directory"; its laws are `RxLaws.WriteThenRead` and `RxLaws.PathTypeAgrees` |
| `RxOps.List` | rxFS+.js:1429-1458 | `list`: the child paths of the wanted kind, or "Path not found" / "Path is a file"; its laws are `RxLaws.ListErrors` and `RxLaws.ListEntry` |
| `RxOps.PathExists` | rxFS+.js:1460-1463 | `pathExists`: whether `_getNode` finds a node; its law is `RxLaws.PathTypeAgrees` |
| `RxOps.PathType` | rxFS+.js:1465-1470 | `getPathType`: "none", "file" or "directory"; its law is `RxLaws.PathTypeAgrees` |
| `RxOps.Size` | rxFS+.js:1517-1532 | `getSize`: a file's UTF-8 byte count or a directory's child count, "Path not found" otherwise; its law is `RxLaws.SizeCounts` |
| `RxOps.CTime` | rxFS+.js:1534-1542 | `getCTime`: the node's ctime, or 0 with "Path not found" |
| `RxOps.MTime` | rxFS+.js:1544-1552 | `getMTime`: the node's mtime, or 0 with "Path not found"; `RxLaws.TouchEffect` states what `touch` does to it |
| `RxOps.Export` | rxFS+.js:1645-1655 | `out`: the packed text of the stringified encoding; its law is `RxLaws.ExportImport` |
| `RxOps.Locate` | rxFS+.js:605-637 | the slot found has a directory parent and the path's last segment as key; without creation it exists iff the parent directory exists, and the tree is kept |
| `RxOps.LocateKeepsDir` | rxFS+.js:612-635 | creating missing directories keeps every existing directory a directory |
| `RxOps.LocateKeepsNode` | rxFS+.js:612-635 | creating missing directories keeps every existing node |
| `RxOps.PutKeepsDir` | rxFS+.js:1159-1244 | storing a node keeps directories not below the stored key |
| `RxOps.FindPrefix` | rxFS+.js:587-603 | when a path exists, so does each of its prefixes |
| `RxOps.PutKeepsDirOnMove` | rxFS+.js:1323-1343 | a free destination key is not an ancestor of any existing directory |
| `RxOps.CreateFile` | rxFS+.js:1159-1188 | the new tree's root is still a directory; the effect is stated in `RxLaws.CreateFileEffect` |
| `RxOps.CreateDirectory` | rxFS+.js:1190-1215 | the new tree's root is still a directory; the effect is stated in `RxLaws.CreateDirectoryEffect` |
| `RxOps.WriteFile` | rxFS+.js:1217-1244 | the new tree's root is still a directory; the effect is stated in `RxLaws.WriteThenRead` |
| `RxOps.AppendFile` | rxFS+.js:1246-1266 | the new tree's root is still a directory; the effect is stated in `RxLaws.AppendEffect` |
| `RxOps.Remove` | rxFS+.js:1282-1296 | the new tree's root is still a directory; the effect is stated in `RxLaws.RemoveEffect` |
| `RxOps.Move` | rxFS+.js:1298-1344 | the new tree's root is still a directory; the effect is stated in `RxLaws.MoveEffect` |
| `RxOps.Copy` | rxFS+.js:1346-1382 | the new tree's root is still a directory; the effect is stated in `RxLaws.CopyEffect` |
| `RxOps.Rename` | rxFS+.js:1384-1427 | the new tree's root is still a directory; the effect is stated in `RxLaws.RenameEffect` |
| `RxOps.ChangeMode` | rxFS+.js:1472-1499 | the new tree's root is still a directory; the effect is stated in `RxLaws.ChmodBelow` |
| `RxOps.Touch` | rxFS+.js:1501-1515 | the new tree's root is still a directory; the effect is stated in `RxLaws.TouchEffect` |
| `RxOps.Import` | rxFS+.js:1611-1643 | the new tree's root is still a directory; the effect is stated in `RxLaws.ImportRejects`; a shape-valid document that does not decode is rejected, unlike the source (see Left out) |
| `RxStore.GetNode` | rxFS+.js:587-603 | the walk over the segments returns exactly the node at the path, or none |
| `RxStore.Walk` | rxFS+.js:591-602 | the loop returns exactly the node at the given segments, or none |
| `RxStore.FindStep` | rxFS+.js:592-601 | one step of the walk follows a directory's child and stays missing once missing |
| `RxStore.GetParentAndKey` | rxFS+.js:605-637 | without creation, a parent is found iff the path has segments and its parent chain is all directories; the parent is the node there and the key is the last segment |
| `RxStore.WalkDirs` | rxFS+.js:612-635 | the loop succeeds iff every prefix of the chain is a directory, and returns the node at the chain |
| `RxStore.MissingBelow` | rxFS+.js:612-635 | once a prefix is not a directory, no longer prefix is one |
| `RxStore.ListChildren` | rxFS+.js:1442-1456 | the loop collects exactly the child paths of the wanted kind |
| `RxStore.ListDir` | rxFS+.js:1429-1458 | the method returns what `list` specifies, including its errors |
| `RxStore.RxFS.constructor` | rxFS+.js:555-572 | a new store holds an empty root directory and no error |
| `RxStore.RxFS.Apply` | rxFS+.js:1159-1515 | a block's outcome replaces the root and the last error |
| `RxStore.RxFS.Clean` | rxFS+.js:1154-1157 | `clean` leaves an empty root and no error |
| `RxStore.RxFS.CreateFile` | rxFS+.js:1159-1188 | the new root and error are those of `RxOps.CreateFile` on the old root |
| `RxStore.RxFS.CreateDirectory` | rxFS+.js:1190-1215 | the new root and error are those of `RxOps.CreateDirectory` on the old root |
| `RxStore.RxFS.WriteFile` | rxFS+.js:1217-1244 | the new root and error are those of `RxOps.WriteFile` on the old root |
| `RxStore.RxFS.AppendFile` | rxFS+.js:1246-1266 | the new root and error are those of `RxOps.AppendFile` on the old root |
| `RxStore.RxFS.ReadFile` | rxFS+.js:1268-1280 | the tree is unchanged and the content and error are those of `RxOps.ReadFile` |
| `RxStore.RxFS.Remove` | rxFS+.js:1282-1296 | the new root and error are those of `RxOps.Remove` on the old root |
| `RxStore.RxFS.Move` | rxFS+.js:1298-1344 | the new root and error are those of `RxOps.Move` on the old root |
| `RxStore.RxFS.Copy` | rxFS+.js:1346-1382 | the new root and error are those of `RxOps.Copy` on the old root |
| `RxStore.RxFS.Rename` | rxFS+.js:1384-1427 | the new root and error are those of `RxOps.Rename` with the overwrite flag decoded from the argument |
| `RxStore.RxFS.List` | rxFS+.js:1429-1458 | the tree is unchanged and the entries and error are those of `RxOps.List` |
| `RxStore.RxFS.PathExists` | rxFS+.js:1460-1463 | the tree is unchanged, the error cleared, and the answer is `RxOps.PathExists` |
| `RxStore.RxFS.GetPathType` | rxFS+.js:1465-1470 | the tree is unchanged, the error cleared, and the answer is `RxOps.PathType` |
| `RxStore.RxFS.ChangeMode` | rxFS+.js:1472-1499 | the new root and error are those of `RxOps.ChangeMode` on the old root |
| `RxStore.RxFS.Touch` | rxFS+.js:1501-1515 | the new root and error are those of `RxOps.Touch` on the old root |
| `RxStore.RxFS.GetSize` | rxFS+.js:1517-1532 | the tree is unchanged and the size and error are those of `RxOps.Size` |
| `RxStore.RxFS.GetCTime` | rxFS+.js:1534-1542 | the tree is unchanged and the time and error are those of `RxOps.CTime` |
| `RxStore.RxFS.GetMTime` | rxFS+.js:1544-1552 | the tree is unchanged and the time and error are those of `RxOps.MTime` |
| `RxStore.RxFS.In` | rxFS+.js:1611-1643 | the new root and error are those of `RxOps.Import` on the old root, so it shares that function's gap (see Left out) |
| `RxStore.RxFS.Out` | rxFS+.js:1645-1655 | the tree is unchanged, the error cleared, and the text is the packed encoding of the root |
| `RxStore.RxFS.GetLastError` | rxFS+.js:1657-1660 | returns the stored error |
| `RxLaws.ExistingSlot` | rxFS+.js:605-637 | an existing node's parent is a directory holding it under its last segment |
| `RxLaws.LocateExisting` | rxFS+.js:605-637 | locating an existing path succeeds without changing the tree |
| `RxLaws.LocateTarget` | rxFS+.js:612-635 | creating missing parents does not change what is at the target path |
| `RxLaws.WriteThenRead` | rxFS+.js:1217-1280 | after a successful `writeFile`, `readFile` of the same path returns the data with no error |
| `RxLaws.WriteToDirectory` | rxFS+.js:1217-1280 | writing or reading a directory fails with "Path is a directory" and changes nothing |
| `RxLaws.SlotPutFrame` | rxFS+.js:605-637 | locating and storing at a path leaves nodes on unrelated paths unchanged |
| `RxLaws.WalkFrame` | rxFS+.js:605-637 | the walk that creates missing parents leaves every path off the way to the target as it was, present or absent |
| `RxLaws.CreateFileLocal` | rxFS+.js:1159-1188 | `createFile` leaves nodes on unrelated paths unchanged |
| `RxLaws.CreateDirectoryLocal` | rxFS+.js:1190-1215 | `createDirectory` leaves nodes on unrelated paths unchanged |
| `RxLaws.WriteFileLocal` | rxFS+.js:1217-1244 | `writeFile` leaves nodes on unrelated paths unchanged |
| `RxLaws.AppendFileLocal` | rxFS+.js:1246-1266 | `appendFile` leaves nodes on unrelated paths unchanged |
| `RxLaws.CreateFileEffect` | rxFS+.js:1159-1188 | after success the path holds an empty file stamped now; a new file gets mode 0o644, an existing one keeps its permissions |
| `RxLaws.CreateDirectoryEffect` | rxFS+.js:1190-1215 | after success the path holds a directory; a new one is empty, and an existing path leaves the tree unchanged |
| `RxLaws.AppendEffect` | rxFS+.js:1246-1266 | a successful append extends the content by the data and the byte size by its UTF-8 length; appending to a directory records "Path is a directory", and to a missing path "Path not found" or "File not found", each changing nothing |
| `RxLaws.AppendMissing` | rxFS+.js:1249-1262 | appending to a path with no node records "Path not found" or "File not found" and changes nothing |
| `RxLaws.RemoveRoot` | rxFS+.js:1282-1288 | removing `/` fails with "Cannot remove root" and changes nothing |
| `RxLaws.RemoveSucceeds` | rxFS+.js:1282-1296 | `remove` succeeds exactly when the normalised path names an existing non-root node |
| `RxLaws.RemovedExisted` | rxFS+.js:1289-1295 | a successful remove was of an existing non-root node |
| `RxLaws.SlotOfRemove` | rxFS+.js:1289-1295 | a successful remove found the key in its parent |
| `RxLaws.RemoveOfExisting` | rxFS+.js:1289-1295 | removing an existing non-root node succeeds |
| `RxLaws.RemoveOfSlot` | rxFS+.js:1289-1295 | removing succeeds when the key is present in its parent |
| `RxLaws.RemoveFails` | rxFS+.js:1282-1296 | a failed remove leaves the tree unchanged |
| `RxLaws.RemoveEffect` | rxFS+.js:1282-1296 | after success everything at or below the path is gone and paths off it are unchanged |
| `RxLaws.SettledPath` | rxFS+.js:574-590 | for a path that normalises stably, the walked segments are the normalised string's segments |
| `RxLaws.LocateNode` | rxFS+.js:605-637 | the located key is present exactly when the path exists, and then the tree is unchanged |
| `RxLaws.MoveSlots` | rxFS+.js:1298-1344 | a successful move passed all guards, found the source in its parent, and found the destination key free |
| `RxLaws.MoveAccepted` | rxFS+.js:1298-1312 | a successful move had non-root source and destination, a destination not inside the source, and a source parent |
| `RxLaws.MoveSourceSlot` | rxFS+.js:1312-1321 | a successful move found the source key in its parent |
| `RxLaws.MoveDestinationSlot` | rxFS+.js:1323-1335 | a successful move found the destination key free in its parent |
| `RxLaws.MoveResult` | rxFS+.js:1337-1343 | the moved tree stores the retimed source at the destination and drops the source key |
| `RxLaws.MoveFound` | rxFS+.js:1298-1344 | a successful move had an existing source, a missing destination, and a destination not above the source |
| `RxLaws.SlotsFound` | rxFS+.js:1312-1335 | the located source slot holds the node at the source path, and the destination path is free |
| `RxLaws.RelinkEffect` | rxFS+.js:1337-1343 | relinking a node from one key to another moves the whole subtree |
| `RxLaws.MoveGuard` | rxFS+.js:1307-1310 | for paths that normalise stably, a successful move never puts a directory inside itself |
| `RxLaws.MoveEffect` | rxFS+.js:1298-1344 | after success the source subtree is gone and the destination holds it with the root retimed |
| `RxLaws.MoveFrame` | rxFS+.js:1298-1344 | after success every path neither on the way to nor below the source or the destination is unchanged |
| `RxLaws.SourceSlot` | rxFS+.js:1312-1321 | a source key present in its parent means the source path exists |
| `RxLaws.SourceNode` | rxFS+.js:1312-1321 | the node in the source slot is the node at the source path |
| `RxLaws.ExistingSource` | rxFS+.js:1312-1321 | an existing source path is found in its parent |
| `RxLaws.MoveSourceMissing` | rxFS+.js:1312-1320 | moving a missing source fails with "Source path not found" and changes nothing |
| `RxLaws.MoveOntoExisting` | rxFS+.js:1332-1335 | moving onto an existing path fails with "Destination path already exists" and changes nothing |
| `RxLaws.MoveThroughFile` | rxFS+.js:1323-1330 | moving to a destination whose parent chain crosses a file fails and changes nothing |
| `RxLaws.BlockedWalk` | rxFS+.js:612-635 | a parent chain crossing a file cannot be located |
| `RxLaws.MoveBuilds` | rxFS+.js:1298-1344 | once the guards pass and both slots are found, move succeeds with the relinked tree |
| `RxLaws.MoveIntoItselfLosesSubtree` | rxFS+.js:1298-1344 | moving `/k` to `/k/j` through the normalisation gap succeeds, yet both `/k` and `/k/j` are then missing |
| `RxLaws.DropParentOfMoved` | rxFS+.js:1337-1343 | storing under `/k/j` and then dropping `/k` leaves neither |
| `RxLaws.MoveBuildsAt` | rxFS+.js:1298-1344 | move from one explicit slot to another succeeds with the relinked tree |
| `RxLaws.SlotAt` | rxFS+.js:605-637 | a path whose parent is a directory is located at that parent and key, tree unchanged |
| `RxLaws.BypassPaths` | rxFS+.js:1307-1312 | `"a /"` normalises to `"/a "` and walks as `["a"]`, and `"/a/b"` does not start with `"/a /"` |
| `RxLaws.BypassSource` | rxFS+.js:574-590 | `"a /"` normalises to `"/a "`, which walks as `["a"]` |
| `RxLaws.BypassDestination` | rxFS+.js:574-590 | `"/a/b"` is already normalised and walks as `["a", "b"]` |
| `RxLaws.RootChild` | rxFS+.js:574-590 | `/key` is canonical with the single segment `key` |
| `RxLaws.RenameAccepted` | rxFS+.js:1384-1399 | a successful rename had non-root source and destination, a destination not inside the source, and a source parent |
| `RxLaws.RenameSourceSlot` | rxFS+.js:1399-1405 | a successful rename found the source key in its parent |
| `RxLaws.RenameDestinationSlot` | rxFS+.js:1407-1416 | a successful rename found the destination slot, free unless overwriting |
| `RxLaws.RenameBuilds` | rxFS+.js:1384-1427 | once the guards pass and both slots are found, rename succeeds with the relinked tree |
| `RxLaws.RenameSlots` | rxFS+.js:1384-1427 | a successful rename passed all guards and both slots were found |
| `RxLaws.RenameTree` | rxFS+.js:1418-1426 | storing the node at the destination and dropping the source moves the subtree |
| `RxLaws.RenameEffect` | rxFS+.js:1384-1427 | after success the destination holds the source's subtree, and the source subtree is gone unless the destination was an ancestor of the source (the overwrite then detaches the source's parent and the final delete is invisible) |
| `RxLaws.RenameFrame` | rxFS+.js:1384-1427 | after success every path neither on the way to nor below the source or the destination is unchanged |
| `RxLaws.RenameOntoItselfDeletes` | rxFS+.js:1384-1427 | renaming a path onto itself with overwrite succeeds and deletes it |
| `RxLaws.RenameSourceMissing` | rxFS+.js:1399-1403 | renaming a missing source fails with "Source path not found" and changes nothing |
| `RxLaws.RenameOntoExisting` | rxFS+.js:1413-1416 | renaming onto an existing path without overwrite fails with "Destination path already exists" |
| `RxLaws.CopyAccepted` | rxFS+.js:1346-1366 | a successful copy had a non-root source not containing the destination, an existing source and a destination slot |
| `RxLaws.CopyResult` | rxFS+.js:1366-1381 | the copied tree stores a deep copy of the source in the free destination slot |
| `RxLaws.CopyEffect` | rxFS+.js:1346-1382 | after success the destination holds a fresh deep copy of the source, and the source is unchanged |
| `RxLaws.CopyFrame` | rxFS+.js:1346-1382 | after success every path neither on the way to nor below the destination is unchanged |
| `RxLaws.CopyTree` | rxFS+.js:1360-1381 | storing the copy leaves the source lookup unchanged and puts the clone below the destination |
| `RxLaws.CopySourceMissing` | rxFS+.js:1360-1364 | copying a missing source fails with "Source path not found" and changes nothing |
| `RxLaws.CopyOntoExisting` | rxFS+.js:1375-1378 | copying onto an existing path fails with "Destination path already exists" and changes nothing |
| `RxLaws.CopyRootThroughBlank` | rxFS+.js:1346-1382 | a source that normalises to `"/ "` walks as the root, so the whole tree is copied under `/k` |
| `RxLaws.BlankSourcePaths` | rxFS+.js:574-590 | `"/ /"` normalises to `"/ "`, which walks as the root |
| `RxLaws.SettledRootChild` | rxFS+.js:574-590 | `/key` with no trailing whitespace normalises to itself with the single segment `key` |
| `RxLaws.BlankOnce` | rxFS+.js:574-585 | `"/ /"` normalises to `"/ "` |
| `RxLaws.BlankTwice` | rxFS+.js:587-590 | `"/ "` walks as the root |
| `RxLaws.ChmodBelow` | rxFS+.js:1472-1499 | with a valid octal mode and depth, chmod succeeds and keeps every path below, setting permissions exactly where the depth reaches |
| `RxLaws.ChmodElsewhere` | rxFS+.js:1472-1499 | chmod leaves paths off the target unchanged and keeps ancestors' kinds |
| `RxLaws.ChmodRejects` | rxFS+.js:1472-1497 | a missing path, a non-octal mode or a bad depth each fail with their own message and change nothing |
| `RxLaws.ModeExample` | rxFS+.js:1480-1496 | `"755"` parses as 0o755 and an empty depth means unlimited |
| `RxLaws.TouchMissing` | rxFS+.js:1501-1507 | touching a missing path is `createFile` |
| `RxLaws.TouchEffect` | rxFS+.js:1501-1515 | touching an existing node stamps its and its parent's `mtime` and keeps everything else |
| `RxLaws.TouchTree` | rxFS+.js:1508-1514 | stamping a node and then its parent changes only those two `mtime` values |
| `RxLaws.ListErrors` | rxFS+.js:1429-1458 | `list` reports "Path not found" iff nothing is there, "Path is a file" iff a file is, succeeds iff a directory is, and returns nothing on error |
| `RxLaws.SettledLookup` | rxFS+.js:1429-1432 | for a path that normalises stably, looking up the normalised path finds the same node |
| `RxLaws.ListEntry` | rxFS+.js:1429-1458 | `dir/key` is listed iff `key` is a child of the wanted kind, and looking the entry up finds that child |
| `RxLaws.ListMember` | rxFS+.js:1442-1456 | a child path is listed iff the key is a child of the wanted kind |
| `RxLaws.ListedMember` | rxFS+.js:1442-1456 | the listed set contains `dir/key` exactly for wanted children |
| `RxLaws.ChildLookup` | rxFS+.js:1442-1456 | looking up a listed child path walks to the child |
| `RxLaws.ChildKeyUnique` | rxFS+.js:1442-1456 | distinct children give distinct listed paths |
| `RxLaws.ListShape` | rxFS+.js:1442-1456 | every listed entry is the path of some child |
| `RxLaws.ExportImport` | rxFS+.js:1611-1655 | importing what `out` exported restores the exported tree with no error, when the codec round-trips |
| `RxLaws.ImportRejects` | rxFS+.js:1611-1643 | in the model, import succeeds exactly when the text unpacks, parses and decodes to a directory, and then installs the decoded tree; on failure the tree is unchanged. The source accepts on the shape check alone (see Left out) |
| `RxLaws.ImportFileRoot` | rxFS+.js:1628-1638 | importing an exported single file fails with "Invalid FS data structure" and changes nothing |
| `RxLaws.PathTypeAgrees` | rxFS+.js:1460-1470 | `pathExists` agrees with `getPathType`, which says "directory" iff `list` succeeds and "file" iff `readFile` succeeds |
| `RxLaws.SizeCounts` | rxFS+.js:1517-1532 | the size of a directory is its child count; the size of a file is its UTF-8 length, zero iff empty |
| `Strings.Trim` | rxFS+.js:577 | trimming is empty iff the string is blank, and otherwise has no whitespace at either end |
| `Strings.Collapse` | rxFS+.js:576 | collapsing runs of a character leaves no doubled character, keeps the ends and doesn't grow |
| `Strings.ReplaceChar` | LiFS.js:65 | replacing backslashes keeps the length and changes exactly the backslashes |
| `Strings.JoinSplit` | rxFS+.js:1567-1581 | joining the split pieces gives the string back |
| `Strings.SplitJoin` | LiFS.js:62-77 | splitting joined separator-free pieces gives the pieces back |
| `Strings.NumeralValue` | LiFS.js:542-571 | the decimal numeral of `n` denotes `n` |
| `Strings.ParseInt` | rxFS+.js:1480-1495 | `parseInt` in radix 8 or 10: leading whitespace and one sign skipped, the longest digit run read, no digit giving `NaN`; its law is `ParseNumeral` |
| `Strings.ParseNumeral` | rxFS+.js:1480-1495 | `parseInt` of a numeral followed by non-digits gives the number |
| `Strings.Utf8Length` | rxFS+.js:1517-1532 | the UTF-8 byte count lies between one and four bytes per character |
| `Strings.Utf8LengthAppend` | rxFS+.js:1246-1266 | the byte count of a concatenation is the sum of the byte counts |
| `LiPaths.NormalizePath` | LiFS.js:62-77 | `normalizePath`: backslashes to slashes, slashes collapsed and trimmed, `.` dropped and `..` resolved, `/` for a blank or non-string path; its laws are `NormalShape` and `NormalizeIdempotent` |
| `LiPaths.DropLeading` | LiFS.js:67 | stripping leading slashes leaves a suffix that doesn't start with one |
| `LiPaths.DropTrailing` | LiFS.js:67 | stripping trailing slashes leaves a prefix that doesn't end with one |
| `LiPaths.PiecesFree` | LiFS.js:65-67 | no piece of a cleaned path contains `/` or `\` |
| `LiPaths.ResolvePlain` | LiFS.js:68-75 | resolving `.` and `..` keeps every name plain |
| `LiPaths.ResolveNames` | LiFS.js:68-75 | resolving plain names appends them unchanged |
| `LiPaths.NormalShape` | LiFS.js:62-77 | the result is `/` joined with plain names, has no backslash, and is `/` for a blank path |
| `LiPaths.NormalizeIdempotent` | LiFS.js:62-77 | normalising twice is normalising once |
| `LiPaths.NormalizeNames` | LiFS.js:62-77 | a path built from plain names normalises to itself and has those names |
| `LiPaths.PiecesOfNames` | LiFS.js:65-67 | a path built from plain names splits back into them |
| `LiPaths.DotDotAtRoot` | LiFS.js:71-73 | `..` at the root is dropped |
| `LiPaths.ResolveDots` | LiFS.js:69-73 | `.` is skipped, and a name followed by `..` cancels out |
| `LiPaths.NonStringRoot` | LiFS.js:63 | a non-string or empty path normalises to `/` |
| `LiPaths.LastIndex` | LiFS.js:269 | `lastIndexOf` gives the last occurrence, or -1 when there is none |
| `LiPaths.ParentOfNames` | LiFS.js:269 | the parent of a path built from names drops the last name |
| `LiPaths.ParentOfTop` | LiFS.js:269 | the parent of a top-level path is `/` |
| `LiPaths.ParentOfChild` | LiFS.js:269 | the parent of `p/last` is `p` |
| `LiOps.Report` | LiFS.js:37-41 | `reportError`: the last error becomes "LiFS Error in scope: message"; its law is `LiLaws.ReportThenRead` |
| `LiOps.GetLastError` | LiFS.js:573-577 | `getLastError`: the last error, cleared by reading it; its law is `LiLaws.ReportThenRead` |
| `LiOps.EnsureRoot` | LiFS.js:127-145 | `ensureRootDirectory`: puts a root directory record when `/` has none and keeps every other record |
| `LiOps.LoadLiFS` | LiFS.js:147-163 | `loadLiFS`: refuses a blank name, otherwise selects `lif-s-name` and ensures its root; its laws are `LiLaws.LoadNamespace`, `LoadBlank` and `LoadTwice` |
| `LiOps.ResetLiFS` | LiFS.js:165-191 | `resetLiFS`: deletes the loaded database and forgets the namespace; its laws are `LiLaws.ResetForgets` and `ResetUnloaded` |
| `LiOps.IsDirectory` | LiFS.js:193-209 | `isDirectory`: `false` with an error when nothing is loaded, otherwise `undefined`; its law is `LiLaws.IsDirectoryUndefined` |
| `LiOps.ListContents` | LiFS.js:211-259 | `listContents`: the names of the direct children of the wanted kind; its laws are `LiLaws.ListExact` and `ListUnloaded` |
| `LiOps.CreateItem` | LiFS.js:261-313 | `createItem`: puts one record under an existing directory; its laws are `LiLaws.CreateRefused` and `CreateEffect` |
| `LiOps.ReadFile` | LiFS.js:315-344 | `readFile`: a file record's content; its laws are `LiLaws.ReadAfterCreate` and `ReadDirectory` |
| `LiOps.DeleteItem` | LiFS.js:346-416 | `deleteItem`: deletes a record and, for a directory, every record below it; its laws are `LiLaws.DeleteRefused` and `DeleteEffect` |
| `LiOps.RenameItem` | LiFS.js:418-498 | `renameItem`: moves a record and every record below it to the new path; its laws are `LiLaws.RenameRefused` and `RenameEffect` |
| `LiOps.ItemExists` | LiFS.js:503-515 | `itemExists`: whether a record lies at the normalised path; its law is `LiLaws.ExistsAfterDelete` |
| `LiOps.GetItemProperty` | LiFS.js:517-538 | `getItemProperty`: a record's property as text, `""` when it or the record is missing; its laws are `LiLaws.PropertiesAfterCreate` and `PropertyOf` |
| `LiOps.DirectorySize` | LiFS.js:542-571 | `getDirectorySize`: the sum of the file sizes at or below the path; its laws are `LiLaws.SizeAfterCreate` and `SizeOfOne` |
| `LiOps.ProcessImportContent` | LiFS.js:689-714 | `processImportContent`: puts every item with a string path, or stores nothing when some item's `path` is no valid key; its laws are `LiLaws.ImportRefused` and `ImportEffect` |
| `LiOps.ShiftInjective` | LiFS.js:432-482 | renaming maps distinct moved keys to distinct new keys |
| `LiStore.CollectPrefixed` | LiFS.js:367-374 | the cursor loop collects exactly the keys starting with the prefix |
| `LiStore.CollectDoomed` | LiFS.js:357-384 | the collected keys are exactly those `deleteItem` deletes |
| `LiStore.CollectMoved` | LiFS.js:432-450 | the collected keys are exactly those `renameItem` moves |
| `LiStore.DeleteAll` | LiFS.js:390-410 | deleting each collected key removes exactly those keys |
| `LiStore.ShiftedStep` | LiFS.js:471-482 | moving one more key adds exactly its shifted record |
| `LiStore.PutShifted` | LiFS.js:471-482 | the put loop adds the shifted record of every moved key |
| `LiStore.ShiftedAll` | LiFS.js:432-482 | the loop's result over all moved keys is the renamed table's new part |
| `LiStore.MoveAll` | LiFS.js:458-490 | the delete-and-put loops yield exactly the renamed table |
| `LiStore.ListScan` | LiFS.js:211-258 | the cursor loop collects exactly the direct children's names of the wanted kind |
| `LiStore.SizeSumRemove` | LiFS.js:542-571 | the directory size splits into one record's share plus the rest |
| `LiStore.SizeScan` | LiFS.js:542-571 | the cursor loop sums exactly the sizes of files at or below the path |
| `LiStore.PutItems` | LiFS.js:700-709 | the put loop stops exactly when some item's `put` throws, and otherwise stores the imported items, later items winning |
| `LiStore.LiFS.constructor` | LiFS.js:20-25 | a new module state has the browser's databases, no namespace, not ready, no error |
| `LiStore.LiFS.ReportError` | LiFS.js:37-41 | the new state is the old one with the scoped message recorded |
| `LiStore.LiFS.GetLastError` | LiFS.js:573-577 | returns the stored error and clears it |
| `LiStore.LiFS.LoadLiFS` | LiFS.js:147-163 | the new state and answer are those of `LiOps.LoadLiFS` |
| `LiStore.LiFS.ResetLiFS` | LiFS.js:165-191 | the new state and answer are those of `LiOps.ResetLiFS` |
| `LiStore.LiFS.GetNamespace` | LiFS.js:501 | returns the database name without the `lif-s-` prefix |
| `LiStore.LiFS.IsReady` | LiFS.js:500 | returns the ready flag |
| `LiStore.LiFS.CreateItem` | LiFS.js:261-313 | the new state and answer are those of `LiOps.CreateItem` |
| `LiStore.LiFS.ReadFile` | LiFS.js:315-344 | the new state and answer are those of `LiOps.ReadFile` |
| `LiStore.LiFS.DeleteItem` | LiFS.js:346-416 | the collect and delete loops give the state and answer of `LiOps.DeleteItem` |
| `LiStore.LiFS.RenameItem` | LiFS.js:418-498 | the collect and move loops give the state and answer of `LiOps.RenameItem` |
| `LiStore.LiFS.ListContents` | LiFS.js:211-258 | the cursor loop gives the state and answer of `LiOps.ListContents` |
| `LiStore.LiFS.ItemExists` | LiFS.js:503-515 | the new state and answer are those of `LiOps.ItemExists` |
| `LiStore.LiFS.IsDirectory` | LiFS.js:193-209 | the new state and answer are those of `LiOps.IsDirectory` |
| `LiStore.LiFS.GetItemProperty` | LiFS.js:517-538 | the new state and answer are those of `LiOps.GetItemProperty` |
| `LiStore.LiFS.GetDirectorySize` | LiFS.js:542-571 | the cursor loop gives the state and total of `LiOps.DirectorySize` |
| `LiStore.LiFS.ProcessImportContent` | LiFS.js:689-714 | the put loop gives the state and answer of `LiOps.ProcessImportContent` |
| `LiLaws.ReportThenRead` | LiFS.js:37-41 | a reported error reads back as "LiFS Error in scope: message" and reading clears it |
| `LiLaws.LoadNamespace` | LiFS.js:147-163 | loading a non-blank name succeeds, opens `lif-s-name` with a `/` record, keeps existing records, and leaves other databases alone |
| `LiLaws.LoadBlank` | LiFS.js:150 | loading a blank name fails with its message and changes nothing else |
| `LiLaws.LoadTwice` | LiFS.js:147-163 | loading the same name again changes nothing |
| `LiLaws.ResetForgets` | LiFS.js:165-191 | reset deletes the current database and clears the namespace; a later `itemExists` answers false and reports that LiFS is not loaded |
| `LiLaws.ResetUnloaded` | LiFS.js:165-191 | resetting with no namespace fails and reports it |
| `LiLaws.PlainAppend` | LiFS.js:62-77 | appending a plain name to plain names keeps them plain |
| `LiLaws.ChildNormal` | LiFS.js:62-77 | a directory and its child built from names are both already normalised |
| `LiLaws.ChildBelow` | LiFS.js:211-271 | a child's parent path is the directory, and the child is the directory's prefix plus the name |
| `LiLaws.CreateRefused` | LiFS.js:261-313 | at `/` or with no namespace the answer is `false`; under a missing or non-directory parent an error is reported yet the answer is `true`; no database changes |
| `LiLaws.CreateEffect` | LiFS.js:261-313 | a successful create replaces whatever was at the path with a record holding the path, content (null for a directory), kind and size (content length, 0 for a directory), and keeps every other record |
| `LiLaws.ReadAfterCreate` | LiFS.js:315-344 | reading a created file gives its content |
| `LiLaws.ReadDirectory` | LiFS.js:315-344 | reading a directory reports an error and gives the empty string |
| `LiLaws.SizePropertyAfterCreate` | LiFS.js:517-540 | a created file's `size` property renders its content length |
| `LiLaws.TextOfCount` | LiFS.js:527-529 | a whole number renders as its decimal numeral |
| `LiLaws.PropertiesAfterCreate` | LiFS.js:517-538 | a created file's `content` and `path` properties read back as given |
| `LiLaws.PropertyOf` | LiFS.js:517-538 | a present property reads as its rendered text with no error |
| `LiLaws.ListAfterCreate` | LiFS.js:211-313 | after creating `dir/last`, `last` is listed in `dir` iff it is of the wanted kind |
| `LiLaws.ListedAfterPut` | LiFS.js:211-258 | adding one record under a directory changes its listing by exactly that name |
| `LiLaws.DeleteRefused` | LiFS.js:346-416 | deleting `/`, with no namespace or a missing item fails, reports an error and keeps the databases |
| `LiLaws.DeleteEffect` | LiFS.js:346-416 | after success exactly the item and, for a directory, everything below it are gone; other records are unchanged |
| `LiLaws.DeleteSparesSibling` | LiFS.js:367-374 | a sibling that merely shares the name as a prefix, such as `/a2` beside `/a`, survives |
| `LiLaws.ExistsAfterDelete` | LiFS.js:346-515 | after deleting a path, `itemExists` of any spelling of it is false |
| `LiLaws.RenameRefused` | LiFS.js:418-498 | renaming from or to `/` fails; the same path succeeds without change; an existing destination or missing source fails |
| `LiLaws.ShiftBelow` | LiFS.js:472-480 | a moved key lands at the destination or below it |
| `LiLaws.RenameEffect` | LiFS.js:418-498 | every moved record reappears at its shifted key with its path and mtime updated; outside the destination's subtree the unmoved records are kept and nothing else exists; inside it, an old record that no moved record lands on is kept, and no key appears that is neither old nor shifted |
| `LiLaws.RenamedShape` | LiFS.js:458-490 | the renamed table holds the shifted moved records and the unmoved records no shifted record overwrites, and no other key |
| `LiLaws.RenamedKeeps` | LiFS.js:458-490 | an unmoved record that no moved record lands on survives the rename unchanged |
| `LiLaws.RenamedKeys` | LiFS.js:458-490 | every key after the rename is an old key or the shifted key of a moved record |
| `LiLaws.RenameIntoItself` | LiFS.js:418-498 | renaming a directory to a path below itself succeeds, keeps the destination and removes the source |
| `LiLaws.ListExact` | LiFS.js:211-258 | `e` is listed iff `dir/e` is a record other than `dir`, `e` has no `/`, and it is of the wanted kind |
| `LiLaws.ListUnloaded` | LiFS.js:81-125 | listing with no namespace reports "LiFS not initialized" and gives nothing |
| `LiLaws.IsDirectoryUndefined` | LiFS.js:193-209 | on a loaded store `isDirectory` yields no value and records nothing |
| `LiLaws.SizeAfterCreate` | LiFS.js:542-571 | creating a new file at or below a directory adds the content length to its size |
| `LiLaws.SizeAfterCreateElsewhere` | LiFS.js:542-571 | creating a file elsewhere leaves a directory's size unchanged |
| `LiLaws.SizeOfOne` | LiFS.js:554-557 | a single file at or below the path contributes its numeric size |
| `LiLaws.ImportRefused` | LiFS.js:689-714 | empty, unparsable or non-array content, no namespace, or an item whose `path` is no valid key, fails, reports an error, and changes no records |
| `LiLaws.PutAllKeeps` | LiFS.js:700-709 | a key no item names is kept unchanged by the import |
| `LiLaws.PutAllLast` | LiFS.js:700-709 | the last item naming a path decides its record |
| `LiLaws.ImportEffect` | LiFS.js:689-714 | a successful import stores every item with a path, the record at a path being the fields of the last item naming it, keeps records no item names, and leaves the error alone |
| `LiLaws.LastNamingExists` | LiFS.js:700-709 | among items naming a path there is a last one |

## Left out

- I/O and the host: the Scratch block metadata (`getInfo`), `webin`, the
  locale tables and the LiFS UI are not modelled. Neither are
  `triggerImportVFS`, `exportVFS` (a file download) or `getAllItemPaths`.
  `getFileSize` is not modelled separately; it is `getItemProperty('size', …)`.
- Clocks: `Date.now()` and `toISOString()` are parameters, with one `now` per
  operation. The source reads the clock again per node in `_deepCopyNode`
  (`rxFS+.js:640`) and `_recursiveChmod` (`rxFS+.js:664`), twice in `rename`
  (`rxFS+.js:1423`, `rxFS+.js:1426`), twice in `newFsRoot`, and once per
  moved record in `renameItem` (`LiFS.js:475`); the model gives all those
  readings the same value.
- The LZ-String codec and `JSON.stringify`/`JSON.parse` are parameters
  (`pack`, `unpack`, `stringify`, `parse`). The round-trip laws assume they
  invert each other.
- Asynchrony: each LiFS operation, its IndexedDB transaction and
  `ensureRootDirectory` run here as one atomic step that completes. The
  operation queue is not modelled. In `LiFS.js:29-35` and `LiFS.js:81-82`,
  an operation already on the queue queues its transaction behind itself,
  and the model does not say whether such a chain ever settles. Without the
  queue, an error thrown in `executeTransaction` reaches the operation's own
  `catch`; in the source the `.catch` of `enqueueOperation`
  (`LiFS.js:30-33`) would swallow it and report it under the scope
  `enqueueOperation`. The unloaded and aborted answers of the model
  (`LiLaws.CreateRefused` false, `LiOps.IsDirectory` `Some(false)`,
  `LiLaws.ImportRefused` false) are therefore those of the program without
  the queue. Individual put and delete request errors (`onerror`) are not
  modelled; the one transaction abort the model has is the refused import
  key described under `LiOps.ProcessImportContent` below.
- Record keys: the model keys LiFS records by their normalised path and
  assumes a record's `path` field equals its key.
- `LiOps.ProcessImportContent`: `store.put(item)` (`LiFS.js:700-709`) takes
  the raw `path` as the key. A non-empty string is modelled. A non-zero
  number, or an array of numbers, strings and such arrays, is a valid
  IndexedDB key that the source stores as it is; the model's string-keyed
  table cannot hold it, so the model skips that item. Any other truthy
  `path` (`true`, an object, or an array holding one of these or `null`)
  makes `put` throw. The transaction then aborts, nothing is stored, and
  the model reports "Transaction aborted" and answers false, as the
  operation's own handler does. That is the final message only when no
  earlier item has already issued a `put`; otherwise the pending request's
  AbortError reaches `transaction.onerror` first (`LiFS.js:101-104`) and its
  message is the one reported, which the model does not distinguish.
- Order: `list` and `listContents` return sets. The order of the JSON array
  the source produces is not modelled.
- Numbers: JavaScript numbers are unbounded integers here. String lengths
  count characters, not UTF-16 code units.
- `LiOps.GetItemProperty`: arrays and objects are rendered through the
  `stringify` parameter (`LiFS.js:526-528`); `null`, booleans and numbers
  are rendered by the model itself, as `String(v)` does.
- `LiOps.DirectorySize`: the total is returned as a number; the `String(...)`
  conversion is not modelled.
- `RxOps.Import`: the source installs any parsed value that passes its shape
  check (`rxFS+.js:1628-1634`): `type` is `"directory"` and `children` is a
  non-null object. The model keeps typed trees only, so it installs a
  document only when it also decodes: every node must carry a type,
  numeric permissions and times, and string content or an object of
  children.
  A shape-valid document that does not decode, such as
  `{"type":"directory","children":{}}` without permissions or times, or one
  whose `children` is an array, is installed by the source with an empty
  error. The model rejects it with "Invalid FS data structure" and keeps
  the old tree.
- `RxLaws.ImportRejects`: states the model's acceptance rule above, not the
  source's shape-only rule.
- `RxStore.RxFS.In`: equals `RxOps.Import`, so it has the same gap.
- Object prototypes: keys such as `__proto__` in a directory's `children`
  are ordinary keys here.
- The `RxOps` functions carry only the root-shape invariant in their own
  contracts. Their effects are the `RxLaws` lemmas named in the table.
