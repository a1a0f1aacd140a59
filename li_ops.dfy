/**
 * The operations of the LiFS record store as functions of the module state:
 * the databases by name (each a table of records keyed by path), the loaded
 * database name `vfsDBName`, the `isVFSReady` flag and `lastError`. Every
 * operation runs as one atomic step in call order; the cursor scans are
 * written as set and map comprehensions here and as loops in LiStore.
 */
module LiOps {
  import opened Wrappers
  import opened Strings
  import opened JsonValues
  import opened LiPaths

  /** A stored object: its properties by name, `path` among them. */
  type Record = map<string, Json>

  /** One object store: records keyed by their `path`. */
  type Table = map<string, Record>

  /** The module globals and the databases the browser keeps. */
  datatype Store = Store(dbs: map<string, Table>, name: string, ready: bool, lastError: string)

  /** The new state and the value an operation returns. */
  datatype Reply<T> = Reply(store: Store, value: T)

  /** Database names are this prefix followed by the namespace. */
  const DbPrefix := "lif-s-"

  const NotLoaded := "LiFS not loaded. Call 'load LiFS namespace' first."

  /** The table of the loaded database; a database never written to is empty. */
  function Current(s: Store): Table
  {
    if s.name in s.dbs then s.dbs[s.name] else map[]
  }

  function WithTable(s: Store, t: Table): Store
  {
    s.(dbs := s.dbs[s.name := t])
  }

  /** `reportError(message, scope)`. */
  function Report(s: Store, message: string, scope: string): Store
  {
    s.(lastError := "LiFS Error in " + scope + ": " + message)
  }

  /**
   * A transaction without a loaded database: `executeTransaction` reports and
   * throws, and the operation's own handler reports the thrown message.
   */
  function Unloaded(s: Store, scope: string): Store
  {
    Report(s, "LiFS not initialized", scope)
  }

  /** `getLastError`: the message, which is cleared by reading it. */
  function GetLastError(s: Store): Reply<string>
  {
    Reply(s.(lastError := ""), s.lastError)
  }

  /** The root record `ensureRootDirectory` puts. */
  function RootRecord(now: string): Record
  {
    map["path" := JStr("/"), "isDirectory" := JBool(true), "createdAt" := JStr(now),
        "modifiedAt" := JStr(now), "content" := JNull, "size" := JNum(0)]
  }

  /** `ensureRootDirectory`: puts the root record when there is none. */
  function EnsureRoot(t: Table, now: string): Table
  {
    if "/" in t then t else t["/" := RootRecord(now)]
  }

  /** `loadLiFS`: selects the database of the namespace and ensures its root record. */
  function LoadLiFS(s: Store, name: string, now: string): Reply<bool>
  {
    if Blank(name) then Reply(Report(s, "Namespace cannot be empty. Please provide a unique ID.", "loadLiFS"), false)
    else
      var s' := s.(name := DbPrefix + name, ready := true);
      Reply(WithTable(s', EnsureRoot(Current(s'), now)), true)
  }

  /** `resetLiFS`: deletes the loaded database and forgets it. */
  function ResetLiFS(s: Store): Reply<bool>
  {
    if s.name == "" then Reply(Report(s, NotLoaded, "resetLiFS"), false)
    else Reply(Store(s.dbs - {s.name}, "", false, ""), true)
  }

  /** `s.replace(p, r)` for a string pattern: only the first occurrence. */
  function ReplaceFirst(s: string, p: string, r: string): string
    requires p != ""
  {
    if StartsWith(s, p) then r + s[|p|..]
    else if s == [] then s
    else [s[0]] + ReplaceFirst(s[1..], p, r)
  }

  /** `getLiFSNamespace`. */
  function Namespace(s: Store): string
  {
    if s.name == "" then "" else ReplaceFirst(s.name, DbPrefix, "")
  }

  /** `!!item.isDirectory`. */
  predicate IsDir(r: Record)
  {
    "isDirectory" in r && Truthy(r["isDirectory"])
  }

  /** The prefix the cursor scans test for: the path and a '/'. */
  function Below(path: string): string
  {
    if path == "/" then "/" else path + "/"
  }

  /** The record `createItem` puts. */
  function NewItem(path: string, content: string, isDirectory: bool, now: string): Record
  {
    map["path" := JStr(path), "isDirectory" := JBool(isDirectory),
        "permissions" := JObj(map["read" := JStr("all"), "write" := JStr("owner"),
                                  "delete" := JStr("owner"), "create" := JStr("owner")]),
        "createdAt" := JStr(now), "modifiedAt" := JStr(now),
        "content" := if isDirectory then JNull else JStr(content),
        "size" := JNum(if isDirectory then 0 else |content|)]
  }

  /**
   * `createItem`: puts one record below an existing directory (anything
   * under the root). A failed parent check is reported, yet `true` is
   * returned, since only the transaction's inner promise sees it.
   */
  function CreateItem(s: Store, path: string, content: string, isDirectory: bool, now: string): Reply<bool>
  {
    CreateAt(s, NormalizePath(path), content, isDirectory, now)
  }

  /** `createItem` once the path is normalised. */
  function CreateAt(s: Store, norm: string, content: string, isDirectory: bool, now: string): Reply<bool>
  {
    if norm == "/" then Reply(Report(s, "Cannot create/modify the root directory.", "createItem"), false)
    else if s.name == "" then Reply(Unloaded(s, "createItem"), false)
    else
      var t, parent := Current(s), ParentPath(norm);
      if parent != "/" && (parent !in t || !IsDir(t[parent])) then
        Reply(Report(s, "Parent directory '" + parent + "' does not exist or is not a directory.", "createItem"), true)
      else Reply(WithTable(s, t[norm := NewItem(norm, content, isDirectory, now)]), true)
  }

  /** `readFile`: `item.content || ''` of a file record. */
  function ReadFile(s: Store, path: string): Reply<Json>
  {
    ReadAt(s, NormalizePath(path))
  }

  /** `readFile` once the path is normalised. */
  function ReadAt(s: Store, norm: string): Reply<Json>
  {
    var t := Current(s);
    if s.name == "" then Reply(Unloaded(s, "readFile"), JStr(""))
    else if norm !in t then Reply(Report(s, "File not found at '" + norm + "'", "readFile"), JStr(""))
    else if IsDir(t[norm]) then Reply(Report(s, "Cannot read, '" + norm + "' is a directory", "readFile"), JStr(""))
    else if "content" in t[norm] && Truthy(t[norm]["content"]) then Reply(s, t[norm]["content"])
    else Reply(s, JStr(""))
  }

  /** The paths `deleteItem` collects: below a directory record, then the record itself. */
  function Doomed(t: Table, norm: string): set<string>
    requires norm in t
  {
    if IsDir(t[norm]) then (set k | k in t && StartsWith(k, Below(norm))) + {norm} else {norm}
  }

  /** `deleteItem`. */
  function DeleteItem(s: Store, path: string): Reply<bool>
  {
    DeleteAt(s, NormalizePath(path))
  }

  /** `deleteItem` once the path is normalised. */
  function DeleteAt(s: Store, norm: string): Reply<bool>
  {
    var t := Current(s);
    if norm == "/" then Reply(Report(s, "Cannot delete the root directory.", "deleteItem"), false)
    else if s.name == "" then Reply(Unloaded(s, "deleteItem"), false)
    else if norm !in t then Reply(Report(s, "Item not found at '" + norm + "'", "deleteItem"), false)
    else Reply(WithTable(s, t - Doomed(t, norm)), true)
  }

  /** The paths `renameItem` collects: everything below `src`, and `src` itself. */
  function Moved(t: Table, src: string): set<string>
  {
    set k | k in t && (k == src || StartsWith(k, src + "/"))
  }

  /** `newPath + path.substring(oldPath.length)`. */
  function Shift(k: string, src: string, dst: string): string
    requires |src| <= |k|
  {
    dst + k[|src|..]
  }

  /** `Object.assign({}, item, { path, modifiedAt: now })`. */
  function Retarget(r: Record, path: string, now: string): Record
  {
    r["path" := JStr(path)]["modifiedAt" := JStr(now)]
  }

  /** Two collected paths shifted to the same new path were the same path. */
  lemma ShiftInjective(t: Table, src: string, dst: string)
    ensures forall a, b | a in Moved(t, src) && b in Moved(t, src) && Shift(a, src, dst) == Shift(b, src, dst) :: a == b
  {
    forall a, b | a in Moved(t, src) && b in Moved(t, src) && Shift(a, src, dst) == Shift(b, src, dst)
      ensures a == b
    {
      assert a[|src|..] == Shift(a, src, dst)[|dst|..];
      assert b[|src|..] == Shift(b, src, dst)[|dst|..];
      assert a == src + a[|src|..] && b == src + b[|src|..];
    }
  }

  /** The records put by `renameItem`, by their new paths. */
  function Shifted(t: Table, src: string, dst: string, now: string): Table
  {
    ShiftInjective(t, src, dst);
    map k | k in Moved(t, src) :: Shift(k, src, dst) := Retarget(t[k], Shift(k, src, dst), now)
  }

  /** The table after `renameItem`: every collected record deleted, then every shifted record put. */
  function Renamed(t: Table, src: string, dst: string, now: string): Table
  {
    (t - Moved(t, src)) + Shifted(t, src, dst, now)
  }

  /**
   * `renameItem`: moves a record and everything below it; there is no check
   * that the new path lies outside the old one.
   */
  function RenameItem(s: Store, oldPath: string, newPath: string, now: string): Reply<bool>
  {
    RenameAt(s, NormalizePath(oldPath), NormalizePath(newPath), now)
  }

  /** `renameItem` once both paths are normalised. */
  function RenameAt(s: Store, src: string, dst: string, now: string): Reply<bool>
  {
    var t := Current(s);
    if src == "/" || dst == "/" then Reply(Report(s, "Cannot rename or move the root directory.", "renameItem"), false)
    else if src == dst then Reply(s, true)
    else if s.name == "" then Reply(Unloaded(s, "renameItem"), false)
    else if src !in t then Reply(Report(s, "Item not found at '" + src + "'", "renameItem"), false)
    else if dst in t then Reply(Report(s, "Destination item already exists at '" + dst + "'", "renameItem"), false)
    else Reply(WithTable(s, Renamed(t, src, dst, now)), true)
  }

  /** The filter of `listContents`: 'all', 'files' or 'directories'. */
  predicate Kind(kind: string, r: Record)
  {
    kind == "all" || (kind == "files" && !IsDir(r)) || (kind == "directories" && IsDir(r))
  }

  /** A record `listContents(norm, kind)` reports: one name below `norm`, of the wanted kind. */
  predicate Listed(t: Table, norm: string, kind: string, k: string)
    requires k in t
  {
    k != norm && StartsWith(k, Below(norm)) && '/' !in k[|Below(norm)|..] && Kind(kind, t[k])
  }

  /** `listContents`: the names of the direct children, relative to the listed path. */
  function ListContents(s: Store, path: string, kind: string): Reply<set<string>>
  {
    ListAt(s, NormalizePath(path), kind)
  }

  /** `listContents` once the path is normalised. */
  function ListAt(s: Store, norm: string, kind: string): Reply<set<string>>
  {
    var t := Current(s);
    if s.name == "" then Reply(Unloaded(s, "listContents"), {})
    else Reply(s, set k | k in t && Listed(t, norm, kind, k) :: k[|Below(norm)|..])
  }

  /** `itemExists`. */
  function ItemExists(s: Store, path: string): Reply<bool>
  {
    if s.name == "" then Reply(Report(s, NotLoaded, "itemExists"), false)
    else Reply(s, NormalizePath(path) in Current(s))
  }

  /**
   * `isDirectory`: the lookup's answer is resolved inside the transaction and
   * never returned, so the block reports `undefined` (None), or `false` when
   * no database is loaded.
   */
  function IsDirectory(s: Store, path: string): Reply<Option<bool>>
  {
    if s.name == "" then Reply(Report(s, NotLoaded, "isDirectory"), Some(false))
    else Reply(s, None)
  }

  /** `String(v)` of a property that is not an object, JSON text of one that is. */
  function Text(v: Json, stringify: Json -> string): string
  {
    match v
    case JNull => "null"
    case JBool(b) => if b then "true" else "false"
    case JNum(n) => if n < 0 then "-" + Numeral(-n, 10) else Numeral(n, 10)
    case JStr(str) => str
    case _ => stringify(v)
  }

  /** `getItemProperty`: the property as text, '' when it or the record is missing. */
  function GetItemProperty(s: Store, property: string, path: string, stringify: Json -> string): Reply<string>
  {
    PropertyAt(s, property, NormalizePath(path), stringify)
  }

  /** `getItemProperty` once the path is normalised. */
  function PropertyAt(s: Store, property: string, norm: string, stringify: Json -> string): Reply<string>
  {
    var t := Current(s);
    if s.name == "" then Reply(Report(s, NotLoaded, "getItemProperty"), "")
    else if norm in t && property in t[norm] then Reply(s, Text(t[norm][property], stringify))
    else Reply(Report(s, "Property '" + property + "' not found for item at '" + norm + "' or item not found.", "getItemProperty"), "")
  }

  /** What one record adds to `getDirectorySize(norm)`: the numeric size of a non-directory at or below `norm`. */
  function SizeOf(norm: string, k: string, r: Record): int
  {
    if (k == norm || StartsWith(k, Below(norm))) && !IsDir(r) && "size" in r && r["size"].JNum? then r["size"].n
    else 0
  }

  /** The sum of `SizeOf` over a table. */
  ghost function SizeSum(t: Table, norm: string): int
    decreases |t|
  {
    if t == map[] then 0
    else
      var k :| k in t;
      SizeOf(norm, k, t[k]) + SizeSum(t - {k}, norm)
  }

  /** `getDirectorySize`. */
  ghost function DirectorySize(s: Store, path: string): Reply<int>
  {
    SizeAt(s, NormalizePath(path))
  }

  /** `getDirectorySize` once the path is normalised. */
  ghost function SizeAt(s: Store, norm: string): Reply<int>
  {
    if s.name == "" then Reply(Unloaded(s, "getDirectorySize"), 0)
    else Reply(s, SizeSum(Current(s), norm))
  }

  /** The path an imported item is stored under, when it has one. */
  function ItemPath(item: Json): Option<string>
  {
    if item.JObj? && "path" in item.fields && item.fields["path"].JStr? && item.fields["path"].s != "" then
      Some(item.fields["path"].s)
    else None
  }

  /** A value IndexedDB accepts as a key: a number, a string, or an array of keys. */
  predicate ValidKey(j: Json)
  {
    match j
    case JNum(_) => true
    case JStr(_) => true
    case JArr(items) => forall i | 0 <= i < |items| :: ValidKey(items[i])
    case _ => false
  }

  /** An item whose truthy `path` is no valid key, so that `store.put(item)` throws. */
  predicate Refused(item: Json)
  {
    item.JObj? && "path" in item.fields && Truthy(item.fields["path"]) && !ValidKey(item.fields["path"])
  }

  /** Some item makes `put` throw, which aborts the whole import transaction. */
  predicate AnyRefused(items: seq<Json>)
  {
    exists i | 0 <= i < |items| :: Refused(items[i])
  }

  /** The table after putting the items one after the other; items without a path are skipped. */
  function PutAll(t: Table, items: seq<Json>): Table
    decreases |items|
  {
    if items == [] then t
    else
      var t' := PutAll(t, items[..|items| - 1]);
      var item := items[|items| - 1];
      match ItemPath(item)
      case None => t'
      case Some(p) => t'[p := item.fields]
  }

  /** `processImportContent`, with `JSON.parse` as a parameter. */
  function ProcessImportContent(s: Store, content: string, parse: string -> Result<Json, string>): Reply<bool>
  {
    var scope := "processImportContent";
    if content == "" then Reply(Report(s, "Import content is empty or not a string.", scope), false)
    else match parse(content)
      case Err(e) => Reply(Report(s, "Failed to parse import JSON: " + e, scope), false)
      case Ok(doc) =>
        if !doc.JArr? then Reply(Report(s, "Import content is not a valid LiFS array.", scope), false)
        else if s.name == "" then
          Reply(Report(s, "LiFS namespace was lost/not set. Please call 'load LiFS namespace' first.", scope), false)
        else if AnyRefused(doc.items) then Reply(Report(s, "Transaction aborted", scope), false)
        else Reply(WithTable(s, PutAll(Current(s), doc.items)), true)
  }
}
