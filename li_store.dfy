/**
 * The LiFS module state as an object: the databases the browser keeps, the
 * globals `vfsDBName`, `isVFSReady` and `lastError`, and one method per
 * exported function. The cursor scans and the countdown loops over the
 * collected paths are methods over a table, proved against LiOps.
 */
module LiStore {
  import opened Wrappers
  import opened Strings
  import opened JsonValues
  import opened LiPaths
  import opened LiOps

  /** A cursor scan collecting the paths that start with `prefix`. */
  method CollectPrefixed(t: Table, prefix: string) returns (found: set<string>)
    ensures found == set k | k in t && StartsWith(k, prefix)
  {
    var rest := t;
    found := {};
    while rest != map[]
      invariant rest.Keys <= t.Keys
      invariant found == set k | k in t && k !in rest && StartsWith(k, prefix)
      decreases rest.Keys
    {
      var k :| k in rest;
      if StartsWith(k, prefix) {
        found := found + {k};
      }
      rest := rest - {k};
    }
  }

  /** The collecting transaction of `deleteItem`: the directory's descendants, then the path itself. */
  method CollectDoomed(t: Table, norm: string) returns (doomed: set<string>)
    requires norm in t
    ensures doomed == Doomed(t, norm)
  {
    if IsDir(t[norm]) {
      doomed := CollectPrefixed(t, Below(norm));
      doomed := doomed + {norm};
    } else {
      doomed := {norm};
    }
  }

  /** The collecting transaction of `renameItem`: the descendants, and the old record when missed. */
  method CollectMoved(t: Table, src: string) returns (moved: set<string>)
    requires src in t
    ensures moved == Moved(t, src)
  {
    moved := CollectPrefixed(t, src + "/");
    if src !in moved {
      moved := moved + {src};
    }
  }

  /** The deleting transaction: one delete per collected path, counted down. */
  method DeleteAll(t: Table, paths: set<string>) returns (t': Table)
    ensures t' == t - paths
  {
    t' := t;
    var remaining := paths;
    while remaining != {}
      invariant remaining <= paths
      invariant t' == t - (paths - remaining)
      decreases remaining
    {
      var p :| p in remaining;
      t' := t' - {p};
      remaining := remaining - {p};
    }
  }

  /** The records of the collected paths in `done`, put under their new paths. */
  function ShiftedOf(t: Table, done: set<string>, src: string, dst: string, now: string): Table
    requires done <= Moved(t, src)
  {
    ShiftInjective(t, src, dst);
    map k | k in done :: Shift(k, src, dst) := Retarget(t[k], Shift(k, src, dst), now)
  }

  /** Putting one more shifted record. */
  lemma ShiftedStep(t: Table, done: set<string>, k: string, src: string, dst: string, now: string)
    requires done <= Moved(t, src) && k in Moved(t, src)
    ensures ShiftedOf(t, done + {k}, src, dst, now)
         == ShiftedOf(t, done, src, dst, now)[Shift(k, src, dst) := Retarget(t[k], Shift(k, src, dst), now)]
  {
    ShiftInjective(t, src, dst);
  }

  /** Putting into a merged table is putting into its right operand. */
  lemma MergeUpdate(base: Table, x: Table, a: string, v: Record)
    ensures base + x[a := v] == (base + x)[a := v]
  {
  }

  /** The put loop of `renameItem`: one put per collected path, under its new path. */
  method PutShifted(base: Table, t: Table, moved: set<string>, src: string, dst: string, now: string) returns (t': Table)
    requires moved == Moved(t, src)
    ensures t' == base + ShiftedOf(t, moved, src, dst, now)
  {
    t' := base;
    var done: set<string> := {};
    while moved - done != {}
      invariant done <= moved
      invariant t' == base + ShiftedOf(t, done, src, dst, now)
      decreases moved - done
    {
      var k :| k in moved - done;
      ShiftedStep(t, done, k, src, dst, now);
      MergeUpdate(base, ShiftedOf(t, done, src, dst, now), Shift(k, src, dst), Retarget(t[k], Shift(k, src, dst), now));
      t' := t'[Shift(k, src, dst) := Retarget(t[k], Shift(k, src, dst), now)];
      done := done + {k};
    }
    assert done == moved;
  }

  /** All collected records shifted: the put half of `Renamed`. */
  lemma ShiftedAll(t: Table, src: string, dst: string, now: string)
    ensures ShiftedOf(t, Moved(t, src), src, dst, now) == Shifted(t, src, dst, now)
  {
    var a, b := ShiftedOf(t, Moved(t, src), src, dst, now), Shifted(t, src, dst, now);
    ShiftInjective(t, src, dst);
    assert a.Keys == b.Keys;
    forall q | q in a
      ensures a[q] == b[q]
    {
      var k :| k in Moved(t, src) && Shift(k, src, dst) == q;
    }
  }

  /** The writing transaction of `renameItem`: every delete is issued before any put. */
  method MoveAll(t: Table, moved: set<string>, src: string, dst: string, now: string) returns (t': Table)
    requires moved == Moved(t, src)
    ensures t' == Renamed(t, src, dst, now)
  {
    var cleared := DeleteAll(t, moved);
    t' := PutShifted(cleared, t, moved, src, dst, now);
    ShiftedAll(t, src, dst, now);
  }

  /** The cursor scan of `listContents`. */
  method ListScan(t: Table, norm: string, kind: string) returns (names: set<string>)
    ensures names == set k | k in t && Listed(t, norm, kind, k) :: k[|Below(norm)|..]
  {
    var rest := t;
    names := {};
    while rest != map[]
      invariant rest.Keys <= t.Keys && forall k | k in rest :: rest[k] == t[k]
      invariant names == set k | k in t && k !in rest && Listed(t, norm, kind, k) :: k[|Below(norm)|..]
      decreases rest.Keys
    {
      var k :| k in rest;
      if Listed(t, norm, kind, k) {
        names := names + {k[|Below(norm)|..]};
      }
      rest := rest - {k};
    }
  }

  /** Taking one record out of a size sum. */
  lemma {:induction false} SizeSumRemove(t: Table, norm: string, k: string)
    requires k in t
    ensures SizeSum(t, norm) == SizeOf(norm, k, t[k]) + SizeSum(t - {k}, norm)
    decreases |t|
  {
    var j :| j in t && SizeSum(t, norm) == SizeOf(norm, j, t[j]) + SizeSum(t - {j}, norm);
    if j != k {
      assert (t - {j}).Keys == t.Keys - {j};
      assert (t - {k}).Keys == t.Keys - {k};
      SizeSumRemove(t - {j}, norm, k);
      SizeSumRemove(t - {k}, norm, j);
      assert t - {j} - {k} == t - {k} - {j};
    }
  }

  /** The cursor scan of `getDirectorySize`: a running total. */
  method SizeScan(t: Table, norm: string) returns (total: int)
    ensures total == SizeSum(t, norm)
  {
    var rest := t;
    total := 0;
    while rest != map[]
      invariant forall k | k in rest :: k in t && rest[k] == t[k]
      invariant total + SizeSum(rest, norm) == SizeSum(t, norm)
      decreases |rest|
    {
      var k :| k in rest;
      SizeSumRemove(rest, norm, k);
      assert (rest - {k}).Keys == rest.Keys - {k};
      total := total + SizeOf(norm, k, rest[k]);
      rest := rest - {k};
    }
  }

  /** The put loop of `processImportContent`; it stops at the first item whose `put` throws. */
  method PutItems(t: Table, items: seq<Json>) returns (t': Table, refused: bool)
    ensures refused == AnyRefused(items)
    ensures !refused ==> t' == PutAll(t, items)
  {
    t' := t;
    var i := 0;
    while i < |items|
      invariant 0 <= i <= |items|
      invariant t' == PutAll(t, items[..i])
      invariant forall j | 0 <= j < i :: !Refused(items[j])
    {
      var item := items[i];
      if Refused(item) {
        return t', true;
      }
      assert items[..i + 1][..i] == items[..i];
      var p := ItemPath(item);
      if p.Some? {
        t' := t'[p.value := item.fields];
      }
      i := i + 1;
    }
    assert items[..i] == items;
    refused := false;
  }

  /** The extension's globals and the browser's databases. */
  class LiFS {
    var dbs: map<string, Table>
    var name: string
    var ready: bool
    var lastError: string

    function State(): Store
      reads this
    {
      Store(dbs, name, ready, lastError)
    }

    /** The extension starts with no namespace loaded and no message. */
    constructor(browser: map<string, Table>)
      ensures State() == Store(browser, "", false, "")
    {
      dbs, name, ready, lastError := browser, "", false, "";
    }

    method ReportError(message: string, scope: string)
      modifies this
      ensures State() == Report(old(State()), message, scope)
    {
      lastError := "LiFS Error in " + scope + ": " + message;
    }

    method GetLastError() returns (e: string)
      modifies this
      ensures Reply(State(), e) == LiOps.GetLastError(old(State()))
    {
      e := lastError;
      lastError := "";
    }

    method LoadLiFS(ns: string, now: string) returns (ok: bool)
      modifies this
      ensures Reply(State(), ok) == LiOps.LoadLiFS(old(State()), ns, now)
    {
      if Blank(ns) {
        ReportError("Namespace cannot be empty. Please provide a unique ID.", "loadLiFS");
        return false;
      }
      name := DbPrefix + ns;
      ready := true;
      var t := if name in dbs then dbs[name] else map[];
      if "/" !in t {
        t := t["/" := RootRecord(now)];
      }
      dbs := dbs[name := t];
      return true;
    }

    method ResetLiFS() returns (ok: bool)
      modifies this
      ensures Reply(State(), ok) == LiOps.ResetLiFS(old(State()))
    {
      if name == "" {
        ReportError(NotLoaded, "resetLiFS");
        return false;
      }
      dbs := dbs - {name};
      lastError, name, ready := "", "", false;
      return true;
    }

    method GetNamespace() returns (ns: string)
      ensures ns == Namespace(State())
    {
      ns := if name == "" then "" else ReplaceFirst(name, DbPrefix, "");
    }

    method IsReady() returns (r: bool)
      ensures r == ready
    {
      r := ready;
    }

    method CreateItem(path: string, content: string, isDirectory: bool, now: string) returns (ok: bool)
      modifies this
      ensures Reply(State(), ok) == LiOps.CreateItem(old(State()), path, content, isDirectory, now)
    {
      var r := LiOps.CreateItem(State(), path, content, isDirectory, now);
      dbs, name, ready, lastError := r.store.dbs, r.store.name, r.store.ready, r.store.lastError;
      ok := r.value;
    }

    method ReadFile(path: string) returns (content: Json)
      modifies this
      ensures Reply(State(), content) == LiOps.ReadFile(old(State()), path)
    {
      var r := LiOps.ReadFile(State(), path);
      lastError := r.store.lastError;
      content := r.value;
    }

    /** `deleteItem`: collect, then delete every collected path. */
    method DeleteItem(path: string) returns (ok: bool)
      modifies this
      ensures Reply(State(), ok) == LiOps.DeleteItem(old(State()), path)
    {
      var norm := NormalizePath(path);
      if norm == "/" {
        ReportError("Cannot delete the root directory.", "deleteItem");
        return false;
      }
      if name == "" {
        ReportError("LiFS not initialized", "deleteItem");
        return false;
      }
      var t := Current(State());
      if norm !in t {
        ReportError("Item not found at '" + norm + "'", "deleteItem");
        return false;
      }
      var doomed := CollectDoomed(t, norm);
      t := DeleteAll(t, doomed);
      dbs := dbs[name := t];
      return true;
    }

    /** `renameItem`: collect, check the destination, then delete and put. */
    method RenameItem(oldPath: string, newPath: string, now: string) returns (ok: bool)
      modifies this
      ensures Reply(State(), ok) == LiOps.RenameItem(old(State()), oldPath, newPath, now)
    {
      var src, dst := NormalizePath(oldPath), NormalizePath(newPath);
      if src == "/" || dst == "/" {
        ReportError("Cannot rename or move the root directory.", "renameItem");
        return false;
      }
      if src == dst {
        return true;
      }
      if name == "" {
        ReportError("LiFS not initialized", "renameItem");
        return false;
      }
      var t := Current(State());
      if src !in t {
        ReportError("Item not found at '" + src + "'", "renameItem");
        return false;
      }
      var moved := CollectMoved(t, src);
      if dst in t {
        ReportError("Destination item already exists at '" + dst + "'", "renameItem");
        return false;
      }
      t := MoveAll(t, moved, src, dst, now);
      dbs := dbs[name := t];
      return true;
    }

    method ListContents(path: string, kind: string) returns (names: set<string>)
      modifies this
      ensures Reply(State(), names) == LiOps.ListContents(old(State()), path, kind)
    {
      if name == "" {
        ReportError("LiFS not initialized", "listContents");
        return {};
      }
      names := ListScan(Current(State()), NormalizePath(path), kind);
    }

    method ItemExists(path: string) returns (b: bool)
      modifies this
      ensures Reply(State(), b) == LiOps.ItemExists(old(State()), path)
    {
      if name == "" {
        ReportError(NotLoaded, "itemExists");
        return false;
      }
      b := NormalizePath(path) in Current(State());
    }

    method IsDirectory(path: string) returns (r: Option<bool>)
      modifies this
      ensures Reply(State(), r) == LiOps.IsDirectory(old(State()), path)
    {
      if name == "" {
        ReportError(NotLoaded, "isDirectory");
        return Some(false);
      }
      return None;
    }

    method GetItemProperty(property: string, path: string, stringify: Json -> string) returns (v: string)
      modifies this
      ensures Reply(State(), v) == LiOps.GetItemProperty(old(State()), property, path, stringify)
    {
      var r := LiOps.GetItemProperty(State(), property, path, stringify);
      lastError := r.store.lastError;
      v := r.value;
    }

    method GetDirectorySize(path: string) returns (size: int)
      modifies this
      ensures Reply(State(), size) == DirectorySize(old(State()), path)
    {
      if name == "" {
        ReportError("LiFS not initialized", "getDirectorySize");
        return 0;
      }
      size := SizeScan(Current(State()), NormalizePath(path));
    }

    method ProcessImportContent(content: string, parse: string -> Result<Json, string>) returns (ok: bool)
      modifies this
      ensures Reply(State(), ok) == LiOps.ProcessImportContent(old(State()), content, parse)
    {
      var scope := "processImportContent";
      if content == "" {
        ReportError("Import content is empty or not a string.", scope);
        return false;
      }
      var doc := parse(content);
      if doc.Err? {
        ReportError("Failed to parse import JSON: " + doc.error, scope);
        return false;
      }
      if !doc.value.JArr? {
        ReportError("Import content is not a valid LiFS array.", scope);
        return false;
      }
      if name == "" {
        ReportError("LiFS namespace was lost/not set. Please call 'load LiFS namespace' first.", scope);
        return false;
      }
      var t, refused := PutItems(Current(State()), doc.value.items);
      if refused {
        ReportError("Transaction aborted", scope);
        return false;
      }
      dbs := dbs[name := t];
      return true;
    }
  }
}
