/**
 * Properties of the LiFS record store: what each operation does to the
 * loaded table and to the module globals, its error paths, and how the
 * operations relate to each other (a created item is listed, read back and
 * counted; a deleted one no longer exists; imports keep unmentioned records).
 */
module LiLaws {
  import opened Wrappers
  import opened Strings
  import opened JsonValues
  import opened LiPaths
  import opened LiOps
  import opened LiStore

  // ---------------------------------------------------------------------
  // Module state: the namespace, reset and the last error
  // ---------------------------------------------------------------------

  /** Reading the last error returns the message `reportError` recorded, and a second read returns "". */
  lemma ReportThenRead(s: Store, message: string, scope: string)
    ensures var first := LiOps.GetLastError(Report(s, message, scope));
      && first.value == "LiFS Error in " + scope + ": " + message
      && LiOps.GetLastError(first.store).value == ""
      && first.store.dbs == s.dbs && first.store.name == s.name
  {
  }

  /** Loading a namespace names the database after it, marks the store ready and puts the root directory. */
  lemma {:induction false} LoadNamespace(s: Store, name: string, now: string)
    requires !Blank(name)
    ensures var r := LiOps.LoadLiFS(s, name, now);
      && r.value && r.store.ready && r.store.name == DbPrefix + name
      && Namespace(r.store) == name
      && "/" in Current(r.store)
      && ("/" !in Current(s.(name := DbPrefix + name)) ==> Current(r.store)["/"] == RootRecord(now))
      && (forall p | p in Current(s.(name := DbPrefix + name)) :: p in Current(r.store) && Current(r.store)[p] == Current(s.(name := DbPrefix + name))[p])
      && r.store.dbs - {r.store.name} == s.dbs - {r.store.name}
  {
    var r := LiOps.LoadLiFS(s, name, now);
    assert StartsWith(DbPrefix + name, DbPrefix);
    assert (DbPrefix + name)[|DbPrefix|..] == name;
    assert Namespace(r.store) == "" + name;
  }

  /** A blank namespace is refused, and nothing but the message changes. */
  lemma LoadBlank(s: Store, name: string, now: string)
    requires Blank(name)
    ensures var r := LiOps.LoadLiFS(s, name, now);
      && !r.value && r.store == Report(s, "Namespace cannot be empty. Please provide a unique ID.", "loadLiFS")
  {
  }

  /** Loading the same namespace again changes nothing: the root record is kept. */
  lemma LoadTwice(s: Store, name: string, now: string, later: string)
    requires !Blank(name)
    ensures var first := LiOps.LoadLiFS(s, name, now).store;
      LiOps.LoadLiFS(first, name, later) == Reply(first, true)
  {
  }

  /** Resetting drops the loaded database and leaves the store unloaded: later operations report it. */
  lemma ResetForgets(s: Store, path: string)
    requires s.name != ""
    ensures var r := LiOps.ResetLiFS(s);
      && r.value && !r.store.ready && Namespace(r.store) == ""
      && r.store.dbs == s.dbs - {s.name}
      && LiOps.ItemExists(r.store, path) == Reply(Report(r.store, NotLoaded, "itemExists"), false)
  {
  }

  /** Resetting without a loaded namespace is refused. */
  lemma ResetUnloaded(s: Store)
    requires s.name == ""
    ensures LiOps.ResetLiFS(s) == Reply(Report(s, NotLoaded, "resetLiFS"), false)
  {
  }

  // ---------------------------------------------------------------------
  // Paths built from names
  // ---------------------------------------------------------------------

  lemma PlainAppend(init: seq<string>, last: string)
    requires PlainNames(init) && PlainName(last)
    ensures PlainNames(init + [last])
  {
    forall i | 0 <= i < |init + [last]| ensures PlainName((init + [last])[i]) {
      if i < |init| {
        assert (init + [last])[i] == init[i];
      }
    }
  }

  /** The directory of the names `init` and its child `last` are normalised paths. */
  lemma ChildNormal(init: seq<string>, last: string)
    requires PlainNames(init) && PlainName(last)
    ensures NormalizePath("/" + Join(init, '/')) == "/" + Join(init, '/')
    ensures NormalizePath("/" + Join(init + [last], '/')) == "/" + Join(init + [last], '/')
  {
    PlainAppend(init, last);
    NormalizeNames(init);
    NormalizeNames(init + [last]);
  }

  /**
   * The path of the child `last` of the directory of the names `init` is the
   * directory's listing prefix followed by the name, and its parent is the
   * directory.
   */
  lemma ChildBelow(init: seq<string>, last: string)
    requires PlainNames(init) && PlainName(last)
    ensures var dir, child := "/" + Join(init, '/'), "/" + Join(init + [last], '/');
      && ParentPath(child) == dir
      && child == Below(dir) + last && child != dir
  {
    var dir, child := "/" + Join(init, '/'), "/" + Join(init + [last], '/');
    ParentOfNames(init, last);
    if init == [] {
      assert init + [last] == [last];
    } else {
      assert RxPaths.CleanNames(init);
      RxPaths.JoinShape(init);
      JoinAppend(init, [last], '/');
      assert Join([last], '/') == last;
      assert child == dir + "/" + last;
    }
  }

  // ---------------------------------------------------------------------
  // createItem and what the other operations then see
  // ---------------------------------------------------------------------

  /** The conditions under which `createItem` puts a record at the normalised path `norm`. */
  predicate CreatesAt(s: Store, norm: string)
  {
    norm != "/" && s.name != "" &&
    (ParentPath(norm) == "/" || (ParentPath(norm) in Current(s) && IsDir(Current(s)[ParentPath(norm)])))
  }

  /**
   * `createItem` refuses the root and an unloaded store with `false`, and
   * reports a missing parent yet returns `true`; none of them changes a table.
   */
  lemma CreateRefused(s: Store, norm: string, content: string, isDirectory: bool, now: string)
    requires !CreatesAt(s, norm)
    ensures var r := CreateAt(s, norm, content, isDirectory, now);
      && r.store.dbs == s.dbs && r.store.name == s.name && r.store.ready == s.ready
      && (r.value <==> norm != "/" && s.name != "")
      && r.store.lastError != ""
  {
    var r := CreateAt(s, norm, content, isDirectory, now);
    var message: string;
    if norm == "/" {
      message := "Cannot create/modify the root directory.";
    } else if s.name == "" {
      message := "LiFS not initialized";
    } else {
      message := "Parent directory '" + ParentPath(norm) + "' does not exist or is not a directory.";
    }
    assert r.store == Report(s, message, "createItem");
    ReportKeeps(s, message, "createItem");
  }

  /**
   * A created record replaces whatever was at the path and nothing else: a
   * file holds its content and its length as `size`, a directory holds
   * null content and size 0.
   */
  lemma CreateEffect(s: Store, norm: string, content: string, isDirectory: bool, now: string)
    requires CreatesAt(s, norm)
    ensures var r := CreateAt(s, norm, content, isDirectory, now);
      && r.value && r.store.lastError == s.lastError && r.store.name == s.name
      && norm in Current(r.store)
      && Current(r.store) == Current(s)[norm := Current(r.store)[norm]]
      && r.store.dbs - {s.name} == s.dbs - {s.name}
      && var rec := Current(r.store)[norm];
      && "path" in rec && "content" in rec && "size" in rec
      && rec["path"] == JStr(norm) && IsDir(rec) == isDirectory
      && rec["content"] == (if isDirectory then JNull else JStr(content))
      && rec["size"] == JNum(if isDirectory then 0 else |content|)
  {
  }

  /** A file created at a path reads back its content. */
  lemma ReadAfterCreate(s: Store, norm: string, content: string, now: string)
    requires CreatesAt(s, norm)
    ensures var created := CreateAt(s, norm, content, false, now).store;
      ReadAt(created, norm) == Reply(created, JStr(content))
  {
  }

  /** Reading a directory is refused and returns "". */
  lemma ReadDirectory(s: Store, norm: string)
    requires s.name != "" && norm in Current(s) && IsDir(Current(s)[norm])
    ensures ReadAt(s, norm) == Reply(Report(s, "Cannot read, '" + norm + "' is a directory", "readFile"), JStr(""))
  {
  }

  /** The `size` property of a created file is the decimal text of its content's length. */
  lemma SizePropertyAfterCreate(s: Store, norm: string, content: string, now: string, stringify: Json -> string)
    requires CreatesAt(s, norm)
    ensures var created := CreateAt(s, norm, content, false, now).store;
      PropertyAt(created, "size", norm, stringify) == Reply(created, Text(JNum(|content|), stringify))
  {
    var created := CreateAt(s, norm, content, false, now).store;
    CreateEffect(s, norm, content, false, now);
    PropertyOf(created, "size", norm, stringify);
  }

  /** A non-negative number is rendered in decimal. */
  lemma TextOfCount(n: nat, stringify: Json -> string)
    ensures Text(JNum(n), stringify) == Numeral(n, 10)
  {
  }

  /** The `content` and `path` properties of a created file are its content and its normalised path. */
  lemma PropertiesAfterCreate(s: Store, norm: string, content: string, now: string, stringify: Json -> string)
    requires CreatesAt(s, norm)
    ensures var created := CreateAt(s, norm, content, false, now).store;
      && PropertyAt(created, "content", norm, stringify) == Reply(created, content)
      && PropertyAt(created, "path", norm, stringify) == Reply(created, norm)
  {
    var created := CreateAt(s, norm, content, false, now).store;
    CreateEffect(s, norm, content, false, now);
    PropertyOf(created, "content", norm, stringify);
    PropertyOf(created, "path", norm, stringify);
  }

  /** `getItemProperty` of a property the record holds. */
  lemma PropertyOf(s: Store, property: string, norm: string, stringify: Json -> string)
    requires s.name != "" && norm in Current(s) && property in Current(s)[norm]
    ensures PropertyAt(s, property, norm, stringify) == Reply(s, Text(Current(s)[norm][property], stringify))
  {
  }

  /**
   * An item created under a directory is listed by that directory, by its
   * name alone, exactly when its kind is wanted.
   */
  lemma ListAfterCreate(s: Store, init: seq<string>, last: string, content: string, isDirectory: bool,
                        now: string, kind: string)
    requires PlainNames(init) && PlainName(last) && s.name != ""
    requires var dir := "/" + Join(init, '/'); dir == "/" || (dir in Current(s) && IsDir(Current(s)[dir]))
    ensures var dir, child := "/" + Join(init, '/'), "/" + Join(init + [last], '/');
      var created := CreateAt(s, child, content, isDirectory, now).store;
      last in ListAt(created, dir, kind).value <==> Kind(kind, NewItem(child, content, isDirectory, now))
  {
    var dir, child := "/" + Join(init, '/'), "/" + Join(init + [last], '/');
    ChildBelow(init, last);
    var rec := NewItem(child, content, isDirectory, now);
    var created := CreateAt(s, child, content, isDirectory, now).store;
    assert Current(created) == Current(s)[child := rec];
    ListedAfterPut(Current(s), dir, child, last, rec, kind);
  }

  /** Putting a record at the listing prefix followed by a name lists the name exactly when its kind is wanted. */
  lemma ListedAfterPut(t: Table, dir: string, child: string, last: string, rec: Record, kind: string)
    requires child != dir && child == Below(dir) + last && '/' !in last
    ensures var t' := t[child := rec];
      last in (set k | k in t' && Listed(t', dir, kind, k) :: k[|Below(dir)|..]) <==> Kind(kind, rec)
  {
    var t' := t[child := rec];
    var b := Below(dir);
    assert child[|b|..] == last;
    var listed := set k | k in t' && Listed(t', dir, kind, k) :: k[|b|..];
    if Kind(kind, rec) {
      assert Listed(t', dir, kind, child);
      assert last in listed;
    }
    if last in listed {
      var k :| k in t' && Listed(t', dir, kind, k) && k[|b|..] == last;
      assert k == b + k[|b|..];
    }
  }

  // ---------------------------------------------------------------------
  // deleteItem
  // ---------------------------------------------------------------------

  /** `deleteItem` refuses the root, an unloaded store and a missing item, changing no table. */
  lemma DeleteRefused(s: Store, norm: string)
    requires norm == "/" || s.name == "" || norm !in Current(s)
    ensures var r := DeleteAt(s, norm);
      && !r.value && r.store.dbs == s.dbs && r.store.lastError != ""
  {
  }

  /**
   * Deleting an existing item removes exactly the item and, for a directory,
   * every record whose path starts with the item's path and '/'; every other
   * record keeps its value.
   */
  lemma DeleteEffect(s: Store, norm: string)
    requires norm != "/" && s.name != "" && norm in Current(s)
    ensures var r := DeleteAt(s, norm);
      var t, t' := Current(s), Current(r.store);
      && r.value && r.store.dbs - {s.name} == s.dbs - {s.name}
      && (forall q :: q in t' <==> q in t && q != norm && !(IsDir(t[norm]) && StartsWith(q, norm + "/")))
      && (forall q | q in t' :: t'[q] == t[q])
  {
  }

  /** A record whose path extends the deleted one by anything but a '/' survives ("/ab" outlives "/a"). */
  lemma DeleteSparesSibling(s: Store, norm: string, x: string)
    requires norm != "/" && s.name != "" && norm in Current(s)
    requires x != "" && x[0] != '/' && norm + x in Current(s)
    ensures var t' := Current(DeleteAt(s, norm).store);
      norm + x in t' && t'[norm + x] == Current(s)[norm + x]
  {
    assert !StartsWith(norm + x, norm + "/") by {
      assert (norm + x)[|norm|] == x[0];
    }
    DeleteEffect(s, norm);
  }

  /** After a delete the item no longer exists, whichever spelling of its path is asked. */
  lemma ExistsAfterDelete(s: Store, path: string, other: string)
    requires var norm := NormalizePath(path); norm != "/" && s.name != "" && norm in Current(s)
    requires NormalizePath(other) == NormalizePath(path)
    ensures LiOps.ItemExists(LiOps.DeleteItem(s, path).store, other).value == false
  {
    DeleteEffect(s, NormalizePath(path));
  }

  // ---------------------------------------------------------------------
  // renameItem
  // ---------------------------------------------------------------------

  /**
   * `renameItem` refuses the root at either end, a missing source and an
   * existing destination, changing no table; identical paths return true
   * without a change, even when no namespace is loaded.
   */
  lemma RenameRefused(s: Store, src: string, dst: string, now: string)
    ensures var r := RenameAt(s, src, dst, now);
      && ((src == "/" || dst == "/") ==> !r.value && r.store.dbs == s.dbs)
      && (src != "/" && src == dst ==> r == Reply(s, true))
      && (src != "/" && dst != "/" && src != dst && s.name != "" && dst in Current(s) ==> !r.value && r.store.dbs == s.dbs)
      && (src != dst && src !in Current(s) ==> !r.value && r.store.dbs == s.dbs)
  {
  }

  /** A path the rename puts is the destination or lies below it. */
  lemma ShiftBelow(k: string, src: string, dst: string)
    requires k == src || StartsWith(k, src + "/")
    ensures |src| <= |k| && (Shift(k, src, dst) == dst || StartsWith(Shift(k, src, dst), dst + "/"))
  {
    if k != src {
      assert k[|src|..] == "/" + k[|src| + 1..];
    }
  }

  /** The conditions under which `renameItem` moves records. */
  predicate RenamesAt(s: Store, src: string, dst: string)
  {
    src != "/" && dst != "/" && src != dst && s.name != "" && src in Current(s) && dst !in Current(s)
  }

  /**
   * A successful rename puts every collected record under the destination,
   * changing only its `path` and `modifiedAt`; records outside the
   * destination's subtree are the old ones, minus the collected ones. Inside
   * it, an old record that no moved record lands on is kept, and every key
   * of the new table is an old key or a shifted one.
   */
  lemma RenameEffect(s: Store, src: string, dst: string, now: string)
    requires RenamesAt(s, src, dst)
    ensures var r := RenameAt(s, src, dst, now);
      var t, t' := Current(s), Current(r.store);
      && r.value && r.store.dbs - {s.name} == s.dbs - {s.name}
      && (forall k | k in t && (k == src || StartsWith(k, src + "/")) ::
            |src| <= |k| && Shift(k, src, dst) in t' && t'[Shift(k, src, dst)] == Retarget(t[k], Shift(k, src, dst), now))
      && (forall q | q != dst && !StartsWith(q, dst + "/") ::
            (q in t' <==> q in t && q != src && !StartsWith(q, src + "/")) && (q in t' ==> t'[q] == t[q]))
      && (forall q | q in t && q != src && !StartsWith(q, src + "/") &&
            (forall k | k in t && (k == src || StartsWith(k, src + "/")) :: Shift(k, src, dst) != q) ::
            q in t' && t'[q] == t[q])
      && (forall q | q in t' ::
            q in t || exists k | k in t && (k == src || StartsWith(k, src + "/")) :: Shift(k, src, dst) == q)
  {
    var t := Current(s);
    var r := RenameAt(s, src, dst, now);
    assert r == Reply(LiOps.WithTable(s, Renamed(t, src, dst, now)), true);
    TableReplaced(s, Renamed(t, src, dst, now));
    RenamedShape(t, src, dst, now);
  }

  /** Replacing the loaded table leaves every other database as it was. */
  lemma TableReplaced(s: Store, t: Table)
    ensures var s' := LiOps.WithTable(s, t);
      Current(s') == t && s'.name == s.name && s'.dbs - {s.name} == s.dbs - {s.name}
  {
    var s' := LiOps.WithTable(s, t);
    assert s'.dbs - {s.name} == s.dbs - {s.name} by {
      forall n | n in s.dbs - {s.name} ensures n in s'.dbs - {s.name} && s'.dbs[n] == s.dbs[n] { }
    }
  }

  /** `RenameEffect` on the table alone. */
  lemma RenamedShape(t: Table, src: string, dst: string, now: string)
    ensures var t' := Renamed(t, src, dst, now);
      && (forall k | k in t && (k == src || StartsWith(k, src + "/")) ::
            |src| <= |k| && Shift(k, src, dst) in t' && t'[Shift(k, src, dst)] == Retarget(t[k], Shift(k, src, dst), now))
      && (forall q | q != dst && !StartsWith(q, dst + "/") ::
            (q in t' <==> q in t && q != src && !StartsWith(q, src + "/")) && (q in t' ==> t'[q] == t[q]))
      && (forall q | q in t && q != src && !StartsWith(q, src + "/") &&
            (forall k | k in t && (k == src || StartsWith(k, src + "/")) :: Shift(k, src, dst) != q) ::
            q in t' && t'[q] == t[q])
      && (forall q | q in t' ::
            q in t || exists k | k in t && (k == src || StartsWith(k, src + "/")) :: Shift(k, src, dst) == q)
  {
    RenamedKeeps(t, src, dst, now);
    RenamedKeys(t, src, dst, now);
    ShiftInjective(t, src, dst);
    var sh := Shifted(t, src, dst, now);
    forall k | k in Moved(t, src)
      ensures Shift(k, src, dst) in sh && sh[Shift(k, src, dst)] == Retarget(t[k], Shift(k, src, dst), now)
    {
    }
    forall q | q != dst && !StartsWith(q, dst + "/")
      ensures q !in sh
    {
      if q in sh {
        var k :| k in Moved(t, src) && Shift(k, src, dst) == q;
        ShiftBelow(k, src, dst);
      }
    }
  }

  /** An unmoved record that no moved record lands on survives the rename. */
  lemma RenamedKeeps(t: Table, src: string, dst: string, now: string)
    ensures var t' := Renamed(t, src, dst, now);
      forall q | q in t && q != src && !StartsWith(q, src + "/") &&
          (forall k | k in t && (k == src || StartsWith(k, src + "/")) :: Shift(k, src, dst) != q) ::
          q in t' && t'[q] == t[q]
  {
    var t' := Renamed(t, src, dst, now);
    forall q | q in t && q != src && !StartsWith(q, src + "/") &&
        (forall k | k in t && (k == src || StartsWith(k, src + "/")) :: Shift(k, src, dst) != q)
      ensures q in t' && t'[q] == t[q]
    {
      assert q !in Moved(t, src);
      assert q !in Shifted(t, src, dst, now);
    }
  }

  /** The rename adds no key beyond the shifted ones. */
  lemma RenamedKeys(t: Table, src: string, dst: string, now: string)
    ensures var t' := Renamed(t, src, dst, now);
      forall q | q in t' ::
        q in t || exists k | k in t && (k == src || StartsWith(k, src + "/")) :: Shift(k, src, dst) == q
  {
    var t' := Renamed(t, src, dst, now);
    forall q | q in t' && q !in t
      ensures exists k | k in t && (k == src || StartsWith(k, src + "/")) :: Shift(k, src, dst) == q
    {
      assert q in Shifted(t, src, dst, now);
      var k :| k in Moved(t, src) && Shift(k, src, dst) == q;
    }
  }

  /**
   * There is no check that the destination lies outside the source: renaming
   * "/a" to "/a/b" succeeds, and the item then sits at "/a/b" while "/a" is gone.
   */
  lemma RenameIntoItself(s: Store, src: string, x: string, now: string)
    requires RenamesAt(s, src, src + "/" + x)
    ensures var dst := src + "/" + x;
      var r := RenameAt(s, src, dst, now);
      r.value && dst in Current(r.store) && src !in Current(r.store)
  {
    var dst := src + "/" + x;
    RenameEffect(s, src, dst, now);
    ShiftBelow(src, src, dst);
    assert Shift(src, src, dst) == dst;
    assert !StartsWith(src, dst + "/") by {
      assert |src| < |dst + "/"|;
    }
  }

  // ---------------------------------------------------------------------
  // listContents
  // ---------------------------------------------------------------------

  /**
   * A name is listed exactly when the record at the listing prefix followed
   * by the name exists, is not the listed path itself, is one level down (no
   * '/' in the name) and is of the wanted kind.
   */
  lemma ListExact(s: Store, norm: string, kind: string, e: string)
    requires s.name != ""
    ensures var t, k := Current(s), Below(norm) + e;
      e in ListAt(s, norm, kind).value <==> k in t && k != norm && '/' !in e && Kind(kind, t[k])
  {
    var t := Current(s);
    var b := Below(norm);
    var k := b + e;
    assert k[|b|..] == e;
    if e in ListAt(s, norm, kind).value {
      var j :| j in t && Listed(t, norm, kind, j) && j[|b|..] == e;
      assert j == b + j[|b|..];
    } else if k in t && k != norm && '/' !in e && Kind(kind, t[k]) {
      assert Listed(t, norm, kind, k);
    }
  }

  /** Listing without a loaded namespace gives nothing and reports it. */
  lemma ListUnloaded(s: Store, path: string, kind: string)
    requires s.name == ""
    ensures LiOps.ListContents(s, path, kind) == Reply(Report(s, "LiFS not initialized", "listContents"), {})
  {
  }

  // ---------------------------------------------------------------------
  // isDirectory
  // ---------------------------------------------------------------------

  /** With a namespace loaded, `isDirectory` reports nothing (undefined) whatever the record is. */
  lemma IsDirectoryUndefined(s: Store, path: string)
    requires s.name != ""
    ensures LiOps.IsDirectory(s, path) == Reply(s, None)
  {
  }

  // ---------------------------------------------------------------------
  // getDirectorySize
  // ---------------------------------------------------------------------

  /** The size of a directory grows by the length of a new file created in it or below it. */
  lemma SizeAfterCreate(s: Store, norm: string, d: string, content: string, now: string)
    requires CreatesAt(s, norm) && norm !in Current(s)
    requires norm == d || StartsWith(norm, Below(d))
    ensures SizeAt(CreateAt(s, norm, content, false, now).store, d).value == SizeAt(s, d).value + |content|
  {
    var t := Current(s);
    var t' := t[norm := NewItem(norm, content, false, now)];
    assert Current(CreateAt(s, norm, content, false, now).store) == t';
    SizeSumRemove(t', d, norm);
    assert t' - {norm} == t;
  }

  /** Creating a file outside a directory's subtree leaves the directory's size unchanged. */
  lemma SizeAfterCreateElsewhere(s: Store, norm: string, d: string, content: string, now: string)
    requires CreatesAt(s, norm) && norm !in Current(s)
    requires norm != d && !StartsWith(norm, Below(d))
    ensures SizeAt(CreateAt(s, norm, content, false, now).store, d).value == SizeAt(s, d).value
  {
    var t := Current(s);
    var t' := t[norm := NewItem(norm, content, false, now)];
    assert Current(CreateAt(s, norm, content, false, now).store) == t';
    SizeSumRemove(t', d, norm);
    assert t' - {norm} == t;
  }

  /** The size of a single file record below the directory is its `size`. */
  lemma SizeOfOne(norm: string, k: string, r: Record)
    requires k == norm || StartsWith(k, Below(norm))
    requires !IsDir(r) && "size" in r && r["size"].JNum?
    ensures SizeSum(map[k := r], norm) == r["size"].n
  {
    SizeSumRemove(map[k := r], norm, k);
    assert map[k := r] - {k} == map[];
  }

  // ---------------------------------------------------------------------
  // processImportContent
  // ---------------------------------------------------------------------

  /**
   * An import fails for empty content, unparsable text, a value that is not
   * an array, no loaded namespace, or an item whose `path` is no valid key
   * (the aborted transaction stores none of the items); a failure changes no
   * table and records a message.
   */
  lemma ImportRefused(s: Store, content: string, parse: string -> Result<Json, string>)
    requires content == "" || parse(content).Err? || !parse(content).value.JArr? || s.name == ""
             || AnyRefused(parse(content).value.items)
    ensures var r := LiOps.ProcessImportContent(s, content, parse);
      !r.value && r.store.dbs == s.dbs && r.store.name == s.name && r.store.lastError != ""
  {
    var scope := "processImportContent";
    var r := LiOps.ProcessImportContent(s, content, parse);
    var message: string;
    if content == "" {
      message := "Import content is empty or not a string.";
    } else if parse(content).Err? {
      message := "Failed to parse import JSON: " + parse(content).error;
    } else if !parse(content).value.JArr? {
      message := "Import content is not a valid LiFS array.";
    } else if s.name == "" {
      message := "LiFS namespace was lost/not set. Please call 'load LiFS namespace' first.";
    } else {
      message := "Transaction aborted";
    }
    assert r == LiOps.Reply(LiOps.Report(s, message, scope), false);
    ReportKeeps(s, message, scope);
  }

  /** A report keeps the databases and the namespace and records a message that is never empty. */
  lemma ReportKeeps(s: Store, message: string, scope: string)
    ensures var t := LiOps.Report(s, message, scope);
      t.dbs == s.dbs && t.name == s.name && t.lastError != ""
  {
    assert LiOps.Report(s, message, scope).lastError[0] == 'L';
  }

  /** A record no imported item names keeps its value (or stays absent). */
  lemma {:induction false} PutAllKeeps(t: Table, items: seq<Json>, q: string)
    requires forall i | 0 <= i < |items| :: ItemPath(items[i]) != Some(q)
    ensures q in PutAll(t, items) <==> q in t
    ensures q in t ==> PutAll(t, items)[q] == t[q]
    decreases |items|
  {
    if items != [] {
      PutAllKeeps(t, items[..|items| - 1], q);
    }
  }

  /** The record at an imported path is the fields of the last item naming it. */
  lemma {:induction false} PutAllLast(t: Table, items: seq<Json>, i: nat, p: string)
    requires i < |items| && ItemPath(items[i]) == Some(p)
    requires forall j | i < j < |items| :: ItemPath(items[j]) != Some(p)
    ensures p in PutAll(t, items) && PutAll(t, items)[p] == items[i].fields
    decreases |items|
  {
    if i < |items| - 1 {
      PutAllLast(t, items[..|items| - 1], i, p);
    }
  }

  /**
   * A successful import stores every item that has a path, the record at a
   * path being the fields of the last item naming it, and keeps every record
   * that no item names.
   */
  lemma ImportEffect(s: Store, content: string, parse: string -> Result<Json, string>)
    requires content != "" && parse(content).Ok? && parse(content).value.JArr? && s.name != ""
    requires !AnyRefused(parse(content).value.items)
    ensures var items, r := parse(content).value.items, LiOps.ProcessImportContent(s, content, parse);
      var t, t' := Current(s), Current(r.store);
      && r.value && r.store.dbs - {s.name} == s.dbs - {s.name} && r.store.lastError == s.lastError
      && (forall i | 0 <= i < |items| && ItemPath(items[i]).Some? :: ItemPath(items[i]).value in t')
      && (forall i | 0 <= i < |items| && ItemPath(items[i]).Some? &&
            (forall j | i < j < |items| :: ItemPath(items[j]) != ItemPath(items[i])) ::
            t'[ItemPath(items[i]).value] == items[i].fields)
      && (forall q | q in t && (forall i | 0 <= i < |items| :: ItemPath(items[i]) != Some(q)) :: q in t' && t'[q] == t[q])
  {
    var items := parse(content).value.items;
    var t := Current(s);
    forall i | 0 <= i < |items| && ItemPath(items[i]).Some?
      ensures ItemPath(items[i]).value in PutAll(t, items)
    {
      var p := ItemPath(items[i]).value;
      var last := LastNamingExists(items, i, p);
      PutAllLast(t, items, last, p);
    }
    forall i | 0 <= i < |items| && ItemPath(items[i]).Some? &&
        (forall j | i < j < |items| :: ItemPath(items[j]) != ItemPath(items[i]))
      ensures PutAll(t, items)[ItemPath(items[i]).value] == items[i].fields
    {
      PutAllLast(t, items, i, ItemPath(items[i]).value);
    }
    forall q | q in t && (forall i | 0 <= i < |items| :: ItemPath(items[i]) != Some(q))
      ensures q in PutAll(t, items) && PutAll(t, items)[q] == t[q]
    {
      PutAllKeeps(t, items, q);
    }
  }

  /** The index of the last item naming `p`, at or after `i`. */
  lemma {:induction false} LastNamingExists(items: seq<Json>, i: nat, p: string) returns (last: nat)
    requires i < |items| && ItemPath(items[i]) == Some(p)
    ensures i <= last < |items| && ItemPath(items[last]) == Some(p)
    ensures forall j | last < j < |items| :: ItemPath(items[j]) != Some(p)
    decreases |items| - i
  {
    if exists j | i < j < |items| :: ItemPath(items[j]) == Some(p) {
      var j :| i < j < |items| && ItemPath(items[j]) == Some(p);
      last := LastNamingExists(items, j, p);
    } else {
      last := i;
    }
  }
}
