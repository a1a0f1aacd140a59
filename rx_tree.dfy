/**
 * The directory tree of the in-memory store (rxFS+): nodes, lookup along a
 * segment path, and the in-place edits the store makes to the tree, each
 * stated as a new tree value. Nodes are never shared between two places in
 * the tree (a move detaches, a copy clones), so a value tree loses nothing.
 */
module RxTree {
  import opened Wrappers

  /** `0o755`, the mode of every directory the store creates. */
  const DirMode: int := 493
  /** `0o644`, the mode of every file the store creates. */
  const FileMode: int := 420

  datatype Node =
    | File(content: string, permissions: int, ctime: int, mtime: int)
    | Dir(children: map<string, Node>, permissions: int, ctime: int, mtime: int)

  /** A fresh empty directory (`newFsRoot`, and the directories the walk creates). */
  function EmptyDir(now: int): Node
  {
    Dir(map[], DirMode, now, now)
  }

  /** The node reached from `n` by following the names in `p`, as `_getNode` walks. */
  function Find(n: Node, p: seq<string>): Option<Node>
    decreases p
  {
    if p == [] then Some(n)
    else if n.Dir? && p[0] in n.children then Find(n.children[p[0]], p[1..])
    else None
  }

  predicate IsDirAt(n: Node, p: seq<string>)
  {
    Find(n, p).Some? && Find(n, p).value.Dir?
  }

  /** Two directories that differ at most in what their children hold. */
  predicate SameHeader(a: Node, b: Node)
  {
    && a.Dir? && b.Dir?
    && a.children.Keys == b.children.Keys
    && a.permissions == b.permissions && a.ctime == b.ctime && a.mtime == b.mtime
  }

  /** The tree with the node at `p` replaced by `m`: an in-place edit of that node. */
  function Replace(n: Node, p: seq<string>, m: Node): Node
    requires Find(n, p).Some?
    decreases p
  {
    if p == [] then m
    else n.(children := n.children[p[0] := Replace(n.children[p[0]], p[1..], m)])
  }

  /** A non-empty path is its parent's names followed by its last name. */
  lemma InitLast(p: seq<string>)
    requires p != []
    ensures p[..|p| - 1] + [p[|p| - 1]] == p
  {
  }

  /** Looking up a concatenated path is two lookups in a row. */
  lemma {:induction false} FindAppend(n: Node, p: seq<string>, q: seq<string>)
    ensures Find(n, p + q) == if Find(n, p).Some? then Find(Find(n, p).value, q) else None
    decreases p
  {
    if p == [] {
      assert p + q == q;
    } else {
      assert (p + q)[0] == p[0] && (p + q)[1..] == p[1..] + q;
      if n.Dir? && p[0] in n.children {
        FindAppend(n.children[p[0]], p[1..], q);
      }
    }
  }

  /**
   * What a lookup sees after `Replace(n, p, m)`: below `p` it sees `m`, away
   * from `p` it sees the old tree, and on the way to `p` it meets
   * directories with the same names and attributes as before.
   */
  lemma {:induction false} FindReplace(n: Node, p: seq<string>, m: Node, q: seq<string>)
    requires Find(n, p).Some?
    ensures p <= q ==> Find(Replace(n, p, m), q) == Find(m, q[|p|..])
    ensures !(p <= q) && !(q <= p) ==> Find(Replace(n, p, m), q) == Find(n, q)
    ensures q < p ==> Find(n, q).Some? && Find(Replace(n, p, m), q).Some?
                      && SameHeader(Find(Replace(n, p, m), q).value, Find(n, q).value)
    decreases p
  {
    if p != [] {
      var k := p[0];
      var n' := Replace(n, p, m);
      assert n'.children.Keys == n.children.Keys;
      if q != [] && q[0] != k && q[0] in n.children {
        assert n'.children[q[0]] == n.children[q[0]];
      } else if q != [] && q[0] == k {
        FindReplace(n.children[k], p[1..], m, q[1..]);
        assert p <= q <==> p[1..] <= q[1..];
        assert q < p <==> q[1..] < p[1..];
        assert q <= p <==> q[1..] <= p[1..];
        if p <= q {
          assert q[|p|..] == q[1..][|p| - 1..];
        }
      }
    }
  }

  /** The parent at `dir` rewritten so that only child `key` may differ. */
  ghost predicate OnlyKeyDiffers(old_: Node, new_: Node, key: string)
    requires old_.Dir? && new_.Dir?
  {
    forall k | k != key :: (k in new_.children <==> k in old_.children)
                           && (k in new_.children ==> new_.children[k] == old_.children[k])
  }

  /** A lookup after the directory at `dir` was rewritten in child `key` only. */
  lemma FindEdited(root: Node, dir: seq<string>, parent: Node, key: string, q: seq<string>)
    requires IsDirAt(root, dir) && parent.Dir? && OnlyKeyDiffers(Find(root, dir).value, parent, key)
    ensures dir + [key] <= q ==> Find(Replace(root, dir, parent), q) == Find(parent, q[|dir|..])
    ensures !(dir + [key] <= q) && !(q <= dir) ==> Find(Replace(root, dir, parent), q) == Find(root, q)
    ensures q <= dir ==> IsDirAt(Replace(root, dir, parent), q)
  {
    var root' := Replace(root, dir, parent);
    var old_ := Find(root, dir).value;
    FindReplace(root, dir, parent, q);
    if dir <= q && q != dir {
      var r := q[|dir|..];
      assert q == dir + r;
      if r[0] != key {
        FindAppend(root, dir, r);
        assert Find(parent, r) == Find(old_, r);
      } else {
        assert dir + [key] <= q;
      }
    }
  }

  /** `parent.children[key] = child; parent.mtime = now` on the directory at `dir`. */
  function Put(root: Node, dir: seq<string>, key: string, child: Node, now: int): Node
    requires IsDirAt(root, dir)
  {
    var parent := Find(root, dir).value;
    Replace(root, dir, parent.(children := parent.children[key := child], mtime := now))
  }

  /** `delete parent.children[key]; parent.mtime = now` on the directory at `dir`. */
  function Drop(root: Node, dir: seq<string>, key: string, now: int): Node
    requires IsDirAt(root, dir)
  {
    var parent := Find(root, dir).value;
    Replace(root, dir, parent.(children := parent.children - {key}, mtime := now))
  }

  /** `node.mtime = now` on the node at `p`. */
  function Stamp(root: Node, p: seq<string>, now: int): Node
    requires Find(root, p).Some?
  {
    Replace(root, p, Find(root, p).value.(mtime := now))
  }

  /**
   * After `Put`: the new child is found under `dir + [key]`, the directory at
   * `dir` has the old children plus `key` and mtime `now`, and every path
   * outside `dir + [key]` that does not lead to `dir` is unchanged.
   */
  lemma FindPut(root: Node, dir: seq<string>, key: string, child: Node, now: int, q: seq<string>)
    requires IsDirAt(root, dir)
    ensures dir + [key] <= q ==> Find(Put(root, dir, key, child, now), q) == Find(child, q[|dir| + 1..])
    ensures !(dir + [key] <= q) && !(q <= dir) ==> Find(Put(root, dir, key, child, now), q) == Find(root, q)
    ensures q <= dir ==> IsDirAt(Put(root, dir, key, child, now), q)
    ensures IsDirAt(Put(root, dir, key, child, now), dir)
    ensures var parent := Find(Put(root, dir, key, child, now), dir).value;
      parent.children == Find(root, dir).value.children[key := child] && parent.mtime == now
  {
    var old_ := Find(root, dir).value;
    var parent := old_.(children := old_.children[key := child], mtime := now);
    FindEdited(root, dir, parent, key, q);
    FindReplace(root, dir, parent, dir);
    assert dir[|dir|..] == [];
    if dir + [key] <= q {
      var r := q[|dir|..];
      assert r == [key] + q[|dir| + 1..];
    }
  }

  /**
   * After `Drop`: nothing is found at or below `dir + [key]`, the directory at
   * `dir` has lost `key` and has mtime `now`, and every other path that does
   * not lead to `dir` is unchanged.
   */
  lemma FindDrop(root: Node, dir: seq<string>, key: string, now: int, q: seq<string>)
    requires IsDirAt(root, dir)
    ensures dir + [key] <= q ==> Find(Drop(root, dir, key, now), q).None?
    ensures !(dir + [key] <= q) && !(q <= dir) ==> Find(Drop(root, dir, key, now), q) == Find(root, q)
    ensures q <= dir ==> IsDirAt(Drop(root, dir, key, now), q)
    ensures IsDirAt(Drop(root, dir, key, now), dir)
    ensures var parent := Find(Drop(root, dir, key, now), dir).value;
      parent.children == Find(root, dir).value.children - {key} && parent.mtime == now
  {
    var old_ := Find(root, dir).value;
    var parent := old_.(children := old_.children - {key}, mtime := now);
    FindEdited(root, dir, parent, key, q);
    FindReplace(root, dir, parent, dir);
    assert dir[|dir|..] == [];
    if dir + [key] <= q {
      var r := q[|dir|..];
      assert r[0] == key;
    }
  }

  /** After `Stamp`, only the mtime of the node at `p` differs. */
  lemma FindStamp(root: Node, p: seq<string>, now: int, q: seq<string>)
    requires Find(root, p).Some?
    ensures q == p ==> Find(Stamp(root, p, now), q) == Some(Find(root, p).value.(mtime := now))
    ensures p < q ==> Find(Stamp(root, p, now), q) == Find(root, q)
    ensures !(p <= q) && !(q <= p) ==> Find(Stamp(root, p, now), q) == Find(root, q)
    ensures q < p ==> Find(root, q).Some? && Find(Stamp(root, p, now), q).Some?
                      && SameHeader(Find(Stamp(root, p, now), q).value, Find(root, q).value)
  {
    FindReplace(root, p, Find(root, p).value.(mtime := now), q);
    if p <= q {
      assert q == p + q[|p|..];
      FindAppend(root, p, q[|p|..]);
      if q != p {
        assert q[|p|..] != [];
      }
    }
  }

  /** A directory chain stamped `now` holding the names of `dirs`, one inside the other. */
  function Fresh(dirs: seq<string>, now: int): (r: Node)
    ensures r.Dir? && IsDirAt(r, dirs)
    decreases dirs
  {
    if dirs == [] then EmptyDir(now)
    else Dir(map[dirs[0] := Fresh(dirs[1..], now)], DirMode, now, now)
  }

  /**
   * The `_getParentAndKey` walk with `createDirs` set, from directory `n`
   * along `dirs`: a missing directory is created stamped `now`, and so is the
   * mtime of the directory it is created in; meeting a file fails. Nothing is
   * created before a failure, since once one directory is created every
   * later name is missing too.
   */
  function EnsureDirs(n: Node, dirs: seq<string>, now: int): (r: Option<Node>)
    requires n.Dir?
    ensures r.Some? ==> r.value.Dir? && IsDirAt(r.value, dirs)
    decreases dirs
  {
    if dirs == [] then Some(n)
    else
      var k := dirs[0];
      if k in n.children then
        var c := n.children[k];
        if c.Dir? then
          match EnsureDirs(c, dirs[1..], now)
          case None => None
          case Some(c') => Some(n.(children := n.children[k := c']))
        else None
      else
        Some(n.(children := n.children[k := Fresh(dirs[1..], now)], mtime := now))
  }

  /** Walking a chain of directories that all exist creates nothing. */
  lemma {:induction false} EnsureDirsExisting(n: Node, dirs: seq<string>, now: int)
    requires n.Dir? && IsDirAt(n, dirs)
    ensures EnsureDirs(n, dirs, now) == Some(n)
    decreases dirs
  {
    if dirs != [] {
      var k := dirs[0];
      assert Find(n, dirs) == Find(n.children[k], dirs[1..]);
      EnsureDirsExisting(n.children[k], dirs[1..], now);
      assert n.children[k := n.children[k]] == n.children;
    }
  }

  /** The walk fails exactly when one of the names on the way is a file. */
  lemma {:induction false} EnsureDirsFails(n: Node, dirs: seq<string>, now: int)
    requires n.Dir?
    ensures EnsureDirs(n, dirs, now).None? <==>
      exists i | 1 <= i <= |dirs| :: Find(n, dirs[..i]).Some? && Find(n, dirs[..i]).value.File?
    decreases dirs
  {
    if dirs != [] {
      var k := dirs[0];
      assert dirs[..1] == [k];
      if k in n.children && n.children[k].Dir? {
        var c := n.children[k];
        EnsureDirsFails(c, dirs[1..], now);
        forall i | 1 <= i <= |dirs|
          ensures Find(n, dirs[..i]) == Find(c, dirs[1..][..i - 1])
        {
          assert dirs[..i] == [k] + dirs[1..][..i - 1];
        }
        if EnsureDirs(c, dirs[1..], now).None? {
          var j :| 1 <= j <= |dirs[1..]| && Find(c, dirs[1..][..j]).Some? && Find(c, dirs[1..][..j]).value.File?;
          assert Find(n, dirs[..j + 1]) == Find(c, dirs[1..][..j]);
        } else {
          forall i | 1 <= i <= |dirs| && Find(n, dirs[..i]).Some?
            ensures Find(n, dirs[..i]).value.Dir?
          {
            if i > 1 {
              assert Find(n, dirs[..i]) == Find(c, dirs[1..][..i - 1]);
            }
          }
        }
      } else if k in n.children {
        assert Find(n, dirs[..1]) == Some(n.children[k]);
      } else {
        forall i | 1 <= i <= |dirs| ensures Find(n, dirs[..i]).None? {
          assert dirs[..i][0] == k;
        }
      }
    }
  }

  /**
   * What the walk with `createDirs` leaves in place: every node that existed
   * and is not a strict ancestor of the walked chain is unchanged, the strict
   * ancestors were directories and still are, and the only nodes that are
   * new lie on the chain itself.
   */
  lemma {:induction false} EnsureDirsFrame(n: Node, dirs: seq<string>, now: int, q: seq<string>)
    requires n.Dir? && EnsureDirs(n, dirs, now).Some?
    ensures var n' := EnsureDirs(n, dirs, now).value;
      && (Find(n, q).Some? && !(q < dirs) ==> Find(n', q) == Find(n, q))
      && (Find(n, q).Some? && q < dirs ==> IsDirAt(n, q) && IsDirAt(n', q))
      && (Find(n, q).None? && Find(n', q).Some? ==> q < dirs || q == dirs)
    decreases dirs
  {
    var n' := EnsureDirs(n, dirs, now).value;
    if dirs != [] && q != [] {
      var k := dirs[0];
      if q[0] != k {
        assert !(q < dirs) && q != dirs;
      } else if k in n.children {
        var c := n.children[k];
        EnsureDirsFrame(c, dirs[1..], now, q[1..]);
        assert q < dirs <==> q[1..] < dirs[1..];
        assert q == dirs <==> q[1..] == dirs[1..];
      } else {
        FreshFrame(dirs[1..], now, q[1..]);
        assert q[1..] <= dirs[1..] ==> q <= dirs;
      }
    }
  }

  /** The only paths inside a fresh chain are the prefixes of the chain. */
  lemma {:induction false} FreshFrame(dirs: seq<string>, now: int, q: seq<string>)
    ensures Find(Fresh(dirs, now), q).Some? ==> q <= dirs
    decreases dirs
  {
    if q != [] && dirs != [] && q[0] == dirs[0] {
      FreshFrame(dirs[1..], now, q[1..]);
    }
  }

  /**
   * `_deepCopyNode`: a structural copy of `n` in which every node's ctime and
   * mtime is `now`.
   */
  function Clone(n: Node, now: int): (r: Node)
    ensures r.ctime == now && r.mtime == now && r.permissions == n.permissions
    ensures r.Dir? == n.Dir? && (r.File? ==> r.content == n.content)
    ensures r.Dir? ==> r.children.Keys == n.children.Keys
  {
    match n
    case File(content, permissions, _, _) => File(content, permissions, now, now)
    case Dir(children, permissions, _, _) =>
      Dir(map k | k in children :: Clone(children[k], now), permissions, now, now)
  }

  /**
   * A clone has a node exactly where the original has one, of the same kind,
   * mode, content and names, stamped `now`.
   */
  lemma {:induction false} FindClone(n: Node, now: int, q: seq<string>)
    ensures Find(Clone(n, now), q).Some? <==> Find(n, q).Some?
    ensures Find(n, q).Some? ==> var x, y := Find(n, q).value, Find(Clone(n, now), q).value;
      && y.ctime == now && y.mtime == now && y.permissions == x.permissions
      && y.Dir? == x.Dir? && (y.File? ==> y.content == x.content)
      && (y.Dir? ==> y.children.Keys == x.children.Keys)
    decreases q
  {
    if q != [] && n.Dir? && q[0] in n.children {
      FindClone(n.children[q[0]], now, q[1..]);
    }
  }

  /** The depth handed to the children by `_recursiveChmod`. */
  function NextDepth(depth: int): int
  {
    if depth == -1 then -1 else depth - 1
  }

  /**
   * `_recursiveChmod`: the node gets mode `perms` and mtime `now`; a
   * directory passes the change to its children unless `depth` is 0.
   */
  function Chmod(n: Node, perms: int, depth: int, now: int): Node
  {
    match n
    case File(content, _, ctime, _) => File(content, perms, ctime, now)
    case Dir(children, _, ctime, _) =>
      var children' := if depth != 0 then map k | k in children :: Chmod(children[k], perms, NextDepth(depth), now) else children;
      Dir(children', perms, ctime, now)
  }

  /** Whether a node `level` steps below the target is reached by a change of depth `depth`. */
  predicate Reaches(depth: int, level: nat)
  {
    depth < 0 || level <= depth
  }

  /**
   * After `Chmod(n, perms, depth, now)` the same paths exist with the same
   * kind, content, names and ctime; a node `|q|` levels down carries `perms`
   * and `now` when the depth reaches it and its old mode and mtime otherwise.
   */
  lemma {:induction false} FindChmod(n: Node, perms: int, depth: int, now: int, q: seq<string>)
    ensures Find(Chmod(n, perms, depth, now), q).Some? <==> Find(n, q).Some?
    ensures Find(n, q).Some? ==> var x, y := Find(n, q).value, Find(Chmod(n, perms, depth, now), q).value;
      && y.Dir? == x.Dir? && (y.File? ==> y.content == x.content)
      && (y.Dir? ==> y.children.Keys == x.children.Keys) && y.ctime == x.ctime
      && (if Reaches(depth, |q|) then y.permissions == perms && y.mtime == now
          else y.permissions == x.permissions && y.mtime == x.mtime)
    decreases q
  {
    if q != [] && n.Dir? && q[0] in n.children {
      if depth != 0 {
        FindChmod(n.children[q[0]], perms, NextDepth(depth), now, q[1..]);
        assert Reaches(depth, |q|) == Reaches(NextDepth(depth), |q[1..]|);
      } else {
        assert Find(Chmod(n, perms, depth, now), q) == Find(n, q);
      }
    }
  }
}
