/**
 * The tree as a JSON document: the object `out` stringifies and the shape
 * `in` demands before it installs a parsed document as the new root.
 */
module RxDocument {
  import opened Wrappers
  import opened JsonValues
  import opened RxTree

  /** The JSON object of a node, as `JSON.stringify(fsRoot)` writes it. */
  function Encode(n: Node): Json
  {
    match n
    case File(content, permissions, ctime, mtime) =>
      JObj(map["type" := JStr("file"), "content" := JStr(content), "permissions" := JNum(permissions),
               "ctime" := JNum(ctime), "mtime" := JNum(mtime)])
    case Dir(children, permissions, ctime, mtime) =>
      JObj(map["type" := JStr("directory"), "children" := JObj(map k | k in children :: Encode(children[k])),
               "permissions" := JNum(permissions), "ctime" := JNum(ctime), "mtime" := JNum(mtime)])
  }

  /** The integer field `name` of an object's fields, if it is one. */
  function NumField(fields: map<string, Json>, name: string): Option<int>
  {
    if name in fields && fields[name].JNum? then Some(fields[name].n) else None
  }

  /** The fields every node object carries besides its contents. */
  predicate HasHeader(f: map<string, Json>)
  {
    "type" in f && NumField(f, "permissions").Some? && NumField(f, "ctime").Some? && NumField(f, "mtime").Some?
  }

  /** The node a JSON document describes, when every node in it is well formed. */
  function Decode(j: Json): Option<Node>
    decreases j, 1
  {
    match j
    case JObj(f) =>
      if !HasHeader(f) then None
      else if f["type"] == JStr("file") && "content" in f && f["content"].JStr? then
        Some(File(f["content"].s, NumField(f, "permissions").value, NumField(f, "ctime").value, NumField(f, "mtime").value))
      else if f["type"] == JStr("directory") && "children" in f && f["children"].JObj? then DecodeDir(j)
      else None
    case _ => None
  }

  /** A directory object whose entries all decode. */
  function DecodeDir(j: Json): Option<Node>
    requires j.JObj? && HasHeader(j.fields) && "children" in j.fields && j.fields["children"].JObj?
    decreases j, 0
  {
    var f := j.fields;
    var entries := f["children"].fields;
    if forall k | k in entries :: Decode(entries[k]).Some? then
      Some(Dir(map k | k in entries :: Decode(entries[k]).value,
               NumField(f, "permissions").value, NumField(f, "ctime").value, NumField(f, "mtime").value))
    else None
  }

  /**
   * The check `in` makes on a parsed document: an object whose `type` is
   * "directory" and whose `children` is a non-null object (an array passes
   * `typeof` too).
   */
  predicate ShapeOk(j: Json)
  {
    && j.JObj?
    && "type" in j.fields && j.fields["type"] == JStr("directory")
    && "children" in j.fields && (j.fields["children"].JObj? || j.fields["children"].JArr?)
  }

  /** Decoding an encoded tree gives the tree back. */
  lemma {:induction false} DecodeEncode(n: Node)
    ensures Decode(Encode(n)) == Some(n)
  {
    var f := Encode(n).fields;
    assert NumField(f, "permissions") == Some(n.permissions);
    assert NumField(f, "ctime") == Some(n.ctime);
    assert NumField(f, "mtime") == Some(n.mtime);
    if n.Dir? {
      forall k | k in n.children ensures Decode(Encode(n.children[k])) == Some(n.children[k]) {
        DecodeEncode(n.children[k]);
      }
      DecodeEncodeDir(n);
    } else {
      assert f["type"] == JStr("file") && f["content"] == JStr(n.content);
    }
  }

  /** The directory step of `DecodeEncode`, given the round trip for every child. */
  lemma DecodeEncodeDir(n: Node)
    requires n.Dir?
    requires forall k | k in n.children :: Decode(Encode(n.children[k])) == Some(n.children[k])
    ensures Decode(Encode(n)) == Some(n)
  {
    var j := Encode(n);
    EncodedDirFields(n);
    assert Decode(j) == DecodeDir(j);
    var entries := j.fields["children"].fields;
    assert entries == map k | k in n.children :: Encode(n.children[k]);
    assert entries.Keys == n.children.Keys;
    var decoded := map k | k in entries :: Decode(entries[k]).value;
    forall k | k in entries ensures Decode(entries[k]).Some? && decoded[k] == n.children[k] {
      assert entries[k] == Encode(n.children[k]);
    }
    SameChildren(decoded, n.children);
  }

  /** Two maps of children with the same names and the same node under each name are equal. */
  lemma SameChildren(a: map<string, Node>, b: map<string, Node>)
    requires a.Keys == b.Keys && forall k | k in a :: a[k] == b[k]
    ensures a == b
  {
  }

  lemma EncodedDirFields(n: Node)
    requires n.Dir?
    ensures var f := Encode(n).fields;
      && HasHeader(f) && f["type"] == JStr("directory") && f["type"] != JStr("file")
      && "children" in f && f["children"] == JObj(map k | k in n.children :: Encode(n.children[k]))
      && NumField(f, "permissions") == Some(n.permissions)
      && NumField(f, "ctime") == Some(n.ctime) && NumField(f, "mtime") == Some(n.mtime)
  {
  }

  /** An encoded node passes the import check exactly when it is a directory. */
  lemma ShapeOfEncode(n: Node)
    ensures ShapeOk(Encode(n)) <==> n.Dir?
  {
  }

  /** Every document that decodes to a directory passes the import check. */
  lemma ShapeOfDecoded(j: Json)
    requires Decode(j).Some? && Decode(j).value.Dir?
    ensures ShapeOk(j)
  {
  }

  /** A document that passes the import check and decodes gives a directory. */
  lemma DecodedShape(j: Json)
    requires ShapeOk(j) && Decode(j).Some?
    ensures Decode(j).value.Dir?
  {
  }
}
