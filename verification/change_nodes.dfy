/** The nested form of one changelist: what a commit writes and deletes, sorted by directory. */
module ChangeNodes {
  import opened Options
  import opened GitTrees

  /** One directory level: the blobs written here, the names deleted here, the levels below. */
  datatype Node = Node(blobs: map<Name, Blob>, deletes: set<Name>, children: map<Name, Node>)

  const EmptyNode: Node := Node(map[], {}, map[])

  /** A level seen from outside: everything but what its children hold. */
  datatype Content = Content(blobs: map<Name, Blob>, deletes: set<Name>, names: set<Name>)

  const EmptyContent: Content := Content(map[], {}, {})

  function ContentOf(v: Node): Content { Content(v.blobs, v.deletes, v.children.Keys) }

  ghost function NodeAt(v: Node, q: seq<Name>): Option<Node>
    decreases |q|
  {
    if q == [] then Some(v)
    else if q[0] in v.children then NodeAt(v.children[q[0]], q[1..])
    else None
  }

  ghost function ContentAt(v: Node, q: seq<Name>): Option<Content> {
    var w := NodeAt(v, q);
    if w.Some? then Some(ContentOf(w.value)) else None
  }

  ghost function BlobAt(v: Node, p: Path): Option<Blob> {
    var c := ContentAt(v, Init(p));
    if c.Some? && Last(p) in c.value.blobs then Some(c.value.blobs[Last(p)]) else None
  }

  ghost predicate DeleteAt(v: Node, p: Path) {
    var c := ContentAt(v, Init(p));
    c.Some? && Last(p) in c.value.deletes
  }

  /** v sorts exactly these changes and deletes: a level exists where some path passes through. */
  ghost predicate Classifies(v: Node, changes: map<Path, Blob>, deletes: set<Path>) {
    && (forall p: Path :: BlobAt(v, p) == if p in changes then Some(changes[p]) else None)
    && (forall p: Path :: DeleteAt(v, p) <==> p in deletes)
    && (forall q: seq<Name> :: NodeAt(v, q).Some? <==> PassesThrough(changes.Keys + deletes, q))
  }

  ghost predicate PassesThrough(paths: set<Path>, q: seq<Name>) {
    q == [] || exists p :: p in paths && q < p
  }

  // ---------- Editing one level ----------

  ghost function Replace(v: Node, q: seq<Name>, x: Node): Node
    requires NodeAt(v, q).Some?
    decreases |q|
  {
    if q == [] then x
    else v.(children := v.children[q[0] := Replace(v.children[q[0]], q[1..], x)])
  }

  /** The level gains an empty child. */
  ghost predicate GainsChild(x: Node, y: Node, n: Name) {
    n !in x.children && y == x.(children := x.children[n := EmptyNode])
  }

  lemma {:induction false} NodeAtAppend(v: Node, q: seq<Name>, n: Name)
    requires NodeAt(v, q).Some?
    ensures NodeAt(v, q + [n]) ==
      if n in NodeAt(v, q).value.children then Some(NodeAt(v, q).value.children[n]) else None
    decreases |q|
  {
    if q == [] {
      assert q + [n] == [n];
    } else {
      assert (q + [n])[1..] == q[1..] + [n];
      NodeAtAppend(v.children[q[0]], q[1..], n);
    }
  }

  lemma {:induction false} MissingBelow(v: Node, q: seq<Name>, r: seq<Name>)
    requires NodeAt(v, q).None?
    ensures NodeAt(v, q + r).None?
    decreases |q|
  {
    assert (q + r)[1..] == q[1..] + r;
    if q[0] in v.children { MissingBelow(v.children[q[0]], q[1..], r); }
  }

  lemma {:induction false} ReplaceSameChildren(v: Node, q: seq<Name>, x: Node, r: seq<Name>)
    requires NodeAt(v, q).Some? && NodeAt(v, q).value.children == x.children
    ensures ContentAt(Replace(v, q, x), r) == if r == q then Some(ContentOf(x)) else ContentAt(v, r)
    decreases |q|
  {
    if q != [] { assert Replace(v, q, x).children.Keys == v.children.Keys; }
    if q != [] && r != [] && r[0] == q[0] {
      ReplaceSameChildren(v.children[q[0]], q[1..], x, r[1..]);
      assert r == q <==> r[1..] == q[1..];
    }
  }

  lemma {:induction false} ReplaceNewChild(v: Node, q: seq<Name>, x: Node, n: Name, r: seq<Name>)
    requires NodeAt(v, q).Some? && GainsChild(NodeAt(v, q).value, x, n)
    ensures ContentAt(Replace(v, q, x), r) ==
      if r == q then Some(ContentOf(x))
      else if r == q + [n] then Some(EmptyContent)
      else ContentAt(v, r)
    decreases |q|
  {
    if q == [] {
      assert q + [n] == [n];
      if r != [] && r[0] == n {
        assert NodeAt(Replace(v, q, x), r) == NodeAt(EmptyNode, r[1..]);
        assert r == [n] + r[1..];
        assert ContentOf(EmptyNode) == EmptyContent;
      }
    } else {
      assert Replace(v, q, x).children.Keys == v.children.Keys;
      assert (q + [n])[1..] == q[1..] + [n] && (q + [n])[0] == q[0];
      if r != [] && r[0] == q[0] {
        ReplaceNewChild(v.children[q[0]], q[1..], x, n, r[1..]);
        assert r == q <==> r[1..] == q[1..];
        assert r == q + [n] <==> r[1..] == q[1..] + [n];
      }
    }
  }

  // ---------- A node laid out as a table of levels ----------

  type Table = map<seq<Name>, Content>

  ghost predicate Lays(table: Table, v: Node) {
    forall q :: ContentAt(v, q) == if q in table then Some(table[q]) else None
  }

  ghost predicate SameMarks(v: Node, w: Node) {
    forall p: Path :: BlobAt(v, p) == BlobAt(w, p) && (DeleteAt(v, p) <==> DeleteAt(w, p))
  }

  lemma LaysChildren(table: Table, v: Node, q: seq<Name>, n: Name)
    requires Lays(table, v) && q in table
    ensures NodeAt(v, q).Some? && (n in table[q].names <==> q + [n] in table)
  {
    assert ContentAt(v, q) == Some(table[q]);
    NodeAtAppend(v, q, n);
    assert ContentAt(v, q + [n]) == if q + [n] in table then Some(table[q + [n]]) else None;
  }

  lemma NoLevelBelow(table: Table, v: Node, q: seq<Name>, n: Name, m: Name)
    requires Lays(table, v) && q in table && q + [n] !in table
    ensures q + [n] + [m] !in table
  {
    LaysChildren(table, v, q, n);
    assert ContentAt(v, q + [n]) == None;
    NodeAtAppend(v, q, n);
    MissingBelow(v, q + [n], [m]);
    assert ContentAt(v, q + [n] + [m]) == None;
  }

  /** A missing child appears, empty; nothing is written or deleted by that. */
  lemma AddChild(table: Table, v: Node, q: seq<Name>, n: Name) returns (w: Node)
    requires Lays(table, v) && q in table && n !in table[q].names
    ensures Lays(table[q := table[q].(names := table[q].names + {n})][q + [n] := EmptyContent], w)
    ensures SameMarks(v, w)
  {
    LaysChildren(table, v, q, n);
    var x := NodeAt(v, q).value;
    var y := x.(children := x.children[n := EmptyNode]);
    w := Replace(v, q, y);
    assert ContentAt(v, q) == Some(table[q]);
    assert ContentOf(y) == table[q].(names := table[q].names + {n});
    forall r ensures ContentAt(w, r) ==
      if r == q then Some(ContentOf(y)) else if r == q + [n] then Some(EmptyContent) else ContentAt(v, r)
    {
      ReplaceNewChild(v, q, y, n, r);
    }
  }

  /** One level's own blobs and deletes change; no other level does. */
  lemma EditLevel(table: Table, v: Node, q: seq<Name>, c: Content) returns (w: Node)
    requires Lays(table, v) && q in table && c.names == table[q].names
    ensures Lays(table[q := c], w)
  {
    assert ContentAt(v, q) == Some(table[q]);
    var x := NodeAt(v, q).value;
    var y := x.(blobs := c.blobs, deletes := c.deletes);
    w := Replace(v, q, y);
    forall r ensures ContentAt(w, r) == if r == q then Some(c) else ContentAt(v, r) {
      ReplaceSameChildren(v, q, y, r);
    }
  }

  lemma EmptyClassifies()
    ensures Classifies(EmptyNode, map[], {})
  {
  }

  lemma LevelEdited(table: Table, v: Node, w: Node, q: seq<Name>, c: Content)
    requires Lays(table, v) && q in table && Lays(table[q := c], w)
    ensures forall r :: ContentAt(w, r) == if r == q then Some(c) else ContentAt(v, r)
    ensures forall r :: NodeAt(w, r).Some? <==> NodeAt(v, r).Some?
  {
    forall r ensures NodeAt(w, r).Some? <==> NodeAt(v, r).Some? {
      assert ContentAt(w, r) == if r == q then Some(c) else ContentAt(v, r);
    }
  }

  lemma BlobMarked(table: Table, v: Node, w: Node, p: Path, b: Blob)
    requires Lays(table, v) && Init(p) in table
    requires Lays(table[Init(p) := table[Init(p)].(blobs := table[Init(p)].blobs[Last(p) := b])], w)
    ensures forall r: Path :: BlobAt(w, r) == if r == p then Some(b) else BlobAt(v, r)
    ensures forall r: Path :: DeleteAt(w, r) <==> DeleteAt(v, r)
    ensures forall r :: NodeAt(w, r).Some? <==> NodeAt(v, r).Some?
  {
    LevelEdited(table, v, w, Init(p), table[Init(p)].(blobs := table[Init(p)].blobs[Last(p) := b]));
    forall r: Path ensures r == p <==> Init(r) == Init(p) && Last(r) == Last(p) {
      assert r == Init(r) + [Last(r)] && p == Init(p) + [Last(p)];
    }
  }

  lemma DeleteMarked(table: Table, v: Node, w: Node, p: Path)
    requires Lays(table, v) && Init(p) in table
    requires Lays(table[Init(p) := table[Init(p)].(deletes := table[Init(p)].deletes + {Last(p)})], w)
    ensures forall r: Path :: BlobAt(w, r) == BlobAt(v, r)
    ensures forall r: Path :: DeleteAt(w, r) <==> r == p || DeleteAt(v, r)
    ensures forall r :: NodeAt(w, r).Some? <==> NodeAt(v, r).Some?
  {
    LevelEdited(table, v, w, Init(p), table[Init(p)].(deletes := table[Init(p)].deletes + {Last(p)}));
    forall r: Path ensures r == p <==> Init(r) == Init(p) && Last(r) == Last(p) {
      assert r == Init(r) + [Last(r)] && p == Init(p) + [Last(p)];
    }
  }

  /** Marking one more path, on levels grown to reach it, classifies one more path. */
  lemma ClassifyOneBlob(v: Node, w: Node, changes: map<Path, Blob>, deletes: set<Path>, p: Path, b: Blob)
    requires Classifies(v, changes, deletes)
    requires forall r: Path :: BlobAt(w, r) == if r == p then Some(b) else BlobAt(v, r)
    requires forall r: Path :: DeleteAt(w, r) <==> DeleteAt(v, r)
    requires forall q :: NodeAt(w, q).Some? <==> NodeAt(v, q).Some? || q < p
    ensures Classifies(w, changes[p := b], deletes)
  {
    forall q ensures NodeAt(w, q).Some? <==> PassesThrough(changes[p := b].Keys + deletes, q) {
      assert NodeAt(v, q).Some? <==> PassesThrough(changes.Keys + deletes, q);
      if q < p { assert p in changes[p := b].Keys + deletes; }
    }
  }

  lemma ClassifyOneDelete(v: Node, w: Node, changes: map<Path, Blob>, deletes: set<Path>, p: Path)
    requires Classifies(v, changes, deletes)
    requires forall r: Path :: BlobAt(w, r) == BlobAt(v, r)
    requires forall r: Path :: DeleteAt(w, r) <==> r == p || DeleteAt(v, r)
    requires forall q :: NodeAt(w, q).Some? <==> NodeAt(v, q).Some? || q < p
    ensures Classifies(w, changes, deletes + {p})
  {
    forall q ensures NodeAt(w, q).Some? <==> PassesThrough(changes.Keys + (deletes + {p}), q) {
      assert NodeAt(v, q).Some? <==> PassesThrough(changes.Keys + deletes, q);
      if q < p { assert p in changes.Keys + (deletes + {p}); }
    }
  }
}
