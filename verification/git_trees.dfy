/** Git trees as the importer sees them: nested directories of blobs (and of submodule links, which
    the incremental builder does not carry along), read as flat maps from paths to leaves. */
module GitTrees {
  import opened Options

  type Name = string
  type Oid = string

  /** A path split at its slashes; splitting any string gives at least one part. */
  type Path = p: seq<Name> | |p| > 0 witness [""]

  datatype Blob = Blob(oid: Oid, mode: int)
  datatype Leaf = Regular(blob: Blob) | Link(target: Oid)
  datatype Entry = File(leaf: Leaf) | Dir(tree: Tree)
  datatype Tree = Tree(entries: map<Name, Entry>)

  const EmptyTree: Tree := Tree(map[])

  function Init(p: Path): seq<Name> { p[..|p| - 1] }

  function Last(p: Path): Name { p[|p| - 1] }

  ghost predicate PrefixFree(paths: set<Path>) {
    forall p, q | p in paths && q in paths :: !(p < q)
  }

  // ---------- Reading a tree ----------

  ghost function Lookup(t: Tree, p: Path): Option<Leaf>
    decreases |p|
  {
    if p[0] !in t.entries then None
    else match t.entries[p[0]]
      case File(leaf) => if |p| == 1 then Some(leaf) else None
      case Dir(sub) => if |p| == 1 then None else Lookup(sub, p[1..])
  }

  /** p names a directory of t. */
  ghost predicate IsDirectory(t: Tree, p: Path)
    decreases |p|
  {
    && p[0] in t.entries
    && t.entries[p[0]].Dir?
    && (|p| == 1 || IsDirectory(t.entries[p[0]].tree, p[1..]))
  }

  ghost function FilePaths(t: Tree): set<Path>
    decreases t
  {
    (set n | n in t.entries && t.entries[n].File? :: [n]) +
    (set n, q | n in t.entries && t.entries[n].Dir? && q in FilePaths(t.entries[n].tree) :: [n] + q)
  }

  lemma {:induction false} FilePathsAreLookups(t: Tree, p: Path)
    ensures p in FilePaths(t) <==> Lookup(t, p).Some?
    decreases t
  {
    if p[0] in t.entries {
      assert p == [p[0]] + p[1..];
      var e := t.entries[p[0]];
      if e.Dir? {
        if |p| > 1 {
          FilePathsAreLookups(e.tree, p[1..]);
        } else {
          assert forall q: Path :: |[p[0]] + q| > 1;
        }
      } else if |p| == 1 {
        assert p == [p[0]];
      }
      assert forall n: Name, q: seq<Name> :: ([n] + q)[0] == n && ([n] + q)[1..] == q;
    }
  }

  /** The recursive listing of a tree. */
  ghost function Flat(t: Tree): (m: map<Path, Leaf>)
    ensures forall p: Path :: p in m <==> Lookup(t, p).Some?
    ensures forall p: Path | p in m :: Lookup(t, p) == Some(m[p])
  {
    assert forall p: Path :: p in FilePaths(t) <==> Lookup(t, p).Some? by {
      forall p: Path ensures p in FilePaths(t) <==> Lookup(t, p).Some? { FilePathsAreLookups(t, p); }
    }
    map p | p in FilePaths(t) :: Lookup(t, p).value
  }

  lemma {:induction false} LookupBelowFile(t: Tree, p: Path, q: Path)
    requires Lookup(t, p).Some? && p < q
    ensures Lookup(t, q).None?
    decreases |p|
  {
    if |p| > 1 { LookupBelowFile(t.entries[p[0]].tree, p[1..], q[1..]); }
  }

  /** No tree lists both a path and something below it. */
  lemma FlatIsPrefixFree(t: Tree)
    ensures PrefixFree(Flat(t).Keys)
  {
    forall p, q | p in Flat(t).Keys && q in Flat(t).Keys ensures !(p < q) {
      if p < q { LookupBelowFile(t, p, q); }
    }
  }

  // ---------- Trees without empty directories ----------

  ghost predicate Canonical(t: Tree)
    decreases t
  {
    forall n | n in t.entries && t.entries[n].Dir? ::
      t.entries[n].tree != EmptyTree && Canonical(t.entries[n].tree)
  }

  lemma {:induction false} SomeLeaf(t: Tree) returns (p: Path)
    requires Canonical(t) && t != EmptyTree
    ensures Lookup(t, p).Some?
    decreases t
  {
    var n :| n in t.entries;
    if t.entries[n].File? {
      p := [n];
    } else {
      var q := SomeLeaf(t.entries[n].tree);
      p := [n] + q;
    }
  }

  ghost predicate ListsBelow(t: Tree, p: Path, q: Path) {
    Lookup(t, q).Some? && p < q
  }

  lemma {:induction false} FileBelow(t: Tree, p: Path) returns (q: Path)
    requires Canonical(t) && IsDirectory(t, p)
    ensures ListsBelow(t, p, q)
    decreases |p|
  {
    var s := t.entries[p[0]].tree;
    var r: Path;
    if |p| == 1 { r := SomeLeaf(s); } else { r := FileBelow(s, p[1..]); }
    q := [p[0]] + r;
    assert q[1..] == r;
  }

  lemma {:induction false} PrefixIsDirectory(t: Tree, p: Path, q: Path)
    requires ListsBelow(t, p, q)
    ensures IsDirectory(t, p)
    decreases |p|
  {
    if |p| > 1 { PrefixIsDirectory(t.entries[p[0]].tree, p[1..], q[1..]); }
  }

  lemma SubtreesAgree(t: Tree, u: Tree, n: Name)
    requires n in t.entries && n in u.entries && t.entries[n].Dir? && u.entries[n].Dir?
    requires forall p: Path :: Lookup(t, p) == Lookup(u, p)
    ensures forall p: Path :: Lookup(t.entries[n].tree, p) == Lookup(u.entries[n].tree, p)
  {
    forall p: Path ensures Lookup(t.entries[n].tree, p) == Lookup(u.entries[n].tree, p) {
      assert Lookup(t, [n] + p) == Lookup(u, [n] + p);
    }
  }

  lemma {:induction false} EntryDetermined(t: Tree, u: Tree, n: Name)
    requires Canonical(t) && Canonical(u)
    requires forall p: Path :: Lookup(t, p) == Lookup(u, p)
    requires n in t.entries
    ensures n in u.entries && t.entries[n].Dir? == u.entries[n].Dir?
    ensures t.entries[n].File? ==> u.entries[n] == t.entries[n]
  {
    assert Lookup(t, [n]) == Lookup(u, [n]);
    if t.entries[n].Dir? {
      var q := SomeLeaf(t.entries[n].tree);
      assert Lookup(t, [n] + q).Some?;
      assert Lookup(u, [n] + q).Some?;
    }
  }

  lemma {:induction false} LookupDetermines(t: Tree, u: Tree)
    requires Canonical(t) && Canonical(u)
    requires forall p: Path :: Lookup(t, p) == Lookup(u, p)
    ensures t == u
    decreases t
  {
    forall n | n in t.entries || n in u.entries
      ensures n in t.entries && n in u.entries && t.entries[n] == u.entries[n]
    {
      if n in t.entries { EntryDetermined(t, u, n); } else { EntryDetermined(u, t, n); }
      if t.entries[n].Dir? {
        SubtreesAgree(t, u, n);
        LookupDetermines(t.entries[n].tree, u.entries[n].tree);
      }
    }
    assert t.entries == u.entries;
  }

  /** Two trees without empty directories that list the same files are the same tree. */
  lemma CanonicalTreesAreTheirListings(t: Tree, u: Tree)
    requires Canonical(t) && Canonical(u) && Flat(t) == Flat(u)
    ensures t == u
  {
    forall p: Path ensures Lookup(t, p) == Lookup(u, p) {
      assert p in Flat(t) <==> p in Flat(u);
    }
    LookupDetermines(t, u);
  }
}
