/** Merging sorted changes into the previous tree, level by level. */
module TreeRebuild {
  import opened Options
  import opened GitTrees
  import opened ChangeNodes
  import opened TreeBuilder

  function EntryOf(prev: Option<Tree>, n: Name): Option<Entry> {
    if prev.Some? && n in prev.value.entries then Some(prev.value.entries[n]) else None
  }

  function NonEmptyDir(t: Tree): Option<Entry> {
    if t == EmptyTree then None else Some(Dir(t))
  }

  // ---------- What one level becomes, name by name ----------

  /** After walking the previous entries: the entry kept under a name, and whether it is settled. */
  ghost function AfterPrevious(prev: Option<Tree>, v: Node, n: Name): (Option<Entry>, bool)
    decreases v, 0
  {
    match EntryOf(prev, n)
    case None => (None, false)
    case Some(File(Regular(_))) =>
      if n in v.deletes then (None, false)
      else if n in v.blobs then (Some(File(Regular(v.blobs[n]))), true)
      else (EntryOf(prev, n), false)
    case Some(File(Link(_))) => (None, false)
    case Some(Dir(sub)) =>
      if n in v.children then (NonEmptyDir(Rebuild(Some(sub), v.children[n])), true)
      else (EntryOf(prev, n), false)
  }

  /** After adding the blobs not settled yet. */
  ghost function AfterBlobs(prev: Option<Tree>, v: Node, n: Name): Option<Entry>
    decreases v, 1
  {
    var (kept, settled) := AfterPrevious(prev, v, n);
    if n in v.blobs && !settled then Some(File(Regular(v.blobs[n]))) else kept
  }

  /** After adding the directories not settled yet; an empty one leaves the name as it was. */
  ghost function NewEntry(prev: Option<Tree>, v: Node, n: Name): Option<Entry>
    decreases v, 2
  {
    if n in v.children && !AfterPrevious(prev, v, n).1 && Rebuild(None, v.children[n]) != EmptyTree
    then Some(Dir(Rebuild(None, v.children[n])))
    else AfterBlobs(prev, v, n)
  }

  ghost function Rebuild(prev: Option<Tree>, v: Node): Tree
    decreases v, 3
  {
    var names := (if prev.Some? then prev.value.entries.Keys else {}) + v.blobs.Keys + v.children.Keys;
    Tree(map n | n in names && NewEntry(prev, v, n).Some? :: NewEntry(prev, v, n).value)
  }

  lemma RebuildEntry(prev: Option<Tree>, v: Node, n: Name)
    ensures EntryOf(Some(Rebuild(prev, v)), n) == NewEntry(prev, v, n)
  {
    if EntryOf(prev, n).None? && n !in v.blobs && n !in v.children {
      assert AfterPrevious(prev, v, n) == (None, false);
    }
  }

  // ---------- The recursive builder over the linked levels ----------

  ghost predicate Stands(l: Layout, q: seq<Name>, node: TreeNode, v: Node)
    reads l.objs
  {
    l.Valid() && q in l.at && node == l.at[q] && NodeAt(l.node, q) == Some(v)
  }

  lemma LevelReads(l: Layout, q: seq<Name>, node: TreeNode, v: Node)
    requires Stands(l, q, node, v)
    ensures node.blobs == v.blobs && node.deleteNames == v.deletes && node.children.Keys == v.children.Keys
  {
    assert ContentAt(l.node, q) == Some(l.TableOf()[q]);
  }

  lemma ChildStands(l: Layout, q: seq<Name>, node: TreeNode, v: Node, n: Name)
    requires Stands(l, q, node, v) && n in v.children
    ensures n in node.children && Stands(l, q + [n], node.children[n], v.children[n])
  {
    LevelReads(l, q, node, v);
    LaysChildren(l.TableOf(), l.node, q, n);
    NodeAtAppend(l.node, q, n);
  }

  function Got(tb: map<Name, Entry>, n: Name): Option<Entry> { if n in tb then Some(tb[n]) else None }

  method RebuildTree(prev: Option<Tree>, node: TreeNode, ghost l: Layout, ghost q: seq<Name>, ghost v: Node)
    returns (t: Tree)
    requires Stands(l, q, node, v)
    ensures t == Rebuild(prev, v)
    decreases v, 2
  {
    LevelReads(l, q, node, v);
    var tb, settled := KeepPrevious(prev, node, l, q, v);
    tb := AddBlobs(node, tb, settled);
    assert forall n :: Got(tb, n) == AfterBlobs(prev, v, n);
    tb := AddDirectories(node, tb, settled, l, q, v);
    t := Tree(tb);
    forall n ensures EntryOf(Some(t), n) == EntryOf(Some(Rebuild(prev, v)), n) {
      RebuildEntry(prev, v, n);
      assert Got(tb, n) == NewEntry(prev, v, n);
    }
    SameEntries(t, Rebuild(prev, v));
  }

  lemma SameEntries(t: Tree, u: Tree)
    requires forall n :: EntryOf(Some(t), n) == EntryOf(Some(u), n)
    ensures t == u
  {
    forall n ensures n in t.entries <==> n in u.entries {
      assert EntryOf(Some(t), n) == EntryOf(Some(u), n);
    }
    forall n | n in t.entries ensures t.entries[n] == u.entries[n] {
      assert EntryOf(Some(t), n) == EntryOf(Some(u), n);
    }
    assert t.entries == u.entries;
  }

  method RebuildChild(prev: Option<Tree>, node: TreeNode, name: Name, ghost l: Layout, ghost q: seq<Name>,
                      ghost v: Node)
    returns (t: Tree)
    requires Stands(l, q, node, v) && name in v.children
    ensures name in v.children && t == Rebuild(prev, v.children[name])
    decreases v, 0
  {
    ChildStands(l, q, node, v, name);
    t := RebuildTree(prev, node.children[name], l, q + [name], v.children[name]);
  }

  method KeepPrevious(prev: Option<Tree>, node: TreeNode, ghost l: Layout, ghost q: seq<Name>, ghost v: Node)
    returns (tb: map<Name, Entry>, settled: set<Name>)
    requires Stands(l, q, node, v)
    ensures forall n :: Got(tb, n) == AfterPrevious(prev, v, n).0
    ensures forall n :: n in settled <==> AfterPrevious(prev, v, n).1
    decreases v, 1
  {
    LevelReads(l, q, node, v);
    tb, settled := map[], {};
    if prev.None? { return; }
    var todo := prev.value.entries.Keys;
    while todo != {}
      invariant todo <= prev.value.entries.Keys
      invariant forall n :: Got(tb, n) == if n in todo then None else AfterPrevious(prev, v, n).0
      invariant forall n :: n in settled <==> n !in todo && AfterPrevious(prev, v, n).1
    {
      var name :| name in todo;
      todo := todo - {name};
      match prev.value.entries[name]
      case File(Regular(was)) =>
        if name in node.deleteNames {
        } else if name in node.blobs {
          tb := tb[name := File(Regular(node.blobs[name]))];
          settled := settled + {name};
        } else {
          tb := tb[name := File(Regular(was))];
        }
      case File(Link(_)) =>
      case Dir(sub) =>
        if name in node.children {
          var rebuilt := RebuildChild(Some(sub), node, name, l, q, v);
          if rebuilt != EmptyTree { tb := tb[name := Dir(rebuilt)]; }
          settled := settled + {name};
        } else {
          tb := tb[name := Dir(sub)];
        }
    }
  }

  /** The table tb0 with every blob written over it, except under the names to skip. */
  ghost function WithBlobs(tb0: map<Name, Entry>, blobs: map<Name, Blob>, skip: set<Name>, n: Name): Option<Entry> {
    if n in blobs && n !in skip then Some(File(Regular(blobs[n]))) else Got(tb0, n)
  }

  method AddBlobs(node: TreeNode, tb0: map<Name, Entry>, settled: set<Name>)
    returns (tb: map<Name, Entry>)
    ensures forall n :: Got(tb, n) == WithBlobs(tb0, node.blobs, settled, n)
  {
    tb := tb0;
    var todo := node.blobs.Keys;
    while todo != {}
      invariant todo <= node.blobs.Keys
      invariant forall n :: Got(tb, n) == WithBlobs(tb0, node.blobs, settled + todo, n)
    {
      var name :| name in todo;
      todo := todo - {name};
      ghost var before := tb;
      if name !in settled { tb := tb[name := File(Regular(node.blobs[name]))]; }
      assert forall n ::
        Got(tb, n) == if n == name && n !in settled then Some(File(Regular(node.blobs[n]))) else Got(before, n);
    }
  }

  /** The table tb0 with every new non-empty directory written over it, except under the names to skip. */
  ghost function WithDirs(tb0: map<Name, Entry>, v: Node, skip: set<Name>, n: Name): Option<Entry> {
    if n in v.children && n !in skip && Rebuild(None, v.children[n]) != EmptyTree
    then Some(Dir(Rebuild(None, v.children[n])))
    else Got(tb0, n)
  }

  method AddDirectories(node: TreeNode, tb0: map<Name, Entry>, settled: set<Name>,
                        ghost l: Layout, ghost q: seq<Name>, ghost v: Node)
    returns (tb: map<Name, Entry>)
    requires Stands(l, q, node, v)
    ensures forall n :: Got(tb, n) == WithDirs(tb0, v, settled, n)
    decreases v, 1
  {
    LevelReads(l, q, node, v);
    tb := tb0;
    var todo := node.children.Keys;
    while todo != {}
      invariant Stands(l, q, node, v) && todo <= v.children.Keys
      invariant forall n :: Got(tb, n) == WithDirs(tb0, v, settled + todo, n)
    {
      var name :| name in todo;
      todo := todo - {name};
      ghost var before := tb;
      if name !in settled {
        var rebuilt := RebuildChild(None, node, name, l, q, v);
        if rebuilt != EmptyTree { tb := tb[name := Dir(rebuilt)]; }
      }
      assert forall n :: n != name ==> Got(tb, n) == Got(before, n);
    }
  }
}
