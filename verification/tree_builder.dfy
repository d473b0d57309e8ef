/** The incremental tree builder: sort a flat list of changes into linked levels, then merge the
    levels into the previous tree. */
module TreeBuilder {
  import opened Options
  import opened GitTrees
  import opened ChangeNodes

  /** One level of the linked structure that `_TreeNode.build` fills in place. */
  class TreeNode {
    var blobs: map<Name, Blob>
    var deleteNames: set<Name>
    var children: map<Name, TreeNode>

    constructor ()
      ensures Here() == EmptyContent
    {
      blobs, deleteNames, children := map[], {}, map[];
    }

    ghost function Here(): Content
      reads this
    {
      Content(blobs, deleteNames, children.Keys)
    }
  }

  /** The linked levels of a build: which object sits at which path, and the value they stand for. */
  datatype Layout = Layout(at: map<seq<Name>, TreeNode>, objs: set<TreeNode>, node: Node) {
    ghost predicate Placed() {
      forall q | q in at :: at[q] in objs
    }

    ghost function TableOf(): Table
      requires Placed()
      reads objs
    {
      map q | q in at :: at[q].Here()
    }

    /** Distinct paths are distinct objects, and a child link leads where its path says. */
    ghost predicate Linked()
      requires Placed()
      reads objs
    {
      && (forall q, n | q in at && q + [n] in at :: n in at[q].children && at[q].children[n] == at[q + [n]])
      && (forall q, r | q in at && r in at && at[q] == at[r] :: q == r)
    }

    ghost predicate Valid()
      reads objs
    {
      Placed() && Linked() && Lays(TableOf(), node)
    }

    ghost predicate RootedAt(root: TreeNode)
    {
      [] in at && at[[]] == root
    }

    ghost function WithLevel(q: seq<Name>, obj: TreeNode, v: Node): Layout {
      Layout(at[q := obj], objs + {obj}, v)
    }
  }

  // ---------- Hanging a new child ----------

  lemma LinkedAfterHanging(l: Layout, table: Table, v: Node, w: Node, q: seq<Name>, n: Name, child: TreeNode)
    requires l.Placed() && l.Linked() && q in l.at && q + [n] !in l.at && child !in l.objs
    requires n in l.at[q].children && l.at[q].children[n] == child
    requires Lays(table, v) && table.Keys == l.at.Keys
    ensures l.WithLevel(q + [n], child, w).Placed() && l.WithLevel(q + [n], child, w).Linked()
  {
    var at' := l.at[q + [n] := child];
    forall r, m | r in at' && r + [m] in at'
      ensures m in at'[r].children && at'[r].children[m] == at'[r + [m]]
    {
      assert (r + [m])[..|r|] == r && (q + [n])[..|q|] == q;
      if r == q + [n] {
        NoLevelBelow(table, v, q, n, m);
      }
    }
  }

  lemma TableAfterHanging(l: Layout, q: seq<Name>, obj: TreeNode, v: Node)
    requires l.Placed() && l.WithLevel(q, obj, v).Placed()
    ensures l.WithLevel(q, obj, v).TableOf() == l.TableOf()[q := obj.Here()]
  {
  }

  /** Make the child and link it. A link that leads where no level is yet breaks none. */
  method LinkChild(node: TreeNode, part: Name, ghost l: Layout, ghost q: seq<Name>)
    returns (child: TreeNode)
    requires l.Placed() && l.Linked() && q in l.at && node == l.at[q]
    requires part !in node.children && q + [part] !in l.at
    modifies node
    ensures fresh(child) && child.Here() == EmptyContent
    ensures l.Linked() && node.children == old(node.children)[part := child]
    ensures node.Here() == old(node.Here()).(names := old(node.Here()).names + {part})
  {
    child := new TreeNode();
    ghost var names := node.children.Keys;
    node.children := node.children[part := child];
    assert node.children.Keys == names + {part};
  }

  method HangChild(node: TreeNode, part: Name, ghost l: Layout, ghost q: seq<Name>)
    returns (child: TreeNode)
    requires l.Placed() && l.Linked() && q in l.at && node == l.at[q]
    requires part !in node.children && q + [part] !in l.at
    modifies node
    ensures fresh(child) && child.Here() == EmptyContent
    ensures l.Linked() && part in node.children && node.children[part] == child
    ensures l.TableOf() == old(l.TableOf()[q := l.TableOf()[q].(names := l.TableOf()[q].names + {part})])
  {
    child := LinkChild(node, part, l, q);
  }

  method NewChild(node: TreeNode, part: Name, ghost l: Layout, ghost q: seq<Name>)
    returns (child: TreeNode, ghost l': Layout)
    requires l.Valid() && q in l.at && node == l.at[q] && part !in node.children
    modifies node
    ensures fresh(child) && q + [part] !in l.at
    ensures l'.Valid() && l' == l.WithLevel(q + [part], child, l'.node) && SameMarks(l.node, l'.node)
  {
    ghost var table := l.TableOf();
    LaysChildren(table, l.node, q, part);
    ghost var w := AddChild(table, l.node, q, part);
    child := HangChild(node, part, l, q);
    LinkedAfterHanging(l, table, l.node, w, q, part, child);
    TableAfterHanging(l, q + [part], child, w);
    l' := l.WithLevel(q + [part], child, w);
  }

  /** The child of a level, made if it is missing. */
  method ChildOf(node: TreeNode, part: Name, ghost l: Layout, ghost q: seq<Name>)
    returns (child: TreeNode, ghost l': Layout)
    requires l.Valid() && q in l.at && node == l.at[q]
    modifies node
    ensures l'.Valid() && q + [part] in l'.at && child == l'.at[q + [part]]
    ensures forall r :: r in l'.at <==> r in l.at || r == q + [part]
    ensures forall r | r in l.at :: l'.at[r] == l.at[r]
    ensures fresh(l'.objs - l.objs) && SameMarks(l.node, l'.node) && child in l'.objs
  {
    if part !in node.children {
      child, l' := NewChild(node, part, l, q);
    } else {
      l' := l;
      LaysChildren(l.TableOf(), l.node, q, part);
      child := node.children[part];
    }
  }

  /** The levels of a layout once the walk has come down to a path. */
  ghost predicate GrownTo(l: Layout, l': Layout, here: seq<Name>) {
    && (forall r :: r in l'.at <==> r in l.at || r <= here)
    && SameMarks(l.node, l'.node)
  }

  lemma RootPlaced(root: TreeNode, l: Layout)
    requires l.Valid() && l.RootedAt(root)
    ensures GrownTo(l, l, []) && [] in l.at && l.at[[]] == root && root in l.objs
  {
  }

  method StepDown(node: TreeNode, part: Name, ghost l0: Layout, ghost l: Layout, ghost here: seq<Name>)
    returns (child: TreeNode, ghost l': Layout)
    requires l.Valid() && here in l.at && node == l.at[here] && GrownTo(l0, l, here)
    modifies node
    ensures l'.Valid() && here + [part] in l'.at && child == l'.at[here + [part]] && child in l'.objs
    ensures GrownTo(l0, l', here + [part]) && forall root | l.RootedAt(root) :: l'.RootedAt(root)
    ensures fresh(l'.objs - l.objs)
  {
    hide Layout.Valid;
    child, l' := ChildOf(node, part, l, here);
    OneStepFurther(l.at.Keys, l'.at.Keys, l0.at.Keys, here, part);
  }

  /** Walk down from the root, making the levels that are missing. */
  method Descend(root: TreeNode, dirs: seq<Name>, ghost l: Layout)
    returns (node: TreeNode, ghost l': Layout)
    requires l.Valid() && l.RootedAt(root)
    modifies l.objs
    ensures node in l'.objs
    ensures l'.Valid() && l'.RootedAt(root) && dirs in l'.at && node == l'.at[dirs] && GrownTo(l, l', dirs)
    ensures fresh(l'.objs - l.objs)
  {
    hide Layout.Valid, Layout.RootedAt, GrownTo;
    RootPlaced(root, l);
    node, l' := root, l;
    ghost var here: seq<Name> := [];
    var i := 0;
    while i < |dirs|
      invariant 0 <= i <= |dirs| && here == dirs[..i]
      invariant l'.Valid() && l'.RootedAt(root) && here in l'.at && node == l'.at[here] && node in l'.objs
      invariant GrownTo(l, l', here) && fresh(l'.objs - l.objs)
    {
      node, l' := StepDown(node, dirs[i], l, l', here);
      here := here + [dirs[i]];
      i := i + 1;
    }
    assert dirs[..i] == dirs;
  }

  lemma OneStepFurther(before: set<seq<Name>>, after: set<seq<Name>>, start: set<seq<Name>>, here: seq<Name>,
                       part: Name)
    requires forall r :: r in before <==> r in start || r <= here
    requires forall r :: r in after <==> r in before || r == here + [part]
    ensures forall r :: r in after <==> r in start || r <= here + [part]
  {
    forall r ensures r in after <==> r in start || r <= here + [part] {
      assert r <= here + [part] <==> r <= here || r == here + [part];
    }
  }

  // ---------- Marking a path ----------

  method SetBlob(node: TreeNode, name: Name, b: Blob, ghost l: Layout, ghost q: seq<Name>)
    requires l.Placed() && l.Linked() && q in l.at && node == l.at[q]
    modifies node
    ensures l.Linked()
    ensures l.TableOf() == old(l.TableOf()[q := l.TableOf()[q].(blobs := l.TableOf()[q].blobs[name := b])])
  {
    node.blobs := node.blobs[name := b];
  }

  method SetDelete(node: TreeNode, name: Name, ghost l: Layout, ghost q: seq<Name>)
    requires l.Placed() && l.Linked() && q in l.at && node == l.at[q]
    modifies node
    ensures l.Linked()
    ensures l.TableOf() == old(l.TableOf()[q := l.TableOf()[q].(deletes := l.TableOf()[q].deletes + {name})])
  {
    node.deleteNames := node.deleteNames + {name};
  }

  lemma LevelsAreNodes(l: Layout)
    requires l.Valid()
    ensures forall r :: r in l.at <==> NodeAt(l.node, r).Some?
  {
    forall r ensures r in l.at <==> NodeAt(l.node, r).Some? {
      assert ContentAt(l.node, r) == if r in l.TableOf() then Some(l.TableOf()[r]) else None;
    }
  }

  method MarkBlob(node: TreeNode, p: Path, b: Blob, ghost l: Layout)
    returns (ghost l': Layout)
    requires l.Valid() && Init(p) in l.at && node == l.at[Init(p)]
    modifies node
    ensures l'.Valid() && l'.at == l.at && l'.objs == l.objs
    ensures forall r: Path :: BlobAt(l'.node, r) == if r == p then Some(b) else BlobAt(l.node, r)
    ensures forall r: Path :: DeleteAt(l'.node, r) <==> DeleteAt(l.node, r)
    ensures forall r :: NodeAt(l'.node, r).Some? <==> NodeAt(l.node, r).Some?
  {
    ghost var table := l.TableOf();
    ghost var c := table[Init(p)].(blobs := table[Init(p)].blobs[Last(p) := b]);
    ghost var v := EditLevel(table, l.node, Init(p), c);
    SetBlob(node, Last(p), b, l, Init(p));
    l' := Layout(l.at, l.objs, v);
    BlobMarked(table, l.node, v, p, b);
  }

  method MarkDelete(node: TreeNode, p: Path, ghost l: Layout)
    returns (ghost l': Layout)
    requires l.Valid() && Init(p) in l.at && node == l.at[Init(p)]
    modifies node
    ensures l'.Valid() && l'.at == l.at && l'.objs == l.objs
    ensures forall r: Path :: BlobAt(l'.node, r) == BlobAt(l.node, r)
    ensures forall r: Path :: DeleteAt(l'.node, r) <==> r == p || DeleteAt(l.node, r)
    ensures forall r :: NodeAt(l'.node, r).Some? <==> NodeAt(l.node, r).Some?
  {
    ghost var table := l.TableOf();
    ghost var c := table[Init(p)].(deletes := table[Init(p)].deletes + {Last(p)});
    ghost var v := EditLevel(table, l.node, Init(p), c);
    SetDelete(node, Last(p), l, Init(p));
    l' := Layout(l.at, l.objs, v);
    DeleteMarked(table, l.node, v, p);
  }

  method AddBlob(root: TreeNode, p: Path, b: Blob, ghost l: Layout,
                 ghost changes: map<Path, Blob>, ghost deletes: set<Path>)
    returns (ghost l': Layout)
    requires l.Valid() && l.RootedAt(root) && Classifies(l.node, changes, deletes)
    modifies l.objs
    ensures l'.Valid() && l'.RootedAt(root) && Classifies(l'.node, changes[p := b], deletes)
    ensures fresh(l'.objs - l.objs)
  {
    hide Layout.Valid, Classifies;
    var node;
    ghost var grown;
    LevelsAreNodes(l);
    node, grown := Descend(root, Init(p), l);
    LevelsAreNodes(grown);
    l' := MarkBlob(node, p, b, grown);
    NodesReach(l.node, grown.node, l'.node, p);
    ClassifyOneBlob(l.node, l'.node, changes, deletes, p, b);
  }

  method AddDelete(root: TreeNode, p: Path, ghost l: Layout,
                   ghost changes: map<Path, Blob>, ghost deletes: set<Path>)
    returns (ghost l': Layout)
    requires l.Valid() && l.RootedAt(root) && Classifies(l.node, changes, deletes)
    modifies l.objs
    ensures l'.Valid() && l'.RootedAt(root) && Classifies(l'.node, changes, deletes + {p})
    ensures fresh(l'.objs - l.objs)
  {
    hide Layout.Valid, Classifies;
    var node;
    ghost var grown;
    LevelsAreNodes(l);
    node, grown := Descend(root, Init(p), l);
    LevelsAreNodes(grown);
    l' := MarkDelete(node, p, grown);
    NodesReach(l.node, grown.node, l'.node, p);
    ClassifyOneDelete(l.node, l'.node, changes, deletes, p);
  }

  lemma NodesReach(v: Node, grown: Node, w: Node, p: Path)
    requires forall r :: NodeAt(grown, r).Some? <==> NodeAt(v, r).Some? || r <= Init(p)
    requires forall r :: NodeAt(w, r).Some? <==> NodeAt(grown, r).Some?
    ensures forall r :: NodeAt(w, r).Some? <==> NodeAt(v, r).Some? || r < p
  {
    forall r ensures NodeAt(w, r).Some? <==> NodeAt(v, r).Some? || r < p {
      assert p == Init(p) + [Last(p)];
      assert r <= Init(p) <==> r < p;
    }
  }

  // ---------- The whole build ----------

  method AddBlobs(root: TreeNode, changes: map<Path, Blob>, ghost l0: Layout)
    returns (ghost l: Layout)
    requires l0.Valid() && l0.RootedAt(root) && Classifies(l0.node, map[], {})
    modifies l0.objs
    ensures l.Valid() && l.RootedAt(root) && fresh(l.objs - l0.objs) && Classifies(l.node, changes, {})
  {
    hide Layout.Valid, Classifies;
    l := l0;
    var todo := changes.Keys;
    ghost var done: map<Path, Blob> := map[];
    while todo != {}
      invariant todo <= changes.Keys && done == map p | p in changes && p !in todo :: changes[p]
      invariant l.Valid() && l.RootedAt(root) && fresh(l.objs - l0.objs) && Classifies(l.node, done, {})
    {
      var p :| p in todo;
      l := AddBlob(root, p, changes[p], l, done, {});
      done := done[p := changes[p]];
      todo := todo - {p};
    }
    assert done == changes;
  }

  method AddDeletes(root: TreeNode, deletes: set<Path>, ghost l0: Layout, ghost changes: map<Path, Blob>)
    returns (ghost l: Layout)
    requires l0.Valid() && l0.RootedAt(root) && Classifies(l0.node, changes, {})
    modifies l0.objs
    ensures l.Valid() && l.RootedAt(root) && fresh(l.objs - l0.objs) && Classifies(l.node, changes, deletes)
  {
    hide Layout.Valid, Classifies;
    l := l0;
    var todo := deletes;
    ghost var gone: set<Path> := {};
    while todo != {}
      invariant todo <= deletes && gone == deletes - todo
      invariant l.Valid() && l.RootedAt(root) && fresh(l.objs - l0.objs) && Classifies(l.node, changes, gone)
    {
      var p :| p in todo;
      l := AddDelete(root, p, l, changes, gone);
      gone := gone + {p};
      todo := todo - {p};
    }
    assert gone == deletes;
  }

  method NewRoot() returns (root: TreeNode, ghost l: Layout)
    ensures l.Valid() && l.RootedAt(root) && l.node == EmptyNode && fresh(l.objs)
  {
    root := new TreeNode();
    l := Layout(map[[] := root], {root}, EmptyNode);
    RootAlone(l, root);
  }

  /** Sort every change and every delete into linked levels. */
  method Build(changes: map<Path, Blob>, deletes: set<Path>)
    returns (root: TreeNode, ghost l: Layout)
    ensures l.Valid() && l.RootedAt(root) && fresh(l.objs)
    ensures Classifies(l.node, changes, deletes)
  {
    root, l := NewRoot();
    EmptyClassifies();
    l := AddBlobs(root, changes, l);
    l := AddDeletes(root, deletes, l, changes);
  }

  lemma RootAlone(l: Layout, root: TreeNode)
    requires l == Layout(map[[] := root], {root}, EmptyNode) && root.Here() == EmptyContent
    ensures l.Valid()
  {
    assert ContentOf(EmptyNode) == EmptyContent;
    assert l.TableOf() == map[[] := EmptyContent];
  }
}
