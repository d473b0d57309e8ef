/** Whole histories: folding the incremental builder over a list of changelists. */
module TreeHistory {
  import opened Options
  import opened GitTrees
  import opened ChangeNodes
  import opened TreeBuilder
  import opened TreeRebuild
  import opened TreeRefinement

  /** One changelist, with the sorted form the builder works from. */
  datatype Step = Step(changes: map<Path, Blob>, deletes: set<Path>, node: Node)

  ghost function TreeAfter(steps: seq<Step>): Option<Tree> {
    if steps == [] then None
    else Some(Rebuild(TreeAfter(steps[..|steps| - 1]), steps[|steps| - 1].node))
  }

  ghost function FlatAfter(steps: seq<Step>): map<Path, Leaf> {
    if steps == [] then map[]
    else Reference(FlatAfter(steps[..|steps| - 1]), steps[|steps| - 1].changes, steps[|steps| - 1].deletes)
  }

  /** Every step is sorted correctly and merges cleanly into what came before it. */
  ghost predicate MergesThroughout(steps: seq<Step>) {
    steps == [] ||
    var before, s := steps[..|steps| - 1], steps[|steps| - 1];
    && MergesThroughout(before)
    && Classifies(s.node, s.changes, s.deletes)
    && Mergeable(FlatAfter(before), s.changes, s.deletes)
  }

  ghost function Blobs(m: map<Path, Leaf>): map<Path, Blob> {
    map p | p in m && m[p].Regular? :: m[p].blob
  }

  lemma {:induction false} HistoryInvariant(steps: seq<Step>)
    requires MergesThroughout(steps)
    ensures CanonicalIn(TreeAfter(steps)) && Listing(TreeAfter(steps)) == FlatAfter(steps)
    ensures forall p | p in FlatAfter(steps) :: FlatAfter(steps)[p].Regular?
    ensures PrefixFree(FlatAfter(steps).Keys)
  {
    if steps != [] {
      var before, s := steps[..|steps| - 1], steps[|steps| - 1];
      HistoryInvariant(before);
      IncrementalRefinesReference(TreeAfter(before), s.node, s.changes, s.deletes);
      RebuildIsCanonical(TreeAfter(before), s.node);
    }
  }

  lemma ScratchBuild(m: map<Path, Leaf>, w: Node)
    requires PrefixFree(m.Keys) && (forall p | p in m :: m[p].Regular?) && Classifies(w, Blobs(m), {})
    ensures Canonical(Rebuild(None, w)) && Flat(Rebuild(None, w)) == m
  {
    assert Reference(map[], Blobs(m), {}) == m;
    IncrementalRefinesReference(None, w, Blobs(m), {});
    RebuildIsCanonical(None, w);
  }

  /** The tree a history ends in is the very tree built from nothing out of its final files. */
  lemma HistoryEndsInScratchBuild(steps: seq<Step>, w: Node)
    requires steps != [] && MergesThroughout(steps) && Classifies(w, Blobs(FlatAfter(steps)), {})
    ensures TreeAfter(steps) == Some(Rebuild(None, w))
  {
    HistoryInvariant(steps);
    ScratchBuild(FlatAfter(steps), w);
    CanonicalTreesAreTheirListings(TreeAfter(steps).value, Rebuild(None, w));
  }

  /** Enough for a clean merge: no path above another anywhere, and no links. */
  lemma PrefixFreeInputsMerge(base: map<Path, Leaf>, changes: map<Path, Blob>, deletes: set<Path>)
    requires PrefixFree(base.Keys + changes.Keys + deletes)
    requires forall p | p in base :: base[p].Regular?
    ensures Mergeable(base, changes, deletes)
  {
    var all := base.Keys + changes.Keys + deletes;
    forall p, q | p in changes && q in base ensures !(p < q) { assert p in all && q in all; }
  }

  /** Building the tree of one commit: empty directories never appear, and the files are the
      reference's exactly when the changelist merges cleanly. */
  method BuildTreeIncremental(prev: Option<Tree>, fileChanges: seq<(Path, Blob)>, deletes: set<Path>)
    returns (t: Tree)
    requires CanonicalIn(prev)
    ensures Canonical(t)
    ensures Flat(t) == Reference(Listing(prev), LastWrites(fileChanges), deletes)
        <==> Mergeable(Listing(prev), LastWrites(fileChanges), deletes)
  {
    var pathBlobs: map<Path, Blob> := map[];
    for i := 0 to |fileChanges|
      invariant pathBlobs == LastWrites(fileChanges[..i])
    {
      assert fileChanges[..i + 1] == fileChanges[..i] + [fileChanges[i]];
      pathBlobs := pathBlobs[fileChanges[i].0 := fileChanges[i].1];
    }
    assert fileChanges[..|fileChanges|] == fileChanges;
    var root;
    ghost var l;
    root, l := Build(pathBlobs, deletes);
    t := RebuildTree(prev, root, l, [], l.node);
    RebuildIsCanonical(prev, l.node);
    IncrementalRefinesReference(prev, l.node, pathBlobs, deletes);
  }

  /** A written path that is a directory of the previous tree, with some change below it, is lost. */
  lemma {:induction false} ReplacedDirectoryIsLost(prev: Option<Tree>, v: Node, p: Path)
    requires BlobAt(v, p).Some? && DirectoryIn(prev, p) && NodeAt(v, p).Some?
    ensures Lookup(Rebuild(prev, v), p).None?
    decreases |p|
  {
    var n := p[0];
    assert p == [n] + p[1..];
    RebuildEntry(prev, v, n);
    NewEntryRules(prev, v, n);
    if |p| == 1 {
      LookupOne(Rebuild(prev, v), n);
    } else {
      MarksBelow(v, n, p[1..]);
      ExpectedBelow(prev, v, n, p[1..]);
      LookupMore(Rebuild(prev, v), n, p[1..]);
      ReplacedDirectoryIsLost(SubOf(prev, n), v.children[n], p[1..]);
    }
  }

  /** The smallest such changelist: directory d holding x becomes the file d. */
  lemma ReplacedDirectoryExample(kept: Blob, written: Blob, v: Node)
    requires Classifies(v, map[["d"] := written], {["d", "x"]})
    ensures var prev := Tree(map["d" := Dir(Tree(map["x" := File(Regular(kept))]))]);
            var wanted := Reference(Flat(prev), map[["d"] := written], {["d", "x"]});
            && wanted == map[["d"] := Regular(written)]
            && ["d"] !in Flat(Rebuild(Some(prev), v))
  {
    var prev := Tree(map["d" := Dir(Tree(map["x" := File(Regular(kept))]))]);
    forall p: Path ensures p in Flat(prev) ==> p == ["d", "x"] {
      if Lookup(prev, p).Some? {
        assert p[0] == "d" && |p| > 1;
        var sub := prev.entries["d"].tree;
        assert Lookup(sub, p[1..]).Some?;
        assert p[1..][0] == "x" && |p[1..]| == 1;
        assert p == [p[0], p[1]];
      }
    }
    var paths: set<Path> := map[["d"] := written].Keys + {["d", "x"]};
    assert ["d", "x"] in paths && ["d"] < ["d", "x"];
    assert PassesThrough(paths, ["d"]);
    assert BlobAt(v, ["d"]) == Some(written);
    ReplacedDirectoryIsLost(Some(prev), v, ["d"]);
  }
}
