/** The incremental builder against the flat reference: exactly when both list the same files. */
module TreeRefinement {
  import opened Options
  import opened GitTrees
  import opened ChangeNodes
  import opened TreeRebuild

  // ---------- The flat reference ----------

  /** Deletes are taken out first, then changes are written: a path in both ends up written. */
  ghost function Reference(base: map<Path, Leaf>, changes: map<Path, Blob>, deletes: set<Path>): map<Path, Leaf> {
    (base - deletes) + map p | p in changes :: Regular(changes[p])
  }

  /** The command line builder keeps one flat dictionary and edits it in place. */
  method BuildFlatMap(base: map<Path, Leaf>, fileChanges: seq<(Path, Blob)>, deletes: set<Path>)
    returns (existing: map<Path, Leaf>)
    ensures existing == Reference(base, LastWrites(fileChanges), deletes)
  {
    existing := base;
    var todo := deletes;
    while todo != {}
      invariant todo <= deletes && existing == base - (deletes - todo)
    {
      var path :| path in todo;
      existing := existing - {path};
      todo := todo - {path};
    }
    assert existing == base - deletes;
    for i := 0 to |fileChanges|
      invariant existing == Reference(base, LastWrites(fileChanges[..i]), deletes)
    {
      OneMoreChange(base, fileChanges, deletes, i);
      existing := existing[fileChanges[i].0 := Regular(fileChanges[i].1)];
    }
    assert fileChanges[..|fileChanges|] == fileChanges;
  }

  lemma OneMoreChange(base: map<Path, Leaf>, fileChanges: seq<(Path, Blob)>, deletes: set<Path>, i: nat)
    requires i < |fileChanges|
    ensures Reference(base, LastWrites(fileChanges[..i + 1]), deletes)
         == Reference(base, LastWrites(fileChanges[..i]), deletes)[fileChanges[i].0 := Regular(fileChanges[i].1)]
  {
    assert fileChanges[..i + 1] == fileChanges[..i] + [fileChanges[i]];
  }

  /** The dictionary built by writing the changes in order: the last write to a path stands. */
  ghost function LastWrites(fileChanges: seq<(Path, Blob)>): map<Path, Blob> {
    if fileChanges == [] then map[]
    else
      var last := fileChanges[|fileChanges| - 1];
      LastWrites(fileChanges[..|fileChanges| - 1])[last.0 := last.1]
  }

  // ---------- The same reference, path by path ----------

  ghost function LookupIn(prev: Option<Tree>, p: Path): Option<Leaf> {
    if prev.Some? then Lookup(prev.value, p) else None
  }

  ghost predicate DirectoryIn(prev: Option<Tree>, p: Path) {
    prev.Some? && IsDirectory(prev.value, p)
  }

  ghost predicate CanonicalIn(prev: Option<Tree>) {
    prev.Some? ==> Canonical(prev.value)
  }

  ghost function Expected(prev: Option<Tree>, v: Node, p: Path): Option<Leaf> {
    if BlobAt(v, p).Some? then Some(Regular(BlobAt(v, p).value))
    else if DeleteAt(v, p) then None
    else LookupIn(prev, p)
  }

  function SubOf(prev: Option<Tree>, n: Name): Option<Tree> {
    match EntryOf(prev, n)
    case Some(Dir(sub)) => Some(sub)
    case _ => None
  }

  lemma MarksHere(v: Node, n: Name)
    ensures BlobAt(v, [n]) == (if n in v.blobs then Some(v.blobs[n]) else None)
    ensures DeleteAt(v, [n]) <==> n in v.deletes
    ensures NodeAt(v, Init([n])) == Some(v)
  {
    assert Init([n]) == [];
  }

  lemma DirectoryHere(prev: Option<Tree>, n: Name)
    ensures DirectoryIn(prev, [n]) <==> SubOf(prev, n).Some?
  {
  }

  lemma MarksBelow(v: Node, n: Name, p: Path)
    ensures BlobAt(v, [n] + p) == (if n in v.children then BlobAt(v.children[n], p) else None)
    ensures DeleteAt(v, [n] + p) <==> n in v.children && DeleteAt(v.children[n], p)
    ensures NodeAt(v, Init([n] + p)) == (if n in v.children then NodeAt(v.children[n], Init(p)) else None)
  {
    assert Init([n] + p) == [n] + Init(p);
    assert ([n] + Init(p))[1..] == Init(p);
    assert Last([n] + p) == Last(p);
  }

  lemma ExpectedBelow(prev: Option<Tree>, v: Node, n: Name, p: Path)
    ensures LookupIn(prev, [n] + p) == LookupIn(SubOf(prev, n), p)
    ensures DirectoryIn(prev, [n] + p) == DirectoryIn(SubOf(prev, n), p)
    ensures Expected(prev, v, [n] + p) ==
      if n in v.children then Expected(SubOf(prev, n), v.children[n], p) else LookupIn(SubOf(prev, n), p)
  {
    MarksBelow(v, n, p);
    assert ([n] + p)[1..] == p;
  }

  // ---------- When the two agree ----------

  ghost predicate ExpectedPrefixFree(prev: Option<Tree>, v: Node) {
    forall p: Path, q: Path :: Expected(prev, v, p).Some? && Expected(prev, v, q).Some? ==> !(p < q)
  }

  /** No written path names a directory of the previous tree. */
  ghost predicate NoDirectoryOverwritten(prev: Option<Tree>, v: Node) {
    forall p: Path :: BlobAt(v, p).Some? ==> !DirectoryIn(prev, p)
  }

  ghost predicate IsLinkAt(prev: Option<Tree>, p: Path) {
    LookupIn(prev, p).Some? && LookupIn(prev, p).value.Link?
  }

  /** No submodule link sits, unmarked, in a directory the changes reach. */
  ghost predicate NoLinkDropped(prev: Option<Tree>, v: Node) {
    forall p: Path :: IsLinkAt(prev, p) && NodeAt(v, Init(p)).Some? ==> BlobAt(v, p).Some? || DeleteAt(v, p)
  }

  ghost predicate Faithful(prev: Option<Tree>, v: Node) {
    ExpectedPrefixFree(prev, v) && NoDirectoryOverwritten(prev, v) && NoLinkDropped(prev, v)
  }

  ghost predicate Agrees(prev: Option<Tree>, v: Node) {
    forall p: Path :: Lookup(Rebuild(prev, v), p) == Expected(prev, v, p)
  }

  lemma FaithfulBelow(prev: Option<Tree>, v: Node, n: Name)
    requires Faithful(prev, v) && n in v.children
    ensures Faithful(SubOf(prev, n), v.children[n])
  {
    var sub, w := SubOf(prev, n), v.children[n];
    forall p: Path, q: Path | Expected(sub, w, p).Some? && Expected(sub, w, q).Some? ensures !(p < q) {
      ExpectedBelow(prev, v, n, p);
      ExpectedBelow(prev, v, n, q);
      assert !([n] + p < [n] + q);
    }
    forall p: Path | BlobAt(w, p).Some? ensures !DirectoryIn(sub, p) {
      MarksBelow(v, n, p);
      ExpectedBelow(prev, v, n, p);
      assert BlobAt(v, [n] + p).Some?;
    }
    forall p: Path | IsLinkAt(sub, p) && NodeAt(w, Init(p)).Some? ensures BlobAt(w, p).Some? || DeleteAt(w, p) {
      MarksBelow(v, n, p);
      ExpectedBelow(prev, v, n, p);
      assert IsLinkAt(prev, [n] + p);
    }
  }

  // ---------- No empty directories ----------

  /** What a name holds when no changes lie below it. */
  ghost function Childless(prev: Option<Tree>, v: Node, n: Name): Option<Entry> {
    if n in v.blobs then Some(File(Regular(v.blobs[n])))
    else match EntryOf(prev, n)
      case Some(File(Regular(_))) => if n in v.deletes then None else EntryOf(prev, n)
      case Some(Dir(_)) => EntryOf(prev, n)
      case _ => None
  }

  ghost predicate RewritesFile(prev: Option<Tree>, v: Node, n: Name) {
    LeafOf(EntryOf(prev, n)).Some? && LeafOf(EntryOf(prev, n)).value.Regular? && n in v.blobs && n !in v.deletes
  }

  lemma NewEntryRules(prev: Option<Tree>, v: Node, n: Name)
    ensures n !in v.children ==> NewEntry(prev, v, n) == Childless(prev, v, n)
    ensures n in v.children && SubOf(prev, n).Some? ==>
      NewEntry(prev, v, n) == NonEmptyDir(Rebuild(SubOf(prev, n), v.children[n]))
    ensures n in v.children && SubOf(prev, n).None? ==>
      NewEntry(prev, v, n) ==
        if RewritesFile(prev, v, n) then Some(File(Regular(v.blobs[n])))
        else if Rebuild(None, v.children[n]) != EmptyTree then Some(Dir(Rebuild(None, v.children[n])))
        else Childless(prev, v, n)
  {
    var (kept, settled) := AfterPrevious(prev, v, n);
    assert AfterBlobs(prev, v, n) == if n in v.blobs && !settled then Some(File(Regular(v.blobs[n]))) else kept;
    match EntryOf(prev, n)
    case None =>
    case Some(File(Regular(_))) =>
    case Some(File(Link(_))) =>
    case Some(Dir(sub)) => assert n !in v.children ==> (kept, settled) == (EntryOf(prev, n), false);
  }

  /** A directory of the new tree is a rebuilt one that is not empty, or one kept as it was. */
  lemma DirectoryComesFrom(prev: Option<Tree>, v: Node, n: Name)
    ensures var e := NewEntry(prev, v, n); e.Some? && e.value.Dir? ==>
      || (n in v.children && e == NonEmptyDir(Rebuild(None, v.children[n])))
      || (n in v.children && SubOf(prev, n).Some? && e == NonEmptyDir(Rebuild(SubOf(prev, n), v.children[n])))
      || e == EntryOf(prev, n)
  {
    var (kept, settled) := AfterPrevious(prev, v, n);
    if n in v.children && !settled && Rebuild(None, v.children[n]) != EmptyTree {
      assert NewEntry(prev, v, n) == NonEmptyDir(Rebuild(None, v.children[n]));
    } else if AfterBlobs(prev, v, n) == kept {
      match EntryOf(prev, n)
      case None =>
      case Some(File(_)) =>
      case Some(Dir(sub)) =>
        if n in v.children { assert kept == NonEmptyDir(Rebuild(Some(sub), v.children[n])); }
    }
  }

  lemma {:induction false} RebuildIsCanonical(prev: Option<Tree>, v: Node)
    requires CanonicalIn(prev)
    ensures Canonical(Rebuild(prev, v))
    decreases v
  {
    var t := Rebuild(prev, v);
    forall n | n in t.entries && t.entries[n].Dir?
      ensures t.entries[n].tree != EmptyTree && Canonical(t.entries[n].tree)
    {
      RebuildEntry(prev, v, n);
      NewEntryRules(prev, v, n);
      assert NewEntry(prev, v, n) == Some(t.entries[n]);
      if n in v.children {
        RebuildIsCanonical(SubOf(prev, n), v.children[n]);
        RebuildIsCanonical(None, v.children[n]);
      }
      DirectoryComesFrom(prev, v, n);
    }
  }

  // ---------- Faithful inputs: both list the same files ----------

  function LeafOf(e: Option<Entry>): Option<Leaf> {
    if e.Some? && e.value.File? then Some(e.value.leaf) else None
  }

  lemma LookupOne(t: Tree, n: Name)
    ensures Lookup(t, [n]) == LeafOf(EntryOf(Some(t), n))
  {
  }

  lemma LookupMore(t: Tree, n: Name, p: Path)
    ensures Lookup(t, [n] + p) == LookupIn(SubOf(Some(t), n), p)
  {
    assert ([n] + p)[1..] == p;
  }

  /** Beside a file that stays, no new directory appears under the same name. */
  lemma {:induction false} NoFreshDirectoryBeside(prev: Option<Tree>, v: Node, n: Name)
    requires CanonicalIn(prev) && Faithful(prev, v) && n in v.children
    requires Expected(prev, v, [n]).Some? && SubOf(prev, n).None?
    ensures Rebuild(None, v.children[n]) == EmptyTree
    decreases v, 0
  {
    var r := Rebuild(None, v.children[n]);
    if r != EmptyTree {
      FaithfulBelow(prev, v, n);
      RebuildIsCanonical(None, v.children[n]);
      var q := SomeLeaf(r);
      RebuildAgreesAt(None, v.children[n], q);
      ExpectedBelow(prev, v, n, q);
    }
  }

  lemma {:induction false} RebuildAgreesHere(prev: Option<Tree>, v: Node, n: Name)
    requires CanonicalIn(prev) && Faithful(prev, v)
    ensures Lookup(Rebuild(prev, v), [n]) == Expected(prev, v, [n])
    decreases v, 1
  {
    RebuildEntry(prev, v, n);
    NewEntryRules(prev, v, n);
    LookupOne(Rebuild(prev, v), n);
    MarksHere(v, n);
    if prev.Some? { LookupOne(prev.value, n); }
    if n in v.children && Expected(prev, v, [n]).Some? && SubOf(prev, n).None? {
      NoFreshDirectoryBeside(prev, v, n);
    }
    DirectoryHere(prev, n);
  }

  lemma {:induction false} RebuildAgreesBelow(prev: Option<Tree>, v: Node, n: Name, p: Path)
    requires CanonicalIn(prev) && Faithful(prev, v)
    ensures Lookup(Rebuild(prev, v), [n] + p) == Expected(prev, v, [n] + p)
    decreases v, 1
  {
    RebuildEntry(prev, v, n);
    NewEntryRules(prev, v, n);
    LookupMore(Rebuild(prev, v), n, p);
    ExpectedBelow(prev, v, n, p);
    MarksHere(v, n);
    if n in v.children {
      FaithfulBelow(prev, v, n);
      RebuildAgreesAt(SubOf(prev, n), v.children[n], p);
      assert Lookup(EmptyTree, p) == None;
      if AfterPrevious(prev, v, n).1 && SubOf(prev, n).None? {
        assert Expected(prev, v, [n]).Some?;
        assert [n] < [n] + p;
      }
    }
    DirectoryHere(prev, n);
  }

  lemma {:induction false} RebuildAgreesAt(prev: Option<Tree>, v: Node, p: Path)
    requires CanonicalIn(prev) && Faithful(prev, v)
    ensures Lookup(Rebuild(prev, v), p) == Expected(prev, v, p)
    decreases v, 2
  {
    assert p == [p[0]] + p[1..];
    if |p| == 1 { RebuildAgreesHere(prev, v, p[0]); } else { RebuildAgreesBelow(prev, v, p[0], p[1..]); }
  }

  // ---------- Agreement forces faithful inputs ----------

  lemma AgreesBelow(prev: Option<Tree>, v: Node, n: Name, sub: Tree)
    requires Agrees(prev, v) && n in v.children && EntryOf(prev, n) == Some(Dir(sub))
    ensures Agrees(Some(sub), v.children[n])
  {
    forall p: Path ensures Lookup(Rebuild(Some(sub), v.children[n]), p) == Expected(Some(sub), v.children[n], p) {
      RebuildEntry(prev, v, n);
      NewEntryRules(prev, v, n);
      LookupMore(Rebuild(prev, v), n, p);
      ExpectedBelow(prev, v, n, p);
      assert Lookup(Rebuild(prev, v), [n] + p) == Expected(prev, v, [n] + p);
      assert Lookup(EmptyTree, p) == None;
    }
  }

  lemma {:induction false} AgreementSparesDirectories(prev: Option<Tree>, v: Node, p: Path)
    requires CanonicalIn(prev) && Agrees(prev, v) && BlobAt(v, p).Some?
    ensures !DirectoryIn(prev, p)
    decreases |p|
  {
    var n := p[0];
    assert p == [n] + p[1..];
    if |p| == 1 {
      MarksHere(v, n);
      DirectoryHere(prev, n);
      if SubOf(prev, n).Some? { WrittenDirectoryDisagrees(prev, v, n); }
    } else if SubOf(prev, n).Some? {
      MarksBelow(v, n, p[1..]);
      ExpectedBelow(prev, v, n, p[1..]);
      AgreesBelow(prev, v, n, SubOf(prev, n).value);
      AgreementSparesDirectories(SubOf(prev, n), v.children[n], p[1..]);
    }
  }

  lemma WrittenDirectoryDisagrees(prev: Option<Tree>, v: Node, n: Name)
    requires CanonicalIn(prev) && SubOf(prev, n).Some? && n in v.blobs
    ensures !Agrees(prev, v)
  {
    var r := Rebuild(prev, v);
    MarksHere(v, n);
    RebuildEntry(prev, v, n);
    NewEntryRules(prev, v, n);
    LookupOne(r, n);
    if n in v.children {
      assert Lookup(r, [n]) != Expected(prev, v, [n]);
    } else {
      var q := SomeLeaf(SubOf(prev, n).value);
      ExpectedBelow(prev, v, n, q);
      LookupBelowFile(r, [n], [n] + q);
      assert Lookup(r, [n] + q) != Expected(prev, v, [n] + q);
    }
  }

  lemma {:induction false} AgreementKeepsLinks(prev: Option<Tree>, v: Node, p: Path)
    requires Agrees(prev, v) && IsLinkAt(prev, p) && NodeAt(v, Init(p)).Some?
    ensures BlobAt(v, p).Some? || DeleteAt(v, p)
    decreases |p|
  {
    var n := p[0];
    assert p == [n] + p[1..];
    if |p| == 1 {
      MarksHere(v, n);
      RebuildEntry(prev, v, n);
      NewEntryRules(prev, v, n);
      LookupOne(Rebuild(prev, v), n);
      assert Lookup(Rebuild(prev, v), [n]) == Expected(prev, v, [n]);
    } else {
      MarksBelow(v, n, p[1..]);
      ExpectedBelow(prev, v, n, p[1..]);
      var sub := prev.value.entries[n].tree;
      AgreesBelow(prev, v, n, sub);
      AgreementKeepsLinks(Some(sub), v.children[n], p[1..]);
    }
  }

  /** The rebuilt tree lists what the reference expects at every path exactly on faithful inputs. */
  lemma AgreesExactlyWhenFaithful(prev: Option<Tree>, v: Node)
    requires CanonicalIn(prev)
    ensures Agrees(prev, v) <==> Faithful(prev, v)
  {
    if Faithful(prev, v) {
      forall p: Path ensures Lookup(Rebuild(prev, v), p) == Expected(prev, v, p) { RebuildAgreesAt(prev, v, p); }
    }
    if Agrees(prev, v) {
      forall p: Path, q: Path | Expected(prev, v, p).Some? && Expected(prev, v, q).Some? ensures !(p < q) {
        assert Lookup(Rebuild(prev, v), p).Some? && Lookup(Rebuild(prev, v), q).Some?;
        if p < q { LookupBelowFile(Rebuild(prev, v), p, q); }
      }
      forall p: Path | BlobAt(v, p).Some? ensures !DirectoryIn(prev, p) {
        AgreementSparesDirectories(prev, v, p);
      }
      forall p: Path | IsLinkAt(prev, p) && NodeAt(v, Init(p)).Some? ensures BlobAt(v, p).Some? || DeleteAt(v, p) {
        AgreementKeepsLinks(prev, v, p);
      }
    }
  }

  // ---------- In terms of flat listings ----------

  ghost function Listing(prev: Option<Tree>): map<Path, Leaf> {
    if prev.Some? then Flat(prev.value) else map[]
  }

  /** No written path lies above a listed one. */
  ghost predicate SparesDirectories(base: map<Path, Leaf>, changes: map<Path, Blob>) {
    forall p, q | p in changes && q in base :: !(p < q)
  }

  /** Every link in a directory on the way to some change is itself written or deleted. */
  ghost predicate SparesLinks(base: map<Path, Leaf>, changes: map<Path, Blob>, deletes: set<Path>) {
    forall p | p in base && base[p].Link? && PassesThrough(changes.Keys + deletes, Init(p)) ::
      p in changes || p in deletes
  }

  ghost predicate Mergeable(base: map<Path, Leaf>, changes: map<Path, Blob>, deletes: set<Path>) {
    && PrefixFree(Reference(base, changes, deletes).Keys)
    && SparesDirectories(base, changes)
    && SparesLinks(base, changes, deletes)
  }

  lemma ListingIsLookup(prev: Option<Tree>, p: Path)
    ensures LookupIn(prev, p) == if p in Listing(prev) then Some(Listing(prev)[p]) else None
  {
  }

  lemma ReferenceIsExpected(prev: Option<Tree>, v: Node, changes: map<Path, Blob>, deletes: set<Path>, p: Path)
    requires Classifies(v, changes, deletes)
    ensures var m := Reference(Listing(prev), changes, deletes);
            Expected(prev, v, p) == if p in m then Some(m[p]) else None
  {
    ListingIsLookup(prev, p);
    assert BlobAt(v, p) == if p in changes then Some(changes[p]) else None;
    assert DeleteAt(v, p) <==> p in deletes;
  }

  ghost function Find(m: map<Path, Leaf>, p: Path): Option<Leaf> {
    if p in m then Some(m[p]) else None
  }

  lemma FlatPointwise(t: Tree, m: map<Path, Leaf>)
    ensures Flat(t) == m <==> forall p: Path :: Lookup(t, p) == Find(m, p)
  {
    if forall p: Path :: Lookup(t, p) == Find(m, p) {
      forall p: Path ensures p in Flat(t) <==> p in m { assert Lookup(t, p) == Find(m, p); }
      forall p: Path | p in m ensures Flat(t)[p] == m[p] { assert Lookup(t, p) == Find(m, p); }
      assert Flat(t) == m;
    }
    if Flat(t) == m {
      forall p: Path ensures Lookup(t, p) == Find(m, p) { assert p in Flat(t) <==> p in m; }
    }
  }

  lemma AgreementIsEqualListings(prev: Option<Tree>, v: Node, changes: map<Path, Blob>, deletes: set<Path>)
    requires Classifies(v, changes, deletes)
    ensures Agrees(prev, v) <==> Flat(Rebuild(prev, v)) == Reference(Listing(prev), changes, deletes)
  {
    var t, m := Rebuild(prev, v), Reference(Listing(prev), changes, deletes);
    forall p: Path ensures Expected(prev, v, p) == Find(m, p) {
      ReferenceIsExpected(prev, v, changes, deletes, p);
    }
    FlatPointwise(t, m);
    if Agrees(prev, v) {
      forall p: Path ensures Lookup(t, p) == Find(m, p) { assert Lookup(t, p) == Expected(prev, v, p); }
    }
    if Flat(t) == m {
      forall p: Path ensures Lookup(t, p) == Expected(prev, v, p) { assert Lookup(t, p) == Find(m, p); }
    }
  }

  lemma DirectoriesSpared(prev: Option<Tree>, v: Node, changes: map<Path, Blob>, deletes: set<Path>)
    requires CanonicalIn(prev) && Classifies(v, changes, deletes)
    ensures NoDirectoryOverwritten(prev, v) <==> SparesDirectories(Listing(prev), changes)
  {
    if NoDirectoryOverwritten(prev, v) {
      forall p, q | p in changes && q in Listing(prev) ensures !(p < q) {
        assert BlobAt(v, p).Some?;
        if p < q { PrefixIsDirectory(prev.value, p, q); }
      }
    }
    if SparesDirectories(Listing(prev), changes) {
      forall p: Path | BlobAt(v, p).Some? ensures !DirectoryIn(prev, p) {
        assert p in changes;
        if DirectoryIn(prev, p) {
          var q := FileBelow(prev.value, p);
        }
      }
    }
  }

  lemma LinksSpared(prev: Option<Tree>, v: Node, changes: map<Path, Blob>, deletes: set<Path>)
    requires Classifies(v, changes, deletes)
    ensures NoLinkDropped(prev, v) <==> SparesLinks(Listing(prev), changes, deletes)
  {
    forall p: Path ensures IsLinkAt(prev, p) <==> p in Listing(prev) && Listing(prev)[p].Link? {
      ListingIsLookup(prev, p);
    }
    if NoLinkDropped(prev, v) {
      forall p | p in Listing(prev) && Listing(prev)[p].Link? && PassesThrough(changes.Keys + deletes, Init(p))
        ensures p in changes || p in deletes
      {
        assert IsLinkAt(prev, p) && NodeAt(v, Init(p)).Some?;
        assert BlobAt(v, p).Some? || DeleteAt(v, p);
      }
    }
    if SparesLinks(Listing(prev), changes, deletes) {
      forall p: Path | IsLinkAt(prev, p) && NodeAt(v, Init(p)).Some? ensures BlobAt(v, p).Some? || DeleteAt(v, p) {
        assert PassesThrough(changes.Keys + deletes, Init(p));
        assert p in changes || p in deletes;
      }
    }
  }

  lemma PrefixFreeness(prev: Option<Tree>, v: Node, changes: map<Path, Blob>, deletes: set<Path>)
    requires Classifies(v, changes, deletes)
    ensures ExpectedPrefixFree(prev, v) <==> PrefixFree(Reference(Listing(prev), changes, deletes).Keys)
  {
    var m := Reference(Listing(prev), changes, deletes);
    forall p: Path ensures Expected(prev, v, p).Some? <==> p in m.Keys {
      ReferenceIsExpected(prev, v, changes, deletes, p);
    }
    if ExpectedPrefixFree(prev, v) {
      forall p, q | p in m.Keys && q in m.Keys ensures !(p < q) {
        assert Expected(prev, v, p).Some? && Expected(prev, v, q).Some?;
      }
    }
  }

  /** The incremental tree lists exactly the reference map if and only if the reference is
      prefix-free, no written path is a directory of the previous tree, and no link is in reach. */
  lemma IncrementalRefinesReference(prev: Option<Tree>, v: Node, changes: map<Path, Blob>, deletes: set<Path>)
    requires CanonicalIn(prev) && Classifies(v, changes, deletes)
    ensures Flat(Rebuild(prev, v)) == Reference(Listing(prev), changes, deletes)
        <==> Mergeable(Listing(prev), changes, deletes)
  {
    AgreementIsEqualListings(prev, v, changes, deletes);
    AgreesExactlyWhenFaithful(prev, v);
    PrefixFreeness(prev, v, changes, deletes);
    DirectoriesSpared(prev, v, changes, deletes);
    LinksSpared(prev, v, changes, deletes);
  }
}
