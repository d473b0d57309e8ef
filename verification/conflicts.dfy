/** Conflict detection: comparing what waits on both sides before anything is carried. */
module Conflicts {
  import opened Options
  import opened Text
  import opened Paths
  import opened StateStores
  import opened CommitMetadata
  import opened BulkImport
  import opened Bridge
  import opened BridgeLoop

  // ---------- The detector ----------

  type P4Change = (CL, seq<string>)

  function Normalized(paths: seq<string>): set<string> { set p | p in paths :: NormalizePath(p) }

  function NormalizedSet(paths: set<string>): set<string> { set p | p in paths :: NormalizePath(p) }

  function P4Files(changes: seq<P4Change>): set<string> {
    if changes == [] then {} else P4Files(changes[..|changes| - 1]) + Normalized(changes[|changes| - 1].1)
  }

  function GitFiles(commits: seq<GitCommit>): set<string> {
    if commits == [] then {} else GitFiles(commits[..|commits| - 1]) + NormalizedSet(commits[|commits| - 1].paths)
  }

  function Overlap(changes: seq<P4Change>,
                   commits: seq<GitCommit>): set<string> { P4Files(changes) * GitFiles(commits) }

  function Numbers(changes: seq<P4Change>): seq<CL> { seq(|changes|, i requires 0 <= i < |changes| => changes[i].0) }

  function Shas(commits: seq<GitCommit>): seq<Sha> { seq(|commits|, i requires 0 <= i < |commits| => commits[i].sha) }

  ghost predicate TouchedInP4(changes: seq<P4Change>, f: string) {
    exists c: P4Change, p: string :: c in changes && p in c.1 && NormalizePath(p) == f
  }

  ghost predicate TouchedInGit(commits: seq<GitCommit>, f: string) {
    exists g: GitCommit, p: string :: g in commits && p in g.paths && NormalizePath(p) == f
  }

  lemma {:induction false} P4FilesExactly(changes: seq<P4Change>, f: string)
    ensures f in P4Files(changes) <==> TouchedInP4(changes, f)
  {
    hide NormalizePath;
    if changes != [] {
      var before, last := changes[..|changes| - 1], changes[|changes| - 1];
      assert changes == before + [last];
      P4FilesExactly(before, f);
      if TouchedInP4(before, f) {
        var c: P4Change, p: string :| c in before && p in c.1 && NormalizePath(p) == f;
        assert c in changes;
      }
      if f in Normalized(last.1) {
        var p :| p in last.1 && NormalizePath(p) == f;
        assert last in changes;
      }
    }
  }

  lemma {:induction false} GitFilesExactly(commits: seq<GitCommit>, f: string)
    ensures f in GitFiles(commits) <==> TouchedInGit(commits, f)
  {
    hide NormalizePath;
    if commits != [] {
      var before, last := commits[..|commits| - 1], commits[|commits| - 1];
      assert commits == before + [last];
      GitFilesExactly(before, f);
      if TouchedInGit(before, f) {
        var g: GitCommit, p: string :| g in before && p in g.paths && NormalizePath(p) == f;
        assert g in commits;
      }
      if f in NormalizedSet(last.paths) {
        var p :| p in last.paths && NormalizePath(p) == f;
        assert last in commits;
      }
    }
  }

  /** The conflict names both sides, in order, and exactly the paths both of them touch. */
  ghost predicate Names(conflict: Conflict, changes: seq<P4Change>, commits: seq<GitCommit>) {
    && |conflict.p4Changelists| == |changes| && |conflict.gitCommits| == |commits|
    && (forall i | 0 <= i < |changes| :: conflict.p4Changelists[i] == changes[i].0)
    && (forall i | 0 <= i < |commits| :: conflict.gitCommits[i] == commits[i].sha)
    && (forall f: string :: f in conflict.files <==> TouchedInP4(changes, f) && TouchedInGit(commits, f))
  }

  lemma OverlapExactly(changes: seq<P4Change>, commits: seq<GitCommit>)
    ensures forall f: string ::
      f in Overlap(changes, commits) <==> TouchedInP4(changes, f) && TouchedInGit(commits, f)
  {
    hide TouchedInP4, TouchedInGit, P4Files, GitFiles;
    forall f: string
      ensures f in Overlap(changes, commits) <==> TouchedInP4(changes, f) && TouchedInGit(commits, f)
    {
      P4FilesExactly(changes, f);
      GitFilesExactly(commits, f);
    }
  }

  /** A conflict is found exactly when some normalized path is touched on both sides. */
  method Detect(changes: seq<P4Change>, commits: seq<GitCommit>) returns (conflict: Option<Conflict>)
    ensures conflict.None? <==> Overlap(changes, commits) == {}
    ensures conflict.Some? ==> conflict.value == Conflict(Numbers(changes), Shas(commits), Overlap(changes, commits))
    ensures conflict.Some? ==> Names(conflict.value, changes, commits)
    ensures conflict.None? <==> forall f: string :: !(TouchedInP4(changes, f) && TouchedInGit(commits, f))
  {
    if changes == [] || commits == [] { return None; }
    var p4Files, numbers := {}, [];
    for i := 0 to |changes|
      invariant p4Files == P4Files(changes[..i]) && numbers == Numbers(changes[..i])
    {
      assert changes[..i + 1][..i] == changes[..i];
      numbers := numbers + [changes[i].0];
      p4Files := p4Files + Normalized(changes[i].1);
    }
    var gitFiles, shas := {}, [];
    for i := 0 to |commits|
      invariant gitFiles == GitFiles(commits[..i]) && shas == Shas(commits[..i])
    {
      assert commits[..i + 1][..i] == commits[..i];
      shas := shas + [commits[i].sha];
      gitFiles := gitFiles + NormalizedSet(commits[i].paths);
    }
    assert changes[..|changes|] == changes && commits[..|commits|] == commits;
    var conflicted := p4Files * gitFiles;
    conflict := if conflicted == {} then None else Some(Conflict(numbers, shas, conflicted));
    OverlapExactly(changes, commits);
  }

  // ---------- What waits on the Perforce side ----------

  function DepotPaths(files: seq<FileAction>): seq<string> {
    seq(|files|, i requires 0 <= i < |files| => files[i].depotPath)
  }

  function WithFiles(cs: seq<Changelist>): seq<P4Change> {
    if cs == [] then []
    else
      var c := cs[|cs| - 1];
      WithFiles(cs[..|cs| - 1]) + if FromGit(c.description) then [] else [(c.cl, DepotPaths(c.files))]
  }

  /** What did not come from Git, each with all its depot paths. */
  lemma {:induction false} ListedExactly(cs: seq<Changelist>, x: P4Change)
    ensures x in WithFiles(cs) <==> exists c ::
              && c in cs && ParseGitCommit(c.description).None? && x.0 == c.cl
              && |x.1| == |c.files| && forall i | 0 <= i < |c.files| :: x.1[i] == c.files[i].depotPath
  {
    hide ParseGitCommit;
    if cs != [] {
      var before, last := cs[..|cs| - 1], cs[|cs| - 1];
      assert cs == before + [last];
      ListedExactly(before, x);
      if last.cl == x.0 && |x.1| == |last.files|
         && forall i | 0 <= i < |last.files| :: x.1[i] == last.files[i].depotPath {
        assert x.1 == DepotPaths(last.files) && x == (last.cl, DepotPaths(last.files));
      }
    }
  }

  method CollectP4Changes(o: Orchestrator, batchSize: nat) returns (changes: seq<P4Change>)
    ensures changes == WithFiles(Polled(o.side, o.View(), batchSize))
  {
    hide FromGit;
    var cs := o.Poll(batchSize);
    changes := [];
    for i := 0 to |cs|
      invariant changes == WithFiles(cs[..i])
    {
      assert cs[..i + 1][..i] == cs[..i];
      if !FromGit(cs[i].description) { changes := changes + [(cs[i].cl, DepotPaths(cs[i].files))]; }
    }
    assert cs[..|cs|] == cs;
  }

  // ---------- Paths of either side meet in the detector ----------

  lemma {:induction false} WrittenFromActions(actions: seq<FileAction>, stream: string, prefixLen: nat, path: string)
    requires (exists r :: r in WrittenFiles(actions, stream, prefixLen) && r.gitPath == path)
             || path in DeletedPaths(actions, stream, prefixLen)
    ensures exists fa :: fa in actions && DepotToGitPath(fa.depotPath, stream, prefixLen) == Some(path)
  {
    if actions != [] {
      var k := |actions| - 1;
      var last := DepotToGitPath(actions[k].depotPath, stream, prefixLen);
      if last == Some(path) {
        assert actions[k] in actions;
      } else {
        WrittenFromActions(actions[..k], stream, prefixLen, path);
        var fa :| fa in actions[..k] && DepotToGitPath(fa.depotPath, stream, prefixLen) == Some(path);
        assert fa in actions;
      }
    }
  }

  /** A path a forwarded changelist touches is, normalized, among its files. */
  lemma PathIsNormalized(side: Side, c: Changelist, path: string)
    requires TwoComponentStream(side.stream) && path in PathsOf(side, c)
    ensures path in Normalized(DepotPaths(c.files))
  {
    hide NormalizePath, WrittenFiles, DeletedPaths, TwoComponentStream;
    WrittenFromActions(c.files, side.stream, |side.stream| + 1, path);
    var fa :| fa in c.files && DepotToGitPath(fa.depotPath, side.stream, |side.stream| + 1) == Some(path);
    NormalizedIsGitPath(fa.depotPath, side.stream);
    var i :| 0 <= i < |c.files| && c.files[i] == fa;
    assert DepotPaths(c.files)[i] == fa.depotPath;
    assert fa.depotPath in DepotPaths(c.files);
  }

  lemma {:induction false} ListedFiles(cs: seq<Changelist>, c: Changelist)
    requires c in cs && !FromGit(c.description)
    ensures Normalized(DepotPaths(c.files)) <= P4Files(WithFiles(cs))
  {
    hide FromGit, Normalized;
    var k := |cs| - 1;
    var before := WithFiles(cs[..k]);
    var all := WithFiles(cs);
    assert if FromGit(cs[k].description) then all == before else all[..|all| - 1] == before;
    if c != cs[k] {
      assert c in cs[..k];
      ListedFiles(cs[..k], c);
    } else {
      assert WithFiles(cs)[|before|] == (c.cl, DepotPaths(c.files));
    }
  }

  lemma {:induction false} CommitFiles(gs: seq<GitCommit>, g: GitCommit)
    requires g in gs
    ensures NormalizedSet(g.paths) <= GitFiles(gs)
  {
    hide NormalizedSet;
    var k := |gs| - 1;
    if g != gs[k] {
      assert g in gs[..k];
      CommitFiles(gs[..k], g);
    }
  }

  ghost predicate RepositoryPaths(g: GitCommit) { forall p | p in g.paths :: !("//" <= p) }

  lemma ListedPath(g: GitCommit, p: string)
    requires RepositoryPaths(g) && p in g.paths
    ensures p in NormalizedSet(g.paths)
  {
    GitPathNormalized(p);
  }

  /** Without an overlap, what is carried one way and what is carried the other touch different files. */
  lemma NoOverlapDisjoint(side: Side, cs: seq<Changelist>, gs: seq<GitCommit>, c: Changelist, g: GitCommit)
    requires TwoComponentStream(side.stream) && Overlap(WithFiles(cs), gs) == {}
    requires c in cs && !FromGit(c.description) && g in gs && RepositoryPaths(g)
    ensures PathsOf(side, c) !! g.paths
  {
    hide FromGit, TwoComponentStream, PathsOf, P4Files, GitFiles, RepositoryPaths, NormalizePath;
    ListedFiles(cs, c);
    CommitFiles(gs, g);
    forall p | p in PathsOf(side, c) ensures p !in g.paths {
      PathIsNormalized(side, c, p);
      assert p !in Overlap(WithFiles(cs), gs);
      if p in g.paths { ListedPath(g, p); }
    }
  }

  /** On a deeper stream a conflict goes unseen: both sides touch file f, and the detector finds nothing. */
  lemma DeeperStreamMisses(side: Side, c: Changelist, g: GitCommit, more: string, f: string, mode: nat)
    requires exists depot, name ::
      Free(depot, '/') && Free(name, '/') && side.stream == StreamPath(depot, name) + ("/" + more)
    requires !FromGit(c.description) && c.files == [FileAction(side.stream + ("/" + f), "edit", mode)]
    requires g.paths == {f} && !("//" <= f)
    ensures Overlap(WithFiles([c]), [g]) == {} && f in PathsOf(side, c) && f in g.paths
  {
    hide FromGit, NormalizePath, PathsOf, P4Files, GitFiles, WithFiles, StreamPath;
    var depot, name :| Free(depot, '/') && Free(name, '/') && side.stream == StreamPath(depot, name) + ("/" + more);
    var path := side.stream + ("/" + f);
    DeeperNormalized(depot, name, more, f);
    OneFile(c, path, mode);
    OneCommit(g, f);
    EditedFile(side, c, f, mode);
    assert |more + ("/" + f)| > |f|;
  }

  /** The detector lets nothing through: without an overlap, no commit to be carried touches a file
      of a changelist to be carried. */
  ghost predicate SeesEveryConflict(side: Side) {
    forall cs: seq<Changelist>, gs: seq<GitCommit>, c: Changelist, g: GitCommit
      | Overlap(WithFiles(cs), gs) == {} && c in cs && !FromGit(c.description) && g in gs && RepositoryPaths(g) ::
      PathsOf(side, c) !! g.paths
  }

  /** Below any other stream, one edit of one file on both sides goes unseen. */
  lemma OtherStreamMisses(side: Side, c: Changelist, g: GitCommit)
    requires "//" <= side.stream && !TwoComponentStream(side.stream) && !FromGit(c.description)
    requires c.files == [FileAction(side.stream + ("/" + "a/b"), "edit", 0)] && g.paths == {"a/b"}
    ensures Overlap(WithFiles([c]), [g]) == {} && "a/b" in PathsOf(side, c) && RepositoryPaths(g)
  {
    hide FromGit, NormalizePath, PathsOf, P4Files, GitFiles, WithFiles, TwoComponentStream;
    var path := side.stream + ("/" + "a/b");
    assert path[|side.stream| + 1..] == "a/b" && side.stream + "/" <= path;
    NormalizedExactly(path, side.stream);
    OneFile(c, path, 0);
    assert "a/b"[0] == 'a';
    OneCommit(g, "a/b");
    EditedFile(side, c, "a/b", 0);
  }

  lemma BlankIsUnmarked()
    ensures !FromGit("")
  {
  }

  /** The detector sees every conflict exactly on streams of two components. */
  lemma SeesExactly(side: Side)
    requires "//" <= side.stream
    ensures SeesEveryConflict(side) <==> TwoComponentStream(side.stream)
  {
    hide FromGit, NormalizePath, PathsOf, Overlap, WithFiles, TwoComponentStream, RepositoryPaths;
    if TwoComponentStream(side.stream) {
      forall cs: seq<Changelist>, gs: seq<GitCommit>, c: Changelist, g: GitCommit
        | Overlap(WithFiles(cs), gs) == {} && c in cs && !FromGit(c.description) && g in gs && RepositoryPaths(g)
        ensures PathsOf(side, c) !! g.paths
      {
        NoOverlapDisjoint(side, cs, gs, c, g);
      }
    } else {
      var c := Changelist(1, "", [FileAction(side.stream + ("/" + "a/b"), "edit", 0)], None);
      var g := GitCommit("", "", {"a/b"}, None);
      BlankIsUnmarked();
      OtherStreamMisses(side, c, g);
      assert c in [c] && g in [g] && "a/b" in g.paths;
    }
  }

  lemma OneCommit(g: GitCommit, f: string)
    requires g.paths == {f} && !("//" <= f)
    ensures GitFiles([g]) == {f}
  {
    hide NormalizePath;
    GitPathNormalized(f);
    assert NormalizedSet(g.paths) == {f};
  }

  lemma DeeperNormalized(depot: string, name: string, more: string, f: string)
    requires Free(depot, '/') && Free(name, '/')
    ensures NormalizePath((StreamPath(depot, name) + ("/" + more)) + ("/" + f)) == more + ("/" + f)
  {
    hide Split, Join;
    var rest := more + ("/" + f);
    var path := StreamPath(depot, name) + ("/" + rest);
    assert (StreamPath(depot, name) + ("/" + more)) + ("/" + f) == path;
    assert TwoComponentStream(StreamPath(depot, name));
    NormalizedIsGitPath(path, StreamPath(depot, name));
  }

  lemma OneFile(c: Changelist, path: string, mode: nat)
    requires !FromGit(c.description) && c.files == [FileAction(path, "edit", mode)]
    ensures P4Files(WithFiles([c])) == {NormalizePath(path)}
  {
    hide FromGit, NormalizePath;
    assert DepotPaths(c.files) == [path];
    assert WithFiles([c]) == [(c.cl, [path])];
    assert Normalized([path]) == {NormalizePath(path)};
  }

  lemma EditedFile(side: Side, c: Changelist, f: string, mode: nat)
    requires c.files == [FileAction(side.stream + ("/" + f), "edit", mode)]
    ensures f in PathsOf(side, c)
  {
    var path := side.stream + ("/" + f);
    assert path[|side.stream| + 1..] == f && side.stream + "/" <= path;
    assert !IsDelete("edit") && IsAddEdit("edit");
    assert DepotToGitPath(path, side.stream, |side.stream| + 1) == Some(f);
    assert |c.files| == 1 && c.files[0] == FileAction(path, "edit", mode) && c.files[..|c.files| - 1] == [];
    assert WrittenFiles([], side.stream, |side.stream| + 1) == [];
    assert Writes(side, c) == [FileRef(path, f, mode)];
    assert FileRef(path, f, mode) in Writes(side, c);
  }

  // ---------- Effects ----------

  datatype Effect = Effect(writes: map<string, string>, deletes: set<string>)

  function Touched(e: Effect): set<string> { e.writes.Keys + e.deletes }

  function Applied(m: map<string, string>, es: seq<Effect>): map<string, string> {
    if es == [] then m
    else
      var e := es[|es| - 1];
      (Applied(m, es[..|es| - 1]) - e.deletes) + e.writes
  }

  function AllTouched(es: seq<Effect>): set<string> {
    if es == [] then {} else AllTouched(es[..|es| - 1]) + Touched(es[|es| - 1])
  }

  /** A file nobody touches keeps its content; a touched one does not depend on the rest of the map. */
  lemma {:induction false} AppliedAt(m: map<string, string>, n: map<string, string>, es: seq<Effect>, p: string)
    requires p in m <==> p in n
    requires p in m ==> m[p] == n[p]
    ensures p in Applied(m, es) <==> p in Applied(n, es)
    ensures p in Applied(m, es) ==> Applied(m, es)[p] == Applied(n, es)[p]
    ensures p !in AllTouched(es) ==> (p in Applied(m, es) <==> p in m) && (p in m ==> Applied(m, es)[p] == m[p])
  {
    if es != [] { AppliedAt(m, n, es[..|es| - 1], p); }
  }

  /** Changes to disjoint files can be applied in either order. */
  lemma {:induction false} EitherOrder(m: map<string, string>, a: seq<Effect>, b: seq<Effect>)
    requires AllTouched(a) !! AllTouched(b)
    ensures Applied(Applied(m, a), b) == Applied(Applied(m, b), a)
  {
    var ab, ba := Applied(Applied(m, a), b), Applied(Applied(m, b), a);
    forall p: string ensures (p in ab <==> p in ba) && (p in ab ==> ab[p] == ba[p]) {
      if p !in AllTouched(b) {
        AppliedAt(Applied(m, a), Applied(m, a), b, p);
        AppliedAt(m, m, b, p);
        AppliedAt(m, Applied(m, b), a, p);
      } else {
        AppliedAt(m, m, a, p);
        AppliedAt(Applied(m, b), Applied(m, b), a, p);
        AppliedAt(m, Applied(m, a), b, p);
      }
    }
  }
}
