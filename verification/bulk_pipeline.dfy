/** A whole bulk import of one session: from the file actions of the changelists to the files of the tree. */
module BulkPipeline {
  import opened Options
  import opened Text
  import opened GitTrees
  import opened CommitMetadata
  import opened Paths
  import opened FastImport
  import opened FastImporters
  import opened FastImportRoundTrip
  import opened TreeRefinement
  import opened TreeHistory
  import opened Replay
  import opened BulkImport
  import opened BulkSession

  /** A changelist as Perforce describes it, and how printing its files goes. */
  datatype Incoming = Incoming(meta: Metadata, actions: seq<FileAction>, print_: Print, raises: Raises,
                               knownBytesOver: bool)

  datatype Settings = Settings(stream: string, prefixLen: nat, branch: string, streamingThreshold: nat,
                               connections: nat)

  function FilesIn(s: Settings, x: Incoming): seq<FileRef> { WrittenFiles(x.actions, s.stream, s.prefixLen) }

  function DeletesIn(s: Settings, x: Incoming): seq<string> { DeletedPaths(x.actions, s.stream, s.prefixLen) }

  predicate Nothing(s: Settings, x: Incoming) { FilesIn(s, x) == [] && DeletesIn(s, x) == [] }

  predicate IsStreamed(s: Settings, x: Incoming) { Streams(FilesIn(s, x), s.streamingThreshold, x.knownBytesOver) }

  /** Printing fails, and the import with it. */
  ghost predicate FailsOn(s: Settings, x: Incoming)
    requires s.connections > 0
  {
    var files := FilesIn(s, x);
    if !IsStreamed(s, x) && InParallel(files) then ReachedMissing(files, x.print_, s.connections, x.raises)
    else SomeRaises(files, x.raises) || Missing(files, x.print_) != []
  }

  /** Printing loses files without a word. */
  ghost predicate LosesOn(s: Settings, x: Incoming) {
    !IsStreamed(s, x) && InParallel(FilesIn(s, x)) && SomeRaises(FilesIn(s, x), x.raises)
  }

  /** The job extracted from a changelist. */
  ghost predicate IsJobOf(s: Settings, x: Incoming, job: Job) {
    && job.print_ == x.print_ && job.raises == x.raises
    && job.data.meta == x.meta && job.data.deletes == DeletesIn(s, x)
    && (job.data.skipped <==> Nothing(s, x)) && (job.data.skipped ==> Extracted(job))
    && (!job.data.skipped ==>
          (job.data.normal.Streamed? <==> IsStreamed(s, x))
          && (Carries(job.data.normal, FilesIn(s, x), x.print_) <==> !LosesOn(s, x)))
  }

  ghost predicate AreJobsOf(s: Settings, ins: seq<Incoming>, jobs: seq<Job>) {
    |jobs| == |ins| && forall i | 0 <= i < |ins| :: IsJobOf(s, ins[i], jobs[i])
  }

  method Extract(s: Settings, x: Incoming) returns (job: Option<Job>)
    requires s.connections > 0
    ensures job.Some? ==> IsJobOf(s, x, job.value)
    ensures job.Some? && Extracted(job.value) <==> !FailsOn(s, x)
  {
    hide WrittenFiles, DeletedPaths, ReachedMissing, SomeRaises;
    var data := BuildClData(x.meta, x.actions, s.stream, s.prefixLen, x.print_, x.raises, s.streamingThreshold,
                            x.knownBytesOver, s.connections);
    NothingPrinted(x.print_);
    NothingRaises(x.raises);
    job := if data.Some? then Some(Job(data.value, x.print_, x.raises)) else None;
  }

  /** A job joins those before it; one with nothing to write leaves no commit. */
  lemma OneMoreKept(jobs: seq<Job>, job: Job)
    ensures BulkSession.Kept(jobs + [job]) ==
      if job.data.skipped then BulkSession.Kept(jobs) else BulkSession.Kept(jobs) + [job]
  {
    var all := jobs + [job];
    KeptOneMore(all, |jobs|);
    assert all[..|jobs| + 1] == all && all[..|jobs|] == jobs;
  }

  /** Write one delivered changelist. */
  method WriteJob(s: Settings, job: Job, ghost jobs: seq<Job>, importer: FastImporter) returns (ok: bool)
    requires importer.running && importer.mark == |BulkSession.Kept(jobs)|
    requires importer.out == StreamBytes(SessionCommands(BulkSession.Kept(jobs), s.branch))
    modifies importer
    ensures ok <==> job.data.skipped || Extracted(job)
    ensures ok ==> importer.running && importer.mark == |BulkSession.Kept(jobs + [job])|
    ensures ok ==> importer.out == StreamBytes(SessionCommands(BulkSession.Kept(jobs + [job]), s.branch))
  {
    hide StreamBytes, CommandBytes, CommitFor, BulkSession.Kept, SessionCommands, Missing, ItemsOf;
    OneMoreKept(jobs, job);
    if job.data.skipped { return true; }
    SessionOneMore(BulkSession.Kept(jobs), job, s.branch);
    ghost var written;
    ok, written := WriteChangelist(job.data, s.branch, job.print_, job.raises, importer);
  }

  lemma SkippedIsExtracted(s: Settings, x: Incoming, job: Job)
    requires IsJobOf(s, x, job) && job.data.skipped
    ensures Extracted(job)
  {
  }

  /** Extract and write changelist after changelist; one that fails ends the import. */
  method ImportAll(s: Settings, ins: seq<Incoming>, importer: FastImporter) returns (ok: bool, ghost jobs: seq<Job>)
    requires s.connections > 0 && importer.running && importer.mark == 0 && importer.out == ""
    modifies importer
    ensures ok <==> forall x | x in ins :: !FailsOn(s, x)
    ensures ok ==> AreJobsOf(s, ins, jobs) && forall job | job in jobs :: Extracted(job)
    ensures ok ==> importer.out == StreamBytes(SessionCommands(BulkSession.Kept(jobs), s.branch))
  {
    hide FailsOn, IsJobOf, StreamBytes, SessionCommands, Extracted, BulkSession.Kept;
    jobs := [];
    NoCommands(s.branch);
    for i := 0 to |ins|
      invariant AreJobsOf(s, ins[..i], jobs) && forall job | job in jobs :: Extracted(job)
      invariant importer.running && importer.mark == |BulkSession.Kept(jobs)|
      invariant importer.out == StreamBytes(SessionCommands(BulkSession.Kept(jobs), s.branch))
      invariant forall x | x in ins[..i] :: !FailsOn(s, x)
    {
      assert ins[..i + 1] == ins[..i] + [ins[i]] && ins[i] in ins;
      var job := Extract(s, ins[i]);
      if job.None? { return false, jobs; }
      var written := WriteJob(s, job.value, jobs, importer);
      if job.value.data.skipped { SkippedIsExtracted(s, ins[i], job.value); }
      if !written { return false, jobs; }
      jobs := jobs + [job.value];
    }
    assert ins[..|ins|] == ins;
    ok := true;
  }

  // ---------- From the actions to the tree ----------

  /** The changelists that have something to write. */
  function Wanted(s: Settings, ins: seq<Incoming>): seq<Incoming> {
    if ins == [] then []
    else Wanted(s, ins[..|ins| - 1]) + if Nothing(s, ins[|ins| - 1]) then [] else [ins[|ins| - 1]]
  }

  /** The step the incremental builder takes for a changelist. */
  ghost predicate IsStepOf(s: Settings, x: Incoming, step: Step, oid: string -> Oid) {
    && step.changes == LastWrites(BlobsOf(Present(FilesIn(s, x), x.print_), oid))
    && step.deletes == Elements(PathsOf(DeletesIn(s, x)))
  }

  /** In terms of the file actions themselves: the step deletes the paths of the actions that delete, move
      away or purge, and writes, for the actions that add, edit, branch, integrate or move in, what
      Perforce prints, with the action's mode. */
  lemma {:induction false} StepFromActions(s: Settings, x: Incoming, step: Step, oid: string -> Oid, path: string)
    requires s.prefixLen == |s.stream| + 1 && IsStepOf(s, x, step, oid)
    requires OneEntryPerPath(multiset(FilesIn(s, x))) && Missing(FilesIn(s, x), x.print_) == []
    ensures Split(path) in step.deletes <==> exists fa :: fa in x.actions && DeletesAt(fa, s.stream, path)
    ensures Split(path) in step.changes <==> exists fa :: fa in x.actions && WritesTo(fa, s.stream, path)
    ensures forall fa | fa in x.actions && WritesTo(fa, s.stream, path) ::
      && x.print_(fa.depotPath).Some? && Split(path) in step.changes
      && step.changes[Split(path)] == Blob(oid(x.print_(fa.depotPath).value), fa.mode)
  {
    hide WrittenFiles, DeletedPaths, Missing, LastWrites, BlobsOf, Present, Split, WritesTo, DeletesAt;
    var files, deletes := FilesIn(s, x), DeletesIn(s, x);
    WritesByPath(files, x.print_, oid);
    DeletedExactly(x.actions, s.stream, path);
    if Split(path) in step.deletes {
      var i :| 0 <= i < |deletes| && PathsOf(deletes)[i] == Split(path);
      SplitInjective(deletes[i], path);
    }
    if path in deletes {
      var i :| 0 <= i < |deletes| && deletes[i] == path;
      assert PathsOf(deletes)[i] == Split(path);
    }
    forall fa | fa in x.actions && WritesTo(fa, s.stream, path)
      ensures x.print_(fa.depotPath).Some? && Split(path) in step.changes
      ensures step.changes[Split(path)] == Blob(oid(x.print_(fa.depotPath).value), fa.mode)
    {
      var f := FileRef(fa.depotPath, path, fa.mode);
      WrittenExactly(x.actions, s.stream, f);
      assert f in files;
    }
    if Split(path) in step.changes {
      var f :| f in files && Split(f.gitPath) == Split(path);
      SplitInjective(f.gitPath, path);
      WrittenExactly(x.actions, s.stream, f);
    }
  }

  /** What Perforce and fast-import take for granted: one entry for every path, and no name that its
      syntax cannot carry. */
  ghost predicate WellNamed(s: Settings, x: Incoming) {
    && OneEntryPerPath(multiset(FilesIn(s, x)))
    && Free(s.branch, '\n') && PlainIdent(IdentOf(x.meta))
    && (forall f | f in FilesIn(s, x) :: PlainPath(f.gitPath)) && forall p | p in DeletesIn(s, x) :: PlainPath(p)
  }

  lemma {:induction false} PresentNames(fs: seq<FileRef>, print_: Print)
    ensures forall item | item in Present(fs, print_) :: exists f :: f in fs && f.gitPath == item.path
  {
    if fs != [] {
      var k := |fs| - 1;
      PresentNames(fs[..k], print_);
      assert fs == fs[..k] + [fs[k]];
      forall item | item in Present(fs, print_) ensures exists f :: f in fs && f.gitPath == item.path {
        if item in Present(fs[..k], print_) {
          var f :| f in fs[..k] && f.gitPath == item.path;
          assert f in fs;
        }
      }
    }
  }

  /** However the files were extracted, the commit names only files of the changelist. */
  lemma {:induction false} ItemsAreNamed(s: Settings, x: Incoming, job: Job)
    requires Carries(job.data.normal, FilesIn(s, x), x.print_) && job.print_ == x.print_
    ensures forall item | item in ItemsOf(job.data, job.print_) ::
      exists f :: f in FilesIn(s, x) && f.gitPath == item.path
  {
    hide Present, Missing, FilesIn;
    var files := FilesIn(s, x);
    if job.data.normal.Streamed? {
      PresentNames(files, x.print_);
    } else {
      var order: seq<FileRef> :| multiset(order) == multiset(files) && Missing(order, x.print_) == []
                                 && job.data.normal.results == Present(order, x.print_);
      PresentNames(order, x.print_);
      forall f ensures f in order <==> f in files { assert f in multiset(order) <==> f in multiset(files); }
    }
  }

  lemma {:induction false} PlainlyNamed(s: Settings, x: Incoming, job: Job)
    requires IsJobOf(s, x, job) && !job.data.skipped && !LosesOn(s, x) && WellNamed(s, x)
    ensures PlainJob(job, s.branch)
  {
    hide FormatMessage, ItemsOf, PlainPath, PlainIdent, FilesIn, DeletesIn, LosesOn, Carries, OneEntryPerPath;
    ItemsAreNamed(s, x, job);
    var items := ItemsOf(job.data, job.print_);
    forall f | f in Deletes(job.data.deletes) + Writes(items) ensures PlainPath(f.path) {
      if f in Writes(items) {
        var i :| 0 <= i < |items| && Writes(items)[i] == f;
        assert items[i] in items;
      } else {
        var i :| 0 <= i < |job.data.deletes| && Deletes(job.data.deletes)[i] == f;
        assert job.data.deletes[i] in job.data.deletes;
      }
    }
  }

  lemma {:induction false} SameStep(s: Settings, x: Incoming, job: Job, step: Step, oid: string -> Oid)
    requires IsJobOf(s, x, job) && !job.data.skipped && !LosesOn(s, x) && Extracted(job)
    requires WellNamed(s, x) && IsStepOf(s, x, step, oid)
    ensures SameChangelist(job, FilesIn(s, x), step, oid)
  {
    hide Present, Missing, FilesIn, DeletesIn, LosesOn, OneEntryPerPath, LastWrites, BlobsOf;
    if job.data.normal.Collected? {
      var files := FilesIn(s, x);
      var order: seq<FileRef> :| multiset(order) == multiset(files) && Missing(order, x.print_) == []
                                 && job.data.normal.results == Present(order, x.print_);
      SameMissing(order, files, x.print_);
    }
  }

  lemma {:induction false} KeptAreWanted(s: Settings, ins: seq<Incoming>, jobs: seq<Job>)
    requires AreJobsOf(s, ins, jobs) && forall job | job in jobs :: Extracted(job)
    ensures AreJobsOf(s, Wanted(s, ins), BulkSession.Kept(jobs))
    ensures forall job | job in BulkSession.Kept(jobs) :: Extracted(job) && !job.data.skipped
    ensures forall x | x in Wanted(s, ins) :: x in ins
  {
    hide Extracted, LosesOn, Carries, IsStreamed, FilesIn, DeletesIn;
    if ins != [] {
      var k := |ins| - 1;
      assert ins == ins[..k] + [ins[k]] && jobs == jobs[..k] + [jobs[k]];
      KeptAreWanted(s, ins[..k], jobs[..k]);
    }
  }

  /** A session in which nothing fails and nothing is lost, read back and replayed, gives the files of
      the tree that the incremental builder ends in: from the file actions to the tree. */
  method ImportBranch(s: Settings, ins: seq<Incoming>, importer: FastImporter, ghost steps: seq<Step>,
                      ghost oid: string -> Oid)
    returns (ok: bool)
    requires s.connections > 0 && importer.running && importer.mark == 0 && importer.out == ""
    requires |steps| == |Wanted(s, ins)| && forall i | 0 <= i < |steps| :: IsStepOf(s, Wanted(s, ins)[i], steps[i], oid)
    requires forall x | x in ins :: WellNamed(s, x)
    requires MergesThroughout(steps) && DeletesNameFilesThroughout(steps)
    modifies importer
    ensures ok <==> forall x | x in ins :: !FailsOn(s, x)
    ensures ok && (forall x | x in ins :: !LosesOn(s, x)) ==>
      var sent := ReadStream(importer.out);
      sent.Some? && ReplayCommits(sent.value, oid) == Listing(TreeAfter(steps))
  {
    ghost var jobs;
    ok, jobs := ImportAll(s, ins, importer);
    if ok && forall x | x in ins :: !LosesOn(s, x) { SessionGivesTree(s, ins, jobs, steps, oid); }
  }

  lemma {:induction false} SessionGivesTree(s: Settings, ins: seq<Incoming>, jobs: seq<Job>, steps: seq<Step>,
                                            oid: string -> Oid)
    requires AreJobsOf(s, ins, jobs) && forall job | job in jobs :: Extracted(job)
    requires |steps| == |Wanted(s, ins)| && forall i | 0 <= i < |steps| :: IsStepOf(s, Wanted(s, ins)[i], steps[i], oid)
    requires forall x | x in ins :: WellNamed(s, x) && !LosesOn(s, x)
    requires MergesThroughout(steps) && DeletesNameFilesThroughout(steps)
    ensures var sent := ReadStream(StreamBytes(SessionCommands(BulkSession.Kept(jobs), s.branch)));
            sent.Some? && ReplayCommits(sent.value, oid) == Listing(TreeAfter(steps))
  {
    hide IsJobOf, WellNamed, LosesOn, Extracted, MergesThroughout, DeletesNameFilesThroughout, IsStepOf, SameChangelist;
    hide PlainJob, StreamBytes, ReadStream, SessionCommands, TreeAfter, ReplayCommits;
    var kept, wanted := BulkSession.Kept(jobs), Wanted(s, ins);
    KeptAreWanted(s, ins, jobs);
    var files := seq(|wanted|, i requires 0 <= i < |wanted| => FilesIn(s, wanted[i]));
    forall i | 0 <= i < |kept|
      ensures SameChangelist(kept[i], files[i], steps[i], oid) && PlainJob(kept[i], s.branch)
    {
      assert kept[i] in kept && wanted[i] in wanted;
      SameStep(s, wanted[i], kept[i], steps[i], oid);
      PlainlyNamed(s, wanted[i], kept[i]);
    }
    BulkSessionEqualsIncremental(kept, files, steps, s.branch, oid);
  }
}
