/** One fast-import session of the bulk importer, and why it ends in the incremental builder's files. */
module BulkSession {
  import opened Options
  import opened Text
  import opened Unique
  import opened GitTrees
  import opened Paths
  import opened CommitMetadata
  import opened FastImport
  import opened FastImporters
  import opened FastImportRoundTrip
  import opened TreeRefinement
  import opened TreeHistory
  import opened Replay
  import opened BulkImport
  import opened ParallelPrinting

  /** The files of a changelist: already extracted, or extracted while the commit is written. */
  datatype Normal = Collected(results: seq<FileItem>) | Streamed(files: seq<FileRef>)

  datatype CLData = CLData(meta: Metadata, deletes: seq<string>, normal: Normal, skipped: bool)

  /** The extracted files are those of the changelist, all of them, in some order. */
  ghost predicate Carries(normal: Normal, files: seq<FileRef>, print_: Print) {
    match normal
    case Streamed(fs) => fs == files
    case Collected(results) =>
      exists order: seq<FileRef> :: multiset(order) == multiset(files) && Missing(order, print_) == []
                                    && results == Present(order, print_)
  }

  lemma {:induction false} NothingMissing(fs: seq<FileRef>, print_: Print)
    ensures Missing(fs, print_) == [] <==> forall f | f in fs :: print_(f.depotPath).Some?
  {
    if fs != [] {
      NothingMissing(fs[..|fs| - 1], print_);
      assert fs == fs[..|fs| - 1] + [fs[|fs| - 1]];
    }
  }

  lemma {:induction false} SameMissing(fs: seq<FileRef>, gs: seq<FileRef>, print_: Print)
    requires multiset(fs) == multiset(gs)
    ensures Missing(fs, print_) == [] <==> Missing(gs, print_) == []
  {
    NothingMissing(fs, print_);
    NothingMissing(gs, print_);
    forall f ensures f in fs <==> f in gs { assert f in multiset(fs) <==> f in multiset(gs); }
  }

  lemma {:induction false} PresentLength(fs: seq<FileRef>, print_: Print)
    requires Missing(fs, print_) == []
    ensures |Present(fs, print_)| == |fs|
  {
    if fs != [] { PresentLength(fs[..|fs| - 1], print_); }
  }

  /** Some file of a batch that is reached does not print. */
  ghost predicate ReachedMissing(files: seq<FileRef>, print_: Print, connections: nat, raises: Raises)
    requires connections > 0
  {
    exists k: nat :: k < BatchCount(files) && Reached(k, connections, raises) && Missing(Batch(files, k), print_) != []
  }

  lemma {:induction false} MissingInBatches(files: seq<FileRef>, ks: seq<nat>, print_: Print)
    ensures Missing(FilesOf(files, ks), print_) != [] <==> exists k :: k in ks && Missing(Batch(files, k), print_) != []
  {
    hide Batch, Missing, Present;
    NothingPrinted(print_);
    if ks != [] {
      var before, k := ks[..|ks| - 1], ks[|ks| - 1];
      assert ks == before + [k];
      MissingInBatches(files, before, print_);
      PresentAppend(FilesOf(files, before), Batch(files, k), print_);
    }
  }

  /** Printed over several connections without a report: all files are there if and only if no batch raised. */
  lemma {:induction false} CarriesExactly(ks: seq<nat>, files: seq<FileRef>, print_: Print, connections: nat,
                                          raises: Raises,
                                          results: seq<FileItem>)
    requires connections > 0 && PrintedReached(ks, files, print_, connections, raises, results, [])
    ensures Carries(Collected(results), files, print_) <==> !SomeRaises(files, raises)
    ensures |results| == |FilesOf(files, ks)|
  {
    hide FilesOf, Batch, BatchCount, NoRepeats, Present, Missing, SomeRaises, Reached;
    ReachedCovers(ks, files, print_, connections, raises, results, []);
    PresentLength(FilesOf(files, ks), print_);
    if Carries(Collected(results), files, print_) {
      var order: seq<FileRef> :| multiset(order) == multiset(files) && Missing(order, print_) == []
                                 && results == Present(order, print_);
      PresentLength(order, print_);
      assert |multiset(order)| == |order| && |multiset(files)| == |files|;
    }
  }

  predicate Streams(files: seq<FileRef>, streamingThreshold: nat, knownBytesOver: bool) {
    |files| >= streamingThreshold || knownBytesOver
  }

  predicate InParallel(files: seq<FileRef>) { |files| >= LARGE_CL_THRESHOLD }

  /** Extract one changelist: skipped when empty, streamed when large, printed otherwise. A batch
      that raises fails a small changelist; of a large one, printed in parallel, it only loses files. */
  method BuildClData(meta: Metadata, actions: seq<FileAction>, stream: string, prefixLen: nat, print_: Print,
                     raises: Raises,
                     streamingThreshold: nat, knownBytesOver: bool, connections: nat)
    returns (data: Option<CLData>)
    requires connections > 0
    ensures data.Some? ==> data.value.meta == meta && data.value.deletes == DeletedPaths(actions, stream, prefixLen)
    ensures data.Some? ==>
      (data.value.skipped <==> WrittenFiles(actions, stream, prefixLen) == [] && data.value.deletes == [])
    ensures data.Some? && data.value.skipped ==> data.value.normal == Streamed([])
    ensures var files := WrittenFiles(actions, stream, prefixLen);
            data.Some? && !data.value.skipped ==>
              (data.value.normal.Streamed? <==> |files| >= streamingThreshold || knownBytesOver)
    ensures var files := WrittenFiles(actions, stream, prefixLen);
            data.None? <==>
              && |files| < streamingThreshold && !knownBytesOver
              && if |files| >= 500 then ReachedMissing(files, print_, connections, raises)
                 else SomeRaises(files, raises) || Missing(files, print_) != []
    ensures var files := WrittenFiles(actions, stream, prefixLen);
            data.Some? ==>
              (Carries(data.value.normal, files, print_) <==>
                |files| >= streamingThreshold || knownBytesOver || |files| < 500 || !SomeRaises(files, raises))
    ensures var files := WrittenFiles(actions, stream, prefixLen);
            data.Some? && data.value.normal.Collected? && |files| >= 500 ==>
              exists ks: seq<nat> ::
                PrintedReached(ks, files, print_, connections, raises, data.value.normal.results, [])
  {
    hide Present, Missing, WrittenFiles, DeletedPaths, Batch, BatchCount, SomeRaises;
    var files, deletes := SortActions(actions, stream, prefixLen);
    NothingPrinted(print_);
    NothingRaises(raises);
    if files == [] && deletes == [] { return Some(CLData(meta, deletes, Streamed([]), true)); }
    if |files| >= streamingThreshold || knownBytesOver { return Some(CLData(meta, deletes, Streamed(files), false)); }
    var normal := ExtractNormal(files, print_, raises, connections);
    if normal.None? { return None; }
    data := Some(CLData(meta, deletes, normal.value, false));
  }

  lemma NothingRaises(raises: Raises)
    ensures !SomeRaises([], raises)
  {
  }

  /** Print the files of a changelist that is not streamed. */
  method ExtractNormal(files: seq<FileRef>, print_: Print, raises: Raises, connections: nat)
    returns (normal: Option<Normal>)
    requires connections > 0
    ensures normal.None? <==>
      if InParallel(files) then ReachedMissing(files, print_, connections, raises)
      else SomeRaises(files, raises) || Missing(files, print_) != []
    ensures normal.Some? ==> normal.value.Collected?
    ensures normal.Some? ==>
      (Carries(normal.value, files, print_) <==> !InParallel(files) || !SomeRaises(files, raises))
    ensures normal.Some? && InParallel(files) ==>
      exists ks: seq<nat> :: PrintedReached(ks, files, print_, connections, raises, normal.value.results, [])
  {
    hide Present, Missing, Batch, BatchCount, SomeRaises, FilesOf, Reached, NoRepeats;
    if |files| >= LARGE_CL_THRESHOLD {
      var results, missing := ParallelPrint(files, print_, connections, raises);
      ghost var ks: seq<nat> :| PrintedReached(ks, files, print_, connections, raises, results, missing);
      MissingInBatches(files, ks, print_);
      if missing != [] { return None; }
      CarriesExactly(ks, files, print_, connections, raises, results);
      normal := Some(Collected(results));
    } else {
      var raised, results, missing := SequentialPrint(files, print_, raises);
      if raised || missing != [] { return None; }
      normal := Some(Collected(results));
    }
  }

  /** The smallest loss: five hundred printable files over two connections, and the second batch
      raises. The changelist is returned as if nothing had happened, with three hundred of them. */
  method LosesABatch(meta: Metadata, actions: seq<FileAction>, stream: string, prefixLen: nat, print_: Print)
    returns (data: Option<CLData>)
    requires |WrittenFiles(actions, stream, prefixLen)| == 500
    requires Missing(WrittenFiles(actions, stream, prefixLen), print_) == []
    ensures data.Some? && !data.value.skipped && data.value.normal.Collected? && |data.value.normal.results| == 300
    ensures !Carries(data.value.normal, WrittenFiles(actions, stream, prefixLen), print_)
  {
    hide WrittenFiles, DeletedPaths, Present, Missing, FilesOf, Batch, Carries;
    ghost var files := WrittenFiles(actions, stream, prefixLen);
    var raises := k => k == 1;
    NoneMissing(files, print_, raises);
    data := BuildClData(meta, actions, stream, prefixLen, print_, raises, 2000, false, 2);
    SecondRaises(files, raises);
    ghost var ks: seq<nat> :| PrintedReached(ks, files, print_, 2, raises, data.value.normal.results, []);
    CarriesExactly(ks, files, print_, 2, raises, data.value.normal.results);
    FirstAndThird(files, ks, print_, raises, data.value.normal.results);
  }

  lemma SecondRaises(files: seq<FileRef>, raises: Raises)
    requires |files| == 500 && raises(1)
    ensures SomeRaises(files, raises)
  {
    assert 1 < BatchCount(files);
  }

  lemma {:induction false} NoneMissing(files: seq<FileRef>, print_: Print, raises: Raises)
    requires Missing(files, print_) == []
    ensures !ReachedMissing(files, print_, 2, raises)
  {
    NothingMissing(files, print_);
    forall k: nat | k < BatchCount(files) ensures Missing(Batch(files, k), print_) == [] {
      NothingMissing(Batch(files, k), print_);
    }
  }

  lemma {:induction false} FirstAndThird(files: seq<FileRef>, ks: seq<nat>, print_: Print, raises: Raises,
                                         results: seq<FileItem>)
    requires |files| == 500 && PrintedReached(ks, files, print_, 2, raises, results, [])
    requires forall k: nat :: raises(k) <==> k == 1
    ensures |FilesOf(files, ks)| == 300
  {
    hide FilesOf, Present, Missing;
    assert BatchCount(files) == 3;
    assert raises(1) && !Reached(1, 2, raises) && Reached(0, 2, raises) && Reached(2, 2, raises);
    forall k | k in ks ensures k == 0 || k == 2 {}
    assert 0 in ks && 2 in ks;
    var i :| 0 <= i < |ks| && ks[i] == 0;
    TakenOut(files, ks, i);
    var rest := ks[..i] + ks[i + 1..];
    var k :| 0 <= k < |rest| && rest[k] == 2;
    TakenOut(files, rest, k);
    var none := rest[..k] + rest[k + 1..];
    assert forall x :: x !in none;
    NothingIn(none);
    OneBatch(files, 0);
    assert |FilesOf(files, ks)| == |multiset(FilesOf(files, ks))|;
    assert |Batch(files, 0)| == 200 && |Batch(files, 2)| == 100;
  }

  /** What a changelist comes to write, once extraction has gone well. */
  function ItemsOf(data: CLData, print_: Print): seq<FileItem> {
    match data.normal
    case Collected(results) => results
    case Streamed(files) => Present(files, print_)
  }

  function CommitFor(data: CLData, branch: string, mark: nat, print_: Print): Command {
    CommitOf(branch, mark, data.meta, [], Deletes(data.deletes) + Writes(ItemsOf(data, print_)))
  }

  lemma FilesWritten(before: string, items: seq<FileItem>, more: seq<FileItem>)
    ensures before + FilesBytes(Writes(items)) + FilesBytes(Writes(more)) == before + FilesBytes(Writes(items + more))
  {
    hide FilesBytes, Unpack;
    assert Writes(items + more) == Writes(items) + Writes(more);
    FilesAppend(Writes(items), Writes(more));
    Associates(before, FilesBytes(Writes(items)), FilesBytes(Writes(more)));
  }

  /** The files of the batches before the first one that raises. */
  ghost predicate BeforeRaise(part: seq<FileRef>, files: seq<FileRef>, raises: Raises) {
    if SomeRaises(files, raises) then exists k: nat :: FirstRaise(files, raises, k) && part == files[..Upto(files, k)]
    else part == files
  }

  ghost predicate FirstRaise(files: seq<FileRef>, raises: Raises, k: nat) {
    k < BatchCount(files) && raises(k) && forall m: nat | m < k :: !raises(m)
  }

  /** Print a batch, write its files at once, and go on; what did not print is reported at the end. A
      batch that raises ends it all. */
  method StreamNormal(files: seq<FileRef>, print_: Print, raises: Raises, importer: FastImporter)
    returns (ok: bool, ghost part: seq<FileRef>)
    requires importer.running
    modifies importer`out
    ensures ok <==> !SomeRaises(files, raises) && Missing(files, print_) == []
    ensures BeforeRaise(part, files, raises)
    ensures importer.out == old(importer.out) + FilesBytes(Writes(Present(part, print_)))
  {
    hide FilesBytes, Present, Missing, Batch;
    var missing: seq<FileRef> := [];
    NothingPrinted(print_);
    NoFiles();
    AllBatches(files);
    for k := 0 to BatchCount(files)
      invariant missing == Missing(files[..Upto(files, k)], print_)
      invariant importer.out == old(importer.out) + FilesBytes(Writes(Present(files[..Upto(files, k)], print_)))
      invariant forall m: nat | m < k :: !raises(m)
    {
      ghost var before := files[..Upto(files, k)];
      if raises(k) {
        assert FirstRaise(files, raises, k);
        return false, before;
      }
      var partial, absent := PrintChunk(Batch(files, k), print_);
      BatchSize(files, k);
      PresentAppend(before, Batch(files, k), print_);
      FilesWritten(old(importer.out), Present(before, print_), partial);
      var written := importer.WriteFiles(partial);
      missing := missing + absent;
    }
    ok, part := missing == [], files;
  }

  lemma NoFiles()
    ensures FilesBytes(Writes([])) == ""
  {
  }

  /** A changelist with what Perforce prints at it, and how printing goes. */
  datatype Job = Job(data: CLData, print_: Print, raises: Raises)

  /** Nothing that is still to be printed fails. */
  ghost predicate Extracted(job: Job) {
    job.data.normal.Streamed? ==>
      !SomeRaises(job.data.normal.files, job.raises) && Missing(job.data.normal.files, job.print_) == []
  }

  /** What gets written of a changelist: all of it, unless a batch raises while it is streamed. */
  ghost predicate Reaches(written: CLData, data: CLData, raises: Raises) {
    match data.normal
    case Collected(_) => written == data
    case Streamed(files) =>
      exists part: seq<FileRef> :: BeforeRaise(part, files, raises) && written == data.(normal := Streamed(part))
  }

  /** Write one changelist as one commit: deletes first, then files. When a streamed file is missing or a
      batch raises, what is left on the stream is the commit of the other files, or of those before the
      batch, without its closing line feed. */
  method WriteChangelist(data: CLData, branch: string, print_: Print, raises: Raises, importer: FastImporter)
    returns (ok: bool, ghost written: CLData)
    requires importer.running
    modifies importer
    ensures importer.running && importer.mark == old(importer.mark) + 1
    ensures ok <==> Extracted(Job(data, print_, raises))
    ensures Reaches(written, data, raises) && (ok ==> written == data)
    ensures importer.out + (if ok then "" else "\n")
         == old(importer.out) + CommandBytes(CommitFor(written, branch, importer.mark, print_))
  {
    hide FilesBytes, Present, Missing, CommandBytes, OpeningBytes, BeforeRaise, SomeRaises;
    var open := importer.BeginCommit(branch, data.meta);
    var gone := importer.WriteDeletes(data.deletes);
    ok, written := true, data;
    match data.normal {
      case Streamed(files) =>
        ghost var part;
        ok, part := StreamNormal(files, print_, raises, importer);
        NothingRaised(part, files, raises);
        written := data.(normal := Streamed(part));
      case Collected(results) => var n := importer.WriteFiles(results);
    }
    ChangelistWritten(old(importer.out), branch, importer.mark, data.meta, data.deletes, ItemsOf(written, print_));
    if !ok { return; }
    var closed := importer.EndCommit();
    assert importer.out + "" == importer.out;
  }

  lemma NothingRaised(part: seq<FileRef>, files: seq<FileRef>, raises: Raises)
    requires BeforeRaise(part, files, raises)
    ensures !SomeRaises(files, raises) ==> part == files
  {
  }

  lemma ChangelistWritten(before: string, branch: string, mark: nat, m: Metadata, deletes: seq<string>,
                          items: seq<FileItem>)
    ensures before + OpeningBytes(branch, mark, m) + FilesBytes(Deletes(deletes)) + FilesBytes(Writes(items)) + "\n"
         == before + CommandBytes(CommitOf(branch, mark, m, [], Deletes(deletes) + Writes(items)))
  {
    hide FilesBytes, OpeningBytes, FormatMessage, HeaderBytes;
    var start := before + OpeningBytes(branch, mark, m);
    BodyWritten(start, [], Deletes(deletes), Writes(items));
    OneMerge([]);
    assert start + MergesBytes([]) == start;
    CommitWritten(before, branch, mark, m, [], Deletes(deletes) + Writes(items));
  }

  // ---------- A session ----------

  function Kept(jobs: seq<Job>): seq<Job> {
    if jobs == [] then []
    else
      var last := jobs[|jobs| - 1];
      Kept(jobs[..|jobs| - 1]) + if last.data.skipped then [] else [last]
  }

  /** The commits of the changelists that were not skipped, marked from one up. */
  function SessionCommands(jobs: seq<Job>, branch: string): seq<Command> {
    seq(|jobs|, i requires 0 <= i < |jobs| => CommitFor(jobs[i].data, branch, i + 1, jobs[i].print_))
  }

  /** What the i-th command says: the next mark, the changelist's author and message, no merge, and
      its deletes before its files, each file with its content and mode. */
  lemma SessionSays(jobs: seq<Job>, branch: string, i: nat)
    requires i < |jobs|
    ensures |SessionCommands(jobs, branch)| == |jobs|
    ensures var c, data := SessionCommands(jobs, branch)[i], jobs[i].data;
            var items := ItemsOf(data, jobs[i].print_);
      && c.Commit? && c.branch == branch && c.mark == i + 1 && c.merges == []
      && c.author == c.committer == Ident(data.meta.authorName, data.meta.authorEmail, data.meta.authorTimestamp)
      && data.meta.message + "\n\nP4CL: " + Decimal(data.meta.p4Changelist) <= c.message
      && |c.files| == |data.deletes| + |items|
      && (forall k | 0 <= k < |data.deletes| :: c.files[k] == Delete(data.deletes[k]))
      && (forall k | 0 <= k < |items| && items[k].mode.Some? ::
            c.files[|data.deletes| + k] == Modify(items[k].mode.value, items[k].path, items[k].content))
  {
    hide ItemsOf, FormatMessage, Decimal;
    MessageStarts(jobs[i].data.meta);
  }

  lemma {:induction false} KeptOneMore(jobs: seq<Job>, i: nat)
    requires i < |jobs|
    ensures Kept(jobs[..i + 1]) == if jobs[i].data.skipped then Kept(jobs[..i]) else Kept(jobs[..i]) + [jobs[i]]
  {
    assert jobs[..i + 1][..i] == jobs[..i];
  }

  lemma {:induction false} SessionOneMore(jobs: seq<Job>, job: Job, branch: string)
    ensures StreamBytes(SessionCommands(jobs + [job], branch))
         == StreamBytes(SessionCommands(jobs, branch))
            + CommandBytes(CommitFor(job.data, branch, |jobs| + 1, job.print_))
  {
    hide StreamBytes, CommandBytes, CommitFor;
    var c := CommitFor(job.data, branch, |jobs| + 1, job.print_);
    assert SessionCommands(jobs + [job], branch) == SessionCommands(jobs, branch) + [c];
    StreamAppendOne(SessionCommands(jobs, branch), c);
  }

  /** Write changelists in order until one fails; of that one everything that is reached is written, but
      for the last line feed. */
  method ImportSession(jobs: seq<Job>, branch: string, importer: FastImporter)
    returns (done: nat, ghost last: Option<CLData>)
    requires importer.running && importer.mark == 0 && importer.out == ""
    modifies importer
    ensures done <= |jobs|
    ensures (forall i | 0 <= i < |jobs| :: Extracted(jobs[i])) ==> done == |jobs|
    ensures done == |jobs| ==> importer.out == StreamBytes(SessionCommands(Kept(jobs), branch))
    ensures done < |jobs| ==> !jobs[done].data.skipped && !Extracted(jobs[done])
    ensures done < |jobs| ==> last.Some? && Reaches(last.value, jobs[done].data, jobs[done].raises)
    ensures done < |jobs| ==>
      var cut := jobs[done].(data := last.value);
      importer.out + "\n" == StreamBytes(SessionCommands(Kept(jobs[..done]) + [cut], branch))
  {
    hide StreamBytes, CommandBytes, CommitFor, Kept, SessionCommands, Missing, ItemsOf, Reaches, Extracted;
    done, last := 0, None;
    NoCommands(branch);
    assert jobs[..0] == [];
    while done < |jobs|
      invariant done <= |jobs| && importer.running && importer.mark == |Kept(jobs[..done])|
      invariant importer.out == StreamBytes(SessionCommands(Kept(jobs[..done]), branch))
    {
      var job := jobs[done];
      KeptOneMore(jobs, done);
      if !job.data.skipped {
        ghost var written;
        var ok;
        ok, written := WriteChangelist(job.data, branch, job.print_, job.raises, importer);
        last := Some(written);
        SessionOneMore(Kept(jobs[..done]), job.(data := written), branch);
        if !ok { return; }
      }
      done := done + 1;
    }
    assert jobs[..done] == jobs;
  }

  lemma NoCommands(branch: string)
    ensures Kept([]) == []
    ensures StreamBytes(SessionCommands([], branch)) == ""
  {
  }

  // ---------- The order of extraction does not matter ----------

  /** No two entries of a changelist name the same repository path. */
  ghost predicate OneEntryPerPath(fs: multiset<FileRef>) {
    forall f, g | f in fs && g in fs :: fs[f] == 1 && (f.gitPath == g.gitPath ==> f == g)
  }

  ghost function BlobFor(f: FileRef, print_: Print, oid: string -> Oid): Blob
    requires print_(f.depotPath).Some?
  {
    Blob(oid(print_(f.depotPath).value), f.mode)
  }

  lemma {:induction false} PresentSplit(fs: seq<FileRef>, print_: Print, oid: string -> Oid)
    requires fs != [] && Missing(fs, print_) == []
    ensures var f := fs[|fs| - 1];
            && print_(f.depotPath).Some? && Missing(fs[..|fs| - 1], print_) == []
            && LastWrites(BlobsOf(Present(fs, print_), oid))
               == LastWrites(BlobsOf(Present(fs[..|fs| - 1], print_), oid))[Split(f.gitPath) := BlobFor(f, print_, oid)]
  {
    var f, before := fs[|fs| - 1], Present(fs[..|fs| - 1], print_);
    var item := ItemOf(f, print_(f.depotPath).value);
    assert Present(fs, print_) == before + [item];
    assert BlobsOf(before + [item], oid) == BlobsOf(before, oid) + [(Split(f.gitPath), BlobFor(f, print_, oid))];
    var ws := BlobsOf(before + [item], oid);
    assert ws[..|ws| - 1] == BlobsOf(before, oid);
  }

  /** The written blobs are exactly those of the files, found by path. */
  ghost predicate WrittenByPath(ws: map<Path, Blob>, fs: seq<FileRef>, print_: Print, oid: string -> Oid) {
    && (forall f | f in fs :: print_(f.depotPath).Some? && Split(f.gitPath) in ws
                              && ws[Split(f.gitPath)] == BlobFor(f, print_, oid))
    && (forall p | p in ws :: exists f :: f in fs && Split(f.gitPath) == p)
  }

  lemma {:induction false} OneMoreByPath(ws: map<Path, Blob>, fs: seq<FileRef>, f: FileRef, print_: Print,
          oid: string -> Oid)
    requires WrittenByPath(ws, fs, print_, oid) && print_(f.depotPath).Some?
    requires forall g | g in fs :: g.gitPath != f.gitPath
    ensures WrittenByPath(ws[Split(f.gitPath) := BlobFor(f, print_, oid)], fs + [f], print_, oid)
  {
    hide Split;
    var ws' := ws[Split(f.gitPath) := BlobFor(f, print_, oid)];
    forall g | g in fs + [f]
      ensures print_(g.depotPath).Some? && Split(g.gitPath) in ws' && ws'[Split(g.gitPath)] == BlobFor(g, print_, oid)
    {
      assert g in fs || g == f;
      if g in fs && Split(g.gitPath) == Split(f.gitPath) { SplitInjective(g.gitPath, f.gitPath); }
    }
    forall p | p in ws' ensures exists g :: g in fs + [f] && Split(g.gitPath) == p {
      if p in ws {
        var g :| g in fs && Split(g.gitPath) == p;
        assert g in fs + [f];
      } else {
        assert f in fs + [f];
      }
    }
  }

  lemma {:induction false} NothingWritten(print_: Print, oid: string -> Oid)
    ensures WrittenByPath(LastWrites(BlobsOf(Present([], print_), oid)), [], print_, oid)
  {
  }

  /** With one entry per path, the files written are looked up by path, in whatever order they came. */
  lemma {:induction false} WritesByPath(fs: seq<FileRef>, print_: Print, oid: string -> Oid)
    requires OneEntryPerPath(multiset(fs)) && Missing(fs, print_) == []
    ensures WrittenByPath(LastWrites(BlobsOf(Present(fs, print_), oid)), fs, print_, oid)
  {
    hide LastWrites, BlobsOf, Present, Split, BlobFor, WrittenByPath, OneEntryPerPath, Missing;
    if fs == [] {
      NothingWritten(print_, oid);
    } else {
      var k := |fs| - 1;
      PresentSplit(fs, print_, oid);
      EntriesBeforeLast(fs);
      WritesByPath(fs[..k], print_, oid);
      OneMoreByPath(LastWrites(BlobsOf(Present(fs[..k], print_), oid)), fs[..k], fs[k], print_, oid);
      assert fs == fs[..k] + [fs[k]];
    }
  }

  lemma EntriesBeforeLast(fs: seq<FileRef>)
    requires fs != [] && OneEntryPerPath(multiset(fs))
    ensures OneEntryPerPath(multiset(fs[..|fs| - 1]))
    ensures forall f | f in fs[..|fs| - 1] :: f.gitPath != fs[|fs| - 1].gitPath
  {
    var k := |fs| - 1;
    var before, all := multiset(fs[..k]), multiset(fs);
    assert fs == fs[..k] + [fs[k]];
    assert all == before + multiset{fs[k]};
    forall f, g | f in before && g in before ensures before[f] == 1 && (f.gitPath == g.gitPath ==> f == g) {
      assert f in all && g in all;
    }
    forall f | f in fs[..k] ensures f.gitPath != fs[k].gitPath {
      assert f in before && f in all && fs[k] in all;
    }
  }

  /** Any order of the same files writes the same blobs. */
  lemma {:induction false} OrderDoesNotMatter(fs: seq<FileRef>, gs: seq<FileRef>, print_: Print, oid: string -> Oid)
    requires multiset(fs) == multiset(gs) && OneEntryPerPath(multiset(fs))
    requires Missing(fs, print_) == [] && Missing(gs, print_) == []
    ensures LastWrites(BlobsOf(Present(fs, print_), oid)) == LastWrites(BlobsOf(Present(gs, print_), oid))
  {
    WritesByPath(fs, print_, oid);
    WritesByPath(gs, print_, oid);
    forall f ensures f in fs <==> f in gs { assert f in multiset(fs) <==> f in multiset(gs); }
    SameWrites(LastWrites(BlobsOf(Present(fs, print_), oid)), LastWrites(BlobsOf(Present(gs, print_), oid)), fs, gs,
               print_, oid);
  }

  lemma {:induction false} SameWrites(a: map<Path, Blob>, b: map<Path, Blob>, fs: seq<FileRef>, gs: seq<FileRef>,
                                      print_: Print, oid: string -> Oid)
    requires forall f :: f in fs <==> f in gs
    requires WrittenByPath(a, fs, print_, oid) && WrittenByPath(b, gs, print_, oid)
    ensures a == b
  {
    hide Split;
    forall p | p in a || p in b ensures p in a && p in b && a[p] == b[p] {
      assert p in a ==> exists f :: f in fs && Split(f.gitPath) == p;
      assert p in b ==> exists f :: f in gs && Split(f.gitPath) == p;
    }
  }

  /** However the files were extracted, the commit writes the blobs the incremental builder is given. */
  lemma {:induction false} CarriedWrites(normal: Normal, files: seq<FileRef>, print_: Print, data: CLData,
          oid: string -> Oid)
    requires data.normal == normal && Carries(normal, files, print_)
    requires OneEntryPerPath(multiset(files)) && Missing(files, print_) == []
    ensures LastWrites(BlobsOf(ItemsOf(data, print_), oid)) == LastWrites(BlobsOf(Present(files, print_), oid))
  {
    if normal.Collected? {
      var order: seq<FileRef> :| multiset(order) == multiset(files) && Missing(order, print_) == []
                                 && normal.results == Present(order, print_);
      OrderDoesNotMatter(files, order, print_, oid);
    }
  }

  // ---------- Bulk equals incremental ----------

  /** A job and the step the incremental builder would take for the same changelist. */
  ghost predicate SameChangelist(job: Job, files: seq<FileRef>, step: Step, oid: string -> Oid) {
    && Carries(job.data.normal, files, job.print_)
    && OneEntryPerPath(multiset(files)) && Missing(files, job.print_) == []
    && step.changes == LastWrites(BlobsOf(Present(files, job.print_), oid))
    && step.deletes == Elements(PathsOf(job.data.deletes))
  }

  /** Along the history no delete takes out a directory. */
  ghost predicate DeletesNameFilesThroughout(steps: seq<Step>) {
    steps == [] ||
    var before, s := steps[..|steps| - 1], steps[|steps| - 1];
    DeletesNameFilesThroughout(before) && DeletesNameFiles(FlatAfter(before), s.changes, s.deletes)
  }

  lemma {:induction false} OneChangelistReplayed(m: Files, job: Job, files: seq<FileRef>, step: Step,
          oid: string -> Oid)
    requires SameChangelist(job, files, step, oid) && PrefixFree(m.Keys)
    requires PrefixFree(Reference(m, step.changes, step.deletes).Keys)
    ensures ReplayFiles(m, Deletes(job.data.deletes) + Writes(ItemsOf(job.data, job.print_)), oid)
         == Reference(m, step.changes, step.deletes)
        <==> DeletesNameFiles(m, step.changes, step.deletes)
  {
    CarriedWrites(job.data.normal, files, job.print_, job.data, oid);
    ReplayOfChangelist(m, job.data.deletes, ItemsOf(job.data, job.print_), oid);
    ReplayMeetsReference(m, PathsOf(job.data.deletes), BlobsOf(ItemsOf(job.data, job.print_), oid));
  }

  /** After every changelist the session's files are those of the history. */
  ghost predicate FollowsThroughout(jobs: seq<Job>, steps: seq<Step>, branch: string, oid: string -> Oid)
    requires |jobs| == |steps|
  {
    forall n: nat | n <= |jobs| :: FollowsAt(jobs, steps, n, branch, oid)
  }

  ghost predicate FollowsAt(jobs: seq<Job>, steps: seq<Step>, n: nat, branch: string, oid: string -> Oid)
    requires |jobs| == |steps| && n <= |jobs|
  {
    ReplayCommits(SessionCommands(jobs[..n], branch), oid) == FlatAfter(steps[..n])
  }

  lemma {:induction false} OneMoreFollows(jobs: seq<Job>, steps: seq<Step>, branch: string, oid: string -> Oid)
    requires |jobs| == |steps| && jobs != []
    ensures var k := |jobs| - 1;
      FollowsThroughout(jobs, steps, branch, oid) <==>
        FollowsThroughout(jobs[..k], steps[..k], branch, oid) && FollowsAt(jobs, steps, |jobs|, branch, oid)
  {
    hide SessionCommands, FlatAfter, ReplayCommits;
    var k := |jobs| - 1;
    forall n: nat | n <= k
      ensures FollowsAt(jobs[..k], steps[..k], n, branch, oid) == FollowsAt(jobs, steps, n, branch, oid)
    {
      assert jobs[..k][..n] == jobs[..n] && steps[..k][..n] == steps[..n];
    }
  }

  /** One more changelist: the session keeps up with it exactly when its deletes name files. */
  lemma {:induction false} LastFollows(jobs: seq<Job>, files: seq<FileRef>, steps: seq<Step>, branch: string,
                                       oid: string -> Oid)
    requires |jobs| == |steps| && jobs != [] && MergesThroughout(steps)
    requires SameChangelist(jobs[|jobs| - 1], files, steps[|jobs| - 1], oid)
    requires FollowsAt(jobs[..|jobs| - 1], steps[..|jobs| - 1], |jobs| - 1, branch, oid)
    ensures var k := |jobs| - 1;
      FollowsAt(jobs, steps, |jobs|, branch, oid) <==>
        DeletesNameFiles(FlatAfter(steps[..k]), steps[k].changes, steps[k].deletes)
  {
    hide SameChangelist, Mergeable, TreeAfter, FormatMessage, ItemsOf, Reference;
    hide ReplayFiles, Canonical, DeletesNameFiles;
    var k := |jobs| - 1;
    HistoryInvariant(steps[..k]);
    HistoryInvariant(steps);
    assert SessionCommands(jobs, branch)[..k] == SessionCommands(jobs[..k], branch);
    assert jobs[..k + 1] == jobs && steps[..k + 1] == steps;
    assert jobs[..k][..k] == jobs[..k] && steps[..k][..k] == steps[..k];
    OneChangelistReplayed(FlatAfter(steps[..k]), jobs[k], files, steps[k], oid);
  }

  /** The session keeps up with the history after every changelist exactly when no delete along it
      takes out a directory. */
  lemma {:induction false} FollowsExactly(jobs: seq<Job>, files: seq<seq<FileRef>>, steps: seq<Step>, branch: string,
                                          oid: string -> Oid)
    requires |jobs| == |steps| == |files|
    requires forall i | 0 <= i < |jobs| :: SameChangelist(jobs[i], files[i], steps[i], oid)
    requires MergesThroughout(steps)
    ensures FollowsThroughout(jobs, steps, branch, oid) <==> DeletesNameFilesThroughout(steps)
  {
    hide SameChangelist, Mergeable, TreeAfter, FormatMessage, ItemsOf, FollowsAt, DeletesNameFiles, FlatAfter;
    if jobs == [] {
      NothingFollows(branch, oid);
    } else {
      var k := |jobs| - 1;
      FollowsExactly(jobs[..k], files[..k], steps[..k], branch, oid);
      OneMoreFollows(jobs, steps, branch, oid);
      if FollowsThroughout(jobs[..k], steps[..k], branch, oid) { LastFollows(jobs, files[k], steps, branch, oid); }
    }
  }

  lemma NothingFollows(branch: string, oid: string -> Oid)
    ensures FollowsThroughout([], [], branch, oid)
  {
    var jobs: seq<Job>, steps: seq<Step> := [], [];
    assert jobs[..0] == [] && steps[..0] == [] && SessionCommands([], branch) == [];
  }

  predicate PlainJob(job: Job, branch: string) { PlainCommand(CommitFor(job.data, branch, 1, job.print_)) }

  lemma {:induction false} SessionIsPlain(jobs: seq<Job>, branch: string)
    requires forall i | 0 <= i < |jobs| :: PlainJob(jobs[i], branch)
    ensures forall c | c in SessionCommands(jobs, branch) :: PlainCommand(c)
  {
    hide PlainCommand, CommitFor;
    var cs := SessionCommands(jobs, branch);
    forall c | c in cs ensures PlainCommand(c) {
      var i :| 0 <= i < |cs| && cs[i] == c;
      assert PlainJob(jobs[i], branch);
      MarkIsPlain(jobs[i], branch, i + 1);
    }
  }

  lemma {:induction false} MarkIsPlain(job: Job, branch: string, mark: nat)
    requires PlainJob(job, branch)
    ensures PlainCommand(CommitFor(job.data, branch, mark, job.print_))
  {
    hide FormatMessage, ItemsOf, Writes, Deletes, PlainIdent, PlainPath;
  }

  lemma FollowsToTheEnd(jobs: seq<Job>, steps: seq<Step>, branch: string, oid: string -> Oid)
    requires |jobs| == |steps| && FollowsThroughout(jobs, steps, branch, oid)
    ensures ReplayCommits(SessionCommands(jobs, branch), oid) == FlatAfter(steps)
  {
    hide SessionCommands, ReplayCommits, FlatAfter;
    assert jobs[..|jobs|] == jobs && steps[..|steps|] == steps;
    assert FollowsAt(jobs, steps, |jobs|, branch, oid);
  }

  /** Reading back the bytes of a session and replaying them gives the files of the tree that the
      incremental builder ends in, whichever way each changelist was extracted. */
  lemma {:induction false} BulkSessionEqualsIncremental(jobs: seq<Job>, files: seq<seq<FileRef>>, steps: seq<Step>,
                                     branch: string, oid: string -> Oid)
    requires |jobs| == |steps| == |files|
    requires forall i | 0 <= i < |jobs| :: SameChangelist(jobs[i], files[i], steps[i], oid) && PlainJob(jobs[i], branch)
    requires MergesThroughout(steps) && DeletesNameFilesThroughout(steps)
    ensures var sent := ReadStream(StreamBytes(SessionCommands(jobs, branch)));
            sent.Some? && ReplayCommits(sent.value, oid) == Listing(TreeAfter(steps))
  {
    hide StreamBytes, ReadStream, FlatAfter, MergesThroughout, ReplayCommits, SameChangelist, TreeAfter;
    hide CommitFor, PlainCommand;
    hide DeletesNameFilesThroughout;
    var cs := SessionCommands(jobs, branch);
    SessionIsPlain(jobs, branch);
    StreamRead(cs);
    FollowsExactly(jobs, files, steps, branch, oid);
    FollowsToTheEnd(jobs, steps, branch, oid);
    HistoryInvariant(steps);
  }
}
