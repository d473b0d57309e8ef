/** The bulk importer: extracting the files of a changelist in one of three ways and writing them,
    commit by commit, to a fast-import process. */
module BulkImport {
  import opened Options
  import opened Text
  import opened Paths
  import opened FastImporters

  const BATCH_PRINT_SIZE: nat := 200
  const LARGE_CL_THRESHOLD: nat := 500

  datatype FileAction = FileAction(depotPath: string, action: string, mode: nat)

  datatype FileRef = FileRef(depotPath: string, gitPath: string, mode: nat)

  /** What Perforce prints for a depot path at the changelist's revision, if it can. */
  type Print = string -> Option<string>

  // ---------- Sorting the actions of a changelist ----------

  predicate IsDelete(action: string) { action in {"delete", "move/delete", "purge"} }

  predicate IsAddEdit(action: string) { action in {"add", "edit", "branch", "integrate", "move/add"} }

  function DeletedPaths(actions: seq<FileAction>, stream: string, prefixLen: nat): seq<string> {
    if actions == [] then []
    else
      var fa, before := actions[|actions| - 1], DeletedPaths(actions[..|actions| - 1], stream, prefixLen);
      var path := DepotToGitPath(fa.depotPath, stream, prefixLen);
      if path.Some? && IsDelete(fa.action) then before + [path.value] else before
  }

  function WrittenFiles(actions: seq<FileAction>, stream: string, prefixLen: nat): seq<FileRef> {
    if actions == [] then []
    else
      var fa, before := actions[|actions| - 1], WrittenFiles(actions[..|actions| - 1], stream, prefixLen);
      var path := DepotToGitPath(fa.depotPath, stream, prefixLen);
      if path.Some? && !IsDelete(fa.action) && IsAddEdit(fa.action)
      then before + [FileRef(fa.depotPath, path.value, fa.mode)] else before
  }

  predicate IsWriting(fa: FileAction) {
    || fa.action == "add" || fa.action == "edit" || fa.action == "branch" || fa.action == "integrate"
    || fa.action == "move/add"
  }

  predicate IsDeleting(fa: FileAction) { fa.action == "delete" || fa.action == "move/delete" || fa.action == "purge" }

  /** The action puts a file of this name, below the stream, into the repository. */
  predicate WritesTo(fa: FileAction, stream: string, path: string) {
    IsWriting(fa) && fa.depotPath == stream + ("/" + path)
  }

  predicate DeletesAt(fa: FileAction, stream: string, path: string) {
    IsDeleting(fa) && fa.depotPath == stream + ("/" + path)
  }

  lemma NamedBelow(depotPath: string, stream: string, path: string)
    ensures DepotToGitPath(depotPath, stream, |stream| + 1) == Some(path) <==> depotPath == stream + ("/" + path)
  {
    if depotPath == stream + ("/" + path) { assert depotPath[|stream| + 1..] == path && stream + "/" <= depotPath; }
    if stream + "/" <= depotPath { assert depotPath == stream + ("/" + depotPath[|stream| + 1..]); }
  }

  /** A file is written exactly when some action adds, edits, branches, integrates or moves it in. */
  lemma {:induction false} WrittenExactly(actions: seq<FileAction>, stream: string, f: FileRef)
    ensures f in WrittenFiles(actions, stream, |stream| + 1) <==>
      exists fa :: fa in actions && WritesTo(fa, stream, f.gitPath) && f == FileRef(fa.depotPath, f.gitPath, fa.mode)
  {
    if actions != [] {
      var before, last := actions[..|actions| - 1], actions[|actions| - 1];
      assert actions == before + [last];
      WrittenExactly(before, stream, f);
      NamedBelow(last.depotPath, stream, f.gitPath);
    }
  }

  /** A path is deleted exactly when some action deletes, moves away or purges it. */
  lemma {:induction false} DeletedExactly(actions: seq<FileAction>, stream: string, path: string)
    ensures path in DeletedPaths(actions, stream, |stream| + 1) <==>
      exists fa :: fa in actions && DeletesAt(fa, stream, path)
  {
    if actions != [] {
      var before, last := actions[..|actions| - 1], actions[|actions| - 1];
      assert actions == before + [last];
      DeletedExactly(before, stream, path);
      NamedBelow(last.depotPath, stream, path);
      assert IsDelete(last.action) <==> IsDeleting(last);
      assert last in actions && (forall fa | fa in before :: fa in actions);
    }
  }

  /** Order and number are those of the actions: lists are sorted piece by piece, ... */
  lemma {:induction false} SortedApart(a: seq<FileAction>, b: seq<FileAction>, stream: string, n: nat)
    ensures WrittenFiles(a + b, stream, n) == WrittenFiles(a, stream, n) + WrittenFiles(b, stream, n)
    ensures DeletedPaths(a + b, stream, n) == DeletedPaths(a, stream, n) + DeletedPaths(b, stream, n)
  {
    if b == [] {
      assert a + b == a;
    } else {
      assert (a + b)[..|a + b| - 1] == a + b[..|b| - 1];
      SortedApart(a, b[..|b| - 1], stream, n);
    }
  }

  /** ... and a single action gives one file, one path, or nothing. */
  lemma SortedOne(fa: FileAction, stream: string, path: string)
    requires fa.depotPath == stream + ("/" + path)
    ensures WrittenFiles([fa], stream, |stream| + 1) ==
            if IsWriting(fa) then [FileRef(fa.depotPath, path, fa.mode)] else []
    ensures DeletedPaths([fa], stream, |stream| + 1) == if IsDeleting(fa) then [path] else []
  {
    NamedBelow(fa.depotPath, stream, path);
    SortedAlone(fa, stream, |stream| + 1);
    ActionsApart(fa);
    hide DepotToGitPath, WrittenFiles, DeletedPaths, IsDelete, IsAddEdit, IsWriting, IsDeleting;
  }

  lemma ActionsApart(fa: FileAction)
    ensures IsDelete(fa.action) <==> IsDeleting(fa)
    ensures !IsDelete(fa.action) && IsAddEdit(fa.action) <==> IsWriting(fa)
  {
  }

  lemma SortedAlone(fa: FileAction, stream: string, n: nat)
    ensures var path := DepotToGitPath(fa.depotPath, stream, n);
            && WrittenFiles([fa], stream, n) ==
               (if path.Some? && !IsDelete(fa.action) && IsAddEdit(fa.action)
                then [FileRef(fa.depotPath, path.value, fa.mode)] else [])
            && DeletedPaths([fa], stream, n) == if path.Some? && IsDelete(fa.action) then [path.value] else []
  {
    hide DepotToGitPath, IsDelete, IsAddEdit;
    assert [fa][..0] == [];
    assert WrittenFiles([], stream, n) == [] && DeletedPaths([], stream, n) == [];
  }

  /** The size at which a changelist counts as large, and the size of a batch. */
  lemma BatchSizes(files: seq<FileRef>, k: nat)
    requires 200 * k < |files|
    ensures Batch(files, k) == files[200 * k..if 200 * k + 200 <= |files| then 200 * k + 200 else |files|]
  {
  }

  method SortActions(actions: seq<FileAction>, stream: string, prefixLen: nat)
    returns (files: seq<FileRef>, deletes: seq<string>)
    ensures files == WrittenFiles(actions, stream, prefixLen) && deletes == DeletedPaths(actions, stream, prefixLen)
    ensures prefixLen == |stream| + 1 ==> forall f :: f in files <==>
      exists fa :: fa in actions && WritesTo(fa, stream, f.gitPath) && f == FileRef(fa.depotPath, f.gitPath, fa.mode)
    ensures prefixLen == |stream| + 1 ==> forall p :: p in deletes <==>
      exists fa :: fa in actions && DeletesAt(fa, stream, p)
  {
    hide WritesTo, DeletesAt;
    if prefixLen == |stream| + 1 {
      forall f
        ensures f in WrittenFiles(actions, stream, prefixLen) <==> exists fa ::
          fa in actions && WritesTo(fa, stream, f.gitPath) && f == FileRef(fa.depotPath, f.gitPath, fa.mode)
      {
        WrittenExactly(actions, stream, f);
      }
      forall p
        ensures p in DeletedPaths(actions, stream, prefixLen) <==>
          exists fa :: fa in actions && DeletesAt(fa, stream, p)
      {
        DeletedExactly(actions, stream, p);
      }
    }
    files, deletes := [], [];
    for i := 0 to |actions|
      invariant files == WrittenFiles(actions[..i], stream, prefixLen)
      invariant deletes == DeletedPaths(actions[..i], stream, prefixLen)
    {
      assert actions[..i + 1][..i] == actions[..i];
      var path := DepotToGitPath(actions[i].depotPath, stream, prefixLen);
      if path.Some? {
        if IsDelete(actions[i].action) {
          deletes := deletes + [path.value];
        } else if IsAddEdit(actions[i].action) {
          files := files + [FileRef(actions[i].depotPath, path.value, actions[i].mode)];
        }
      }
    }
    assert actions[..|actions|] == actions;
  }

  // ---------- Extraction ----------

  function ItemOf(f: FileRef, content: string): FileItem { FileItem(f.gitPath, content, Some(f.mode)) }

  /** The files that print, with their contents, in order. */
  function Present(fs: seq<FileRef>, print_: Print): seq<FileItem> {
    if fs == [] then []
    else
      var f := fs[|fs| - 1];
      var content := print_(f.depotPath);
      Present(fs[..|fs| - 1], print_) + if content.Some? then [ItemOf(f, content.value)] else []
  }

  function Missing(fs: seq<FileRef>, print_: Print): seq<FileRef> {
    if fs == [] then []
    else
      var f := fs[|fs| - 1];
      Missing(fs[..|fs| - 1], print_) + if print_(f.depotPath).Some? then [] else [f]
  }

  lemma {:induction false} PresentOne(fs: seq<FileRef>, print_: Print, i: nat)
    requires i < |fs|
    ensures Present(fs[..i + 1], print_) == Present(fs[..i], print_)
      + if print_(fs[i].depotPath).Some? then [ItemOf(fs[i], print_(fs[i].depotPath).value)] else []
    ensures Missing(fs[..i + 1], print_) == Missing(fs[..i], print_)
      + if print_(fs[i].depotPath).Some? then [] else [fs[i]]
  {
    assert fs[..i + 1][..i] == fs[..i];
  }

  lemma {:induction false} PresentAppend(fs: seq<FileRef>, gs: seq<FileRef>, print_: Print)
    ensures Present(fs + gs, print_) == Present(fs, print_) + Present(gs, print_)
    ensures Missing(fs + gs, print_) == Missing(fs, print_) + Missing(gs, print_)
  {
    if gs == [] {
      assert fs + gs == fs;
    } else {
      var all, k := fs + gs, |gs| - 1;
      assert all[..|all| - 1] == fs + gs[..k];
      PresentAppend(fs, gs[..k], print_);
    }
  }

  /** One batch print: the files of a chunk that came back, and those that did not. */
  method PrintChunk(chunk: seq<FileRef>, print_: Print) returns (partial: seq<FileItem>, missing: seq<FileRef>)
    ensures partial == Present(chunk, print_) && missing == Missing(chunk, print_)
  {
    partial, missing := [], [];
    for i := 0 to |chunk|
      invariant partial == Present(chunk[..i], print_) && missing == Missing(chunk[..i], print_)
    {
      PresentOne(chunk, print_, i);
      var content := print_(chunk[i].depotPath);
      if content.Some? {
        partial := partial + [ItemOf(chunk[i], content.value)];
      } else {
        missing := missing + [chunk[i]];
      }
    }
    assert chunk[..|chunk|] == chunk;
  }

  // ---------- Batches ----------

  function BatchCount(files: seq<FileRef>): nat { (|files| + (BATCH_PRINT_SIZE - 1)) / BATCH_PRINT_SIZE }

  /** How many files the first k batches hold. */
  function Upto(files: seq<FileRef>, k: nat): (n: nat)
    ensures n <= |files|
  {
    Min(BATCH_PRINT_SIZE * k, |files|)
  }

  function Batch(files: seq<FileRef>, k: nat): seq<FileRef> { files[Upto(files, k)..Upto(files, k + 1)] }

  /** Whether printing a batch raises instead of answering, by its number. */
  type Raises = nat -> bool

  lemma BatchSize(files: seq<FileRef>, k: nat)
    requires k < BatchCount(files)
    ensures 0 < |Batch(files, k)| <= BATCH_PRINT_SIZE && Upto(files, k + 1) == Upto(files, k) + |Batch(files, k)|
    ensures files[..Upto(files, k + 1)] == files[..Upto(files, k)] + Batch(files, k)
    ensures Upto(files, BatchCount(files)) == |files|
  {
  }

  ghost predicate SomeRaises(files: seq<FileRef>,
                             raises: Raises) { exists k: nat :: k < BatchCount(files) && raises(k) }

  /** Batch by batch over one connection; a batch that raises ends it all. */
  method SequentialPrint(files: seq<FileRef>, print_: Print, raises: Raises)
    returns (raised: bool, results: seq<FileItem>, missing: seq<FileRef>)
    ensures raised <==> SomeRaises(files, raises)
    ensures !raised ==> results == Present(files, print_) && missing == Missing(files, print_)
  {
    hide Batch, Present, Missing;
    raised, results, missing := false, [], [];
    NothingPrinted(print_);
    AllBatches(files);
    for k := 0 to BatchCount(files)
      invariant results == Present(files[..Upto(files, k)], print_)
      invariant missing == Missing(files[..Upto(files, k)], print_)
      invariant forall m: nat | m < k :: !raises(m)
    {
      if raises(k) { return true, [], []; }
      var partial, absent := PrintChunk(Batch(files, k), print_);
      BatchSize(files, k);
      PresentAppend(files[..Upto(files, k)], Batch(files, k), print_);
      results, missing := results + partial, missing + absent;
    }
  }

  lemma AllBatches(files: seq<FileRef>)
    ensures Upto(files, 0) == 0 && Upto(files, BatchCount(files)) == |files|
    ensures files[..Upto(files, 0)] == [] && files[..Upto(files, BatchCount(files))] == files
  {
  }

  lemma {:induction false} NothingPrinted(print_: Print)
    ensures Present([], print_) == [] && Missing([], print_) == []
  {
  }
}
