/** The writer side of a fast-import process: a commit at once, or opened, filled and closed. */
module FastImporters {
  import opened Options
  import opened Text
  import opened CommitMetadata
  import opened FastImport

  const GIT_MODE_FILE: nat := 33188  // 100644 in octal

  /** A changed file; the mode may be left out. */
  datatype FileItem = FileItem(path: string, content: string, mode: Option<nat>)

  function Unpack(item: FileItem): FileCommand {
    Modify(if item.mode.Some? then item.mode.value else GIT_MODE_FILE, item.path, item.content)
  }

  function Writes(items: seq<FileItem>): (fs: seq<FileCommand>)
    ensures |fs| == |items| && forall i | 0 <= i < |items| :: fs[i] == Unpack(items[i])
  {
    seq(|items|, i requires 0 <= i < |items| => Unpack(items[i]))
  }

  function Deletes(paths: seq<string>): (fs: seq<FileCommand>)
    ensures |fs| == |paths| && forall i | 0 <= i < |paths| :: fs[i] == Delete(paths[i])
  {
    seq(|paths|, i requires 0 <= i < |paths| => Delete(paths[i]))
  }

  function IdentOf(m: Metadata): Ident { Ident(m.authorName, m.authorEmail, m.authorTimestamp) }

  function CommitOf(branch: string, mark: nat, m: Metadata, merges: seq<Merge>, files: seq<FileCommand>): Command {
    Commit(branch, mark, IdentOf(m), IdentOf(m), FormatMessage(m), merges, files)
  }

  function OpeningBytes(branch: string, mark: nat, m: Metadata): string {
    HeaderBytes(branch, mark, IdentOf(m), IdentOf(m), FormatMessage(m))
  }

  // ---------- Putting a commit together from its parts ----------

  lemma {:induction false} FilesAppend(fs: seq<FileCommand>, gs: seq<FileCommand>)
    ensures FilesBytes(fs + gs) == FilesBytes(fs) + FilesBytes(gs)
  {
    if fs == [] {
      assert fs + gs == gs;
    } else {
      assert (fs + gs)[1..] == fs[1..] + gs;
      FilesAppend(fs[1..], gs);
    }
  }

  lemma FilesAppendOne(fs: seq<FileCommand>, f: FileCommand)
    ensures FilesBytes(fs + [f]) == FilesBytes(fs) + FileBytes(f)
  {
    FilesAppend(fs, [f]);
    assert FilesBytes([f]) == FileBytes(f) + FilesBytes([f][1..]);
  }

  lemma {:induction false} StreamAppendOne(cs: seq<Command>, c: Command)
    ensures StreamBytes(cs + [c]) == StreamBytes(cs) + CommandBytes(c)
  {
    hide CommandBytes;
    if cs == [] {
      assert StreamBytes([c]) == CommandBytes(c) + StreamBytes([c][1..]);
    } else {
      assert (cs + [c])[1..] == cs[1..] + [c];
      StreamAppendOne(cs[1..], c);
    }
  }

  /** The header as its lines are joined: four lines, the length, the message. */
  function HeaderLines(branch: string, mark: nat, m: Metadata): seq<string> {
    ["commit refs/heads/" + branch,
     "mark :" + Decimal(mark),
     "author " + m.authorName + " <" + m.authorEmail + "> " + Decimal(m.authorTimestamp) + " +0000",
     "committer " + m.authorName + " <" + m.authorEmail + "> " + Decimal(m.authorTimestamp) + " +0000",
     "data " + Decimal(|FormatMessage(m)|)]
  }

  lemma IdentText(key: string, id: Ident)
    ensures key + id.name + " <" + id.email + "> " + Decimal(id.time) + " +0000" == key + IdentBytes(id)
  {
  }

  lemma FiveLines(a: string, b: string, c: string, d: string, e: string)
    ensures JoinLines([a, b, c, d, e]) == a + "\n" + (b + "\n" + (c + "\n" + (d + "\n" + e)))
  {
    JoinMore(d, [e]);
    JoinMore(c, [d, e]);
    JoinMore(b, [c, d, e]);
    JoinMore(a, [b, c, d, e]);
    assert [d] + [e] == [d, e] && [c] + [d, e] == [c, d, e] && [b] + [c, d, e] == [b, c, d, e];
    assert [a] + [b, c, d, e] == [a, b, c, d, e];
  }

  lemma HeaderText(branch: string, number: string, author: string, length: string, message: string)
    ensures ("commit refs/heads/" + branch) + "\n" + (("mark :" + number) + "\n" + (("author " + author) + "\n"
            + (("committer " + author) + "\n" + ("data " + length)))) + "\n" + (message + "\n")
         == "commit refs/heads/" + (branch + ("\n" + ("mark :" + (number + ("\n" + ("author " + (author + ("\n"
            + ("committer " + (author + ("\n" + ("data " + (length + ("\n" + (message + "\n")))))))))))))))
  {
  }

  lemma HeaderIsJoined(branch: string, mark: nat, m: Metadata)
    ensures JoinLines(HeaderLines(branch, mark, m)) + "\n" + (FormatMessage(m) + "\n") == OpeningBytes(branch, mark, m)
  {
    var author, length := IdentBytes(IdentOf(m)), Decimal(|FormatMessage(m)|);
    IdentText("author ", IdentOf(m));
    IdentText("committer ", IdentOf(m));
    FiveLines("commit refs/heads/" + branch, "mark :" + Decimal(mark), "author " + author, "committer " + author,
              "data " + length);
    HeaderText(branch, Decimal(mark), author, length, FormatMessage(m));
  }

  function MergesOf(fromMark: Option<nat>, fromRef: Option<string>): seq<Merge> {
    if fromMark.Some? && fromMark.value > 0 then [FromMark(fromMark.value)]
    else if fromRef.Some? && fromRef.value != "" then [FromRef(fromRef.value)]
    else []
  }

  function MergeCommitBytes(branch: string, mark: nat, m: Metadata, fromMark: Option<nat>, fromRef: Option<string>,
                            files: seq<FileItem>, deletes: seq<string>): string {
    CommandBytes(CommitOf(branch, mark, m, MergesOf(fromMark, fromRef), Writes(files) + Deletes(deletes)))
  }

  // ---------- The importer ----------

  class FastImporter {
    var running: bool
    var mark: nat
    var out: string

    constructor ()
      ensures !running && mark == 0 && out == ""
    {
      running, mark, out := false, 0, "";
    }

    method Start()
      modifies this
      ensures running && out == "" && mark == old(mark)
    {
      running, out := true, "";
    }

    /** The process is gone: nothing more can be written. */
    method Finish()
      modifies this
      ensures !running && out == old(out) && mark == old(mark)
    {
      running := false;
    }

    method Write(data: string) returns (ok: bool)
      modifies this`out
      ensures ok == running
      ensures out == old(out) + if ok then data else ""
    {
      ok := running;
      if ok { out := out + data; }
    }

    /** Open a commit. The mark is used up even when the process is gone. */
    method BeginCommit(branch: string, m: Metadata) returns (ok: bool)
      modifies this
      ensures ok == running == old(running) && mark == old(mark) + 1
      ensures out == old(out) + if ok then OpeningBytes(branch, mark, m) else ""
    {
      mark := mark + 1;
      var lines := HeaderLines(branch, mark, m);
      HeaderIsJoined(branch, mark, m);
      ok := Write(JoinLines(lines) + "\n");
      if ok { ok := Write(FormatMessage(m) + "\n"); }
    }

    method WriteFile(path: string, content: string, mode: nat) returns (ok: bool)
      modifies this`out
      ensures ok == running
      ensures out == old(out) + if ok then FileBytes(Modify(mode, path, content)) else ""
    {
      ok := Write("M " + (Digits(mode, Eight) + (" inline " + (path + "\n"))));
      if !ok { return; }
      ok := Write("data " + (Decimal(|content|) + "\n"));
      if !ok { return; }
      ok := Write(content + "\n");
      FileWritten(old(out), mode, path, content);
    }

    method WriteDelete(path: string) returns (ok: bool)
      modifies this`out
      ensures ok == running
      ensures out == old(out) + if ok then FileBytes(Delete(path)) else ""
    {
      ok := Write("D " + (path + "\n"));
    }

    method EndCommit() returns (ok: bool)
      modifies this`out
      ensures ok == running
      ensures out == old(out) + if ok then "\n" else ""
    {
      ok := Write("\n");
    }

    method AddCheckpoint() returns (ok: bool)
      modifies this`out
      ensures ok == running
      ensures out == old(out) + if ok then CommandBytes(Checkpoint) else ""
    {
      ok := Write("checkpoint\n\n");
    }

    method WriteFiles(items: seq<FileItem>) returns (ok: bool)
      modifies this`out
      ensures ok == (running || items == [])
      ensures out == old(out) + if ok then FilesBytes(Writes(items)) else ""
    {
      ok := true;
      var i := 0;
      while i < |items|
        invariant 0 <= i <= |items| && ok == (running || i == 0)
        invariant out == old(out) + FilesBytes(Writes(items)[..i])
      {
        var f := Unpack(items[i]);
        ok := WriteFile(f.path, f.content, f.mode);
        if !ok { return; }
        FileAdded(old(out), Writes(items), i);
        i := i + 1;
      }
      assert Writes(items)[..i] == Writes(items);
    }

    method WriteDeletes(paths: seq<string>) returns (ok: bool)
      modifies this`out
      ensures ok == (running || paths == [])
      ensures out == old(out) + if ok then FilesBytes(Deletes(paths)) else ""
    {
      ok := true;
      var i := 0;
      while i < |paths|
        invariant 0 <= i <= |paths| && ok == (running || i == 0)
        invariant out == old(out) + FilesBytes(Deletes(paths)[..i])
      {
        ok := WriteDelete(paths[i]);
        if !ok { return; }
        FileAdded(old(out), Deletes(paths), i);
        i := i + 1;
      }
      assert Deletes(paths)[..i] == Deletes(paths);
    }

    /** A commit in one call: files before deletes. */
    method AddCommit(branch: string, m: Metadata, files: seq<FileItem>, deletes: seq<string>) returns (ok: bool)
      modifies this
      ensures ok == running == old(running) && mark == old(mark) + 1
      ensures ok ==> out == old(out) + CommandBytes(CommitOf(branch, mark, m, [], Writes(files) + Deletes(deletes)))
      ensures !ok ==> out == old(out)
    {
      ok := AddMergeCommit(branch, None, None, m, files, deletes);
    }

    /** A merge commit in one call; a mark wins over a ref. */
    method AddMergeCommit(branch: string, fromMark: Option<nat>, fromRef: Option<string>, m: Metadata,
                          files: seq<FileItem>, deletes: seq<string>) returns (ok: bool)
      modifies this
      ensures ok == running == old(running) && mark == old(mark) + 1
      ensures ok ==> out == old(out) + MergeCommitBytes(branch, mark, m, fromMark, fromRef, files, deletes)
      ensures !ok ==> out == old(out)
    {
      ok := BeginCommit(branch, m);
      if !ok { return; }
      ok := WriteBody(MergesOf(fromMark, fromRef), files, deletes);
      CommitWritten(old(out), branch, mark, m, MergesOf(fromMark, fromRef), Writes(files) + Deletes(deletes));
    }

    method WriteBody(merges: seq<Merge>, files: seq<FileItem>, deletes: seq<string>) returns (ok: bool)
      requires running && |merges| <= 1
      modifies this`out
      ensures ok && out == old(out) + BodyBytes(merges, Writes(files) + Deletes(deletes))
    {
      WriteMerges(merges);
      ok := WriteFiles(files);
      ok := WriteDeletes(deletes);
      ok := Write("\n");
      BodyWritten(old(out), merges, Writes(files), Deletes(deletes));
    }

    method WriteMerges(merges: seq<Merge>)
      requires running && |merges| <= 1
      modifies this`out
      ensures out == old(out) + MergesBytes(merges)
    {
      OneMerge(merges);
      if merges != [] { var ok := Write(MergeBytes(merges[0])); }
    }
  }

  lemma OneMerge(ms: seq<Merge>)
    requires |ms| <= 1
    ensures MergesBytes(ms) == if ms == [] then "" else MergeBytes(ms[0])
  {
    if ms != [] { assert ms[1..] == []; }
  }

  lemma FileText(before: string, octal: string, path: string, length: string, content: string)
    ensures before + ("M " + (octal + (" inline " + (path + "\n")))) + ("data " + (length + "\n")) + (content + "\n")
         == before + ("M " + (octal + (" inline " + (path + ("\n" + ("data " + (length
            + ("\n" + (content + "\n")))))))))
  {
  }

  lemma FileWritten(before: string, mode: nat, path: string, content: string)
    ensures before + ("M " + (Digits(mode, Eight) + (" inline " + (path + "\n"))))
            + ("data " + (Decimal(|content|) + "\n")) + (content + "\n")
         == before + FileBytes(Modify(mode, path, content))
  {
    FileText(before, Digits(mode, Eight), path, Decimal(|content|), content);
  }

  lemma FileAdded(before: string, fs: seq<FileCommand>, i: nat)
    requires i < |fs|
    ensures before + FilesBytes(fs[..i]) + FileBytes(fs[i]) == before + FilesBytes(fs[..i + 1])
  {
    FilesAppendOne(fs[..i], fs[i]);
    assert fs[..i + 1] == fs[..i] + [fs[i]];
    Associates(before, FilesBytes(fs[..i]), FileBytes(fs[i]));
  }

  lemma Associates(a: string, b: string, c: string)
    ensures a + b + c == a + (b + c)
  {
  }

  lemma BodyText(before: string, merges: string, files: string, deletes: string)
    ensures before + merges + files + deletes + "\n" == before + (merges + ((files + deletes) + "\n"))
  {
  }

  lemma BodyWritten(before: string, merges: seq<Merge>, files: seq<FileCommand>, deletes: seq<FileCommand>)
    ensures before + MergesBytes(merges) + FilesBytes(files) + FilesBytes(deletes) + "\n"
         == before + BodyBytes(merges, files + deletes)
  {
    FilesAppend(files, deletes);
    BodyText(before, MergesBytes(merges), FilesBytes(files), FilesBytes(deletes));
  }

  lemma CommitWritten(before: string, branch: string, mark: nat, m: Metadata, merges: seq<Merge>,
                      files: seq<FileCommand>)
    ensures before + OpeningBytes(branch, mark, m) + BodyBytes(merges, files)
         == before + CommandBytes(CommitOf(branch, mark, m, merges, files))
  {
    Associates(before, OpeningBytes(branch, mark, m), BodyBytes(merges, files));
  }
}
