/** Reading the stream gives back exactly the commands that were written. */
module FastImportRoundTrip {
  import opened Options
  import opened Text
  import opened FastImport

  // ---------- What can be written so that it can be read ----------

  predicate PlainIdent(id: Ident) {
    Bare(id.name) && Bare(id.email) && Free(id.name, '\n') && Free(id.email, '\n')
  }

  predicate PlainMerge(m: Merge) {
    m.FromRef? ==> m.ref != "" && m.ref[0] != ':' && Free(m.ref, '\n')
  }

  predicate PlainCommand(c: Command) {
    c.Commit? ==>
      && Free(c.branch, '\n') && PlainIdent(c.author) && PlainIdent(c.committer)
      && (forall m | m in c.merges :: PlainMerge(m))
      && (forall f | f in c.files :: PlainPath(f.path))
  }

  // ---------- Pieces ----------

  lemma DigitsFree(s: string, base: Base, c: char)
    requires AllDigits(s, base) && !IsDigit(c, base)
    ensures Free(s, c)
  {
  }

  lemma KeyedRead(key: string, text: string, rest: string)
    requires Free(key, '\n') && Free(text, '\n')
    ensures ReadKeyed(key, key + (text + ("\n" + rest))) == Some((text, rest))
  {
    SplitFirstOf(key + text, '\n', rest);
    assert key + (text + ("\n" + rest)) == (key + text) + ("\n" + rest);
    DropOf(key, text);
  }

  lemma DataRead(content: string, rest: string)
    ensures ReadData(DataBytes(content) + rest) == Some((content, rest))
  {
    var n := Decimal(|content|);
    var after := content + ("\n" + rest);
    DigitsFree(n, Ten, '\n');
    KeyedRead("data ", n, after);
    assert DataBytes(content) + rest == "data " + (n + ("\n" + after));
    ReadDecimal(|content|);
    assert after[..|content|] == content && after[|content|..] == "\n" + rest;
  }

  lemma StampRead(time: nat)
    ensures ReadStamp(" " + (Decimal(time) + " +0000")) == Some(time)
  {
    var n := Decimal(time);
    DropOf(" ", n + " +0000");
    DigitsFree(n, Ten, ' ');
    SplitFirstOf(n, ' ', "+0000");
    assert n + " +0000" == n + (" " + "+0000");
    ReadDecimal(time);
  }

  lemma IdentRead(id: Ident)
    requires PlainIdent(id)
    ensures ReadIdent(IdentBytes(id)) == Some(id)
  {
    hide ReadStamp, Decimal, SplitFirst;
    var tail := " " + (Decimal(id.time) + " +0000");
    var named := id.name + " ";
    SplitFirstOf(named, '<', id.email + (">" + tail));
    assert IdentBytes(id) == named + ("<" + (id.email + (">" + tail)));
    SplitFirstOf(id.email, '>', tail);
    StampRead(id.time);
    assert named[..|named| - 1] == id.name;
  }

  lemma IdentFree(id: Ident)
    requires PlainIdent(id)
    ensures Free(IdentBytes(id), '\n')
  {
    DigitsFree(Decimal(id.time), Ten, '\n');
  }

  lemma MergeRead(m: Merge, rest: string)
    requires PlainMerge(m)
    ensures ReadMerge(MergeBytes(m) + rest) == Some((m, rest))
  {
    match m
    case FromMark(mark) =>
      var n := Decimal(mark);
      DigitsFree(n, Ten, '\n');
      KeyedRead("merge ", ":" + n, rest);
      assert MergeBytes(m) + rest == "merge " + ((":" + n) + ("\n" + rest));
      assert (":" + n)[1..] == n;
      ReadDecimal(mark);
    case FromRef(ref) =>
      KeyedRead("merge ", ref, rest);
      assert MergeBytes(m) + rest == "merge " + (ref + ("\n" + rest));
  }

  lemma ModifyLineRead(mode: nat, path: string)
    requires PlainPath(path)
    ensures ReadModifyLine(Digits(mode, Eight) + (" inline " + path)) == Some((mode, path))
  {
    hide SplitFirst, Digits, NumberOf;
    var octal := Digits(mode, Eight);
    DigitsFree(octal, Eight, ' ');
    SplitFirstOf(octal, ' ', "inline " + path);
    assert octal + (" inline " + path) == octal + (" " + ("inline " + path));
    NumberOfDigits(mode, Eight);
    DropOf("inline ", path);
  }

  lemma ModifyRead(f: FileCommand, rest: string)
    requires f.Modify? && PlainPath(f.path)
    ensures ReadModify(FileBytes(f) + rest) == Some((f, rest))
  {
    hide ReadModifyLine, ReadData, DataBytes, ReadKeyed, Digits;
    var text := Digits(f.mode, Eight) + (" inline " + f.path);
    DigitsFree(Digits(f.mode, Eight), Eight, '\n');
    KeyedRead("M ", text, DataBytes(f.content) + rest);
    assert FileBytes(f) + rest == "M " + (text + ("\n" + (DataBytes(f.content) + rest)));
    ModifyLineRead(f.mode, f.path);
    DataRead(f.content, rest);
  }

  lemma DeleteRead(f: FileCommand, rest: string)
    requires f.Delete? && PlainPath(f.path)
    ensures ReadDelete(FileBytes(f) + rest) == Some((f, rest))
  {
    KeyedRead("D ", f.path, rest);
    assert FileBytes(f) + rest == "D " + (f.path + ("\n" + rest));
  }

  // ---------- Lists ----------

  predicate StartsNoMerge(s: string) { s != "" && s[0] != 'm' }

  predicate StartsNoFile(s: string) { s != "" && s[0] == '\n' }

  lemma MergeStart(m: Merge, rest: string)
    ensures "merge " <= MergeBytes(m) + rest
  {
    if m.FromMark? { assert "merge :" + (Decimal(m.mark) + "\n") == "merge " + (":" + (Decimal(m.mark) + "\n")); }
  }

  lemma FileStart(f: FileCommand, rest: string)
    ensures "M " <= FileBytes(f) + rest <==> f.Modify?
    ensures "D " <= FileBytes(f) + rest <==> f.Delete?
  {
    var s := FileBytes(f) + rest;
    if f.Modify? { assert s[0] == 'M' && s[1] == ' '; } else { assert s[0] == 'D' && s[1] == ' '; }
  }

  lemma {:induction false} MergesRead(ms: seq<Merge>, rest: string)
    requires (forall m | m in ms :: PlainMerge(m)) && StartsNoMerge(rest)
    ensures ReadMerges(MergesBytes(ms) + rest) == Some((ms, rest))
  {
    hide MergeBytes, ReadMerge;
    if ms == [] {
      assert MergesBytes(ms) + rest == rest;
    } else {
      var more := MergesBytes(ms[1..]) + rest;
      assert MergesBytes(ms) + rest == MergeBytes(ms[0]) + more;
      MergeRead(ms[0], more);
      MergeStart(ms[0], more);
      MergesRead(ms[1..], rest);
      assert ms == [ms[0]] + ms[1..];
    }
  }

  lemma {:induction false} FilesRead(fs: seq<FileCommand>, rest: string)
    requires (forall f | f in fs :: PlainPath(f.path)) && StartsNoFile(rest)
    ensures ReadFiles(FilesBytes(fs) + rest) == Some((fs, rest))
  {
    hide FileBytes, ReadModify, ReadDelete;
    if fs == [] {
      assert FilesBytes(fs) + rest == rest;
    } else {
      var more := FilesBytes(fs[1..]) + rest;
      assert FilesBytes(fs) + rest == FileBytes(fs[0]) + more;
      FilesRead(fs[1..], rest);
      FileStart(fs[0], more);
      if fs[0].Modify? { ModifyRead(fs[0], more); } else { DeleteRead(fs[0], more); }
      assert fs == [fs[0]] + fs[1..];
    }
  }

  lemma FilesStart(fs: seq<FileCommand>, rest: string)
    requires StartsNoFile(rest)
    ensures StartsNoMerge(FilesBytes(fs) + rest)
  {
    if fs != [] { assert FileBytes(fs[0])[0] in {'M', 'D'}; }
  }

  // ---------- Commits and whole streams ----------

  lemma SignatureRead(author: Ident, committer: Ident, message: string, rest: string)
    requires PlainIdent(author) && PlainIdent(committer)
    ensures ReadSignature(SignatureBytes(author, committer, message) + rest)
         == Some((author, committer, message, rest))
  {
    var s2 := DataBytes(message) + rest;
    var s1 := "committer " + (IdentBytes(committer) + ("\n" + s2));
    assert SignatureBytes(author, committer, message) + rest == "author " + (IdentBytes(author) + ("\n" + s1));
    IdentFree(author);
    KeyedRead("author ", IdentBytes(author), s1);
    IdentRead(author);
    IdentFree(committer);
    KeyedRead("committer ", IdentBytes(committer), s2);
    IdentRead(committer);
    DataRead(message, rest);
  }

  lemma OpeningRead(branch: string, mark: nat, rest: string)
    requires Free(branch, '\n')
    ensures ReadOpening("commit refs/heads/" + (branch + ("\n" + ("mark :" + (Decimal(mark) + ("\n" + rest))))))
         == Some((branch, mark, rest))
  {
    KeyedRead("commit refs/heads/", branch, "mark :" + (Decimal(mark) + ("\n" + rest)));
    DigitsFree(Decimal(mark), Ten, '\n');
    KeyedRead("mark :", Decimal(mark), rest);
    ReadDecimal(mark);
  }

  lemma BodyRead(merges: seq<Merge>, files: seq<FileCommand>, rest: string)
    requires (forall m | m in merges :: PlainMerge(m)) && (forall f | f in files :: PlainPath(f.path))
    ensures ReadBody(BodyBytes(merges, files) + rest) == Some((merges, files, rest))
  {
    hide MergesBytes, FilesBytes, ReadMerges, ReadFiles;
    var tail := FilesBytes(files) + ("\n" + rest);
    assert BodyBytes(merges, files) + rest == MergesBytes(merges) + tail;
    FilesStart(files, "\n" + rest);
    MergesRead(merges, tail);
    FilesRead(files, "\n" + rest);
  }

  lemma CommandSplit(c: Command, rest: string)
    requires c.Commit?
    ensures CommandBytes(c) + rest ==
      "commit refs/heads/" + (c.branch + ("\n" + ("mark :" + (Decimal(c.mark) + ("\n" +
      (SignatureBytes(c.author, c.committer, c.message) + (BodyBytes(c.merges, c.files) + rest)))))))
  {
  }

  lemma CommandRead(c: Command, rest: string)
    requires c.Commit? && PlainCommand(c)
    ensures ReadCommit(CommandBytes(c) + rest) == Some((c, rest))
  {
    var body := BodyBytes(c.merges, c.files) + rest;
    CommandSplit(c, rest);
    OpeningRead(c.branch, c.mark, SignatureBytes(c.author, c.committer, c.message) + body);
    SignatureRead(c.author, c.committer, c.message, body);
    BodyRead(c.merges, c.files, rest);
  }

  /** The reader recovers every commit, mark, message, merge, file and delete, whatever the contents. */
  lemma {:induction false} StreamRead(cs: seq<Command>)
    requires forall c | c in cs :: PlainCommand(c)
    ensures ReadStream(StreamBytes(cs)) == Some(cs)
  {
    if cs != [] {
      StreamRead(cs[1..]);
      assert cs == [cs[0]] + cs[1..];
      OneMoreRead(cs[0], cs[1..]);
    }
  }

  lemma OneMoreRead(c: Command, cs: seq<Command>)
    requires PlainCommand(c) && ReadStream(StreamBytes(cs)) == Some(cs)
    ensures ReadStream(CommandBytes(c) + StreamBytes(cs)) == Some([c] + cs)
  {
    if c.Commit? { CommitStepRead(c, StreamBytes(cs)); } else { CheckpointStepRead(StreamBytes(cs)); }
    assert (CommandBytes(c) + StreamBytes(cs))[0] == 'c';
  }

  lemma CommitStepRead(c: Command, rest: string)
    requires c.Commit? && PlainCommand(c)
    ensures ReadCommand(CommandBytes(c) + rest) == Some((c, rest))
  {
    CommandRead(c, rest);
  }

  lemma CheckpointStepRead(rest: string)
    ensures ReadCommand(CommandBytes(Checkpoint) + rest) == Some((Checkpoint, rest))
  {
    var s := CommandBytes(Checkpoint) + rest;
    assert s == "checkpoint" + ("\n" + ("\n" + rest));
    SplitFirstOf("checkpoint", '\n', "\n" + rest);
    assert !("commit refs/heads/" <= "checkpoint");
    assert ReadOpening(s).None?;
  }
}
