/** The byte stream fed to git fast-import, and a reader of that format. */
module FastImport {
  import opened Options
  import opened Text

  datatype Ident = Ident(name: string, email: string, time: nat)

  datatype Merge = FromMark(mark: nat) | FromRef(ref: string)

  datatype FileCommand =
    | Modify(mode: nat, path: string, content: string)
    | Delete(path: string)

  datatype Command =
    | Commit(branch: string, mark: nat, author: Ident, committer: Ident, message: string,
             merges: seq<Merge>, files: seq<FileCommand>)
    | Checkpoint

  // ---------- Writing ----------

  function DataBytes(content: string): string {
    "data " + (Decimal(|content|) + ("\n" + (content + "\n")))
  }

  function IdentBytes(id: Ident): string {
    id.name + (" <" + (id.email + ("> " + (Decimal(id.time) + " +0000"))))
  }

  function MergeBytes(m: Merge): string {
    match m
    case FromMark(mark) => "merge :" + (Decimal(mark) + "\n")
    case FromRef(ref) => "merge " + (ref + "\n")
  }

  function FileBytes(f: FileCommand): string {
    match f
    case Modify(mode, path, content) =>
      "M " + (Digits(mode, Eight) + (" inline " + (path + ("\n" + DataBytes(content)))))
    case Delete(path) => "D " + (path + "\n")
  }

  function MergesBytes(ms: seq<Merge>): string {
    if ms == [] then "" else MergeBytes(ms[0]) + MergesBytes(ms[1..])
  }

  function FilesBytes(fs: seq<FileCommand>): string {
    if fs == [] then "" else FileBytes(fs[0]) + FilesBytes(fs[1..])
  }

  function SignatureBytes(author: Ident, committer: Ident, message: string): string {
    "author " + (IdentBytes(author) + ("\n" + (
    "committer " + (IdentBytes(committer) + ("\n" +
    DataBytes(message))))))
  }

  /** The lines that open a commit, up to and including its message. */
  function HeaderBytes(branch: string, mark: nat, author: Ident, committer: Ident, message: string): string {
    "commit refs/heads/" + (branch + ("\n" + (
    "mark :" + (Decimal(mark) + ("\n" +
    SignatureBytes(author, committer, message))))))
  }

  function BodyBytes(merges: seq<Merge>, files: seq<FileCommand>): string {
    MergesBytes(merges) + (FilesBytes(files) + "\n")
  }

  function CommandBytes(c: Command): string {
    match c
    case Commit(branch, mark, author, committer, message, merges, files) =>
      HeaderBytes(branch, mark, author, committer, message) + BodyBytes(merges, files)
    case Checkpoint => "checkpoint\n\n"
  }

  function StreamBytes(cs: seq<Command>): string {
    if cs == [] then "" else CommandBytes(cs[0]) + StreamBytes(cs[1..])
  }

  // ---------- Reading ----------

  function ReadLine(s: string): (r: Option<(string, string)>)
    ensures r.Some? ==> |r.value.1| < |s|
  {
    SplitFirst(s, '\n')
  }

  /** Skip one line feed if there is one. */
  function SkipLf(s: string): (r: string)
    ensures |r| <= |s|
  {
    if s != "" && s[0] == '\n' then s[1..] else s
  }

  function ReadData(s: string): (r: Option<(string, string)>)
    ensures r.Some? ==> |r.value.1| < |s|
  {
    var (digits, rest) :- ReadKeyed("data ", s);
    var n :- ReadNumber(digits, Ten);
    if n <= |rest| then Some((rest[..n], SkipLf(rest[n..]))) else None
  }

  predicate Bare(s: string) { Free(s, '<') && Free(s, '>') }

  function ReadStamp(s: string): Option<nat> {
    var stamp :- Drop(" ", s);
    var (digits, zone) :- SplitFirst(stamp, ' ');
    if zone == "+0000" then ReadNumber(digits, Ten) else None
  }

  function ReadIdent(s: string): Option<Ident> {
    var (named, more) :- SplitFirst(s, '<');
    var (email, tail) :- SplitFirst(more, '>');
    var time :- ReadStamp(tail);
    if named != "" && named[|named| - 1] == ' ' && Bare(named) && Bare(email)
    then Some(Ident(named[..|named| - 1], email, time)) else None
  }

  /** The rest of a line that starts with a key, and what follows the line. */
  function ReadKeyed(key: string, s: string): (r: Option<(string, string)>)
    ensures r.Some? ==> |r.value.1| < |s|
  {
    var (line, rest) :- ReadLine(s);
    var text :- Drop(key, line);
    Some((text, rest))
  }

  function ReadSignature(s: string): (r: Option<(Ident, Ident, string, string)>)
    ensures r.Some? ==> |r.value.3| < |s|
  {
    var (line1, s1) :- ReadKeyed("author ", s);
    var author :- ReadIdent(line1);
    var (line2, s2) :- ReadKeyed("committer ", s1);
    var committer :- ReadIdent(line2);
    var (message, end) :- ReadData(s2);
    Some((author, committer, message, end))
  }

  function ReadMerge(s: string): (r: Option<(Merge, string)>)
    ensures r.Some? ==> |r.value.1| < |s|
  {
    var (from, rest) :- ReadKeyed("merge ", s);
    if from != "" && from[0] == ':' then
      var mark :- ReadNumber(from[1..], Ten);
      Some((FromMark(mark), rest))
    else if from != "" then Some((FromRef(from), rest))
    else None
  }

  function ReadMerges(s: string): (r: Option<(seq<Merge>, string)>)
    ensures r.Some? ==> |r.value.1| <= |s|
    decreases |s|
  {
    if "merge " <= s then
      var (m, rest) :- ReadMerge(s);
      var (ms, end) :- ReadMerges(rest);
      Some(([m] + ms, end))
    else Some(([], s))
  }

  /** A path is read up to the end of its line; quoted paths are not part of this reader. */
  predicate PlainPath(path: string) { path != "" && path[0] != '"' && Free(path, '\n') }

  function ReadModifyLine(text: string): Option<(nat, string)> {
    var (digits, more) :- SplitFirst(text, ' ');
    var mode :- ReadNumber(digits, Eight);
    var path :- Drop("inline ", more);
    if PlainPath(path) then Some((mode, path)) else None
  }

  function ReadModify(s: string): (r: Option<(FileCommand, string)>)
    ensures r.Some? ==> |r.value.1| < |s|
  {
    var (text, rest) :- ReadKeyed("M ", s);
    var (mode, path) :- ReadModifyLine(text);
    var (content, end) :- ReadData(rest);
    Some((Modify(mode, path, content), end))
  }

  function ReadDelete(s: string): (r: Option<(FileCommand, string)>)
    ensures r.Some? ==> |r.value.1| < |s|
  {
    var (path, rest) :- ReadKeyed("D ", s);
    if PlainPath(path) then Some((Delete(path), rest)) else None
  }

  function ReadFiles(s: string): (r: Option<(seq<FileCommand>, string)>)
    ensures r.Some? ==> |r.value.1| <= |s|
    decreases |s|
  {
    if "M " <= s || "D " <= s then
      var (f, rest) :- if "M " <= s then ReadModify(s) else ReadDelete(s);
      var (fs, end) :- ReadFiles(rest);
      Some(([f] + fs, end))
    else Some(([], s))
  }

  function ReadBody(s: string): (r: Option<(seq<Merge>, seq<FileCommand>, string)>)
    ensures r.Some? ==> |r.value.2| <= |s|
  {
    var (merges, s1) :- ReadMerges(s);
    var (files, s2) :- ReadFiles(s1);
    Some((merges, files, SkipLf(s2)))
  }

  function ReadOpening(s: string): (r: Option<(string, nat, string)>)
    ensures r.Some? ==> |r.value.2| < |s|
  {
    var (branch, s1) :- ReadKeyed("commit refs/heads/", s);
    var (digits, s2) :- ReadKeyed("mark :", s1);
    var mark :- ReadNumber(digits, Ten);
    Some((branch, mark, s2))
  }

  function ReadCommit(s: string): (r: Option<(Command, string)>)
    ensures r.Some? ==> |r.value.1| < |s|
  {
    var (branch, mark, s1) :- ReadOpening(s);
    var (author, committer, message, s2) :- ReadSignature(s1);
    var (merges, files, s3) :- ReadBody(s2);
    Some((Commit(branch, mark, author, committer, message, merges, files), s3))
  }

  function ReadCommand(s: string): (r: Option<(Command, string)>)
    ensures r.Some? ==> |r.value.1| < |s|
  {
    var commit := ReadCommit(s);
    if commit.Some? then commit
    else
      var (line, rest) :- ReadLine(s);
      if line == "checkpoint" then Some((Checkpoint, SkipLf(rest))) else None
  }

  function ReadStream(s: string): Option<seq<Command>>
    decreases |s|
  {
    if s == "" then Some([])
    else
      var (c, rest) :- ReadCommand(s);
      var cs :- ReadStream(rest);
      Some([c] + cs)
  }
}
