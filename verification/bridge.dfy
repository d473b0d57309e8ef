/** The two-way bridge between one Perforce stream and one Git branch: users change both sides, the
    bridge carries changes across, and nothing it carries ever comes back. */
module Bridge {
  import opened Options
  import opened Text
  import opened CommitMetadata
  import opened StateStores
  import opened BulkImport

  /** from tells who made it, which the bridge itself cannot see: Some means the bridge. */
  datatype Changelist = Changelist(cl: CL, description: string, files: seq<FileAction>, from: Option<Sha>)
  datatype GitCommit = GitCommit(sha: Sha, message: string, paths: set<string>, from: Option<CL>)

  datatype World = World(p4: seq<Changelist>, git: seq<GitCommit>, tables: Tables)

  datatype Side = Side(stream: Stream, branch: string)

  /** What becomes of carrying a changelist: it fails, or Git makes a commit; clean-up may fail after. */
  datatype Build = Unbuilt | Built(sha: Sha, author: string, email: string, time: nat,
                                   integration: Option<Integration>, cleansUp: bool)

  /** What becomes of submitting a commit: a user's script may describe it in other words, Perforce
      numbers it and may end its description with a line feed; remembering the commit as the last one
      processed may still be lost. */
  datatype Submission = Rejected | Accepted(cl: CL, mapped: Option<string>, added: string, remembered: bool)

  // ---------- What the bridge looks at ----------

  predicate FromGit(description: string) { ParseGitCommit(description).Some? }

  /** Git's log hands messages over stripped. */
  predicate FromP4(message: string) { ParseP4Cl(Strip(message)).Some? }

  ghost predicate IsNew(t: Tables, g: GitCommit) { !FromP4(g.message) && !KnownSha(t, g.sha) }

  function Writes(side: Side, c: Changelist): seq<FileRef> { WrittenFiles(c.files, side.stream, |side.stream| + 1) }

  function Deletes(side: Side, c: Changelist): seq<string> { DeletedPaths(c.files, side.stream, |side.stream| + 1) }

  function PathsOf(side: Side, c: Changelist): set<string> {
    var writes, deletes := Writes(side, c), Deletes(side, c);
    (set f | f in writes :: f.gitPath) + set p | p in deletes
  }

  predicate IsEmpty(side: Side, c: Changelist) { Writes(side, c) == [] && Deletes(side, c) == [] }

  // ---------- The bridge's two steps ----------

  function CommitFrom(side: Side, c: Changelist, b: Build): GitCommit
    requires b.Built?
  {
    GitCommit(b.sha, FormatMessage(Metadata(b.author, b.email, b.time, c.description, c.cl, b.integration)),
              PathsOf(side, c), Some(c.cl))
  }

  function Advanced(side: Side, t: Tables, cl: CL, sha: Sha): Tables {
    t.(synced := t.synced[side.stream := Synced(cl, sha)])
  }

  /** Carry one changelist: skip what came from Git, skip what touches nothing, commit the rest. */
  function Forwarded(side: Side, w: World, c: Changelist, b: Build): World {
    if b.Unbuilt? then w
    else if FromGit(c.description) || IsEmpty(side, c) then w.(tables := Advanced(side, w.tables, c.cl, ""))
    else
      var t := Recorded(w.tables, c.cl, side.stream, Row(b.sha, side.branch, P4ToGit));
      w.(git := w.git + [CommitFrom(side, c, b)], tables := Advanced(side, t, c.cl, b.sha))
  }

  /** The commit's message as Git's log hands it over, unless the user's script gives another. */
  function Described(g: GitCommit, mapped: Option<string>): string {
    if mapped.Some? then mapped.value else Strip(g.message)
  }

  function ChangelistFrom(g: GitCommit, s: Submission, files: seq<FileAction>): Changelist
    requires s.Accepted?
  {
    Changelist(s.cl, FormatDescription(Described(g, s.mapped), g.sha) + s.added, files, Some(g.sha))
  }

  /** Carry one commit: submit it and record its number. */
  function Reversed(side: Side, w: World, g: GitCommit, s: Submission, files: seq<FileAction>): World {
    if s.Rejected? then w
    else
      var t := Recorded(w.tables, s.cl, side.stream, Row(g.sha, side.branch, GitToP4));
      var t' := if s.remembered then t.(reverse := t.reverse[side.branch := g.sha]) else t;
      w.(p4 := w.p4 + [ChangelistFrom(g, s, files)], tables := t')
  }

  // ---------- What is carried, in terms of what it was made from ----------

  /** Some action on a file of this name below the stream writes or deletes it. */
  ghost predicate Touches(side: Side, c: Changelist, path: string) {
    exists fa :: fa in c.files && (WritesTo(fa, side.stream, path) || DeletesAt(fa, side.stream, path))
  }

  lemma TouchedExactly(side: Side, c: Changelist, path: string)
    ensures path in PathsOf(side, c) <==> Touches(side, c, path)
  {
    hide WrittenFiles, DeletedPaths, WritesTo, DeletesAt;
    DeletedExactly(c.files, side.stream, path);
    if path in PathsOf(side, c) && path !in Deletes(side, c) {
      var f :| f in Writes(side, c) && f.gitPath == path;
      WrittenExactly(c.files, side.stream, f);
    }
    forall fa | fa in c.files && WritesTo(fa, side.stream, path) ensures path in PathsOf(side, c) {
      WrittenExactly(c.files, side.stream, FileRef(fa.depotPath, path, fa.mode));
      assert FileRef(fa.depotPath, path, fa.mode) in Writes(side, c);
    }
  }

  lemma EmptyExactly(side: Side, c: Changelist)
    ensures IsEmpty(side, c) <==> forall path: string :: !Touches(side, c, path)
  {
    hide WrittenFiles, DeletedPaths, Touches;
    forall path: string ensures path in PathsOf(side, c) <==> Touches(side, c, path) { TouchedExactly(side, c, path); }
    if Writes(side, c) != [] { assert Writes(side, c)[0] in Writes(side, c); }
    if Deletes(side, c) != [] { assert Deletes(side, c)[0] in Deletes(side, c); }
    if Writes(side, c) != [] { assert Writes(side, c)[0].gitPath in PathsOf(side, c); }
    if Deletes(side, c) != [] { assert Deletes(side, c)[0] in PathsOf(side, c); }
  }

  /** The commit says what the changelist says, then its number, which is read back exactly when the
      description holds no marker of another; and it touches the changelist's files. */
  ghost predicate StandsFor(side: Side, g: GitCommit, c: Changelist) {
    && c.description + "\n\nP4CL: " + Decimal(c.cl) <= g.message && g.from == Some(c.cl)
    && (ParseP4Cl(g.message) == Some(c.cl) <==>
          ParseP4Cl(c.description).None? || ParseP4Cl(c.description) == Some(c.cl))
    && forall path: string :: path in g.paths <==> Touches(side, c, path)
  }

  lemma CommitStandsFor(side: Side, c: Changelist, b: Build)
    requires b.Built?
    ensures StandsFor(side, CommitFrom(side, c, b), c) && CommitFrom(side, c, b).sha == b.sha
  {
    hide Touches, ParseP4Cl, PathsOf, FormatMessage;
    var m := Metadata(b.author, b.email, b.time, c.description, c.cl, b.integration);
    PrintedNumberReadBack(m);
    MessageStarts(m);
    forall path: string ensures path in PathsOf(side, c) <==> Touches(side, c, path) { TouchedExactly(side, c, path); }
  }

  /** The changelist says what the commit says, or what the user's script made of it, then names the
      commit, which is read back exactly when that text holds no marker of another. */
  ghost predicate SubmittedAs(c: Changelist, g: GitCommit, mapped: Option<string>) {
    var text := if mapped.Some? then mapped.value else Strip(g.message);
    && text + "\n\nGitCommit: " + g.sha <= c.description && c.from == Some(g.sha)
    && (ParseGitCommit(c.description) == Some(g.sha) <==>
          ParseGitCommit(text).None? || ParseGitCommit(text) == Some(g.sha))
  }

  lemma SubmittedNames(g: GitCommit, s: Submission, files: seq<FileAction>)
    requires s.Accepted? && Token(g.sha, Hex) && ClosesLine(s.added)
    ensures SubmittedAs(ChangelistFrom(g, s, files), g, s.mapped)
  {
    hide ParseGitCommit, Strip, Token, ClosesLine;
    DescriptionReadBack(Described(g, s.mapped), g.sha, s.added);
  }

  // ---------- Steps of a run ----------

  datatype Step =
    | UserSubmits(c: Changelist)
    | UserCommits(g: GitCommit)
    | Forward(c: Changelist, b: Build)
    | Reverse(g: GitCommit, s: Submission, files: seq<FileAction>)

  ghost predicate NewNumber(w: World, cl: CL) { cl > 0 && forall c | c in w.p4 :: c.cl < cl }

  ghost predicate NewSha(w: World, sha: Sha) { Token(sha, Hex) && forall g | g in w.git :: g.sha != sha }

  /** The changelist comes next: nothing smaller waits. */
  ghost predicate ComesNext(side: Side, w: World, c: Changelist) {
    && c in w.p4 && c.cl > LastSynced(w.tables, side.stream)
    && forall d | d in w.p4 && d.cl > LastSynced(w.tables, side.stream) :: c.cl <= d.cl
  }

  ghost predicate Possible(side: Side, w: World, step: Step) {
    match step
    case UserSubmits(c) => c.from.None? && NewNumber(w, c.cl)
    case UserCommits(g) => g.from.None? && NewSha(w, g.sha)
    case Forward(c, b) => ComesNext(side, w, c) && (b.Built? ==> NewSha(w, b.sha))
    case Reverse(g, s, _) =>
      g in w.git && IsNew(w.tables, g) && (s.Accepted? ==> NewNumber(w, s.cl) && ClosesLine(s.added))
  }

  function After(side: Side, w: World, step: Step): World {
    match step
    case UserSubmits(c) => w.(p4 := w.p4 + [c])
    case UserCommits(g) => w.(git := w.git + [g])
    case Forward(c, b) => Forwarded(side, w, c, b)
    case Reverse(g, s, files) => Reversed(side, w, g, s, files)
  }

  ghost function Run(side: Side, steps: seq<Step>): Option<World> {
    if steps == [] then Some(World([], [], Tables(map[], map[], map[], map[], map[])))
    else
      var w :- Run(side, steps[..|steps| - 1]);
      if Possible(side, w, steps[|steps| - 1]) then Some(After(side, w, steps[|steps| - 1])) else None
  }

  // ---------- No echo ----------

  ghost predicate InOrder(w: World) {
    && (forall i, k | 0 <= i < k < |w.p4| :: w.p4[i].cl < w.p4[k].cl)
    && (forall i, k | 0 <= i < k < |w.git| :: w.git[i].sha != w.git[k].sha)
    && (forall c | c in w.p4 :: c.cl > 0) && (forall g | g in w.git :: Token(g.sha, Hex))
  }

  /** No two changelists come from one commit, and no two commits from one changelist. */
  ghost predicate CrossedOnce(w: World) {
    && (forall i, k | 0 <= i < k < |w.p4| :: w.p4[i].from == w.p4[k].from ==> w.p4[i].from.None?)
    && (forall i, k | 0 <= i < k < |w.git| :: w.git[i].from == w.git[k].from ==> w.git[i].from.None?)
  }

  /** The changelist of a user that this commit was made from. */
  ghost predicate MadeFromUser(side: Side, w: World, cl: CL) {
    exists c :: c in w.p4 && c.cl == cl && c.from.None? && !FromGit(c.description) && !IsEmpty(side, c)
  }

  ghost predicate CommittedByUser(w: World, sha: Sha) { exists g :: g in w.git && g.sha == sha && g.from.None? }

  /** What the bridge submitted is marked, recorded, and came from a user. */
  ghost predicate SubmittedWell(side: Side, w: World, c: Changelist) {
    c.from.Some? ==>
      && FromGit(c.description) && CommittedByUser(w, c.from.value)
      && (c.cl, side.stream) in w.tables.commits && w.tables.commits[(c.cl, side.stream)].sha == c.from.value
  }

  ghost predicate CommittedWell(side: Side, w: World, g: GitCommit) {
    g.from.Some? ==>
      FromP4(g.message) && MadeFromUser(side, w, g.from.value) && g.from.value <= LastSynced(w.tables, side.stream)
  }

  ghost predicate Carried(w: World, cl: CL) { exists g :: g in w.git && g.from == Some(cl) }

  /** Of what has been passed, every user's changelist with files of ours and no marker has its commit. */
  ghost predicate NothingLost(side: Side, w: World) {
    forall c | c in w.p4 && c.cl <= LastSynced(w.tables, side.stream) && c.from.None? && !FromGit(c.description)
               && !IsEmpty(side, c) :: Carried(w, c.cl)
  }

  /** Rows stand for changelists of this stream that were carried in either direction. */
  ghost predicate RowsBelong(side: Side, w: World) {
    forall cl: CL, s: Stream | (cl, s) in w.tables.commits :: s == side.stream && Passed(side, w, cl)
  }

  ghost predicate Passed(side: Side, w: World, cl: CL) {
    exists c :: c in w.p4 && c.cl == cl && (c.from.Some? || cl <= LastSynced(w.tables, side.stream))
  }

  ghost predicate Bridged(side: Side, w: World) {
    && InOrder(w) && CrossedOnce(w) && NothingLost(side, w) && RowsBelong(side, w)
    && (forall c | c in w.p4 :: SubmittedWell(side, w, c))
    && (forall g | g in w.git :: CommittedWell(side, w, g))
    && (LastSynced(w.tables, side.stream) == 0 || exists c :: c in w.p4 && c.cl == LastSynced(w.tables, side.stream))
  }

  lemma MoreCommits(w: World, w': World, cl: CL)
    requires w.git <= w'.git && Carried(w, cl)
    ensures Carried(w', cl)
  {
    var g :| g in w.git && g.from == Some(cl);
    assert g in w'.git;
  }

  lemma MoreChangelists(side: Side, w: World, w': World, g: GitCommit)
    requires w.p4 <= w'.p4 && CommittedWell(side, w, g)
    requires LastSynced(w.tables, side.stream) <= LastSynced(w'.tables, side.stream)
    ensures CommittedWell(side, w', g)
  {
    if g.from.Some? {
      var c :| c in w.p4 && c.cl == g.from.value && c.from.None? && !FromGit(c.description) && !IsEmpty(side, c);
      assert c in w'.p4;
    }
  }

  lemma StillSubmittedWell(side: Side, w: World, w': World, c: Changelist)
    requires w.git <= w'.git && SubmittedWell(side, w, c)
    requires c.from.Some? && (c.cl, side.stream) in w.tables.commits ==>
               (c.cl, side.stream) in w'.tables.commits
               && w'.tables.commits[(c.cl, side.stream)].sha == w.tables.commits[(c.cl, side.stream)].sha
    ensures SubmittedWell(side, w', c)
  {
    if c.from.Some? {
      var g :| g in w.git && g.sha == c.from.value && g.from.None?;
      assert g in w'.git;
    }
  }

  /** Rows of the bridge's own changelists survive. */
  ghost predicate RowsKept(side: Side, w: World, t: Tables) {
    forall c | c in w.p4 && c.from.Some? && (c.cl, side.stream) in w.tables.commits ::
      && (c.cl, side.stream) in t.commits
      && t.commits[(c.cl, side.stream)].sha == w.tables.commits[(c.cl, side.stream)].sha
  }

  lemma AllStillSubmittedWell(side: Side, w: World, w': World)
    requires (forall c | c in w.p4 :: SubmittedWell(side, w, c)) && w.git <= w'.git && RowsKept(side, w, w'.tables)
    ensures forall c | c in w.p4 :: SubmittedWell(side, w', c)
  {
    forall c | c in w.p4 ensures SubmittedWell(side, w', c) { StillSubmittedWell(side, w, w', c); }
  }

  lemma ChangelistInOrder(w: World, w': World, c: Changelist)
    requires InOrder(w) && CrossedOnce(w) && NewNumber(w, c.cl)
    requires w'.p4 == w.p4 + [c] && w'.git == w.git
    requires c.from.Some? ==> forall d | d in w.p4 :: d.from != c.from
    ensures InOrder(w') && CrossedOnce(w')
  {
  }

  /** A changelist added by a user or by the bridge. */
  lemma ChangelistAdded(side: Side, w: World, c: Changelist, w': World)
    requires Bridged(side, w) && NewNumber(w, c.cl) && w'.p4 == w.p4 + [c] && w'.git == w.git
    requires LastSynced(w'.tables, side.stream) == LastSynced(w.tables, side.stream) && RowsKept(side, w, w'.tables)
    requires SubmittedWell(side, w', c) && (c.from.Some? ==> forall d | d in w.p4 :: d.from != c.from)
    requires RowsBelong(side, w')
    ensures Bridged(side, w')
  {
    hide SubmittedWell, CommittedWell, FromGit, IsEmpty, RowsKept, InOrder, CrossedOnce, Carried, RowsBelong;
    ChangelistInOrder(w, w', c);
    AllStillSubmittedWell(side, w, w');
    forall g | g in w'.git ensures CommittedWell(side, w', g) { MoreChangelists(side, w, w', g); }
    forall d | d in w.p4 && Carried(w, d.cl) ensures Carried(w', d.cl) { MoreCommits(w, w', d.cl); }
    assert forall d | d in w'.p4 :: d in w.p4 || d == c;
    if LastSynced(w.tables, side.stream) > 0 {
      var d :| d in w.p4 && d.cl == LastSynced(w.tables, side.stream);
      assert d in w'.p4;
    }
  }

  lemma CommitInOrder(w: World, w': World, g: GitCommit)
    requires InOrder(w) && CrossedOnce(w) && NewSha(w, g.sha)
    requires w'.git == w.git + [g] && w'.p4 == w.p4
    requires g.from.Some? ==> forall h | h in w.git :: h.from != g.from
    ensures InOrder(w') && CrossedOnce(w')
  {
  }

  /** A commit added by a user or by the bridge. */
  lemma CommitAdded(side: Side, w: World, g: GitCommit, w': World)
    requires Bridged(side, w) && NewSha(w, g.sha) && w'.git == w.git + [g] && w'.p4 == w.p4
    requires LastSynced(w.tables, side.stream) <= LastSynced(w'.tables, side.stream) && RowsKept(side, w, w'.tables)
    requires LastSynced(w'.tables, side.stream)
        == 0 || exists c :: c in w.p4 && c.cl == LastSynced(w'.tables, side.stream)
    requires CommittedWell(side, w', g) && (g.from.Some? ==> forall h | h in w.git :: h.from != g.from)
    requires NothingLost(side, w') && RowsBelong(side, w')
    ensures Bridged(side, w')
  {
    hide SubmittedWell, CommittedWell, FromGit, IsEmpty, RowsKept, InOrder, CrossedOnce, NothingLost, RowsBelong;
    CommitInOrder(w, w', g);
    AllStillSubmittedWell(side, w, w');
    forall h | h in w'.git ensures CommittedWell(side, w', h) {
      if h in w.git { MoreChangelists(side, w, w', h); }
    }
  }

  /** Rows still belong when changelists are only added and the mark only moves up; a row may be added for a
      passed one. */
  lemma RowsStillBelong(side: Side, w: World, w': World)
    requires RowsBelong(side, w) && w.p4 <= w'.p4
    requires LastSynced(w.tables, side.stream) <= LastSynced(w'.tables, side.stream)
    requires forall cl: CL, s: Stream | (cl, s) in w'.tables.commits ::
               (cl, s) in w.tables.commits || (s == side.stream && Passed(side, w', cl))
    ensures RowsBelong(side, w')
  {
    forall cl: CL, s: Stream | (cl, s) in w'.tables.commits ensures s == side.stream && Passed(side, w', cl) {
      if (cl, s) in w.tables.commits {
        var c :| c in w.p4 && c.cl == cl && (c.from.Some? || cl <= LastSynced(w.tables, side.stream));
        assert c in w'.p4;
      }
    }
  }

  lemma UserSubmitsKeeps(side: Side, w: World, c: Changelist)
    requires Bridged(side, w) && Possible(side, w, UserSubmits(c))
    ensures Bridged(side, After(side, w, UserSubmits(c)))
  {
    hide InOrder, CrossedOnce, NothingLost, SubmittedWell, CommittedWell, RowsBelong;
    RowsStillBelong(side, w, After(side, w, UserSubmits(c)));
    MadeByUser(side, After(side, w, UserSubmits(c)), c);
    ChangelistAdded(side, w, c, After(side, w, UserSubmits(c)));
  }

  lemma MadeByUser(side: Side, w: World, c: Changelist)
    requires c.from.None?
    ensures SubmittedWell(side, w, c)
  {
  }

  lemma UserCommitsKeeps(side: Side, w: World, g: GitCommit)
    requires Bridged(side, w) && Possible(side, w, UserCommits(g))
    ensures Bridged(side, After(side, w, UserCommits(g)))
  {
    hide FromGit, IsEmpty, InOrder, CrossedOnce, SubmittedWell;
    var w' := After(side, w, UserCommits(g));
    forall d | d in w.p4 && Carried(w, d.cl) ensures Carried(w', d.cl) { MoreCommits(w, w', d.cl); }
    RowsStillBelong(side, w, w');
    CommitAdded(side, w, g, w');
  }

  // ---------- Carrying a changelist ----------

  lemma SameNumber(w: World, c: Changelist, d: Changelist)
    requires InOrder(w) && c in w.p4 && d in w.p4 && c.cl == d.cl
    ensures c == d
  {
  }

  /** All that passes when a changelist is passed is that changelist. */
  lemma OnlyThisPasses(side: Side, w: World, c: Changelist, d: Changelist)
    requires InOrder(w) && ComesNext(side, w, c) && d in w.p4 && d.cl <= c.cl
    ensures d == c || d.cl <= LastSynced(w.tables, side.stream)
  {
    if d.cl > LastSynced(w.tables, side.stream) { SameNumber(w, c, d); }
  }

  lemma SkippedKeeps(side: Side, w: World, c: Changelist)
    requires Bridged(side, w) && ComesNext(side, w, c) && (FromGit(c.description) || IsEmpty(side, c))
    ensures Bridged(side, w.(tables := Advanced(side, w.tables, c.cl, "")))
  {
    hide SubmittedWell, FromGit, IsEmpty, CommittedWell, InOrder, Carried, RowsBelong;
    var w' := w.(tables := Advanced(side, w.tables, c.cl, ""));
    RowsStillBelong(side, w, w');
    AllStillSubmittedWell(side, w, w');
    forall g | g in w'.git ensures CommittedWell(side, w', g) { MoreChangelists(side, w, w', g); }
    assert InOrder(w') by { SameOrder(w, w'); }
    forall d | d in w'.p4 && d.cl <= c.cl && d.from.None? && !FromGit(d.description) && !IsEmpty(side, d)
      ensures Carried(w', d.cl)
    {
      OnlyThisPasses(side, w, c, d);
      MoreCommits(w, w', d.cl);
    }
  }

  lemma SameOrder(w: World, w': World)
    requires InOrder(w) && w' == w.(tables := w'.tables)
    ensures InOrder(w')
  {
  }

  lemma CarriedKeeps(side: Side, w: World, c: Changelist, b: Build)
    requires Bridged(side, w) && ComesNext(side, w, c) && b.Built? && NewSha(w, b.sha)
    requires !FromGit(c.description) && !IsEmpty(side, c)
    ensures Bridged(side, Forwarded(side, w, c, b))
  {
    var w', g := Forwarded(side, w, c, b), CommitFrom(side, c, b);
    PrintedMessageRecognised(Metadata(b.author, b.email, b.time, c.description, c.cl, b.integration));
    hide FromGit, IsEmpty, FromP4, InOrder, NewSha, CommitFrom, RowsBelong;
    assert SubmittedWell(side, w, c) && c.from.None?;
    assert Passed(side, w', c.cl);
    RowsStillBelong(side, w, w');
    assert RowsKept(side, w, w'.tables) by { OtherRowsKept(side, w, c, Row(b.sha, side.branch, P4ToGit)); }
    assert MadeFromUser(side, w', c.cl);
    assert g in w'.git && g.from == Some(c.cl) && Carried(w', c.cl);
    forall h | h in w.git ensures h.from != g.from { assert CommittedWell(side, w, h); }
    forall d | d in w'.p4 && d.cl <= c.cl && d.from.None? && !FromGit(d.description) && !IsEmpty(side, d)
      ensures Carried(w', d.cl)
    {
      OnlyThisPasses(side, w, c, d);
      if d != c { MoreCommits(w, w', d.cl); }
    }
    CommitAdded(side, w, g, w');
  }

  lemma OtherRowsKept(side: Side, w: World, c: Changelist, row: Row)
    requires InOrder(w) && c in w.p4 && c.from.None?
    ensures RowsKept(side, w, Recorded(w.tables, c.cl, side.stream, row))
  {
    forall d | d in w.p4 && d.from.Some? ensures d.cl != c.cl {
      if d.cl == c.cl { SameNumber(w, c, d); }
    }
  }

  lemma ForwardKeeps(side: Side, w: World, c: Changelist, b: Build)
    requires Bridged(side, w) && Possible(side, w, Forward(c, b))
    ensures Bridged(side, Forwarded(side, w, c, b))
  {
    hide Bridged, FromGit, IsEmpty, ComesNext, NewSha;
    if b.Built? {
      if FromGit(c.description) || IsEmpty(side, c) { SkippedKeeps(side, w, c); } else { CarriedKeeps(side, w, c, b); }
    }
  }

  // ---------- Carrying a commit ----------

  lemma SubmittedIsKnown(side: Side, w: World, d: Changelist)
    requires SubmittedWell(side, w, d) && d.from.Some?
    ensures KnownSha(w.tables, d.from.value)
  {
    hide FromGit;
    assert (d.cl, side.stream) in w.tables.commits;
  }

  lemma NotSubmittedBefore(side: Side, w: World, g: GitCommit, d: Changelist)
    requires Bridged(side, w) && IsNew(w.tables, g) && d in w.p4
    ensures d.from != Some(g.sha)
  {
    hide FromGit, FromP4, InOrder, CrossedOnce, NothingLost, CommittedWell;
    if d.from.Some? { SubmittedIsKnown(side, w, d); }
  }

  /** What submitting changes: one more changelist and its row. */
  lemma ReversedAdds(side: Side, w: World, g: GitCommit, s: Submission, files: seq<FileAction>)
    requires s.Accepted? && NewNumber(w, s.cl)
    ensures var w', c := Reversed(side, w, g, s, files), ChangelistFrom(g, s, files);
            && w'.p4 == w.p4 + [c] && w'.git == w.git && c.cl == s.cl && w'.tables.synced == w.tables.synced
            && w'.tables.commits.Keys == w.tables.commits.Keys + {(s.cl, side.stream)}
            && w'.tables.commits[(s.cl, side.stream)].sha == g.sha && RowsKept(side, w, w'.tables)
  {
  }

  lemma ReverseKeeps(side: Side, w: World, g: GitCommit, s: Submission, files: seq<FileAction>)
    requires Bridged(side, w) && Possible(side, w, Reverse(g, s, files))
    ensures Bridged(side, Reversed(side, w, g, s, files))
  {
    if s.Accepted? {
      var w', c := Reversed(side, w, g, s, files), ChangelistFrom(g, s, files);
      ReversedAdds(side, w, g, s, files);
      NewFromUser(side, w, g);
      MarkedFromGit(g, s, files);
      hide Reversed, ChangelistFrom, FromGit, FromP4, InOrder, CrossedOnce, NothingLost, CommittedWell;
      hide RowsBelong, RowsKept, IsEmpty;
      assert c in w'.p4 && Passed(side, w', c.cl);
      RowsStillBelong(side, w, w');
      forall d | d in w.p4 ensures d.from != c.from { NotSubmittedBefore(side, w, g, d); }
      ChangelistAdded(side, w, c, w');
    }
  }

  /** A commit that is new to the bridge was made by a user. */
  lemma NewFromUser(side: Side, w: World, g: GitCommit)
    requires Bridged(side, w) && g in w.git && IsNew(w.tables, g)
    ensures g.from.None? && Token(g.sha, Hex) && CommittedByUser(w, g.sha)
  {
    hide FromP4, CrossedOnce, NothingLost, RowsBelong, SubmittedWell, KnownSha;
    assert CommittedWell(side, w, g);
  }

  lemma MarkedFromGit(g: GitCommit, s: Submission, files: seq<FileAction>)
    requires Token(g.sha, Hex) && s.Accepted? && ClosesLine(s.added)
    ensures var c := ChangelistFrom(g, s, files); FromGit(c.description) && c.cl == s.cl && c.from == Some(g.sha)
  {
    hide ParseGitCommit;
    PrintedDescriptionRecognised(Described(g, s.mapped), g.sha, s.added);
  }

  // ---------- Every run ----------

  lemma {:induction false} EveryRunBridged(side: Side, steps: seq<Step>)
    requires Run(side, steps).Some?
    ensures Bridged(side, Run(side, steps).value)
  {
    hide Bridged, Forwarded, Reversed;
    if steps == [] {
      NothingYet(side);
    } else {
      var w, step := Run(side, steps[..|steps| - 1]).value, steps[|steps| - 1];
      EveryRunBridged(side, steps[..|steps| - 1]);
      match step
      case UserSubmits(c) => UserSubmitsKeeps(side, w, c);
      case UserCommits(g) => UserCommitsKeeps(side, w, g);
      case Forward(c, b) => ForwardKeeps(side, w, c, b);
      case Reverse(g, s, files) => ReverseKeeps(side, w, g, s, files);
    }
  }

  lemma NothingYet(side: Side)
    ensures Bridged(side, World([], [], Tables(map[], map[], map[], map[], map[])))
  {
  }

  /** Nothing echoes, in any run: no changelist makes two commits and no commit two changelists, and
      what the bridge made on one side is never carried back to the other. */
  lemma {:induction false} NoEcho(side: Side, steps: seq<Step>)
    requires Run(side, steps).Some?
    ensures var w := Run(side, steps).value;
            && CrossedOnce(w)
            && (forall g | g in w.git && g.from.Some? :: exists c :: c in w.p4 && c.cl == g.from.value && c.from.None?)
            && (forall c | c in w.p4 && c.from.Some? :: exists g :: g in w.git && g.sha == c.from.value && g.from.None?)
  {
    hide FromGit, FromP4, InOrder, NothingLost, IsEmpty, Run;
    EveryRunBridged(side, steps);
    var w := Run(side, steps).value;
    forall g | g in w.git && g.from.Some? ensures exists c :: c in w.p4 && c.cl == g.from.value && c.from.None? {
      assert CommittedWell(side, w, g);
    }
    forall c | c in w.p4 && c.from.Some? ensures exists g :: g in w.git && g.sha == c.from.value && g.from.None? {
      assert SubmittedWell(side, w, c);
    }
  }

  /** A changelist that has been passed has a commit exactly when a user made it, its description
      carries no marker, and it touches files of the stream. */
  lemma {:induction false} PassedExactly(side: Side, steps: seq<Step>, c: Changelist)
    requires Run(side, steps).Some? && c in Run(side, steps).value.p4
    requires c.cl <= LastSynced(Run(side, steps).value.tables, side.stream)
    ensures Carried(Run(side, steps).value, c.cl) <==>
      c.from.None? && ParseGitCommit(c.description).None? && exists path: string :: Touches(side, c, path)
  {
    EmptyExactly(side, c);
    assert FromGit(c.description) <==> ParseGitCommit(c.description).Some?;
    hide FromGit, FromP4, IsEmpty, Run, Touches, ParseGitCommit;
    EveryRunBridged(side, steps);
    var w := Run(side, steps).value;
    if Carried(w, c.cl) {
      var g :| g in w.git && g.from == Some(c.cl);
      assert CommittedWell(side, w, g);
      var d :| d in w.p4 && d.cl == c.cl && d.from.None? && !FromGit(d.description) && !IsEmpty(side, d);
      SameNumber(w, c, d);
    }
  }
}
