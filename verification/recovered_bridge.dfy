/** The two-way bridge after its database has been rebuilt from the Git log: what was carried to Git
    is known again, what was carried to Perforce is not. */
module RecoveredBridge {
  import opened Options
  import opened CommitMetadata
  import opened StateStores
  import opened BulkImport
  import opened Bridge
  import opened Recovery

  // ---------- The log of a run ----------

  ghost predicate IsPrinted(g: GitCommit, m: Metadata) {
    g.from == Some(m.p4Changelist) && g.message == FormatMessage(m)
  }

  /** The bridge's commits carry a printed message, and their changelists ascend. */
  ghost predicate WellLogged(git: seq<GitCommit>) {
    && (forall g | g in git && g.from.Some? :: exists m :: IsPrinted(g, m))
    && (forall i, k | 0 <= i < k < |git| && git[i].from.Some? && git[k].from.Some? ::
          git[i].from.value < git[k].from.value)
  }

  lemma CommitIsPrinted(side: Side, c: Changelist, b: Build)
    requires b.Built?
    ensures exists m :: IsPrinted(CommitFrom(side, c, b), m)
  {
    assert IsPrinted(CommitFrom(side, c, b), Metadata(b.author, b.email, b.time, c.description, c.cl, b.integration));
  }

  lemma LoggedFurther(git: seq<GitCommit>, g: GitCommit)
    requires WellLogged(git) && (g.from.Some? ==> exists m :: IsPrinted(g, m))
    requires g.from.Some? ==> forall h | h in git && h.from.Some? :: h.from.value < g.from.value
    ensures WellLogged(git + [g])
  {
  }

  lemma ForwardLogged(side: Side, w: World, c: Changelist, b: Build)
    requires Bridged(side, w) && WellLogged(w.git) && ComesNext(side, w, c)
    ensures WellLogged(Forwarded(side, w, c, b).git)
  {
    hide WellLogged, FromGit, FromP4, IsEmpty, InOrder, CrossedOnce, NothingLost, RowsBelong, SubmittedWell;
    if b.Built? && !FromGit(c.description) && !IsEmpty(side, c) {
      CommitIsPrinted(side, c, b);
      forall h | h in w.git && h.from.Some? ensures h.from.value < c.cl { assert CommittedWell(side, w, h); }
      LoggedFurther(w.git, CommitFrom(side, c, b));
    }
  }

  lemma {:induction false} EveryRunLogged(side: Side, steps: seq<Step>)
    requires Bridge.Run(side, steps).Some?
    ensures WellLogged(Bridge.Run(side, steps).value.git)
  {
    hide Bridged, WellLogged, Forwarded, Reversed, IsPrinted, NewSha, NewNumber, IsNew;
    if steps == [] {
      NothingLogged();
    } else {
      var w, step := Bridge.Run(side, steps[..|steps| - 1]).value, steps[|steps| - 1];
      EveryRunLogged(side, steps[..|steps| - 1]);
      EveryRunBridged(side, steps[..|steps| - 1]);
      match step
      case UserSubmits(_) =>
      case UserCommits(g) => LoggedFurther(w.git, g);
      case Forward(c, b) => ForwardLogged(side, w, c, b);
      case Reverse(g, s, files) => ReverseLogged(side, w, g, s, files);
    }
  }

  lemma NothingLogged()
    ensures WellLogged([])
  {
  }

  lemma ReverseLogged(side: Side, w: World, g: GitCommit, s: Submission, files: seq<FileAction>)
    ensures Reversed(side, w, g, s, files).git == w.git
  {
  }

  /** The commit as the log shows it. */
  ghost function EntryOf(g: GitCommit): Entry {
    if exists m :: IsPrinted(g, m) then
      var m :| IsPrinted(g, m);
      FromChangelist(g.sha, m)
    else FromUser(g.sha, g.message)
  }

  ghost function LogOf(git: seq<GitCommit>): (log: seq<Entry>)
    ensures |log| == |git|
  {
    seq(|git|, i requires 0 <= i < |git| => EntryOf(git[i]))
  }

  lemma LogOfAt(git: seq<GitCommit>, i: nat)
    requires WellLogged(git) && i < |git|
    ensures var e := LogOf(git)[i];
      && e.sha == git[i].sha && Message(e) == git[i].message && (e.FromChangelist? <==> git[i].from.Some?)
      && (e.FromChangelist? ==> git[i].from == Some(e.meta.p4Changelist))
  {
    hide FormatMessage;
    assert git[i] in git;
  }

  lemma LogAscends(git: seq<GitCommit>)
    requires WellLogged(git)
    ensures Ascending(LogOf(git))
  {
    hide LogOf;
    forall i | 0 <= i < |git| { LogOfAt(git, i); }
  }

  lemma MadeInLog(git: seq<GitCommit>, cl: CL)
    requires WellLogged(git)
    ensures Makes(LogOf(git), cl) <==> exists g :: g in git && g.from == Some(cl)
  {
    hide LogOf, WellLogged;
    forall i | 0 <= i < |git| { LogOfAt(git, i); }
    if Makes(LogOf(git), cl) {
      var e :| e in LogOf(git) && e.FromChangelist? && e.meta.p4Changelist == cl;
      var i :| 0 <= i < |git| && LogOf(git)[i] == e;
      assert git[i] in git;
    }
    if g :| g in git && g.from == Some(cl) {
      var i :| 0 <= i < |git| && git[i] == g;
      assert LogOf(git)[i] in LogOf(git);
    }
  }

  // ---------- The rebuilt tables ----------

  /** The tables the rebuild makes of a branch. */
  ghost function RebuiltFrom(side: Side, git: seq<GitCommit>): Tables {
    Rebuilt(NO_TABLES, SplitAll(LogText(LogOf(git)), SEPARATOR), side.stream, side.branch)
  }

  /** The rows are those of the commits carried from Perforce, and the mark is at the last of them. */
  ghost predicate KnowsForwarded(side: Side, git: seq<GitCommit>, r: Tables) {
    && (forall g | g in git && g.from.Some? ::
          (g.from.value, side.stream) in r.commits && r.commits[(g.from.value, side.stream)].sha == g.sha)
    && (forall k | k in r.commits :: k.1 == side.stream && exists g :: g in git && g.from == Some(k.0))
    && (forall g | g in git && g.from.Some? :: g.from.value <= LastSynced(r, side.stream))
    && (LastSynced(r, side.stream) == 0 || exists g :: g in git && g.from == Some(LastSynced(r, side.stream)))
  }

  lemma RowsOfLog(side: Side, git: seq<GitCommit>, r: Tables, log: seq<Entry>)
    requires WellLogged(git) && log == LogOf(git) && MapsLog(NO_TABLES, r, log, side.stream)
    ensures forall g | g in git && g.from.Some? ::
      (g.from.value, side.stream) in r.commits && r.commits[(g.from.value, side.stream)].sha == g.sha
  {
    hide LogOf, WellLogged;
    forall g | g in git && g.from.Some?
      ensures (g.from.value, side.stream) in r.commits && r.commits[(g.from.value, side.stream)].sha == g.sha
    {
      var i :| 0 <= i < |git| && git[i] == g;
      LogOfAt(git, i);
      assert log[i] in log;
    }
  }

  lemma RebuiltKnows(side: Side, git: seq<GitCommit>)
    requires WellLogged(git) && Recoverable(LogOf(git))
    ensures KnowsForwarded(side, git, RebuiltFrom(side, git))
  {
    hide LogOf, WellLogged, Recoverable, Rebuilt, LogText, SplitAll, Makes;
    var r, log := RebuiltFrom(side, git), LogOf(git);
    LogAscends(git);
    RebuildRestores(log, side.stream, side.branch);
    RowsOfLog(side, git, r, log);
    forall cl: CL { MadeInLog(git, cl); }
    if exists e :: e in log && e.FromChangelist? {
      assert Makes(log, LastSynced(r, side.stream));
    }
  }

  // ---------- The bridge goes on ----------

  /** The mark has not moved past anything it should not have: it may only have moved back. */
  lemma MarkGoesBack(side: Side, w: World, r: Tables)
    requires Bridged(side, w) && KnowsForwarded(side, w.git, r)
    ensures LastSynced(r, side.stream) <= LastSynced(w.tables, side.stream)
  {
    hide FromGit, FromP4, IsEmpty, InOrder, CrossedOnce, NothingLost, RowsBelong, SubmittedWell;
    if LastSynced(r, side.stream) > 0 {
      var g :| g in w.git && g.from == Some(LastSynced(r, side.stream));
      assert CommittedWell(side, w, g);
    }
  }

  lemma StillMade(side: Side, w: World, r: Tables, g: GitCommit)
    requires Bridged(side, w) && KnowsForwarded(side, w.git, r) && g in w.git && g.from.Some?
    ensures CommittedWell(side, w.(tables := r), g) && Passed(side, w.(tables := r), g.from.value)
    ensures exists c :: c in w.p4 && c.cl == g.from.value && c.from.None?
  {
    hide FromGit, FromP4, IsEmpty, InOrder, CrossedOnce, NothingLost, RowsBelong, SubmittedWell;
    assert CommittedWell(side, w, g);
    var c :| c in w.p4 && c.cl == g.from.value && c.from.None? && !FromGit(c.description) && !IsEmpty(side, c);
  }

  /** A changelist that came from Git has no row any more. */
  lemma SubmittedIsForgotten(side: Side, w: World, r: Tables, c: Changelist)
    requires Bridged(side, w) && KnowsForwarded(side, w.git, r) && c in w.p4 && c.from.Some?
    ensures (c.cl, side.stream) !in r.commits
  {
    hide FromGit, FromP4, IsEmpty, CrossedOnce, NothingLost, RowsBelong, SubmittedWell, CommittedWell;
    if (c.cl, side.stream) in r.commits {
      var k := (c.cl, side.stream);
      var g :| g in w.git && g.from == Some(k.0);
      StillMade(side, w, r, g);
      var d :| d in w.p4 && d.cl == c.cl && d.from.None?;
      SameNumber(w, c, d);
    }
  }

  /** With the rebuilt tables all that the forward direction relies on holds again. */
  lemma ForwardRestored(side: Side, w: World, r: Tables)
    requires Bridged(side, w) && KnowsForwarded(side, w.git, r)
    ensures var w' := w.(tables := r);
      && InOrder(w') && CrossedOnce(w') && NothingLost(side, w') && RowsBelong(side, w')
      && (forall g | g in w'.git :: CommittedWell(side, w', g))
      && (LastSynced(r, side.stream) == 0 || exists c :: c in w.p4 && c.cl == LastSynced(r, side.stream))
  {
    hide FromGit, FromP4, IsEmpty, SubmittedWell, CommittedWell, Passed, Carried;
    var w' := w.(tables := r);
    MarkGoesBack(side, w, r);
    SameCarried(w, r);
    forall g | g in w'.git ensures CommittedWell(side, w', g) {
      if g.from.Some? { StillMade(side, w, r, g); } else { ByUser(side, w', g); }
    }
    forall cl: CL, s: Stream | (cl, s) in r.commits ensures s == side.stream && Passed(side, w', cl) {
      var k := (cl, s);
      assert k in r.commits;
      var g :| g in w.git && g.from == Some(k.0);
      StillMade(side, w, r, g);
    }
    if LastSynced(r, side.stream) > 0 {
      var g :| g in w.git && g.from == Some(LastSynced(r, side.stream));
      StillMade(side, w, r, g);
    }
  }

  lemma SameCarried(w: World, r: Tables)
    ensures forall cl :: Carried(w, cl) <==> Carried(w.(tables := r), cl)
  {
  }

  lemma ByUser(side: Side, w: World, g: GitCommit)
    requires g.from.None?
    ensures CommittedWell(side, w, g)
  {
  }

  /** After a rebuild the bridge keeps what it must exactly when nothing has ever been submitted to
      Perforce: rows of submitted commits cannot be read from the log. */
  lemma {:induction false} RecoveredExactly(side: Side, steps: seq<Step>, w: World)
    requires Bridge.Run(side, steps) == Some(w)
    requires Recoverable(LogOf(w.git))
    ensures Bridged(side, w.(tables := RebuiltFrom(side, w.git))) <==> forall c | c in w.p4 :: c.from.None?
  {
    hide Bridge.Run, FromGit, InOrder, CrossedOnce, NothingLost, RowsBelong;
    hide CommittedWell, RebuiltFrom, Recoverable, LogOf;
    hide KnowsForwarded, WellLogged;
    EveryRunLogged(side, steps);
    var r := RebuiltFrom(side, w.git);
    EveryRunBridged(side, steps);
    RebuiltKnows(side, w.git);
    ForwardRestored(side, w, r);
    forall c | c in w.p4 ensures SubmittedWell(side, w.(tables := r), c) <==> c.from.None? {
      if c.from.Some? { SubmittedIsForgotten(side, w, r, c); }
    }
  }

  /** The forward direction goes on where it was: what it passes a second time makes no commit. */
  lemma {:induction false} PassedAgain(side: Side, steps: seq<Step>, w: World, c: Changelist)
    requires Bridge.Run(side, steps) == Some(w)
    requires Recoverable(LogOf(w.git)) && c in w.p4
    requires LastSynced(RebuiltFrom(side, w.git), side.stream) < c.cl <= LastSynced(w.tables, side.stream)
    ensures FromGit(c.description) || IsEmpty(side, c)
  {
    hide Bridge.Run, FromGit, IsEmpty, InOrder, CrossedOnce, RowsBelong, CommittedWell, RebuiltFrom, Recoverable, LogOf;
    hide WellLogged;
    EveryRunLogged(side, steps);
    EveryRunBridged(side, steps);
    RebuiltKnows(side, w.git);
    assert SubmittedWell(side, w, c);
    CarriedIsKnown(side, w, RebuiltFrom(side, w.git), c.cl);
  }

  lemma CarriedIsKnown(side: Side, w: World, r: Tables, cl: CL)
    requires KnowsForwarded(side, w.git, r)
    ensures Carried(w, cl) ==> cl <= LastSynced(r, side.stream)
  {
  }

  /** The reverse direction starts over: every user's commit without a trailer is new again, also one
      that has been submitted and was known before. */
  lemma {:induction false} SubmittedAgain(side: Side, steps: seq<Step>, w: World, g: GitCommit)
    requires Bridge.Run(side, steps) == Some(w)
    requires Recoverable(LogOf(w.git)) && g in w.git && g.from.None?
    ensures IsNew(RebuiltFrom(side, w.git), g) <==> !FromP4(g.message)
    ensures (exists c :: c in w.p4 && c.from == Some(g.sha)) ==> !IsNew(w.tables, g)
  {
    hide Bridge.Run, FromGit, FromP4, CrossedOnce, NothingLost, RowsBelong;
    hide CommittedWell, SubmittedWell, RebuiltFrom, LogOf;
    hide Recoverable, WellLogged;
    EveryRunLogged(side, steps);
    var r := RebuiltFrom(side, w.git);
    EveryRunBridged(side, steps);
    RebuiltKnows(side, w.git);
    if c :| c in w.p4 && c.from == Some(g.sha) { SubmittedIsKnown(side, w, c); }
    forall k | k in r.commits ensures r.commits[k].sha != g.sha {
      var h :| h in w.git && h.from == Some(k.0);
      assert k == (h.from.value, side.stream);
    }
  }

  /** The smallest such run: a user's commit is submitted, the tables are rebuilt, and it is new again. */
  lemma ResubmittedExample(side: Side) returns (steps: seq<Step>, w: World, g: GitCommit)
    ensures Bridge.Run(side, steps) == Some(w) && g in w.git
    ensures (exists c :: c in w.p4 && c.from == Some(g.sha)) && !IsNew(w.tables, g)
    ensures IsNew(RebuiltFrom(side, w.git), g)
  {
    hide RebuiltFrom, LogOf, FormatDescription, FromP4;
    g := GitCommit("a", "", {"a"}, None);
    steps := [UserCommits(g), Reverse(g, Accepted(1, None, "", true), [])];
    w := SubmittedRun(side, g, steps);
    BlankRecoverable(g);
    SubmittedAgain(side, steps, w, g);
  }

  lemma BlankRecoverable(g: GitCommit)
    requires g == GitCommit("a", "", {"a"}, None)
    ensures Recoverable(LogOf([g])) && !FromP4(g.message) && Token(g.sha, Hex)
  {
    assert EntryOf(g) == FromUser("a", "");
    assert LogOf([g]) == [FromUser("a", "")];
    assert InClass('a', Hex);
    StripLineFeed();
    NothingInBlank();
    assert "" + "\n" == "\n";
  }

  lemma SubmittedRun(side: Side, g: GitCommit, steps: seq<Step>) returns (w: World)
    requires g == GitCommit("a", "", {"a"}, None)
    requires steps == [UserCommits(g), Reverse(g, Accepted(1, None, "", true), [])]
    ensures Bridge.Run(side, steps) == Some(w) && w.git == [g] && |w.p4| == 1 && w.p4[0].from == Some("a")
  {
    hide FormatDescription, FromP4;
    BlankRecoverable(g);
    var before, first := steps[..1], World([], [], NO_TABLES);
    assert before[..0] == [] && before == [UserCommits(g)];
    assert Bridge.Run(side, []) == Some(first);
    var committed := first.(git := [g]);
    assert Possible(side, first, before[0]) && first.git + [g] == [g];
    assert before[..|before| - 1] == [] && before[|before| - 1] == UserCommits(g);
    assert Bridge.Run(side, before) == Some(committed);
    assert !KnownSha(NO_TABLES, "a");
    assert Possible(side, committed, steps[1]);
    w := After(side, committed, steps[1]);
  }
}
