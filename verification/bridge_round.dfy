/** A whole round of the two-way bridge: check for conflicts, carry changelists, carry commits. */
module BridgeRound {
  import opened Options
  import opened Text
  import opened Paths
  import opened CommitMetadata
  import opened StateStores
  import opened BulkImport
  import opened Bridge
  import opened BridgeLoop
  import opened Conflicts

  // ---------- What each direction adds ----------

  ghost predicate ForwardedOne(side: Side, cs: seq<Changelist>, g: GitCommit) {
    exists c :: c in cs && !FromGit(c.description) && g.paths == PathsOf(side, c) && g.from == Some(c.cl)
  }

  ghost predicate OnlyForwarded(side: Side, w: World, w': World, cs: seq<Changelist>) {
    && w'.p4 == w.p4 && w.git <= w'.git && w'.tables.conflicts == w.tables.conflicts
    && (forall g | g in w'.git[|w.git|..] :: ForwardedOne(side, cs, g))
    && (forall sha | KnownSha(w.tables, sha) :: KnownSha(w'.tables, sha))
  }

  lemma RowsStay(side: Side, w: World, c: Changelist, row: Row, sha: Sha)
    requires Bridged(side, w) && ComesNext(side, w, c) && !FromGit(c.description) && KnownSha(w.tables, sha)
    ensures KnownSha(Recorded(w.tables, c.cl, side.stream, row), sha)
  {
    hide FromGit, FromP4, CommittedWell, NothingLost, CrossedOnce;
    var k :| k in w.tables.commits && w.tables.commits[k].sha == sha;
    assert (k.0, k.1) == k && Passed(side, w, k.0);
    var d :| d in w.p4 && d.cl == k.0 && (d.from.Some? || d.cl <= LastSynced(w.tables, side.stream));
    assert SubmittedWell(side, w, c);
    if d.cl == c.cl { SameNumber(w, c, d); }
    assert k in Recorded(w.tables, c.cl, side.stream, row).commits;
  }

  lemma OneForwarded(side: Side, w: World, cs: seq<Changelist>, c: Changelist, b: Build)
    requires Bridged(side, w) && ComesNext(side, w, c) && c in cs
    ensures OnlyForwarded(side, w, Forwarded(side, w, c, b), cs)
  {
    hide FromGit, Bridged, IsEmpty, ComesNext, PathsOf;
    var w' := Forwarded(side, w, c, b);
    if b.Built? && !FromGit(c.description) && !IsEmpty(side, c) {
      assert ForwardedOne(side, cs, CommitFrom(side, c, b));
      forall sha | KnownSha(w.tables, sha) ensures KnownSha(w'.tables, sha) {
        RowsStay(side, w, c, Row(b.sha, side.branch, P4ToGit), sha);
      }
    }
  }

  lemma ForwardedFurther(side: Side, a: World, b: World, c: World, cs: seq<Changelist>, rest: seq<Changelist>)
    requires OnlyForwarded(side, a, b, cs) && OnlyForwarded(side, b, c, rest) && (forall x | x in rest :: x in cs)
    ensures OnlyForwarded(side, a, c, cs)
  {
    assert c.git[|a.git|..] == b.git[|a.git|..] + c.git[|b.git|..];
    forall g | g in c.git[|b.git|..] ensures ForwardedOne(side, cs, g) { assert ForwardedOne(side, rest, g); }
  }

  /** The forward loop adds only commits of polled changelists that did not come from Git. */
  lemma {:induction false} ForwardedAllAdds(side: Side, w: World, cs: seq<Changelist>, luck: BuildLuck)
    requires Bridged(side, w) && Waits(side, w, cs) && FreshFor(w, cs, luck)
    ensures OnlyForwarded(side, w, ForwardedAll(side, w, cs, luck), cs)
    ensures Bridged(side, ForwardedAll(side, w, cs, luck))
    decreases |cs|
  {
    hide Bridged, OnlyForwarded, Forwarded, FreshFor, Waits, FromGit, NewSha, ComesNext;
    if cs == [] {
      NothingForwarded(side, w, cs);
    } else {
      var w' := Forwarded(side, w, cs[0], luck(cs[0]));
      BridgedInOrder(side, w);
      FirstComesNext(side, w, cs);
      OneForwarded(side, w, cs, cs[0], luck(cs[0]));
      NextIsFresh(w, cs, luck);
      ForwardKeeps(side, w, cs[0], luck(cs[0]));
      if !Stops(cs[0], luck(cs[0])) {
        RestWaits(side, w, cs, luck(cs[0]));
        RestFresh(side, w, cs, luck);
        ForwardedAllAdds(side, w', cs[1..], luck);
        ForwardedFurther(side, w, w', ForwardedAll(side, w', cs[1..], luck), cs, cs[1..]);
      }
    }
  }

  lemma NothingForwarded(side: Side, w: World, cs: seq<Changelist>)
    ensures OnlyForwarded(side, w, w, cs)
  {
  }

  ghost predicate SubmittedOne(gs: seq<GitCommit>, c: Changelist) { exists g :: g in gs && c.from == Some(g.sha) }

  /** The reverse loop adds only changelists of the detected commits. */
  lemma AnsweredAlone(side: Side, w: World, g: GitCommit, a: Answer)
    ensures Answered(side, w, g, a).tables.conflicts == w.tables.conflicts
  {
  }

  lemma {:induction false} ReversedAllAdds(side: Side, w: World, gs: seq<GitCommit>, luck: SubmitLuck)
    ensures var w' := ReversedAll(side, w, gs, luck);
            && w'.git == w.git && w.p4 <= w'.p4 && (forall c | c in w'.p4[|w.p4|..] :: SubmittedOne(gs, c))
            && w'.tables.conflicts == w.tables.conflicts
    decreases |gs|
  {
    hide FormatDescription, Described, Recorded, Highest;
    if gs != [] {
      AnsweredAlone(side, w, gs[0], luck(gs[0]));
      var w1 := Answered(side, w, gs[0], luck(gs[0]));
      var w' := ReversedAll(side, w, gs, luck);
      forall c | c in w1.p4[|w.p4|..] ensures SubmittedOne(gs, c) { assert gs[0] in gs; }
      if luck(gs[0]).Numbered? && luck(gs[0]).remembered {
        ReversedAllAdds(side, w1, gs[1..], luck);
        assert w'.p4[|w.p4|..] == w1.p4[|w.p4|..] + w'.p4[|w1.p4|..];
        forall c | c in w'.p4[|w1.p4|..] ensures SubmittedOne(gs, c) {
          var g :| g in gs[1..] && c.from == Some(g.sha);
          assert g in gs;
        }
      }
    }
  }

  // ---------- The same commits are new before and after carrying changelists ----------

  lemma ForwardedIsMarked(side: Side, w: World, w': World, cs: seq<Changelist>, h: GitCommit)
    requires Bridged(side, w') && OnlyForwarded(side, w, w', cs) && h in w'.git[|w.git|..]
    ensures FromP4(h.message)
  {
    hide FromGit, FromP4, InOrder, CrossedOnce, NothingLost, RowsBelong, SubmittedWell;
    assert ForwardedOne(side, cs, h) && h in w'.git;
    assert CommittedWell(side, w', h);
  }

  /** What a second look finds new, the first look found new too. */
  lemma NewBefore(side: Side, w: World, w': World, cs: seq<Changelist>, seen: seq<GitCommit>,
                  later: seq<GitCommit>, h: GitCommit)
    requires Bridged(side, w') && OnlyForwarded(side, w, w', cs) && h in NewCommits(w'.tables, later)
    requires Seen(w, seen) && Seen(w', later)
    requires forall g | g in later :: g in seen || g in w'.git[|w.git|..]
    ensures h in seen && h in NewCommits(w.tables, seen)
  {
    hide FromGit, FromP4, ForwardedOne, InOrder, CrossedOnce, NothingLost, RowsBelong, SubmittedWell, CommittedWell;
    NewCommitsCross(w', later);
    NewCommitsCross(w, seen);
    assert h in later && IsNew(w'.tables, h);
    if h in w'.git[|w.git|..] { ForwardedIsMarked(side, w, w', cs, h); }
  }

  // ---------- The round ----------

  /** Recording or forgetting a conflict changes nothing else. */
  ghost predicate SameButConflicts(w: World, w': World) {
    w' == w.(tables := w.tables.(conflicts := w'.tables.conflicts))
  }

  lemma StillBridged(side: Side, w: World, w': World)
    requires Bridged(side, w) && SameButConflicts(w, w')
    ensures Bridged(side, w')
  {
    hide FromGit, FromP4, IsEmpty;
    forall c | c in w'.p4 ensures SubmittedWell(side, w', c) { assert SubmittedWell(side, w, c); }
    forall g | g in w'.git ensures CommittedWell(side, w', g) { MoreChangelists(side, w, w', g); }
    RowsStillBelong(side, w, w');
    forall c | c in w.p4 && Carried(w, c.cl) ensures Carried(w', c.cl) { MoreCommits(w, w', c.cl); }
  }

  /** How the outside answers a round: whether a remote repository is configured, whether it can be
      fetched from at the first and at the second look, whether a recorded conflict has been
      resolved, whether the conflict branch can be created, and how many of the new commits are
      pushed before the second look. */
  datatype Outside = Outside(remote: bool, fetched: bool, fetchedAgain: bool, resolved: bool, created: bool,
                             pushed: nat)

  /** What waits on both sides overlaps. */
  ghost predicate Overlapping(side: Side, w: World, seen: seq<GitCommit>, batchSize: nat) {
    Overlap(WithFiles(Polled(side, w, batchSize)), NewCommits(w.tables, seen)) != {}
  }

  /** The round is called off: a conflict is recorded, or an overlap is found. Without a remote
      nothing is checked, and when fetching fails overlaps are not looked for. */
  ghost predicate Blocked(side: Side, w: World, seen: seq<GitCommit>, batchSize: nat, outside: Outside) {
    outside.remote && (side.branch in w.tables.conflicts || (outside.fetched && Overlapping(side, w, seen, batchSize)))
  }

  /** Nothing is submitted: a conflict is recorded, fetching fails, or an overlap is found. */
  ghost predicate BlockedBack(side: Side, w: World, seen: seq<GitCommit>, batchSize: nat, outside: Outside) {
    || side.branch in w.tables.conflicts
    || (outside.remote && !outside.fetchedAgain)
    || Overlapping(side, w, seen, batchSize)
  }

  /** The conflicts on record after looking for an overlap. */
  ghost function ConflictsFound(side: Side, w: World, seen: seq<GitCommit>, batchSize: nat,
                                outside: Outside): map<string, Conflict> {
    var changes, commits := WithFiles(Polled(side, w, batchSize)), NewCommits(w.tables, seen);
    if Overlap(changes, commits) != {} && outside.created then
      w.tables.conflicts[side.branch := Conflict(Numbers(changes), Shas(commits), Overlap(changes, commits))]
    else w.tables.conflicts
  }

  /** The conflicts on record after a check that calls the round off: a recorded one may be resolved. */
  ghost function ConflictsAfter(side: Side, w: World, seen: seq<GitCommit>, batchSize: nat,
                                outside: Outside): map<string, Conflict> {
    if side.branch !in w.tables.conflicts then ConflictsFound(side, w, seen, batchSize, outside)
    else if outside.resolved then w.tables.conflicts - {side.branch}
    else w.tables.conflicts
  }

  /** A recorded conflict stays until it is resolved. A new one is recorded exactly when an overlap is found and
      its branch can be made; it names what overlaps. Other branches are not touched. */
  lemma ConflictsExactly(side: Side, w: World, seen: seq<GitCommit>, batchSize: nat, outside: Outside)
    ensures var t := ConflictsAfter(side, w, seen, batchSize, outside);
      && (side.branch in w.tables.conflicts ==>
            (side.branch in t <==> !outside.resolved)
            && (!outside.resolved ==> t[side.branch] == w.tables.conflicts[side.branch]))
      && (side.branch !in w.tables.conflicts ==>
            (side.branch in t <==> Overlapping(side, w, seen, batchSize) && outside.created)
            && (side.branch in t ==>
                  Names(t[side.branch], WithFiles(Polled(side, w, batchSize)), NewCommits(w.tables, seen))))
      && forall b | b != side.branch :: (b in t <==> b in w.tables.conflicts)
                                        && (b in t ==> t[b] == w.tables.conflicts[b])
  {
    hide WithFiles, Polled, NewCommits, Overlap;
    OverlapExactly(WithFiles(Polled(side, w, batchSize)), NewCommits(w.tables, seen));
  }

  /** Look for an overlap between the commits seen and what waits in Perforce, and put it on record. */
  method FindOverlap(o: Orchestrator, seen: seq<GitCommit>, batchSize: nat, outside: Outside) returns (found: bool)
    modifies o.store
    ensures SameButConflicts(old(o.View()), o.View())
    ensures found <==> Overlapping(o.side, old(o.View()), seen, batchSize)
    ensures o.View().tables.conflicts == ConflictsFound(o.side, old(o.View()), seen, batchSize, outside)
    ensures !found ==> o.View() == old(o.View())
  {
    hide NewCommits, WithFiles, Polled, SmallestAbove;
    var commits := o.DetectNewCommits(seen);
    if commits == [] { return false; }
    var changes := CollectP4Changes(o, batchSize);
    if changes == [] { return false; }
    var conflict := Detect(changes, commits);
    if conflict.Some? && outside.created { o.store.RecordConflict(o.side.branch, conflict.value); }
    found := conflict.Some?;
  }

  /** The check before a round. A recorded conflict stops this round even if it has just been resolved. */
  method CheckConflicts(o: Orchestrator, seen: seq<GitCommit>, batchSize: nat, outside: Outside)
    returns (hasConflict: bool)
    modifies o.store
    ensures SameButConflicts(old(o.View()), o.View())
    ensures hasConflict <==> Blocked(o.side, old(o.View()), seen, batchSize, outside)
    ensures !hasConflict ==> o.View() == old(o.View())
    ensures hasConflict ==> o.View().tables.conflicts == ConflictsAfter(o.side, old(o.View()), seen, batchSize, outside)
  {
    hide Overlapping, ConflictsFound;
    if !outside.remote { return false; }
    var conflict := o.store.GetConflict(o.side.branch);
    if conflict.Some? {
      if outside.resolved { o.store.ResolveConflict(o.side.branch); }
      return true;
    }
    if !outside.fetched { return false; }
    hasConflict := FindOverlap(o, seen, batchSize, outside);
  }

  /** Perforce after the reverse half of a round. */
  ghost function CarriedBack(side: Side, w: World, seen: seq<GitCommit>, batchSize: nat, luck: SubmitLuck,
                             outside: Outside): seq<Changelist> {
    if BlockedBack(side, w, seen, batchSize, outside) then w.p4
    else ReversedAll(side, w, NewCommits(w.tables, seen), luck).p4
  }

  /** What a second look at the log sees: of the new commits those that have been pushed, too. */
  function Later(w: World, w': World, seen: seq<GitCommit>, pushed: nat): seq<GitCommit> {
    if |w.git| <= |w'.git| then seen + w'.git[|w.git|..][..Min(pushed, |w'.git| - |w.git|)] else seen
  }

  /** Carry commits, after looking again for a conflict with what still waits in Perforce. */
  method PollReverseChecked(o: Orchestrator, seen: seq<GitCommit>, batchSize: nat, luck: SubmitLuck, outside: Outside)
    requires Bridged(o.side, o.View()) && Seen(o.View(), seen)
    modifies o`p4, o.store
    ensures Bridged(o.side, o.View()) && old(o.p4) <= o.p4
    ensures o.p4 == CarriedBack(o.side, old(o.View()), seen, batchSize, luck, outside)
    ensures o.store.conflictState ==
      if o.side.branch !in old(o.store.conflictState) && outside.remote && !outside.fetchedAgain
      then old(o.store.conflictState) else ConflictsAfter(o.side, old(o.View()), seen, batchSize, outside)
    ensures forall c | c in o.p4[|old(o.p4)|..] :: SubmittedOne(NewCommits(old(o.View()).tables, seen), c)
  {
    hide Bridged, Seen, NewCommits, SubmittedOne, ReversedAll, Overlapping, ConflictsFound;
    var conflict := o.store.GetConflict(o.side.branch);
    if conflict.Some? {
      if outside.resolved { o.store.ResolveConflict(o.side.branch); }
      StillBridged(o.side, old(o.View()), o.View());
      return;
    }
    if outside.remote && !outside.fetchedAgain { return; }
    var found := FindOverlap(o, seen, batchSize, outside);
    StillBridged(o.side, old(o.View()), o.View());
    if found { return; }
    ReversedAllAdds(o.side, o.View(), NewCommits(o.View().tables, seen), luck);
    o.PollReverse(seen, luck);
  }

  /** Every new commit touches other files than every commit that was submitted. */
  ghost predicate DisjointSides(w: World, w': World)
    requires w.git <= w'.git && w.p4 <= w'.p4
  {
    forall g, c, h | g in w'.git[|w.git|..] && c in w'.p4[|w.p4|..] && h in w'.git && c.from == Some(h.sha) ::
      g.paths !! h.paths
  }

  lemma NothingCrossed(w: World, w': World)
    requires w.p4 <= w'.p4 && w.git <= w'.git && (w'.p4 == w.p4 || w'.git == w.git)
    ensures DisjointSides(w, w')
  {
  }

  lemma GrownLog(side: Side, w: World, w': World, cs: seq<Changelist>)
    requires OnlyForwarded(side, w, w', cs)
    ensures w.git <= w'.git && w.p4 == w'.p4
  {
  }

  /** A second look at the log sees each commit once, too. */
  lemma LaterSeen(w: World, w': World, seen: seq<GitCommit>, later: seq<GitCommit>)
    requires Seen(w, seen) && InOrder(w') && w.git <= w'.git
    requires exists n: nat :: later == Later(w, w', seen, n)
    ensures Seen(w', later) && forall g | g in later :: g in seen || g in w'.git[|w.git|..]
  {
    var n: nat :| later == Later(w, w', seen, n);
    forall i, k | 0 <= i < |seen| && |w.git| <= k < |w'.git| ensures seen[i].sha != w'.git[k].sha {
      assert seen[i] in seen;
      var n :| 0 <= n < |w.git| && w.git[n] == seen[i];
      assert w'.git[n] == seen[i];
    }
    forall g | g in later ensures g in w'.git {
      if g in seen { assert g in w.git; }
    }
  }

  lemma SameSha(w: World, g: GitCommit, h: GitCommit)
    requires InOrder(w) && g in w.git && h in w.git && g.sha == h.sha
    ensures g == h
  {
  }

  /** A new commit and a submitted one: the first look at both sides has compared their files. */
  lemma PairDisjoint(side: Side, w: World, w1: World, cs: seq<Changelist>, seen: seq<GitCommit>,
                     later: seq<GitCommit>, g: GitCommit, h: GitCommit)
    requires Bridged(side, w1) && OnlyForwarded(side, w, w1, cs) && TwoComponentStream(side.stream)
    requires Overlap(WithFiles(cs), NewCommits(w.tables, seen)) == {} && (forall x | x in seen :: RepositoryPaths(x))
    requires Seen(w, seen) && Seen(w1, later) && forall x | x in later :: x in seen || x in w1.git[|w.git|..]
    requires g in w1.git[|w.git|..] && h in NewCommits(w1.tables, later)
    ensures g.paths !! h.paths
  {
    hide Bridged, Seen, NewCommits, WithFiles, Overlap, TwoComponentStream, RepositoryPaths, FromGit, PathsOf;
    NewBefore(side, w, w1, cs, seen, later, h);
    assert ForwardedOne(side, cs, g);
    var c :| c in cs && !FromGit(c.description) && g.paths == PathsOf(side, c) && g.from == Some(c.cl);
    NoOverlapDisjoint(side, cs, NewCommits(w.tables, seen), c, h);
  }

  lemma RoundDisjoint(side: Side, w: World, w1: World, w2: World, cs: seq<Changelist>, seen: seq<GitCommit>,
                      later: seq<GitCommit>)
    requires Bridged(side, w1) && OnlyForwarded(side, w, w1, cs) && TwoComponentStream(side.stream)
    requires Overlap(WithFiles(cs), NewCommits(w.tables, seen)) == {} && (forall x | x in seen :: RepositoryPaths(x))
    requires Seen(w, seen) && Seen(w1, later) && forall x | x in later :: x in seen || x in w1.git[|w.git|..]
    requires w2.git == w1.git && w1.p4 <= w2.p4
    requires forall c | c in w2.p4[|w1.p4|..] :: SubmittedOne(NewCommits(w1.tables, later), c)
    ensures w.git <= w2.git && w.p4 <= w2.p4 && DisjointSides(w, w2)
  {
    hide NewCommits, WithFiles, Overlap, TwoComponentStream, RepositoryPaths, FromGit, CommittedWell;
    hide SubmittedWell, NothingLost, RowsBelong;
    forall g, c, h | g in w2.git[|w.git|..] && c in w2.p4[|w.p4|..] && h in w2.git && c.from == Some(h.sha)
      ensures g.paths !! h.paths
    {
      assert SubmittedOne(NewCommits(w1.tables, later), c);
      var x :| x in NewCommits(w1.tables, later) && c.from == Some(x.sha);
      NewCommitsCross(w1, later);
      SameSha(w1, x, h);
      PairDisjoint(side, w, w1, cs, seen, later, g, h);
    }
  }

  /** Where a round leads: called off, or first changelists and then commits are carried. */
  ghost predicate RoundLeads(side: Side, w: World, seen: seq<GitCommit>, batchSize: nat, build: BuildLuck,
                             submit: SubmitLuck, outside: Outside, w': World) {
    if Blocked(side, w, seen, batchSize, outside) then w'.p4 == w.p4 && w'.git == w.git
    else
      var w1 := ForwardedAll(side, w, Polled(side, w, batchSize), build);
      && w'.git == w1.git
      && w'.p4 == CarriedBack(side, w1, Later(w, w1, seen, outside.pushed), batchSize, submit, outside)
  }

  /** A round may begin here. */
  ghost predicate MayBegin(side: Side, w: World, seen: seq<GitCommit>, batchSize: nat, build: BuildLuck) {
    && Bridged(side, w) && Seen(w, seen) && FreshFor(w, Polled(side, w, batchSize), build)
    && forall g | g in seen :: RepositoryPaths(g)
  }

  /** Either the first look sees what is new in Git, or the second look fails too; or nothing is polled at all. */
  predicate LooksFirst(outside: Outside, batchSize: nat) {
    batchSize == 0 || (outside.remote && (outside.fetched || !outside.fetchedAgain))
  }

  lemma PolledNothing(side: Side, w: World, build: BuildLuck)
    ensures ForwardedAll(side, w, Polled(side, w, 0), build) == w
  {
  }

  /** If the first look sees what is new in Git, what crosses touches different files. */
  lemma {:induction false} SidesKeptApart(side: Side, w: World, seen: seq<GitCommit>, batchSize: nat, build: BuildLuck,
                                          submit: SubmitLuck, outside: Outside, w': World)
    requires MayBegin(side, w, seen, batchSize, build) && TwoComponentStream(side.stream)
    requires RoundLeads(side, w, seen, batchSize, build, submit, outside, w')
    ensures w.git <= w'.git && w.p4 <= w'.p4
    ensures LooksFirst(outside, batchSize) ==> DisjointSides(w, w')
  {
    hide Bridged, Seen, FreshFor, NewCommits, WithFiles, Polled, ForwardedAll, OnlyForwarded, RepositoryPaths;
    hide TwoComponentStream, DisjointSides, Overlap, Later, ReversedAll, SubmittedOne;
    if Blocked(side, w, seen, batchSize, outside) {
      NothingCrossed(w, w');
    } else {
      var polled := Polled(side, w, batchSize);
      var w1 := ForwardedAll(side, w, polled, build);
      var later := Later(w, w1, seen, outside.pushed);
      PolledWaits(side, w, batchSize);
      ForwardedAllAdds(side, w, polled, build);
      GrownLog(side, w, w1, polled);
      BridgedInOrder(side, w1);
      LaterSeen(w, w1, seen, later);
      ReversedAllAdds(side, w1, NewCommits(w1.tables, later), submit);
      if batchSize == 0 {
        PolledNothing(side, w, build);
        NothingCrossed(w, w');
      } else if outside.remote && !outside.fetchedAgain {
        NothingCrossed(w, w');
      } else if outside.remote && outside.fetched {
        RoundDisjoint(side, w, w1, w', polled, seen, later);
      }
    }
  }

  /** One round of the two-way bridge. When it is called off nothing crosses; otherwise first
      changelists and then commits are carried. What crosses touches different files, if the first
      look sees what is new in Git. */
  method BidirectionalRound(o: Orchestrator, seen: seq<GitCommit>, batchSize: nat, build: BuildLuck,
                            submit: SubmitLuck, outside: Outside)
    requires MayBegin(o.side, o.View(), seen, batchSize, build) && TwoComponentStream(o.side.stream)
    modifies o`p4, o`git, o.store
    ensures Bridged(o.side, o.View()) && old(o.git) <= o.git && old(o.p4) <= o.p4
    ensures RoundLeads(o.side, old(o.View()), seen, batchSize, build, submit, outside, o.View())
    ensures Blocked(o.side, old(o.View()), seen, batchSize, outside) ==> o.p4 == old(o.p4) && o.git == old(o.git)
    ensures LooksFirst(outside, batchSize) ==> DisjointSides(old(o.View()), o.View())
  {
    hide Bridged, Seen, FreshFor, NewCommits, WithFiles, Polled, ForwardedAll, OnlyForwarded, RepositoryPaths;
    hide TwoComponentStream, DisjointSides, CarriedBack, ConflictsFound, Overlapping, LooksFirst;
    ghost var w, polled := o.View(), Polled(o.side, o.View(), batchSize);
    var hasConflict := CheckConflicts(o, seen, batchSize, outside);
    StillBridged(o.side, w, o.View());
    if !hasConflict {
      var before := |o.git|;
      PolledWaits(o.side, w, batchSize);
      ForwardedAllAdds(o.side, w, polled, build);
      o.PollAndSync(batchSize, build);
      ghost var w1 := o.View();
      GrownLog(o.side, w, w1, polled);
      BridgedInOrder(o.side, w1);
      var later := seen + o.git[before..][..Min(outside.pushed, |o.git| - before)];
      assert later == Later(w, w1, seen, outside.pushed);
      LaterSeen(w, w1, seen, later);
      PollReverseChecked(o, later, batchSize, submit, outside);
    }
    SidesKeptApart(o.side, w, seen, batchSize, build, submit, outside, o.View());
  }

  // ---------- Exactly when the sides are kept apart ----------

  /** A user has changed file a on both sides, and the bridge has done nothing yet. */
  function BothChanged(side: Side): World {
    World([Changelist(1, "", [FileAction(side.stream + ("/" + "a"), "edit", 0)], None)],
          [GitCommit("a", "", {"a"}, None)],
          Tables(map[], map[], map[], map[], map[]))
  }

  lemma BothChangedBridged(side: Side)
    ensures Bridged(side, BothChanged(side)) && Seen(BothChanged(side), BothChanged(side).git)
  {
    var w := BothChanged(side);
    hide FromGit, FromP4, IsEmpty;
    assert InOrder(w) by { assert InClass('a', Hex); }
  }

  function AlwaysBuilt(): BuildLuck { c => Built("b", "", "", 0, None, true) }

  function AlwaysNumbered(): SubmitLuck { g => Answer.Numbered(0, None, false, true, []) }

  /** The forward half commits the change of a. */
  lemma ChangeForwarded(side: Side, batchSize: nat)
    requires batchSize > 0
    ensures var w, c, b := BothChanged(side), BothChanged(side).p4[0], AlwaysBuilt()(BothChanged(side).p4[0]);
      && Polled(side, w, batchSize) == [c] && FreshFor(w, [c], AlwaysBuilt())
      && ForwardedAll(side, w, [c], AlwaysBuilt()) == Forwarded(side, w, c, b)
      && Forwarded(side, w, c, b) == World(w.p4, w.git + [CommitFrom(side, c, b)], Tables(
           map[side.stream := Synced(1, "b")], map[(1, side.stream) := Row("b", side.branch, P4ToGit)],
           map[], map[], map[]))
      && "a" in CommitFrom(side, c, b).paths
  {
    var w, c := BothChanged(side), BothChanged(side).p4[0];
    hide FromGit, PathsOf, IsEmpty, WrittenFiles, DeletedPaths;
    BlankIsUnmarked();
    EditedFile(side, c, "a", 0);
    assert !IsEmpty(side, c) by { NotEmpty(side, c, "a"); }
    assert InClass('b', Hex);
    assert ChangesAfter(w.p4, 0) == [c];
  }

  lemma NotEmpty(side: Side, c: Changelist, p: string)
    requires p in PathsOf(side, c)
    ensures !IsEmpty(side, c)
  {
  }

  lemma BlankIsNew(t: Tables, g: GitCommit)
    requires g.message == "" && !KnownSha(t, g.sha)
    ensures IsNew(t, g)
  {
  }

  /** Seen alone or with the bridge's own commit, the user's commit is the one that is new. */
  lemma OneIsNew(t: Tables, g: GitCommit, h: GitCommit)
    requires IsNew(t, g) && FromP4(h.message)
    ensures NewCommits(t, [g]) == [g] && NewCommits(t, [g] + [h]) == [g]
  {
    hide IsNew;
    assert !IsNew(t, h) by { MarkedIsOld(t, h); }
    assert [g][..0] == [] && ([g] + [h])[..1] == [g];
    assert NewCommits(t, []) == [];
  }

  lemma MarkedIsOld(t: Tables, h: GitCommit)
    requires FromP4(h.message)
    ensures !IsNew(t, h)
  {
  }

  lemma CommitIsMarked(side: Side, c: Changelist, b: Build)
    requires b.Built?
    ensures FromP4(CommitFrom(side, c, b).message)
  {
    PrintedMessageRecognised(Metadata(b.author, b.email, b.time, c.description, c.cl, b.integration));
  }

  lemma OneSubmitted(side: Side, w: World, g: GitCommit)
    ensures var p4 := ReversedAll(side, w, [g], AlwaysNumbered()).p4;
      |p4| == |w.p4| + 1 && w.p4 <= p4 && p4[|w.p4|].from == Some(g.sha)
  {
    hide FormatDescription;
    assert [g][1..] == [];
  }

  /** The reverse half submits the other change of a: nothing waits in Perforce any more. */
  lemma ChangeSubmitted(side: Side, batchSize: nat, outside: Outside)
    requires batchSize > 0 && (outside.remote ==> outside.fetchedAgain)
    ensures var w := BothChanged(side);
      var w1 := Forwarded(side, w, w.p4[0], AlwaysBuilt()(w.p4[0]));
      var p4 := CarriedBack(side, w1, Later(w, w1, w.git, outside.pushed), batchSize, AlwaysNumbered(), outside);
      w.p4 <= p4 && |p4| == 2 && p4[1].from == Some("a")
  {
    hide FromGit, FromP4, IsEmpty, IsNew, KnownSha, PathsOf, CommitFrom, Forwarded, NewCommits, ReversedAll;
    hide Overlapping;
    var w := BothChanged(side);
    var c, g, b := w.p4[0], w.git[0], AlwaysBuilt()(w.p4[0]);
    var w1 := Forwarded(side, w, c, b);
    ChangeForwarded(side, batchSize);
    CommitIsMarked(side, c, b);
    OnlyB(side, w1.tables);
    BlankIsNew(w1.tables, g);
    OneIsNew(w1.tables, g, CommitFrom(side, c, b));
    var later := Later(w, w1, w.git, outside.pushed);
    assert later == [g] || later == [g] + [CommitFrom(side, c, b)];
    NothingOverlaps(side, w1, later, batchSize);
    OneSubmitted(side, w1, g);
  }

  lemma OnlyB(side: Side, t: Tables)
    requires t.commits == map[(1, side.stream) := Row("b", side.branch, P4ToGit)]
    ensures !KnownSha(t, "a")
  {
  }

  lemma NothingOverlaps(side: Side, w: World, seen: seq<GitCommit>, batchSize: nat)
    requires |w.p4| == 1 && w.p4[0].cl <= LastSynced(w.tables, side.stream)
    ensures !Overlapping(side, w, seen, batchSize)
  {
    hide NewCommits, GitFiles;
    assert ChangesAfter(w.p4, LastSynced(w.tables, side.stream)) == [];
    assert WithFiles([]) == [];
  }

  /** However a round begins and whatever is built and submitted, what crosses touches different files. */
  ghost predicate AlwaysApart(side: Side, batchSize: nat, outside: Outside) {
    forall w: World, seen: seq<GitCommit>, build: BuildLuck, submit: SubmitLuck, w': World
      | MayBegin(side, w, seen, batchSize, build) && RoundLeads(side, w, seen, batchSize, build, submit, outside, w') ::
      w.git <= w'.git && w.p4 <= w'.p4 && DisjointSides(w, w')
  }

  /** The sides are always kept apart exactly when the first look sees what is new in Git, or what the
      first look misses the second cannot submit. */
  lemma {:induction false} ApartExactly(side: Side, batchSize: nat, outside: Outside)
    requires TwoComponentStream(side.stream)
    ensures AlwaysApart(side, batchSize, outside) <==> LooksFirst(outside, batchSize)
  {
    hide MayBegin, RoundLeads, DisjointSides, TwoComponentStream;
    if LooksFirst(outside, batchSize) {
      forall w: World, seen: seq<GitCommit>, build: BuildLuck, submit: SubmitLuck, w': World
        | MayBegin(side, w, seen, batchSize, build) && RoundLeads(side, w, seen, batchSize, build, submit, outside, w')
        ensures w.git <= w'.git && w.p4 <= w'.p4 && DisjointSides(w, w')
      {
        SidesKeptApart(side, w, seen, batchSize, build, submit, outside, w');
      }
    } else {
      var w' := BothCarried(side, batchSize, outside);
    }
  }

  /** Unchecked, both changes of a cross. */
  lemma BothCarried(side: Side, batchSize: nat, outside: Outside) returns (w': World)
    requires !LooksFirst(outside, batchSize)
    ensures var w := BothChanged(side);
      && MayBegin(side, w, w.git, batchSize, AlwaysBuilt())
      && RoundLeads(side, w, w.git, batchSize, AlwaysBuilt(), AlwaysNumbered(), outside, w')
      && w.git <= w'.git && w.p4 <= w'.p4 && !DisjointSides(w, w')
  {
    hide Bridged, Seen, FreshFor, Polled, ForwardedAll, Forwarded, CarriedBack, Later, CommitFrom, Overlapping;
    var w := BothChanged(side);
    var w1 := Forwarded(side, w, w.p4[0], AlwaysBuilt()(w.p4[0]));
    BothChangedBridged(side);
    ChangeForwarded(side, batchSize);
    ChangeSubmitted(side, batchSize, outside);
    w' := w1.(p4 := CarriedBack(side, w1, Later(w, w1, w.git, outside.pushed), batchSize, AlwaysNumbered(), outside));
    assert !("//" <= "a") && RepositoryPaths(w.git[0]);
    var g, c, h := w'.git[1], w'.p4[1], w'.git[0];
    assert w'.git[|w.git|..] == [g] && w'.p4[|w.p4|..] == [c] && h in w'.git;
    assert "a" in g.paths && "a" in h.paths;
  }

  // ---------- What disjointness is for ----------

  function Effects(gs: seq<GitCommit>, effect: GitCommit -> Effect): seq<Effect> {
    if gs == [] then [] else Effects(gs[..|gs| - 1], effect) + [effect(gs[|gs| - 1])]
  }

  /** Effects touch no more than the files their commits name. */
  lemma {:induction false} TouchedAreNamed(gs: seq<GitCommit>, effect: GitCommit -> Effect, p: string)
    requires forall g | g in gs :: Touched(effect(g)) <= g.paths
    ensures p in AllTouched(Effects(gs, effect)) ==> exists g :: g in gs && p in g.paths
  {
    if gs != [] {
      var k, es := |gs| - 1, Effects(gs, effect);
      assert es[..|es| - 1] == Effects(gs[..k], effect);
      assert gs == gs[..k] + [gs[k]];
      TouchedAreNamed(gs[..k], effect, p);
    }
  }

  lemma SentIsDisjoint(w: World, w': World, g: GitCommit, h: GitCommit)
    requires w.git <= w'.git && w.p4 <= w'.p4 && DisjointSides(w, w')
    requires g in w'.git[|w.git|..] && h in w'.git && exists c :: c in w'.p4[|w.p4|..] && c.from == Some(h.sha)
    ensures g.paths !! h.paths
  {
  }

  /** When the sides are disjoint, it does not matter which comes first to the files: the new
      commits, or the commits that the new changelists come from. */
  lemma RoundCommutes(w: World, w': World, sent: seq<GitCommit>, effect: GitCommit -> Effect, m: map<string, string>)
    requires w.git <= w'.git && w.p4 <= w'.p4 && DisjointSides(w, w')
    requires forall h | h in sent :: h in w'.git && exists c :: c in w'.p4[|w.p4|..] && c.from == Some(h.sha)
    requires forall g :: Touched(effect(g)) <= g.paths
    ensures var added := w'.git[|w.git|..];
      Applied(Applied(m, Effects(added, effect)), Effects(sent, effect))
      == Applied(Applied(m, Effects(sent, effect)), Effects(added, effect))
  {
    var added := w'.git[|w.git|..];
    forall p | p in AllTouched(Effects(added, effect)) ensures p !in AllTouched(Effects(sent, effect)) {
      TouchedAreNamed(added, effect, p);
      TouchedAreNamed(sent, effect, p);
      var g :| g in added && p in g.paths;
      forall h | h in sent ensures p !in h.paths { SentIsDisjoint(w, w', g, h); }
    }
    EitherOrder(m, Effects(added, effect), Effects(sent, effect));
  }
}
