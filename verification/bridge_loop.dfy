/** One direction at a time: the polling loops of the bridge, proved against its steps. */
module BridgeLoop {
  import opened Options
  import opened Text
  import opened CommitMetadata
  import opened StateStores
  import opened BulkImport
  import opened Bridge

  // ---------- Forward ----------

  /** Submitted changelists above a number, ascending as the server lists them. */
  function ChangesAfter(p4: seq<Changelist>, last: CL): seq<Changelist> {
    if p4 == [] then []
    else (if p4[0].cl > last then [p4[0]] else []) + ChangesAfter(p4[1..], last)
  }

  function Polled(side: Side, w: World, batchSize: nat): seq<Changelist> {
    var changes := ChangesAfter(w.p4, LastSynced(w.tables, side.stream));
    changes[..Min(batchSize, |changes|)]
  }

  /** A failure, or failing clean-up after a changelist that did not come from Git, ends the loop. */
  predicate Stops(c: Changelist, b: Build) { b.Unbuilt? || (!FromGit(c.description) && !b.cleansUp) }

  type BuildLuck = Changelist -> Build

  ghost function ForwardedAll(side: Side, w: World, cs: seq<Changelist>, luck: BuildLuck): World
    decreases |cs|
  {
    if cs == [] then w
    else
      var w' := Forwarded(side, w, cs[0], luck(cs[0]));
      if Stops(cs[0], luck(cs[0])) then w' else ForwardedAll(side, w', cs[1..], luck)
  }

  /** cs is the front of what waits, in order. */
  ghost predicate Waits(side: Side, w: World, cs: seq<Changelist>) {
    cs <= ChangesAfter(w.p4, LastSynced(w.tables, side.stream))
  }

  lemma {:induction false} ChangesAfterAre(p4: seq<Changelist>, last: CL)
    requires forall i, k | 0 <= i < k < |p4| :: p4[i].cl < p4[k].cl
    ensures forall c :: c in ChangesAfter(p4, last) <==> c in p4 && c.cl > last
    ensures forall i, k | 0 <= i < k < |ChangesAfter(p4, last)| ::
      ChangesAfter(p4, last)[i].cl < ChangesAfter(p4, last)[k].cl
  {
    if p4 != [] {
      ChangesAfterAre(p4[1..], last);
      assert p4 == [p4[0]] + p4[1..];
      forall c | c in p4[1..] ensures p4[0].cl < c.cl { var i :| 0 <= i < |p4| - 1 && p4[1..][i] == c; }
    }
  }

  /** The smallest changelists above a number, ascending: a whole batch of them, or all there are. */
  ghost predicate SmallestAbove(changes: seq<Changelist>, p4: seq<Changelist>, last: CL, batchSize: nat) {
    && |changes| <= batchSize
    && (forall i, k | 0 <= i < k < |changes| :: changes[i].cl < changes[k].cl)
    && (forall c | c in changes :: c in p4 && c.cl > last)
    && (forall c | c in p4 && c.cl > last && c !in changes ::
          |changes| == batchSize && forall d | d in changes :: d.cl < c.cl)
  }

  /** Of an ascending list, the front holds the smallest. */
  lemma FrontIsSmallest(all: seq<Changelist>, n: nat, c: Changelist)
    requires (forall i, k | 0 <= i < k < |all| :: all[i].cl < all[k].cl) && n <= |all| && c in all && c !in all[..n]
    ensures n < |all| && forall d | d in all[..n] :: d.cl < c.cl
  {
    var rest := all[n..];
    assert all == all[..n] + rest;
    var k :| 0 <= k < |rest| && rest[k] == c;
    assert all[n + k] == c;
  }

  /** Cutting what waits to a batch leaves nothing smaller out. */
  lemma PolledAreSmallest(side: Side, w: World, batchSize: nat)
    requires InOrder(w)
    ensures SmallestAbove(Polled(side, w, batchSize), w.p4, LastSynced(w.tables, side.stream), batchSize)
  {
    hide ChangesAfter;
    var last := LastSynced(w.tables, side.stream);
    var all, changes := ChangesAfter(w.p4, last), Polled(side, w, batchSize);
    ChangesAfterAre(w.p4, last);
    forall c | c in w.p4 && c.cl > last && c !in changes
      ensures |changes| == batchSize && forall d | d in changes :: d.cl < c.cl
    {
      FrontIsSmallest(all, |changes|, c);
    }
  }

  lemma FirstComesNext(side: Side, w: World, cs: seq<Changelist>)
    requires InOrder(w) && Waits(side, w, cs) && cs != []
    ensures ComesNext(side, w, cs[0])
  {
    var changes := ChangesAfter(w.p4, LastSynced(w.tables, side.stream));
    ChangesAfterAre(w.p4, LastSynced(w.tables, side.stream));
    assert cs[0] == changes[0] && changes[0] in changes;
  }

  lemma PolledWaits(side: Side, w: World, batchSize: nat)
    ensures Waits(side, w, Polled(side, w, batchSize))
  {
  }

  /** The changelists above the first one waiting are those waiting behind it. */
  lemma {:induction false} BehindFirst(p4: seq<Changelist>, last: CL)
    requires forall i, k | 0 <= i < k < |p4| :: p4[i].cl < p4[k].cl
    requires ChangesAfter(p4, last) != []
    ensures ChangesAfter(p4, ChangesAfter(p4, last)[0].cl) == ChangesAfter(p4, last)[1..]
  {
    if p4[0].cl > last {
      AllAbove(p4[1..], last);
      AllAbove(p4[1..], p4[0].cl);
    } else {
      BehindFirst(p4[1..], last);
      ChangesAfterAre(p4, last);
      assert ChangesAfter(p4, last)[0] in ChangesAfter(p4, last);
    }
  }

  lemma {:induction false} AllAbove(p4: seq<Changelist>, last: CL)
    requires forall c | c in p4 :: c.cl > last
    ensures ChangesAfter(p4, last) == p4
  {
    if p4 != [] {
      assert p4[0] in p4 && forall c | c in p4[1..] :: c in p4;
      AllAbove(p4[1..], last);
    }
  }

  lemma RestWaits(side: Side, w: World, cs: seq<Changelist>, b: Build)
    requires InOrder(w) && Waits(side, w, cs) && cs != [] && b.Built?
    ensures Waits(side, Forwarded(side, w, cs[0], b), cs[1..])
  {
    hide FromGit, IsEmpty, CommitFrom, ChangesAfter;
    BehindFirst(w.p4, LastSynced(w.tables, side.stream));
    var changes := ChangesAfter(w.p4, LastSynced(w.tables, side.stream));
    assert cs == changes[..|cs|] && cs[1..] == changes[1..][..|cs| - 1];
  }

  /** Git names every commit it makes afresh. */
  ghost predicate FreshFor(w: World, cs: seq<Changelist>, luck: BuildLuck) {
    && (forall c | c in cs :: luck(c).Built? ==> NewSha(w, luck(c).sha))
    && (forall i, k | 0 <= i < k < |cs| ::
          luck(cs[i]).Built? && luck(cs[k]).Built? ==> luck(cs[i]).sha != luck(cs[k]).sha)
  }

  lemma RestFresh(side: Side, w: World, cs: seq<Changelist>, luck: BuildLuck)
    requires FreshFor(w, cs, luck) && cs != []
    ensures FreshFor(Forwarded(side, w, cs[0], luck(cs[0])), cs[1..], luck)
  {
    hide FromGit, IsEmpty;
    var w' := Forwarded(side, w, cs[0], luck(cs[0]));
    forall c | c in cs[1..] && luck(c).Built? ensures NewSha(w', luck(c).sha) {
      var i :| 0 <= i < |cs| - 1 && cs[1..][i] == c;
      assert c == cs[i + 1] && c in cs;
    }
  }

  /** The loop stops at the first changelist that fails: without a commit it is left for the next round;
      with one, and clean-up failing behind it, the mark stands at it. */
  lemma {:induction false} ForwardReaches(side: Side, w: World, cs: seq<Changelist>, luck: BuildLuck, i: nat)
    requires i < |cs|
    requires forall k | 0 <= k < i :: luck(cs[k]).Built? && (FromGit(cs[k].description) || luck(cs[k]).cleansUp)
    ensures luck(cs[i]).Unbuilt? ==>
      LastSynced(ForwardedAll(side, w, cs, luck).tables, side.stream)
      == if i == 0 then LastSynced(w.tables, side.stream) else cs[i - 1].cl
    ensures luck(cs[i]).Built? && !FromGit(cs[i].description) && !luck(cs[i]).cleansUp ==>
      LastSynced(ForwardedAll(side, w, cs, luck).tables, side.stream) == cs[i].cl
    ensures luck(cs[i]).Built? && i == |cs| - 1 ==>
      LastSynced(ForwardedAll(side, w, cs, luck).tables, side.stream) == cs[i].cl
    decreases i
  {
    hide FromGit, IsEmpty, CommitFrom;
    var w' := Forwarded(side, w, cs[0], luck(cs[0]));
    if i > 0 {
      ForwardReaches(side, w', cs[1..], luck, i - 1);
    } else if luck(cs[0]).Built? && !Stops(cs[0], luck(cs[0])) {
      assert ForwardedAll(side, w, cs, luck) == ForwardedAll(side, w', cs[1..], luck);
    }
  }

  // ---------- Reverse ----------

  /** The commits that neither carry a P4CL trailer nor are recorded already. */
  ghost function NewCommits(t: Tables, seen: seq<GitCommit>): (found: seq<GitCommit>) {
    if seen == [] then []
    else NewCommits(t, seen[..|seen| - 1]) + if IsNew(t, seen[|seen| - 1]) then [seen[|seen| - 1]] else []
  }

  /** Perforce refuses a submission, or gives it some number above all others. */
  datatype Answer =
    | Refused
    | Numbered(gap: nat, mapped: Option<string>, newLine: bool, remembered: bool, files: seq<FileAction>)

  type SubmitLuck = GitCommit -> Answer

  function Highest(p4: seq<Changelist>): CL { if p4 == [] then 0 else p4[|p4| - 1].cl }

  function SubmissionOf(w: World, a: Answer): Submission {
    if a.Refused? then Rejected
    else Accepted(Highest(w.p4) + 1 + a.gap, a.mapped, if a.newLine then "\n" else "", a.remembered)
  }

  function FilesOf(a: Answer): seq<FileAction> { if a.Refused? then [] else a.files }

  function Answered(side: Side, w: World, g: GitCommit, a: Answer): World {
    Reversed(side, w, g, SubmissionOf(w, a), FilesOf(a))
  }

  ghost function ReversedAll(side: Side, w: World, gs: seq<GitCommit>, luck: SubmitLuck): World
    decreases |gs|
  {
    if gs == [] then w
    else
      var w' := Answered(side, w, gs[0], luck(gs[0]));
      if luck(gs[0]).Numbered? && luck(gs[0]).remembered then ReversedAll(side, w', gs[1..], luck) else w'
  }

  /** Everything before the first commit that is refused is submitted; so is a commit whose submission is
      not remembered, and nothing behind it. */
  lemma {:induction false} ReverseReaches(side: Side, w: World, gs: seq<GitCommit>, luck: SubmitLuck, i: nat)
    requires i < |gs| && forall k | 0 <= k < i :: luck(gs[k]).Numbered? && luck(gs[k]).remembered
    ensures luck(gs[i]).Refused? ==> |ReversedAll(side, w, gs, luck).p4| == |w.p4| + i
    ensures luck(gs[i]).Numbered? && (!luck(gs[i]).remembered || i == |gs| - 1) ==>
      |ReversedAll(side, w, gs, luck).p4| == |w.p4| + i + 1
    decreases i
  {
    hide ChangelistFrom, Highest;
    if i > 0 {
      ReverseReaches(side, Answered(side, w, gs[0], luck(gs[0])), gs[1..], luck, i - 1);
    } else if luck(gs[0]).Numbered? && luck(gs[0]).remembered {
      var w' := Answered(side, w, gs[0], luck(gs[0]));
      assert ReversedAll(side, w, gs, luck) == ReversedAll(side, w', gs[1..], luck);
    }
  }

  /** Commits in the log, each once, none of them known yet. */
  ghost predicate Crossable(w: World, gs: seq<GitCommit>) {
    && (forall g | g in gs :: g in w.git && IsNew(w.tables, g))
    && (forall i, k | 0 <= i < k < |gs| :: gs[i].sha != gs[k].sha)
  }

  /** Part of the log, each commit once. */
  ghost predicate Seen(w: World, seen: seq<GitCommit>) {
    && (forall g | g in seen :: g in w.git)
    && (forall i, k | 0 <= i < k < |seen| :: seen[i].sha != seen[k].sha)
  }

  ghost predicate NewByItself(t: Tables, g: GitCommit) {
    ParseP4Cl(Strip(g.message)).None? && forall k | k in t.commits :: t.commits[k].sha != g.sha
  }

  lemma NewExactly(t: Tables, g: GitCommit)
    ensures IsNew(t, g) <==> NewByItself(t, g)
  {
    hide ParseP4Cl, Strip;
  }

  /** A commit is detected exactly when it is seen, its stripped message names no changelist, and no row has it. */
  lemma {:induction false} DetectedExactly(t: Tables, seen: seq<GitCommit>, g: GitCommit)
    ensures g in NewCommits(t, seen) <==> g in seen && NewByItself(t, g)
  {
    hide IsNew, NewByItself;
    if seen != [] {
      var before, last := seen[..|seen| - 1], seen[|seen| - 1];
      assert seen == before + [last];
      DetectedExactly(t, before, g);
      NewExactly(t, last);
    }
  }

  lemma {:induction false} NewCommitsCross(w: World, seen: seq<GitCommit>)
    requires Seen(w, seen)
    ensures Crossable(w, NewCommits(w.tables, seen))
    ensures forall g :: g in NewCommits(w.tables, seen) <==> g in seen && IsNew(w.tables, g)
  {
    hide IsNew;
    if seen != [] {
      var k := |seen| - 1;
      assert seen == seen[..k] + [seen[k]];
      NewCommitsCross(w, seen[..k]);
      forall g | g in NewCommits(w.tables, seen[..k]) ensures g.sha != seen[k].sha {
        var i :| 0 <= i < k && seen[..k][i] == g;
        assert seen[i] == g;
      }
    }
  }

  lemma NumberedAboveAll(side: Side, w: World, g: GitCommit, a: Answer)
    requires InOrder(w) && g in w.git && IsNew(w.tables, g)
    ensures Possible(side, w, Reverse(g, SubmissionOf(w, a), FilesOf(a)))
  {
    hide IsNew;
    forall c | c in w.p4 ensures c.cl <= Highest(w.p4) { var i :| 0 <= i < |w.p4| && w.p4[i] == c; }
  }

  lemma ShaIsToken(side: Side, w: World, g: GitCommit)
    requires Bridged(side, w) && g in w.git
    ensures Token(g.sha, Hex)
  {
  }

  lemma SubmissionNames(w: World, g: GitCommit, a: Answer)
    requires Token(g.sha, Hex)
    ensures a.Numbered? ==> SubmittedAs(ChangelistFrom(g, SubmissionOf(w, a), FilesOf(a)), g, a.mapped)
  {
    hide Token, SubmittedAs;
    if a.Numbered? { SubmittedNames(g, SubmissionOf(w, a), FilesOf(a)); }
  }

  lemma RestCrosses(side: Side, w: World, gs: seq<GitCommit>, a: Answer)
    requires InOrder(w) && gs != [] && Crossable(w, gs)
    ensures Crossable(Answered(side, w, gs[0], a), gs[1..])
  {
    hide FromP4;
    var w' := Answered(side, w, gs[0], a);
    forall g | g in gs[1..] ensures g in w'.git && IsNew(w'.tables, g) {
      var i :| 0 <= i < |gs| - 1 && gs[1..][i] == g;
      assert g == gs[i + 1] && g in gs;
      forall k | k in w'.tables.commits ensures w'.tables.commits[k].sha != g.sha {
        assert k in w.tables.commits ==> w.tables.commits[k].sha != g.sha;
      }
    }
  }

  // ---------- The loops ----------

  ghost predicate IsRow(t: Tables, cl: CL, stream: Stream, sha: Sha, direction: Direction) {
    (cl, stream) in t.commits && t.commits[(cl, stream)].sha == sha && t.commits[(cl, stream)].direction == direction
  }

  ghost predicate MarkIs(t: Tables, stream: Stream, cl: CL, sha: Sha) {
    stream in t.synced && t.synced[stream] == Synced(cl, sha)
  }

  /** Unless it fails, a changelist without a marker that touches files of the stream makes one commit that
      stands for it and is on record; any other makes none. The mark moves up to it. */
  ghost predicate Makes(side: Side, w: World, w': World, c: Changelist, b: Build) {
    var made := b.Built? && ParseGitCommit(c.description).None? && exists path: string :: Touches(side, c, path);
    if made then
      && |w'.git| == |w.git| + 1 && w'.git[..|w.git|] == w.git
      && w'.git[|w.git|].sha == b.sha && StandsFor(side, w'.git[|w.git|], c)
      && IsRow(w'.tables, c.cl, side.stream, b.sha, P4ToGit) && MarkIs(w'.tables, side.stream, c.cl, b.sha)
    else w'.git == w.git && (b.Built? ==> MarkIs(w'.tables, side.stream, c.cl, ""))
  }

  lemma ForwardedMakes(side: Side, w: World, c: Changelist, b: Build)
    ensures Makes(side, w, Forwarded(side, w, c, b), c, b)
  {
    assert FromGit(c.description) <==> ParseGitCommit(c.description).Some?;
    hide FromGit, IsEmpty, StandsFor, CommitFrom, Touches, ParseGitCommit;
    EmptyExactly(side, c);
    if b.Built? { CommitStandsFor(side, c, b); }
  }

  class Orchestrator {
    const side: Side
    const store: StateStore
    var p4: seq<Changelist>
    var git: seq<GitCommit>

    ghost function View(): World
      reads this, store
    {
      World(p4, git, store.Contents())
    }

    constructor (side: Side, store: StateStore)
      ensures this.side == side && this.store == store && p4 == [] && git == []
    {
      this.side, this.store, p4, git := side, store, [], [];
    }

    /** The changelists to carry next. */
    method Poll(batchSize: nat) returns (changes: seq<Changelist>)
      ensures changes == Polled(side, View(), batchSize)
      ensures InOrder(View()) ==> SmallestAbove(changes, p4, LastSynced(store.Contents(), side.stream), batchSize)
    {
      if InOrder(View()) { PolledAreSmallest(side, View(), batchSize); }
      var last := store.GetLastSyncedCl(side.stream);
      changes := ChangesAfter(p4, last);
      changes := changes[..Min(batchSize, |changes|)];
    }

    method ProcessChangelist(c: Changelist, b: Build) returns (ok: bool)
      requires Bridged(side, View()) && Possible(side, View(), Forward(c, b))
      modifies this`git, store
      ensures View() == Forwarded(side, old(View()), c, b) && Bridged(side, View())
      ensures ok <==> !Stops(c, b)
      ensures Makes(side, old(View()), View(), c, b)
    {
      hide Bridged, FromGit, IsEmpty, ComesNext, NewSha, Makes, CommitFrom;
      ForwardedMakes(side, View(), c, b);
      ForwardKeeps(side, View(), c, b);
      if b.Unbuilt? { return false; }
      var sha: Sha := "";
      if !FromGit(c.description) && !IsEmpty(side, c) {
        sha := b.sha;
        git := git + [CommitFrom(side, c, b)];
        store.RecordCommit(c.cl, sha, side.stream, side.branch, P4ToGit);
      }
      store.SetLastSyncedCl(side.stream, c.cl, sha);
      ok := FromGit(c.description) || b.cleansUp;
    }

    /** One forward round: carry the polled changelists until one stops the loop. */
    method PollAndSync(batchSize: nat, luck: BuildLuck)
      requires Bridged(side, View()) && FreshFor(View(), Polled(side, View(), batchSize), luck)
      modifies this`git, store
      ensures View() == ForwardedAll(side, old(View()), Polled(side, old(View()), batchSize), luck)
      ensures Bridged(side, View())
    {
      hide FreshFor, FromGit, IsEmpty, NewSha, Forwarded, Bridged, Waits, Polled, SmallestAbove, ComesNext, InOrder;
      PolledWaits(side, View(), batchSize);
      var changes := Poll(batchSize);
      assert changes[0..] == changes;
      var i := 0;
      while i < |changes|
        invariant i <= |changes| && Bridged(side, View())
        invariant Waits(side, View(), changes[i..]) && FreshFor(View(), changes[i..], luck)
        invariant ForwardedAll(side, old(View()), changes, luck) == ForwardedAll(side, View(), changes[i..], luck)
      {
        var c := changes[i];
        assert changes[i..][0] == c && changes[i..][1..] == changes[i + 1..];
        BridgedInOrder(side, View());
        FirstComesNext(side, View(), changes[i..]);
        NextIsFresh(View(), changes[i..], luck);
        if luck(c).Built? { RestWaits(side, View(), changes[i..], luck(c)); }
        RestFresh(side, View(), changes[i..], luck);
        var ok := ProcessChangelist(c, luck(c));
        if !ok { return; }
        i := i + 1;
      }
    }

    method DetectNewCommits(seen: seq<GitCommit>) returns (found: seq<GitCommit>)
      ensures found == NewCommits(store.Contents(), seen)
    {
      hide FromP4;
      found := [];
      for i := 0 to |seen|
        invariant found == NewCommits(store.Contents(), seen[..i])
      {
        assert seen[..i + 1][..i] == seen[..i];
        if !FromP4(seen[i].message) {
          var existing := store.KnowsSha(seen[i].sha);
          if !existing { found := found + [seen[i]]; }
        }
      }
      assert seen[..|seen|] == seen;
    }

    method SyncCommit(g: GitCommit, a: Answer) returns (ok: bool)
      requires Bridged(side, View()) && g in git && IsNew(store.Contents(), g)
      modifies this`p4, store
      ensures View() == Answered(side, old(View()), g, a) && Bridged(side, View())
      ensures ok <==> a.Numbered? && a.remembered
      ensures a.Refused? ==> p4 == old(p4)
      ensures a.Numbered? ==> |p4| == |old(p4)| + 1 && p4[..|old(p4)|] == old(p4)
      ensures a.Numbered? ==> var c := p4[|old(p4)|];
        && SubmittedAs(c, g, a.mapped) && c.files == a.files && (forall d | d in old(p4) :: d.cl < c.cl)
        && IsRow(store.Contents(), c.cl, side.stream, g.sha, GitToP4)
      ensures ok ==> side.branch in store.reverseSyncState && store.reverseSyncState[side.branch] == g.sha
    {
      hide Bridged, IsNew, SubmittedAs;
      ShaIsToken(side, View(), g);
      SubmissionNames(View(), g, a);
      BridgedInOrder(side, View());
      NumberedAboveAll(side, View(), g, a);
      ReverseKeeps(side, View(), g, SubmissionOf(View(), a), FilesOf(a));
      if a.Refused? { return false; }
      var cl := Highest(p4) + 1 + a.gap;
      var description := FormatDescription(Described(g, a.mapped), g.sha) + if a.newLine then "\n" else "";
      p4 := p4 + [Changelist(cl, description, a.files, Some(g.sha))];
      store.RecordCommit(cl, g.sha, side.stream, side.branch, GitToP4);
      if a.remembered { store.SetLastReverseSyncSha(side.branch, g.sha); }
      ok := a.remembered;
    }

    /** Submit commits one by one until a submission fails. */
    method SubmitAll(commits: seq<GitCommit>, luck: SubmitLuck)
      requires Bridged(side, View()) && Crossable(View(), commits)
      modifies this`p4, store
      ensures View() == ReversedAll(side, old(View()), commits, luck) && Bridged(side, View())
    {
      hide IsNew, Bridged, Answered;
      var i := 0;
      while i < |commits|
        invariant i <= |commits| && Bridged(side, View()) && Crossable(View(), commits[i..])
        invariant ReversedAll(side, old(View()), commits, luck) == ReversedAll(side, View(), commits[i..], luck)
      {
        var g := commits[i];
        assert commits[i..][0] == g && commits[i..][1..] == commits[i + 1..];
        BridgedInOrder(side, View());
        RestCrosses(side, View(), commits[i..], luck(g));
        var ok := SyncCommit(g, luck(g));
        if !ok { return; }
        i := i + 1;
      }
    }

    /** One reverse round of a one-way bridge: detect, then submit. */
    method PollReverse(seen: seq<GitCommit>, luck: SubmitLuck)
      requires Bridged(side, View()) && Seen(View(), seen)
      modifies this`p4, store
      ensures View() == ReversedAll(side, old(View()), NewCommits(old(store.Contents()), seen), luck)
      ensures Bridged(side, View())
    {
      hide IsNew, Bridged, NewCommits, ReversedAll;
      var commits := DetectNewCommits(seen);
      NewCommitsCross(View(), seen);
      SubmitAll(commits, luck);
    }
  }

  lemma BridgedInOrder(side: Side, w: World)
    requires Bridged(side, w)
    ensures InOrder(w)
  {
  }

  lemma NextIsFresh(w: World, cs: seq<Changelist>, luck: BuildLuck)
    requires FreshFor(w, cs, luck) && cs != []
    ensures luck(cs[0]).Built? ==> NewSha(w, luck(cs[0]).sha)
  {
    assert cs[0] in cs;
  }
}
