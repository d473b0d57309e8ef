/** One polling round over all registered streams: handle the collected events in order until one fails. */
module MultiStream {
  import opened Options
  import opened Text
  import opened Unique
  import opened StateStores
  import opened SyncEvents

  /** The name of a Git commit is never blank. */
  type CommitSha = s: Sha | s != "" witness "0"

  /** What Perforce tells of a changelist: whether the filters leave it any file, whether it
      integrates, and the changelist it integrates from. */
  datatype Change = Change(isEmpty: bool, integrates: bool, source: Option<CL>)

  /** How an event goes: it fails before anything is recorded, or it succeeds, and then the
      clean-up that follows may still fail. The branch may exist already; the Git library, unlike the
      command line, is strict: it makes no commit without a parent on a branch that exists. */
  datatype Attempt = Fails | Makes(sha: CommitSha, cleansUp: bool, branchExists: bool, strict: bool)

  type Describe = (CL, Stream) -> Change
  type Luck = SyncEvent -> Attempt

  datatype Made = Made(cl: CL, stream: Stream, sha: Sha, parents: seq<Sha>)

  predicate Given(sha: Option<Sha>) { sha.Some? && sha.value != "" }

  function ParentSha(t: Tables, stream: Stream): Option<Sha> {
    var last := LastSynced(t, stream);
    if last > 0 && (last, stream) in t.commits then Some(t.commits[(last, stream)].sha) else None
  }

  /** A merge needs both a parent and a source; without a source the commit is a plain one. */
  function Parents(parent: Option<Sha>, source: Option<Sha>): seq<Sha> {
    if Given(parent) && Given(source) then [parent.value, source.value]
    else if Given(parent) then [parent.value]
    else []
  }

  ghost predicate SourceSha(t: Tables, change: Change, source: Option<Sha>) {
    if change.integrates && change.source.Some? then IsShaOf(t, change.source.value, source) else source.None?
  }

  ghost predicate MadeFrom(t: Tables, e: SyncEvent, change: Change, made: Made) {
    && made.cl == e.cl && made.stream == e.stream
    && exists source: Option<Sha> ::
          SourceSha(t, change, source) && made.parents == Parents(ParentSha(t, e.stream), source)
  }

  ghost predicate BranchPointFound(t: Tables, e: SyncEvent)
    requires e.BranchCreate?
  {
    || (exists c: CL :: c < e.cl + 1 && (c, e.parentStream) in t.commits)
    || (LastSynced(t, e.parentStream), e.parentStream) in t.commits
  }

  /** A branch starts at its parent's last commit up to the branch point, or else at the last one synced. */
  ghost predicate IsBranchStart(t: Tables, e: SyncEvent, sha: Sha)
    requires e.BranchCreate?
  {
    || IsLastBefore(t, e.parentStream, e.cl + 1, Some(sha))
    || (IsLastBefore(t, e.parentStream, e.cl + 1, None)
        && (LastSynced(t, e.parentStream), e.parentStream) in t.commits
        && t.commits[(LastSynced(t, e.parentStream), e.parentStream)].sha == sha)
  }

  /** An empty changelist is recorded with a blank commit, and no branch can be made to start there. */
  ghost predicate StartsBlank(t: Tables, e: SyncEvent)
    requires e.BranchCreate?
  {
    IsBranchStart(t, e, "")
  }

  /** The commit would have no parent, and the branch exists. */
  predicate Refused(t: Tables, e: SyncEvent, change: Change, attempt: Attempt) {
    && e.Changelist? && !change.isEmpty && !Given(ParentSha(t, e.stream))
    && attempt.Makes? && attempt.branchExists && attempt.strict
  }

  predicate Succeeds(t: Tables, e: SyncEvent, change: Change, attempt: Attempt) {
    attempt.Makes? && !Refused(t, e, change, attempt)
  }

  ghost predicate GoesOn(t: Tables, e: SyncEvent, change: Change, attempt: Attempt) {
    match e
    case BranchCreate(_, _, _, _) =>
      BranchPointFound(t, e) && attempt.Makes? && (attempt.branchExists || !StartsBlank(t, e))
    case Changelist(_, _, _) => Succeeds(t, e, change, attempt) && attempt.cleansUp
  }

  /** The tables after an event: a changelist that does not fail is recorded, and its stream moves up to it. */
  function Handled(t: Tables, e: SyncEvent, change: Change, attempt: Attempt): Tables {
    if e.BranchCreate? || !Succeeds(t, e, change, attempt) then t
    else
      var sha: Sha := if change.isEmpty then "" else attempt.sha;
      var t' := Recorded(t, e.cl, e.stream, Row(sha, e.branch, P4ToGit));
      t'.(synced := t.synced[e.stream := Synced(e.cl, sha)])
  }

  /** The tables after handling events in order until the first that fails. */
  ghost function Processed(t: Tables, events: seq<SyncEvent>, describe: Describe, luck: Luck): Tables
    decreases |events|
  {
    if events == [] then t
    else
      var e := events[0];
      var t' := Handled(t, e, describe(e.cl, e.stream), luck(e));
      if GoesOn(t, e, describe(e.cl, e.stream), luck(e)) then Processed(t', events[1..], describe, luck) else t'
  }

  // ---------- The handlers ----------

  /** A parent that has the changelist of the branch point starts the branch there and nowhere else. */
  lemma StartsAtBranchPoint(t: Tables, e: SyncEvent, sha: Sha)
    requires e.BranchCreate? && (e.cl, e.parentStream) in t.commits
    ensures IsBranchStart(t, e, sha) <==> sha == t.commits[(e.cl, e.parentStream)].sha
  {
    if IsBranchStart(t, e, sha) { OneBranchStart(t, e, sha, t.commits[(e.cl, e.parentStream)].sha); }
  }

  lemma OneBranchStart(t: Tables, e: SyncEvent, a: Sha, b: Sha)
    requires e.BranchCreate? && IsBranchStart(t, e, a) && IsBranchStart(t, e, b)
    ensures a == b
  {
  }

  method HandleBranchCreate(store: StateStore, e: SyncEvent, change: Change, attempt: Attempt)
    returns (ok: bool, start: Option<Sha>)
    requires e.BranchCreate?
    ensures ok <==> GoesOn(store.Contents(), e, change, attempt)
    ensures start.Some? <==> BranchPointFound(store.Contents(), e)
    ensures start.Some? ==> IsBranchStart(store.Contents(), e, start.value)
  {
    ghost var t := store.Contents();
    var parentSha := store.GetLastCommitBefore(e.parentStream, e.cl + 1);
    if parentSha.None? {
      var last := store.GetLastSyncedCl(e.parentStream);
      parentSha := store.GetStreamCommitSha(last, e.parentStream);
    }
    start := parentSha;
    if start.None? { return false, None; }
    if StartsBlank(t, e) { OneBranchStart(t, e, start.value, ""); }
    ok := attempt.Makes? && (attempt.branchExists || start.value != "");
  }

  /** Look up the commit merged from and choose between a merge and a plain commit. */
  method BuildCommit(store: StateStore, e: SyncEvent, change: Change, parent: Option<Sha>, sha: CommitSha)
    returns (made: Option<Made>)
    requires parent == ParentSha(store.Contents(), e.stream)
    ensures made.Some? <==> !change.isEmpty
    ensures made.Some? ==> made.value.sha == sha && MadeFrom(store.Contents(), e, change, made.value)
    ensures made.Some? ==>
      var parents := made.value.parents;
      if parent.Some? && parent.value != "" then 1 <= |parents| <= 2 && parents[0] == parent.value else parents == []
  {
    if change.isEmpty { return None; }
    var source := None;
    if change.integrates && change.source.Some? { source := store.GetCommitSha(change.source.value); }
    assert SourceSha(store.Contents(), change, source);
    made := Some(Made(e.cl, e.stream, sha, Parents(parent, source)));
  }

  method HandleChangelist(store: StateStore, e: SyncEvent, change: Change, attempt: Attempt)
    returns (ok: bool, made: Option<Made>)
    requires e.Changelist?
    modifies store
    ensures store.Contents() == Handled(old(store.Contents()), e, change, attempt)
    ensures ok <==> GoesOn(old(store.Contents()), e, change, attempt)
    ensures made.Some? <==> Succeeds(old(store.Contents()), e, change, attempt) && !change.isEmpty
    ensures made.Some? ==> made.value.sha == attempt.sha && MadeFrom(old(store.Contents()), e, change, made.value)
    ensures made.Some? || (change.isEmpty && attempt.Makes?) ==>
      && IsRow(store.Contents(), e.cl, e.stream, if change.isEmpty then "" else attempt.sha)
      && store.clCommitMap[(e.cl, e.stream)].direction == P4ToGit
      && LastSynced(store.Contents(), e.stream) == e.cl
    ensures made.None? && !(change.isEmpty && attempt.Makes?) ==> store.Contents() == old(store.Contents())
  {
    hide MadeFrom;
    if attempt.Fails? { return false, None; }
    var last := store.GetLastSyncedCl(e.stream);
    var parent := None;
    if last > 0 { parent := store.GetStreamCommitSha(last, e.stream); }
    if !change.isEmpty && !Given(parent) && attempt.branchExists && attempt.strict { return false, None; }
    made := BuildCommit(store, e, change, parent, attempt.sha);
    var sha: Sha := if made.Some? then attempt.sha else "";
    store.RecordCommit(e.cl, sha, e.stream, e.branch, P4ToGit);
    store.SetLastSyncedCl(e.stream, e.cl, sha);
    ok := attempt.cleansUp;
  }

  // ---------- What a round keeps ----------

  /** Recorded changelists of each stream are exactly its changelists up to the last one synced. */
  ghost predicate InSync(t: Tables, depot: Depot) {
    && Keyed(t.registry) && Numbered(depot)
    && (forall s | s in t.synced :: s in t.registry && Has(depot, s, t.synced[s].cl))
    && (forall s | s in t.synced :: IsRow(t, t.synced[s].cl, s, t.synced[s].sha))
    && (forall c: CL, s: Stream :: (c, s) in t.commits <==> s in t.synced && Has(depot, s, c) && c <= t.synced[s].cl)
  }

  /** Every changelist still to sync is among the events to come, and none of those is behind. */
  ghost predicate Ahead(t: Tables, depot: Depot, rest: seq<SyncEvent>) {
    && Sorted(rest) && NoRepeats(rest)
    && (forall e | e in rest && e.Changelist? ::
          && e.stream in t.registry && e.branch == t.registry[e.stream].branch
          && Has(depot, e.stream, e.cl) && e.cl > LastSynced(t, e.stream))
    && (forall s: Stream, c: CL | s in t.registry && Has(depot, s, c) && c > LastSynced(t, s) ::
          Changelist(c, s, t.registry[s].branch) in rest)
  }

  /** Nothing numbered below this changelist waits in any registered stream. */
  ghost predicate NothingBelow(t: Tables, depot: Depot, cl: CL) {
    forall s: Stream, c: CL | s in t.registry && Has(depot, s, c) && c < cl ::
      c <= LastSynced(t, s) && (c, s) in t.commits
  }

  /** Rows stay, and streams only move up. */
  ghost predicate Extends(t: Tables, t': Tables) {
    && t'.registry == t.registry
    && (forall k | k in t.commits :: k in t'.commits && t'.commits[k] == t.commits[k])
    && (forall s :: LastSynced(t, s) <= LastSynced(t', s))
  }

  lemma NotBelowFirst(t: Tables, depot: Depot, rest: seq<SyncEvent>, s: Stream, c: CL)
    requires Ahead(t, depot, rest) && s in t.registry && Has(depot, s, c) && c > LastSynced(t, s)
    ensures rest != [] && rest[0].cl <= c
  {
    var e := Changelist(c, s, t.registry[s].branch);
    var i :| 0 <= i < |rest| && rest[i] == e;
    assert i > 0 ==> NotAfter(rest[0], rest[i]);
  }

  /** When a changelist comes up, all smaller ones of all registered streams have been handled. */
  lemma FirstIsSmallest(t: Tables, depot: Depot, rest: seq<SyncEvent>)
    requires InSync(t, depot) && Ahead(t, depot, rest) && rest != [] && rest[0].Changelist?
    ensures NothingBelow(t, depot, rest[0].cl)
  {
    forall s: Stream, c: CL | s in t.registry && Has(depot, s, c) && c < rest[0].cl
      ensures c <= LastSynced(t, s) && (c, s) in t.commits
    {
      if c > LastSynced(t, s) { NotBelowFirst(t, depot, rest, s, c); }
      assert c in depot[s] && c > 0;
    }
  }

  lemma RestAhead(t: Tables, depot: Depot, rest: seq<SyncEvent>, t': Tables)
    requires InSync(t, depot) && Ahead(t, depot, rest) && rest != [] && rest[0].Changelist?
    requires t'.registry == t.registry
    requires forall s :: LastSynced(t', s) == if s == rest[0].stream then rest[0].cl else LastSynced(t, s)
    ensures Ahead(t', depot, rest[1..])
  {
    var e, tail := rest[0], rest[1..];
    assert rest == [e] + tail;
    forall x | x in tail && x.Changelist?
      ensures x.stream in t'.registry && x.branch == t'.registry[x.stream].branch
      ensures Has(depot, x.stream, x.cl) && x.cl > LastSynced(t', x.stream)
    {
      assert x in rest && x != e && NotAfter(e, x);
      if x.stream == e.stream { SameBranch(t, depot, rest, x); }
    }
    forall s: Stream, c: CL | s in t'.registry && Has(depot, s, c) && c > LastSynced(t', s)
      ensures Changelist(c, s, t'.registry[s].branch) in tail
    {
      assert e in rest && e.cl > LastSynced(t, e.stream);
      assert Changelist(c, s, t.registry[s].branch) in rest;
      assert Changelist(c, s, t.registry[s].branch) != e;
    }
  }

  /** Changelist events of one stream and number differ in nothing else. */
  lemma SameBranch(t: Tables, depot: Depot, rest: seq<SyncEvent>, x: SyncEvent)
    requires InSync(t, depot) && Ahead(t, depot, rest) && rest != [] && rest[0].Changelist?
    requires x in rest[1..] && x.Changelist? && x.stream == rest[0].stream
    ensures x.cl > rest[0].cl
  {
    assert rest[0] in rest && x in rest && NotAfter(rest[0], x) && x != rest[0];
  }

  lemma ChangelistRecorded(t: Tables, depot: Depot, e: SyncEvent, change: Change, attempt: Attempt)
    requires InSync(t, depot) && e.Changelist? && Succeeds(t, e, change, attempt)
    requires e.stream in t.registry && Has(depot, e.stream, e.cl) && e.cl > LastSynced(t, e.stream)
    requires NothingBelow(t, depot, e.cl)
    ensures var t' := Handled(t, e, change, attempt); InSync(t', depot) && Extends(t, t')
  {
    var t' := Handled(t, e, change, attempt);
    forall c: CL, s: Stream
      ensures (c, s) in t'.commits <==> s in t'.synced && Has(depot, s, c) && c <= t'.synced[s].cl
    {
      assert (c, s) in t'.commits <==> (c, s) in t.commits || (c == e.cl && s == e.stream);
      if s == e.stream && Has(depot, s, c) && c < e.cl { assert (c, s) in t.commits; }
    }
  }

  lemma HandledKeeps(t: Tables, depot: Depot, rest: seq<SyncEvent>, change: Change, attempt: Attempt)
    requires InSync(t, depot) && Ahead(t, depot, rest) && rest != []
    ensures var t' := Handled(t, rest[0], change, attempt);
            && InSync(t', depot) && Extends(t, t')
            && (rest[0].BranchCreate? || Succeeds(t, rest[0], change, attempt) ==> Ahead(t', depot, rest[1..]))
  {
    var e, t' := rest[0], Handled(t, rest[0], change, attempt);
    assert e in rest;
    if e.BranchCreate? {
      SkipAhead(t, depot, rest);
    } else if Succeeds(t, e, change, attempt) {
      FirstIsSmallest(t, depot, rest);
      ChangelistRecorded(t, depot, e, change, attempt);
      RestAhead(t, depot, rest, t');
    }
  }

  lemma SkipAhead(t: Tables, depot: Depot, rest: seq<SyncEvent>)
    requires Ahead(t, depot, rest) && rest != [] && rest[0].BranchCreate?
    ensures Ahead(t, depot, rest[1..])
  {
    assert rest == [rest[0]] + rest[1..];
  }

  /** A freshly collected queue is ahead of the tables it was collected from. */
  lemma QueueIsAhead(t: Tables, depot: Depot, all: seq<SyncEvent>)
    requires InSync(t, depot) && Queue(t, depot, all)
    ensures Ahead(t, depot, all)
  {
    forall s: Stream, c: CL | s in t.registry && Has(depot, s, c) && c > LastSynced(t, s)
      ensures Changelist(c, s, t.registry[s].branch) in all
    {
      assert IsOwed(t, depot, Changelist(c, s, t.registry[s].branch));
    }
  }

  lemma {:induction false} ExtendsFurther(a: Tables, b: Tables, c: Tables)
    requires Extends(a, b) && Extends(b, c)
    ensures Extends(a, c)
  {
  }

  /** Handling any front of the queue, to its end or its first failure, keeps every stream in sync. */
  lemma {:induction false} ProcessedKeeps(t: Tables, depot: Depot, rest: seq<SyncEvent>, n: nat,
          describe: Describe, luck: Luck)
    requires InSync(t, depot) && Ahead(t, depot, rest) && n <= |rest|
    ensures var t' := Processed(t, rest[..n], describe, luck); InSync(t', depot) && Extends(t, t')
    decreases n
  {
    hide InSync, Ahead, Handled;
    if n > 0 {
      var e := rest[0];
      var t' := Handled(t, e, describe(e.cl, e.stream), luck(e));
      HandledKeeps(t, depot, rest, describe(e.cl, e.stream), luck(e));
      assert rest[..n][0] == e && rest[..n][1..] == rest[1..][..n - 1];
      if GoesOn(t, e, describe(e.cl, e.stream), luck(e)) {
        ProcessedKeeps(t', depot, rest[1..], n - 1, describe, luck);
        ExtendsFurther(t, t', Processed(t', rest[1..][..n - 1], describe, luck));
      }
    }
  }

  ghost predicate AmongFirst(events: seq<SyncEvent>, i: nat, k: (CL, Stream)) {
    exists m :: 0 <= m <= i && m < |events| && events[m].Changelist? && k == (events[m].cl, events[m].stream)
  }

  /** An event that fails, or whose clean-up fails behind a changelist, ends the round: nothing that comes
      after it is recorded. */
  lemma {:induction false} NothingBehindFailure(t: Tables, events: seq<SyncEvent>, describe: Describe, luck: Luck,
                                                i: nat)
    requires i < |events|
    requires luck(events[i]).Fails? || (events[i].Changelist? && !luck(events[i]).cleansUp)
    ensures forall k | k in Processed(t, events, describe, luck).commits && k !in t.commits :: AmongFirst(events, i, k)
    decreases i
  {
    hide Refused, BranchPointFound, StartsBlank;
    var e := events[0];
    var t' := Handled(t, e, describe(e.cl, e.stream), luck(e));
    forall k | k in t'.commits && k !in t.commits ensures AmongFirst(events, i, k) {
      assert e.Changelist? && k == (e.cl, e.stream);
    }
    if GoesOn(t, e, describe(e.cl, e.stream), luck(e)) && i > 0 {
      NothingBehindFailure(t', events[1..], describe, luck, i - 1);
      forall k | AmongFirst(events[1..], i - 1, k) ensures AmongFirst(events, i, k) {
        var m :| 0 <= m <= i - 1 && m < |events[1..]| && events[1..][m].Changelist?
                 && k == (events[1..][m].cl, events[1..][m].stream);
        assert events[m + 1] == events[1..][m];
      }
    }
  }

  // ---------- A round ----------

  /** If the source of an integration has a real commit in every row, the commit is a merge with it
      as soon as it has a parent at all. */
  ghost predicate MergesItsSource(t: Tables, depot: Depot, change: Change, made: Made) {
    change.integrates && change.source.Some? && change.source.value < made.cl
    && (exists s: Stream :: s in t.registry && Has(depot, s, change.source.value))
    && (forall s: Stream | (change.source.value, s) in t.commits :: t.commits[(change.source.value, s)].sha != "")
    && made.parents != []
    ==> |made.parents| == 2 && exists s: Stream :: IsRow(t, change.source.value, s, made.parents[1])
  }

  ghost predicate IsRow(t: Tables, cl: CL, s: Stream, sha: Sha) {
    (cl, s) in t.commits && t.commits[(cl, s)].sha == sha
  }

  /** The stream's greatest changelist below this one. */
  ghost predicate IsPrevious(depot: Depot, s: Stream, c: CL, cl: CL) {
    Has(depot, s, c) && c < cl && forall d: CL | Has(depot, s, d) && d < cl :: d <= c
  }

  /** A commit continues its own stream: its first parent is the recorded commit of the stream's greatest
      changelist below it. It has none if that one was empty, or if there is no such changelist. A second
      parent is the commit of the changelist that an integration came from. */
  ghost predicate Follows(t: Tables, depot: Depot, change: Change, made: Made) {
    && |made.parents| <= 2 && IsRow(t, made.cl, made.stream, made.sha)
    && (forall c: CL | IsPrevious(depot, made.stream, c, made.cl) ::
          if made.parents == [] then IsRow(t, c, made.stream, "")
          else made.parents[0] != "" && IsRow(t, c, made.stream, made.parents[0]))
    && (made.parents == [] || exists c: CL :: IsPrevious(depot, made.stream, c, made.cl))
    && (|made.parents| == 2 ==>
          change.integrates && change.source.Some? && made.parents[1] != ""
          && exists s: Stream :: IsRow(t, change.source.value, s, made.parents[1]))
  }

  /** When a changelist comes up, its stream stands at the greatest changelist below it. */
  lemma StandsAtPrevious(t: Tables, depot: Depot, e: SyncEvent, c: CL)
    requires InSync(t, depot) && NothingBelow(t, depot, e.cl)
    requires e.stream in t.registry && e.cl > LastSynced(t, e.stream)
    ensures IsPrevious(depot, e.stream, c, e.cl) <==> e.stream in t.synced && c == t.synced[e.stream].cl
  {
    if IsPrevious(depot, e.stream, c, e.cl) { assert c in depot[e.stream] && c > 0; }
  }

  /** In a state in sync a commit's first parent is the row its stream stands at, in a merge as in a plain commit. */
  lemma FirstParentIsLast(t: Tables, depot: Depot, e: SyncEvent, change: Change, made: Made)
    requires InSync(t, depot) && MadeFrom(t, e, change, made)
    ensures |made.parents| <= 2
    ensures made.parents != [] ==>
      e.stream in t.synced && made.parents[0] != "" && IsRow(t, t.synced[e.stream].cl, e.stream, made.parents[0])
    ensures made.parents == [] && e.stream in t.synced ==> IsRow(t, t.synced[e.stream].cl, e.stream, "")
    ensures |made.parents| == 2 ==>
      change.integrates && change.source.Some? && made.parents[1] != ""
      && exists s: Stream :: IsRow(t, change.source.value, s, made.parents[1])
  {
    var source :| SourceSha(t, change, source) && made.parents == Parents(ParentSha(t, e.stream), source);
    if e.stream in t.synced { assert t.synced[e.stream].cl in depot[e.stream]; }
    if |made.parents| == 2 {
      var s: Stream :| (change.source.value, s) in t.commits && t.commits[(change.source.value, s)].sha == source.value;
      assert IsRow(t, change.source.value, s, made.parents[1]);
    }
  }

  lemma FollowsItsStream(t: Tables, depot: Depot, e: SyncEvent, change: Change, made: Made, t': Tables)
    requires InSync(t, depot) && NothingBelow(t, depot, e.cl)
    requires e.stream in t.registry && e.cl > LastSynced(t, e.stream)
    requires MadeFrom(t, e, change, made) && Extends(t, t') && IsRow(t', made.cl, made.stream, made.sha)
    ensures Follows(t', depot, change, made)
  {
    FirstParentIsLast(t, depot, e, change, made);
    forall c: CL
      ensures IsPrevious(depot, e.stream, c, e.cl) <==> e.stream in t.synced && c == t.synced[e.stream].cl
    {
      StandsAtPrevious(t, depot, e, c);
    }
    assert made.cl == e.cl && made.stream == e.stream;
    hide InSync, NothingBelow, IsPrevious, MadeFrom;
    if made.parents != [] { assert IsPrevious(depot, e.stream, t.synced[e.stream].cl, e.cl); }
    if |made.parents| == 2 {
      var s: Stream :| IsRow(t, change.source.value, s, made.parents[1]);
      assert IsRow(t', change.source.value, s, made.parents[1]);
    }
  }

  lemma StillFollows(t: Tables, t': Tables, depot: Depot, change: Change, made: Made)
    requires Follows(t, depot, change, made) && Extends(t, t')
    ensures Follows(t', depot, change, made)
  {
    hide IsPrevious;
    if |made.parents| == 2 {
      var s: Stream :| IsRow(t, change.source.value, s, made.parents[1]);
      assert IsRow(t', change.source.value, s, made.parents[1]);
    }
  }

  lemma SourceIsFound(t: Tables, depot: Depot, e: SyncEvent, change: Change, made: Made)
    requires NothingBelow(t, depot, e.cl) && MadeFrom(t, e, change, made)
    ensures MergesItsSource(t, depot, change, made)
  {
    var source :| SourceSha(t, change, source) && made.parents == Parents(ParentSha(t, e.stream), source);
    if change.integrates && change.source.Some? && change.source.value < made.cl {
      var m := change.source.value;
      if s: Stream :| s in t.registry && Has(depot, s, m) {
        assert (m, s) in t.commits;
        assert IsShaOf(t, m, source);
        assert source.Some?;
        var r: Stream :| (m, r) in t.commits && t.commits[(m, r)].sha == source.value;
        if made.parents != [] && source.value != "" {
          assert made.parents == [ParentSha(t, e.stream).value, source.value];
          assert IsRow(t, m, r, made.parents[1]);
        }
      }
    }
  }

  lemma StillMerges(t: Tables, t': Tables, depot: Depot, change: Change, made: Made)
    requires MergesItsSource(t, depot, change, made) && Extends(t, t')
    ensures MergesItsSource(t', depot, change, made)
  {
    if change.source.Some? && |made.parents| == 2 {
      var m, p := change.source.value, made.parents[1];
      if s: Stream :| IsRow(t, m, s, p) { assert IsRow(t', m, s, p); }
    }
  }

  ghost predicate AllMerge(t: Tables, depot: Depot, describe: Describe, log: seq<Made>) {
    forall m | m in log ::
      MergesItsSource(t, depot, describe(m.cl, m.stream), m) && Follows(t, depot, describe(m.cl, m.stream), m)
  }

  lemma {:induction false} AllStillMerge(t: Tables, t': Tables, depot: Depot, describe: Describe, log: seq<Made>)
    requires AllMerge(t, depot, describe, log) && Extends(t, t')
    ensures AllMerge(t', depot, describe, log)
  {
    hide MergesItsSource, Follows, Extends;
    forall m | m in log
      ensures MergesItsSource(t', depot, describe(m.cl, m.stream), m) && Follows(t', depot, describe(m.cl, m.stream), m)
    {
      StillMerges(t, t', depot, describe(m.cl, m.stream), m);
      StillFollows(t, t', depot, describe(m.cl, m.stream), m);
    }
  }

  /** Every real commit recorded between two states is in the log. */
  ghost predicate Logged(t: Tables, t': Tables, log: seq<Made>) {
    forall c: CL, s: Stream | (c, s) in t'.commits && (c, s) !in t.commits && t'.commits[(c, s)].sha != "" ::
      InLog(log, c, s, t'.commits[(c, s)].sha)
  }

  ghost predicate InLog(log: seq<Made>, c: CL, s: Stream, sha: Sha) {
    exists m :: m in log && m.cl == c && m.stream == s && m.sha == sha
  }

  lemma LoggedFurther(a: Tables, b: Tables, c: Tables, log: seq<Made>, made: Option<Made>)
    requires Logged(a, b, log) && Logged(b, c, if made.Some? then [made.value] else []) && Extends(b, c)
    ensures Logged(a, c, if made.Some? then log + [made.value] else log)
  {
    var log' := if made.Some? then log + [made.value] else log;
    forall cl: CL, s: Stream | (cl, s) in c.commits && (cl, s) !in a.commits && c.commits[(cl, s)].sha != ""
      ensures InLog(log', cl, s, c.commits[(cl, s)].sha)
    {
      var sha := c.commits[(cl, s)].sha;
      if (cl, s) in b.commits {
        assert InLog(log, cl, s, sha);
        var m :| m in log && m.cl == cl && m.stream == s && m.sha == sha;
        assert m in log';
      } else {
        assert made.Some?;
        assert made.value in log';
      }
    }
  }

  lemma OneLogged(t: Tables, e: SyncEvent, change: Change, attempt: Attempt, made: Option<Made>)
    requires made.Some? <==> e.Changelist? && Succeeds(t, e, change, attempt) && !change.isEmpty
    requires made.Some? ==> made.value.cl == e.cl && made.value.stream == e.stream && made.value.sha == attempt.sha
    ensures Logged(t, Handled(t, e, change, attempt), if made.Some? then [made.value] else [])
  {
    var log := if made.Some? then [made.value] else [];
    if made.Some? { assert made.value in log; }
  }

  method HandleEvent(store: StateStore, e: SyncEvent, change: Change, attempt: Attempt, ghost depot: Depot,
                     ghost rest: seq<SyncEvent>)
    returns (ok: bool, made: Option<Made>)
    requires InSync(store.Contents(), depot) && Ahead(store.Contents(), depot, rest) && rest != [] && rest[0] == e
    modifies store
    ensures store.Contents() == Handled(old(store.Contents()), e, change, attempt)
    ensures ok <==> GoesOn(old(store.Contents()), e, change, attempt)
    ensures InSync(store.Contents(), depot) && Extends(old(store.Contents()), store.Contents())
    ensures ok ==> Ahead(store.Contents(), depot, rest[1..])
    ensures made.Some? ==> made.value.cl == e.cl && made.value.stream == e.stream
    ensures made.Some? ==> MergesItsSource(store.Contents(), depot, change, made.value)
    ensures made.Some? ==> Follows(store.Contents(), depot, change, made.value)
    ensures Logged(old(store.Contents()), store.Contents(), if made.Some? then [made.value] else [])
  {
    hide InSync, Ahead, Extends, MergesItsSource, Follows, NothingBelow, Handled, Logged, IsRow, MadeFrom;
    ghost var t := store.Contents();
    HandledKeeps(t, depot, rest, change, attempt);
    made := None;
    if e.BranchCreate? {
      var start;
      ok, start := HandleBranchCreate(store, e, change, attempt);
      NothingRecorded(t, e, change, attempt);
    } else {
      ok, made := HandleChangelist(store, e, change, attempt);
      if made.Some? {
        FirstIsSmallest(t, depot, rest);
        SourceIsFound(t, depot, e, change, made.value);
        StillMerges(t, store.Contents(), depot, change, made.value);
        FirstIsAhead(t, depot, rest);
        MadeIsOf(t, e, change, made.value);
        FollowsItsStream(t, depot, e, change, made.value, store.Contents());
      }
    }
    OneLogged(t, e, change, attempt, made);
  }

  lemma FirstIsAhead(t: Tables, depot: Depot, rest: seq<SyncEvent>)
    requires Ahead(t, depot, rest) && rest != [] && rest[0].Changelist?
    ensures rest[0].stream in t.registry && rest[0].cl > LastSynced(t, rest[0].stream)
  {
    assert rest[0] in rest;
  }

  lemma MadeIsOf(t: Tables, e: SyncEvent, change: Change, made: Made)
    requires MadeFrom(t, e, change, made)
    ensures made.cl == e.cl && made.stream == e.stream
  {
  }

  lemma NothingRecorded(t: Tables, e: SyncEvent, change: Change, attempt: Attempt)
    requires e.BranchCreate?
    ensures Handled(t, e, change, attempt) == t
  {
  }

  lemma NothingLogged(t: Tables)
    ensures Logged(t, t, [])
  {
  }

  /** Handle collected events in order until one fails. */
  method ProcessEvents(store: StateStore, events: seq<SyncEvent>, describe: Describe, luck: Luck,
                       ghost depot: Depot, ghost all: seq<SyncEvent>)
    returns (log: seq<Made>)
    requires InSync(store.Contents(), depot) && Ahead(store.Contents(), depot, all) && events <= all
    modifies store
    ensures store.Contents() == Processed(old(store.Contents()), events, describe, luck)
    ensures AllMerge(store.Contents(), depot, describe, log)
    ensures Logged(old(store.Contents()), store.Contents(), log)
  {
    hide InSync, Ahead, Extends, Handled, MergesItsSource, Follows, GoesOn, Logged;
    NothingLogged(store.Contents());
    ghost var t := store.Contents();
    log := [];
    var i := 0;
    while i < |events|
      invariant i <= |events|
      invariant InSync(store.Contents(), depot) && Ahead(store.Contents(), depot, all[i..])
      invariant Processed(t, events, describe, luck) == Processed(store.Contents(), events[i..], describe, luck)
      invariant AllMerge(store.Contents(), depot, describe, log)
      invariant Logged(t, store.Contents(), log)
    {
      var e := events[i];
      ghost var before := store.Contents();
      assert events[i..][0] == e && events[i..][1..] == events[i + 1..] && all[i..][1..] == all[i + 1..];
      var ok, made := HandleEvent(store, e, describe(e.cl, e.stream), luck(e), depot, all[i..]);
      AllStillMerge(before, store.Contents(), depot, describe, log);
      LoggedFurther(t, before, store.Contents(), log, made);
      if made.Some? { log := log + [made.value]; }
      if !ok { return; }
      i := i + 1;
    }
  }

  /** One round: collect a batch in global order and handle it up to the first failure. Every
      integration whose source this loop has committed becomes a merge with it. */
  method PollAndSync(store: StateStore, depot: Depot, batchSize: nat, describe: Describe, luck: Luck)
    returns (log: seq<Made>)
    requires InSync(store.Contents(), depot)
    modifies store
    ensures Round(old(store.Contents()), depot, batchSize, describe, luck, store.Contents())
    ensures AllMerge(store.Contents(), depot, describe, log)
    ensures Logged(old(store.Contents()), store.Contents(), log)
  {
    hide IsOwed, Sorted, NoRepeats;
    var events := Collect(store, depot, batchSize);
    ghost var t := store.Contents();
    ghost var all :| Queue(t, depot, all) && events == all[..Min(batchSize, |all|)];
    QueueIsAhead(t, depot, all);
    log := ProcessEvents(store, events, describe, luck, depot, all);
  }

  ghost predicate Round(t: Tables, depot: Depot, batchSize: nat, describe: Describe, luck: Luck, t': Tables) {
    exists events :: IsBatch(t, depot, batchSize, events) && t' == Processed(t, events, describe, luck)
  }

  lemma {:induction false} RoundKeeps(t: Tables, depot: Depot, batchSize: nat, describe: Describe, luck: Luck,
                                      t': Tables)
    requires InSync(t, depot) && Round(t, depot, batchSize, describe, luck, t')
    ensures InSync(t', depot) && Extends(t, t')
  {
    hide InSync, Extends, Queue, Ahead, Processed;
    var events :| IsBatch(t, depot, batchSize, events) && t' == Processed(t, events, describe, luck);
    var all :| Queue(t, depot, all) && events == all[..Min(batchSize, |all|)];
    QueueIsAhead(t, depot, all);
    ProcessedKeeps(t, depot, all, Min(batchSize, |all|), describe, luck);
  }
}
