/** Many polling rounds: what every run keeps, and when a backlog is worked off. */
module MultiStreamRuns {
  import opened Options
  import opened Text
  import opened Unique
  import opened StateStores
  import opened SyncEvents
  import opened MultiStream

  // ---------- Runs ----------

  datatype World = World(tables: Tables, depot: Depot)

  /** Between rounds, users submit changelists and streams are registered. */
  datatype Event =
    | Submit(cl: CL, streams: set<Stream>)
    | Register(mapping: StreamMapping)
    | Poll(batchSize: nat, describe: Describe, luck: Luck)

  /** Perforce numbers a new changelist above all earlier ones. */
  ghost predicate NewNumber(depot: Depot, cl: CL) { cl > 0 && forall s: Stream, c: CL | Has(depot, s, c) :: c < cl }

  ghost function Submitted(depot: Depot, cl: CL, streams: set<Stream>): Depot {
    map s | s in depot.Keys + streams :: (if s in depot then depot[s] else []) + if s in streams then [cl] else []
  }

  ghost predicate Step(w: World, e: Event, w': World) {
    match e
    case Submit(cl, streams) => NewNumber(w.depot, cl) && w' == w.(depot := Submitted(w.depot, cl, streams))
    case Register(m) => w' == w.(tables := w.tables.(registry := w.tables.registry[m.stream := m]))
    case Poll(batchSize, describe, luck) =>
      w'.depot == w.depot && Round(w.tables, w.depot, batchSize, describe, luck, w'.tables)
  }

  ghost predicate Run(ws: seq<World>, es: seq<Event>) {
    && |ws| == |es| + 1
    && ws[0].tables == Tables(map[], map[], map[], map[], map[]) && Numbered(ws[0].depot)
    && forall i | 0 <= i < |es| :: Step(ws[i], es[i], ws[i + 1])
  }

  lemma OneMoreAscends(cls: seq<CL>, cl: CL)
    requires Ascending(cls) && cl > 0 && forall c | c in cls :: c < cl
    ensures Ascending(cls + [cl])
  {
    forall i | 0 <= i < |cls| ensures cls[i] < cl { assert cls[i] in cls; }
  }

  lemma SubmitKeeps(t: Tables, depot: Depot, cl: CL, streams: set<Stream>)
    requires InSync(t, depot) && NewNumber(depot, cl)
    ensures InSync(t, Submitted(depot, cl, streams))
  {
    var depot' := Submitted(depot, cl, streams);
    forall s: Stream, c: CL ensures Has(depot', s, c) <==> Has(depot, s, c) || (s in streams && c == cl) {
    }
    forall s | s in depot' ensures Ascending(depot'[s]) {
      forall c | s in depot && c in depot[s] ensures c < cl { assert Has(depot, s, c); }
      var cls := if s in depot then depot[s] else [];
      OneMoreAscends(cls, cl);
      assert depot'[s] == cls || depot'[s] == cls + [cl];
    }
    forall c: CL, s: Stream
      ensures (c, s) in t.commits <==> s in t.synced && Has(depot', s, c) && c <= t.synced[s].cl
    {
      if s in t.synced { assert Has(depot, s, t.synced[s].cl); }
    }
  }

  lemma {:induction false} StepKeeps(w: World, e: Event, w': World)
    requires InSync(w.tables, w.depot) && Step(w, e, w')
    ensures InSync(w'.tables, w'.depot)
    ensures forall s: Stream :: LastSynced(w.tables, s) <= LastSynced(w'.tables, s)
  {
    match e
    case Submit(cl, streams) => SubmitKeeps(w.tables, w.depot, cl, streams);
    case Register(_) =>
    case Poll(batchSize, describe, luck) => RoundKeeps(w.tables, w.depot, batchSize, describe, luck, w'.tables);
  }

  /** In every run each stream has recorded exactly its changelists up to the last one synced. */
  lemma {:induction false} EveryRunInSync(ws: seq<World>, es: seq<Event>, i: nat)
    requires Run(ws, es) && i < |ws|
    ensures InSync(ws[i].tables, ws[i].depot)
  {
    hide InSync, Step;
    if i == 0 {
      EmptyInSync(ws[0].depot);
    } else {
      EveryRunInSync(ws, es, i - 1);
      StepKeeps(ws[i - 1], es[i - 1], ws[i]);
    }
  }

  lemma EmptyInSync(depot: Depot)
    requires Numbered(depot)
    ensures InSync(Tables(map[], map[], map[], map[], map[]), depot)
  {
  }

  /** The last synced changelist of a stream never goes down. */
  lemma {:induction false} LastNeverDecreases(ws: seq<World>, es: seq<Event>, i: nat, k: nat, s: Stream)
    requires Run(ws, es) && i <= k < |ws|
    ensures LastSynced(ws[i].tables, s) <= LastSynced(ws[k].tables, s)
  {
    hide InSync, Step;
    if i < k {
      LastNeverDecreases(ws, es, i, k - 1, s);
      EveryRunInSync(ws, es, k - 1);
      StepKeeps(ws[k - 1], es[k - 1], ws[k]);
    }
  }

  // ---------- The backlog ----------

  ghost function Backlog(t: Tables, depot: Depot): set<(CL, Stream)> {
    set s, c | s in t.registry && s in depot && c in depot[s] && c > LastSynced(t, s) :: (c, s)
  }

  /** Children never synced: they announce their branch again in every round. */
  ghost function Orphans(t: Tables): set<Stream> {
    set s | s in t.registry && s !in t.synced && ParentOf(t.registry[s]).Some?
  }

  ghost predicate NothingFails(t: Tables, events: seq<SyncEvent>, describe: Describe, luck: Luck)
    decreases |events|
  {
    events == [] ||
    var e := events[0];
    var change := describe(e.cl, e.stream);
    GoesOn(t, e, change, luck(e)) && NothingFails(Handled(t, e, change, luck(e)), events[1..], describe, luck)
  }

  ghost predicate SomeChangelist(events: seq<SyncEvent>) { exists e :: e in events && e.Changelist? }

  lemma {:induction false} OnlyBranches(t: Tables, events: seq<SyncEvent>, describe: Describe, luck: Luck)
    requires !SomeChangelist(events)
    ensures Processed(t, events, describe, luck) == t
    decreases |events|
  {
    if events != [] {
      assert events[0] in events && forall e | e in events[1..] :: e in events;
      OnlyBranches(t, events[1..], describe, luck);
    }
  }

  lemma GoneOnSucceeds(t: Tables, e: SyncEvent, change: Change, attempt: Attempt)
    requires GoesOn(t, e, change, attempt)
    ensures e.BranchCreate? || Succeeds(t, e, change, attempt)
  {
  }

  lemma HandledMovesUp(t: Tables, e: SyncEvent, change: Change, attempt: Attempt)
    requires e.Changelist? && Succeeds(t, e, change, attempt)
    ensures LastSynced(Handled(t, e, change, attempt), e.stream) == e.cl
  {
  }

  /** A round without failures syncs every changelist of its batch. */
  lemma {:induction false} BatchIsSynced(t: Tables, depot: Depot, rest: seq<SyncEvent>, n: nat,
          describe: Describe, luck: Luck, e: SyncEvent)
    requires InSync(t, depot) && Ahead(t, depot, rest) && n <= |rest|
    requires NothingFails(t, rest[..n], describe, luck) && e in rest[..n] && e.Changelist?
    ensures LastSynced(Processed(t, rest[..n], describe, luck), e.stream) >= e.cl
    decreases n
  {
    hide InSync, Ahead, Handled, GoesOn, Succeeds;
    var first := rest[0];
    var t' := Handled(t, first, describe(first.cl, first.stream), luck(first));
    assert rest[..n][0] == first && rest[..n][1..] == rest[1..][..n - 1];
    HandledKeeps(t, depot, rest, describe(first.cl, first.stream), luck(first));
    GoneOnSucceeds(t, first, describe(first.cl, first.stream), luck(first));
    if e == first {
      HandledMovesUp(t, e, describe(e.cl, e.stream), luck(e));
      ProcessedKeeps(t', depot, rest[1..], n - 1, describe, luck);
    } else {
      assert rest[..n] == [first] + rest[1..][..n - 1];
      BatchIsSynced(t', depot, rest[1..], n - 1, describe, luck, e);
    }
  }

  lemma FewerAhead(t: Tables, t': Tables, depot: Depot)
    requires Extends(t, t')
    ensures Backlog(t', depot) <= Backlog(t, depot) && |Backlog(t', depot)| <= |Backlog(t, depot)|
  {
    var b, b' := Backlog(t, depot), Backlog(t', depot);
    assert b == b' + (b - b');
  }

  lemma EventInBacklog(t: Tables, t': Tables, depot: Depot, all: seq<SyncEvent>, e: SyncEvent)
    requires Queue(t, depot, all) && e in all && e.Changelist? && LastSynced(t', e.stream) >= e.cl
    ensures (e.cl, e.stream) in Backlog(t, depot) && (e.cl, e.stream) !in Backlog(t', depot)
  {
    assert IsOwed(t, depot, e);
  }

  /** Without failures, a round shrinks the backlog exactly when a changelist is among its batch. */
  lemma {:induction false} ShrinksExactly(t: Tables, depot: Depot, batchSize: nat, all: seq<SyncEvent>,
          describe: Describe, luck: Luck)
    requires InSync(t, depot) && Queue(t, depot, all)
    requires NothingFails(t, all[..Min(batchSize, |all|)], describe, luck)
    ensures var events := all[..Min(batchSize, |all|)];
            |Backlog(Processed(t, events, describe, luck), depot)| < |Backlog(t, depot)| <==> SomeChangelist(events)
  {
    hide InSync, Queue, Backlog, NothingFails, Processed, Extends, Ahead;
    var n := Min(batchSize, |all|);
    var t' := Processed(t, all[..n], describe, luck);
    if SomeChangelist(all[..n]) {
      var e :| e in all[..n] && e.Changelist?;
      QueueIsAhead(t, depot, all);
      ProcessedKeeps(t, depot, all, n, describe, luck);
      BatchIsSynced(t, depot, all, n, describe, luck, e);
      FewerAhead(t, t', depot);
      EventInBacklog(t, t', depot, all, e);
      Strictly(Backlog(t', depot), Backlog(t, depot), (e.cl, e.stream));
    } else {
      OnlyBranches(t, all[..n], describe, luck);
    }
  }

  lemma Strictly<T>(a: set<T>, b: set<T>, x: T)
    requires a <= b && x in b && x !in a
    ensures |a| < |b|
  {
    assert b == a + (b - a) && x in b - a;
  }

  ghost function StreamsOf(es: seq<SyncEvent>): (r: set<Stream>)
    ensures forall s :: s in r <==> exists e :: e in es && e.stream == s
  {
    if es == [] then {}
    else
      assert es == es[..|es| - 1] + [es[|es| - 1]];
      StreamsOf(es[..|es| - 1]) + {es[|es| - 1].stream}
  }

  /** Branch announcements of one round come from different streams. */
  lemma {:induction false} BranchesFit(t: Tables, depot: Depot, es: seq<SyncEvent>)
    requires NoRepeats(es) && (forall e | e in es :: IsOwed(t, depot, e)) && !SomeChangelist(es)
    ensures |es| <= |Orphans(t)|
  {
    StreamsCounted(t, depot, es);
    forall s | s in StreamsOf(es) ensures s in Orphans(t) {
      var e :| e in es && e.stream == s;
      assert IsOwed(t, depot, e);
    }
    assert Orphans(t) == StreamsOf(es) + (Orphans(t) - StreamsOf(es));
  }

  lemma BranchesDiffer(t: Tables, depot: Depot, es: seq<SyncEvent>)
    requires NoRepeats(es) && (forall e | e in es :: IsOwed(t, depot, e)) && !SomeChangelist(es) && es != []
    ensures es[|es| - 1].stream !in StreamsOf(es[..|es| - 1])
  {
    hide StreamsOf;
    var k := |es| - 1;
    forall e | e in es[..k] ensures e.stream != es[k].stream {
      var i :| 0 <= i < k && es[..k][i] == e;
      assert es[i] in es && es[k] in es && es[i] != es[k];
    }
  }

  lemma {:induction false} StreamsCounted(t: Tables, depot: Depot, es: seq<SyncEvent>)
    requires NoRepeats(es) && (forall e | e in es :: IsOwed(t, depot, e)) && !SomeChangelist(es)
    ensures |StreamsOf(es)| == |es|
  {
    hide IsOwed;
    if es != [] {
      var k := |es| - 1;
      assert forall e | e in es[..k] :: e in es;
      StreamsCounted(t, depot, es[..k]);
      BranchesDiffer(t, depot, es);
      assert StreamsOf(es) == StreamsOf(es[..k]) + {es[k].stream};
    }
  }

  /** A batch larger than the number of never-synced children always reaches a changelist. */
  lemma LargeBatchReaches(t: Tables, depot: Depot, batchSize: nat, all: seq<SyncEvent>)
    requires Queue(t, depot, all) && batchSize > |Orphans(t)| && Backlog(t, depot) != {}
    ensures SomeChangelist(all[..Min(batchSize, |all|)])
  {
    hide IsOwed;
    var events := all[..Min(batchSize, |all|)];
    var x :| x in Backlog(t, depot);
    OwedInBacklog(t, depot, x);
    assert Changelist(x.0, x.1, t.registry[x.1].branch) in all;
    if !SomeChangelist(events) {
      assert forall e | e in events :: e in all;
      BranchesFit(t, depot, events);
    }
  }

  lemma OwedInBacklog(t: Tables, depot: Depot, x: (CL, Stream))
    requires x in Backlog(t, depot)
    ensures IsOwed(t, depot, Changelist(x.0, x.1, t.registry[x.1].branch))
  {
  }

  /** A round in which nothing fails. */
  ghost predicate GoodRound(t: Tables, depot: Depot, batchSize: nat, describe: Describe, luck: Luck, t': Tables) {
    exists events :: IsBatch(t, depot, batchSize, events) && NothingFails(t, events, describe, luck)
                     && t' == Processed(t, events, describe, luck)
  }

  lemma {:induction false} GoodRoundShrinks(t: Tables, depot: Depot, batchSize: nat, describe: Describe,
          luck: Luck, t': Tables)
    requires InSync(t, depot) && GoodRound(t, depot, batchSize, describe, luck, t') && batchSize > |Orphans(t)|
    ensures InSync(t', depot) && Extends(t, t') && |Orphans(t')| <= |Orphans(t)|
    ensures |Backlog(t', depot)| < |Backlog(t, depot)| || Backlog(t', depot) == Backlog(t, depot) == {}
  {
    hide InSync, Queue, NothingFails, Processed, Ahead;
    var events :| IsBatch(t, depot, batchSize, events) && NothingFails(t, events, describe, luck)
                  && t' == Processed(t, events, describe, luck);
    var all :| Queue(t, depot, all) && events == all[..Min(batchSize, |all|)];
    assert Round(t, depot, batchSize, describe, luck, t');
    RoundKeeps(t, depot, batchSize, describe, luck, t');
    SyncedStays(t, t', depot);
    assert Orphans(t) == Orphans(t') + (Orphans(t) - Orphans(t'));
    FewerAhead(t, t', depot);
    if Backlog(t, depot) != {} {
      LargeBatchReaches(t, depot, batchSize, all);
      ShrinksExactly(t, depot, batchSize, all, describe, luck);
    }
  }

  lemma SyncedStays(t: Tables, t': Tables, depot: Depot)
    requires InSync(t, depot) && InSync(t', depot) && Extends(t, t')
    ensures Orphans(t') <= Orphans(t)
  {
    forall s | s in t.synced ensures s in t'.synced {
      assert Has(depot, s, t.synced[s].cl) && t.synced[s].cl in depot[s] && t.synced[s].cl > 0;
      assert LastSynced(t, s) <= LastSynced(t', s);
    }
  }

  /** With a batch larger than the number of never-synced children, a fixed backlog is worked off in
      at most as many failure-free rounds as it has changelists. */
  lemma {:induction false} BacklogDrains(ts: seq<Tables>, depot: Depot, batchSize: nat, describe: Describe,
          lucks: seq<Luck>)
    requires |ts| == |lucks| + 1 && InSync(ts[0], depot) && batchSize > |Orphans(ts[0])|
    requires forall i | 0 <= i < |lucks| :: GoodRound(ts[i], depot, batchSize, describe, lucks[i], ts[i + 1])
    requires |lucks| >= |Backlog(ts[0], depot)|
    ensures Backlog(ts[|lucks|], depot) == {}
    decreases |lucks|
  {
    hide InSync, GoodRound, Extends, Backlog, Orphans;
    if lucks != [] {
      GoodRoundShrinks(ts[0], depot, batchSize, describe, lucks[0], ts[1]);
      forall i | 0 <= i < |lucks| - 1
        ensures GoodRound(ts[1..][i], depot, batchSize, describe, lucks[1..][i], ts[1..][i + 1])
      {
        assert GoodRound(ts[i + 1], depot, batchSize, describe, lucks[i + 1], ts[i + 2]);
      }
      BacklogDrains(ts[1..], depot, batchSize, describe, lucks[1..]);
    }
  }

  // ---------- When no round can help ----------

  /** A batch of nothing but branch announcements changes nothing, and the next round collects it again. */
  lemma {:induction false} SmallBatchStarves(t: Tables, depot: Depot, batchSize: nat, all: seq<SyncEvent>,
          describe: Describe, luck: Luck)
    requires Queue(t, depot, all) && !SomeChangelist(all[..Min(batchSize, |all|)])
    ensures Processed(t, all[..Min(batchSize, |all|)], describe, luck) == t
  {
    OnlyBranches(t, all[..Min(batchSize, |all|)], describe, luck);
  }

  /** A branch point is found exactly when the parent has been synced. */
  lemma BranchPointFoundExactly(t: Tables, depot: Depot, e: SyncEvent)
    requires InSync(t, depot) && e.BranchCreate?
    ensures BranchPointFound(t, e) <==> e.parentStream in t.synced
  {
    if e.parentStream in t.synced { assert (t.synced[e.parentStream].cl, e.parentStream) in t.commits; }
  }

  /** Nothing outside fails. */
  ghost predicate OutsideIsWell(events: seq<SyncEvent>, luck: Luck) {
    forall e | e in events :: luck(e).Makes? && luck(e).cleansUp
  }

  /** The parent has been synced, and the branch exists or would not start at a blank commit. */
  ghost predicate CanBranch(t: Tables, e: SyncEvent, exists_: bool)
    requires e.BranchCreate?
  {
    e.parentStream in t.synced && (exists_ || !StartsBlank(t, e))
  }

  /** The commit has a parent, or nothing forbids one without. */
  predicate CanCommit(t: Tables, e: SyncEvent, describe: Describe, luck: Luck) {
    !Refused(t, e, describe(e.cl, e.stream), luck(e))
  }

  predicate BranchExists(attempt: Attempt) { attempt.Makes? && attempt.branchExists }

  /** The first changelist can be committed, and the branches of the children announced before it can be made. */
  ghost predicate Reaches(t: Tables, events: seq<SyncEvent>, describe: Describe, luck: Luck) {
    exists i: nat :: ReachesAt(t, events, describe, luck, i)
  }

  ghost predicate ReachesAt(t: Tables, events: seq<SyncEvent>, describe: Describe, luck: Luck, i: nat) {
    && i < |events| && events[i].Changelist? && CanCommit(t, events[i], describe, luck)
    && forall k: nat | k < i :: events[k].BranchCreate? && CanBranch(t, events[k], BranchExists(luck(events[k])))
  }

  lemma {:induction false} ReachesLater(t: Tables, events: seq<SyncEvent>, describe: Describe, luck: Luck)
    requires events != [] && events[0].BranchCreate?
    ensures Reaches(t, events, describe, luck)
        <==> CanBranch(t, events[0], BranchExists(luck(events[0]))) && Reaches(t, events[1..], describe, luck)
  {
    if Reaches(t, events, describe, luck) {
      var i: nat :| ReachesAt(t, events, describe, luck, i);
      assert ReachesAt(t, events[1..], describe, luck, i - 1);
    }
    if CanBranch(t, events[0], BranchExists(luck(events[0]))) && Reaches(t, events[1..], describe, luck) {
      var i: nat :| ReachesAt(t, events[1..], describe, luck, i);
      assert forall k: nat | 0 < k <= i :: events[k] == events[1..][k - 1];
      assert ReachesAt(t, events, describe, luck, i + 1);
    }
  }

  /** A round that reaches no changelist changes nothing. */
  lemma {:induction false} UnreachedStays(t: Tables, depot: Depot, events: seq<SyncEvent>, describe: Describe,
                                          luck: Luck)
    requires InSync(t, depot) && !Reaches(t, events, describe, luck)
    ensures Processed(t, events, describe, luck) == t
    decreases |events|
  {
    hide InSync, Reaches, BranchPointFound;
    if events != [] {
      if events[0].BranchCreate? {
        ReachesLater(t, events, describe, luck);
        BranchPointFoundExactly(t, depot, events[0]);
        if CanBranch(t, events[0], BranchExists(luck(events[0]))) {
          UnreachedStays(t, depot, events[1..], describe, luck);
        }
      } else {
        ReachesFirst(t, events, describe, luck);
      }
    }
  }

  lemma ReachesFirst(t: Tables, events: seq<SyncEvent>, describe: Describe, luck: Luck)
    requires events != [] && events[0].Changelist?
    ensures Reaches(t, events, describe, luck) <==> CanCommit(t, events[0], describe, luck)
  {
    if CanCommit(t, events[0], describe, luck) { assert ReachesAt(t, events, describe, luck, 0); }
  }

  /** A round that reaches a changelist syncs it, unless something outside fails. */
  lemma {:induction false} ReachedIsSynced(t: Tables, depot: Depot, rest: seq<SyncEvent>, n: nat,
          describe: Describe, luck: Luck) returns (e: SyncEvent)
    requires InSync(t, depot) && Ahead(t, depot, rest) && n <= |rest|
    requires OutsideIsWell(rest[..n], luck) && Reaches(t, rest[..n], describe, luck)
    ensures e in rest[..n] && e.Changelist? && LastSynced(Processed(t, rest[..n], describe, luck), e.stream) >= e.cl
    decreases n
  {
    hide InSync, Ahead, Handled, BranchPointFound, Reaches;
    ReachesSomething(t, rest[..n], describe, luck);
    var first := rest[0];
    var t' := Handled(t, first, describe(first.cl, first.stream), luck(first));
    assert rest[..n][0] == first && rest[..n][1..] == rest[1..][..n - 1];
    assert rest[..n] == [first] + rest[1..][..n - 1];
    HandledKeeps(t, depot, rest, describe(first.cl, first.stream), luck(first));
    if first.Changelist? {
      e := first;
      ReachesFirst(t, rest[..n], describe, luck);
      HandledMovesUp(t, e, describe(e.cl, e.stream), luck(e));
      ProcessedKeeps(t', depot, rest[1..], n - 1, describe, luck);
    } else {
      ReachesLater(t, rest[..n], describe, luck);
      BranchPointFoundExactly(t, depot, first);
      NothingRecorded(t, first, describe(first.cl, first.stream), luck(first));
      e := ReachedIsSynced(t, depot, rest[1..], n - 1, describe, luck);
    }
  }

  lemma ReachesSomething(t: Tables, events: seq<SyncEvent>, describe: Describe, luck: Luck)
    requires Reaches(t, events, describe, luck)
    ensures events != []
  {
  }

  /** When nothing outside fails, a round shrinks the backlog exactly when the first changelist of its batch
      can be committed, and the branches of all children announced before it can be made: a parent was
      synced, and the branch exists already or does not start at a blank commit. */
  lemma {:induction false} ProgressExactly(t: Tables, depot: Depot, batchSize: nat, all: seq<SyncEvent>,
          describe: Describe, luck: Luck)
    requires InSync(t, depot) && Queue(t, depot, all)
    requires OutsideIsWell(all[..Min(batchSize, |all|)], luck)
    ensures var events := all[..Min(batchSize, |all|)];
            |Backlog(Processed(t, events, describe, luck), depot)| < |Backlog(t, depot)|
            <==> Reaches(t, events, describe, luck)
  {
    hide InSync, Queue, Backlog, Processed, Extends, Ahead, Reaches, OutsideIsWell;
    var n := Min(batchSize, |all|);
    var t' := Processed(t, all[..n], describe, luck);
    if Reaches(t, all[..n], describe, luck) {
      QueueIsAhead(t, depot, all);
      ProcessedKeeps(t, depot, all, n, describe, luck);
      var e := ReachedIsSynced(t, depot, all, n, describe, luck);
      FewerAhead(t, t', depot);
      EventInBacklog(t, t', depot, all, e);
      Strictly(Backlog(t', depot), Backlog(t, depot), (e.cl, e.stream));
    } else {
      UnreachedStays(t, depot, all[..n], describe, luck);
    }
  }

  ghost predicate Blocks(t: Tables, e: SyncEvent, describe: Describe, luck: Luck) {
    if e.BranchCreate? then !CanBranch(t, e, BranchExists(luck(e))) else !CanCommit(t, e, describe, luck)
  }

  /** A child whose branch cannot be made ahead of every changelist, or a first changelist that the Git
      library refuses, blocks every stream in every round, whatever happens outside. */
  lemma {:induction false} FirstBlocks(t: Tables, depot: Depot, batchSize: nat, all: seq<SyncEvent>,
          i: nat, describe: Describe, luck: Luck)
    requires InSync(t, depot) && Queue(t, depot, all) && i < |all| && Blocks(t, all[i], describe, luck)
    requires forall k: nat | k < i :: all[k].BranchCreate?
    ensures Processed(t, all[..Min(batchSize, |all|)], describe, luck) == t
  {
    hide CanBranch, CanCommit;
    var events := all[..Min(batchSize, |all|)];
    forall m: nat ensures !ReachesAt(t, events, describe, luck, m) {
      assert i < |events| ==> events[i] == all[i];
    }
    UnreachedStays(t, depot, events, describe, luck);
  }

  /** A registered main stream with one changelist, and a child of it without a branch point. */
  ghost function JustRegistered(main: Stream, dev: Stream): Tables {
    Tables(map[], map[],
           map[main := StreamMapping(main, main, None, None), dev := StreamMapping(dev, dev, Some(main), None)],
           map[], map[])
  }

  lemma ChildComesFirst(main: Stream, dev: Stream, cl: CL, all: seq<SyncEvent>)
    requires main != dev && main != "" && cl > 0
    requires Queue(JustRegistered(main, dev), map[main := [cl]], all)
    ensures all != [] && all[0] == BranchCreate(0, dev, main, dev)
  {
    var t, depot := JustRegistered(main, dev), map[main := [cl]];
    var announced := BranchCreate(0, dev, main, dev);
    assert IsOwed(t, depot, announced) && announced in all;
    assert all[0] in all && IsOwed(t, depot, all[0]);
    var i :| 0 <= i < |all| && all[i] == announced;
    assert i > 0 ==> NotAfter(all[0], all[i]);
  }

  /** The smallest such state: no round ever gets to main's changelist. */
  lemma {:induction false} BlockedExample(main: Stream, dev: Stream, cl: CL, batchSize: nat,
          describe: Describe, luck: Luck, t': Tables)
    requires main != dev && main != "" && cl > 0
    requires Round(JustRegistered(main, dev), map[main := [cl]], batchSize, describe, luck, t')
    ensures t' == JustRegistered(main, dev) && (cl, main) in Backlog(t', map[main := [cl]])
  {
    var t, depot := JustRegistered(main, dev), map[main := [cl]];
    var events :| IsBatch(t, depot, batchSize, events) && t' == Processed(t, events, describe, luck);
    var all :| Queue(t, depot, all) && events == all[..Min(batchSize, |all|)];
    ChildComesFirst(main, dev, cl, all);
    JustRegisteredInSync(main, dev, cl);
    hide Queue, Processed, InSync, JustRegistered, Backlog;
    FirstBlocks(t, depot, batchSize, all, 0, describe, luck);
  }

  lemma JustRegisteredInSync(main: Stream, dev: Stream, cl: CL)
    requires main != dev && cl > 0
    ensures InSync(JustRegistered(main, dev), map[main := [cl]])
    ensures (cl, main) in Backlog(JustRegistered(main, dev), map[main := [cl]])
  {
  }

  /** Main's first changelist has been synced; then a child of main is registered. */
  ghost function JustSynced(main: Stream, dev: Stream, cl: CL, sha: Sha): Tables {
    JustRegistered(main, dev).(synced := map[main := Synced(cl, sha)],
                               commits := map[(cl, main) := Row(sha, main, P4ToGit)])
  }

  lemma JustSyncedInSync(main: Stream, dev: Stream, cl: CL, next: CL, sha: Sha)
    requires main != dev && 0 < cl < next
    ensures InSync(JustSynced(main, dev, cl, sha), map[main := [cl, next]])
    ensures InSync(JustSynced(main, dev, cl, sha), map[main := [cl], dev := [next]])
    ensures (next, main) in Backlog(JustSynced(main, dev, cl, sha), map[main := [cl, next]])
    ensures (next, dev) in Backlog(JustSynced(main, dev, cl, sha), map[main := [cl], dev := [next]])
  {
    var a, b := map[main := [cl, next]], map[main := [cl], dev := [next]];
    assert next in a[main] && a[main] == [cl, next] && b[main] == [cl] && b[dev] == [next];
  }

  lemma SyncedChildComesFirst(main: Stream, dev: Stream, cl: CL, next: CL, all: seq<SyncEvent>)
    requires main != dev && main != "" && 0 < cl < next
    requires Queue(JustSynced(main, dev, cl, ""), map[main := [cl, next]], all)
    ensures all != [] && all[0] == BranchCreate(0, dev, main, dev)
    ensures StartsBlank(JustSynced(main, dev, cl, ""), all[0])
  {
    var t, depot := JustSynced(main, dev, cl, ""), map[main := [cl, next]];
    var announced := BranchCreate(0, dev, main, dev);
    assert IsOwed(t, depot, announced) && announced in all;
    assert all[0] in all && IsOwed(t, depot, all[0]);
    var i :| 0 <= i < |all| && all[i] == announced;
    assert NotAfter(all[0], all[i]);
    assert IsLastBefore(t, main, 1, None);
  }

  /** The smallest such state: the branch of the child would start at main's blank commit, and no round
      ever gets to main's next changelist. */
  lemma {:induction false} EmptyParentExample(main: Stream, dev: Stream, cl: CL, next: CL, batchSize: nat,
          describe: Describe, luck: Luck, t': Tables)
    requires main != dev && main != "" && 0 < cl < next && forall e :: !BranchExists(luck(e))
    requires Round(JustSynced(main, dev, cl, ""), map[main := [cl, next]], batchSize, describe, luck, t')
    ensures t' == JustSynced(main, dev, cl, "") && (next, main) in Backlog(t', map[main := [cl, next]])
  {
    var t, depot := JustSynced(main, dev, cl, ""), map[main := [cl, next]];
    var events :| IsBatch(t, depot, batchSize, events) && t' == Processed(t, events, describe, luck);
    var all :| Queue(t, depot, all) && events == all[..Min(batchSize, |all|)];
    SyncedChildComesFirst(main, dev, cl, next, all);
    JustSyncedInSync(main, dev, cl, next, "");
    hide Queue, Processed, InSync, StartsBlank, JustSynced;
    FirstBlocks(t, depot, batchSize, all, 0, describe, luck);
  }

  lemma ChildThenItsChangelist(main: Stream, dev: Stream, cl: CL, next: CL, sha: CommitSha, all: seq<SyncEvent>)
    requires main != dev && main != "" && 0 < cl < next
    requires Queue(JustSynced(main, dev, cl, sha), map[main := [cl], dev := [next]], all)
    ensures |all| > 1 && all[0].BranchCreate? && all[1] == Changelist(next, dev, dev)
  {
    var t, depot := JustSynced(main, dev, cl, sha), map[main := [cl], dev := [next]];
    var announced, waiting := BranchCreate(0, dev, main, dev), Changelist(next, dev, dev);
    assert IsOwed(t, depot, announced) && announced in all && IsOwed(t, depot, waiting) && waiting in all;
    forall e | e in all ensures e in {announced, waiting} { assert IsOwed(t, depot, e); }
    var i :| 0 <= i < |all| && all[i] == announced;
    var k :| 0 <= k < |all| && all[k] == waiting;
    assert all[0] in all && !NotAfter(waiting, announced);
    assert all[1] in all;
  }

  /** The smallest state in which the Git library refuses: a child of a synced parent has its branch, and
      its first changelist has no commit of its own stream for a parent. It waits for ever. */
  lemma {:induction false} RefusedChildExample(main: Stream, dev: Stream, cl: CL, next: CL, sha: CommitSha,
          batchSize: nat, describe: Describe, luck: Luck, t': Tables)
    requires main != dev && main != "" && 0 < cl < next && !describe(next, dev).isEmpty
    requires forall e :: luck(e).Makes? && luck(e).branchExists && luck(e).strict
    requires Round(JustSynced(main, dev, cl, sha), map[main := [cl], dev := [next]], batchSize, describe, luck, t')
    ensures t' == JustSynced(main, dev, cl, sha) && (next, dev) in Backlog(t', map[main := [cl], dev := [next]])
  {
    var t, depot := JustSynced(main, dev, cl, sha), map[main := [cl], dev := [next]];
    var events :| IsBatch(t, depot, batchSize, events) && t' == Processed(t, events, describe, luck);
    var all :| Queue(t, depot, all) && events == all[..Min(batchSize, |all|)];
    ChildThenItsChangelist(main, dev, cl, next, sha, all);
    JustSyncedInSync(main, dev, cl, next, sha);
    assert Refused(t, all[1], describe(next, dev), luck(all[1]));
    hide Queue, Processed, InSync, JustSynced, Refused;
    FirstBlocks(t, depot, batchSize, all, 1, describe, luck);
  }

  /** A commit has no parent, and starts a history of its own, exactly when its stream was never synced or
      the last changelist synced was empty; so a child never continues from where it branched off. */
  lemma ParentlessExactly(t: Tables, depot: Depot, e: SyncEvent, change: Change, made: Made)
    requires InSync(t, depot) && MadeFrom(t, e, change, made)
    ensures made.parents == [] <==> e.stream !in t.synced || t.commits[(t.synced[e.stream].cl, e.stream)].sha == ""
  {
    if e.stream in t.synced { assert Has(depot, e.stream, t.synced[e.stream].cl); }
  }
}
