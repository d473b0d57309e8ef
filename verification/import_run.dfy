/** The import loop's bookkeeping: which changelist may be recorded as synced, and when. */
module ImportRun {
  import opened Options
  import opened StateStores

  /** A changelist handed to the loop; skipped when none of its files are wanted. */
  datatype Delivery = Delivery(cl: CL, skipped: bool)

  /** How writing a changelist goes: it is written; files turn out missing while it is streamed; it is
      ended by an exception; or the pipe to fast-import breaks. The second and the third leave what
      was written so far on the stream, as a commit. */
  datatype Fate = Written | Misses | Raises | Breaks

  /** How the outside answers at a changelist; endsWell is for fast-import being finished there. */
  datatype Luck = Luck(fate: Fate, endsWell: bool)

  /** A commit of a changelist, with all its files or not. */
  datatype Commit = Commit(cl: CL, whole: bool)

  /** The commits ever made, the branch from its root to its tip, and the running session. */
  class Importer {
    var made: seq<Commit>
    var branch: seq<Commit>
    var session: seq<Commit>
    var running: bool

    constructor (branch: seq<Commit>)
      ensures made == branch == this.branch && session == [] && running
    {
      made, this.branch, session, running := branch, branch, [], true;
    }

    method Start()
      modifies this
      ensures running && session == [] && branch == old(branch) && made == old(made)
    {
      running, session := true, [];
    }

    method Write(c: Commit)
      requires running
      modifies this`session
      ensures session == old(session) + [c]
    {
      session := session + [c];
    }

    /** End the session. Its first commit has no parent, so a session that ends well and made a commit
        takes the place of the branch. Without a session there is nothing to fail. */
    method Finish(endsWell: bool) returns (ok: bool)
      modifies this
      ensures !running && session == []
      ensures ok <==> endsWell || !old(running)
      ensures made == if old(running) && endsWell then old(made) + old(session) else old(made)
      ensures branch == if old(running) && endsWell && old(session) != [] then old(session) else old(branch)
    {
      ok := endsWell || !running;
      if running && endsWell {
        made := made + session;
        if session != [] { branch := session; }
      }
      running, session := false, [];
    }
  }

  ghost predicate Ascending(ds: seq<Delivery>) {
    (forall i, k | 0 <= i < k < |ds| :: ds[i].cl < ds[k].cl) && forall i | 0 <= i < |ds| :: ds[i].cl > 0
  }

  // ---------- Where the loop stops ----------

  /** The loop comes to a checkpoint after a written changelist whose place is a multiple of the interval. */
  predicate IsCheckpoint(ds: seq<Delivery>, interval: nat, i: nat)
    requires interval > 0
  {
    i < |ds| && !ds[i].skipped && (i + 1) % interval == 0
  }

  /** The changelist cannot be written, or the checkpoint after it fails. */
  predicate StopsAt(ds: seq<Delivery>, interval: nat, luck: nat -> Luck, i: nat)
    requires interval > 0 && i < |ds|
  {
    !ds[i].skipped && (!luck(i).fate.Written? || (IsCheckpoint(ds, interval, i) && !luck(i).endsWell))
  }

  /** The first place from i on at which the loop stops. */
  function StopFrom(ds: seq<Delivery>, interval: nat, luck: nat -> Luck, i: nat): (s: nat)
    requires interval > 0 && i <= |ds|
    ensures i <= s <= |ds| && (s < |ds| ==> StopsAt(ds, interval, luck, s))
    ensures forall k: nat | i <= k < s :: !StopsAt(ds, interval, luck, k)
    decreases |ds| - i
  {
    if i == |ds| || StopsAt(ds, interval, luck, i) then i else StopFrom(ds, interval, luck, i + 1)
  }

  function Stop(ds: seq<Delivery>, interval: nat, luck: nat -> Luck): (s: nat)
    requires interval > 0
    ensures s <= |ds|
  {
    StopFrom(ds, interval, luck, 0)
  }

  /** What stops the loop is a checkpoint. */
  predicate CheckpointFails(ds: seq<Delivery>, interval: nat, luck: nat -> Luck)
    requires interval > 0
  {
    var s := Stop(ds, interval, luck);
    s < |ds| && luck(s).fate.Written?
  }

  predicate EndsBy(ds: seq<Delivery>, interval: nat, luck: nat -> Luck, fate: Fate)
    requires interval > 0
  {
    var s := Stop(ds, interval, luck);
    s < |ds| && luck(s).fate == fate
  }

  // ---------- Sessions ----------

  /** Where the session that runs at place n began: behind the last checkpoint. */
  function Opened(ds: seq<Delivery>, interval: nat, n: nat): (a: nat)
    requires interval > 0
    ensures a <= n
    ensures a > 0 ==> IsCheckpoint(ds, interval, a - 1)
    ensures forall k: nat | a <= k < n :: !IsCheckpoint(ds, interval, k)
  {
    if n == 0 || IsCheckpoint(ds, interval, n - 1) then n else Opened(ds, interval, n - 1)
  }

  /** How many checkpoints there are before place n. */
  function Checkpoints(ds: seq<Delivery>, interval: nat, n: nat): nat
    requires interval > 0
  {
    if n == 0 then 0 else Checkpoints(ds, interval, n - 1) + if IsCheckpoint(ds, interval, n - 1) then 1 else 0
  }

  lemma {:induction false} LastCheckpoint(ds: seq<Delivery>, interval: nat, n: nat)
    requires interval > 0
    ensures var a := Opened(ds, interval, n);
      Checkpoints(ds, interval, n) == if a == 0 then 0 else Checkpoints(ds, interval, a - 1) + 1
  {
    if n > 0 && !IsCheckpoint(ds, interval, n - 1) { LastCheckpoint(ds, interval, n - 1); }
  }

  /** The commits of the wanted changelists from place i up to place n. */
  function Wholes(ds: seq<Delivery>, i: nat, n: nat): seq<Commit>
    requires i <= n <= |ds|
    decreases n
  {
    if i == n then []
    else Wholes(ds, i, n - 1) + if ds[n - 1].skipped then [] else [Commit(ds[n - 1].cl, true)]
  }

  /** There is a wanted changelist of this number between the places. */
  ghost predicate Between(ds: seq<Delivery>, i: nat, n: nat, cl: CL) {
    exists k: nat :: i <= k < n && k < |ds| && !ds[k].skipped && ds[k].cl == cl
  }

  lemma {:induction false} WholesAre(ds: seq<Delivery>, i: nat, n: nat, c: Commit)
    requires i <= n <= |ds|
    ensures c in Wholes(ds, i, n) <==> c.whole && Between(ds, i, n, c.cl)
    decreases n
  {
    if i < n {
      WholesAre(ds, i, n - 1, c);
      if Between(ds, i, n, c.cl) && ds[n - 1].cl != c.cl {
        var k: nat :| i <= k < n && k < |ds| && !ds[k].skipped && ds[k].cl == c.cl;
        assert k < n - 1;
      }
      if c.whole && !ds[n - 1].skipped && ds[n - 1].cl == c.cl {
        assert c == Commit(ds[n - 1].cl, true) && Between(ds, i, n, c.cl);
      }
    }
  }

  /** The last wanted changelist before place n. */
  function LastWanted(ds: seq<Delivery>, n: nat): CL
    requires n <= |ds|
  {
    if n == 0 then 0 else if ds[n - 1].skipped then LastWanted(ds, n - 1) else ds[n - 1].cl
  }

  /** What a changelist that was begun and not ended leaves on the stream. */
  function Rest(ds: seq<Delivery>, luck: nat -> Luck, s: nat): seq<Commit> {
    if s < |ds| && (luck(s).fate.Misses? || luck(s).fate.Raises?) then [Commit(ds[s].cl, false)] else []
  }

  // ---------- What a run comes to ----------

  /** The branch when the loop has come to place n: the last session but the running one, or what was there before. */
  function BranchAt(ds: seq<Delivery>, interval: nat, n: nat, before: seq<Commit>): seq<Commit>
    requires interval > 0 && n <= |ds|
  {
    var a := Opened(ds, interval, n);
    if a == 0 then before else Wholes(ds, Opened(ds, interval, a - 1), a)
  }

  function LastSession(ds: seq<Delivery>, interval: nat, luck: nat -> Luck): seq<Commit>
    requires interval > 0
  {
    var s := Stop(ds, interval, luck);
    Wholes(ds, Opened(ds, interval, s), s) + Rest(ds, luck, s)
  }

  /** The last session gets its commits onto the branch. */
  predicate LastLands(ds: seq<Delivery>, interval: nat, luck: nat -> Luck, endsWell: bool)
    requires interval > 0
  {
    !CheckpointFails(ds, interval, luck) && endsWell && LastSession(ds, interval, luck) != []
  }

  function BranchAfter(ds: seq<Delivery>, interval: nat, luck: nat -> Luck, endsWell: bool,
                       before: seq<Commit>): seq<Commit>
    requires interval > 0
  {
    if LastLands(ds, interval, luck, endsWell) then LastSession(ds, interval, luck)
    else BranchAt(ds, interval, Stop(ds, interval, luck), before)
  }

  /** The last changelist written. */
  function Reached(ds: seq<Delivery>, interval: nat, luck: nat -> Luck): CL
    requires interval > 0
  {
    var s := Stop(ds, interval, luck);
    LastWanted(ds, if CheckpointFails(ds, interval, luck) then s + 1 else s)
  }

  /** At the end the last changelist written is recorded: fast-import was finished well, or a failed
      checkpoint had left nothing to finish. */
  predicate RecordsReached(ds: seq<Delivery>, interval: nat, luck: nat -> Luck, endsWell: bool, before: seq<Commit>)
    requires interval > 0
  {
    && Reached(ds, interval, luck) > 0 && !EndsBy(ds, interval, luck, Raises)
    && (CheckpointFails(ds, interval, luck) || endsWell)
    && BranchAfter(ds, interval, luck, endsWell, before) != []
  }

  /** What is recorded as synced at place n, and as its commit: the last checkpoint's changelist and the
      tip of the branch. */
  function RecordAt(ds: seq<Delivery>, interval: nat, n: nat): Option<(CL, Commit)>
    requires interval > 0 && n <= |ds|
  {
    var a := Opened(ds, interval, n);
    if a == 0 then None else Some((ds[a - 1].cl, Commit(ds[a - 1].cl, true)))
  }

  function RecordAfter(ds: seq<Delivery>, interval: nat, luck: nat -> Luck, endsWell: bool,
                       before: seq<Commit>): Option<(CL, Commit)>
    requires interval > 0
  {
    var branch := BranchAfter(ds, interval, luck, endsWell, before);
    if RecordsReached(ds, interval, luck, endsWell, before)
    then Some((Reached(ds, interval, luck), branch[|branch| - 1]))
    else RecordAt(ds, interval, Stop(ds, interval, luck))
  }

  /** How many sessions take the place of the branch. */
  function Landings(ds: seq<Delivery>, interval: nat, luck: nat -> Luck, endsWell: bool): nat
    requires interval > 0
  {
    Checkpoints(ds, interval, Stop(ds, interval, luck)) + if LastLands(ds, interval, luck, endsWell) then 1 else 0
  }

  function MadeAfter(ds: seq<Delivery>, interval: nat, luck: nat -> Luck, endsWell: bool,
                     made: seq<Commit>): seq<Commit>
    requires interval > 0
  {
    made + Wholes(ds, 0, Opened(ds, interval, Stop(ds, interval, luck)))
    + if LastLands(ds, interval, luck, endsWell) then LastSession(ds, interval, luck) else []
  }

  // ---------- The loop ----------

  /** The tables after recording, or as they were. */
  ghost predicate SyncedTo(t: Tables, t': Tables, stream: Stream, record: Option<(CL, Commit)>, name: Commit -> Sha) {
    match record
    case None => t' == t
    case Some((cl, c)) =>
      && t'.synced == t.synced[stream := Synced(cl, name(c))]
      && (cl, stream) in t'.commits && t'.commits[(cl, stream)].sha == name(c)
  }

  method RecordLast(store: StateStore, stream: Stream, branch: string, cl: CL, head: Sha)
    modifies store
    ensures store.Contents().synced == old(store.Contents()).synced[stream := Synced(cl, head)]
    ensures (cl, stream) in store.Contents().commits && store.Contents().commits[(cl, stream)].sha == head
  {
    store.SetLastSyncedCl(stream, cl, head);
    store.RecordCommit(cl, head, stream, branch, P4ToGit);
  }

  lemma {:induction false} WholesJoin(ds: seq<Delivery>, i: nat, m: nat, n: nat)
    requires i <= m <= n <= |ds|
    ensures Wholes(ds, i, n) == Wholes(ds, i, m) + Wholes(ds, m, n)
    decreases n
  {
    if m < n { WholesJoin(ds, i, m, n - 1); }
  }

  /** What the importer holds when the loop has come to place n. */
  ghost predicate HoldsAt(branch: seq<Commit>, made: seq<Commit>, session: seq<Commit>, ds: seq<Delivery>,
                          interval: nat, n: nat, before: seq<Commit>, made0: seq<Commit>)
    requires interval > 0 && n <= |ds|
  {
    var a := Opened(ds, interval, n);
    && branch == BranchAt(ds, interval, n, before) && session == Wholes(ds, a, n)
    && made == made0 + Wholes(ds, 0, a)
  }

  lemma {:induction false} SkippedHolds(branch: seq<Commit>, made: seq<Commit>, session: seq<Commit>, ds: seq<Delivery>,
                                        interval: nat, i: nat, before: seq<Commit>, made0: seq<Commit>)
    requires interval > 0 && i < |ds| && ds[i].skipped && HoldsAt(branch, made, session, ds, interval, i, before, made0)
    ensures HoldsAt(branch, made, session, ds, interval, i + 1, before, made0)
    ensures RecordAt(ds, interval, i + 1) == RecordAt(ds, interval, i) && LastWanted(ds, i + 1) == LastWanted(ds, i)
  {
    assert Opened(ds, interval, i + 1) == Opened(ds, interval, i);
  }

  lemma {:induction false} WrittenHolds(branch: seq<Commit>, made: seq<Commit>, session: seq<Commit>, ds: seq<Delivery>,
                                        interval: nat, i: nat, before: seq<Commit>, made0: seq<Commit>)
    requires interval > 0 && i < |ds| && !ds[i].skipped
    requires HoldsAt(branch, made, session, ds, interval, i, before, made0)
    requires !IsCheckpoint(ds, interval, i)
    ensures HoldsAt(branch, made, session + [Commit(ds[i].cl, true)], ds, interval, i + 1, before, made0)
    ensures RecordAt(ds, interval, i + 1) == RecordAt(ds, interval, i) && LastWanted(ds, i + 1) == ds[i].cl
  {
    assert Opened(ds, interval, i + 1) == Opened(ds, interval, i);
  }

  lemma {:induction false} CheckpointHolds(branch: seq<Commit>, made: seq<Commit>, session: seq<Commit>,
                                           ds: seq<Delivery>, interval: nat, i: nat, before: seq<Commit>,
                                           made0: seq<Commit>)
    requires interval > 0 && i < |ds| && !ds[i].skipped
    requires HoldsAt(branch, made, session, ds, interval, i, before, made0)
    requires IsCheckpoint(ds, interval, i)
    ensures var written := session + [Commit(ds[i].cl, true)];
      HoldsAt(written, made + written, [], ds, interval, i + 1, before, made0)
    ensures RecordAt(ds, interval, i + 1) == Some((ds[i].cl, Commit(ds[i].cl, true)))
    ensures LastWanted(ds, i + 1) == ds[i].cl
  {
    var a := Opened(ds, interval, i);
    assert Opened(ds, interval, i + 1) == i + 1;
    assert Wholes(ds, a, i + 1) == session + [Commit(ds[i].cl, true)];
    WholesJoin(ds, 0, a, i + 1);
  }

  lemma SyncedFurther(t: Tables, t': Tables, t'': Tables, stream: Stream, r: Option<(CL, Commit)>,
                      r': Option<(CL, Commit)>, name: Commit -> Sha)
    requires SyncedTo(t, t', stream, r, name) && SyncedTo(t', t'', stream, r', name)
    ensures SyncedTo(t, t'', stream, if r'.Some? then r' else r, name)
  {
  }

  /** What the loop has left, and the last session finished. */
  lemma {:induction false} EndHolds(branch: seq<Commit>, made: seq<Commit>, session: seq<Commit>, ds: seq<Delivery>,
                                    interval: nat, luck: nat -> Luck, endsWell: bool, before: seq<Commit>,
                                    made0: seq<Commit>)
    requires interval > 0
    requires HoldsAt(branch, made, session, ds, interval, Stop(ds, interval, luck), before, made0)
    ensures var last := session + Rest(ds, luck, Stop(ds, interval, luck));
      var good := !CheckpointFails(ds, interval, luck) && endsWell;
      && BranchAfter(ds, interval, luck, endsWell, before) == (if good && last != [] then last else branch)
      && MadeAfter(ds, interval, luck, endsWell, made0) == if good then made + last else made
  {
    hide Wholes, Opened, StopFrom;
    assert made + [] == made;
  }

  /** Write one changelist; at a checkpoint, finish the session, record, and start another. */
  method WriteOne(importer: Importer, store: StateStore, stream: Stream, branch: string, ghost ds: seq<Delivery>,
                  i: nat, cl: CL, interval: nat, endsWell: bool, name: Commit -> Sha,
                  ghost before: seq<Commit>, ghost made0: seq<Commit>)
    returns (fails: bool)
    requires interval > 0 && i < |ds| && ds[i] == Delivery(cl, false)
    requires importer.running
    requires HoldsAt(importer.branch, importer.made, importer.session, ds, interval, i, before, made0)
    modifies importer, store
    ensures fails <==> IsCheckpoint(ds, interval, i) && !endsWell
    ensures !fails ==> importer.running
    ensures !fails ==> HoldsAt(importer.branch, importer.made, importer.session, ds, interval, i + 1, before, made0)
    ensures fails ==> !importer.running && importer.session == []
    ensures fails ==> importer.branch == old(importer.branch) && importer.made == old(importer.made)
    ensures SyncedTo(old(store.Contents()), store.Contents(), stream,
              if IsCheckpoint(ds, interval, i) && endsWell then Some((cl, Commit(cl, true))) else None, name)
  {
    hide HoldsAt, RecordAt, LastWanted;
    ghost var branch0, made, session := importer.branch, importer.made, importer.session;
    importer.Write(Commit(cl, true));
    if (i + 1) % interval == 0 {
      CheckpointHolds(branch0, made, session, ds, interval, i, before, made0);
      var ok := importer.Finish(endsWell);
      if !ok { return true; }
      RecordLast(store, stream, branch, cl, name(importer.branch[|importer.branch| - 1]));
      importer.Start();
    } else {
      WrittenHolds(branch0, made, session, ds, interval, i, before, made0);
    }
    fails := false;
  }

  /** One delivery of the loop. */
  method HandleOne(importer: Importer, store: StateStore, stream: Stream, branch: string, ghost ds: seq<Delivery>,
                   i: nat, d: Delivery, interval: nat, l: Luck, lastWritten: CL, name: Commit -> Sha,
                   ghost before: seq<Commit>, ghost made0: seq<Commit>)
    returns (goesOn: bool, last: CL)
    requires interval > 0 && i < |ds| && ds[i] == d && importer.running && lastWritten == LastWanted(ds, i)
    requires HoldsAt(importer.branch, importer.made, importer.session, ds, interval, i, before, made0)
    modifies importer, store
    ensures goesOn <==> d.skipped || (l.fate.Written? && (IsCheckpoint(ds, interval, i) ==> l.endsWell))
    ensures goesOn ==> importer.running && last == LastWanted(ds, i + 1)
    ensures goesOn ==> HoldsAt(importer.branch, importer.made, importer.session, ds, interval, i + 1, before, made0)
    ensures !goesOn && l.fate.Written? ==> !importer.running && importer.session == [] && last == d.cl
    ensures !goesOn && !l.fate.Written? ==> importer.running && importer.session == old(importer.session)
    ensures !goesOn && !l.fate.Written? ==> last == lastWritten
    ensures !goesOn ==> importer.branch == old(importer.branch) && importer.made == old(importer.made)
    ensures SyncedTo(old(store.Contents()), store.Contents(), stream,
              if goesOn && IsCheckpoint(ds, interval, i) then RecordAt(ds, interval, i + 1) else None, name)
    ensures goesOn && !IsCheckpoint(ds, interval, i) ==> RecordAt(ds, interval, i + 1) == RecordAt(ds, interval, i)
    ensures goesOn && IsCheckpoint(ds, interval, i) ==> RecordAt(ds, interval, i + 1).Some?
  {
    hide HoldsAt, RecordAt, LastWanted;
    ghost var branch0, made, session := importer.branch, importer.made, importer.session;
    if d.skipped {
      SkippedHolds(branch0, made, session, ds, interval, i, before, made0);
      return true, lastWritten;
    }
    if !l.fate.Written? { return false, lastWritten; }
    if IsCheckpoint(ds, interval, i) { CheckpointHolds(branch0, made, session, ds, interval, i, before, made0); }
    else { WrittenHolds(branch0, made, session, ds, interval, i, before, made0); }
    var fails := WriteOne(importer, store, stream, branch, ds, i, d.cl, interval, l.endsWell, name, before, made0);
    goesOn, last := !fails, d.cl;
  }

  lemma {:induction false} StopsLater(ds: seq<Delivery>, interval: nat, luck: nat -> Luck, i: nat)
    requires interval > 0 && i < |ds|
    ensures StopFrom(ds, interval, luck, i)
         == if StopsAt(ds, interval, luck, i) then i else StopFrom(ds, interval, luck, i + 1)
  {
  }

  lemma NothingHeld(branch: seq<Commit>, made: seq<Commit>, ds: seq<Delivery>, interval: nat)
    requires interval > 0
    ensures HoldsAt(branch, made, [], ds, interval, 0, branch, made) && RecordAt(ds, interval, 0) == None
    ensures LastWanted(ds, 0) == 0
  {
  }

  lemma NothingSynced(t: Tables, stream: Stream, name: Commit -> Sha)
    ensures SyncedTo(t, t, stream, None, name)
  {
  }

  lemma {:induction false} ReachedIs(ds: seq<Delivery>, interval: nat, luck: nat -> Luck)
    requires interval > 0
    ensures var s := Stop(ds, interval, luck);
      Reached(ds, interval, luck) == if CheckpointFails(ds, interval, luck) then ds[s].cl else LastWanted(ds, s)
  {
  }

  /** Deliver changelists one by one until the loop stops. */
  method WriteAll(importer: Importer, store: StateStore, stream: Stream, branch: string, ds: seq<Delivery>,
                  interval: nat, luck: nat -> Luck, name: Commit -> Sha)
    returns (stopped: nat, lastWritten: CL)
    requires importer.running && importer.session == [] && interval > 0
    modifies importer, store
    ensures stopped == Stop(ds, interval, luck) && lastWritten == Reached(ds, interval, luck)
    ensures var failed := CheckpointFails(ds, interval, luck);
      && importer.running == !failed && (failed ==> importer.session == [])
      && HoldsAt(importer.branch, importer.made,
                 if failed then Wholes(ds, Opened(ds, interval, stopped), stopped) else importer.session,
                 ds, interval, stopped, old(importer.branch), old(importer.made))
    ensures SyncedTo(old(store.Contents()), store.Contents(), stream, RecordAt(ds, interval, stopped), name)
  {
    hide HoldsAt, RecordAt, LastWanted, StopFrom, SyncedTo, Opened, Wholes, Reached;
    ghost var before, made0, t0 := importer.branch, importer.made, store.Contents();
    stopped, lastWritten := 0, 0;
    NothingHeld(before, made0, ds, interval);
    NothingSynced(t0, stream, name);
    ReachedIs(ds, interval, luck);
    while stopped < |ds|
      invariant stopped <= |ds| && importer.running
      invariant StopFrom(ds, interval, luck, stopped) == Stop(ds, interval, luck)
      invariant HoldsAt(importer.branch, importer.made, importer.session, ds, interval, stopped, before, made0)
      invariant lastWritten == LastWanted(ds, stopped)
      invariant SyncedTo(t0, store.Contents(), stream, RecordAt(ds, interval, stopped), name)
    {
      ghost var i, t := stopped, store.Contents();
      StopsLater(ds, interval, luck, i);
      HeldSession(importer.branch, importer.made, importer.session, ds, interval, i, before, made0);
      var goesOn;
      goesOn, lastWritten :=
        HandleOne(importer, store, stream, branch, ds, stopped, ds[stopped], interval, luck(stopped), lastWritten, name,
                  before, made0);
      SyncedFurther(t0, t, store.Contents(), stream, RecordAt(ds, interval, i),
                    if goesOn && IsCheckpoint(ds, interval, i) then RecordAt(ds, interval, i + 1) else None, name);
      if !goesOn { return; }
      stopped := stopped + 1;
    }
  }

  lemma HeldSession(branch: seq<Commit>, made: seq<Commit>, session: seq<Commit>, ds: seq<Delivery>,
                    interval: nat, n: nat, before: seq<Commit>, made0: seq<Commit>)
    requires interval > 0 && n <= |ds| && HoldsAt(branch, made, session, ds, interval, n, before, made0)
    ensures session == Wholes(ds, Opened(ds, interval, n), n)
  {
  }

  /** Finish the last session, and record the last changelist written as the tip of the branch. */
  method EndRun(importer: Importer, store: StateStore, stream: Stream, branch: string, rest: seq<Commit>, raised: bool,
                lastWritten: CL, endsWell: bool, name: Commit -> Sha)
    requires |rest| <= 1 && (importer.running || (importer.session == [] && rest == []))
    modifies importer, store
    ensures var last, lands := old(importer.session) + rest, old(importer.running) && endsWell;
      && importer.branch == (if lands && last != [] then last else old(importer.branch))
      && importer.made == if lands then old(importer.made) + last else old(importer.made)
    ensures SyncedTo(old(store.Contents()), store.Contents(), stream,
              EndRecord(raised, lastWritten, endsWell || !old(importer.running), importer.branch), name)
  {
    if rest != [] { importer.Write(rest[0]); }
    var ok := importer.Finish(endsWell);
    if !raised && lastWritten > 0 && ok && importer.branch != [] {
      RecordLast(store, stream, branch, lastWritten, name(importer.branch[|importer.branch| - 1]));
    }
  }

  function EndRecord(raised: bool, lastWritten: CL, ok: bool, branch: seq<Commit>): Option<(CL, Commit)> {
    if !raised && lastWritten > 0 && ok && branch != [] then Some((lastWritten, branch[|branch| - 1])) else None
  }

  lemma RecordIs(ds: seq<Delivery>, interval: nat, luck: nat -> Luck, endsWell: bool, before: seq<Commit>)
    requires interval > 0
    ensures var end := EndRecord(EndsBy(ds, interval, luck, Raises), Reached(ds, interval, luck),
                                 endsWell || CheckpointFails(ds, interval, luck),
                                 BranchAfter(ds, interval, luck, endsWell, before));
      RecordAfter(ds, interval, luck, endsWell, before)
      == if end.Some? then end else RecordAt(ds, interval, Stop(ds, interval, luck))
  {
  }

  /** Write the delivered changelists, finish and record every so many, and record the last one written at the end. */
  method Run(importer: Importer, store: StateStore, stream: Stream, branch: string, ds: seq<Delivery>, interval: nat,
             luck: nat -> Luck, endsWell: bool, name: Commit -> Sha)
    returns (checkpointFailed: bool, raised: bool)
    requires importer.running && importer.session == [] && interval > 0
    modifies importer, store
    ensures checkpointFailed <==> CheckpointFails(ds, interval, luck)
    ensures raised <==> EndsBy(ds, interval, luck, Raises)
    ensures importer.branch == BranchAfter(ds, interval, luck, endsWell, old(importer.branch))
    ensures importer.made == MadeAfter(ds, interval, luck, endsWell, old(importer.made))
    ensures SyncedTo(old(store.Contents()), store.Contents(), stream,
              RecordAfter(ds, interval, luck, endsWell, old(importer.branch)), name)
  {
    hide HoldsAt, RecordAt, Reached, StopFrom, SyncedTo, BranchAfter, MadeAfter, Wholes, Opened, RecordAfter, EndRecord;
    ghost var before, made0, t0 := importer.branch, importer.made, store.Contents();
    var s, lastWritten := WriteAll(importer, store, stream, branch, ds, interval, luck, name);
    checkpointFailed, raised := s < |ds| && luck(s).fate.Written?, s < |ds| && luck(s).fate.Raises?;
    ghost var t := store.Contents();
    ghost var session := if checkpointFailed then Wholes(ds, Opened(ds, interval, s), s) else importer.session;
    EndHolds(importer.branch, importer.made, session, ds, interval, luck, endsWell, before, made0);
    RecordIs(ds, interval, luck, endsWell, before);
    EndRun(importer, store, stream, branch, Rest(ds, luck, s), raised, lastWritten, endsWell, name);
    SyncedFurther(t0, t, store.Contents(), stream, RecordAt(ds, interval, s),
                  EndRecord(raised, lastWritten, endsWell || checkpointFailed, importer.branch), name);
  }

  // ---------- When importing may go on after what is recorded ----------

  /** Every wanted changelist up to the recorded one has its whole commit on the branch. */
  ghost predicate Held(ds: seq<Delivery>, last: CL, branch: seq<Commit>) {
    forall k: nat | k < |ds| && !ds[k].skipped && ds[k].cl <= last :: Commit(ds[k].cl, true) in branch
  }

  /** And so has everything that was there before: importing may go on after the recorded changelist. */
  ghost predicate Resumable(ds: seq<Delivery>, last: CL, before: seq<Commit>, branch: seq<Commit>) {
    (forall c | c in before :: c in branch) && Held(ds, last, branch)
  }

  function RecordedAfter(ds: seq<Delivery>, interval: nat, luck: nat -> Luck, endsWell: bool,
                         before: seq<Commit>, last: CL): CL
    requires interval > 0
  {
    var record := RecordAfter(ds, interval, luck, endsWell, before);
    if record.Some? then record.value.0 else last
  }

  /** The changelists delivered are new: above what is recorded, and not on the branch. */
  ghost predicate NewTo(ds: seq<Delivery>, last: CL, before: seq<Commit>) {
    forall k: nat | k < |ds| :: ds[k].cl > last && forall c | c in before :: c.cl != ds[k].cl
  }

  /** Something on the branch, a session that takes its place, a failed checkpoint: how many of these there are. */
  function Hazards(ds: seq<Delivery>, interval: nat, luck: nat -> Luck, endsWell: bool, before: seq<Commit>): nat
    requires interval > 0
  {
    Landings(ds, interval, luck, endsWell) + (if before == [] then 0 else 1)
    + if CheckpointFails(ds, interval, luck) then 1 else 0
  }

  lemma {:induction false} WholesEnd(ds: seq<Delivery>, i: nat, n: nat)
    requires i <= n <= |ds|
    ensures var w := Wholes(ds, i, n);
      if w == [] then LastWanted(ds, n) == LastWanted(ds, i) else w[|w| - 1] == Commit(LastWanted(ds, n), true)
    decreases n
  {
    if i < n {
      var before := Wholes(ds, i, n - 1);
      WholesEnd(ds, i, n - 1);
      assert Wholes(ds, i, n) == before + if ds[n - 1].skipped then [] else [Commit(ds[n - 1].cl, true)];
      if ds[n - 1].skipped { assert Wholes(ds, i, n) == before; }
    }
  }

  lemma {:induction false} LastWantedIs(ds: seq<Delivery>, n: nat)
    requires Ascending(ds) && n <= |ds|
    ensures forall k: nat | k < n && !ds[k].skipped :: ds[k].cl <= LastWanted(ds, n)
    ensures LastWanted(ds, n) == 0 || Between(ds, 0, n, LastWanted(ds, n))
  {
    if n > 0 {
      LastWantedIs(ds, n - 1);
      if ds[n - 1].skipped && LastWanted(ds, n) > 0 {
        var k: nat :| k < n - 1 && !ds[k].skipped && ds[k].cl == LastWanted(ds, n);
        assert Between(ds, 0, n, LastWanted(ds, n));
      }
    }
  }

  /** Places and numbers go together. */
  lemma PlaceOf(ds: seq<Delivery>, i: nat, n: nat, k: nat)
    requires Ascending(ds) && i <= n <= |ds| && k < |ds| && !ds[k].skipped
    ensures Commit(ds[k].cl, true) in Wholes(ds, i, n) <==> i <= k < n
  {
    WholesAre(ds, i, n, Commit(ds[k].cl, true));
    if Between(ds, i, n, ds[k].cl) {
      var m: nat :| i <= m < n && m < |ds| && !ds[m].skipped && ds[m].cl == ds[k].cl;
      assert m == k;
    }
  }

  /** Nothing of what was there before is in a session. */
  lemma NothingFromBefore(ds: seq<Delivery>, last: CL, before: seq<Commit>, i: nat, n: nat, luck: nat -> Luck, s: nat,
                          c: Commit)
    requires NewTo(ds, last, before) && i <= n <= |ds| && c in before
    ensures c !in Wholes(ds, i, n) + Rest(ds, luck, s)
  {
    WholesAre(ds, i, n, c);
  }

  /** What is wanted from place n on is above a number. */
  ghost predicate Above(ds: seq<Delivery>, n: nat, cl: CL) {
    forall k: nat | n <= k < |ds| && !ds[k].skipped :: ds[k].cl > cl
  }

  /** A session opened at place a holds the wanted changelists up to a recorded one exactly when none
      of these stands before a. */
  lemma {:induction false} SessionHolds(ds: seq<Delivery>, a: nat, n: nat, rest: seq<Commit>, last: CL)
    requires Ascending(ds) && a <= n <= |ds| && (forall c | c in rest :: !c.whole) && Above(ds, n, last)
    ensures Held(ds, last, Wholes(ds, a, n) + rest) <==> forall k: nat | k < a && !ds[k].skipped :: ds[k].cl > last
  {
    hide Wholes;
    forall k: nat | k < |ds| && !ds[k].skipped { PlaceOf(ds, a, n, k); }
  }

  /** A branch that a session opened at place a has taken can be resumed from exactly when there was
      nothing before it, neither at the start nor in this run. */
  lemma {:induction false} TakenBranch(ds: seq<Delivery>, before: seq<Commit>, last: CL, luck: nat -> Luck, s: nat,
                                       a: nat, n: nat, rest: seq<Commit>, r: CL)
    requires Ascending(ds) && NewTo(ds, last, before) && a <= n <= |ds| && rest <= Rest(ds, luck, s)
    requires Above(ds, n, r) && (a > 0 ==> !ds[a - 1].skipped && ds[a - 1].cl <= r)
    ensures Resumable(ds, r, before, Wholes(ds, a, n) + rest) <==> before == [] && a == 0
  {
    hide Ascending, NewTo, Wholes, Above, Held;
    SessionHolds(ds, a, n, rest, r);
    if before != [] {
      assert before[0] in before;
      NothingFromBefore(ds, last, before, a, n, luck, s, before[0]);
      assert Wholes(ds, a, n) + rest <= Wholes(ds, a, n) + Rest(ds, luck, s);
    }
    if a > 0 { assert !(ds[a - 1].cl > r); }
  }

  /** The recorded changelist of a checkpoint that fails has no commit on the branch. */
  lemma {:induction false} NotOnBranch(ds: seq<Delivery>, interval: nat, before: seq<Commit>, last: CL, s: nat)
    requires interval > 0 && Ascending(ds) && NewTo(ds, last, before) && s < |ds| && !ds[s].skipped
    ensures Commit(ds[s].cl, true) !in BranchAt(ds, interval, s, before)
  {
    hide Wholes;
    var a := Opened(ds, interval, s);
    if a > 0 { PlaceOf(ds, Opened(ds, interval, a - 1), a, s); }
  }

  lemma {:induction false} FailedIsLost(ds: seq<Delivery>, interval: nat, before: seq<Commit>, last: CL, s: nat)
    requires interval > 0 && Ascending(ds) && NewTo(ds, last, before) && s < |ds| && !ds[s].skipped
    ensures !Held(ds, ds[s].cl, BranchAt(ds, interval, s, before))
  {
    NotOnBranch(ds, interval, before, last, s);
  }

  lemma {:induction false} BeforeLandings(ds: seq<Delivery>, interval: nat, s: nat)
    requires interval > 0 && Ascending(ds) && s <= |ds|
    ensures var a := Opened(ds, interval, s);
      && (Checkpoints(ds, interval, s) == 0 <==> a == 0)
      && (a > 0 ==> !ds[a - 1].skipped && LastWanted(ds, a) == ds[a - 1].cl <= LastWanted(ds, s))
      && (a > 0 ==> (Checkpoints(ds, interval, s) == 1 <==> Opened(ds, interval, a - 1) == 0))
      && (a > 0 ==> BranchAt(ds, interval, s, []) != [])
  {
    var a := Opened(ds, interval, s);
    LastCheckpoint(ds, interval, s);
    LastWantedIs(ds, s);
    if a > 0 {
      var b := Opened(ds, interval, a - 1);
      LastCheckpoint(ds, interval, a - 1);
      PlaceOf(ds, b, a, a - 1);
    }
  }

  lemma {:induction false} FailedRun(ds: seq<Delivery>, interval: nat, luck: nat -> Luck, endsWell: bool,
                                     before: seq<Commit>, last: CL)
    requires interval > 0 && Ascending(ds) && NewTo(ds, last, before) && CheckpointFails(ds, interval, luck)
    ensures Resumable(ds, RecordedAfter(ds, interval, luck, endsWell, before, last), before,
                      BranchAfter(ds, interval, luck, endsWell, before))
        <==> Hazards(ds, interval, luck, endsWell, before) <= 1
  {
    hide Wholes, Opened, Ascending, NewTo, Checkpoints, Held, LastWanted;
    var s := Stop(ds, interval, luck);
    BeforeLandings(ds, interval, s);
    ReachedIs(ds, interval, luck);
    StopIsWanted(ds, interval, luck);
    FailedIsLost(ds, interval, before, last, s);
    NothingRecorded(ds, last, before);
  }

  lemma StopIsWanted(ds: seq<Delivery>, interval: nat, luck: nat -> Luck)
    requires interval > 0 && Stop(ds, interval, luck) < |ds|
    ensures !ds[Stop(ds, interval, luck)].skipped
    ensures Ascending(ds) ==> ds[Stop(ds, interval, luck)].cl > 0
  {
  }

  lemma NothingRecorded(ds: seq<Delivery>, last: CL, before: seq<Commit>)
    requires NewTo(ds, last, before)
    ensures Resumable(ds, last, before, before)
  {
  }

  lemma AboveLast(ds: seq<Delivery>, n: nat, last: CL, before: seq<Commit>)
    requires Ascending(ds) && NewTo(ds, last, before) && n <= |ds|
    ensures Above(ds, n, LastWanted(ds, n)) && Above(ds, n, last)
  {
    LastWantedIs(ds, n);
  }

  /** Without a failed checkpoint, what is recorded is the last changelist reached, or the last checkpoint's. */
  lemma {:induction false} GoodRecord(ds: seq<Delivery>, interval: nat, luck: nat -> Luck, endsWell: bool,
                                      before: seq<Commit>, last: CL)
    requires interval > 0 && !CheckpointFails(ds, interval, luck)
    ensures var s, r := Stop(ds, interval, luck), RecordedAfter(ds, interval, luck, endsWell, before, last);
      && var a := Opened(ds, interval, s);
      && r in {LastWanted(ds, s), if a == 0 then last else ds[a - 1].cl}
      && (!LastLands(ds, interval, luck, endsWell) && a == 0 ==> r == last)
      && (!LastLands(ds, interval, luck, endsWell) && a > 0 ==> r == ds[a - 1].cl)
  {
    hide Wholes;
    var s := Stop(ds, interval, luck);
    var a := Opened(ds, interval, s);
    ReachedIs(ds, interval, luck);
    WholesEnd(ds, a, s);
    if a > 0 { assert LastWanted(ds, a) == ds[a - 1].cl; }
  }

  lemma {:induction false} LandedRun(ds: seq<Delivery>, interval: nat, luck: nat -> Luck, endsWell: bool,
                                     before: seq<Commit>, last: CL)
    requires interval > 0 && Ascending(ds) && NewTo(ds, last, before) && LastLands(ds, interval, luck, endsWell)
    ensures Resumable(ds, RecordedAfter(ds, interval, luck, endsWell, before, last), before,
                      BranchAfter(ds, interval, luck, endsWell, before))
        <==> Hazards(ds, interval, luck, endsWell, before) <= 1
  {
    hide Wholes, Opened, Ascending, NewTo, Checkpoints, Above, LastWanted, Resumable, RecordedAfter;
    var s := Stop(ds, interval, luck);
    var a := Opened(ds, interval, s);
    BeforeLandings(ds, interval, s);
    GoodRecord(ds, interval, luck, endsWell, before, last);
    AboveLast(ds, s, last, before);
    if a > 0 { AboveEarlier(ds, s, a - 1); }
    var r := RecordedAfter(ds, interval, luck, endsWell, before, last);
    TakenBranch(ds, before, last, luck, s, a, s, Rest(ds, luck, s), r);
  }

  lemma AboveEarlier(ds: seq<Delivery>, n: nat, k: nat)
    requires Ascending(ds) && k < n <= |ds|
    ensures Above(ds, n, ds[k].cl)
  {
  }

  lemma {:induction false} UnlandedRun(ds: seq<Delivery>, interval: nat, luck: nat -> Luck, endsWell: bool,
                                       before: seq<Commit>, last: CL)
    requires interval > 0 && Ascending(ds) && NewTo(ds, last, before)
    requires !CheckpointFails(ds, interval, luck) && !LastLands(ds, interval, luck, endsWell)
    ensures Resumable(ds, RecordedAfter(ds, interval, luck, endsWell, before, last), before,
                      BranchAfter(ds, interval, luck, endsWell, before))
        <==> Hazards(ds, interval, luck, endsWell, before) <= 1
  {
    hide Wholes, Opened, Ascending, NewTo, Checkpoints, Above, LastWanted, Resumable, RecordedAfter, CheckpointFails;
    hide LastLands;
    var s := Stop(ds, interval, luck);
    var a := Opened(ds, interval, s);
    BeforeLandings(ds, interval, s);
    GoodRecord(ds, interval, luck, endsWell, before, last);
    if a == 0 {
      NothingRecorded(ds, last, before);
    } else {
      var b := Opened(ds, interval, a - 1);
      assert Wholes(ds, b, a) + [] == Wholes(ds, b, a);
      AboveEarlier(ds, a, a - 1);
      EarlierCheckpoint(ds, interval, a - 1);
      TakenBranch(ds, before, last, luck, s, b, a, [], ds[a - 1].cl);
    }
  }

  lemma EarlierCheckpoint(ds: seq<Delivery>, interval: nat, k: nat)
    requires interval > 0 && Ascending(ds) && k < |ds|
    ensures var b := Opened(ds, interval, k); b > 0 ==> !ds[b - 1].skipped && ds[b - 1].cl <= ds[k].cl
  {
  }

  lemma LandsWithoutFailure(ds: seq<Delivery>, interval: nat, luck: nat -> Luck, endsWell: bool)
    requires interval > 0
    ensures LastLands(ds, interval, luck, endsWell) ==> !CheckpointFails(ds, interval, luck)
  {
  }

  /** Importing may go on after what is recorded exactly when at most one of these is so: the branch was
      not empty at the start, a session took its place, a checkpoint failed. */
  lemma {:induction false} ResumableExactly(ds: seq<Delivery>, interval: nat, luck: nat -> Luck, endsWell: bool,
                                            before: seq<Commit>, last: CL)
    requires interval > 0 && Ascending(ds) && NewTo(ds, last, before)
    ensures Resumable(ds, RecordedAfter(ds, interval, luck, endsWell, before, last), before,
                      BranchAfter(ds, interval, luck, endsWell, before))
        <==> Hazards(ds, interval, luck, endsWell, before) <= 1
  {
    hide Resumable, RecordedAfter, BranchAfter, Hazards, CheckpointFails;
    LandsWithoutFailure(ds, interval, luck, endsWell);
    if CheckpointFails(ds, interval, luck) { FailedRun(ds, interval, luck, endsWell, before, last); }
    else if LastLands(ds, interval, luck, endsWell) { LandedRun(ds, interval, luck, endsWell, before, last); }
    else { UnlandedRun(ds, interval, luck, endsWell, before, last); }
  }

  // ---------- When everything goes well ----------

  ghost predicate GoesWell(ds: seq<Delivery>, interval: nat, luck: nat -> Luck)
    requires interval > 0
  {
    forall k: nat | k < |ds| && !ds[k].skipped ::
      luck(k).fate.Written? && (IsCheckpoint(ds, interval, k) ==> luck(k).endsWell)
  }

  /** A wanted changelist stands behind a checkpoint. */
  ghost predicate WantedBehindCheckpoint(ds: seq<Delivery>, interval: nat)
    requires interval > 0
  {
    exists k: nat, j: nat :: k < j < |ds| && IsCheckpoint(ds, interval, k) && !ds[j].skipped
  }

  /** Every wanted changelist has its commit on the branch. */
  ghost predicate Complete(ds: seq<Delivery>, branch: seq<Commit>) {
    forall k: nat | k < |ds| && !ds[k].skipped :: Commit(ds[k].cl, true) in branch
  }

  lemma {:induction false} SessionComplete(ds: seq<Delivery>, a: nat, n: nat)
    requires Ascending(ds) && a <= n <= |ds|
    ensures Complete(ds, Wholes(ds, a, n)) <==> forall k: nat | k < |ds| && !ds[k].skipped :: a <= k < n
  {
    hide Wholes;
    forall k: nat | k < |ds| && !ds[k].skipped { PlaceOf(ds, a, n, k); }
  }

  lemma {:induction false} EmptySession(ds: seq<Delivery>, a: nat, n: nat)
    requires Ascending(ds) && a <= n <= |ds|
    ensures Wholes(ds, a, n) == [] <==> forall k: nat | a <= k < n :: ds[k].skipped
  {
    hide Wholes;
    forall k: nat | a <= k < n && !ds[k].skipped { PlaceOf(ds, a, n, k); }
    WholesEnd(ds, a, n);
    var w := Wholes(ds, a, n);
    if w != [] {
      WholesAre(ds, a, n, w[|w| - 1]);
      assert w[|w| - 1] in w;
    }
  }

  lemma {:induction false} WellEnds(ds: seq<Delivery>, interval: nat, luck: nat -> Luck, endsWell: bool)
    requires interval > 0 && GoesWell(ds, interval, luck) && endsWell
    ensures Stop(ds, interval, luck) == |ds|
    ensures var a := Opened(ds, interval, |ds|);
      var last := Wholes(ds, a, |ds|);
      BranchAfter(ds, interval, luck, endsWell, []) == if last != [] then last else BranchAt(ds, interval, |ds|, [])
  {
    hide Wholes;
    var a := Opened(ds, interval, |ds|);
    assert Wholes(ds, a, |ds|) + [] == Wholes(ds, a, |ds|);
  }

  /** Even when everything goes well, a branch that was empty ends with every wanted changelist exactly
      when none stands behind a checkpoint: every later session takes the place of the one before. */
  lemma {:induction false} CompleteExactly(ds: seq<Delivery>, interval: nat, luck: nat -> Luck, endsWell: bool)
    requires interval > 0 && Ascending(ds) && GoesWell(ds, interval, luck) && endsWell
    ensures Complete(ds, BranchAfter(ds, interval, luck, endsWell, [])) <==> !WantedBehindCheckpoint(ds, interval)
  {
    hide Wholes, Ascending, Complete, GoesWell, BranchAfter, Stop;
    var n := |ds|;
    var a := Opened(ds, interval, n);
    WellEnds(ds, interval, luck, endsWell);
    EmptySession(ds, a, n);
    SessionComplete(ds, a, n);
    if a > 0 {
      var b := Opened(ds, interval, a - 1);
      SessionComplete(ds, b, a);
      assert b > 0 ==> IsCheckpoint(ds, interval, b - 1) && b - 1 < a - 1;
    } else {
      EmptyIsComplete(ds, n);
    }
  }

  lemma EmptyIsComplete(ds: seq<Delivery>, n: nat)
    requires n == |ds|
    ensures (forall k: nat | k < n :: ds[k].skipped) ==> Complete(ds, [])
  {
  }

  // ---------- What was ever made, and what the record names ----------

  lemma {:induction false} MadeHolds(ds: seq<Delivery>, made: seq<Commit>, n: nat, more: seq<Commit>, r: CL)
    requires Ascending(ds) && n <= |ds| && Above(ds, n, r)
    ensures Held(ds, r, made + Wholes(ds, 0, n) + more)
  {
    hide Wholes;
    forall k: nat | k < |ds| && !ds[k].skipped { PlaceOf(ds, 0, n, k); }
  }

  lemma {:induction false} FailedWasNotMade(ds: seq<Delivery>, made: seq<Commit>, last: CL, a: nat, s: nat)
    requires Ascending(ds) && NewTo(ds, last, made) && a <= s < |ds| && !ds[s].skipped
    ensures !Held(ds, ds[s].cl, made + Wholes(ds, 0, a) + [])
  {
    hide Wholes;
    PlaceOf(ds, 0, a, s);
    assert Commit(ds[s].cl, true) !in made + Wholes(ds, 0, a) + [];
  }

  /** With a failed checkpoint the changelist reached is recorded, if there is a branch at all. */
  lemma {:induction false} FailedRecord(ds: seq<Delivery>, interval: nat, luck: nat -> Luck, endsWell: bool,
                                        before: seq<Commit>, last: CL)
    requires interval > 0 && Ascending(ds) && NewTo(ds, last, before) && CheckpointFails(ds, interval, luck)
    ensures var s := Stop(ds, interval, luck);
      var branch := BranchAt(ds, interval, s, before);
      && BranchAfter(ds, interval, luck, endsWell, before) == branch
      && (branch == [] ==> RecordAfter(ds, interval, luck, endsWell, before) == None)
      && (branch != [] ==> RecordAfter(ds, interval, luck, endsWell, before) == Some((ds[s].cl, branch[|branch| - 1])))
      && (branch != [] ==> branch[|branch| - 1] != Commit(ds[s].cl, true))
  {
    hide Wholes, Opened, Ascending, NewTo, Checkpoints, Held, LastWanted;
    var s := Stop(ds, interval, luck);
    BeforeLandings(ds, interval, s);
    ReachedIs(ds, interval, luck);
    StopIsWanted(ds, interval, luck);
    NotOnBranch(ds, interval, before, last, s);
    var branch := BranchAt(ds, interval, s, before);
    if branch != [] { assert branch[|branch| - 1] in branch; }
  }

  /** Of what is recorded, everything was committed at some time exactly unless a checkpoint failed on
      a branch with commits. */
  lemma {:induction false} MadeExactly(ds: seq<Delivery>, interval: nat, luck: nat -> Luck, endsWell: bool,
                                       before: seq<Commit>, made: seq<Commit>, last: CL)
    requires interval > 0 && Ascending(ds) && NewTo(ds, last, before) && NewTo(ds, last, made)
    ensures Held(ds, RecordedAfter(ds, interval, luck, endsWell, before, last),
                 MadeAfter(ds, interval, luck, endsWell, made))
        <==> !(CheckpointFails(ds, interval, luck) && BranchAt(ds, interval, Stop(ds, interval, luck), before) != [])
  {
    hide Wholes, Opened, Ascending, NewTo, Above, LastWanted, RecordAfter, Held, BranchAt;
    var s := Stop(ds, interval, luck);
    var a := Opened(ds, interval, s);
    AboveLast(ds, s, last, made);
    AboveLast(ds, a, last, made);
    if CheckpointFails(ds, interval, luck) {
      FailedRecord(ds, interval, luck, endsWell, before, last);
      StopIsWanted(ds, interval, luck);
      FailedWasNotMade(ds, made, last, a, s);
      MadeHolds(ds, made, a, [], last);
    } else {
      GoodRecord(ds, interval, luck, endsWell, before, last);
      if a > 0 {
        AboveEarlier(ds, a, a - 1);
        AboveEarlier(ds, s, a - 1);
      }
      var r := RecordedAfter(ds, interval, luck, endsWell, before, last);
      if LastLands(ds, interval, luck, endsWell) {
        WholesJoin(ds, 0, a, s);
        assert made + Wholes(ds, 0, a) + LastSession(ds, interval, luck) == made + Wholes(ds, 0, s) + Rest(ds, luck, s);
        MadeHolds(ds, made, s, Rest(ds, luck, s), r);
      } else {
        MadeHolds(ds, made, a, [], r);
      }
    }
  }

  /** The recorded changelist is recorded with a commit of its own, with all its files. */
  ghost predicate NamesItsCommit(record: Option<(CL, Commit)>) {
    record.Some? ==> record.value.1 == Commit(record.value.0, true)
  }

  lemma {:induction false} GoodNames(ds: seq<Delivery>, interval: nat, luck: nat -> Luck, endsWell: bool,
                                     before: seq<Commit>)
    requires interval > 0 && !CheckpointFails(ds, interval, luck)
    ensures NamesItsCommit(RecordAfter(ds, interval, luck, endsWell, before)) <==>
        !(EndsBy(ds, interval, luck, Misses) && endsWell && LastWanted(ds, Stop(ds, interval, luck)) > 0)
  {
    hide Wholes, StopFrom;
    var s := Stop(ds, interval, luck);
    var a := Opened(ds, interval, s);
    ReachedIs(ds, interval, luck);
    WholesEnd(ds, a, s);
    if a > 0 { WholesEnd(ds, Opened(ds, interval, a - 1), a); }
    if Rest(ds, luck, s) == [] {
      assert LastSession(ds, interval, luck) == Wholes(ds, a, s);
    }
  }

  /** That is so exactly unless a checkpoint fails on a branch with commits, or files turn out missing
      while a changelist is streamed behind another one: what is there of it becomes the tip. */
  lemma {:induction false} NamesExactly(ds: seq<Delivery>, interval: nat, luck: nat -> Luck, endsWell: bool,
                                        before: seq<Commit>, last: CL)
    requires interval > 0 && Ascending(ds) && NewTo(ds, last, before)
    ensures var s := Stop(ds, interval, luck);
      NamesItsCommit(RecordAfter(ds, interval, luck, endsWell, before)) <==>
        && !(CheckpointFails(ds, interval, luck) && BranchAt(ds, interval, s, before) != [])
        && !(EndsBy(ds, interval, luck, Misses) && endsWell && LastWanted(ds, s) > 0)
  {
    hide RecordAfter, BranchAt, BranchAfter, LastWanted, Ascending, NewTo, StopFrom;
    if CheckpointFails(ds, interval, luck) {
      FailedRecord(ds, interval, luck, endsWell, before, last);
    } else {
      GoodNames(ds, interval, luck, endsWell, before);
    }
  }

  // ---------- How a run ends that is stopped before its first checkpoint ----------

  lemma {:induction false} StopsThere(ds: seq<Delivery>, interval: nat, luck: nat -> Luck, i: nat, s: nat)
    requires interval > 0 && i <= s < |ds| && s < interval && !ds[s].skipped && !luck(s).fate.Written?
    requires forall k: nat | k < s :: ds[k].skipped || luck(k).fate.Written?
    ensures StopFrom(ds, interval, luck, i) == s
    decreases s - i
  {
    if i < s {
      assert (i + 1) % interval == i + 1;
      StopsThere(ds, interval, luck, i + 1, s);
    }
  }

  /** Missing files leave a cut commit on the branch, and the last changelist written is recorded with it.
      An exception leaves the cut commit and records nothing. A broken pipe leaves no trace of the
      changelist. If fast-import ends badly, nothing has happened. */
  lemma {:induction false} StoppedEarly(ds: seq<Delivery>, interval: nat, luck: nat -> Luck, endsWell: bool,
                                        before: seq<Commit>, s: nat)
    requires Ascending(ds) && s < |ds| && s < interval && !ds[s].skipped && !luck(s).fate.Written?
    requires forall k: nat | k < s :: ds[k].skipped || luck(k).fate.Written?
    ensures var whole, cut := Wholes(ds, 0, s), Commit(ds[s].cl, false);
            var branch := BranchAfter(ds, interval, luck, endsWell, before);
            var record := RecordAfter(ds, interval, luck, endsWell, before);
      && (!endsWell ==> branch == before && record == None)
      && (endsWell && luck(s).fate == Misses ==>
            branch == whole + [cut] && record == if whole == [] then None else Some((whole[|whole| - 1].cl, cut)))
      && (endsWell && luck(s).fate == Raises ==> branch == whole + [cut] && record == None)
      && (endsWell && luck(s).fate == Breaks ==>
            && branch == (if whole == [] then before else whole)
            && record == if whole == [] then None else Some((whole[|whole| - 1].cl, whole[|whole| - 1])))
  {
    StopsThere(ds, interval, luck, 0, s);
    NothingOpened(ds, interval, s);
    WholesEnd(ds, 0, s);
    PositiveWholes(ds, s);
    ReachedIs(ds, interval, luck);
    hide Wholes, LastWanted, StopFrom, Opened;
  }

  lemma {:induction false} NothingOpened(ds: seq<Delivery>, interval: nat, n: nat)
    requires n < interval
    ensures Opened(ds, interval, n) == 0
  {
    if n > 0 { NothingOpened(ds, interval, n - 1); }
  }

  lemma {:induction false} PositiveWholes(ds: seq<Delivery>, n: nat)
    requires Ascending(ds) && n <= |ds|
    ensures Wholes(ds, 0, n) == [] <==> LastWanted(ds, n) == 0
  {
    if n > 0 { PositiveWholes(ds, n - 1); }
  }

  // ---------- The smallest runs that go wrong ----------

  function Two(): seq<Delivery> { [Delivery(1, false), Delivery(2, false)] }

  lemma TwoSessions()
    ensures Ascending(Two()) && NewTo(Two(), 0, [])
    ensures Wholes(Two(), 0, 1) == [Commit(1, true)] && Wholes(Two(), 1, 2) == [Commit(2, true)]
    ensures Opened(Two(), 1, 1) == 1 && Opened(Two(), 1, 2) == 2 && Opened(Two(), 1, 0) == 0
  {
    assert IsCheckpoint(Two(), 1, 0) && IsCheckpoint(Two(), 1, 1);
    assert Wholes(Two(), 0, 0) == [] && Wholes(Two(), 1, 1) == [];
  }

  /** A checkpoint after each of two changelists, and nothing fails: 2 is recorded, and 1 is not on the branch. */
  lemma ReplacedBranchExample(luck: nat -> Luck)
    requires forall k: nat :: luck(k) == Luck(Written, true)
    ensures BranchAfter(Two(), 1, luck, true, []) == [Commit(2, true)]
    ensures RecordAfter(Two(), 1, luck, true, []) == Some((2, Commit(2, true)))
    ensures !Resumable(Two(), 2, [], BranchAfter(Two(), 1, luck, true, []))
  {
    TwoSessions();
    WellEnds(Two(), 1, luck, true);
    assert Wholes(Two(), 2, 2) == [];
    ReachedIs(Two(), 1, luck);
    assert Commit(1, true) !in [Commit(2, true)] && !Two()[0].skipped;
  }

  /** The second checkpoint fails: 2 is recorded, and 1 is on the branch alone. */
  lemma LostCheckpointExample(luck: nat -> Luck)
    requires luck(0) == Luck(Written, true) && luck(1) == Luck(Written, false)
    ensures BranchAfter(Two(), 1, luck, true, []) == [Commit(1, true)]
    ensures RecordAfter(Two(), 1, luck, true, []) == Some((2, Commit(1, true)))
    ensures !Resumable(Two(), 2, [], BranchAfter(Two(), 1, luck, true, []))
  {
    TwoSessions();
    StopsLater(Two(), 1, luck, 0);
    assert Stop(Two(), 1, luck) == 1;
    ReachedIs(Two(), 1, luck);
    assert Commit(2, true) !in [Commit(1, true)] && !Two()[1].skipped;
  }

  /** Files of the second are missing while it is streamed: 1 is recorded with the commit of what is there of 2. */
  lemma CutCommitExample(luck: nat -> Luck)
    requires luck(0) == Luck(Written, true) && luck(1).fate == Misses
    ensures BranchAfter(Two(), 3, luck, true, []) == [Commit(1, true), Commit(2, false)]
    ensures RecordAfter(Two(), 3, luck, true, []) == Some((1, Commit(2, false)))
  {
    TwoSessions();
    StopsLater(Two(), 3, luck, 0);
    assert Stop(Two(), 3, luck) == 1;
    ReachedIs(Two(), 3, luck);
  }
}
