/** What the stop flag does to a prefetching import, and what is left of its threads at the end. */
module PrefetchEnd {
  import opened Options
  import opened Prefetch

  // ---------- The stop flag ----------

  /** No chunk is on its way to a worker, and none will be. */
  predicate NoMoreChunks(s: State, submitted: nat) {
    s.stop && s.submitted == submitted && !s.dispatcher.Seeding? && !s.dispatcher.Submitting?
  }

  lemma StaysWithoutChunks(j: Job, s: State, a: Action, submitted: nat)
    requires NoMoreChunks(s, submitted) && Enabled(j, s, a)
    ensures NoMoreChunks(Next(j, s, a), submitted)
  {
    hide Chunk, Cls;
  }

  /** Once the flag is up, no chunk is handed out any more, but for the one the dispatcher was about to. */
  lemma {:induction false} NothingSubmittedAfterStop(j: Job, before: seq<Action>, after: seq<Action>)
    requires Run(j, before + after).Some? && Run(j, before).Some? && Run(j, before).value.stop
    requires !Run(j, before).value.dispatcher.Seeding? && !Run(j, before).value.dispatcher.Submitting?
    ensures NoMoreChunks(Run(j, before + after).value, Run(j, before).value.submitted)
    decreases |after|
  {
    hide Next, Enabled, Run;
    if after == [] {
      assert before + after == before;
    } else {
      var k := |after| - 1;
      assert before + after == before + after[..k] + [after[k]];
      OneStepBack(j, before + after[..k], after[k]);
      NothingSubmittedAfterStop(j, before, after[..k]);
      StaysWithoutChunks(j, Run(j, before + after[..k]).value, after[k], Run(j, before).value.submitted);
    }
  }

  /** The worker takes no chunk any more: when it comes to its test, it leaves. */
  predicate Winding(s: State, w: nat) { s.stop && w < |s.workers| && !s.workers[w].phase.Getting? }

  lemma StaysWinding(j: Job, s: State, a: Action, w: nat)
    requires Winding(s, w) && Enabled(j, s, a)
    ensures Winding(Next(j, s, a), w) && a != Take(w)
  {
    hide Chunk, Cls;
  }

  lemma TakenWinding(j: Job, s: State, w: nat)
    requires s.stop && Enabled(j, s, Take(w))
    ensures Winding(Next(j, s, Take(w)), w)
  {
  }

  /** A worker that takes a chunk with the flag up never takes another. */
  lemma {:induction false} OneMoreTake(j: Job, before: seq<Action>, w: nat, after: seq<Action>)
    requires Run(j, before).Some? && Run(j, before).value.stop && Run(j, before + [Take(w)] + after).Some?
    ensures Take(w) !in after && Winding(Run(j, before + [Take(w)] + after).value, w)
    decreases |after|
  {
    hide Next, Enabled, Run;
    if after == [] {
      assert before + [Take(w)] + after == before + [Take(w)];
      OneStepBack(j, before, Take(w));
      TakenWinding(j, Run(j, before).value, w);
    } else {
      var k := |after| - 1;
      assert before + [Take(w)] + after == before + [Take(w)] + after[..k] + [after[k]];
      OneStepBack(j, before + [Take(w)] + after[..k], after[k]);
      OneMoreTake(j, before, w, after[..k]);
      StaysWinding(j, Run(j, before + [Take(w)] + after[..k]).value, after[k], w);
      assert after == after[..k] + [after[k]];
    }
  }

  // ---------- What is left of the threads ----------

  ghost predicate Told(w: Worker) { w.phase.Exited? || Quit in w.inbox }

  /** While it closes, the dispatcher tells the workers one by one; in the end it has told them all. */
  ghost predicate AllTold(s: State) {
    match s.dispatcher
    case Closing(next) => next <= |s.workers| && forall i | 0 <= i < next :: Told(s.workers[i])
    case Ending => forall i | 0 <= i < |s.workers| :: Told(s.workers[i])
    case Ended => forall i | 0 <= i < |s.workers| :: Told(s.workers[i])
    case _ => true
  }

  lemma StillTold(j: Job, s: State, a: Action)
    requires AllTold(s) && Enabled(j, s, a)
    ensures AllTold(Next(j, s, a))
  {
    hide Chunk, Cls;
  }

  lemma {:induction false} RunTold(j: Job, steps: seq<Action>)
    requires Run(j, steps).Some?
    ensures AllTold(Run(j, steps).value)
  {
    hide Next, Enabled, AllTold;
    if steps == [] {
      StartTold(j);
    } else {
      RunTold(j, steps[..|steps| - 1]);
      StillTold(j, Run(j, steps[..|steps| - 1]).value, steps[|steps| - 1]);
    }
  }

  lemma StartTold(j: Job)
    ensures AllTold(Start(j))
  {
  }

  ghost predicate AtRest(j: Job, s: State) { forall a :: !Enabled(j, s, a) }

  ghost predicate AllExited(s: State) { forall w | w in s.workers :: w.phase.Exited? }

  /** Everything has ended; or the dispatcher waits forever, with the queue full and nobody to empty it, or
      for the reply of a worker that has left. */
  ghost predicate EndedOrBlocked(j: Job, s: State) {
    && s.main.Left?
    && match s.dispatcher
       case Ended => AllExited(s)
       case Ending => |s.queue| == 2 * j.workers
       case Putting(_, rest) => rest != [] && |s.queue| == 2 * j.workers
       case Collecting(w) => w < |s.workers| && s.workers[w].phase.Exited? && s.workers[w].outbox == []
       case _ => false
  }

  lemma ToldHaveExited(j: Job, s: State)
    requires AtRest(j, s) && (forall i | 0 <= i < |s.workers| :: Told(s.workers[i]))
    ensures AllExited(s)
  {
    forall w | w in s.workers ensures w.phase.Exited? {
      var i :| 0 <= i < |s.workers| && s.workers[i] == w;
      WorkerAtRest(j, s, i);
    }
  }

  lemma WorkerAtRest(j: Job, s: State, i: nat)
    requires AtRest(j, s) && i < |s.workers|
    ensures s.workers[i].phase.Exited? || (s.workers[i].phase.Getting? && s.workers[i].inbox == [])
  {
    assert !Enabled(j, s, Test(i)) && !Enabled(j, s, Take(i)) && !Enabled(j, s, Finish(i)) && !Enabled(j, s, Report(i));
  }

  lemma CollectingAtRest(j: Job, s: State)
    requires Inv(j, s) && AtRest(j, s) && s.dispatcher.Collecting?
    ensures EndedOrBlocked(j, s) || !s.main.Left?
  {
    hide Cls, Chunk, Upto, Idle;
    var k: nat, i := s.chosen - 1, s.dispatcher.wid;
    assert Holding(s.workers[k % j.workers], Chunk(j, k), s.stop);
    assert !Enabled(j, s, Collect);
    WorkerAtRest(j, s, i);
  }

  lemma MainAtRest(j: Job, s: State)
    requires AtRest(j, s)
    ensures s.main.Left?
  {
    assert !Enabled(j, s, Get) && !Enabled(j, s, TimeOut) && !Enabled(j, s, CheckStop) && !Enabled(j, s, Leave);
    assert !Enabled(j, s, Write(true));
  }

  lemma Shape(j: Job, s: State)
    requires Inv(j, s)
    ensures j.workers == |s.workers| > 0 && |s.queue| <= 2 * j.workers
    ensures s.dispatcher.Submitting? ==> s.dispatcher.wid < |s.workers|
  {
    hide Holding, Chunk, Cls, Idle, NotAskedToQuit;
  }

  lemma DispatcherAtRest(j: Job, s: State)
    requires AtRest(j, s)
    ensures !Enabled(j, s, Seed) && !Enabled(j, s, Choose) && !Enabled(j, s, Put) && !Enabled(j, s, Decide)
    ensures !Enabled(j, s, Submit) && !Enabled(j, s, Close) && !Enabled(j, s, End)
  {
  }

  lemma StateAtRest(j: Job, s: State)
    requires Inv(j, s) && AllTold(s) && AtRest(j, s)
    ensures EndedOrBlocked(j, s)
  {
    MainAtRest(j, s);
    Shape(j, s);
    DispatcherAtRest(j, s);
    if s.dispatcher.Collecting? { CollectingAtRest(j, s); }
    if s.dispatcher.Ended? { ToldHaveExited(j, s); }
    hide Inv, AtRest;
  }

  /** When no step is possible any more, the import loop has left, and the threads have ended or the
      dispatcher is blocked in one of three ways. */
  lemma {:induction false} RestsExactly(j: Job, steps: seq<Action>)
    requires j.Valid() && Run(j, steps).Some? && AtRest(j, Run(j, steps).value)
    ensures EndedOrBlocked(j, Run(j, steps).value)
  {
    hide Run, Inv, AllTold, AtRest, EndedOrBlocked;
    RunInv(j, steps);
    RunTold(j, steps);
    StateAtRest(j, Run(j, steps).value);
  }

  // ---------- Without failures every thread ends ----------

  /** With everything delivered there is nothing to wait for. */
  lemma NothingBlocks(j: Job, s: State)
    requires Inv(j, s) && Clean(j, s) && EndedOrBlocked(j, s)
    ensures s.dispatcher.Ended? && AllExited(s) && |s.delivered| == |j.changes|
  {
    hide Chunk, Cls, Holding, Idle, NotAskedToQuit, Assigned;
    assert |Sent(s)| <= |j.changes|;
    if !s.dispatcher.Ended? { QueueIsCounted(s.queue); }
  }

  lemma {:induction false} QueueIsCounted(q: seq<Option<CL>>)
    requires forall i | 0 <= i < |q| :: q[i].Some?
    ensures |Cls(q)| == |q|
  {
    if q != [] { QueueIsCounted(q[..|q| - 1]); }
  }

  /** Without failures, a run that no step carries further has delivered everything, and all threads have ended. */
  lemma {:induction false} EverythingEnds(j: Job, steps: seq<Action>)
    requires j.Valid() && Run(j, steps).Some? && NoFailure(steps) && AtRest(j, Run(j, steps).value)
    ensures var s := Run(j, steps).value;
            s.main.Left? && s.dispatcher.Ended? && AllExited(s) && s.delivered == j.changes
  {
    hide Run, Inv, Clean, AtRest;
    RestsExactly(j, steps);
    RunInv(j, steps);
    RunClean(j, steps);
    NothingBlocks(j, Run(j, steps).value);
    EverythingDelivered(j, steps);
  }

  // ---------- With a failure they need not ----------

  /** One worker, and a chunk of four changelists. */
  function Four(): Job { Job([1, 2, 3, 4], 1) }

  const BLOCKING: seq<Action> := [
    Seed, Seed, Test(0), Take(0), Finish(0), Choose, Collect, Put, Put, Get, Put, Write(false), Leave, Test(0)
  ]

  /** The worker's side: before and after it has extracted the chunk. */
  function Extracting4(n: nat): State
    requires n <= 5
  {
    var chunk := [1, 2, 3, 4];
    var w := match n
             case 0 => Worker([], Testing, [])
             case 1 => Worker([Extract(chunk)], Testing, [])
             case 2 => Worker([Extract(chunk)], Testing, [])
             case 3 => Worker([Extract(chunk)], Getting, [])
             case 4 => Worker([], WorkerPhase.Extracting(chunk), [])
             case _ => Worker([], Testing, [Results(chunk)]);
    State(if n == 0 then 0 else 1, if n == 0 then [] else [0], 0, if n < 2 then Seeding else Choosing,
          [w], [], false, Awaiting, [])
  }

  /** The queue's side: two are queued, one is handed over, and the next takes its place. */
  function Putting4(n: nat): State
    requires 5 < n <= 11
  {
    var chunk := [1, 2, 3, 4];
    var w := Worker([], Testing, if n == 6 then [Results(chunk)] else []);
    var rest := if n == 6 || n == 7 then chunk else if n == 8 then [2, 3, 4] else if n < 11 then [3, 4] else [4];
    var queue := if n < 8 then [] else if n == 8 then [Some(1)] else if n == 9 then [Some(1), Some(2)]
                 else if n == 10 then [Some(2)] else [Some(2), Some(3)];
    State(1, [0], 1, if n == 6 then Collecting(0) else Putting(0, rest), [w], queue, false,
          if n < 10 then Awaiting else Writing, if n < 10 then [] else [1])
  }

  /** The loop leaves, and the worker with it. */
  function Blocked4(n: nat): State
    requires 11 < n <= 14
  {
    State(1, [0], 1, Putting(0, [4]), [Worker([], if n < 14 then Testing else Exited, [])], [Some(2), Some(3)],
          n >= 13, if n == 12 then Leaving else Left, [1])
  }

  function State4(n: nat): State
    requires n <= 14
  {
    if n <= 5 then Extracting4(n) else if n <= 11 then Putting4(n) else Blocked4(n)
  }

  ghost predicate Leads(n: nat)
    requires n < 14
  {
    Enabled(Four(), State4(n), BLOCKING[n]) && Next(Four(), State4(n), BLOCKING[n]) == State4(n + 1)
  }

  lemma ExtractingLeads(n: nat)
    requires n < 5
    ensures Leads(n)
  {
    assert Chunk(Four(), 0) == [1, 2, 3, 4];
    hide Chunk;
    var s, s' := Next(Four(), State4(n), BLOCKING[n]), State4(n + 1);
    assert s.workers[0].inbox == s'.workers[0].inbox && s.workers[0].outbox == s'.workers[0].outbox;
    assert s.workers == s'.workers;
  }

  lemma CollectingLeads(n: nat)
    requires 5 <= n < 8
    ensures Leads(n)
  {
    hide Chunk;
    var s, s' := Next(Four(), State4(n), BLOCKING[n]), State4(n + 1);
    assert s.workers[0].inbox == s'.workers[0].inbox && s.workers[0].outbox == s'.workers[0].outbox;
    assert s.workers == s'.workers;
    assert s.queue == s'.queue;
  }

  lemma PuttingLeads(n: nat)
    requires 8 <= n < 11
    ensures Leads(n)
  {
    hide Chunk;
    var s, s' := Next(Four(), State4(n), BLOCKING[n]), State4(n + 1);
    assert s.workers[0].inbox == s'.workers[0].inbox && s.workers[0].outbox == s'.workers[0].outbox;
    assert s.workers == s'.workers;
    assert s.queue == s'.queue;
  }

  lemma BlockedLeads(n: nat)
    requires 11 <= n < 14
    ensures Leads(n)
  {
    hide Chunk;
    assert Next(Four(), State4(n), BLOCKING[n]).workers == State4(n + 1).workers;
  }

  lemma BlockingStart()
    ensures Start(Four()) == State4(0)
  {
    assert Start(Four()).workers == State4(0).workers;
  }

  lemma {:induction false} BlockingRun(n: nat)
    requires n <= 14
    ensures Run(Four(), BLOCKING[..n]) == Some(State4(n))
  {
    hide Next, Enabled, State4;
    if n == 0 {
      BlockingStart();
    } else {
      BlockingRun(n - 1);
      if n - 1 < 5 { ExtractingLeads(n - 1); } else if n - 1 < 8 { CollectingLeads(n - 1); }
      else if n - 1 < 11 { PuttingLeads(n - 1); } else { BlockedLeads(n - 1); }
      assert BLOCKING[..n][..n - 1] == BLOCKING[..n - 1];
    }
  }

  /** The first of four changelists cannot be written, and the loop leaves: the dispatcher waits forever to
      put the last one into a full queue that nobody empties any more. */
  lemma BlockedExample()
    ensures Run(Four(), BLOCKING).Some? && AtRest(Four(), Run(Four(), BLOCKING).value)
    ensures var s := Run(Four(), BLOCKING).value; s.dispatcher == Putting(0, [4]) && s.delivered == [1] && s.main.Left?
  {
    BlockingRun(14);
    assert BLOCKING[..14] == BLOCKING;
    hide Run;
    assert AtRest(Four(), Blocked4(14));
  }
}
