/** The prefetch pipeline of the initial import: a dispatcher, its extraction workers and the import
    loop, joined by queues, as steps that may interleave in any order and fail at any point. */
module Prefetch {
  import opened Options
  import opened Text
  import opened RoundRobin
  import StateStores

  type CL = StateStores.CL

  /** Changelists per chunk handed to a worker. */
  const DESCRIBE_BATCH_SIZE := 10

  /** What a worker is sent, and what it answers. */
  datatype Task = Extract(cls: seq<CL>) | Quit
  datatype Reply = Results(cls: seq<CL>) | Failed

  datatype WorkerPhase = Testing | Getting | Extracting(cls: seq<CL>) | Reporting | Exited

  datatype Worker = Worker(inbox: seq<Task>, phase: WorkerPhase, outbox: seq<Reply>)

  datatype DispatcherPhase =
    | Seeding
    | Choosing
    | Collecting(wid: nat)
    | Putting(wid: nat, rest: seq<CL>)
    | Submitting(wid: nat)
    | Closing(next: nat)
    | Ending
    | Ended

  datatype MainPhase = Awaiting | TimedOut | Writing | Leaving | Left

  /** All changelists to import, in order, and the number of workers. */
  datatype Job = Job(changes: seq<CL>, workers: nat) {
    predicate Valid() { workers > 0 && changes != [] }
  }

  /** pending is the order in which replies are collected; chosen counts those already picked. */
  datatype State = State(
    submitted: nat, pending: seq<nat>, chosen: nat, dispatcher: DispatcherPhase,
    workers: seq<Worker>, queue: seq<Option<CL>>, stop: bool,
    main: MainPhase, delivered: seq<CL>)

  datatype Action =
    | Seed | Choose | Collect | Put | Decide | Submit | Close | End
    | Test(w: nat) | Take(w: nat) | Finish(w: nat) | Fail(w: nat) | Report(w: nat)
    | Get | TimeOut | CheckStop | Write(ok: bool) | Interrupt | Leave

  function ChunkCount(j: Job): nat { (|j.changes| + (DESCRIBE_BATCH_SIZE - 1)) / DESCRIBE_BATCH_SIZE }

  /** How many changelists the first k chunks hold. */
  function Upto(j: Job, k: nat): nat { Min(DESCRIBE_BATCH_SIZE * k, |j.changes|) }

  function Chunk(j: Job, k: nat): seq<CL> { j.changes[Upto(j, k)..Upto(j, k + 1)] }

  function Capacity(j: Job): nat { 2 * j.workers }

  function Start(j: Job): State {
    State(0, [], 0, Seeding, seq(j.workers, _ => Worker([], Testing, [])), [], false, Awaiting, [])
  }

  // ---------- Steps ----------

  predicate Enabled(j: Job, s: State, a: Action) {
    match a
    case Seed => s.dispatcher.Seeding? && |s.workers| == j.workers > 0
    case Choose => s.dispatcher.Choosing?
    case Collect =>
      s.dispatcher.Collecting? && s.dispatcher.wid < |s.workers| && s.workers[s.dispatcher.wid].outbox != []
    case Put => s.dispatcher.Putting? && s.dispatcher.rest != [] && |s.queue| < Capacity(j)
    case Decide => s.dispatcher.Putting? && s.dispatcher.rest == []
    case Submit => s.dispatcher.Submitting? && s.dispatcher.wid < |s.workers|
    case Close => s.dispatcher.Closing?
    case End => s.dispatcher.Ending? && |s.queue| < Capacity(j)
    case Test(w) => w < |s.workers| && s.workers[w].phase.Testing?
    case Take(w) => w < |s.workers| && s.workers[w].phase.Getting? && s.workers[w].inbox != []
    case Finish(w) => w < |s.workers| && s.workers[w].phase.Extracting?
    case Fail(w) => w < |s.workers| && s.workers[w].phase.Extracting?
    case Report(w) => w < |s.workers| && s.workers[w].phase.Reporting?
    case Get => s.main.Awaiting? && s.queue != []
    case TimeOut => s.main.Awaiting? && s.queue == []
    case CheckStop => s.main.TimedOut?
    case Write(_) => s.main.Writing?
    case Interrupt => !s.main.Leaving? && !s.main.Left?
    case Leave => s.main.Leaving?
  }

  /** Put the next chunk into a worker's queue and note whose reply to wait for. */
  function SubmitTo(j: Job, s: State, wid: nat): State
    requires wid < |s.workers|
  {
    var w := s.workers[wid];
    s.(workers := s.workers[wid := w.(inbox := w.inbox + [Extract(Chunk(j, s.submitted))])],
       pending := s.pending + [wid],
       submitted := s.submitted + 1)
  }

  function Dispatch(j: Job, s: State, a: Action): State
    requires Enabled(j, s, a)
  {
    match a
    case Seed =>
      if s.submitted < Min(j.workers, ChunkCount(j)) then SubmitTo(j, s, s.submitted % j.workers)
      else s.(dispatcher := Choosing)
    case Choose =>
      if s.chosen >= |s.pending| || s.stop then s.(dispatcher := Closing(0))
      else s.(dispatcher := Collecting(s.pending[s.chosen]), chosen := s.chosen + 1)
    case Collect =>
      var wid := s.dispatcher.wid;
      var w := s.workers[wid];
      var took := s.(workers := s.workers[wid := w.(outbox := w.outbox[1..])]);
      (match w.outbox[0]
       case Results(cls) => took.(dispatcher := Putting(wid, cls))
       case Failed => took.(dispatcher := Closing(0)))
    case Put =>
      s.(queue := s.queue + [Some(s.dispatcher.rest[0])],
         dispatcher := Putting(s.dispatcher.wid, s.dispatcher.rest[1..]))
    case Decide =>
      if s.submitted < ChunkCount(j) && !s.stop then s.(dispatcher := Submitting(s.dispatcher.wid))
      else s.(dispatcher := Choosing)
    case Submit => SubmitTo(j, s, s.dispatcher.wid).(dispatcher := Choosing)
    case Close =>
      var k := s.dispatcher.next;
      if k < |s.workers| then
        s.(workers := s.workers[k := s.workers[k].(inbox := s.workers[k].inbox + [Quit])], dispatcher := Closing(k + 1))
      else s.(dispatcher := Ending)
    case End => s.(queue := s.queue + [None], dispatcher := Ended)
    case _ => s
  }

  function Work(j: Job, s: State, a: Action): State
    requires Enabled(j, s, a)
  {
    match a
    case Test(i) => s.(workers := s.workers[i := s.workers[i].(phase := if s.stop then Exited else Getting)])
    case Take(i) =>
      var w := s.workers[i];
      var phase := if w.inbox[0].Quit? then Exited else Extracting(w.inbox[0].cls);
      s.(workers := s.workers[i := w.(inbox := w.inbox[1..], phase := phase)])
    case Finish(i) =>
      var w := s.workers[i];
      s.(workers := s.workers[i := w.(phase := Testing, outbox := w.outbox + [Results(w.phase.cls)])])
    case Fail(i) => s.(stop := true, workers := s.workers[i := s.workers[i].(phase := Reporting)])
    case Report(i) =>
      var w := s.workers[i];
      s.(workers := s.workers[i := w.(phase := Testing, outbox := w.outbox + [Failed])])
    case _ => s
  }

  function Import(j: Job, s: State, a: Action): State
    requires Enabled(j, s, a)
  {
    match a
    case Get =>
      var rest := s.(queue := s.queue[1..]);
      (match s.queue[0]
       case None => rest.(main := Leaving)
       case Some(cl) => rest.(main := Writing, delivered := s.delivered + [cl]))
    case TimeOut => s.(main := TimedOut)
    case CheckStop => s.(main := if s.stop then Leaving else Awaiting)
    case Write(ok) => s.(main := if ok && |s.delivered| < |j.changes| then Awaiting else Leaving)
    case Interrupt => s.(main := Leaving)
    case Leave => s.(main := Left, stop := true)
    case _ => s
  }

  predicate OfDispatcher(a: Action) {
    a.Seed? || a.Choose? || a.Collect? || a.Put? || a.Decide? || a.Submit? || a.Close? || a.End?
  }

  predicate OfWorker(a: Action) { a.Test? || a.Take? || a.Finish? || a.Fail? || a.Report? }

  function Next(j: Job, s: State, a: Action): State
    requires Enabled(j, s, a)
  {
    if OfDispatcher(a) then Dispatch(j, s, a) else if OfWorker(a) then Work(j, s, a) else Import(j, s, a)
  }

  /** Where a sequence of steps leads, if each was possible when it was taken. */
  function Run(j: Job, steps: seq<Action>): Option<State> {
    if steps == [] then Some(Start(j))
    else
      var last := steps[|steps| - 1];
      var before :- Run(j, steps[..|steps| - 1]);
      if Enabled(j, before, last) then Some(Next(j, before, last)) else None
  }

  // ---------- What every interleaving keeps ----------

  function Cls(q: seq<Option<CL>>): seq<CL> {
    if q == [] then [] else
      var last := q[|q| - 1];
      Cls(q[..|q| - 1]) + if last.Some? then [last.value] else []
  }

  lemma {:induction false} ClsFront(q: seq<Option<CL>>)
    requires q != []
    ensures Cls(q) == (if q[0].Some? then [q[0].value] else []) + Cls(q[1..])
    ensures |Cls(q)| <= |q|
  {
    var k := |q| - 1;
    if k > 0 {
      ClsFront(q[..k]);
      assert q[..k][1..] == q[1..][..k - 1];
      assert q[1..][k - 1] == q[k];
    }
  }

  lemma ClsBack(q: seq<Option<CL>>, x: Option<CL>)
    ensures Cls(q + [x]) == Cls(q) + if x.Some? then [x.value] else []
  {
    assert (q + [x])[..|q|] == q;
  }

  /** Changelists sent to the import loop so far, with those still being put. */
  function Sent(s: State): seq<CL> {
    s.delivered + Cls(s.queue) + if s.dispatcher.Putting? then s.dispatcher.rest else []
  }

  predicate IsClosing(s: State) { s.dispatcher.Closing? || s.dispatcher.Ending? || s.dispatcher.Ended? }

  /** Replies collected. */
  function Collected(s: State): nat {
    if s.dispatcher.Collecting? && s.chosen > 0 then s.chosen - 1 else s.chosen
  }

  ghost predicate OnlyQuits(inbox: seq<Task>) { forall t | t in inbox :: t.Quit? }

  /** The worker has this chunk and nothing else: queued, in hand, or answered. */
  ghost predicate Holding(w: Worker, cls: seq<CL>, stop: bool) {
    || (w.phase == Extracting(cls) && OnlyQuits(w.inbox) && w.outbox == [])
    || (w.phase == Reporting && OnlyQuits(w.inbox) && w.outbox == [] && stop)
    || (Waiting(w) && w.outbox == [] && w.inbox != [] && w.inbox[0] == Extract(cls) && OnlyQuits(w.inbox[1..])
        && (w.phase.Exited? ==> stop))
    || (Waiting(w) && OnlyQuits(w.inbox) && (w.outbox == [Results(cls)] || (w.outbox == [Failed] && stop)))
  }

  predicate Waiting(w: Worker) { w.phase.Testing? || w.phase.Getting? || w.phase.Exited? }

  ghost predicate Idle(w: Worker) { Waiting(w) && OnlyQuits(w.inbox) && w.outbox == [] }

  /** Chunk k is handed to worker k mod W, and it is that worker's only one until its reply is collected. */
  ghost predicate Assigned(j: Job, s: State)
    requires j.workers > 0
  {
    && |s.workers| == j.workers && |s.pending| == s.submitted
    && (forall k | 0 <= k < s.submitted :: s.pending[k] == k % j.workers)
    && (forall k: nat | Collected(s) <= k < s.submitted :: Holding(s.workers[k % j.workers], Chunk(j, k), s.stop))
    && (forall w: nat | w < j.workers && Unassigned(j, s, w) :: Idle(s.workers[w]))
    && (!IsClosing(s) ==> forall w: nat | w < j.workers :: NotAskedToQuit(s.workers[w], s.stop))
  }

  ghost predicate NotAskedToQuit(w: Worker, stop: bool) {
    Quit !in w.inbox && (w.phase.Exited? ==> stop)
  }

  ghost predicate Unassigned(j: Job, s: State, w: nat)
    requires j.workers > 0
  {
    forall k: nat | Collected(s) <= k < s.submitted :: k % j.workers != w
  }

  /** The window of chunks in flight is as wide as the workers allow, and slides by one. */
  ghost predicate Windowed(j: Job, s: State)
    requires j.workers > 0
  {
    var n, W := ChunkCount(j), j.workers;
    && s.chosen <= s.submitted <= n && s.submitted <= Collected(s) + W
    && match s.dispatcher
       case Seeding => s.chosen == 0 && s.submitted <= Min(W, n)
       case Choosing => s.stop || s.submitted == Min(n, s.chosen + W)
       case Collecting(w) => s.chosen > 0 && w == (s.chosen - 1) % W && s.submitted == Min(n, s.chosen - 1 + W)
       case Putting(w, rest) =>
         && s.chosen > 0 && w == (s.chosen - 1) % W && s.submitted == Min(n, s.chosen - 1 + W)
         && |rest| <= DESCRIBE_BATCH_SIZE
       case Submitting(w) => s.chosen > 0 && w == (s.chosen - 1) % W && s.submitted == s.chosen - 1 + W < n
       case Closing(next) => next <= W
       case _ => true
  }

  /** What is sent is a prefix of the changelists, whole chunks while the dispatcher is collecting. */
  ghost predicate InOrder(j: Job, s: State) {
    && Sent(s) <= j.changes
    && |Sent(s)| <= Upto(j, Collected(s)) && (!IsClosing(s) ==> |Sent(s)| == Upto(j, Collected(s)))
    && |s.queue| <= Capacity(j)
    && (forall i | 0 <= i < |s.queue| :: s.queue[i].None? ==> s.dispatcher.Ended? && i == |s.queue| - 1)
    && (s.dispatcher.Ended? && !s.main.Leaving? && !s.main.Left? ==> s.queue != [] && s.queue[|s.queue| - 1].None?)
    && (s.main.Awaiting? || s.main.TimedOut? ==> |s.delivered| < |j.changes|)
    && (s.main.Left? ==> s.stop)
  }

  ghost predicate Inv(j: Job, s: State) {
    j.Valid() && Assigned(j, s) && Windowed(j, s) && InOrder(j, s)
  }

  // ---------- The dispatcher's steps ----------

  lemma SomeTask(inbox: seq<Task>)
    ensures inbox == [] || exists t :: t in inbox
  {
    if inbox != [] { assert inbox[0] in inbox; }
  }

  lemma SubmitKeeps(j: Job, s: State, wid: nat)
    requires Inv(j, s) && !IsClosing(s) && s.submitted < ChunkCount(j)
    requires wid == s.submitted % j.workers && Unassigned(j, s, wid) && s.submitted < Collected(s) + j.workers
    requires !s.dispatcher.Collecting?
    ensures Assigned(j, SubmitTo(j, s, wid))
  {
    hide Cls, Chunk, Sent, Upto, InOrder;
    var s' := SubmitTo(j, s, wid);
    var w, w' := s.workers[wid], s'.workers[wid];
    assert Idle(w) && NotAskedToQuit(w, s.stop);
    SomeTask(w.inbox);
    assert w'.inbox == [Extract(Chunk(j, s.submitted))];
    forall k: nat | Collected(s') <= k < s'.submitted
      ensures Holding(s'.workers[k % j.workers], Chunk(j, k), s'.stop)
    {
      if k < s.submitted { assert k % j.workers != wid; }
    }
    forall v: nat | v < j.workers && Unassigned(j, s', v) ensures Idle(s'.workers[v]) {
      assert s.submitted % j.workers != v;
      assert Unassigned(j, s, v);
    }
  }

  lemma SeedKeeps(j: Job, s: State)
    requires Inv(j, s) && Enabled(j, s, Seed)
    ensures Inv(j, Next(j, s, Seed))
  {
    hide Holding, Cls, Chunk;
    if s.submitted < Min(j.workers, ChunkCount(j)) {
      forall k: nat | Collected(s) <= k < s.submitted ensures k % j.workers != s.submitted % j.workers {
        OtherTurn(k, s.submitted, j.workers);
      }
      SubmitKeeps(j, s, s.submitted % j.workers);
    }
  }

  lemma ChooseKeeps(j: Job, s: State)
    requires Inv(j, s) && Enabled(j, s, Choose)
    ensures Inv(j, Next(j, s, Choose))
  {
    hide Holding, Cls, Chunk, Idle;
    var s' := Next(j, s, Choose);
    assert forall w: nat | w < j.workers :: Unassigned(j, s', w) == Unassigned(j, s, w);
  }

  /** A collected chunk leaves its worker with nothing, for nobody else works on its chunks. */
  lemma CollectedIsIdle(j: Job, s: State)
    requires Inv(j, s) && Enabled(j, s, Collect)
    ensures var k, s' := s.chosen - 1, Next(j, s, Collect);
            var w := s.workers[k % j.workers];
            && s.dispatcher.wid == k % j.workers && Idle(s'.workers[k % j.workers])
            && NotAskedToQuit(s'.workers[k % j.workers], s'.stop)
            && (w.outbox == [Results(Chunk(j, k))] || (w.outbox == [Failed] && s.stop))
  {
    hide Cls, Chunk;
    var k: nat := s.chosen - 1;
    assert Collected(s) <= k < s.submitted;
    assert Holding(s.workers[k % j.workers], Chunk(j, k), s.stop);
  }

  lemma CollectAssigned(j: Job, s: State)
    requires Inv(j, s) && Enabled(j, s, Collect)
    ensures Assigned(j, Next(j, s, Collect))
  {
    hide InOrder, Upto;
    CollectedIsIdle(j, s);
    hide Holding, Cls, Chunk, Idle, NotAskedToQuit;
    var s', c := Next(j, s, Collect), s.chosen - 1;
    forall k: nat | s.chosen <= k < s.submitted ensures Holding(s'.workers[k % j.workers], Chunk(j, k), s'.stop) {
      OtherTurn(c, k, j.workers);
    }
    forall w: nat | w < j.workers && Unassigned(j, s', w) ensures Idle(s'.workers[w]) {
      if w != c % j.workers { assert Unassigned(j, s, w); }
    }
  }

  lemma ChunkSize(j: Job, k: nat)
    requires k < ChunkCount(j)
    ensures 0 < |Chunk(j, k)| <= DESCRIBE_BATCH_SIZE && Upto(j, k) + |Chunk(j, k)| == Upto(j, k + 1)
    ensures j.changes[..Upto(j, k)] + Chunk(j, k) == j.changes[..Upto(j, k + 1)]
  {
  }

  lemma OneMoreChunk(j: Job, k: nat, sent: seq<CL>)
    requires k < ChunkCount(j) && sent <= j.changes && |sent| == Upto(j, k)
    ensures sent + Chunk(j, k) <= j.changes && |sent + Chunk(j, k)| == Upto(j, k + 1)
  {
    ChunkSize(j, k);
    assert sent == j.changes[..Upto(j, k)];
  }

  lemma CollectStep(j: Job, s: State)
    requires Inv(j, s) && Enabled(j, s, Collect)
    ensures var s', k := Next(j, s, Collect), s.chosen - 1;
            && s' == s.(dispatcher := s'.dispatcher, workers := s'.workers)
            && 0 <= k < ChunkCount(j) && s.dispatcher.Collecting?
            && (s'.dispatcher == Closing(0) || s'.dispatcher == Putting(s.dispatcher.wid, Chunk(j, k)))
  {
    CollectedIsIdle(j, s);
    hide Holding, Chunk, Idle, NotAskedToQuit, InOrder;
  }

  lemma CollectInOrder(j: Job, s: State)
    requires Inv(j, s) && Enabled(j, s, Collect)
    ensures InOrder(j, Next(j, s, Collect))
  {
    CollectStep(j, s);
    hide Next, Enabled, Assigned, Windowed, InOrder, Chunk, ChunkCount;
    InOrderWithChunk(j, s, Next(j, s, Collect));
  }

  lemma InOrderWithChunk(j: Job, s: State, s': State)
    requires InOrder(j, s) && s.dispatcher.Collecting? && 0 < s.chosen <= ChunkCount(j)
    requires s' == s.(dispatcher := s'.dispatcher, workers := s'.workers)
    requires s'.dispatcher == Closing(0) || s'.dispatcher == Putting(s.dispatcher.wid, Chunk(j, s.chosen - 1))
    ensures InOrder(j, s')
  {
    hide Cls, Chunk, Upto, ChunkCount, Sent;
    OneMoreChunk(j, s.chosen - 1, Sent(s));
    SentWithChunk(s, s');
  }

  lemma SentWithChunk(s: State, s': State)
    requires s' == s.(dispatcher := s'.dispatcher, workers := s'.workers) && !s.dispatcher.Putting?
    ensures Sent(s') == Sent(s) + if s'.dispatcher.Putting? then s'.dispatcher.rest else []
  {
  }

  lemma CollectWindowed(j: Job, s: State)
    requires Inv(j, s) && Enabled(j, s, Collect)
    ensures Windowed(j, Next(j, s, Collect))
  {
    CollectStep(j, s);
    hide Next, Enabled, Assigned, InOrder, Chunk, Upto, ChunkCount;
    ChunkSize(j, s.chosen - 1);
  }

  lemma CollectKeeps(j: Job, s: State)
    requires Inv(j, s) && Enabled(j, s, Collect)
    ensures Inv(j, Next(j, s, Collect))
  {
    CollectAssigned(j, s);
    CollectInOrder(j, s);
    CollectWindowed(j, s);
    hide Assigned, Windowed, InOrder, Next, Enabled;
  }

  lemma PutKeeps(j: Job, s: State)
    requires Inv(j, s) && Enabled(j, s, Put)
    ensures Inv(j, Next(j, s, Put))
  {
    hide Holding, Cls, Idle, NotAskedToQuit, Chunk, Upto;
    var s', rest := Next(j, s, Put), s.dispatcher.rest;
    ClsBack(s.queue, Some(rest[0]));
    assert [rest[0]] + rest[1..] == rest;
    assert Sent(s') == Sent(s);
    assert forall w: nat | w < j.workers :: Unassigned(j, s', w) == Unassigned(j, s, w);
  }

  lemma DecideKeeps(j: Job, s: State)
    requires Inv(j, s) && Enabled(j, s, Decide)
    ensures Inv(j, Next(j, s, Decide))
  {
    hide Holding, Cls, Idle, NotAskedToQuit, Chunk, Upto;
    var s' := Next(j, s, Decide);
    assert forall w: nat | w < j.workers :: Unassigned(j, s', w) == Unassigned(j, s, w);
  }

  lemma SubmitStepKeeps(j: Job, s: State)
    requires Inv(j, s) && Enabled(j, s, Submit)
    ensures Inv(j, Next(j, s, Submit))
  {
    hide Holding, Cls, Chunk, Idle, NotAskedToQuit, Upto;
    var c: nat := s.chosen - 1;
    SameTurn(c, j.workers);
    forall k: nat | Collected(s) <= k < s.submitted ensures k % j.workers != s.dispatcher.wid {
      OtherTurn(c, k, j.workers);
    }
    SubmitKeeps(j, s, s.dispatcher.wid);
    var t, s' := SubmitTo(j, s, s.dispatcher.wid), Next(j, s, Submit);
    assert forall w: nat | w < j.workers :: Unassigned(j, s', w) == Unassigned(j, t, w);
  }

  lemma AskToQuit(w: Worker, cls: seq<CL>, stop: bool)
    ensures Idle(w) ==> Idle(w.(inbox := w.inbox + [Quit]))
    ensures Holding(w, cls, stop) ==> Holding(w.(inbox := w.inbox + [Quit]), cls, stop)
  {
    var inbox := w.inbox + [Quit];
    assert w.inbox != [] ==> inbox[1..] == w.inbox[1..] + [Quit];
  }

  lemma CloseKeeps(j: Job, s: State)
    requires Inv(j, s) && Enabled(j, s, Close)
    ensures Inv(j, Next(j, s, Close))
  {
    hide Holding, Cls, Idle, NotAskedToQuit, Chunk, Upto;
    var s', i := Next(j, s, Close), s.dispatcher.next;
    forall k: nat | Collected(s) <= k < s.submitted ensures Holding(s'.workers[k % j.workers], Chunk(j, k), s'.stop) {
      AskToQuit(s.workers[k % j.workers], Chunk(j, k), s.stop);
    }
    forall w: nat | w < j.workers && Unassigned(j, s', w) ensures Idle(s'.workers[w]) {
      assert Unassigned(j, s, w);
      AskToQuit(s.workers[w], [], s.stop);
    }
  }

  lemma EndKeeps(j: Job, s: State)
    requires Inv(j, s) && Enabled(j, s, End)
    ensures Inv(j, Next(j, s, End))
  {
    hide Holding, Cls, Idle, NotAskedToQuit, Chunk, Upto;
    var s' := Next(j, s, End);
    ClsBack(s.queue, None);
    assert Sent(s') == Sent(s);
    assert forall w: nat | w < j.workers :: Unassigned(j, s', w) == Unassigned(j, s, w);
  }

  lemma DispatcherKeeps(j: Job, s: State, a: Action)
    requires Inv(j, s) && Enabled(j, s, a) && OfDispatcher(a)
    ensures Inv(j, Next(j, s, a))
  {
    hide Inv, Enabled, Dispatch;
    match a
    case Seed => SeedKeeps(j, s);
    case Choose => ChooseKeeps(j, s);
    case Collect => CollectKeeps(j, s);
    case Put => PutKeeps(j, s);
    case Decide => DecideKeeps(j, s);
    case Submit => SubmitStepKeeps(j, s);
    case Close => CloseKeeps(j, s);
    case End => EndKeeps(j, s);
  }

  // ---------- The workers' steps ----------

  /** A worker step that keeps its own chunk and raises no less than the stop flag. */
  ghost predicate SlotStep(s: State, s': State, i: nat) {
    && i < |s.workers| == |s'.workers|
    && s' == s.(workers := s.workers[i := s'.workers[i]], stop := s'.stop)
    && (s.stop ==> s'.stop)
    && (Idle(s.workers[i]) ==> Idle(s'.workers[i]))
    && (NotAskedToQuit(s.workers[i], s.stop) ==> NotAskedToQuit(s'.workers[i], s'.stop))
    && (forall cls :: Holding(s.workers[i], cls, s.stop) ==> Holding(s'.workers[i], cls, s'.stop))
  }

  lemma SlotKeeps(j: Job, s: State, s': State, i: nat)
    requires Inv(j, s) && SlotStep(s, s', i)
    ensures Inv(j, s')
  {
    hide Cls, Chunk, Upto, Idle;
    forall k: nat | Collected(s) <= k < s.submitted ensures Holding(s'.workers[k % j.workers], Chunk(j, k), s'.stop) {
      assert Holding(s.workers[k % j.workers], Chunk(j, k), s.stop);
    }
    forall w: nat | w < j.workers && Unassigned(j, s', w) ensures Idle(s'.workers[w]) { assert Unassigned(j, s, w); }
  }

  lemma TestKeeps(j: Job, s: State, i: nat)
    requires Inv(j, s) && Enabled(j, s, Test(i))
    ensures SlotStep(s, Next(j, s, Test(i)), i)
  {
    hide Inv;
  }

  lemma TakeKeeps(j: Job, s: State, i: nat)
    requires Inv(j, s) && Enabled(j, s, Take(i))
    ensures SlotStep(s, Next(j, s, Take(i)), i)
  {
    hide Inv;
    var w := s.workers[i];
    assert w.inbox[0] in w.inbox;
    assert forall t | t in w.inbox[1..] :: t in w.inbox;
  }

  lemma FinishKeeps(j: Job, s: State, i: nat)
    requires Inv(j, s) && Enabled(j, s, Finish(i))
    ensures SlotStep(s, Next(j, s, Finish(i)), i)
  {
    hide Inv;
  }

  lemma FailKeeps(j: Job, s: State, i: nat)
    requires Inv(j, s) && Enabled(j, s, Fail(i))
    ensures SlotStep(s, Next(j, s, Fail(i)), i)
  {
    hide Inv;
  }

  lemma ReportKeeps(j: Job, s: State, i: nat)
    requires Inv(j, s) && Enabled(j, s, Report(i))
    ensures SlotStep(s, Next(j, s, Report(i)), i)
  {
    hide Inv;
  }

  lemma WorkerKeeps(j: Job, s: State, a: Action)
    requires Inv(j, s) && Enabled(j, s, a) && OfWorker(a)
    ensures Inv(j, Next(j, s, a))
  {
    hide Inv, SlotStep;
    match a
    case Test(i) => TestKeeps(j, s, i);
      SlotKeeps(j, s, Next(j, s, a), i);
    case Take(i) => TakeKeeps(j, s, i);
      SlotKeeps(j, s, Next(j, s, a), i);
    case Finish(i) => FinishKeeps(j, s, i);
      SlotKeeps(j, s, Next(j, s, a), i);
    case Fail(i) => FailKeeps(j, s, i);
      SlotKeeps(j, s, Next(j, s, a), i);
    case Report(i) => ReportKeeps(j, s, i);
      SlotKeeps(j, s, Next(j, s, a), i);
  }

  // ---------- The import loop's steps ----------

  lemma GetKeeps(j: Job, s: State)
    requires Inv(j, s) && Enabled(j, s, Get)
    ensures Inv(j, Next(j, s, Get))
  {
    hide Holding, Cls, Idle, NotAskedToQuit, Chunk, Upto, ChunkCount;
    var s' := Next(j, s, Get);
    ClsFront(s.queue);
    assert Sent(s') == Sent(s);
    assert forall w: nat | w < j.workers :: Unassigned(j, s', w) == Unassigned(j, s, w);
  }

  lemma LeaveKeeps(j: Job, s: State)
    requires Inv(j, s) && Enabled(j, s, Leave)
    ensures Inv(j, Next(j, s, Leave))
  {
    hide Cls, Idle, Chunk, Upto;
    var s' := Next(j, s, Leave);
    assert Sent(s') == Sent(s);
    assert forall w: nat | w < j.workers :: Unassigned(j, s', w) == Unassigned(j, s, w);
  }

  lemma WindowedKept(j: Job, s: State, s': State)
    requires j.workers > 0 && Windowed(j, s) && s' == s.(main := s'.main)
    ensures Windowed(j, s')
  {
  }

  lemma ImportKeeps(j: Job, s: State, a: Action)
    requires Inv(j, s) && Enabled(j, s, a) && (a.TimeOut? || a.CheckStop? || a.Write? || a.Interrupt?)
    ensures Inv(j, Next(j, s, a))
  {
    hide Cls, Idle, Chunk, Upto, Holding, NotAskedToQuit, ChunkCount, Windowed;
    var s' := Next(j, s, a);
    assert s' == s.(main := s'.main);
    assert Windowed(j, s') by { WindowedKept(j, s, s'); }
    assert Sent(s') == Sent(s);
    assert forall w: nat | w < j.workers :: Unassigned(j, s', w) == Unassigned(j, s, w);
  }

  // ---------- Every run ----------

  lemma StartInv(j: Job)
    requires j.Valid()
    ensures Inv(j, Start(j))
  {
  }

  lemma {:induction false} RunInv(j: Job, steps: seq<Action>)
    requires j.Valid() && Run(j, steps).Some?
    ensures Inv(j, Run(j, steps).value)
  {
    hide Inv, Next, Enabled;
    if steps == [] {
      StartInv(j);
    } else {
      var a := steps[|steps| - 1];
      RunInv(j, steps[..|steps| - 1]);
      var s := Run(j, steps[..|steps| - 1]).value;
      if OfDispatcher(a) { DispatcherKeeps(j, s, a); }
      else if OfWorker(a) { WorkerKeeps(j, s, a); }
      else if a.Get? { GetKeeps(j, s); }
      else if a.Leave? { LeaveKeeps(j, s); }
      else { ImportKeeps(j, s, a); }
    }
  }

  /** Whatever interleaves and whatever fails, the import loop is handed a prefix of the changelists, in order. */
  lemma {:induction false} DeliveredInOrder(j: Job, steps: seq<Action>)
    requires j.Valid() && Run(j, steps).Some?
    ensures Run(j, steps).value.delivered <= j.changes
  {
    RunInv(j, steps);
    var s := Run(j, steps).value;
    assert s.delivered <= Sent(s);
  }

  /** Chunk k always goes to worker k mod W, and at most W chunks are in flight. */
  lemma {:induction false} ChunksInTurn(j: Job, steps: seq<Action>)
    requires j.Valid() && Run(j, steps).Some?
    ensures var s := Run(j, steps).value;
            && |s.pending| == s.submitted && (forall k | 0 <= k < s.submitted :: s.pending[k] == k % j.workers)
            && Collected(s) <= s.submitted <= Collected(s) + j.workers
  {
    RunInv(j, steps);
  }

  // ---------- How much waits ----------

  function ReplySizes(q: seq<Reply>): nat {
    if q == [] then 0 else (if q[0].Results? then |q[0].cls| else 0) + ReplySizes(q[1..])
  }

  function Answered(ws: seq<Worker>): nat {
    if ws == [] then 0 else Answered(ws[..|ws| - 1]) + ReplySizes(ws[|ws| - 1].outbox)
  }

  /** Changelists extracted but not yet handed to the import loop. */
  function ExtractedWaiting(s: State): nat {
    Answered(s.workers) + |Cls(s.queue)| + if s.dispatcher.Putting? then |s.dispatcher.rest| else 0
  }

  lemma {:induction false} AnsweredBound(ws: seq<Worker>, idle: nat)
    requires forall w | w in ws :: ReplySizes(w.outbox) <= DESCRIBE_BATCH_SIZE
    requires idle < |ws| ==> ws[idle].outbox == []
    ensures Answered(ws) <= DESCRIBE_BATCH_SIZE * if idle < |ws| then |ws| - 1 else |ws|
  {
    if ws != [] {
      assert ws[|ws| - 1] in ws;
      assert forall w | w in ws[..|ws| - 1] :: w in ws;
      AnsweredBound(ws[..|ws| - 1], idle);
    }
  }

  lemma OutboxBound(j: Job, s: State, w: nat)
    requires Inv(j, s) && w < j.workers
    ensures ReplySizes(s.workers[w].outbox) <= DESCRIBE_BATCH_SIZE
  {
    hide Cls, Chunk, Upto, NotAskedToQuit, Windowed, InOrder;
    if !Unassigned(j, s, w) {
      var k: nat :| Collected(s) <= k < s.submitted && k % j.workers == w;
      assert Holding(s.workers[w], Chunk(j, k), s.stop);
      WindowedChunk(j, s, k);
      ChunkSize(j, k);
    }
  }

  lemma WindowedChunk(j: Job, s: State, k: nat)
    requires j.workers > 0 && Windowed(j, s) && k < s.submitted
    ensures k < ChunkCount(j)
  {
  }

  lemma PuttingIsIdle(j: Job, s: State)
    requires Inv(j, s) && s.dispatcher.Putting?
    ensures s.dispatcher.wid < j.workers && s.workers[s.dispatcher.wid].outbox == []
  {
    hide Cls, Chunk, Upto, NotAskedToQuit, InOrder, Holding;
    forall k: nat | Collected(s) <= k < s.submitted ensures k % j.workers != s.dispatcher.wid {
      OtherTurn(s.chosen - 1, k, j.workers);
    }
    assert Unassigned(j, s, s.dispatcher.wid);
  }

  /** At most ten changelists a worker and a full queue are ever extracted ahead of the import loop. */
  lemma {:induction false} WaitingIsBounded(j: Job, steps: seq<Action>)
    requires j.Valid() && Run(j, steps).Some?
    ensures ExtractedWaiting(Run(j, steps).value) <= 10 * j.workers + 2 * j.workers
    ensures |Run(j, steps).value.queue| <= 2 * j.workers
  {
    RunInv(j, steps);
    hide Run, Cls, ReplySizes, Holding, Idle, Chunk, Upto, NotAskedToQuit, Inv;
    var s := Run(j, steps).value;
    WaitingInState(j, s);
  }

  lemma WaitingInState(j: Job, s: State)
    requires Inv(j, s)
    ensures ExtractedWaiting(s) <= DESCRIBE_BATCH_SIZE * j.workers + Capacity(j)
  {
    hide Cls, ReplySizes, Holding, Idle, Chunk, Upto, NotAskedToQuit, Answered;
    forall w | w in s.workers ensures ReplySizes(w.outbox) <= DESCRIBE_BATCH_SIZE {
      var i :| 0 <= i < |s.workers| && s.workers[i] == w;
      OutboxBound(j, s, i);
    }
    if s.queue != [] { ClsFront(s.queue); }
    assert |Cls(s.queue)| <= Capacity(j) by { NoneQueued(); }
    if s.dispatcher.Putting? {
      PuttingIsIdle(j, s);
      AnsweredBound(s.workers, s.dispatcher.wid);
    } else {
      AnsweredBound(s.workers, |s.workers|);
    }
  }

  lemma NoneQueued()
    ensures Cls([]) == []
  {
  }

  // ---------- Nothing goes on for ever ----------

  function TaskWeight(t: Task): nat { if t.Extract? then 4 else 0 }

  function InboxWeight(q: seq<Task>): nat {
    if q == [] then 0 else InboxWeight(q[..|q| - 1]) + TaskWeight(q[|q| - 1])
  }

  function PhaseWeight(p: WorkerPhase): nat {
    match p
    case Testing => 2
    case Getting => 1
    case Extracting(_) => 4
    case Reporting => 3
    case Exited => 0
  }

  function WorkerWeight(w: Worker): nat { PhaseWeight(w.phase) + InboxWeight(w.inbox) }

  function WorkersWeight(ws: seq<Worker>): nat {
    if ws == [] then 0 else WorkersWeight(ws[..|ws| - 1]) + WorkerWeight(ws[|ws| - 1])
  }

  function DispatcherWeight(j: Job, p: DispatcherPhase): int {
    match p
    case Seeding => j.workers + 9
    case Choosing => j.workers + 3
    case Collecting(_) => j.workers + 7
    case Putting(_, _) => j.workers + 6
    case Submitting(_) => j.workers + 5
    case Closing(k) => j.workers - k + 2
    case Ending => 1
    case Ended => 0
  }

  function MainWeight(s: State): nat {
    match s.main
    case Awaiting => 3
    case TimedOut => if s.stop then 2 else 3
    case Writing => 4
    case Leaving => 1
    case Left => 0
  }

  /** Steps still to come, at most. */
  function Measure(j: Job, s: State): int {
    5 * (ChunkCount(j) - s.submitted) + 5 * (ChunkCount(j) - s.chosen)
    + (|j.changes| - |s.delivered| - |Cls(s.queue)|) + 3 * (|j.changes| - |s.delivered|)
    + DispatcherWeight(j, s.dispatcher) + MainWeight(s) + WorkersWeight(s.workers)
  }

  /** The import loop asking again because nothing has come yet. */
  predicate Polls(s: State, a: Action) { (a.TimeOut? || a.CheckStop?) && !s.stop }

  lemma {:induction false} OneWorkerChanged(ws: seq<Worker>, i: nat, w: Worker)
    requires i < |ws|
    ensures WorkersWeight(ws[i := w]) == WorkersWeight(ws) - WorkerWeight(ws[i]) + WorkerWeight(w)
  {
    var k := |ws| - 1;
    if i < k {
      OneWorkerChanged(ws[..k], i, w);
      assert ws[i := w][..k] == ws[..k][i := w];
    } else {
      assert ws[i := w][..k] == ws[..k];
    }
  }

  lemma {:induction false} InboxFront(q: seq<Task>)
    requires q != []
    ensures InboxWeight(q) == TaskWeight(q[0]) + InboxWeight(q[1..])
  {
    var k := |q| - 1;
    if k > 0 {
      InboxFront(q[..k]);
      assert q[..k][1..] == q[1..][..k - 1];
      assert q[1..][k - 1] == q[k];
    }
  }

  lemma InboxBack(q: seq<Task>, t: Task)
    ensures InboxWeight(q + [t]) == InboxWeight(q) + TaskWeight(t)
  {
    assert (q + [t])[..|q|] == q;
  }

  lemma SubmitWeight(j: Job, s: State, wid: nat)
    requires wid < |s.workers|
    ensures WorkersWeight(SubmitTo(j, s, wid).workers) == WorkersWeight(s.workers) + 4
  {
    hide WorkersWeight, InboxWeight;
    var w := s.workers[wid];
    var t := Extract(Chunk(j, s.submitted));
    InboxBack(w.inbox, t);
    OneWorkerChanged(s.workers, wid, w.(inbox := w.inbox + [t]));
  }

  lemma DispatcherMeasure(j: Job, s: State, a: Action)
    requires Inv(j, s) && Enabled(j, s, a) && OfDispatcher(a) && !a.Close? && !a.Collect?
    ensures Measure(j, Next(j, s, a)) < Measure(j, s)
  {
    hide WorkersWeight, InboxWeight, Holding, Cls, Chunk, Idle, NotAskedToQuit, Upto, InOrder, Assigned;
    match a
    case Seed => if s.submitted < Min(j.workers, ChunkCount(j)) { SubmitWeight(j, s, s.submitted % j.workers); }
    case Put => ClsBack(s.queue, Some(s.dispatcher.rest[0]));
    case Submit => SubmitWeight(j, s, s.dispatcher.wid);
    case End => ClsBack(s.queue, None);
    case _ =>
  }

  lemma CloseMeasure(j: Job, s: State)
    requires Inv(j, s) && Enabled(j, s, Close)
    ensures Measure(j, Next(j, s, Close)) < Measure(j, s)
  {
    hide WorkersWeight, InboxWeight, Holding, Cls, Chunk, Idle, NotAskedToQuit, Upto, InOrder;
    var k := s.dispatcher.next;
    if k < |s.workers| {
      var w := s.workers[k];
      InboxBack(w.inbox, Quit);
      OneWorkerChanged(s.workers, k, w.(inbox := w.inbox + [Quit]));
    }
  }

  lemma CollectMeasure(j: Job, s: State)
    requires Inv(j, s) && Enabled(j, s, Collect)
    ensures Measure(j, Next(j, s, Collect)) < Measure(j, s)
  {
    hide WorkersWeight, InboxWeight, Holding, Cls, Chunk, Idle, NotAskedToQuit, Upto, InOrder;
    var i := s.dispatcher.wid;
    OneWorkerChanged(s.workers, i, s.workers[i].(outbox := s.workers[i].outbox[1..]));
  }

  lemma WorkerMeasure(j: Job, s: State, a: Action)
    requires Inv(j, s) && Enabled(j, s, a) && OfWorker(a)
    ensures Measure(j, Next(j, s, a)) < Measure(j, s)
  {
    hide WorkersWeight, InboxWeight, Inv, Cls, Chunk, Upto, ChunkCount, DispatcherWeight;
    var s' := Next(j, s, a);
    match a
    case Take(i) => InboxFront(s.workers[i].inbox);
      OneWorkerChanged(s.workers, i, s'.workers[i]);
    case Test(i) => OneWorkerChanged(s.workers, i, s'.workers[i]);
    case Finish(i) => OneWorkerChanged(s.workers, i, s'.workers[i]);
    case Fail(i) => OneWorkerChanged(s.workers, i, s'.workers[i]);
    case Report(i) => OneWorkerChanged(s.workers, i, s'.workers[i]);
  }

  lemma ImportMeasure(j: Job, s: State, a: Action)
    requires Inv(j, s) && Enabled(j, s, a) && !OfDispatcher(a) && !OfWorker(a)
    ensures Measure(j, Next(j, s, a)) <= Measure(j, s)
    ensures !Polls(s, a) ==> Measure(j, Next(j, s, a)) < Measure(j, s)
  {
    hide WorkersWeight, InboxWeight, Assigned, Windowed, Cls, Chunk, Upto;
    if a.Get? { ClsFront(s.queue); }
  }

  lemma MeasureDrops(j: Job, s: State, a: Action)
    requires Inv(j, s) && Enabled(j, s, a)
    ensures Measure(j, Next(j, s, a)) <= Measure(j, s)
    ensures !Polls(s, a) ==> Measure(j, Next(j, s, a)) < Measure(j, s)
  {
    hide Measure, Inv, Next;
    if OfWorker(a) { WorkerMeasure(j, s, a); }
    else if a.Close? { CloseMeasure(j, s); }
    else if a.Collect? { CollectMeasure(j, s); }
    else if OfDispatcher(a) { DispatcherMeasure(j, s, a); }
    else { ImportMeasure(j, s, a); }
  }

  /** The steps of a run that were not the import loop polling. */
  function Effort(j: Job, steps: seq<Action>): nat
    requires Run(j, steps).Some?
  {
    if steps == [] then 0
    else
      var before, last := steps[..|steps| - 1], steps[|steps| - 1];
      Effort(j, before) + if Polls(Run(j, before).value, last) then 0 else 1
  }

  lemma MeasureIsNatural(j: Job, s: State)
    requires Inv(j, s)
    ensures Measure(j, s) >= 0
  {
    hide WorkersWeight, Assigned, Chunk, Upto, Cls;
    assert |Sent(s)| <= |j.changes|;
  }

  lemma {:induction false} FreshWorkers(n: nat)
    ensures WorkersWeight(seq(n, _ => Worker([], Testing, []))) == 2 * n
  {
    if n > 0 {
      FreshWorkers(n - 1);
      assert seq(n, _ => Worker([], Testing, []))[..n - 1] == seq(n - 1, _ => Worker([], Testing, []));
    }
  }

  lemma {:induction false} EffortAndMeasure(j: Job, steps: seq<Action>)
    requires j.Valid() && Run(j, steps).Some?
    ensures Effort(j, steps) + Measure(j, Run(j, steps).value)
         <= 10 * ChunkCount(j) + 4 * |j.changes| + 3 * j.workers + 12
  {
    hide Measure, Inv, Next, ChunkCount, Enabled;
    if steps == [] {
      StartMeasure(j);
    } else {
      var before := steps[..|steps| - 1];
      EffortAndMeasure(j, before);
      RunInv(j, before);
      MeasureDrops(j, Run(j, before).value, steps[|steps| - 1]);
    }
  }

  lemma StartMeasure(j: Job)
    ensures Measure(j, Start(j)) == 10 * ChunkCount(j) + 4 * |j.changes| + 3 * j.workers + 12
  {
    FreshWorkers(j.workers);
  }

  /** Apart from polling, no run takes more steps than its changelists and workers account for. */
  lemma {:induction false} RunsAreFinite(j: Job, steps: seq<Action>)
    requires j.Valid() && Run(j, steps).Some?
    ensures Effort(j, steps) <= 10 * ChunkCount(j) + 4 * |j.changes| + 3 * j.workers + 12
  {
    hide Measure, Inv, Run;
    EffortAndMeasure(j, steps);
    RunInv(j, steps);
    MeasureIsNatural(j, Run(j, steps).value);
  }

  // ---------- Nothing gets stuck ----------

  predicate Fails(a: Action) { a.Fail? || a == Write(false) || a.Interrupt? }

  /** A step that is neither a failure nor a poll is possible. */
  ghost predicate CanGoOn(j: Job, s: State) {
    exists a :: Enabled(j, s, a) && !Fails(a) && !Polls(s, a)
  }

  /** The state once a timed-out wait has looked at the stop flag. */
  function Settled(s: State): State { if s.main.TimedOut? && !s.stop then s.(main := Awaiting) else s }

  lemma CollectingGoesOn(j: Job, s: State)
    requires Inv(j, s) && s.dispatcher.Collecting? && !s.stop
    ensures CanGoOn(j, s)
  {
    hide Cls, Chunk, Upto;
    var k: nat, i := s.chosen - 1, s.dispatcher.wid;
    var w := s.workers[i];
    assert Holding(s.workers[k % j.workers], Chunk(j, k), s.stop);
    if w.outbox != [] { assert Enabled(j, s, Collect); }
    else if w.phase.Extracting? { assert Enabled(j, s, Finish(i)); }
    else if w.phase.Testing? { assert Enabled(j, s, Test(i)); }
    else { assert Enabled(j, s, Take(i)); }
  }

  lemma DispatcherGoesOn(j: Job, s: State)
    requires Inv(j, s) && s.main.Awaiting? && s.queue == [] && !s.stop
    ensures CanGoOn(j, s)
  {
    hide Holding, Cls, Chunk, Upto, Idle, NotAskedToQuit;
    match s.dispatcher
    case Seeding => assert Enabled(j, s, Seed);
    case Choosing => assert Enabled(j, s, Choose);
    case Collecting(_) => CollectingGoesOn(j, s);
    case Putting(_, rest) => assert if rest == [] then Enabled(j, s, Decide) else Enabled(j, s, Put);
    case Submitting(_) => assert Enabled(j, s, Submit);
    case Closing(_) => assert Enabled(j, s, Close);
    case Ending => assert Enabled(j, s, End);
    case Ended => assert false;
  }

  lemma StateGoesOn(j: Job, s: State)
    requires Inv(j, s) && !s.main.Left? && (s.main.TimedOut? ==> s.stop)
    ensures CanGoOn(j, s)
  {
    hide Inv;
    match s.main
    case Leaving => assert Enabled(j, s, Leave);
    case Writing => assert Enabled(j, s, Write(true));
    case TimedOut => assert Enabled(j, s, CheckStop);
    case Awaiting =>
      if s.queue != [] { assert Enabled(j, s, Get); }
      else if s.stop { assert Enabled(j, s, TimeOut); }
      else { DispatcherGoesOn(j, s); }
  }

  /** Until the import loop has left, something can always go on, whatever has failed. */
  lemma {:induction false} NeverStuck(j: Job, steps: seq<Action>)
    requires j.Valid() && Run(j, steps).Some? && !Run(j, steps).value.main.Left?
    ensures CanGoOn(j, Settled(Run(j, steps).value))
  {
    hide Inv, CanGoOn;
    RunInv(j, steps);
    var s := Run(j, steps).value;
    if s.main.TimedOut? && !s.stop { ImportKeeps(j, s, CheckStop); }
    StateGoesOn(j, Settled(s));
  }

  // ---------- Without failures everything is delivered ----------

  ghost predicate NoFailure(steps: seq<Action>) { forall a | a in steps :: !Fails(a) }

  ghost predicate Sound(w: Worker) { !w.phase.Reporting? && Failed !in w.outbox }

  ghost predicate Clean(j: Job, s: State) {
    && (forall w | w in s.workers :: Sound(w))
    && (s.stop || s.main.Leaving? || s.main.Left? ==> |s.delivered| == |j.changes|)
    && (IsClosing(s) ==> |Sent(s)| == |j.changes|)
  }

  lemma CleanChoose(j: Job, s: State)
    requires Inv(j, s) && Clean(j, s) && Enabled(j, s, Choose)
    ensures Clean(j, Next(j, s, Choose))
  {
    hide Cls, Chunk, Assigned;
    assert |s.pending| == s.submitted by { PendingCount(j, s); }
    assert |Sent(s)| <= |j.changes|;
  }

  lemma PendingCount(j: Job, s: State)
    requires Inv(j, s)
    ensures |s.pending| == s.submitted && |s.workers| == j.workers
  {
  }

  lemma CleanCollect(j: Job, s: State)
    requires Inv(j, s) && Clean(j, s) && Enabled(j, s, Collect)
    ensures Clean(j, Next(j, s, Collect))
  {
    CollectedIsIdle(j, s);
    hide Cls, Chunk, Assigned, Upto, Holding;
    assert s.workers[s.dispatcher.wid] in s.workers;
    assert s.workers[s.dispatcher.wid].outbox[0] in s.workers[s.dispatcher.wid].outbox;
  }

  lemma CleanGet(j: Job, s: State)
    requires Inv(j, s) && Clean(j, s) && Enabled(j, s, Get)
    ensures Clean(j, Next(j, s, Get))
  {
    hide Cls, Chunk, Assigned, Upto, Holding;
    ClsFront(s.queue);
    assert s.queue[0].None? ==> s.queue[1..] == [];
    NoneQueued();
    assert Sent(Next(j, s, Get)) == Sent(s);
  }

  lemma CleanWrite(j: Job, s: State)
    requires Inv(j, s) && Clean(j, s) && Enabled(j, s, Write(true))
    ensures Clean(j, Next(j, s, Write(true)))
  {
    hide Cls, Chunk, Assigned, Upto, Holding;
    assert |s.delivered| <= |Sent(s)| <= |j.changes|;
  }

  lemma CleanWork(j: Job, s: State, a: Action)
    requires Clean(j, s) && Enabled(j, s, a) && OfWorker(a) && !Fails(a)
    ensures Clean(j, Next(j, s, a))
  {
    hide Cls, Chunk;
    var s' := Next(j, s, a);
    assert Sent(s') == Sent(s);
    forall w | w in s'.workers ensures Sound(w) {
      var i :| 0 <= i < |s'.workers| && s'.workers[i] == w;
      assert Sound(s.workers[i]);
    }
  }

  lemma CleanDispatch(j: Job, s: State, a: Action)
    requires Clean(j, s) && Enabled(j, s, a) && OfDispatcher(a) && !a.Choose? && !a.Collect?
    ensures Clean(j, Next(j, s, a))
  {
    hide Cls, Chunk;
    var s' := Next(j, s, a);
    if a.End? {
      ClsBack(s.queue, None);
      assert Sent(s') == Sent(s);
    }
    forall w | w in s'.workers ensures Sound(w) {
      var i :| 0 <= i < |s'.workers| && s'.workers[i] == w;
      assert Sound(s.workers[i]);
    }
  }

  lemma CleanImport(j: Job, s: State, a: Action)
    requires Clean(j, s) && Enabled(j, s, a) && (a.TimeOut? || a.CheckStop? || a.Leave?)
    ensures Clean(j, Next(j, s, a))
  {
    assert Sent(Next(j, s, a)) == Sent(s);
  }

  lemma {:induction false} RunClean(j: Job, steps: seq<Action>)
    requires j.Valid() && Run(j, steps).Some? && NoFailure(steps)
    ensures Clean(j, Run(j, steps).value)
  {
    hide Inv, Clean, Next, Enabled;
    if steps == [] {
      StartClean(j);
    } else {
      var before, a := steps[..|steps| - 1], steps[|steps| - 1];
      RunInv(j, before);
      RunClean(j, before);
      assert !Fails(a);
      var s := Run(j, before).value;
      match a
      case Choose => CleanChoose(j, s);
      case Collect => CleanCollect(j, s);
      case Get => CleanGet(j, s);
      case Write(_) => CleanWrite(j, s);
      case _ =>
        if OfWorker(a) { CleanWork(j, s, a); }
        else if OfDispatcher(a) { CleanDispatch(j, s, a); }
        else { CleanImport(j, s, a); }
    }
  }

  lemma StartClean(j: Job)
    ensures Clean(j, Start(j))
  {
  }

  /** If nothing fails, the import loop ends with every changelist, in order. */
  lemma {:induction false} EverythingDelivered(j: Job, steps: seq<Action>)
    requires j.Valid() && Run(j, steps).Some? && NoFailure(steps) && Run(j, steps).value.main.Left?
    ensures Run(j, steps).value.delivered == j.changes
  {
    RunClean(j, steps);
    DeliveredInOrder(j, steps);
  }

  /** A failure-free run that nothing but polling could carry further has ended, with everything delivered. */
  lemma {:induction false} StopsComplete(j: Job, steps: seq<Action>)
    requires j.Valid() && Run(j, steps).Some? && NoFailure(steps) && !CanGoOn(j, Settled(Run(j, steps).value))
    ensures Run(j, steps).value.main.Left? && Run(j, steps).value.delivered == j.changes
  {
    hide Run, CanGoOn, NoFailure;
    if !Run(j, steps).value.main.Left? { NeverStuck(j, steps); }
    EverythingDelivered(j, steps);
  }

  lemma OneMoreStep(j: Job, steps: seq<Action>, a: Action)
    requires Run(j, steps).Some? && Enabled(j, Run(j, steps).value, a) && NoFailure(steps) && !Fails(a)
    ensures Run(j, steps + [a]) == Some(Next(j, Run(j, steps).value, a)) && NoFailure(steps + [a])
  {
    hide Next, Enabled;
    assert (steps + [a])[..|steps|] == steps;
  }

  /** A wait that has timed out looks at the stop flag, and the run stands where it stood. */
  lemma SettledRun(j: Job, steps: seq<Action>) returns (more: seq<Action>)
    requires j.Valid() && Run(j, steps).Some? && NoFailure(steps)
    ensures |more| <= 1 && Run(j, steps + more) == Some(Settled(Run(j, steps).value)) && NoFailure(steps + more)
    ensures Measure(j, Settled(Run(j, steps).value)) <= Measure(j, Run(j, steps).value)
  {
    hide Run, Inv, Measure;
    var s := Run(j, steps).value;
    if s.main.TimedOut? && !s.stop {
      RunInv(j, steps);
      MeasureDrops(j, s, CheckStop);
      OneMoreStep(j, steps, CheckStop);
      more := [CheckStop];
    } else {
      more := [];
      assert steps + more == steps;
    }
  }

  /** Every failure-free run can be carried on without a failure to that end. */
  lemma {:induction false} Completable(j: Job, steps: seq<Action>) returns (more: seq<Action>)
    requires j.Valid() && Run(j, steps).Some? && NoFailure(steps)
    ensures NoFailure(steps + more) && Run(j, steps + more).Some?
    ensures var s := Run(j, steps + more).value; s.main.Left? && s.delivered == j.changes
    decreases Measure(j, Run(j, steps).value)
  {
    hide Run, Inv, Measure, Enabled, Next, NoFailure, Fails;
    var s := Run(j, steps).value;
    RunInv(j, steps);
    MeasureIsNatural(j, s);
    if s.main.Left? {
      more := [];
      assert steps + more == steps;
      EverythingDelivered(j, steps);
    } else {
      NeverStuck(j, steps);
      var settle := SettledRun(j, steps);
      var a :| Enabled(j, Settled(s), a) && !Fails(a) && !Polls(Settled(s), a);
      RunInv(j, steps + settle);
      MeasureDrops(j, Settled(s), a);
      OneMoreStep(j, steps + settle, a);
      var rest := Completable(j, steps + settle + [a]);
      more := settle + [a] + rest;
      assert steps + more == steps + settle + [a] + rest;
    }
  }

  // ---------- After a failure nothing more is delivered ----------

  lemma {:induction false} RunSplits(j: Job, before: seq<Action>, after: seq<Action>)
    requires Run(j, before + after).Some?
    ensures Run(j, before).Some?
    decreases |after|
  {
    if after == [] {
      assert before + after == before;
    } else {
      var k := |after| - 1;
      assert (before + after)[..|before + after| - 1] == before + after[..k];
      RunSplits(j, before, after[..k]);
    }
  }

  lemma OneStepBack(j: Job, before: seq<Action>, a: Action)
    requires Run(j, before + [a]).Some?
    ensures Run(j, before).Some? && Enabled(j, Run(j, before).value, a)
    ensures Run(j, before + [a]).value == Next(j, Run(j, before).value, a)
  {
    assert (before + [a])[..|before|] == before && (before + [a])[|before|] == a;
  }

  /** The import loop is on its way out, and what it was handed stays as it was. */
  predicate LoopEnded(s: State, delivered: seq<CL>) { (s.main.Leaving? || s.main.Left?) && s.delivered == delivered }

  lemma StaysEnded(j: Job, s: State, a: Action, delivered: seq<CL>)
    requires LoopEnded(s, delivered) && Enabled(j, s, a)
    ensures LoopEnded(Next(j, s, a), delivered)
  {
  }

  predicate Stopped(j: Job, steps: seq<Action>) { Run(j, steps).Some? && Run(j, steps).value.stop }

  /** Once a changelist could not be written, the import was interrupted, or a wait that timed out has seen the
      stop flag, nothing more is delivered. */
  lemma {:induction false} NothingAfterFailure(j: Job, before: seq<Action>, f: Action, after: seq<Action>)
    requires f == Write(false) || f == Interrupt || (f == CheckStop && Stopped(j, before))
    requires Run(j, before + [f] + after).Some?
    ensures Run(j, before).Some?
    ensures var s := Run(j, before + [f] + after).value;
      (s.main == Leaving || s.main == Left) && s.delivered == Run(j, before).value.delivered
    decreases |after|
  {
    hide Next, Enabled, Run;
    if after == [] {
      assert before + [f] + after == before + [f];
      OneStepBack(j, before, f);
      EndsAt(j, Run(j, before).value, f);
    } else {
      var k := |after| - 1;
      assert before + [f] + after == before + [f] + after[..k] + [after[k]];
      OneStepBack(j, before + [f] + after[..k], after[k]);
      NothingAfterFailure(j, before, f, after[..k]);
      StaysEnded(j, Run(j, before + [f] + after[..k]).value, after[k], Run(j, before).value.delivered);
    }
  }

  lemma EndsAt(j: Job, s: State, f: Action)
    requires (f == Write(false) || f == Interrupt || (f == CheckStop && s.stop)) && Enabled(j, s, f)
    ensures LoopEnded(Next(j, s, f), s.delivered)
  {
  }

  /** Chunk k has failed: its reply will close the dispatcher, or has done so, and no later chunk gets past it. */
  ghost predicate Failing(j: Job, s: State, k: nat)
    requires j.workers > 0 && |s.workers| == j.workers
  {
    && s.stop
    && if IsClosing(s) then |Sent(s)| <= Upto(j, k)
       else Collected(s) <= k < s.submitted
            && (s.workers[k % j.workers].phase.Reporting? || s.workers[k % j.workers].outbox == [Failed])
  }

  lemma UptoGrows(j: Job, a: nat, b: nat)
    requires a <= b
    ensures Upto(j, a) <= Upto(j, b)
  {
  }

  /** While the dispatcher collects, less has been sent than comes before the failed chunk. */
  lemma FailingSent(j: Job, s: State, k: nat)
    requires Inv(j, s) && Failing(j, s, k)
    ensures |Sent(s)| <= Upto(j, k)
  {
    hide Sent, Assigned, Windowed, Upto;
    UptoGrows(j, Collected(s), if IsClosing(s) then Collected(s) else k);
  }

  /** What collecting a reply does to the worker of a later chunk, and to what is sent. */
  lemma CollectLeaves(j: Job, s: State, k: nat)
    requires Inv(j, s) && Enabled(j, s, Collect) && s.chosen - 1 <= k < s.submitted
    ensures var s', c := Next(j, s, Collect), s.chosen - 1;
      && s'.stop == s.stop && s'.submitted == s.submitted && |s'.workers| == |s.workers| && Collected(s') == c + 1
      && (c < k ==> s'.workers[k % j.workers] == s.workers[k % j.workers])
      && (IsClosing(s') ==> Sent(s') == Sent(s))
      && (s.workers[c % j.workers].outbox == [Failed] ==> IsClosing(s'))
      && s.workers[c % j.workers].outbox != []
  {
    CollectedIsIdle(j, s);
    var c: nat := s.chosen - 1;
    if c < k { OtherTurn(c, k, j.workers); }
    hide Holding, Chunk, Upto, Cls, Idle, NotAskedToQuit, InOrder;
  }

  lemma ReportingHasNoReply(w: Worker, cls: seq<CL>, stop: bool)
    requires Holding(w, cls, stop) && w.phase.Reporting?
    ensures w.outbox == []
  {
  }

  lemma FailedReply(j: Job, s: State, k: nat)
    requires Inv(j, s) && Failing(j, s, k) && !IsClosing(s)
    ensures s.workers[k % j.workers].outbox == [] || s.workers[k % j.workers].outbox == [Failed]
  {
    hide Idle, Chunk, Cls, Upto, InOrder, NotAskedToQuit;
    assert Holding(s.workers[k % j.workers], Chunk(j, k), s.stop);
    if s.workers[k % j.workers].phase.Reporting? {
      ReportingHasNoReply(s.workers[k % j.workers], Chunk(j, k), s.stop);
    }
  }

  lemma FailingCollect(j: Job, s: State, k: nat)
    requires Inv(j, s) && Failing(j, s, k) && Enabled(j, s, Collect)
    ensures Inv(j, Next(j, s, Collect)) && Failing(j, Next(j, s, Collect), k)
  {
    hide Inv, Next, Chunk, Upto, Sent;
    CollectKeeps(j, s);
    FailingSent(j, s, k);
    FailedReply(j, s, k);
    CollectLeaves(j, s, k);
  }

  /** With the stop flag up, the dispatcher's other steps touch no reply and choose no other. */
  lemma RepliesStay(j: Job, s: State, a: Action)
    requires s.stop && Enabled(j, s, a) && OfDispatcher(a) && !a.Collect?
    ensures var s' := Next(j, s, a);
      && s'.stop && |s'.workers| == |s.workers| && s.submitted <= s'.submitted
      && (forall w | 0 <= w < |s.workers| ::
            s'.workers[w].phase == s.workers[w].phase && s'.workers[w].outbox == s.workers[w].outbox)
      && (!IsClosing(s') ==> !IsClosing(s) && Collected(s') == Collected(s))
      && (IsClosing(s') ==> Sent(s') == Sent(s))
  {
    hide Chunk, ChunkCount, Cls;
    if a.End? { ClsBack(s.queue, None); }
  }

  lemma FailingDispatch(j: Job, s: State, k: nat, a: Action)
    requires Inv(j, s) && Failing(j, s, k) && Enabled(j, s, a) && OfDispatcher(a) && !a.Collect?
    ensures Inv(j, Next(j, s, a)) && Failing(j, Next(j, s, a), k)
  {
    hide Next, Enabled, Sent, Windowed, InOrder, Upto, Collected, IsClosing;
    DispatcherKeeps(j, s, a);
    FailingSent(j, s, k);
    RepliesStay(j, s, a);
  }

  lemma FailingTake(j: Job, s: State, k: nat, w: nat)
    requires Inv(j, s) && Failing(j, s, k) && Enabled(j, s, Take(w))
    ensures Failing(j, Next(j, s, Take(w)), k)
  {
    hide Chunk, Upto, Cls, Idle, NotAskedToQuit, Windowed;
    if !IsClosing(s) { assert Holding(s.workers[k % j.workers], Chunk(j, k), s.stop); }
    assert Sent(Next(j, s, Take(w))) == Sent(s) && s.workers[w].inbox[0] in s.workers[w].inbox;
  }

  lemma FailingOther(j: Job, s: State, k: nat, a: Action)
    requires Inv(j, s) && Failing(j, s, k) && Enabled(j, s, a) && OfWorker(a) && !a.Take?
    ensures Failing(j, Next(j, s, a), k)
  {
    hide Chunk, Upto, Cls, Idle, NotAskedToQuit, Windowed;
    if !IsClosing(s) { assert Holding(s.workers[k % j.workers], Chunk(j, k), s.stop); }
    hide Inv;
    assert Sent(Next(j, s, a)) == Sent(s);
    hide Sent;
  }

  lemma FailingWork(j: Job, s: State, k: nat, a: Action)
    requires Inv(j, s) && Failing(j, s, k) && Enabled(j, s, a) && OfWorker(a)
    ensures Inv(j, Next(j, s, a)) && Failing(j, Next(j, s, a), k)
  {
    hide Inv, Failing, Enabled, Next;
    WorkerKeeps(j, s, a);
    if a.Take? { FailingTake(j, s, k, a.w); } else { FailingOther(j, s, k, a); }
  }

  lemma FailingImport(j: Job, s: State, k: nat, a: Action)
    requires Inv(j, s) && Failing(j, s, k) && Enabled(j, s, a) && !OfDispatcher(a) && !OfWorker(a)
    ensures Inv(j, Next(j, s, a)) && Failing(j, Next(j, s, a), k)
  {
    if a.Get? { GetKeeps(j, s); } else if a.Leave? { LeaveKeeps(j, s); } else { ImportKeeps(j, s, a); }
    hide Holding, Chunk, Upto, Cls, Idle, NotAskedToQuit;
    if a.Get? { ClsFront(s.queue); }
    assert Sent(Next(j, s, a)) == Sent(s);
  }

  /** A worker at work has a chunk of the window. */
  lemma ChunkAtWork(j: Job, s: State, w: nat) returns (k: nat)
    requires Inv(j, s) && w < |s.workers| && s.workers[w].phase.Extracting?
    ensures k % j.workers == w && Collected(s) <= k < s.submitted && s.workers[w].phase == Extracting(Chunk(j, k))
  {
    hide Chunk, InOrder, Windowed, Collected, OnlyQuits;
    assert !Unassigned(j, s, w) by { assert !Idle(s.workers[w]); }
    k :| Collected(s) <= k < s.submitted && k % j.workers == w;
    assert Holding(s.workers[w], Chunk(j, k), s.stop);
  }

  lemma FailLeavesSent(j: Job, s: State, w: nat)
    requires Enabled(j, s, Fail(w))
    ensures Sent(Next(j, s, Fail(w))) == Sent(s)
  {
  }

  lemma StartsFailing(j: Job, s: State, w: nat) returns (k: nat)
    requires Inv(j, s) && Enabled(j, s, Fail(w))
    ensures k % j.workers == w && Collected(s) <= k < s.submitted && s.workers[w].phase == Extracting(Chunk(j, k))
    ensures Inv(j, Next(j, s, Fail(w))) && Failing(j, Next(j, s, Fail(w)), k)
  {
    k := ChunkAtWork(j, s, w);
    WorkerKeeps(j, s, Fail(w));
    UptoGrows(j, Collected(s), k);
    FailLeavesSent(j, s, w);
    hide Chunk, Cls, Upto, Assigned, Windowed, Sent;
  }

  lemma StillFailing(j: Job, s: State, k: nat, a: Action)
    requires Inv(j, s) && Failing(j, s, k) && Enabled(j, s, a)
    ensures Inv(j, Next(j, s, a)) && Failing(j, Next(j, s, a), k)
  {
    hide Inv, Failing, Next, Enabled;
    if OfWorker(a) { FailingWork(j, s, k, a); }
    else if a.Collect? { FailingCollect(j, s, k); }
    else if OfDispatcher(a) { FailingDispatch(j, s, k, a); }
    else { FailingImport(j, s, k, a); }
  }

  lemma FailingShape(j: Job, s: State)
    requires Inv(j, s)
    ensures j.workers > 0 && |s.workers| == j.workers
  {
  }

  lemma {:induction false} FailingOn(j: Job, before: seq<Action>, w: nat, after: seq<Action>) returns (k: nat)
    requires j.Valid() && Run(j, before + [Fail(w)] + after).Some?
    ensures Run(j, before).Some? && w < |Run(j, before).value.workers|
    ensures Run(j, before).value.workers[w].phase == Extracting(Chunk(j, k))
    ensures Collected(Run(j, before).value) <= k < Run(j, before).value.submitted && k % j.workers == w
    ensures var s := Run(j, before + [Fail(w)] + after).value; Inv(j, s) && Failing(j, s, k)
    decreases |after|
  {
    hide Inv, Next, Run, Failing, Collected;
    if after == [] {
      assert before + [Fail(w)] + after == before + [Fail(w)];
      OneStepBack(j, before, Fail(w));
      RunInv(j, before);
      FailingShape(j, Run(j, before).value);
      k := StartsFailing(j, Run(j, before).value, w);
    } else {
      var m := |after| - 1;
      assert before + [Fail(w)] + after == before + [Fail(w)] + after[..m] + [after[m]];
      OneStepBack(j, before + [Fail(w)] + after[..m], after[m]);
      k := FailingOn(j, before, w, after[..m]);
      StillFailing(j, Run(j, before + [Fail(w)] + after[..m]).value, k, after[m]);
    }
  }

  /** When a worker fails at a chunk, no changelist of that chunk or a later one is ever delivered,
      whatever still happens: only those that come before it. */
  lemma {:induction false} NothingFromFailedChunk(j: Job, before: seq<Action>, w: nat, after: seq<Action>)
    returns (k: nat)
    requires j.Valid() && Run(j, before + [Fail(w)] + after).Some?
    ensures Run(j, before).Some? && w < |Run(j, before).value.workers|
    ensures Run(j, before).value.workers[w].phase == Extracting(Chunk(j, k)) && 10 * k < |j.changes|
    ensures var s := Run(j, before + [Fail(w)] + after).value; s.stop && s.delivered <= j.changes[..10 * k]
  {
    k := FailingOn(j, before, w, after);
    RunInv(j, before);
    var s := Run(j, before + [Fail(w)] + after).value;
    FailingSent(j, s, k);
    DeliveredInOrder(j, before + [Fail(w)] + after);
    ChunkWithin(j, Run(j, before).value, k);
    assert |s.delivered| <= |Sent(s)|;
  }

  lemma ChunkWithin(j: Job, s: State, k: nat)
    requires Inv(j, s) && k < s.submitted
    ensures 10 * k < |j.changes| && Upto(j, k) == 10 * k
  {
    hide Assigned, InOrder;
  }

  /** A chunk is ten changelists, the last one what is left. */
  lemma ChunksOfTen(j: Job, k: nat)
    requires 10 * k < |j.changes|
    ensures Chunk(j, k) == j.changes[10 * k..if 10 * k + 10 <= |j.changes| then 10 * k + 10 else |j.changes|]
  {
  }
}
