/** The multi-stream event queue: collect what every registered stream still owes, sort it by
    changelist number, and cut it to a batch. */
module SyncEvents {
  import opened Options
  import opened Text
  import opened Unique
  import opened StateStores

  datatype SyncEvent =
    | BranchCreate(cl: CL, stream: Stream, parentStream: Stream, branch: string)
    | Changelist(cl: CL, stream: Stream, branch: string)

  function Priority(e: SyncEvent): nat { if e.BranchCreate? then 0 else 1 }

  /** The order of the sort keys (changelist, priority). */
  predicate NotAfter(a: SyncEvent, b: SyncEvent) { a.cl < b.cl || (a.cl == b.cl && Priority(a) <= Priority(b)) }

  ghost predicate Sorted(es: seq<SyncEvent>) { forall i, k | 0 <= i < k < |es| :: NotAfter(es[i], es[k]) }

  /** By changelist number; where a branch is created at a number that a changelist has, the branch comes first. */
  lemma SortedExactly(es: seq<SyncEvent>)
    ensures Sorted(es) <==> forall i, k | 0 <= i < k < |es| ::
              es[i].cl < es[k].cl || (es[i].cl == es[k].cl && (es[i].BranchCreate? || es[k].Changelist?))
  {
    if Sorted(es) { assert forall i, k | 0 <= i < k < |es| :: NotAfter(es[i], es[k]); }
  }

  // ---------- The Perforce server ----------

  /** The submitted changelists of every stream, ascending. */
  type Depot = map<Stream, seq<CL>>

  ghost predicate Ascending(cls: seq<CL>) {
    && (forall i, k | 0 <= i < k < |cls| :: cls[i] < cls[k])
    && (forall c | c in cls :: c > 0)
  }

  ghost predicate Numbered(depot: Depot) { forall s | s in depot :: Ascending(depot[s]) }

  predicate Has(depot: Depot, stream: Stream, cl: CL) { stream in depot && cl in depot[stream] }

  function Above(cls: seq<CL>, last: CL): (r: seq<CL>)
    ensures forall c :: c in r <==> c in cls && c > last
  {
    if cls == [] then []
    else
      var rest := Above(cls[1..], last);
      assert cls == [cls[0]] + cls[1..];
      if cls[0] > last then [cls[0]] + rest else rest
  }

  lemma {:induction false} AboveAscends(cls: seq<CL>, last: CL)
    requires Ascending(cls)
    ensures Ascending(Above(cls, last))
  {
    if cls != [] {
      AboveAscends(cls[1..], last);
      forall c | c in cls[1..] ensures cls[0] < c { var i :| 0 <= i < |cls| - 1 && cls[1..][i] == c; }
    }
  }

  function GetChangesAfter(depot: Depot, stream: Stream, last: CL): seq<CL> {
    if stream in depot then Above(depot[stream], last) else []
  }

  // ---------- Gathering ----------

  /** The name of a stream's parent, unless it is missing or blank. */
  function ParentOf(m: StreamMapping): Option<Stream> {
    if m.parent.Some? && m.parent.value != "" then m.parent else None
  }

  function BranchEvents(t: Tables, m: StreamMapping): seq<SyncEvent> {
    if m.stream !in t.synced && ParentOf(m).Some?
    then [BranchCreate(if m.branchPoint.Some? then m.branchPoint.value else 0, m.stream, ParentOf(m).value, m.branch)]
    else []
  }

  function ChangelistEvents(m: StreamMapping, cls: seq<CL>): seq<SyncEvent> {
    seq(|cls|, i requires 0 <= i < |cls| => Changelist(cls[i], m.stream, m.branch))
  }

  function Owed(t: Tables, depot: Depot, m: StreamMapping): seq<SyncEvent> {
    BranchEvents(t, m) + ChangelistEvents(m, GetChangesAfter(depot, m.stream, LastSynced(t, m.stream)))
  }

  function Gathered(t: Tables, depot: Depot, ms: seq<StreamMapping>): seq<SyncEvent> {
    if ms == [] then [] else Gathered(t, depot, ms[..|ms| - 1]) + Owed(t, depot, ms[|ms| - 1])
  }

  /** Exactly the events the registered streams owe, no matter how the rows were listed. */
  ghost predicate IsOwed(t: Tables, depot: Depot, e: SyncEvent) {
    && e.stream in t.registry
    && var m := t.registry[e.stream];
       && e.branch == m.branch
       && match e
          case BranchCreate(cl, s, parent, _) =>
            && s !in t.synced && m.parent == Some(parent) && parent != ""
            && cl == (if m.branchPoint.Some? then m.branchPoint.value else 0)
          case Changelist(cl, s, _) => Has(depot, s, cl) && cl > LastSynced(t, s)
  }

  lemma OwedExactly(t: Tables, depot: Depot, m: StreamMapping, e: SyncEvent)
    requires m.stream in t.registry && t.registry[m.stream] == m
    ensures e in Owed(t, depot, m) <==> e.stream == m.stream && IsOwed(t, depot, e)
  {
    var cls := GetChangesAfter(depot, m.stream, LastSynced(t, m.stream));
    if e.Changelist? && e.cl in cls && e.stream == m.stream && e.branch == m.branch {
      var i :| 0 <= i < |cls| && cls[i] == e.cl;
      assert ChangelistEvents(m, cls)[i] == e;
    }
    assert e in Owed(t, depot, m) <==> e in BranchEvents(t, m) || e in ChangelistEvents(m, cls);
  }

  lemma OwedDistinct(t: Tables, depot: Depot, m: StreamMapping)
    requires Numbered(depot)
    ensures NoRepeats(Owed(t, depot, m))
  {
    if m.stream in depot { AboveAscends(depot[m.stream], LastSynced(t, m.stream)); }
  }

  /** Gathering finds every owed event of the listed streams, once. */
  lemma {:induction false} GatheredExactly(t: Tables, depot: Depot, ms: seq<StreamMapping>)
    requires Numbered(depot) && (forall m | m in ms :: m.stream in t.registry && t.registry[m.stream] == m)
    requires forall i, k | 0 <= i < k < |ms| :: ms[i].stream != ms[k].stream
    ensures forall e ::
      e in Gathered(t, depot, ms) <==> IsOwed(t, depot, e) && exists m :: m in ms && m.stream == e.stream
    ensures NoRepeats(Gathered(t, depot, ms))
  {
    hide Owed, IsOwed;
    if ms != [] {
      var k := |ms| - 1;
      var m := ms[k];
      assert ms == ms[..k] + [m];
      GatheredExactly(t, depot, ms[..k]);
      OwedDistinct(t, depot, m);
      forall e { OwedExactly(t, depot, m, e); }
      assert forall n | n in ms[..k] :: n.stream != m.stream;
      JoinWithoutRepeats(Gathered(t, depot, ms[..k]), Owed(t, depot, m));
    }
  }

  // ---------- Sorting ----------

  /** Insert behind everything that does not come after. */
  function Insert(es: seq<SyncEvent>, e: SyncEvent): (r: seq<SyncEvent>)
    ensures multiset(r) == multiset(es) + multiset{e}
  {
    if es == [] || NotAfter(es[|es| - 1], e) then es + [e]
    else
      assert es == es[..|es| - 1] + [es[|es| - 1]];
      Insert(es[..|es| - 1], e) + [es[|es| - 1]]
  }

  lemma SortedSnoc(es: seq<SyncEvent>, e: SyncEvent)
    requires Sorted(es) && forall x | x in es :: NotAfter(x, e)
    ensures Sorted(es + [e])
  {
    hide NotAfter;
  }

  lemma InsertHas(es: seq<SyncEvent>, e: SyncEvent, x: SyncEvent)
    requires x in Insert(es, e)
    ensures x in es || x == e
  {
    assert x in multiset(Insert(es, e));
  }

  lemma LastIsGreatest(es: seq<SyncEvent>, e: SyncEvent)
    requires Sorted(es) && es != [] && NotAfter(es[|es| - 1], e)
    ensures forall x | x in es :: NotAfter(x, e)
  {
  }

  lemma {:induction false} InsertSorts(es: seq<SyncEvent>, e: SyncEvent)
    requires Sorted(es)
    ensures Sorted(Insert(es, e))
  {
    hide Sorted;
    if es == [] {
      OneIsSorted(e);
      assert es + [e] == [e];
    } else if NotAfter(es[|es| - 1], e) {
      LastIsGreatest(es, e);
      SortedSnoc(es, e);
    } else {
      var k := |es| - 1;
      var r := Insert(es[..k], e);
      SortedFront(es, k);
      InsertSorts(es[..k], e);
      forall x | x in r ensures NotAfter(x, es[k]) { InsertHas(es[..k], e, x); }
      SortedSnoc(r, es[k]);
    }
  }

  lemma OneIsSorted(e: SyncEvent)
    ensures Sorted([e]) && Sorted([])
  {
  }

  lemma SortedFront(es: seq<SyncEvent>, k: nat)
    requires Sorted(es) && k < |es|
    ensures Sorted(es[..k]) && forall x | x in es[..k] :: NotAfter(x, es[k])
  {
  }

  function Sort(es: seq<SyncEvent>): (r: seq<SyncEvent>)
    ensures multiset(r) == multiset(es)
  {
    if es == [] then []
    else
      assert es == es[..|es| - 1] + [es[|es| - 1]];
      Insert(Sort(es[..|es| - 1]), es[|es| - 1])
  }

  lemma {:induction false} SortSorts(es: seq<SyncEvent>)
    ensures Sorted(Sort(es))
  {
    if es != [] {
      SortSorts(es[..|es| - 1]);
      InsertSorts(Sort(es[..|es| - 1]), es[|es| - 1]);
    }
  }

  lemma SamePlaces(a: seq<SyncEvent>, b: seq<SyncEvent>)
    requires multiset(a) == multiset(b) && NoRepeats(a)
    ensures NoRepeats(b) && forall e :: e in a <==> e in b
  {
    forall e ensures e in a <==> e in b { assert e in multiset(a) <==> e in multiset(b); }
    DistinctCounts(a);
    CountsDistinct(b);
  }

  lemma {:induction false} DistinctCounts(a: seq<SyncEvent>)
    requires NoRepeats(a)
    ensures forall e | e in a :: multiset(a)[e] == 1
  {
    if a != [] {
      var k := |a| - 1;
      assert a == a[..k] + [a[k]];
      DistinctCounts(a[..k]);
    }
  }

  lemma CountsDistinct(b: seq<SyncEvent>)
    requires forall e | e in b :: multiset(b)[e] == 1
    ensures NoRepeats(b)
  {
    forall i, k | 0 <= i < k < |b| ensures b[i] != b[k] {
      assert b == b[..i] + [b[i]] + b[i + 1..k] + [b[k]] + b[k + 1..];
      assert b[i] == b[k] ==> multiset(b)[b[i]] >= 2;
    }
  }

  // ---------- The collector ----------

  /** All owed events, each once, in the order of their keys. */
  ghost predicate Queue(t: Tables, depot: Depot, all: seq<SyncEvent>) {
    && Sorted(all) && NoRepeats(all) && forall e :: e in all <==> IsOwed(t, depot, e)
  }

  /** The front of that queue, at most a batch. */
  ghost predicate IsBatch(t: Tables, depot: Depot, batchSize: nat, events: seq<SyncEvent>) {
    exists all: seq<SyncEvent> :: Queue(t, depot, all) && events == all[..Min(batchSize, |all|)]
  }

  /** The events of listed streams, stream by stream. */
  method Gather(store: StateStore, depot: Depot, mappings: seq<StreamMapping>) returns (events: seq<SyncEvent>)
    ensures events == Gathered(store.Contents(), depot, mappings)
  {
    hide Owed, GetChangesAfter, LastSynced, ChangelistEvents;
    ghost var t := store.Contents();
    events := [];
    for i := 0 to |mappings|
      invariant events == Gathered(t, depot, mappings[..i])
    {
      var m := mappings[i];
      assert mappings[..i + 1][..i] == mappings[..i];
      var synced := store.IsStreamSynced(m.stream);
      var created := [];
      if !synced && ParentOf(m).Some? {
        var branchPoint := if m.branchPoint.Some? then m.branchPoint.value else 0;
        created := [BranchCreate(branchPoint, m.stream, ParentOf(m).value, m.branch)];
      }
      var last := store.GetLastSyncedCl(m.stream);
      var changes := GetChangesAfter(depot, m.stream, last);
      OwedIs(t, depot, m, created, changes);
      events := events + (created + ChangelistEvents(m, changes));
    }
    assert mappings[..|mappings|] == mappings;
  }

  /** Collect the events of all registered streams in global order. */
  method Collect(store: StateStore, depot: Depot, batchSize: nat) returns (events: seq<SyncEvent>)
    requires Numbered(depot) && Keyed(store.streamRegistry)
    ensures IsBatch(store.Contents(), depot, batchSize, events)
  {
    hide Gathered, IsOwed, Sorted, NoRepeats;
    ghost var t := store.Contents();
    var mappings := store.GetAllRegisteredStreams();
    events := Gather(store, depot, mappings);
    GatheredExactly(t, depot, mappings);
    RegisteredOnly(t, depot, mappings);
    ghost var gathered := events;
    SortSorts(events);
    events := Sort(events);
    SamePlaces(gathered, events);
    assert Queue(t, depot, events);
    if |events| > batchSize { events := events[..batchSize]; }
    else { assert events == events[..|events|]; }
  }

  lemma OwedIs(t: Tables, depot: Depot, m: StreamMapping, created: seq<SyncEvent>, changes: seq<CL>)
    requires created == BranchEvents(t, m) && changes == GetChangesAfter(depot, m.stream, LastSynced(t, m.stream))
    ensures created + ChangelistEvents(m, changes) == Owed(t, depot, m)
  {
  }

  lemma RegisteredOnly(t: Tables, depot: Depot, ms: seq<StreamMapping>)
    requires IsListing(ms, t.registry) && Keyed(t.registry)
    ensures forall e :: IsOwed(t, depot, e) ==> exists m :: m in ms && m.stream == e.stream
  {
    forall e | IsOwed(t, depot, e) ensures exists m :: m in ms && m.stream == e.stream {
      assert t.registry[e.stream] in ms;
    }
  }
}
