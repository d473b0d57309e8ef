/** Printing a large changelist over several connections: batches dealt in turn, finished in any
    order. A connection whose batch raises is gone without a word, and its other batches with it. */
module ParallelPrinting {
  import opened Unique
  import opened RoundRobin
  import opened FastImporters
  import opened BulkImport

  type Queues = seq<seq<nat>>

  /** A batch is reached when no batch of its connection up to it raises. */
  ghost predicate Reached(k: nat, connections: nat, raises: Raises)
    requires connections > 0
  {
    forall m: nat | m <= k && m % connections == k % connections :: !raises(m)
  }

  /** The files of batches, in the order given. */
  function FilesOf(files: seq<FileRef>, ks: seq<nat>): seq<FileRef> {
    if ks == [] then [] else FilesOf(files, ks[..|ks| - 1]) + Batch(files, ks[|ks| - 1])
  }

  /** The results are those of the batches reached, each once, in this order. */
  ghost predicate PrintedReached(ks: seq<nat>, files: seq<FileRef>, print_: Print, connections: nat, raises: Raises,
                                 results: seq<FileItem>, missing: seq<FileRef>)
    requires connections > 0
  {
    && NoRepeats(ks) && (forall k: nat :: k in ks <==> k < BatchCount(files) && Reached(k, connections, raises))
    && results == Present(FilesOf(files, ks), print_) && missing == Missing(FilesOf(files, ks), print_)
  }

  // ---------- The connections' queues ----------

  /** What waits in a queue is the rest of its connection's turns, and nothing before it raised. */
  ghost predicate QueueRest(q: seq<nat>, w: nat, connections: nat, count: nat, raises: Raises)
    requires connections > 0
  {
    q == [] || (q == Turns(q[0], connections, count) && q[0] % connections == w
                && forall m: nat | m < q[0] && m % connections == w :: !raises(m))
  }

  ghost predicate Past(q: seq<nat>, k: nat) { q == [] || k < q[0] }

  ghost predicate Progress(queues: Queues, ks: seq<nat>, connections: nat, count: nat, raises: Raises)
    requires connections > 0
  {
    && |queues| == connections && NoRepeats(ks)
    && (forall w | 0 <= w < connections :: QueueRest(queues[w], w, connections, count, raises))
    && (forall k: nat :: k in ks <==> k < count && Reached(k, connections, raises) && Past(queues[k % connections], k))
  }

  /** Deal the batch numbers to the connections in turn. */
  method DealBatches(count: nat, connections: nat) returns (queues: Queues)
    requires connections > 0
    ensures |queues| == connections && forall w | 0 <= w < connections :: queues[w] == Turns(w, connections, count)
  {
    hide Turns;
    queues := seq(connections, _ => []);
    forall w | 0 <= w < connections ensures queues[w] == Turns(w, connections, 0) { NoTurns(w, connections); }
    for k := 0 to count
      invariant |queues| == connections && forall w | 0 <= w < connections :: queues[w] == Turns(w, connections, k)
    {
      var i := k % connections;
      forall w | 0 <= w < connections
        ensures Turns(w, connections, k + 1) == Turns(w, connections, k) + if w == i then [k] else []
      {
        DealtTo(w, connections, k);
      }
      queues := queues[i := queues[i] + [k]];
    }
  }

  lemma NoTurns(w: nat, n: nat)
    requires n > 0
    ensures Turns(w, n, 0) == []
  {
  }

  lemma DealtTo(w: nat, n: nat, k: nat)
    requires w < n
    ensures Turns(w, n, k + 1) == Turns(w, n, k) + if w == k % n then [k] else []
  {
    hide Turns;
    OneMoreTurn(w, n, k);
    OwnTurn(w, n);
    if w > k { OwnTurn(k, n); }
  }

  lemma OwnTurn(w: nat, n: nat)
    requires w < n
    ensures w % n == w
  {
  }

  lemma DealtProgress(queues: Queues, connections: nat, count: nat, raises: Raises)
    requires connections > 0 && |queues| == connections
    requires forall w | 0 <= w < connections :: queues[w] == Turns(w, connections, count)
    ensures Progress(queues, [], connections, count, raises)
  {
    forall w | 0 <= w < connections ensures QueueRest(queues[w], w, connections, count, raises) {
      OwnTurn(w, connections);
    }
    forall k: nat | k < count ensures !Past(queues[k % connections], k) {
      var w := k % connections;
      OwnTurn(w, connections);
      TurnsAre(w, connections, count, k);
      AtLeastTurn(k, connections);
    }
  }

  lemma AtLeastTurn(k: nat, n: nat)
    requires n > 0
    ensures k % n <= k
  {
  }

  lemma TailOfTurns(m: nat, n: nat, count: nat)
    requires n > 0 && m < count
    ensures Turns(m, n, count)[1..] == Turns(m + n, n, count) && (m + n) % n == m % n
    ensures Turns(m, n, count)[1..] == [] ==> m + n >= count
    ensures Turns(m, n, count)[1..] != [] ==> Turns(m, n, count)[1..][0] == m + n < count
  {
    SameTurn(m, n);
  }

  lemma HeadBelow(q: seq<nat>, w: nat, n: nat, count: nat, raises: Raises)
    requires n > 0 && QueueRest(q, w, n, count, raises) && q != []
    ensures q[0] < count && q[0] % n == w
  {
  }

  /** A batch raised: its connection has no queue any more, and nothing further of it is reached. */
  lemma AfterRaise(queues: Queues, ks: seq<nat>, w: nat, n: nat, count: nat, raises: Raises)
    requires n > 0 && Progress(queues, ks, n, count, raises) && w < n && queues[w] != [] && raises(queues[w][0])
    ensures Progress(queues[w := []], ks, n, count, raises)
  {
    hide NoRepeats, Turns;
    var queues', m := queues[w := []], queues[w][0];
    HeadBelow(queues[w], w, n, count, raises);
    forall k: nat | k % n == w && k >= m ensures !Reached(k, n, raises) { assert m <= k && m % n == k % n; }
    forall k: nat ensures k in ks <==> k < count && Reached(k, n, raises) && Past(queues'[k % n], k) {
      assert k % n == w && k >= m ==> !Reached(k, n, raises);
    }
  }

  /** A batch was printed: it is reached, and next comes the following turn of its connection. */
  lemma AfterPrint(queues: Queues, ks: seq<nat>, w: nat, n: nat, count: nat, raises: Raises)
    requires n > 0 && Progress(queues, ks, n, count, raises) && w < n && queues[w] != [] && !raises(queues[w][0])
    ensures Progress(queues[w := queues[w][1..]], ks + [queues[w][0]], n, count, raises)
  {
    hide Turns;
    var m, q := queues[w][0], queues[w][1..];
    var queues', ks' := queues[w := q], ks + [m];
    HeadBelow(queues[w], w, n, count, raises);
    TailOfTurns(m, n, count);
    HeadReached(queues[w], w, n, count, raises);
    assert !Past(queues[m % n], m) && m !in ks;
    NoRepeatsSnoc(ks, m);
    forall k: nat | k % n == w && k != m && k < count ensures Past(q, k) <==> k < m { BetweenTurns(k, m, n); }
    forall k: nat ensures k in ks' <==> k < count && Reached(k, n, raises) && Past(queues'[k % n], k) {
      assert k in ks' <==> k in ks || k == m;
    }
    NextRest(queues[w], w, n, count, raises);
  }

  lemma NoRepeatsSnoc(ks: seq<nat>, m: nat)
    requires NoRepeats(ks) && m !in ks
    ensures NoRepeats(ks + [m])
  {
  }

  lemma HeadReached(q: seq<nat>, w: nat, n: nat, count: nat, raises: Raises)
    requires n > 0 && QueueRest(q, w, n, count, raises) && q != [] && !raises(q[0])
    ensures Reached(q[0], n, raises)
  {
  }

  lemma BetweenTurns(k: nat, m: nat, n: nat)
    requires n > 0 && k % n == m % n && k != m
    ensures k < m <==> k < m + n
  {
    if m < k < m + n { OtherTurn(m, k, n); }
  }

  lemma NextRest(q: seq<nat>, w: nat, n: nat, count: nat, raises: Raises)
    requires n > 0 && QueueRest(q, w, n, count, raises) && q != [] && !raises(q[0])
    ensures QueueRest(q[1..], w, n, count, raises)
  {
    var m := q[0];
    TailOfTurns(m, n, count);
    forall k: nat | k < m + n && k % n == w ensures !raises(k) {
      if k != m { BetweenTurns(k, m, n); }
    }
  }

  ghost function BatchesLeft(queues: Queues): nat {
    if queues == [] then 0 else |queues[0]| + BatchesLeft(queues[1..])
  }

  lemma {:induction false} BatchesLeftUpdate(queues: Queues, w: nat, q: seq<nat>)
    requires w < |queues|
    ensures BatchesLeft(queues[w := q]) + |queues[w]| == BatchesLeft(queues) + |q|
  {
    if w == 0 {
      assert queues[0 := q][1..] == queues[1..];
    } else {
      assert queues[w := q][1..] == queues[1..][w - 1 := q];
      BatchesLeftUpdate(queues[1..], w - 1, q);
    }
  }

  /** Print over several connections at once; whichever is next extends the shared results. */
  method ParallelPrint(files: seq<FileRef>, print_: Print, connections: nat, raises: Raises)
    returns (results: seq<FileItem>, missing: seq<FileRef>)
    requires connections > 0
    ensures exists ks: seq<nat> :: PrintedReached(ks, files, print_, connections, raises, results, missing)
  {
    hide Present, Missing, Batch, Reached, NoRepeats, QueueRest, Turns, BatchesLeft, BatchCount;
    var count := BatchCount(files);
    var queues := DealBatches(count, connections);
    results, missing := [], [];
    ghost var ks: seq<nat> := [];
    NothingPrinted(print_);
    DealtProgress(queues, connections, count, raises);
    while exists w :: 0 <= w < |queues| && queues[w] != []
      invariant Progress(queues, ks, connections, count, raises)
      invariant results == Present(FilesOf(files, ks), print_) && missing == Missing(FilesOf(files, ks), print_)
      decreases BatchesLeft(queues)
    {
      var w :| 0 <= w < |queues| && queues[w] != [];
      var k := queues[w][0];
      if raises(k) {
        AfterRaise(queues, ks, w, connections, count, raises);
        BatchesLeftUpdate(queues, w, []);
        queues := queues[w := []];
      } else {
        AfterPrint(queues, ks, w, connections, count, raises);
        BatchesLeftUpdate(queues, w, queues[w][1..]);
        var partial, absent := PrintChunk(Batch(files, k), print_);
        PresentAppend(FilesOf(files, ks), Batch(files, k), print_);
        assert (ks + [k])[..|ks|] == ks;
        results, missing, ks := results + partial, missing + absent, ks + [k];
        queues := queues[w := queues[w][1..]];
      }
    }
    AllPast(queues, ks, connections, count, raises);
    assert PrintedReached(ks, files, print_, connections, raises, results, missing);
  }

  lemma AllPast(queues: Queues, ks: seq<nat>, connections: nat, count: nat, raises: Raises)
    requires connections > 0 && Progress(queues, ks, connections, count, raises)
    requires forall w | 0 <= w < |queues| :: queues[w] == []
    ensures NoRepeats(ks) && forall k: nat :: k in ks <==> k < count && Reached(k, connections, raises)
  {
    hide Reached;
  }

  // ---------- What a raising batch costs ----------

  lemma {:induction false} FilesOfJoined(files: seq<FileRef>, a: seq<nat>, b: seq<nat>)
    ensures FilesOf(files, a + b) == FilesOf(files, a) + FilesOf(files, b)
  {
    hide Batch;
    if b == [] {
      assert a + b == a;
    } else {
      assert (a + b)[..|a + b| - 1] == a + b[..|b| - 1];
      FilesOfJoined(files, a, b[..|b| - 1]);
    }
  }

  lemma {:induction false} TakenOut(files: seq<FileRef>, ks: seq<nat>, i: nat)
    requires i < |ks| && NoRepeats(ks)
    ensures var rest := ks[..i] + ks[i + 1..];
            && multiset(FilesOf(files, ks)) == multiset(FilesOf(files, rest)) + multiset(Batch(files, ks[i]))
            && NoRepeats(rest) && forall k :: k in rest <==> k in ks && k != ks[i]
  {
    hide Batch, FilesOf;
    var k, tail := ks[i], ks[i + 1..];
    assert ks == ks[..i] + ([k] + tail);
    FilesOfJoined(files, ks[..i], [k] + tail);
    FilesOfJoined(files, [k], tail);
    FilesOfJoined(files, ks[..i], tail);
    OneBatch(files, k);
  }

  lemma OneBatch(files: seq<FileRef>, k: nat)
    ensures FilesOf(files, [k]) == Batch(files, k) && FilesOf(files, []) == []
  {
    assert [k][..0] == [];
  }

  /** Batches make up the first n batches' files exactly when none of the n is left out. */
  lemma {:induction false} BatchesCover(files: seq<FileRef>, n: nat, ks: seq<nat>)
    requires NoRepeats(ks) && (forall k | k in ks :: k < n) && n <= BatchCount(files)
    ensures |FilesOf(files, ks)| <= Upto(files, n)
    ensures |FilesOf(files, ks)| == Upto(files, n) <==> forall k: nat | k < n :: k in ks
    ensures (forall k: nat | k < n :: k in ks) ==> multiset(FilesOf(files, ks)) == multiset(files[..Upto(files, n)])
  {
    hide Batch, Upto, BatchCount, FilesOf, NoRepeats;
    if n == 0 {
      NoBatch(files, ks);
    } else {
      var last := n - 1;
      BatchSize(files, last);
      if last in ks {
        var i :| 0 <= i < |ks| && ks[i] == last;
        TakenOut(files, ks, i);
        BatchesCover(files, last, ks[..i] + ks[i + 1..]);
        var more, fewer := FilesOf(files, ks), FilesOf(files, ks[..i] + ks[i + 1..]);
        assert |multiset(more)| == |multiset(fewer)| + |multiset(Batch(files, last))|;
        assert |more| == |fewer| + |Batch(files, last)|;
        assert multiset(files[..Upto(files, n)]) == multiset(files[..Upto(files, last)]) + multiset(Batch(files, last));
      } else {
        BatchesCover(files, last, ks);
      }
    }
  }

  lemma NoBatch(files: seq<FileRef>, ks: seq<nat>)
    requires forall k: nat :: k !in ks
    ensures FilesOf(files, ks) == [] && Upto(files, 0) == 0
  {
    NothingIn(ks);
  }

  /** Every file is printed if and only if no batch raises. */
  lemma {:induction false} ReachedCovers(ks: seq<nat>, files: seq<FileRef>, print_: Print, connections: nat,
                                         raises: Raises,
                                         results: seq<FileItem>, missing: seq<FileRef>)
    requires connections > 0 && PrintedReached(ks, files, print_, connections, raises, results, missing)
    ensures multiset(FilesOf(files, ks)) == multiset(files) <==> !SomeRaises(files, raises)
    ensures |FilesOf(files, ks)| == |files| <==> !SomeRaises(files, raises)
  {
    hide FilesOf, Upto, BatchCount, NoRepeats, Present, Missing, Batch;
    AllBatches(files);
    BatchesCover(files, BatchCount(files), ks);
    if SomeRaises(files, raises) {
      var k: nat :| k < BatchCount(files) && raises(k);
      assert !Reached(k, connections, raises);
      assert |multiset(FilesOf(files, ks))| == |FilesOf(files, ks)| && |multiset(files)| == |files|;
    }
  }
}
