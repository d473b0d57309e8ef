/** Checking over several connections at once says what checking over one says. */
module IntegrityParallel {
  import opened Options
  import opened Text
  import opened Unique
  import opened LfsPointers
  import opened LfsStores
  import opened IntegrityCheckers

  // ---------- Every n-th path ----------

  function Strided(paths: seq<string>, i: nat, n: nat): seq<string>
    requires n > 0
    decreases |paths| - i
  {
    if i >= |paths| then [] else [paths[i]] + Strided(paths, i + n, n)
  }

  /** The first m slices, one after the other. */
  function FirstSlices(paths: seq<string>, n: nat, m: nat): seq<string>
    requires n > 0
  {
    if m == 0 then [] else FirstSlices(paths, n, m - 1) + Strided(paths, m - 1, n)
  }

  function AfterBlock(paths: seq<string>, n: nat): seq<string> { if |paths| >= n then paths[n..] else [] }

  lemma {:induction false} StridedShift(paths: seq<string>, i: nat, n: nat)
    requires n > 0
    ensures Strided(paths, i + n, n) == Strided(AfterBlock(paths, n), i, n)
    decreases |paths| - i
  {
    if i + n < |paths| {
      assert AfterBlock(paths, n)[i] == paths[i + n];
      StridedShift(paths, i + n, n);
    }
  }

  /** A slice is one path of the first block and its share of the rest. */
  lemma SliceSplit(paths: seq<string>, i: nat, n: nat)
    requires i < n
    ensures Strided(paths, i, n) == paths[Min(i, |paths|)..Min(i + 1, |paths|)] + Strided(AfterBlock(paths, n), i, n)
  {
    StridedShift(paths, i, n);
    if i < |paths| { assert paths[i..i + 1] == [paths[i]]; } else { assert AfterBlock(paths, n) == []; }
  }

  lemma {:induction false} BlockSplit(paths: seq<string>, n: nat, m: nat)
    requires n > 0 && m <= n
    ensures multiset(FirstSlices(paths, n, m))
         == multiset(paths[..Min(m, |paths|)]) + multiset(FirstSlices(AfterBlock(paths, n), n, m))
  {
    hide Strided, AfterBlock, FirstSlices;
    var rest := AfterBlock(paths, n);
    SlicesOneMore(paths, n, m);
    SlicesOneMore(rest, n, m);
    if m > 0 {
      BlockSplit(paths, n, m - 1);
      SliceSplit(paths, m - 1, n);
      var k, l := Min(m - 1, |paths|), Min(m, |paths|);
      TakeMore(paths, k, l);
      Regroup(FirstSlices(paths, n, m - 1), paths[..k], FirstSlices(rest, n, m - 1), paths[k..l],
              Strided(rest, m - 1, n));
    }
  }

  lemma SlicesOneMore(paths: seq<string>, n: nat, m: nat)
    requires n > 0
    ensures FirstSlices(paths, n, m) == if m == 0 then [] else FirstSlices(paths, n, m - 1) + Strided(paths, m - 1, n)
  {
  }

  lemma TakeMore(paths: seq<string>, k: nat, l: nat)
    requires k <= l <= |paths|
    ensures paths[..l] == paths[..k] + paths[k..l]
  {
  }

  lemma Regroup(a: seq<string>, p: seq<string>, b: seq<string>, q: seq<string>, r: seq<string>)
    requires multiset(a) == multiset(p) + multiset(b)
    ensures multiset(a + (q + r)) == multiset(p + q) + multiset(b + r)
  {
  }

  lemma {:induction false} SlicesOfNothing(n: nat, m: nat)
    requires n > 0
    ensures FirstSlices([], n, m) == []
  {
    if m > 0 { SlicesOfNothing(n, m - 1); }
  }

  /** The slices together hold every path as often as the list does. */
  lemma {:induction false} SlicesPermute(paths: seq<string>, n: nat)
    requires n > 0
    ensures multiset(FirstSlices(paths, n, n)) == multiset(paths)
    decreases |paths|
  {
    hide Strided, FirstSlices;
    BlockSplit(paths, n, n);
    if |paths| <= n {
      assert AfterBlock(paths, n) == [] && paths[..Min(n, |paths|)] == paths;
      SlicesOfNothing(n, n);
    } else {
      SlicesPermute(paths[n..], n);
      assert paths == paths[..n] + paths[n..];
    }
  }

  // ---------- The workers ----------

  ghost function SliceTally(env: Env, objects: Option<map<Oid, Bytes>>, paths: seq<string>, n: nat, i: nat): Tally
    requires n > 0
  {
    TallyOf(env, objects, Strided(paths, i, n))
  }

  lemma {:induction false} RaisedSlice(env: Env, objects: Option<map<Oid, Bytes>>, paths: seq<string>, n: nat,
                                       m: nat, i: nat)
    requires n > 0 && i < m && SliceTally(env, objects, paths, n, i).raised
    ensures TallyOf(env, objects, FirstSlices(paths, n, m)).raised
  {
    hide TallyOf, Strided;
    TallyConcat(env, objects, FirstSlices(paths, n, m - 1), Strided(paths, m - 1, n));
    if i < m - 1 { RaisedSlice(env, objects, paths, n, m - 1, i); }
  }

  lemma SlicesTally(env: Env, objects: Option<map<Oid, Bytes>>, paths: seq<string>, n: nat)
    requires n > 0
    ensures TallyOf(env, objects, FirstSlices(paths, n, n)) == TallyOf(env, objects, paths)
  {
    SlicesPermute(paths, n);
    TallyPermutes(env, objects, FirstSlices(paths, n, n), paths);
  }

  type Report = (nat, seq<string>)

  ghost predicate WorkerDone(results: seq<Report>, errors: seq<nat>, i: nat, t: Tally) {
    i < |results| && if i in errors then t.raised else Reports(Some(results[i]), t)
  }

  /** Run all workers, whichever finishes first; each fills its own place or reports its failure. */
  method RunWorkers(env: Env, paths: seq<string>, n: nat, order: seq<nat>, store: Option<LfsObjectStore>)
    returns (results: seq<Report>, errors: seq<nat>)
    requires GoodEnv(env) && GoodStore(env, store) && n > 0 && forall i | i in order :: i < n
    ensures |results| == n && forall i | i in errors :: i < n
    ensures forall i | i in order :: WorkerDone(results, errors, i, SliceTally(env, ObjectsOf(store), paths, n, i))
    ensures forall i | i in errors :: SliceTally(env, ObjectsOf(store), paths, n, i).raised
  {
    hide TallyOf, GoodEnv, GoodStore, Strided;
    results, errors := seq(n, _ => (0, [])), [];
    for k := 0 to |order|
      invariant |results| == n && forall i | i in errors :: i < n
      invariant forall i | i in errors :: SliceTally(env, ObjectsOf(store), paths, n, i).raised
      invariant forall i | i in order[..k] ::
        WorkerDone(results, errors, i, SliceTally(env, ObjectsOf(store), paths, n, i))
    {
      var i := order[k];
      assert order[..k + 1] == order[..k] + [i] && i in order;
      var r := VerifySlice(env, Strided(paths, i, n), store);
      if r.Some? { results := results[i := r.value]; } else { errors := errors + [i]; }
    }
    assert order[..|order|] == order;
  }

  /** Split the paths over n connections, check, and put the reports together; one failing worker
      fails the check. */
  method CompareParallel(env: Env, paths: seq<string>, n: nat, order: seq<nat>, store: Option<LfsObjectStore>)
    returns (r: Option<Report>)
    requires GoodEnv(env) && GoodStore(env, store) && n > 0
    requires (forall i | i in order :: i < n) && forall i | 0 <= i < n :: i in order
    ensures Reports(r, TallyOf(env, ObjectsOf(store), paths))
  {
    hide TallyOf, GoodEnv, GoodStore, Strided;
    ghost var objects := ObjectsOf(store);
    var results, errors := RunWorkers(env, paths, n, order, store);
    SlicesTally(env, objects, paths, n);
    if errors != [] {
      assert errors[0] in errors;
      RaisedSlice(env, objects, paths, n, n, errors[0]);
      return None;
    }
    var checked: nat, mismatched := 0, [];
    NothingTallied(env, objects);
    for i := 0 to n
      invariant Tally(checked, multiset(mismatched), false) == TallyOf(env, objects, FirstSlices(paths, n, i))
    {
      assert i in order && WorkerDone(results, errors, i, SliceTally(env, objects, paths, n, i));
      TallyConcat(env, objects, FirstSlices(paths, n, i), Strided(paths, i, n));
      checked := checked + results[i].0;
      mismatched := mismatched + results[i].1;
    }
    r := Some((checked, mismatched));
  }

  ghost predicate IsPlain(env: Env, path: string) { env.blobs(path).Some? && !IsPointer(env.blobs(path).value) }

  /** The list of mismatched paths, in bytes: a plain file is in it exactly when Perforce sends other bytes
      than Git has; if it is empty, Git has Perforce's bytes wherever they were compared, those of a
      large file in the store. */
  ghost predicate MismatchedInBytes(env: Env, paths: seq<string>, mismatched: seq<string>,
                                    objects: Option<map<Oid, Bytes>>)
  {
    && (forall path :: path in mismatched <==> path in paths && Differs(env, objects, path))
    && (forall path | path in paths && IsPlain(env, path) ::
          path in mismatched <==>
            env.heads(path).access.Readable? && env.blobs(path).value != env.heads(path).bytes)
    && (mismatched == [] ==> forall path | path in paths && IsPlain(env, path) && env.heads(path).access.Readable? ::
          env.blobs(path).value == env.heads(path).bytes)
    && (mismatched == [] && objects.Some? ==>
          forall path | path in paths && Compared(env, objects, path) ::
            Resolved(env.blobs(path).value, objects.value) == env.heads(path).bytes)
  }

  lemma {:induction false} InBytes(env: Env, paths: seq<string>, report: Report, objects: Option<map<Oid, Bytes>>)
    requires ReportsBytes(Some(report), env, objects, paths)
    ensures MismatchedInBytes(env, paths, report.1, objects)
  {
    var mismatched := report.1;
    hide IsPointer, ParsePointer, CheckedPlaces, BreaksAt, LargeDiffers, LargeCompared;
    forall path ensures path in mismatched <==> path in paths && Differs(env, objects, path) {
      assert path in mismatched <==> multiset(mismatched)[path] > 0;
      assert path in paths <==> multiset(paths)[path] > 0;
    }
    if mismatched == [] && objects.Some? {
      forall path | path in paths && Compared(env, objects, path)
        ensures Resolved(env.blobs(path).value, objects.value) == env.heads(path).bytes
      {
        assert path !in mismatched;
        if !IsPlain(env, path) { LargeInBytes(env, objects.value, path); }
      }
    }
  }

  lemma LargeInBytes(env: Env, objects: map<Oid, Bytes>, path: string)
    requires Compared(env, Some(objects), path) && !Differs(env, Some(objects), path) && !IsPlain(env, path)
    ensures Resolved(env.blobs(path).value, objects) == env.heads(path).bytes
  {
    hide IsPointer, ParsePointer, LargeCompared;
  }

  datatype IntegrityResult = IntegrityResult(passed: bool, checkedFiles: nat, mismatchedFiles: seq<string>)

  /** Check files over one connection or several: the outcome is that of the files, however they are
      split; passing means that no file that could be checked differs. */
  method CompareFiles(env: Env, paths: seq<string>, maxWorkers: nat, configured: bool, order: seq<nat>,
                      store: Option<LfsObjectStore>)
    returns (r: Option<IntegrityResult>)
    requires GoodEnv(env) && GoodStore(env, store)
    requires var n := Min(maxWorkers, |paths|); (forall i | i in order :: i < n) && forall i | 0 <= i < n :: i in order
    ensures var t := TallyOf(env, ObjectsOf(store), paths);
            && (r.None? <==> t.raised)
            && (r.Some? ==> r.value.checkedFiles == t.checked && multiset(r.value.mismatchedFiles) == t.mismatched
                            && (r.value.passed <==> t.mismatched == multiset{}))
    ensures r.None? <==> exists path :: path in paths && BreaksAt(env, ObjectsOf(store), path)
    ensures r.Some? ==> MismatchedInBytes(env, paths, r.value.mismatchedFiles, ObjectsOf(store))
    ensures r.Some? ==> r.value.checkedFiles == |CheckedPlaces(env, ObjectsOf(store), paths)|
    ensures r.Some? ==> (r.value.passed <==> r.value.mismatchedFiles == [])
  {
    hide TallyOf, GoodStore, BreaksAt, MismatchedInBytes, CheckedPlaces, Differs;
    var report;
    if maxWorkers > 1 && configured && |paths| > 1 {
      report := CompareParallel(env, paths, Min(maxWorkers, |paths|), order, store);
    } else {
      report := VerifySlice(env, paths, store);
    }
    ReportedInBytes(report, env, store, paths);
    if report.None? { return None; }
    var (checked, mismatched) := report.value;
    InBytes(env, paths, report.value, ObjectsOf(store));
    NoneDiffer(mismatched);
    r := Some(IntegrityResult(mismatched == [], checked, mismatched));
  }

  lemma NoneDiffer(mismatched: seq<string>)
    ensures multiset(mismatched) == multiset{} <==> mismatched == []
  {
    if mismatched != [] { assert mismatched[0] in multiset(mismatched); }
  }

  // ---------- Choosing what to check ----------

  function Large(files: seq<string>, size: string -> nat, threshold: nat): seq<string> {
    if files == [] then []
    else Large(files[..|files| - 1], size, threshold)
         + if size(files[|files| - 1]) >= threshold then [files[|files| - 1]] else []
  }

  function Small(files: seq<string>, size: string -> nat, threshold: nat): seq<string> {
    if files == [] then []
    else Small(files[..|files| - 1], size, threshold)
         + if size(files[|files| - 1]) < threshold then [files[|files| - 1]] else []
  }

  lemma {:induction false} LargeAndSmall(files: seq<string>, size: string -> nat, threshold: nat)
    ensures forall f :: f in Large(files, size, threshold) <==> f in files && size(f) >= threshold
    ensures forall f :: f in Small(files, size, threshold) <==> f in files && size(f) < threshold
  {
    if files != [] {
      LargeAndSmall(files[..|files| - 1], size, threshold);
      assert files == files[..|files| - 1] + [files[|files| - 1]];
    }
  }

  /** What a sample is drawn from: the small files, or all files when the sizes are not to be had. */
  function Population(files: seq<string>, sizes: Option<string -> nat>, threshold: nat): seq<string> {
    match sizes
    case Some(size) => Small(files, size, threshold)
    case None => files
  }

  /** A sample takes as many places as it may, each at most once. */
  predicate IsSample(picks: seq<nat>, population: nat, count: nat) {
    |picks| == Min(count, population) && NoRepeats(picks) && forall i | i in picks :: i < population
  }

  function Picked(files: seq<string>, picks: seq<nat>): seq<string>
    requires forall i | i in picks :: i < |files|
  {
    seq(|picks|, k requires 0 <= k < |picks| => assert picks[k] in picks; files[picks[k]])
  }

  lemma PickedFrom(files: seq<string>, picks: seq<nat>)
    requires forall i | i in picks :: i < |files|
    ensures forall f | f in Picked(files, picks) :: f in files
  {
    forall f | f in Picked(files, picks) ensures f in files {
      var k :| 0 <= k < |picks| && Picked(files, picks)[k] == f;
      assert picks[k] in picks && f == files[picks[k]];
    }
  }

  /** For a cutover: first every large file, then a sample of the small ones. Without sizes, a sample of all. */
  method SelectSmart(files: seq<string>, sizes: Option<string -> nat>, threshold: nat, sampleCount: nat,
                     picks: seq<nat>)
    returns (targets: seq<string>)
    requires IsSample(picks, |Population(files, sizes, threshold)|, sampleCount)
    ensures sizes.None? ==> targets == Picked(files, picks)
    ensures sizes.Some? ==>
      var large, rest := Large(files, sizes.value, threshold), Small(files, sizes.value, threshold);
      targets == Firsts(large) + Firsts(Picked(rest, picks))
    ensures sizes.Some? ==>
      && NoRepeats(targets)
      && (forall f | f in files && sizes.value(f) >= threshold :: f in targets)
      && (forall f | f in targets :: f in files)
  {
    if sizes.None? { return Picked(files, picks); }
    var large, rest := Large(files, sizes.value, threshold), Small(files, sizes.value, threshold);
    LargeAndSmall(files, sizes.value, threshold);
    PickedFrom(rest, picks);
    FirstsApart(large, Picked(rest, picks));
    targets := Firsts(large + Picked(rest, picks));
  }
}
