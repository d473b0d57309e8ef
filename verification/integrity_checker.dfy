/** Checking many files, one after the other or split over several connections. */
module IntegrityCheckers {
  import opened Options
  import opened LfsPointers
  import opened LfsStores
  import opened Integrity

  /** The repository's files and Perforce's head revisions, by path. */
  datatype Env = Env(hashes: Hashes, blobs: string -> Option<Bytes>, heads: string -> Head, md5Readable: Oid -> bool)

  ghost predicate GoodEnv(env: Env) { GoodHashes(env.hashes) && forall path :: Honest(env.hashes, env.heads(path)) }

  function ObjectsOf(store: Option<LfsObjectStore>): Option<map<Oid, Bytes>>
    reads if store.Some? then {store.value} else {}
  {
    if store.Some? then Some(store.value.objects) else None
  }

  ghost predicate GoodStore(env: Env, store: Option<LfsObjectStore>)
    reads if store.Some? then {store.value} else {}
  {
    store.Some? ==> store.value.Valid() && store.value.sha256 == env.hashes.sha256
  }

  // ---------- One file ----------

  function NormalOutcome(env: Env, path: string): Result
    requires env.blobs(path).Some?
  {
    var head := env.heads(path);
    match head.access
    case Broken => Raised
    case Unreadable => Skipped
    case Readable =>
      if env.hashes.sha256(env.blobs(path).value) == env.hashes.sha256(head.bytes) then Same else Different
  }

  /** Paths without a file and pointers that cannot be read are passed over. */
  function Outcome(env: Env, objects: Option<map<Oid, Bytes>>, path: string): Result {
    var blob := env.blobs(path);
    if blob.None? then Skipped
    else if !IsPointer(blob.value) then NormalOutcome(env, path)
    else
      var p := ParsePointer(blob.value);
      if p.None? then Skipped
      else ByContents(env.hashes, p.value, env.heads(path), objects, env.md5Readable(p.value.oid))
  }

  // ---------- What the outcomes mean, in bytes ----------

  /** A large file is compared if a digest stands in for Perforce's bytes or they can be fetched. */
  predicate LargeCompared(p: Pointer, head: Head, objects: Option<map<Oid, Bytes>>, md5Readable: bool) {
    FastPath(p, head, objects, md5Readable) || head.access.Readable?
  }

  /** A large file differs if its object is missing, if its size is not Perforce's, or if its bytes are not. */
  predicate LargeDiffers(h: Hashes, p: Pointer, head: Head, objects: Option<map<Oid, Bytes>>, md5Readable: bool) {
    || (objects.Some? && p.oid !in objects.value)
    || (head.meta.Some? && head.meta.value.size != p.size)
    || (LargeCompared(p, head, objects, md5Readable)
        && if objects.Some? && p.oid in objects.value then objects.value[p.oid] != head.bytes
           else h.sha256(head.bytes) != p.oid)
  }

  /** Git and Perforce are found to hold different files at the path. */
  predicate Differs(env: Env, objects: Option<map<Oid, Bytes>>, path: string) {
    var blob, head := env.blobs(path), env.heads(path);
    && blob.Some?
    && if IsPointer(blob.value) then
         var p := ParsePointer(blob.value);
         p.Some? && LargeDiffers(env.hashes, p.value, head, objects, env.md5Readable(p.value.oid))
       else head.access.Readable? && blob.value != head.bytes
  }

  /** The file at the path is compared with Perforce's. */
  predicate Compared(env: Env, objects: Option<map<Oid, Bytes>>, path: string) {
    var blob, head := env.blobs(path), env.heads(path);
    && blob.Some?
    && if IsPointer(blob.value) then
         var p := ParsePointer(blob.value);
         p.Some? && LargeCompared(p.value, head, objects, env.md5Readable(p.value.oid))
       else head.access.Readable?
  }

  /** Fetching what has to be compared breaks the check. */
  predicate BreaksAt(env: Env, objects: Option<map<Oid, Bytes>>, path: string) {
    && env.heads(path).access.Broken? && env.blobs(path).Some?
    && (IsPointer(env.blobs(path).value) ==>
          && ParsePointer(env.blobs(path).value).Some?
          && !Compared(env, objects, path) && !Differs(env, objects, path))
  }

  /** Every object lies under its own digest. */
  ghost predicate OwnDigests(h: Hashes, objects: Option<map<Oid, Bytes>>) {
    objects.Some? ==> forall oid | oid in objects.value :: h.sha256(objects.value[oid]) == oid
  }

  lemma LargeMeans(h: Hashes, p: Pointer, head: Head, objects: Option<map<Oid, Bytes>>, md5Readable: bool)
    requires GoodHashes(h) && OwnDigests(h, objects)
    ensures var r := ByContents(h, p, head, objects, md5Readable);
      && (r.Different? <==> LargeDiffers(h, p, head, objects, md5Readable))
      && (r.Same? <==> LargeCompared(p, head, objects, md5Readable) && !LargeDiffers(h, p, head, objects, md5Readable))
      && (r.Raised? ==> head.access.Broken?) && (r.Skipped? ==> head.access.Unreadable?)
  {
    hide FastPath;
  }

  /** What is reported of a path is what comparing bytes would say of it. */
  lemma OutcomeMeans(env: Env, objects: Option<map<Oid, Bytes>>, path: string)
    requires GoodHashes(env.hashes) && OwnDigests(env.hashes, objects)
    ensures Outcome(env, objects, path).Different? <==> Differs(env, objects, path)
    ensures Outcome(env, objects, path).Same? <==> Compared(env, objects, path) && !Differs(env, objects, path)
    ensures Outcome(env, objects, path).Raised? <==> BreaksAt(env, objects, path)
  {
    hide IsPointer, ParsePointer, ByContents, LargeDiffers, LargeCompared, OwnDigests;
    var blob := env.blobs(path);
    if blob.Some? && IsPointer(blob.value) && ParsePointer(blob.value).Some? {
      var p := ParsePointer(blob.value).value;
      LargeMeans(env.hashes, p, env.heads(path), objects, env.md5Readable(p.oid));
    }
  }

  // ---------- Tallies ----------

  datatype Tally = Tally(checked: nat, mismatched: multiset<string>, raised: bool)

  function Plus(a: Tally, b: Tally): Tally { Tally(a.checked + b.checked, a.mismatched + b.mismatched,
                a.raised || b.raised) }

  const ZERO := Tally(0, multiset{}, false)

  function One(path: string, r: Result): Tally {
    match r
    case Raised => Tally(0, multiset{}, true)
    case Skipped => ZERO
    case Same => Tally(1, multiset{}, false)
    case Different => Tally(1, multiset{path}, false)
  }

  function TallyOf(env: Env, objects: Option<map<Oid, Bytes>>, paths: seq<string>): Tally {
    if paths == [] then ZERO
    else
      var path := paths[|paths| - 1];
      Plus(TallyOf(env, objects, paths[..|paths| - 1]), One(path, Outcome(env, objects, path)))
  }

  lemma LastOfConcat(a: seq<string>, b: seq<string>)
    requires b != []
    ensures (a + b)[..|a + b| - 1] == a + b[..|b| - 1] && (a + b)[|a + b| - 1] == b[|b| - 1]
  {
  }

  lemma {:induction false} TallyConcat(env: Env, objects: Option<map<Oid, Bytes>>, a: seq<string>, b: seq<string>)
    ensures TallyOf(env, objects, a + b) == Plus(TallyOf(env, objects, a), TallyOf(env, objects, b))
  {
    hide Outcome, One;
    if b == [] {
      assert a + b == a;
    } else {
      var k := |b| - 1;
      LastOfConcat(a, b);
      TallyConcat(env, objects, a, b[..k]);
    }
  }

  lemma TallyOne(env: Env, objects: Option<map<Oid, Bytes>>, path: string)
    ensures TallyOf(env, objects, [path]) == One(path, Outcome(env, objects, path))
  {
    hide Outcome;
    assert [path][..0] == [];
  }

  lemma TakenOut(b: seq<string>, i: nat)
    requires i < |b|
    ensures multiset(b) == multiset(b[..i] + b[i + 1..]) + multiset{b[i]}
    ensures b == b[..i] + ([b[i]] + b[i + 1..])
  {
    assert b == b[..i] + ([b[i]] + b[i + 1..]);
  }

  lemma {:induction false} TallyTakenOut(env: Env, objects: Option<map<Oid, Bytes>>, b: seq<string>, i: nat)
    requires i < |b|
    ensures TallyOf(env, objects, b)
         == Plus(TallyOf(env, objects, b[..i] + b[i + 1..]), One(b[i], Outcome(env, objects, b[i])))
  {
    hide Outcome, One, TallyOf;
    TakenOut(b, i);
    TallyConcat(env, objects, b[..i], [b[i]] + b[i + 1..]);
    TallyConcat(env, objects, [b[i]], b[i + 1..]);
    TallyConcat(env, objects, b[..i], b[i + 1..]);
    TallyOne(env, objects, b[i]);
  }

  lemma CancelOne(p: multiset<string>, q: multiset<string>, x: string)
    requires p + multiset{x} == q + multiset{x}
    ensures p == q
  {
    assert p == (p + multiset{x}) - multiset{x} && q == (q + multiset{x}) - multiset{x};
  }

  /** The tally does not depend on the order of the paths. */
  lemma {:induction false} TallyPermutes(env: Env, objects: Option<map<Oid, Bytes>>, a: seq<string>, b: seq<string>)
    requires multiset(a) == multiset(b)
    ensures TallyOf(env, objects, a) == TallyOf(env, objects, b)
  {
    hide Outcome, One;
    if a == [] {
      assert |b| == |multiset(b)|;
    } else {
      var k := |a| - 1;
      assert a == a[..k] + [a[k]] && a[k] in multiset(b);
      var i :| 0 <= i < |b| && b[i] == a[k];
      TakenOut(b, i);
      assert multiset(a) == multiset(a[..k]) + multiset{a[k]};
      CancelOne(multiset(a[..k]), multiset(b[..i] + b[i + 1..]), a[k]);
      TallyPermutes(env, objects, a[..k], b[..i] + b[i + 1..]);
      TallyTakenOut(env, objects, b, i);
    }
  }

  ghost predicate MismatchedMeans(env: Env, objects: Option<map<Oid, Bytes>>, paths: seq<string>,
                                  mismatched: multiset<string>)
  {
    forall path: string :: mismatched[path] == if Differs(env, objects, path) then multiset(paths)[path] else 0
  }

  /** How often a path that differs is reported, how many are counted, and when there is no report. */
  ghost predicate TallyMeans(env: Env, objects: Option<map<Oid, Bytes>>, paths: seq<string>, t: Tally) {
    && MismatchedMeans(env, objects, paths, t.mismatched)
    && t.checked == |CheckedPlaces(env, objects, paths)|
    && (t.raised <==> exists path :: path in paths && BreaksAt(env, objects, path))
  }

  ghost function CheckedPlaces(env: Env, objects: Option<map<Oid, Bytes>>, paths: seq<string>): set<nat> {
    set i: nat | i < |paths| && (Compared(env, objects, paths[i]) || Differs(env, objects, paths[i]))
  }

  lemma OneMorePlace(env: Env, objects: Option<map<Oid, Bytes>>, paths: seq<string>, path: string)
    ensures |CheckedPlaces(env, objects, paths + [path])| == |CheckedPlaces(env, objects, paths)|
        + if Compared(env, objects, path) || Differs(env, objects, path) then 1 else 0
  {
    hide Compared, Differs;
    var before, behind := CheckedPlaces(env, objects, paths), CheckedPlaces(env, objects, paths + [path]);
    if Compared(env, objects, path) || Differs(env, objects, path) {
      assert behind == before + {|paths|};
    } else {
      assert behind == before;
    }
  }

  lemma OneMoreReported(env: Env, objects: Option<map<Oid, Bytes>>, before: seq<string>, last: string, t: Tally)
    requires MismatchedMeans(env, objects, before, t.mismatched)
    requires Outcome(env, objects, last).Different? <==> Differs(env, objects, last)
    ensures MismatchedMeans(env, objects, before + [last], Plus(t, One(last, Outcome(env, objects, last))).mismatched)
  {
    hide Outcome, Differs, BreaksAt, CheckedPlaces;
  }

  lemma OneMoreBreaks(env: Env, objects: Option<map<Oid, Bytes>>, before: seq<string>, last: string)
    ensures (exists path :: path in before + [last] && BreaksAt(env, objects, path)) <==>
      (exists path :: path in before && BreaksAt(env, objects, path)) || BreaksAt(env, objects, last)
  {
    hide BreaksAt;
    forall path | path in before ensures path in before + [last] { }
    assert last in before + [last];
  }

  /** A tally says, path by path and in bytes, what is the same and what differs. */
  lemma {:induction false} TallyInBytes(env: Env, objects: Option<map<Oid, Bytes>>, paths: seq<string>)
    requires GoodHashes(env.hashes) && OwnDigests(env.hashes, objects)
    ensures TallyMeans(env, objects, paths, TallyOf(env, objects, paths))
  {
    hide Outcome, Differs, Compared, BreaksAt, GoodHashes, OwnDigests, CheckedPlaces;
    if paths == [] {
      NoPlaces(env, objects);
      assert MismatchedMeans(env, objects, [], multiset{});
    } else {
      hide MismatchedMeans;
      var before, last := paths[..|paths| - 1], paths[|paths| - 1];
      assert paths == before + [last];
      TallyInBytes(env, objects, before);
      OutcomeMeans(env, objects, last);
      OneMorePlace(env, objects, before, last);
      OneMoreReported(env, objects, before, last, TallyOf(env, objects, before));
      OneMoreBreaks(env, objects, before, last);
    }
  }

  lemma NoPlaces(env: Env, objects: Option<map<Oid, Bytes>>)
    ensures CheckedPlaces(env, objects, []) == {}
  {
  }

  // ---------- One connection ----------

  datatype Item = Item(path: string, pointer: Pointer)

  ghost predicate PointersRead(env: Env, items: seq<Item>) {
    forall x | x in items :: env.blobs(x.path).Some? && IsPointer(env.blobs(x.path).value)
                             && ParsePointer(env.blobs(x.path).value) == Some(x.pointer)
  }

  ghost predicate PlainFiles(env: Env, paths: seq<string>) {
    forall p | p in paths :: env.blobs(p).Some? && !IsPointer(env.blobs(p).value)
  }

  function PathsOf(items: seq<Item>): seq<string> { seq(|items|, i requires 0 <= i < |items| => items[i].path) }

  lemma LargeOneMore(items: seq<Item>, x: Item)
    ensures PathsOf(items + [x]) == PathsOf(items) + [x.path]
  {
  }

  lemma PassedOver(env: Env, objects: Option<map<Oid, Bytes>>, path: string)
    requires env.blobs(path).None? || (IsPointer(env.blobs(path).value) && ParsePointer(env.blobs(path).value).None?)
    ensures One(path, Outcome(env, objects, path)) == ZERO
  {
  }

  lemma {:induction false} TallyOneMore(env: Env, objects: Option<map<Oid, Bytes>>, paths: seq<string>, path: string)
    ensures TallyOf(env, objects, paths + [path])
        == Plus(TallyOf(env, objects, paths), One(path, Outcome(env, objects, path)))
  {
    hide Outcome, One;
    assert (paths + [path])[..|paths|] == paths;
  }

  /** Sort paths into large files and others; what is passed over counts nowhere. */
  method SortPaths(env: Env, ghost objects: Option<map<Oid, Bytes>>, paths: seq<string>)
    returns (items: seq<Item>, normals: seq<string>)
    ensures PointersRead(env, items) && PlainFiles(env, normals)
    ensures TallyOf(env, objects, paths) == Plus(TallyOf(env, objects, PathsOf(items)), TallyOf(env, objects, normals))
  {
    hide IsPointer, ParsePointer, Outcome, One, TallyOf, PathsOf, Plus;
    items, normals := [], [];
    NothingTallied(env, objects);
    PlusMoves(ZERO, ZERO, ZERO);
    assert paths[..0] == [];
    for i := 0 to |paths|
      invariant PointersRead(env, items) && PlainFiles(env, normals)
      invariant TallyOf(env, objects, paths[..i])
          == Plus(TallyOf(env, objects, PathsOf(items)), TallyOf(env, objects, normals))
    {
      var path := paths[i];
      assert paths[..i + 1] == paths[..i] + [path];
      TallyOneMore(env, objects, paths[..i], path);
      PlusMoves(TallyOf(env, objects, PathsOf(items)), TallyOf(env, objects, normals),
                One(path, Outcome(env, objects, path)));
      PlusMoves(TallyOf(env, objects, paths[..i]), ZERO, ZERO);
      var blob := env.blobs(path);
      if blob.None? {
        PassedOver(env, objects, path);
      } else if IsPointer(blob.value) {
        var p := ParsePointer(blob.value);
        if p.Some? {
          LargeOneMore(items, Item(path, p.value));
          TallyOneMore(env, objects, PathsOf(items), path);
          items := items + [Item(path, p.value)];
        } else {
          PassedOver(env, objects, path);
        }
      } else {
        TallyOneMore(env, objects, normals, path);
        normals := normals + [path];
      }
    }
    assert paths[..|paths|] == paths;
  }

  lemma PlusMoves(a: Tally, b: Tally, c: Tally)
    ensures Plus(Plus(a, b), c) == Plus(Plus(a, c), b) == Plus(a, Plus(b, c)) && Plus(a, ZERO) == a
  {
  }

  lemma NothingTallied(env: Env, objects: Option<map<Oid, Bytes>>)
    ensures TallyOf(env, objects, []) == ZERO && PathsOf([]) == []
  {
  }

  /** Check the large files of a slice. */
  method VerifyLargeFiles(env: Env, items: seq<Item>, store: Option<LfsObjectStore>)
    returns (r: Option<(nat, seq<string>)>)
    requires GoodEnv(env) && GoodStore(env, store) && PointersRead(env, items)
    ensures Reports(r, TallyOf(env, ObjectsOf(store), PathsOf(items)))
  {
    hide GoodHashes, Honest, IsPointer, ParsePointer, ByContents, PathsOf, TallyOf, Outcome;
    var checked, mismatched := 0, [];
    NothingTallied(env, ObjectsOf(store));
    assert items[..0] == [];
    for i := 0 to |items|
      invariant Tally(checked, multiset(mismatched), false) == TallyOf(env, ObjectsOf(store), PathsOf(items[..i]))
    {
      var x := items[i];
      var head := env.heads(x.path);
      assert Honest(env.hashes, head);
      var verdict := VerifyLfs(env.hashes, x.pointer, head, store, env.md5Readable(x.pointer.oid));
      assert items[..i + 1] == items[..i] + [x];
      LargeOneMore(items[..i], x);
      TallyOneMore(env, ObjectsOf(store), PathsOf(items[..i]), x.path);
      LargeOutcome(env, ObjectsOf(store), items, x);
      if verdict.Raised? {
        RaisedStays(env, ObjectsOf(store), items, i + 1);
        return None;
      }
      if !verdict.Skipped? {
        checked := checked + 1;
        if verdict.Different? { mismatched := mismatched + [x.path]; }
      }
    }
    assert items[..|items|] == items;
    r := Some((checked, mismatched));
  }

  /** A result as the tally has it, in some order; no result if anything raised. */
  ghost predicate Reports(r: Option<(nat, seq<string>)>, t: Tally) {
    && (r.None? <==> t.raised)
    && (r.Some? ==> r.value.0 == t.checked && multiset(r.value.1) == t.mismatched)
  }

  lemma LargeOutcome(env: Env, objects: Option<map<Oid, Bytes>>, items: seq<Item>, x: Item)
    requires PointersRead(env, items) && x in items
    ensures Outcome(env, objects, x.path)
         == ByContents(env.hashes, x.pointer, env.heads(x.path), objects, env.md5Readable(x.pointer.oid))
  {
    hide IsPointer, ParsePointer, ByContents;
  }

  lemma RaisedStays(env: Env, objects: Option<map<Oid, Bytes>>, items: seq<Item>, i: nat)
    requires i <= |items| && TallyOf(env, objects, PathsOf(items[..i])).raised
    ensures TallyOf(env, objects, PathsOf(items)).raised
  {
    hide TallyOf;
    assert PathsOf(items) == PathsOf(items[..i]) + PathsOf(items[i..]);
    TallyConcat(env, objects, PathsOf(items[..i]), PathsOf(items[i..]));
  }

  lemma RaisedStaysPlain(env: Env, objects: Option<map<Oid, Bytes>>, paths: seq<string>, i: nat)
    requires i <= |paths| && TallyOf(env, objects, paths[..i]).raised
    ensures TallyOf(env, objects, paths).raised
  {
    hide TallyOf;
    assert paths == paths[..i] + paths[i..];
    TallyConcat(env, objects, paths[..i], paths[i..]);
  }

  lemma PlainOutcome(env: Env, objects: Option<map<Oid, Bytes>>, path: string)
    requires env.blobs(path).Some? && !IsPointer(env.blobs(path).value)
    ensures Outcome(env, objects, path) == NormalOutcome(env, path)
  {
  }

  /** Check the other files of a slice. */
  method VerifyNormalFiles(env: Env, ghost objects: Option<map<Oid, Bytes>>, paths: seq<string>)
    returns (r: Option<(nat, seq<string>)>)
    requires PlainFiles(env, paths)
    ensures Reports(r, TallyOf(env, objects, paths))
  {
    hide IsPointer, ParsePointer, TallyOf, Outcome;
    var checked, mismatched := 0, [];
    NothingTallied(env, objects);
    assert paths[..0] == [];
    for i := 0 to |paths|
      invariant Tally(checked, multiset(mismatched), false) == TallyOf(env, objects, paths[..i])
    {
      var path, head := paths[i], env.heads(paths[i]);
      assert paths[..i + 1] == paths[..i] + [path];
      TallyOneMore(env, objects, paths[..i], path);
      PlainOutcome(env, objects, path);
      if head.access.Broken? {
        RaisedStaysPlain(env, objects, paths, i + 1);
        return None;
      }
      if head.access.Readable? {
        checked := checked + 1;
        var verdict := DecideNormal(env.hashes.sha256(env.blobs(path).value), env.hashes.sha256(head.bytes));
        if verdict == Mismatch { mismatched := mismatched + [path]; }
      }
    }
    assert paths[..|paths|] == paths;
    r := Some((checked, mismatched));
  }

  /** The report in bytes: no report exactly when fetching breaks; otherwise a path is among the mismatched,
      as often as it is listed, exactly when it differs. */
  ghost predicate ReportsBytes(r: Option<(nat, seq<string>)>, env: Env, objects: Option<map<Oid, Bytes>>,
                               paths: seq<string>)
  {
    && (r.None? <==> exists path :: path in paths && BreaksAt(env, objects, path))
    && (r.Some? ==>
          r.value.0 == |CheckedPlaces(env, objects, paths)|
          && MismatchedMeans(env, objects, paths, multiset(r.value.1)))
  }

  lemma StoredUnderDigest(env: Env, store: Option<LfsObjectStore>)
    requires GoodStore(env, store)
    ensures OwnDigests(env.hashes, ObjectsOf(store))
  {
  }

  lemma ReportedInBytes(r: Option<(nat, seq<string>)>, env: Env, store: Option<LfsObjectStore>, paths: seq<string>)
    requires GoodEnv(env) && GoodStore(env, store) && Reports(r, TallyOf(env, ObjectsOf(store), paths))
    ensures ReportsBytes(r, env, ObjectsOf(store), paths)
  {
    StoredUnderDigest(env, store);
    TallyInBytes(env, ObjectsOf(store), paths);
    hide TallyOf, Differs, BreaksAt, CheckedPlaces;
  }

  lemma ReportsTogether(a: (nat, seq<string>), b: (nat, seq<string>), s: Tally, t: Tally)
    requires Reports(Some(a), s) && Reports(Some(b), t)
    ensures Reports(Some((a.0 + b.0, a.1 + b.1)), Plus(s, t))
  {
  }

  lemma RaisedTogether(s: Tally, t: Tally)
    requires Reports(None, s) || Reports(None, t)
    ensures Reports(None, Plus(s, t))
  {
  }

  /** Check a slice over one connection: large files first, then the others. */
  method VerifySlice(env: Env, paths: seq<string>, store: Option<LfsObjectStore>)
    returns (r: Option<(nat, seq<string>)>)
    requires GoodEnv(env) && GoodStore(env, store)
    ensures Reports(r, TallyOf(env, ObjectsOf(store), paths))
    ensures ReportsBytes(r, env, ObjectsOf(store), paths)
  {
    r := VerifySorted(env, paths, store);
    ReportedInBytes(r, env, store, paths);
  }

  method VerifySorted(env: Env, paths: seq<string>, store: Option<LfsObjectStore>)
    returns (r: Option<(nat, seq<string>)>)
    requires GoodEnv(env) && GoodStore(env, store)
    ensures Reports(r, TallyOf(env, ObjectsOf(store), paths))
  {
    hide GoodHashes, Honest, TallyOf, PointersRead, PlainFiles, GoodEnv, GoodStore, Reports, Plus, PathsOf, ObjectsOf;
    var items, normals := SortPaths(env, ObjectsOf(store), paths);
    ghost var s := TallyOf(env, ObjectsOf(store), PathsOf(items));
    ghost var t := TallyOf(env, ObjectsOf(store), normals);
    var large := VerifyLargeFiles(env, items, store);
    if large.None? { RaisedTogether(s, t); return None; }
    var plain := VerifyNormalFiles(env, ObjectsOf(store), normals);
    if plain.None? { RaisedTogether(s, t); return None; }
    ReportsTogether(large.value, plain.value, s, t);
    r := Some((large.value.0 + plain.value.0, large.value.1 + plain.value.1));
  }
}
