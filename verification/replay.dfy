/** What a list of fast-import file commands does to the files of a branch. */
module Replay {
  import opened GitTrees
  import opened Paths
  import opened TreeRefinement
  import opened FastImport
  import opened FastImporters

  type Files = map<Path, Leaf>

  /** A delete takes out a file, or a directory with everything below it. */
  ghost function DeletePath(m: Files, p: Path): Files {
    map k | k in m && !(p <= k) :: m[k]
  }

  /** A write replaces whatever stood at the path, below it, or as a file above it. */
  ghost function WritePath(m: Files, p: Path, b: Blob): Files {
    (map k | k in m && !(p <= k) && !(k <= p) :: m[k])[p := Regular(b)]
  }

  ghost function ReplayFile(m: Files, f: FileCommand, oid: string -> Oid): Files {
    match f
    case Delete(path) => DeletePath(m, Split(path))
    case Modify(mode, path, content) => WritePath(m, Split(path), Blob(oid(content), mode))
  }

  ghost function ReplayFiles(m: Files, fs: seq<FileCommand>, oid: string -> Oid): Files {
    if fs == [] then m else ReplayFile(ReplayFiles(m, fs[..|fs| - 1], oid), fs[|fs| - 1], oid)
  }

  /** A session on one branch: every commit continues the one before it. */
  ghost function ReplayCommits(cs: seq<Command>, oid: string -> Oid): Files {
    if cs == [] then map[]
    else
      var before := ReplayCommits(cs[..|cs| - 1], oid);
      if cs[|cs| - 1].Commit? then ReplayFiles(before, cs[|cs| - 1].files, oid) else before
  }

  // ---------- Deletes, then writes ----------

  ghost function ReplayDeletes(m: Files, ds: seq<Path>): Files {
    if ds == [] then m else DeletePath(ReplayDeletes(m, ds[..|ds| - 1]), ds[|ds| - 1])
  }

  ghost function ReplayWrites(m: Files, ws: seq<(Path, Blob)>): Files {
    if ws == [] then m else WritePath(ReplayWrites(m, ws[..|ws| - 1]), ws[|ws| - 1].0, ws[|ws| - 1].1)
  }

  ghost function Elements<T>(s: seq<T>): set<T> { set x | x in s }

  /** No deleted path is k or lies above it. */
  ghost predicate Spares(ds: seq<Path>, k: Path) { forall d: Path | d in ds :: !(d <= k) }

  ghost function Kept(m: Files, ds: seq<Path>): Files { map k | k in m && Spares(ds, k) :: m[k] }

  lemma {:induction false} DeletesTakeOut(m: Files, ds: seq<Path>)
    ensures ReplayDeletes(m, ds) == Kept(m, ds)
  {
    if ds != [] {
      var before, d := ds[..|ds| - 1], ds[|ds| - 1];
      DeletesTakeOut(m, before);
      assert ds == before + [d];
      forall k: Path ensures Spares(ds, k) <==> Spares(before, k) && !(d <= k) { SparesOneMore(before, d, k); }
    }
  }

  lemma SparesOneMore(ds: seq<Path>, d: Path, k: Path)
    ensures Spares(ds + [d], k) <==> Spares(ds, k) && !(d <= k)
  {
    assert (ds + [d])[|ds|] == d;
    if Spares(ds + [d], k) {
      assert d in ds + [d] && !(d <= k);
      forall x: Path | x in ds ensures !(x <= k) { assert x in ds + [d]; }
    }
    if Spares(ds, k) && !(d <= k) {
      forall x: Path | x in ds + [d] ensures !(x <= k) { assert x in ds || x == d; }
    }
  }

  ghost function Regulars(changes: map<Path, Blob>): Files { map p | p in changes :: Regular(changes[p]) }

  lemma PlainOverwrite(m: Files, p: Path, b: Blob)
    requires PrefixFree(m.Keys + {p})
    ensures WritePath(m, p, b) == m[p := Regular(b)]
  {
    forall k | k in m && k != p ensures !(p <= k) && !(k <= p) {
      assert k in m.Keys + {p} && p in m.Keys + {p};
    }
  }

  lemma PrefixFreeSubset(s: set<Path>, t: set<Path>)
    requires PrefixFree(t) && s <= t
    ensures PrefixFree(s)
  {
  }

  /** Where nothing stands above or below a written path, writing is plain overwriting. */
  lemma {:induction false} WritesOverwrite(m: Files, ws: seq<(Path, Blob)>)
    requires PrefixFree(m.Keys + LastWrites(ws).Keys)
    ensures ReplayWrites(m, ws) == m + Regulars(LastWrites(ws))
  {
    if ws != [] {
      var before, w := ws[..|ws| - 1], ws[|ws| - 1];
      var all := m.Keys + LastWrites(ws).Keys;
      assert LastWrites(ws).Keys == LastWrites(before).Keys + {w.0};
      PrefixFreeSubset(m.Keys + LastWrites(before).Keys, all);
      WritesOverwrite(m, before);
      OverwriteOneMore(m, LastWrites(before), w.0, w.1);
    }
  }

  lemma OverwriteOneMore(m: Files, changes: map<Path, Blob>, p: Path, b: Blob)
    requires PrefixFree(m.Keys + changes[p := b].Keys)
    ensures WritePath(m + Regulars(changes), p, b) == m + Regulars(changes[p := b])
  {
    var r := m + Regulars(changes);
    OneMoreWrite(m, changes, p, b);
    assert r.Keys + {p} == m.Keys + changes[p := b].Keys;
    PlainOverwrite(r, p, b);
  }

  lemma OneMoreWrite(m: Files, changes: map<Path, Blob>, p: Path, b: Blob)
    ensures m + Regulars(changes[p := b]) == (m + Regulars(changes))[p := Regular(b)]
  {
    assert Regulars(changes[p := b]) == Regulars(changes)[p := Regular(b)];
  }

  lemma {:induction false} DeletesKeepPrefixFree(m: Files, ds: seq<Path>)
    requires PrefixFree(m.Keys)
    ensures PrefixFree(ReplayDeletes(m, ds).Keys)
  {
    DeletesTakeOut(m, ds);
  }

  lemma {:induction false} WritesKeepPrefixFree(m: Files, ws: seq<(Path, Blob)>)
    requires PrefixFree(m.Keys)
    ensures PrefixFree(ReplayWrites(m, ws).Keys)
  {
    if ws != [] { WritesKeepPrefixFree(m, ws[..|ws| - 1]); }
  }

  /** A file that goes because its directory is deleted is deleted, or written, in its own right. */
  ghost predicate DeletesNameFiles(m: Files, changes: map<Path, Blob>, deletes: set<Path>) {
    forall d: Path, q: Path | d in deletes && q in m && d < q :: q in deletes || q in changes
  }

  lemma OverwriteMeetsReference(m: Files, ds: seq<Path>, changes: map<Path, Blob>)
    ensures Kept(m, ds) + Regulars(changes) == Reference(m, changes, Elements(ds))
        <==> DeletesNameFiles(m, changes, Elements(ds))
  {
    var built, wanted := Kept(m, ds) + Regulars(changes), Reference(m, changes, Elements(ds));
    if built == wanted {
      forall d: Path, q: Path | d in Elements(ds) && q in m && d < q ensures q in Elements(ds) || q in changes {
        assert q in built <==> q in wanted;
      }
    }
    if DeletesNameFiles(m, changes, Elements(ds)) {
      forall q ensures q in built <==> q in wanted {
        if q in m && q !in changes { SparedOrDeleted(m, ds, changes, q); }
      }
      forall q | q in built ensures built[q] == wanted[q] {
        if q !in changes { assert q in Kept(m, ds); }
      }
      assert built == wanted;
    }
  }

  lemma SparedOrDeleted(m: Files, ds: seq<Path>, changes: map<Path, Blob>, q: Path)
    requires DeletesNameFiles(m, changes, Elements(ds)) && q in m && q !in changes
    ensures Spares(ds, q) <==> q !in Elements(ds)
  {
    if q !in Elements(ds) {
      forall d: Path | d in ds ensures !(d <= q) { assert d in Elements(ds) && d != q; }
    }
  }

  /** Replaying deletes and then writes gives the reference map if and only if that map is
      prefix-free and no deleted path is a directory whose files would go unasked. */
  lemma ReplayMeetsReference(m: Files, ds: seq<Path>, ws: seq<(Path, Blob)>)
    requires PrefixFree(m.Keys)
    ensures ReplayWrites(ReplayDeletes(m, ds), ws) == Reference(m, LastWrites(ws), Elements(ds))
        <==> PrefixFree(Reference(m, LastWrites(ws), Elements(ds)).Keys)
             && DeletesNameFiles(m, LastWrites(ws), Elements(ds))
  {
    var changes := LastWrites(ws);
    var wanted := Reference(m, changes, Elements(ds));
    DeletesTakeOut(m, ds);
    DeletesKeepPrefixFree(m, ds);
    WritesKeepPrefixFree(Kept(m, ds), ws);
    if PrefixFree(wanted.Keys) {
      KeptWithin(m, ds, changes);
      PrefixFreeSubset(Kept(m, ds).Keys + changes.Keys, wanted.Keys);
      WritesOverwrite(Kept(m, ds), ws);
      OverwriteMeetsReference(m, ds, changes);
    }
  }

  /** The smallest delete that takes out a directory: deleting d takes d/x along. */
  lemma DeletedDirectoryExample(b: Blob)
    ensures var m: Files, ds := map[["d", "x"] := Regular(b)], [["d"]];
      && PrefixFree(m.Keys) && Reference(m, LastWrites([]), Elements(ds)) == m
      && ReplayWrites(ReplayDeletes(m, ds), []) == map[]
  {
    var m: Files, ds: seq<Path> := map[["d", "x"] := Regular(b)], [["d"]];
    assert ds[..0] == [] && ["d"] in ds && ["d"] <= ["d", "x"];
    assert !Spares(ds, ["d", "x"]);
    DeletesTakeOut(m, ds);
    assert Kept(m, ds) == map[];
  }

  lemma KeptWithin(m: Files, ds: seq<Path>, changes: map<Path, Blob>)
    ensures Kept(m, ds).Keys + changes.Keys <= Reference(m, changes, Elements(ds)).Keys
  {
  }

  // ---------- The commands of one changelist ----------

  ghost function PathsOf(deletes: seq<string>): seq<Path> {
    seq(|deletes|, i requires 0 <= i < |deletes| => Split(deletes[i]))
  }

  ghost function BlobsOf(items: seq<FileItem>, oid: string -> Oid): seq<(Path, Blob)> {
    seq(|items|, i requires 0 <= i < |items| =>
      (Split(items[i].path), Blob(oid(items[i].content), Unpack(items[i]).mode)))
  }

  lemma {:induction false} ReplayOfDeletes(m: Files, deletes: seq<string>, oid: string -> Oid)
    ensures ReplayFiles(m, Deletes(deletes), oid) == ReplayDeletes(m, PathsOf(deletes))
  {
    if deletes != [] {
      var k := |deletes| - 1;
      ReplayOfDeletes(m, deletes[..k], oid);
      assert Deletes(deletes)[..k] == Deletes(deletes[..k]);
      assert PathsOf(deletes)[..k] == PathsOf(deletes[..k]);
    }
  }

  lemma {:induction false} ReplayOfWrites(m: Files, items: seq<FileItem>, oid: string -> Oid)
    ensures ReplayFiles(m, Writes(items), oid) == ReplayWrites(m, BlobsOf(items, oid))
  {
    if items != [] {
      var k := |items| - 1;
      ReplayOfWrites(m, items[..k], oid);
      assert Writes(items)[..k] == Writes(items[..k]);
      assert BlobsOf(items, oid)[..k] == BlobsOf(items[..k], oid);
    }
  }

  lemma {:induction false} ReplayAppend(m: Files, fs: seq<FileCommand>, gs: seq<FileCommand>, oid: string -> Oid)
    ensures ReplayFiles(m, fs + gs, oid) == ReplayFiles(ReplayFiles(m, fs, oid), gs, oid)
  {
    if gs == [] {
      assert fs + gs == fs;
    } else {
      var k := |gs| - 1;
      assert (fs + gs)[..|fs + gs| - 1] == fs + gs[..k];
      ReplayAppend(m, fs, gs[..k], oid);
    }
  }

  /** Deletes first, then writes, as the bulk importer emits them for one changelist. */
  lemma {:induction false} ReplayOfChangelist(m: Files, deletes: seq<string>, items: seq<FileItem>, oid: string -> Oid)
    ensures ReplayFiles(m, Deletes(deletes) + Writes(items), oid)
         == ReplayWrites(ReplayDeletes(m, PathsOf(deletes)), BlobsOf(items, oid))
  {
    ReplayAppend(m, Deletes(deletes), Writes(items), oid);
    ReplayOfDeletes(m, deletes, oid);
    ReplayOfWrites(ReplayFiles(m, Deletes(deletes), oid), items, oid);
  }
}
