/** Uploading large files in batches, with a progress file that survives crashes. */
module LfsPushing {
  import opened Text
  import opened Unique
  import opened CommitMetadata
  import opened LfsRouting
  import opened LfsPointers

  // ---------- Listing ----------

  function WordLength(s: string): (n: nat)
    ensures n <= |s|
  {
    if s == "" || IsSpace(s[0]) then 0 else 1 + WordLength(s[1..])
  }

  function FirstWord(line: string): string { Strip(line)[..WordLength(Strip(line))] }

  predicate NamesOid(word: string) { |word| == OID_LENGTH && AllIn(Lower(word), Hex) }

  /** The first word of a line: what stands between white space. */
  lemma {:induction false} FirstWordExactly(line: string) returns (rest: string)
    ensures Strip(line) == FirstWord(line) + rest && (rest == "" || IsSpace(rest[0]))
    ensures forall c | c in FirstWord(line) :: !IsSpace(c)
  {
    hide IsSpace;
    rest := Strip(line)[WordLength(Strip(line))..];
    WordEnds(Strip(line));
  }

  lemma {:induction false} WordEnds(s: string)
    ensures forall c | c in s[..WordLength(s)] :: !IsSpace(c)
    ensures WordLength(s) < |s| ==> IsSpace(s[WordLength(s)])
  {
    hide IsSpace;
    if s != "" && !IsSpace(s[0]) {
      WordEnds(s[1..]);
      assert s[..WordLength(s)] == [s[0]] + s[1..][..WordLength(s[1..])];
    }
  }

  /** A digest is sixty-four hexadecimal digits, in either case. */
  lemma NamesOidExactly(word: string)
    ensures NamesOid(word) <==> |word| == 64 && forall c | c in word :: c in "0123456789abcdefABCDEF"
  {
    forall c ensures InClass(LowerChar(c), Hex) <==> c in "0123456789abcdefABCDEF" { HexInEitherCase(c); }
    if NamesOid(word) {
      forall c | c in word ensures InClass(LowerChar(c), Hex) {
        var i :| 0 <= i < |word| && word[i] == c;
        assert Lower(word)[i] in Lower(word);
      }
    }
    if |word| == 64 && forall c | c in word :: c in "0123456789abcdefABCDEF" {
      forall c | c in Lower(word) ensures InClass(c, Hex) {
        var i :| 0 <= i < |word| && Lower(word)[i] == c;
        assert word[i] in word;
      }
    }
  }

  lemma HexInEitherCase(c: char)
    ensures InClass(LowerChar(c), Hex) <==> c in "0123456789abcdefABCDEF"
  {
    var hex := "0123456789abcdefABCDEF";
    if '0' <= c <= '9' { assert c == hex[c as int - 48]; }
    if 'a' <= c <= 'f' { assert c == hex[10 + (c as int - 97)]; }
    if 'A' <= c <= 'F' { assert c == hex[16 + (c as int - 65)]; }
  }

  function Named(lines: seq<string>): seq<Oid> {
    if lines == [] then []
    else
      var word := FirstWord(lines[|lines| - 1]);
      Named(lines[..|lines| - 1]) + if NamesOid(word) then [word] else []
  }

  /** The digests a listing names, each once, in the order they first appear. */
  method ParseLsFilesOids(lines: seq<string>) returns (oids: seq<Oid>)
    ensures oids == Firsts(Named(lines)) && NoRepeats(oids) && forall o :: o in oids <==> o in Named(lines)
  {
    hide NamesOid, FirstWord, Named, Firsts;
    oids := [];
    var seen: set<Oid> := {};
    NothingNamed();
    assert lines[..0] == [];
    for i := 0 to |lines|
      invariant oids == Firsts(Named(lines[..i])) && forall o :: o in seen <==> o in oids
    {
      var word := FirstWord(lines[i]);
      NamedNext(lines, i);
      NamedOneMore(Named(lines[..i]), word);
      if NamesOid(word) && word !in seen {
        seen := seen + {word};
        oids := oids + [word];
      }
    }
    assert lines[..|lines|] == lines;
  }

  lemma NothingNamed()
    ensures Named([]) == [] && Firsts<Oid>([]) == []
  {
  }

  lemma NamedNext(lines: seq<string>, i: nat)
    requires i < |lines|
    ensures Named(lines[..i + 1])
        == Named(lines[..i]) + if NamesOid(FirstWord(lines[i])) then [FirstWord(lines[i])] else []
  {
    assert lines[..i + 1][..i] == lines[..i];
  }

  lemma NamedOneMore(named: seq<Oid>, word: Oid)
    ensures Firsts(named + [word]) == if word in Firsts(named) then Firsts(named) else Firsts(named) + [word]
    ensures named + [] == named
  {
    assert (named + [word])[..|named|] == named;
  }

  // ---------- Batches ----------

  function Chunk(s: seq<Oid>, size: nat): seq<seq<Oid>>
    requires size > 0
    decreases |s|
  {
    if s == [] then [] else [s[..Min(size, |s|)]] + Chunk(s[Min(size, |s|)..], size)
  }

  function Flatten(batches: seq<seq<Oid>>): seq<Oid> {
    if batches == [] then [] else batches[0] + Flatten(batches[1..])
  }

  /** Batches hold the list, piece by piece, none empty and none too large. */
  lemma {:induction false} ChunkHoldsAll(s: seq<Oid>, size: nat)
    requires size > 0
    ensures Flatten(Chunk(s, size)) == s
    ensures forall b | b in Chunk(s, size) :: 0 < |b| <= size
    decreases |s|
  {
    if s != [] {
      var k := Min(size, |s|);
      ChunkHoldsAll(s[k..], size);
      assert Chunk(s, size)[1..] == Chunk(s[k..], size);
      assert s == s[..k] + s[k..];
    }
  }

  // ---------- Progress ----------

  /** The progress file: not there, holding digests, or damaged. */
  datatype Disk = Absent | Saved(oids: set<Oid>) | Damaged

  /** What counts as done once the progress file has been read. */
  function Loaded(d: Disk, done: set<Oid>): set<Oid> {
    match d
    case Absent => done
    case Saved(oids) => oids
    case Damaged => {}
  }

  function Marks(d: Disk): set<Oid> { if d.Saved? then d.oids else {} }

  class LfsPushProgress {
    var disk: Disk
    var done: set<Oid>

    constructor (disk: Disk)
      ensures this.disk == disk && done == {}
    {
      this.disk, done := disk, {};
    }

    method Load()
      modifies this`done
      ensures done == Loaded(disk, old(done))
    {
      match disk {
        case Absent =>
        case Saved(oids) => done := oids;
        case Damaged => done := {};
      }
    }

    method Save()
      modifies this`disk
      ensures disk == Saved(done)
    {
      disk := Saved(done);
    }

    /** A crash loses what is in memory. */
    method Forget()
      modifies this`done
      ensures done == {}
    {
      done := {};
    }

    method Mark(oids: seq<Oid>)
      modifies this`done
      ensures done == old(done) + set o | o in oids
    {
      done := done + set o | o in oids;
    }
  }

  // ---------- Runs ----------

  /** What becomes of a batch: accepted, refused, or a crash before or after the server has it. */
  datatype Push = Accepted | Refused | CrashBefore | CrashAfter

  datatype Summary = Summary(total: nat, skipped: nat, pushed: nat, batches: nat, failedOids: seq<Oid>) {
    predicate Ok() { failedOids == [] }
  }

  datatype Outcome = Finished(summary: Summary) | Crashed | BadBatchSize

  function Pending(oids: seq<Oid>, done: set<Oid>): seq<Oid> {
    if oids == [] then []
    else
      var last := oids[|oids| - 1];
      Pending(oids[..|oids| - 1], done) + if last in done then [] else [last]
  }

  lemma {:induction false} PendingAre(oids: seq<Oid>, done: set<Oid>)
    ensures |Pending(oids, done)| <= |oids|
    ensures forall o :: o in Pending(oids, done) <==> o in oids && o !in done
  {
    if oids != [] {
      PendingAre(oids[..|oids| - 1], done);
      assert oids == oids[..|oids| - 1] + [oids[|oids| - 1]];
    }
  }

  /** Counts add up: whatever is listed was skipped, pushed, failed, or left after a failure. */
  ghost predicate AddsUp(s: Summary, oids: seq<Oid>, continueOnError: bool) {
    && s.total == |oids|
    && exists unattempted: nat {:trigger Leaves(s, unattempted)} ::
         Leaves(s, unattempted) && (unattempted > 0 ==> !continueOnError && !s.Ok())
  }

  ghost predicate Leaves(s: Summary,
                         unattempted: nat) { s.total == s.skipped + s.pushed + |s.failedOids| + unattempted }

  /** A run that does not go on after an error sends nothing behind the batch that was refused. */
  ghost predicate EndsWith(newlySent: seq<Oid>, failed: seq<Oid>, batchSize: int) {
    |failed| <= batchSize && exists before: seq<Oid> :: newlySent == before + failed
  }

  lemma CountsAddUp(s: Summary, oids: seq<Oid>, continueOnError: bool, unattempted: nat)
    requires s.total == |oids| == s.skipped + s.pushed + |s.failedOids| + unattempted
    requires unattempted > 0 ==> !continueOnError && !s.Ok()
    ensures AddsUp(s, oids, continueOnError)
  {
    assert Leaves(s, unattempted);
  }

  /** The next batch moves from what is left to what was tried. */
  lemma Moved(tried: seq<Oid>, batch: seq<Oid>, rest: seq<Oid>, before: seq<Oid>)
    requires batch <= rest
    ensures tried + rest == (tried + batch) + rest[|batch|..]
    ensures (before + tried) + batch == before + (tried + batch)
  {
  }

  lemma EndsThere(before: seq<Oid>, failed: seq<Oid>, batchSize: int)
    requires |failed| <= batchSize
    ensures EndsWith(before + failed, failed, batchSize)
    ensures before + [] == before && [] + failed == failed
  {
  }

  lemma {:induction false} NothingDone(oids: seq<Oid>)
    ensures Pending(oids, {}) == oids
  {
    if oids != [] { NothingDone(oids[..|oids| - 1]); }
  }

  ghost function Elements(s: seq<Oid>): set<Oid> { set o | o in s }

  class LfsPusher {
    const progress: LfsPushProgress

    /** Everything handed to the server so far, and what it is known to have accepted. */
    ghost var sent: seq<Oid>
    ghost var confirmed: set<Oid>

    /** What is marked has been accepted, in memory and on disk. */
    ghost predicate Valid()
      reads this, progress
    {
      progress.done <= confirmed && Marks(progress.disk) <= confirmed
    }

    constructor (progress: LfsPushProgress)
      requires Marks(progress.disk) == progress.done == {}
      ensures this.progress == progress && Valid() && sent == []
    {
      this.progress, sent, confirmed := progress, [], {};
    }

    /** Everything sent in a run was accepted or is reported as failed. */
    ghost predicate Accounts(s: Summary, newlySent: seq<Oid>)
      reads this
    {
      && s.pushed + |s.failedOids| == |newlySent| && (forall o | o in s.failedOids :: o in newlySent)
      && (forall o | o in newlySent :: o in confirmed || o in s.failedOids)
    }

    /** Hand one batch to the server; mark and save it when accepted. */
    method PushBatch(batch: seq<Oid>, push: Push)
      requires Valid() && Marks(progress.disk) <= progress.done
      modifies this, progress
      ensures Marks(old(progress.disk)) <= Marks(progress.disk) <= progress.done && old(progress.done) <= progress.done
      ensures Valid() && sent == old(sent) + batch
      ensures progress.done == if push.Accepted? then old(progress.done) + Elements(batch) else old(progress.done)
      ensures progress.disk == if push.Accepted? then Saved(progress.done) else old(progress.disk)
      ensures confirmed
          == if push.Accepted? || push.CrashAfter? then old(confirmed) + Elements(batch) else old(confirmed)
    {
      sent := sent + batch;
      if push.Accepted? || push.CrashAfter? { confirmed := confirmed + Elements(batch); }
      if push.Accepted? {
        progress.Mark(batch);
        progress.Save();
      }
    }

    /** One run: load the progress, skip what is done, push the rest in batches. */
    method Run(oids: seq<Oid>, batchSize: int, continueOnError: bool, luck: nat -> Push) returns (r: Outcome)
      requires Valid()
      modifies this, progress
      ensures Valid() && Marks(old(progress.disk)) <= Marks(progress.disk)
      ensures old(sent) <= sent && forall o | o in sent[|old(sent)|..] :: o in oids && o !in Marks(old(progress.disk))
      ensures r.BadBatchSize? <==> batchSize <= 0
      ensures r.Finished? ==> AddsUp(r.summary, oids, continueOnError) && Accounts(r.summary, sent[|old(sent)|..])
      ensures r.Finished? ==>
        r.summary.skipped == |oids| - |Pending(oids, Loaded(old(progress.disk), old(progress.done)))|
      ensures r.Finished? && r.summary.Ok() ==> forall o | o in oids :: o in progress.done && o in confirmed
      ensures r.Finished? && !continueOnError ==> EndsWith(sent[|old(sent)|..], r.summary.failedOids, batchSize)
      ensures r.Finished? && old(progress.disk).Damaged? ==> r.summary.skipped == 0
    {
      hide AddsUp, EndsWith, Covers, Pending;
      NothingDone(oids);
      progress.Load();
      var pending := Pending(oids, progress.done);
      PendingAre(oids, progress.done);
      if batchSize <= 0 { return BadBatchSize; }
      ghost var done0, tried := progress.done, [];
      var s := Summary(|oids|, |oids| - |pending|, 0, 0, []);
      r, tried := PushAll(pending, batchSize, continueOnError, luck, s);
      assert sent[|old(sent)|..] == tried;
      if r.Finished? {
        TriedAre(progress.done, r.summary.pushed, r.summary.failedOids, tried);
        CountsAddUp(r.summary, oids, continueOnError, |pending| - |tried|);
        forall o | o in oids && r.summary.Ok() ensures o in progress.done { assert o in done0 || o in tried; }
      }
    }

    /** Push batch by batch until all is tried, or one is refused and the run does not go on. */
    method PushAll(pending: seq<Oid>, batchSize: nat, continueOnError: bool, luck: nat -> Push, start: Summary)
      returns (r: Outcome, ghost tried: seq<Oid>)
      requires Valid() && batchSize > 0 && Marks(progress.disk) <= progress.done
      requires start == Summary(start.total, start.skipped, 0, 0, [])
      modifies this, progress
      ensures Valid() && Marks(old(progress.disk)) <= Marks(progress.disk)
      ensures sent == old(sent) + tried && tried <= pending && !r.BadBatchSize?
      ensures r.Finished? ==>
        && r.summary.total == start.total && r.summary.skipped == start.skipped
        && old(progress.done) <= progress.done
        && Covers(progress.done, r.summary.pushed, r.summary.failedOids, tried)
        && (tried == pending || (!continueOnError && !r.summary.Ok()))
      ensures r.Finished? && !continueOnError ==> EndsWith(tried, r.summary.failedOids, batchSize)
    {
      hide Chunk, EndsWith, Elements, Covers, Marks;
      ghost var done0 := progress.done;
      var batches, s := Chunk(pending, batchSize), start;
      ghost var rest := pending;
      tried := [];
      NothingTried(progress.done);
      for i := 0 to |batches|
        invariant Valid() && batches[i..] == Chunk(rest, batchSize) && pending == tried + rest
        invariant sent == old(sent) + tried && Marks(old(progress.disk)) <= Marks(progress.disk)
        invariant s == start.(pushed := s.pushed, batches := i, failedOids := s.failedOids)
        invariant done0 <= progress.done && Marks(progress.disk) <= progress.done
        invariant Covers(progress.done, s.pushed, s.failedOids, tried)
        invariant s.failedOids != [] ==> continueOnError
      {
        NextBatch(batches, i, rest, batchSize);
        var batch := batches[i];
        MoreTried(progress.done, s.pushed, s.failedOids, tried, batch);
        EndsThere(tried, batch, batchSize);
        Moved(tried, batch, rest, old(sent));
        PushBatch(batch, luck(i));
        tried, rest := tried + batch, rest[|batch|..];
        s := s.(batches := i + 1);
        match luck(i) {
          case Accepted => s := s.(pushed := s.pushed + |batch|);
          case Refused =>
            s := s.(failedOids := s.failedOids + batch);
            if !continueOnError { return Finished(s), tried; }
          case _ =>
            progress.Forget();
            return Crashed, tried;
        }
      }
      NoBatches(rest, batchSize);
      EndsThere(tried, [], batchSize);
      r := Finished(s);
    }
  }

  /** Of what was tried, as much was pushed as is not reported as failed, and the rest is done. */
  ghost predicate Covers(done: set<Oid>, pushed: nat, failed: seq<Oid>, tried: seq<Oid>) {
    && pushed + |failed| == |tried| && (forall o | o in failed :: o in tried)
    && forall o | o in tried :: o in done || o in failed
  }

  lemma NothingTried(done: set<Oid>)
    ensures Covers(done, 0, [], [])
  {
  }

  lemma MoreTried(done: set<Oid>, pushed: nat, failed: seq<Oid>, tried: seq<Oid>, batch: seq<Oid>)
    requires Covers(done, pushed, failed, tried)
    ensures Covers(done + Elements(batch), pushed + |batch|, failed, tried + batch)
    ensures Covers(done, pushed, failed + batch, tried + batch)
    ensures failed == [] ==> failed + batch == batch
    ensures done <= done + Elements(batch)
  {
  }

  lemma TriedAre(done: set<Oid>, pushed: nat, failed: seq<Oid>, tried: seq<Oid>)
    requires Covers(done, pushed, failed, tried)
    ensures pushed + |failed| == |tried| && (forall o | o in failed :: o in tried)
    ensures forall o | o in tried :: o in done || o in failed
  {
  }

  lemma NextBatch(batches: seq<seq<Oid>>, i: nat, rest: seq<Oid>, size: nat)
    requires size > 0 && i < |batches| && batches[i..] == Chunk(rest, size)
    ensures |batches[i]| <= size && 0 < |batches[i]| <= |rest| && rest == batches[i] + rest[|batches[i]|..]
    ensures batches[i + 1..] == Chunk(rest[|batches[i]|..], size)
  {
    assert batches[i] == batches[i..][0] && batches[i + 1..] == batches[i..][1..];
  }

  lemma NoBatches(rest: seq<Oid>, size: nat)
    requires size > 0 && Chunk(rest, size) == []
    ensures rest == []
  {
  }

  // ---------- Any number of runs ----------

  datatype Config = Config(oids: seq<Oid>, batchSize: int, continueOnError: bool, luck: nat -> Push)

  /** What was on disk after a run, and what the run had handed to the server. */
  datatype Trace = Trace(marks: set<Oid>, sent: seq<Oid>)

  /** Over any sequence of runs, failing and crashing as they may: a digest marked on disk had been
      accepted, and no later run hands it to the server again. */
  method RunAll(pusher: LfsPusher, runs: seq<Config>) returns (ghost traces: seq<Trace>, crashes: nat)
    requires pusher.Valid()
    modifies pusher, pusher.progress
    ensures pusher.Valid() && |traces| == |runs| && crashes <= |runs|
    ensures forall i | 0 <= i < |traces| :: traces[i].marks <= pusher.confirmed
    ensures forall i, k, o | 0 <= i < k < |traces| && o in traces[k].sent :: o !in traces[i].marks
  {
    traces, crashes := [], 0;
    for n := 0 to |runs|
      invariant pusher.Valid() && |traces| == n && crashes <= n
      invariant forall i | 0 <= i < n :: traces[i].marks <= Marks(pusher.progress.disk)
      invariant forall i, k, o | 0 <= i < k < n && o in traces[k].sent :: o !in traces[i].marks
    {
      ghost var before, marks := |pusher.sent|, Marks(pusher.progress.disk);
      var c := runs[n];
      var r := pusher.Run(c.oids, c.batchSize, c.continueOnError, c.luck);
      if r.Crashed? { crashes := crashes + 1; }
      traces := traces + [Trace(Marks(pusher.progress.disk), pusher.sent[before..])];
    }
  }
}
