/** Disaster recovery: rebuilding the tables from nothing but the branch's Git log. */
module Recovery {
  import opened Options
  import opened Text
  import opened CommitMetadata
  import opened StateStores

  const SEPARATOR := "---END---\n"

  // ---------- The log as text ----------

  /** A commit of the branch: one the sync made from a changelist, or one of a user. */
  datatype Entry = FromChangelist(sha: Sha, meta: Metadata) | FromUser(sha: Sha, message: string)

  function Message(e: Entry): string { if e.FromUser? then e.message else FormatMessage(e.meta) }

  /** Git prints a commit as its name, its message and a closing line. */
  function EntryText(sha: Sha, message: string): string { sha + ("\n" + (message + "\n")) }

  function Texts(log: seq<Entry>): seq<string> {
    seq(|log|, i requires 0 <= i < |log| => EntryText(log[i].sha, Message(log[i])))
  }

  function LogText(log: seq<Entry>): string {
    if log == [] then "" else EntryText(log[0].sha, Message(log[0])) + (SEPARATOR + LogText(log[1..]))
  }

  // ---------- Splitting ----------

  lemma StandsLater(word: string, s: string, i: nat)
    requires s != ""
    ensures StandsAt(word, s[1..], i) <==> StandsAt(word, s, i + 1)
  {
    assert i + 1 + |word| <= |s| ==> s[1..][i..i + |word|] == s[i + 1..i + 1 + |word|];
  }

  function Find(s: string, word: string): (i: nat)
    requires word != ""
    ensures i <= |s|
    ensures i < |s| ==> StandsAt(word, s, i)
  {
    if s == "" then 0
    else if StandsAt(word, s, 0) then 0
    else
      var i := Find(s[1..], word);
      assert i < |s| - 1 ==> StandsAt(word, s, i + 1) by { StandsLater(word, s, i); }
      i + 1
  }

  /** Python's str.split with a separator. */
  function SplitAll(s: string, word: string): seq<string>
    requires word != ""
    decreases |s|
  {
    var i := Find(s, word);
    if i == |s| then [s] else [s[..i]] + SplitAll(s[i + |word|..], word)
  }

  lemma {:induction false} FindFirst(head: string, word: string, tail: string)
    requires word != "" && forall i | 0 <= i < |head| :: !StandsAt(word, head + (word + tail), i)
    ensures Find(head + (word + tail), word) == |head|
  {
    var s := head + (word + tail);
    if head == "" {
      assert s[0..|word|] == word;
    } else {
      var s1 := head[1..] + (word + tail);
      assert s[1..] == s1;
      forall i | 0 <= i < |head| - 1 ensures !StandsAt(word, s1, i) {
        assert !StandsAt(word, s, i + 1);
        assert i + |word| <= |s1| ==> s1[i..i + |word|] == s[i + 1..i + 1 + |word|];
      }
      FindFirst(head[1..], word, tail);
      assert !StandsAt(word, s, 0);
    }
  }

  lemma SplitAtFirst(s: string, head: string, word: string, tail: string)
    requires word != "" && Find(s, word) == |head| < |s| && s[..|head|] == head && s[|head| + |word|..] == tail
    ensures SplitAll(s, word) == [head] + SplitAll(tail, word)
  {
    hide StandsAt, Find;
  }

  lemma Parts(head: string, word: string, tail: string)
    ensures var s := head + (word + tail);
            |s| == |head| + |word| + |tail| && s[..|head|] == head && s[|head| + |word|..] == tail
  {
  }

  predicate Clean(message: string) { forall i | 0 <= i < |message| + 1 :: !StandsAt(SEPARATOR, message + "\n", i) }

  lemma NoSeparatorInEntry(sha: Sha, message: string, i: nat)
    requires Token(sha, Hex) && Clean(message)
    ensures !StandsAt(SEPARATOR, EntryText(sha, message), i)
  {
    var s, body := EntryText(sha, message), message + "\n";
    if i + |SEPARATOR| <= |s| {
      if i < |sha| {
        assert s[i] == sha[i] && sha[i] in sha;
        assert s[i..i + |SEPARATOR|][0] == s[i];
      } else if i == |sha| {
        assert s[i..i + |SEPARATOR|][0] == s[i] == '\n';
      } else {
        assert !StandsAt(SEPARATOR, body, i - |sha| - 1);
        assert s[i..i + |SEPARATOR|] == body[i - |sha| - 1..i - |sha| - 1 + |SEPARATOR|];
      }
    }
  }

  /** No separator straddles the end of an entry, for an entry ends with a line feed. */
  lemma NoStraddling(head: string, tail: string, i: nat)
    requires i < |head| && head[|head| - 1] == '\n' && !StandsAt(SEPARATOR, head, i)
    ensures !StandsAt(SEPARATOR, head + (SEPARATOR + tail), i)
  {
    var s := head + (SEPARATOR + tail);
    var j := |head| - 1 - i;
    if i + |SEPARATOR| <= |head| {
      assert s[i..i + |SEPARATOR|] == head[i..i + |SEPARATOR|];
    } else if i + |SEPARATOR| <= |s| {
      assert s[i..i + |SEPARATOR|][j] == s[|head| - 1] == '\n';
      assert SEPARATOR[j] != '\n';
    }
  }

  lemma EntryComesFirst(e: Entry, tail: string)
    requires Token(e.sha, Hex) && Clean(Message(e))
    ensures var head := EntryText(e.sha, Message(e));
      SplitAll(head + (SEPARATOR + tail), SEPARATOR) == [head] + SplitAll(tail, SEPARATOR)
  {
    hide Message, Clean, Token, StandsAt, SplitAll;
    var head := EntryText(e.sha, Message(e));
    forall i | 0 <= i < |head| ensures !StandsAt(SEPARATOR, head + (SEPARATOR + tail), i) {
      NoSeparatorInEntry(e.sha, Message(e), i);
      NoStraddling(head, tail, i);
    }
    FindFirst(head, SEPARATOR, tail);
    Parts(head, SEPARATOR, tail);
    SplitAtFirst(head + (SEPARATOR + tail), head, SEPARATOR, tail);
  }

  lemma {:induction false} LogSplits(log: seq<Entry>)
    requires forall e | e in log :: Token(e.sha, Hex) && Clean(Message(e))
    ensures SplitAll(LogText(log), SEPARATOR) == Texts(log) + [""]
  {
    hide Message, Clean, Token, EntryText, Find;
    if log != [] {
      var e := log[0];
      assert e in log && forall x | x in log[1..] :: x in log;
      LogSplits(log[1..]);
      EntryComesFirst(e, LogText(log[1..]));
      assert Texts(log) == [EntryText(e.sha, Message(e))] + Texts(log[1..]);
    }
  }

  /** The first place is found. */
  lemma {:induction false} FindIsFirst(s: string, word: string, k: nat)
    requires word != "" && k < Find(s, word)
    ensures !StandsAt(word, s, k)
  {
    if k > 0 {
      StandsLater(word, s, k - 1);
      FindIsFirst(s[1..], word, k - 1);
    }
  }

  lemma {:induction false} FindNone(s: string, word: string, k: nat)
    requires word != "" && Find(s, word) == |s| && k <= |s|
    ensures !StandsAt(word, s, k)
  {
    if k < |s| { FindIsFirst(s, word, k); }
  }

  lemma FrontIsClean(s: string, word: string, k: nat)
    requires word != "" && k <= Find(s, word)
    ensures !StandsAt(word, s[..Find(s, word)], k)
  {
    hide Find;
    var i := Find(s, word);
    if k < i { FindIsFirst(s, word, k); }
    assert k + |word| <= i ==> s[..i][k..k + |word|] == s[k..k + |word|];
  }

  /** No part holds the separator. */
  lemma {:induction false} PartsAreClean(s: string, word: string, part: string, k: nat)
    requires word != "" && part in SplitAll(s, word) && k <= |part|
    ensures !StandsAt(word, part, k)
    decreases |s|
  {
    hide Find;
    var i := Find(s, word);
    if i == |s| {
      FindNone(s, word, k);
    } else if part == s[..i] {
      FrontIsClean(s, word, k);
    } else {
      PartsAreClean(s[i + |word|..], word, part, k);
    }
  }

  lemma SeparatorInMessage(sha: Sha, message: string, i: nat)
    requires StandsAt(SEPARATOR, message + "\n", i)
    ensures StandsAt(SEPARATOR, EntryText(sha, message), |sha| + 1 + i)
  {
    var s, body := EntryText(sha, message), message + "\n";
    var j := |sha| + 1 + i;
    assert s[j..j + |SEPARATOR|] == body[i..i + |SEPARATOR|];
  }

  /** The log splits into its entries exactly when no message holds the separator. */
  lemma {:induction false} LogSplitsExactly(log: seq<Entry>)
    requires forall e | e in log :: Token(e.sha, Hex)
    ensures SplitAll(LogText(log), SEPARATOR) == Texts(log) + [""] <==> forall e | e in log :: Clean(Message(e))
  {
    hide Message, Token, StandsAt, SplitAll, LogText, EntryText;
    if forall e | e in log :: Clean(Message(e)) {
      LogSplits(log);
    } else {
      var e :| e in log && !Clean(Message(e));
      var i :| 0 <= i < |Message(e)| + 1 && StandsAt(SEPARATOR, Message(e) + "\n", i);
      SeparatorInMessage(e.sha, Message(e), i);
      var k :| 0 <= k < |log| && log[k] == e;
      assert (Texts(log) + [""])[k] == EntryText(e.sha, Message(e));
      if EntryText(e.sha, Message(e)) in SplitAll(LogText(log), SEPARATOR) {
        EntryIsLonger(e.sha, Message(e));
        PartsAreClean(LogText(log), SEPARATOR, EntryText(e.sha, Message(e)), |e.sha| + 1 + i);
      }
    }
  }

  lemma EntryIsLonger(sha: Sha, message: string)
    ensures |EntryText(sha, message)| == |sha| + 2 + |message|
  {
  }

  // ---------- Reading an entry ----------

  /** The changelist and commit an entry stands for, if it has a trailer. */
  function Parsed(entry: string): Option<(CL, Sha)> {
    var lines :- SplitFirst(Strip(entry), '\n');
    var cl :- ParseP4Cl(lines.1);
    Some((cl, Strip(lines.0)))
  }

  lemma HexIsNotSpace(sha: Sha)
    requires Token(sha, Hex)
    ensures Free(sha, '\n') && Strip(sha) == sha && !IsSpace(sha[0])
  {
    assert sha[0] in sha && sha[|sha| - 1] in sha;
    RunIs(sha, 0, Space, 0);
    assert sha[0..] == sha;
    assert !InClass('\n', Hex);
  }

  lemma {:induction false} StripRightConcat(a: string, b: string)
    ensures StripRight(a + b) == if StripRight(b) == "" then StripRight(a) else a + StripRight(b)
  {
    if b == "" {
      assert a + b == a;
    } else if IsSpace(b[|b| - 1]) {
      assert (a + b)[..|a + b| - 1] == a + b[..|b| - 1];
      StripRightConcat(a, b[..|b| - 1]);
    }
  }

  lemma StripLineFeed()
    ensures StripRight("\n") == ""
  {
  }

  lemma StripHead(sha: string)
    requires Strip(sha) == sha && Run(sha, 0, Space) == 0
    ensures StripRight(sha) == sha
  {
    assert sha[0..] == sha;
  }

  /** What the rebuild reads in the message of a commit. */
  function NumberIn(message: string): Option<CL> { ParseP4Cl(StripRight(message + "\n")) }

  lemma StrippedEntry(sha: Sha, message: string)
    requires Token(sha, Hex)
    ensures var rest := StripRight(message + "\n");
      Strip(EntryText(sha, message)) == if rest == "" then sha else sha + (['\n'] + rest)
  {
    hide IsSpace, StripRight;
    var s := EntryText(sha, message);
    HexIsNotSpace(sha);
    assert s[0] == sha[0];
    RunIs(s, 0, Space, 0);
    RunIs(sha, 0, Space, 0);
    assert s[0..] == s;
    StripRightConcat(sha, "\n" + (message + "\n"));
    StripRightConcat("\n", message + "\n");
    StripLineFeed();
    StripHead(sha);
  }

  lemma NothingInBlank()
    ensures ParseP4Cl("").None?
  {
  }

  lemma NoLineFeed(s: string)
    requires Free(s, '\n')
    ensures SplitFirst(s, '\n').None?
  {
  }

  /** An entry reads as its name and the number in its message, or as nothing. */
  lemma EntryRead(sha: Sha, message: string)
    requires Token(sha, Hex)
    ensures Parsed(EntryText(sha, message))
        == if NumberIn(message).Some? then Some((NumberIn(message).value, sha)) else None
  {
    hide IsSpace, ParseP4Cl, EntryText, StripRight, Run, SplitFirst;
    StrippedEntry(sha, message);
    HexIsNotSpace(sha);
    NothingInBlank();
    var rest := StripRight(message + "\n");
    if rest == "" { NoLineFeed(sha); } else { SplitFirstOf(sha, '\n', rest); }
  }

  /** A commit the sync made has its changelist's number read back exactly when its description holds
      no other changelist's marker. */
  lemma NumberReadBack(m: Metadata)
    ensures NumberIn(FormatMessage(m)) == Some(m.p4Changelist) <==> Unmistakable(m.message, m.p4Changelist)
  {
    hide IsSpace, FormatMessage, Search, ParseP4Cl;
    var n, pre, post := Decimal(m.p4Changelist), m.message + "\n\n", MessageTail(m) + "\n";
    MessageShape(m);
    DecimalIsToken(m.p4Changelist);
    TailCloses(m);
    LineFeedAfter(pre, P4CL, n, MessageTail(m));
    var post' := StripRightShape(pre, P4CL, Decimals, n, post);
    NumberReadExactly(m.message, m.p4Changelist, post');
  }

  lemma LineFeedAfter(pre: string, key: string, token: string, post: string)
    ensures TrailerText(pre, key, token, post) + "\n" == TrailerText(pre, key, token, post + "\n")
  {
  }

  /** An entry of a commit the sync made reads back as its changelist and its name, exactly when its
      description holds no other changelist's marker. */
  lemma EntryReadBack(sha: Sha, m: Metadata)
    requires Token(sha, Hex)
    ensures Parsed(EntryText(sha, FormatMessage(m))) == Some((m.p4Changelist, sha))
        <==> Unmistakable(m.message, m.p4Changelist)
  {
    hide FormatMessage, Unmistakable, Parsed, NumberIn;
    EntryRead(sha, FormatMessage(m));
    NumberReadBack(m);
  }

  lemma TailCloses(m: Metadata)
    ensures ClosesLine(MessageTail(m) + "\n")
  {
  }

  // ---------- Rebuilding ----------

  function WithCommit(t: Tables, cl: CL, sha: Sha, stream: Stream, branch: string): Tables {
    Recorded(t, cl, stream, Row(sha, branch, P4ToGit)).(synced := t.synced[stream := Synced(cl, sha)])
  }

  function Rebuilt(t: Tables, entries: seq<string>, stream: Stream, branch: string): Tables {
    if entries == [] then t
    else
      var before := Rebuilt(t, entries[..|entries| - 1], stream, branch);
      match Parsed(entries[|entries| - 1])
      case None => before
      case Some(found) => WithCommit(before, found.0, found.1, stream, branch)
  }

  function ParsedCount(entries: seq<string>): nat {
    if entries == [] then 0
    else ParsedCount(entries[..|entries| - 1]) + if Parsed(entries[|entries| - 1]).Some? then 1 else 0
  }

  /** The tables as forward syncing recorded them, commit by commit; it never recorded a user's commit. */
  function RecordedAll(t: Tables, log: seq<Entry>, stream: Stream, branch: string): Tables {
    if log == [] then t
    else
      var before := RecordedAll(t, log[..|log| - 1], stream, branch);
      match log[|log| - 1]
      case FromUser(_, _) => before
      case FromChangelist(sha, meta) => WithCommit(before, meta.p4Changelist, sha, stream, branch)
  }

  method RebuildStateFromGit(text: string, store: StateStore, stream: Stream, branch: string) returns (recovered: nat)
    modifies store
    ensures store.Contents() == Rebuilt(old(store.Contents()), SplitAll(text, SEPARATOR), stream, branch)
    ensures recovered == ParsedCount(SplitAll(text, SEPARATOR))
  {
    hide ParseP4Cl, Strip, SplitAll;
    var entries := SplitAll(text, SEPARATOR);
    recovered := 0;
    for i := 0 to |entries|
      invariant store.Contents() == Rebuilt(old(store.Contents()), entries[..i], stream, branch)
      invariant recovered == ParsedCount(entries[..i])
    {
      assert entries[..i + 1][..i] == entries[..i];
      var entry := Strip(entries[i]);
      var lines := SplitFirst(entry, '\n');
      if lines.Some? {
        var cl := ParseP4Cl(lines.value.1);
        if cl.Some? {
          var sha := Strip(lines.value.0);
          store.RecordCommit(cl.value, sha, stream, branch, P4ToGit);
          store.SetLastSyncedCl(stream, cl.value, sha);
          recovered := recovered + 1;
        }
      }
    }
    assert entries[..|entries|] == entries;
  }

  /** The rebuild takes the commit for what it is. */
  predicate Recognisable(e: Entry) {
    match e
    case FromUser(_, message) => NumberIn(message).None?
    case FromChangelist(_, meta) => Unmistakable(meta.message, meta.p4Changelist)
  }

  /** Every message can be told apart from the separator, no description carries another's marker, and
      no message of a user carries any. */
  ghost predicate Recoverable(log: seq<Entry>) {
    forall e | e in log :: Token(e.sha, Hex) && Clean(Message(e)) && Recognisable(e)
  }

  lemma EntryRecognised(e: Entry)
    requires Token(e.sha, Hex) && Recognisable(e)
    ensures Parsed(EntryText(e.sha, Message(e)))
         == if e.FromUser? then None else Some((e.meta.p4Changelist, e.sha))
  {
    hide FormatMessage, Unmistakable, Parsed, NumberIn;
    EntryRead(e.sha, Message(e));
    if e.FromChangelist? { NumberReadBack(e.meta); }
  }

  lemma {:induction false} TextsRebuild(t: Tables, log: seq<Entry>, stream: Stream, branch: string)
    requires Recoverable(log)
    ensures Rebuilt(t, Texts(log), stream, branch) == RecordedAll(t, log, stream, branch)
  {
    hide Message, Clean, Recognisable, Token, Parsed, WithCommit, EntryText;
    if log != [] {
      var k := |log| - 1;
      assert log[k] in log && forall e | e in log[..k] :: e in log;
      assert Texts(log)[..k] == Texts(log[..k]);
      TextsRebuild(t, log[..k], stream, branch);
      EntryRecognised(log[k]);
    }
  }

  lemma NothingParsed()
    ensures Parsed("").None?
  {
  }

  /** Rebuilding from the log gives back exactly the tables forward recording had made. */
  lemma {:induction false} RebuildInvertsRecording(t: Tables, log: seq<Entry>, stream: Stream, branch: string)
    requires Recoverable(log)
    ensures Rebuilt(t, SplitAll(LogText(log), SEPARATOR), stream, branch) == RecordedAll(t, log, stream, branch)
  {
    hide Message, Clean, Recognisable, Token, Parsed, SplitAll, Texts;
    LogSplits(log);
    NothingParsed();
    var all := Texts(log) + [""];
    assert all[..|all| - 1] == Texts(log);
    TextsRebuild(t, log, stream, branch);
  }

  /** r has a row for every commit the sync made, and no other new ones. */
  ghost predicate MapsLog(t: Tables, r: Tables, log: seq<Entry>, stream: Stream) {
    && (forall e | e in log && e.FromChangelist? ::
          (e.meta.p4Changelist, stream) in r.commits && r.commits[(e.meta.p4Changelist, stream)].sha == e.sha
          && r.commits[(e.meta.p4Changelist, stream)].direction == P4ToGit)
    && (forall k | k in r.commits && k !in t.commits :: k.1 == stream && Makes(log, k.0))
  }

  ghost predicate Makes(log: seq<Entry>,
                        cl: CL) { exists e :: e in log && e.FromChangelist? && e.meta.p4Changelist == cl }

  lemma MapsOneMore(t: Tables, r: Tables, log: seq<Entry>, e: Entry, stream: Stream, branch: string)
    requires MapsLog(t, r, log, stream) && e.FromChangelist? && !Makes(log, e.meta.p4Changelist)
    ensures MapsLog(t, WithCommit(r, e.meta.p4Changelist, e.sha, stream, branch), log + [e], stream)
  {
    var r' := WithCommit(r, e.meta.p4Changelist, e.sha, stream, branch);
    forall k | k in r'.commits && k !in t.commits ensures k.1 == stream && Makes(log + [e], k.0) {
      if k in r.commits {
        var x :| x in log && x.FromChangelist? && x.meta.p4Changelist == k.0;
        assert x in log + [e];
      } else {
        assert e in log + [e];
      }
    }
  }

  lemma MapsUserToo(t: Tables, r: Tables, log: seq<Entry>, e: Entry, stream: Stream)
    requires MapsLog(t, r, log, stream) && e.FromUser?
    ensures MapsLog(t, r, log + [e], stream)
  {
    forall cl: CL | Makes(log, cl) ensures Makes(log + [e], cl) {
      var x :| x in log && x.FromChangelist? && x.meta.p4Changelist == cl;
      assert x in log + [e];
    }
  }

  /** The sync commits changelists in ascending order. */
  ghost predicate Ascending(log: seq<Entry>) {
    forall i, k | 0 <= i < k < |log| && log[i].FromChangelist? && log[k].FromChangelist? ::
      log[i].meta.p4Changelist < log[k].meta.p4Changelist
  }

  lemma LastIsGreatest(log: seq<Entry>, cl: CL)
    requires Ascending(log) && log != [] && log[|log| - 1].FromChangelist? && Makes(log[..|log| - 1], cl)
    ensures cl < log[|log| - 1].meta.p4Changelist
  {
    var k := |log| - 1;
    var e :| e in log[..k] && e.FromChangelist? && e.meta.p4Changelist == cl;
    var i :| 0 <= i < k && log[..k][i] == e;
    assert log[i] == e;
  }

  /** Every changelist recorded maps to its commit again, and nothing else is added. */
  lemma {:induction false} RecordedAllMaps(t: Tables, log: seq<Entry>, stream: Stream, branch: string)
    requires Ascending(log)
    ensures MapsLog(t, RecordedAll(t, log, stream, branch), log, stream)
  {
    hide WithCommit, MapsLog, Makes;
    if log == [] {
      NothingMapped(t, stream);
    } else {
      var k := |log| - 1;
      var before := RecordedAll(t, log[..k], stream, branch);
      RecordedAllMaps(t, log[..k], stream, branch);
      assert log == log[..k] + [log[k]];
      if log[k].FromUser? {
        MapsUserToo(t, before, log[..k], log[k], stream);
      } else {
        if Makes(log[..k], log[k].meta.p4Changelist) { LastIsGreatest(log, log[k].meta.p4Changelist); }
        MapsOneMore(t, before, log[..k], log[k], stream, branch);
      }
    }
  }

  lemma NothingMapped(t: Tables, stream: Stream)
    ensures MapsLog(t, t, [], stream)
  {
  }

  /** The last changelist recorded is the greatest one a commit was made from. */
  ghost predicate IsGreatest(log: seq<Entry>, last: CL) {
    && (forall cl: CL | Makes(log, cl) :: cl <= last)
    && (if exists e :: e in log && e.FromChangelist? then Makes(log, last) else last == 0)
  }

  lemma MakesOneMore(log: seq<Entry>, e: Entry, cl: CL)
    ensures Makes(log + [e], cl) <==> Makes(log, cl) || (e.FromChangelist? && e.meta.p4Changelist == cl)
  {
    assert e in log + [e] && forall x | x in log :: x in log + [e];
  }

  lemma {:induction false} RecordedLast(log: seq<Entry>, stream: Stream, branch: string)
    requires Ascending(log)
    ensures IsGreatest(log, LastSynced(RecordedAll(NO_TABLES, log, stream, branch), stream))
  {
    if log != [] {
      var k := |log| - 1;
      RecordedLast(log[..k], stream, branch);
      assert log == log[..k] + [log[k]];
      forall cl: CL
        ensures Makes(log, cl) <==> Makes(log[..k], cl) || (log[k].FromChangelist? && log[k].meta.p4Changelist == cl)
      {
        MakesOneMore(log[..k], log[k], cl);
      }
      if log[k].FromChangelist? {
        forall cl: CL | Makes(log[..k], cl) ensures cl < log[k].meta.p4Changelist { LastIsGreatest(log, cl); }
      }
    }
  }

  const NO_TABLES := Tables(map[], map[], map[], map[], map[])

  /** The stream stands at a commit that the sync made of the last changelist, or was never synced. */
  ghost predicate StandsAtLast(t: Tables, log: seq<Entry>, stream: Stream) {
    if stream in t.synced then
      exists e :: e in log && e.FromChangelist? && t.synced[stream] == Synced(e.meta.p4Changelist, e.sha)
    else forall e | e in log :: e.FromUser?
  }

  lemma {:induction false} RecordedStands(log: seq<Entry>, stream: Stream, branch: string)
    ensures StandsAtLast(RecordedAll(NO_TABLES, log, stream, branch), log, stream)
  {
    if log != [] {
      var before, last := log[..|log| - 1], log[|log| - 1];
      RecordedStands(before, stream, branch);
      assert log == before + [last] && last in log;
      var t := RecordedAll(NO_TABLES, before, stream, branch);
      if last.FromUser? && stream in t.synced {
        var e :| e in before && e.FromChangelist? && t.synced[stream] == Synced(e.meta.p4Changelist, e.sha);
        assert e in log;
      }
    }
  }

  /** The places of the log at which a commit of the sync stands. */
  ghost function SyncedPlaces(log: seq<Entry>): set<nat> { set i: nat | i < |log| && log[i].FromChangelist? }

  lemma OneMoreSynced(log: seq<Entry>, e: Entry)
    ensures |SyncedPlaces(log + [e])| == |SyncedPlaces(log)| + if e.FromChangelist? then 1 else 0
  {
    var before, behind := SyncedPlaces(log), SyncedPlaces(log + [e]);
    if e.FromChangelist? { assert behind == before + {|log|}; } else { assert behind == before; }
  }

  lemma {:induction false} TextsCounted(log: seq<Entry>)
    requires Recoverable(log)
    ensures ParsedCount(Texts(log)) == |SyncedPlaces(log)|
  {
    hide Message, Clean, Recognisable, Token, Parsed, EntryText, SyncedPlaces;
    if log == [] {
      assert SyncedPlaces([]) == {} by { NothingSynced(); }
    } else {
      var k := |log| - 1;
      assert log[k] in log && forall e | e in log[..k] :: e in log;
      assert Texts(log)[..k] == Texts(log[..k]) && log == log[..k] + [log[k]];
      TextsCounted(log[..k]);
      OneMoreSynced(log[..k], log[k]);
      EntryRecognised(log[k]);
    }
  }

  lemma NothingSynced()
    ensures SyncedPlaces([]) == {}
  {
  }

  lemma {:induction false} LogCounted(log: seq<Entry>)
    requires Recoverable(log)
    ensures ParsedCount(SplitAll(LogText(log), SEPARATOR)) == |SyncedPlaces(log)|
  {
    hide Message, Clean, Recognisable, Token, Parsed, SplitAll, Texts, SyncedPlaces;
    LogSplits(log);
    NothingParsed();
    TextsCounted(log);
    var all := Texts(log) + [""];
    assert all[..|all| - 1] == Texts(log);
  }

  /** Rebuilding an empty database from the log of a branch restores the map from changelists to
      commits, the last synced changelist is the greatest recorded one, with its commit, and as many
      are counted as the sync had made. */
  lemma {:induction false} RebuildRestores(log: seq<Entry>, stream: Stream, branch: string)
    requires Recoverable(log) && Ascending(log)
    ensures var r := Rebuilt(NO_TABLES, SplitAll(LogText(log), SEPARATOR), stream, branch);
            MapsLog(NO_TABLES, r, log, stream) && IsGreatest(log, LastSynced(r, stream))
            && StandsAtLast(r, log, stream)
    ensures ParsedCount(SplitAll(LogText(log), SEPARATOR)) == |SyncedPlaces(log)|
  {
    hide Recoverable, MapsLog, SplitAll, Rebuilt, LogText, IsGreatest, RecordedAll, StandsAtLast, SyncedPlaces;
    LogCounted(log);
    RecordedStands(log, stream, branch);
    RebuildInvertsRecording(NO_TABLES, log, stream, branch);
    RecordedAllMaps(NO_TABLES, log, stream, branch);
    RecordedLast(log, stream, branch);
  }

  // ---------- A message that holds the separator ----------

  lemma NothingBefore(head: string, tail: string)
    requires Free(head, '-')
    ensures Find(head + (SEPARATOR + tail), SEPARATOR) == |head|
  {
    var s := head + (SEPARATOR + tail);
    forall i | 0 <= i < |head| ensures !StandsAt(SEPARATOR, s, i) {
      assert s[i] == head[i] && head[i] in head;
      assert i + |SEPARATOR| <= |s| ==> s[i..i + |SEPARATOR|][0] == s[i];
    }
    FindFirst(head, SEPARATOR, tail);
  }

  lemma OnePart(head: string, tail: string)
    requires Free(head, '-')
    ensures SplitAll(head + (SEPARATOR + tail), SEPARATOR) == [head] + SplitAll(tail, SEPARATOR)
  {
    hide Find, SplitAll;
    NothingBefore(head, tail);
    Parts(head, SEPARATOR, tail);
    SplitAtFirst(head + (SEPARATOR + tail), head, SEPARATOR, tail);
  }

  lemma SeparatedMessage(m: Metadata)
    requires m.message == SEPARATOR && m.p4Changelist == 7 && m.integration.None?
    ensures FormatMessage(m) == SEPARATOR + "\n\nP4CL: 7"
  {
    MessageShape(m);
    assert Decimal(7) == "7";
    assert P4CL + (" " + ("7" + "")) == "P4CL: 7" && "\n\n" + "P4CL: 7" == "\n\nP4CL: 7";
    Reassociate(SEPARATOR, "\n\n", "P4CL: 7");
  }

  lemma Reassociate(a: string, b: string, c: string)
    ensures (a + b) + c == a + (b + c)
  {
  }

  lemma TakenApart(sha: string, word: string, rest: string, tail: string)
    ensures EntryText(sha, word + rest) + (word + tail) == (sha + "\n") + (word + ((rest + "\n") + (word + tail)))
  {
  }

  lemma SeparatedText(m: Metadata)
    requires m.message == SEPARATOR && m.p4Changelist == 7 && m.integration.None?
    ensures LogText([FromChangelist("a", m)]) == "a\n" + (SEPARATOR + ("\n\nP4CL: 7\n" + (SEPARATOR + "")))
  {
    hide FormatMessage, EntryText;
    SeparatedMessage(m);
    assert [FromChangelist("a", m)][1..] == [] && LogText([]) == "";
    TakenApart("a", SEPARATOR, "\n\nP4CL: 7", "");
    assert "a" + "\n" == "a\n" && "\n\nP4CL: 7" + "\n" == "\n\nP4CL: 7\n";
  }

  lemma NoLineIn(entry: string, stripped: string)
    requires Strip(entry) == stripped && Free(stripped, '\n')
    ensures Parsed(entry) == None
  {
    NoLineFeed(stripped);
  }

  /** The smallest such log: the separator in its description takes the commit apart, and nothing is recovered. */
  lemma SeparatorExample(m: Metadata, t: Tables, stream: Stream, branch: string)
    requires m.message == SEPARATOR && m.p4Changelist == 7 && m.integration.None?
    ensures Rebuilt(t, SplitAll(LogText([FromChangelist("a", m)]), SEPARATOR), stream, branch) == t
  {
    hide Parsed, Strip, SplitAll, LogText, Rebuilt;
    SeparatedText(m);
    OnePart("a\n", "\n\nP4CL: 7\n" + (SEPARATOR + ""));
    OnePart("\n\nP4CL: 7\n", "");
    BlankSplit();
    StrippedParts();
    NoLineIn("a\n", "a");
    NoLineIn("\n\nP4CL: 7\n", "P4CL: 7");
    NothingParsed();
    var parts := ["a\n", "\n\nP4CL: 7\n", ""];
    assert SplitAll(LogText([FromChangelist("a", m)]), SEPARATOR) == parts;
    NothingRebuilt(t, parts, stream, branch);
  }

  lemma {:induction false} NothingRebuilt(t: Tables, entries: seq<string>, stream: Stream, branch: string)
    requires forall e | e in entries :: Parsed(e).None?
    ensures Rebuilt(t, entries, stream, branch) == t
  {
    if entries != [] {
      assert entries[|entries| - 1] in entries;
      NothingRebuilt(t, entries[..|entries| - 1], stream, branch);
    }
  }

  lemma BlankSplit()
    ensures SplitAll("", SEPARATOR) == [""]
  {
  }

  lemma StrippedParts()
    ensures Strip("a\n") == "a" && Strip("\n\nP4CL: 7\n") == "P4CL: 7"
  {
    RunIs("a\n", 0, Space, 0);
    RunIs("\n\nP4CL: 7\n", 0, Space, 2);
    assert "a\n"[0..] == "a\n" && "a\n"[..1] == "a";
    assert "\n\nP4CL: 7\n"[2..] == "P4CL: 7\n" && "P4CL: 7\n"[..7] == "P4CL: 7";
    assert StripRight("a") == "a" && StripRight("P4CL: 7") == "P4CL: 7";
  }
}
