/** Commit messages and changelist descriptions: printing the trailers that carry the other side's
    number, and finding them again. */
module CommitMetadata {
  import opened Options
  import opened Text

  datatype Integration = Integration(source: string, target: string, sourceCl: Option<nat>, files: nat)

  datatype Metadata = Metadata(authorName: string, authorEmail: string, authorTimestamp: nat,
                               message: string, p4Changelist: nat, integration: Option<Integration>)

  // ---------- Printing ----------

  function JoinLines(lines: seq<string>): string {
    if lines == [] then ""
    else if |lines| == 1 then lines[0]
    else lines[0] + "\n" + JoinLines(lines[1..])
  }

  function TrailerLines(i: Integration): seq<string> {
    ["Integration: " + i.source + " -> " + i.target] +
    (if i.sourceCl.Some? then ["Source-CL: " + Decimal(i.sourceCl.value)] else []) +
    (if i.files > 0 then ["Integrated-Files: " + Decimal(i.files)] else [])
  }

  function FormatMessage(m: Metadata): string {
    JoinLines([m.message, "", "P4CL: " + Decimal(m.p4Changelist)] +
              (if m.integration.Some? then TrailerLines(m.integration.value) else []))
  }

  /** The description submitted to Perforce for a Git commit. */
  function FormatDescription(base: string, sha: string): string {
    base + "\n\nGitCommit: " + sha
  }

  // ---------- Character classes of the patterns ----------

  datatype Class = Space | Decimals | Hex

  const WIDE_SPACES :=
    "\U{85}\U{A0}\U{1680}\U{2000}\U{2001}\U{2002}\U{2003}\U{2004}\U{2005}\U{2006}\U{2007}" +
    "\U{2008}\U{2009}\U{200A}\U{2028}\U{2029}\U{202F}\U{205F}\U{3000}"

  predicate Listed(c: char, s: string) { s != "" && (s[0] == c || Listed(c, s[1..])) }

  /** White space as Python's patterns and str.strip see it. */
  predicate IsSpace(c: char) {
    '\t' <= c <= '\r' || '\U{1C}' <= c <= ' ' || (c > '\U{7F}' && Listed(c, WIDE_SPACES))
  }

  predicate InClass(c: char, cls: Class) {
    match cls
    case Space => IsSpace(c)
    case Decimals => '0' <= c <= '9'
    case Hex => '0' <= c <= '9' || 'a' <= c <= 'f'
  }

  predicate AllIn(s: string, cls: Class) { forall c | c in s :: InClass(c, cls) }

  /** How far a greedy run of one class reaches. */
  function Run(s: string, i: nat, cls: Class): (j: nat)
    requires i <= |s|
    ensures i <= j <= |s|
    ensures forall k | i <= k < j :: InClass(s[k], cls)
    ensures j < |s| ==> !InClass(s[j], cls)
    decreases |s| - i
  {
    if i < |s| && InClass(s[i], cls) then Run(s, i + 1, cls) else i
  }

  lemma RunIs(s: string, i: nat, cls: Class, j: nat)
    requires i <= j <= |s| && (forall k | i <= k < j :: InClass(s[k], cls))
    requires j < |s| ==> !InClass(s[j], cls)
    ensures Run(s, i, cls) == j
  {
  }

  // ---------- The two patterns, one shape: [Key: token] anywhere, or Key: token as a whole line ----------

  predicate StandsAt(key: string, s: string, i: nat) { i + |key| <= |s| && s[i..i + |key|] == key }

  predicate LineStart(s: string, i: nat) { i == 0 || (i <= |s| && s[i - 1] == '\n') }

  predicate LineEnd(s: string, i: nat) { i == |s| || (i < |s| && s[i] == '\n') }

  /** Optional blanks, a token, and what must close it. */
  function TokenAfter(s: string, i: nat, cls: Class, bracketed: bool): Option<string>
    requires i <= |s|
  {
    var j := Run(s, i, Space);
    var k := Run(s, j, cls);
    if k > j && (if bracketed then k < |s| && s[k] == ']' else LineEnd(s, k)) then Some(s[j..k]) else None
  }

  function MatchAt(key: string, cls: Class, s: string, i: nat): Option<string>
    requires i <= |s|
  {
    if StandsAt("[" + key, s, i) then TokenAfter(s, i + |key| + 1, cls, true)
    else if LineStart(s, i) && StandsAt(key, s, i) then TokenAfter(s, i + |key|, cls, false)
    else None
  }

  /** The leftmost match from position i on. */
  function SearchFrom(key: string, cls: Class, s: string, i: nat): Option<string>
    requires i <= |s|
    decreases |s| - i
  {
    var m := MatchAt(key, cls, s, i);
    if m.Some? || i == |s| then m else SearchFrom(key, cls, s, i + 1)
  }

  function Search(key: string, cls: Class, s: string): Option<string> { SearchFrom(key, cls, s, 0) }

  const P4CL := "P4CL:"
  const GIT_COMMIT := "GitCommit:"

  lemma {:induction false} TokenIsRun(key: string, cls: Class, s: string, i: nat)
    requires i <= |s|
    ensures var m := SearchFrom(key, cls, s, i); m.Some? ==> m.value != "" && AllIn(m.value, cls)
    decreases |s| - i
  {
    hide IsSpace;
    if MatchAt(key, cls, s, i).None? && i < |s| { TokenIsRun(key, cls, s, i + 1); }
  }

  lemma DecimalsAreDigits(s: string)
    requires AllIn(s, Decimals)
    ensures AllDigits(s, Ten)
  {
  }

  function ParseP4Cl(message: string): Option<nat> {
    var token :- Search(P4CL, Decimals, message);
    TokenIsRun(P4CL, Decimals, message, 0);
    DecimalsAreDigits(token);
    ReadNumber(token, Ten)
  }

  function ParseGitCommit(description: string): Option<string> {
    Search(GIT_COMMIT, Hex, description)
  }

  // ---------- Searching ----------

  lemma {:induction false} SearchFinds(key: string, cls: Class, s: string, i: nat, at: nat)
    requires i <= at <= |s| && MatchAt(key, cls, s, at).Some?
    ensures SearchFrom(key, cls, s, i).Some?
    decreases at - i
  {
    hide MatchAt;
    if i < at && MatchAt(key, cls, s, i).None? { SearchFinds(key, cls, s, i + 1, at); }
  }

  lemma {:induction false} SearchFindsFirst(key: string, cls: Class, s: string, i: nat, at: nat)
    requires i <= at <= |s| && forall k | i <= k < at :: MatchAt(key, cls, s, k).None?
    requires MatchAt(key, cls, s, at).Some?
    ensures SearchFrom(key, cls, s, i) == MatchAt(key, cls, s, at)
    decreases at - i
  {
    hide MatchAt;
    if i < at { SearchFindsFirst(key, cls, s, i + 1, at); }
  }

  lemma {:induction false} SearchMisses(key: string, cls: Class, s: string, i: nat, k: nat)
    requires i <= k <= |s| && SearchFrom(key, cls, s, i).None?
    ensures MatchAt(key, cls, s, k).None?
    decreases k - i
  {
    hide MatchAt;
    if i < k { SearchMisses(key, cls, s, i + 1, k); }
  }

  // ---------- A printed trailer line is found ----------

  predicate PlainKey(key: string, cls: Class) {
    key != "" && Free(key, '\n') && !IsSpace(key[0]) && !InClass(key[0], cls) && key[0] != '['
  }

  predicate Token(token: string, cls: Class) { token != "" && AllIn(token, cls) && cls != Space }

  function TrailerText(pre: string, key: string, token: string, post: string): string {
    pre + (key + (" " + (token + post)))
  }

  lemma TokenRead(s: string, i: nat, cls: Class, token: string)
    requires Token(token, cls) && i + 1 + |token| <= |s|
    requires s[i] == ' ' && s[i + 1..i + 1 + |token|] == token && LineEnd(s, i + 1 + |token|)
    ensures TokenAfter(s, i, cls, false) == Some(token)
  {
    forall k | i + 1 <= k < i + 1 + |token| ensures InClass(s[k], cls) {
      assert s[k] == token[k - i - 1] && token[k - i - 1] in token;
    }
    RunIs(s, i, Space, i + 1);
    RunIs(s, i + 1, cls, i + 1 + |token|);
  }

  lemma NotBracketed(key: string, s: string, i: nat)
    requires i < |s| && s[i] != '['
    ensures !StandsAt("[" + key, s, i)
  {
    assert ("[" + key)[0] == '[';
    assert i + |key| + 1 <= |s| ==> s[i..i + |key| + 1][0] == s[i];
  }

  lemma TrailerMatches(pre: string, key: string, cls: Class, token: string, post: string)
    requires PlainKey(key, cls) && Token(token, cls)
    requires pre == "" || pre[|pre| - 1] == '\n'
    requires post == "" || post[0] == '\n'
    ensures MatchAt(key, cls, TrailerText(pre, key, token, post), |pre|) == Some(token)
  {
    hide TokenAfter;
    var s := TrailerText(pre, key, token, post);
    var i := |pre| + |key|;
    assert s[|pre|] == key[0];
    NotBracketed(key, s, |pre|);
    assert s[|pre|..i] == key;
    assert s[i] == ' ' && s[i + 1..i + 1 + |token|] == token;
    TokenRead(s, i, cls, token);
  }

  // ---------- Printed messages ----------

  /** What a printed message holds after its P4CL number. */
  function MessageTail(m: Metadata): string {
    if m.integration.Some? then "\n" + JoinLines(TrailerLines(m.integration.value)) else ""
  }

  lemma JoinMore(line: string, more: seq<string>)
    requires more != []
    ensures JoinLines([line] + more) == line + "\n" + JoinLines(more)
  {
    assert ([line] + more)[1..] == more;
  }

  lemma ThreeLines(message: string, line: string, more: seq<string>)
    ensures JoinLines([message, "", line] + more)
         == message + "\n" + ("" + "\n" + (line + (if more == [] then "" else "\n" + JoinLines(more))))
  {
    assert [message, "", line] + more == [message] + ([""] + ([line] + more));
    JoinMore(message, [""] + ([line] + more));
    JoinMore("", [line] + more);
    if more != [] { JoinMore(line, more); } else { assert [line] + more == [line]; }
  }

  lemma MessageShape(m: Metadata)
    ensures FormatMessage(m) == TrailerText(m.message + "\n\n", P4CL, Decimal(m.p4Changelist), MessageTail(m))
  {
    var line := "P4CL: " + Decimal(m.p4Changelist);
    ThreeLines(m.message, line, if m.integration.Some? then TrailerLines(m.integration.value) else []);
    TrailerAssociates(m.message, line, Decimal(m.p4Changelist), MessageTail(m));
  }

  lemma MessageStarts(m: Metadata)
    ensures m.message + "\n\nP4CL: " + Decimal(m.p4Changelist) <= FormatMessage(m)
  {
    hide FormatMessage, MessageTail;
    MessageShape(m);
    TrailerStarts(m.message, Decimal(m.p4Changelist), MessageTail(m));
  }

  lemma TrailerStarts(message: string, number: string, tail: string)
    ensures message + "\n\nP4CL: " + number <= TrailerText(message + "\n\n", P4CL, number, tail)
  {
    assert TrailerText(message + "\n\n", P4CL, number, tail) == (message + "\n\nP4CL: " + number) + tail;
  }

  lemma TrailerAssociates(message: string, line: string, number: string, tail: string)
    requires line == "P4CL: " + number
    ensures message + "\n" + ("" + "\n" + (line + tail)) == TrailerText(message + "\n\n", P4CL, number, tail)
  {
  }

  lemma DecimalIsToken(n: nat)
    ensures Token(Decimal(n), Decimals)
  {
  }

  // ---------- Stripping white space ----------

  function StripRight(s: string): string {
    if s != "" && IsSpace(s[|s| - 1]) then StripRight(s[..|s| - 1]) else s
  }

  /** Python's str.strip. */
  function Strip(s: string): string { StripRight(s[Run(s, 0, Space)..]) }

  predicate OpensLine(pre: string) { pre == "" || pre[|pre| - 1] == '\n' }

  predicate ClosesLine(post: string) { post == "" || post[0] == '\n' }

  lemma {:induction false} StripRightShape(pre: string, key: string, cls: Class, token: string, post: string)
    returns (post': string)
    requires Token(token, cls) && ClosesLine(post)
    ensures ClosesLine(post')
    ensures StripRight(TrailerText(pre, key, token, post)) == TrailerText(pre, key, token, post')
  {
    var s := TrailerText(pre, key, token, post);
    if post == "" {
      assert s[|s| - 1] == token[|token| - 1] && token[|token| - 1] in token;
      post' := post;
    } else if IsSpace(s[|s| - 1]) {
      assert s[..|s| - 1] == TrailerText(pre, key, token, post[..|post| - 1]);
      post' := StripRightShape(pre, key, cls, token, post[..|post| - 1]);
    } else {
      post' := post;
    }
  }

  lemma StripShape(pre: string, key: string, cls: Class, token: string, post: string)
    returns (pre': string, post': string)
    requires PlainKey(key, cls) && Token(token, cls) && OpensLine(pre) && ClosesLine(post)
    ensures OpensLine(pre') && ClosesLine(post')
    ensures Strip(TrailerText(pre, key, token, post)) == TrailerText(pre', key, token, post')
  {
    var s := TrailerText(pre, key, token, post);
    var j := Run(s, 0, Space);
    assert s[|pre|] == key[0];
    assert j <= |pre|;
    pre' := pre[j..];
    assert s[j..] == TrailerText(pre', key, token, post);
    post' := StripRightShape(pre', key, cls, token, post);
  }

  /** A trailer line is found wherever it stands, also after stripping. */
  lemma TrailerFound(pre: string, key: string, cls: Class, token: string, post: string)
    requires PlainKey(key, cls) && Token(token, cls) && OpensLine(pre) && ClosesLine(post)
    ensures Search(key, cls, TrailerText(pre, key, token, post)).Some?
    ensures Search(key, cls, Strip(TrailerText(pre, key, token, post))).Some?
  {
    hide IsSpace, TokenAfter;
    TrailerMatches(pre, key, cls, token, post);
    SearchFinds(key, cls, TrailerText(pre, key, token, post), 0, |pre|);
    var pre', post' := StripShape(pre, key, cls, token, post);
    TrailerMatches(pre', key, cls, token, post');
    SearchFinds(key, cls, TrailerText(pre', key, token, post'), 0, |pre'|);
  }

  /** Whatever the description, a printed commit message is recognised as coming from Perforce,
      both as written and as Git's log hands it back. */
  lemma PrintedMessageRecognised(m: Metadata)
    ensures ParseP4Cl(FormatMessage(m)).Some? && ParseP4Cl(Strip(FormatMessage(m))).Some?
  {
    MessageShape(m);
    DecimalIsToken(m.p4Changelist);
    TrailerFound(m.message + "\n\n", P4CL, Decimals, Decimal(m.p4Changelist), MessageTail(m));
    TokenIsRun(P4CL, Decimals, FormatMessage(m), 0);
    TokenIsRun(P4CL, Decimals, Strip(FormatMessage(m)), 0);
  }

  /** Whatever the message, a printed description is recognised as coming from Git; Perforce may
      store it with a line feed added at the end. */
  lemma PrintedDescriptionRecognised(base: string, sha: string, added: string)
    requires Token(sha, Hex) && ClosesLine(added)
    ensures ParseGitCommit(FormatDescription(base, sha) + added).Some?
  {
    assert FormatDescription(base, sha) + added == TrailerText(base + "\n\n", GIT_COMMIT, sha, added);
    TrailerFound(base + "\n\n", GIT_COMMIT, Hex, sha, added);
  }

  // ---------- The trailer is the first match after a description without a marker ----------

  /** s continues d with a blank line and the key. */
  predicate Continues(s: string, d: string, key: string) {
    && key != "" && |s| > |d| + 2 && s[..|d|] == d
    && s[|d|] == '\n' && s[|d| + 1] == '\n' && s[|d| + 2] == key[0]
  }

  lemma SameChars(s: string, d: string, key: string)
    requires Continues(s, d, key)
    ensures forall x | 0 <= x < |d| :: s[x] == d[x]
  {
    forall x | 0 <= x < |d| ensures s[x] == d[x] { assert s[..|d|][x] == s[x]; }
  }

  /** A token that starts in d ends in d. */
  lemma TokenAgrees(s: string, d: string, key: string, cls: Class, i: nat, bracketed: bool)
    requires i <= |d| && PlainKey(key, cls) && cls != Space && Continues(s, d, key)
    ensures TokenAfter(s, i, cls, bracketed) == TokenAfter(d, i, cls, bracketed)
  {
    SameChars(s, d, key);
    var j := Run(d, i, Space);
    if j < |d| {
      RunIs(s, i, Space, j);
      var k := Run(d, j, cls);
      RunIs(s, j, cls, k);
      assert s[j..k] == d[j..k];
    } else {
      RunIs(s, i, Space, |d| + 2);
      RunIs(s, |d| + 2, cls, |d| + 2);
      RunIs(d, |d|, cls, |d|);
    }
  }

  lemma StandsAgrees(s: string, d: string, key: string, word: string, i: nat)
    requires i <= |d| && Free(word, '\n') && Continues(s, d, key)
    ensures StandsAt(word, s, i) <==> StandsAt(word, d, i)
  {
    SameChars(s, d, key);
    if i + |word| <= |d| {
      assert s[i..i + |word|] == d[i..i + |word|];
    } else if i + |word| <= |s| {
      assert s[i..i + |word|][|d| - i] == s[|d|] == '\n';
    }
  }

  lemma LineStartAgrees(s: string, d: string, key: string, i: nat)
    requires i <= |d| && Continues(s, d, key)
    ensures LineStart(s, i) == LineStart(d, i)
  {
    SameChars(s, d, key);
  }

  lemma BracketAgrees(s: string, d: string, key: string, cls: Class, i: nat)
    requires i <= |d| && PlainKey(key, cls) && cls != Space && Continues(s, d, key)
    ensures StandsAt("[" + key, s, i) <==> StandsAt("[" + key, d, i)
    ensures StandsAt("[" + key, d, i) ==>
      TokenAfter(s, i + |key| + 1, cls, true) == TokenAfter(d, i + |key| + 1, cls, true)
  {
    hide IsSpace, TokenAfter;
    StandsAgrees(s, d, key, "[" + key, i);
    if StandsAt("[" + key, d, i) { TokenAgrees(s, d, key, cls, i + |key| + 1, true); }
  }

  lemma LineAgrees(s: string, d: string, key: string, cls: Class, i: nat)
    requires i <= |d| && PlainKey(key, cls) && cls != Space && Continues(s, d, key)
    ensures LineStart(s, i) && StandsAt(key, s, i) <==> LineStart(d, i) && StandsAt(key, d, i)
    ensures StandsAt(key, d, i) ==> TokenAfter(s, i + |key|, cls, false) == TokenAfter(d, i + |key|, cls, false)
  {
    hide IsSpace, TokenAfter;
    StandsAgrees(s, d, key, key, i);
    LineStartAgrees(s, d, key, i);
    if StandsAt(key, d, i) { TokenAgrees(s, d, key, cls, i + |key|, false); }
  }

  lemma MatchAgrees(s: string, d: string, key: string, cls: Class, i: nat)
    requires i <= |d| && PlainKey(key, cls) && cls != Space && Continues(s, d, key)
    ensures MatchAt(key, cls, s, i) == MatchAt(key, cls, d, i)
  {
    hide IsSpace, TokenAfter;
    BracketAgrees(s, d, key, cls, i);
    LineAgrees(s, d, key, cls, i);
  }

  /** After a description without a marker the search returns exactly the printed token. */
  lemma TrailerFoundExactly(d: string, key: string, cls: Class, token: string, post: string)
    requires PlainKey(key, cls) && Token(token, cls) && ClosesLine(post)
    requires Search(key, cls, d).None?
    ensures Search(key, cls, TrailerText(d + "\n\n", key, token, post)) == Some(token)
  {
    hide IsSpace, TokenAfter;
    var rest := " " + (token + post);
    var s := d + ("\n\n" + (key + rest));
    assert TrailerText(d + "\n\n", key, token, post) == s;
    assert Continues(s, d, key);
    forall k | 0 <= k < |d| + 2 ensures MatchAt(key, cls, s, k).None? {
      if k <= |d| {
        MatchAgrees(s, d, key, cls, k);
        SearchMisses(key, cls, d, 0, k);
      } else {
        NothingAtLineFeed(key, cls, s, k);
      }
    }
    TrailerMatches(d + "\n\n", key, cls, token, post);
    SearchFindsFirst(key, cls, s, 0, |d| + 2);
  }

  lemma NothingAtLineFeed(key: string, cls: Class, s: string, k: nat)
    requires PlainKey(key, cls) && k < |s| && s[k] == '\n'
    ensures MatchAt(key, cls, s, k).None?
  {
    NotBracketed(key, s, k);
    assert IsSpace('\n');
    assert k + |key| <= |s| ==> s[k..k + |key|][0] == s[k];
  }

  /** A marker in the description hides the printed trailer. */
  lemma {:induction false} MarkerHidesTrailer(s: string, d: string, key: string, cls: Class, i: nat)
    requires i <= |d| && PlainKey(key, cls) && cls != Space && Continues(s, d, key)
    requires SearchFrom(key, cls, d, i).Some?
    ensures SearchFrom(key, cls, s, i) == SearchFrom(key, cls, d, i)
    decreases |d| - i
  {
    hide MatchAt, PlainKey, Continues;
    MatchAgrees(s, d, key, cls, i);
    if MatchAt(key, cls, d, i).None? {
      assert i < |s| by { LongerThan(s, d, key); }
      MarkerHidesTrailer(s, d, key, cls, i + 1);
    }
  }

  lemma LongerThan(s: string, d: string, key: string)
    requires Continues(s, d, key)
    ensures |s| > |d|
  {
  }

  /** The text submitted: what stands before the trailer is the description, and the trailer is the last line. */
  lemma DescriptionText(base: string, sha: string)
    ensures FormatDescription(base, sha) == base + ("\n\nGitCommit: " + sha)
    ensures base <= FormatDescription(base, sha)
  {
  }

  /** The submitted commit is read back exactly when the description it came with holds no marker of
      another one; Perforce may have added a line feed at the end. */
  lemma DescriptionReadBack(base: string, sha: string, added: string)
    requires Token(sha, Hex) && ClosesLine(added)
    ensures ParseGitCommit(FormatDescription(base, sha) + added) == Some(sha) <==>
      ParseGitCommit(base).None? || ParseGitCommit(base) == Some(sha)
  {
    hide IsSpace, SearchFrom, TokenAfter;
    var s := FormatDescription(base, sha) + added;
    assert s == TrailerText(base + "\n\n", GIT_COMMIT, sha, added);
    TrailerContinues(base, GIT_COMMIT, sha, added);
    GitCommitIsPlain();
    if Search(GIT_COMMIT, Hex, base).None? {
      TrailerFoundExactly(base, GIT_COMMIT, Hex, sha, added);
    } else {
      MarkerHidesTrailer(s, base, GIT_COMMIT, Hex, 0);
    }
  }

  lemma GitCommitIsPlain()
    ensures PlainKey(GIT_COMMIT, Hex)
  {
  }

  /** Nothing in the description would be taken for another changelist's trailer. */
  predicate Unmistakable(description: string, cl: nat) {
    var found := ParseP4Cl(description);
    found.None? || found == Some(cl)
  }

  /** The printed number is read back exactly when the description holds no marker of another one. */
  lemma NumberReadExactly(d: string, cl: nat, post: string)
    requires ClosesLine(post)
    ensures ParseP4Cl(TrailerText(d + "\n\n", P4CL, Decimal(cl), post)) == Some(cl) <==> Unmistakable(d, cl)
  {
    hide IsSpace, SearchFrom, TokenAfter;
    var s := TrailerText(d + "\n\n", P4CL, Decimal(cl), post);
    DecimalIsToken(cl);
    TrailerContinues(d, P4CL, Decimal(cl), post);
    TokenIsRun(P4CL, Decimals, d, 0);
    P4ClIsPlain();
    if Search(P4CL, Decimals, d).None? {
      TrailerFoundExactly(d, P4CL, Decimals, Decimal(cl), post);
      ReadDecimal(cl);
    } else {
      MarkerHidesTrailer(s, d, P4CL, Decimals, 0);
    }
  }

  lemma P4ClIsPlain()
    ensures PlainKey(P4CL, Decimals)
  {
  }

  lemma TrailerContinues(d: string, key: string, token: string, post: string)
    requires key != ""
    ensures Continues(TrailerText(d + "\n\n", key, token, post), d, key)
  {
    var s := TrailerText(d + "\n\n", key, token, post);
    assert s == d + ("\n\n" + (key + (" " + (token + post))));
  }

  lemma PrintedNumberReadBack(m: Metadata)
    ensures ParseP4Cl(FormatMessage(m)) == Some(m.p4Changelist) <==> Unmistakable(m.message, m.p4Changelist)
  {
    hide ParseP4Cl;
    MessageShape(m);
    NumberReadExactly(m.message, m.p4Changelist, MessageTail(m));
  }

  lemma MarkedMessage()
    ensures Search(P4CL, Decimals, "[P4CL: 7]") == Some("7") && ParseP4Cl("[P4CL: 7]") == Some(7)
  {
    var s := "[P4CL: 7]";
    RunIs(s, 6, Space, 7);
    RunIs(s, 7, Decimals, 8);
    assert s[0..6] == "[P4CL:" && s[7..8] == "7";
    assert MatchAt(P4CL, Decimals, s, 0) == Some("7");
    assert "7" == Decimal(7);
    ReadDecimal(7);
  }

  /** The smallest kind of description that hides the trailer: whatever the changelist, 7 is read back. */
  lemma MarkedExample(m: Metadata)
    requires m.message == "[P4CL: 7]"
    ensures ParseP4Cl(FormatMessage(m)) == Some(7)
  {
    hide IsSpace, SearchFrom, TokenAfter;
    MarkedMessage();
    MessageShape(m);
    P4ClIsPlain();
    TrailerContinues(m.message, P4CL, Decimal(m.p4Changelist), MessageTail(m));
    MarkerHidesTrailer(FormatMessage(m), m.message, P4CL, Decimals, 0);
  }
}
