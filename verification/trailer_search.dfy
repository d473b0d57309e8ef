/** What searching for a trailer finds, and what printing one writes, character by character. */
module TrailerSearch {
  import opened Options
  import opened Text
  import opened CommitMetadata

  ghost predicate Blank(s: string) { forall c | c in s :: IsSpace(c) }

  /** The text after position i is [Key: token] and more, or a whole line Key: token. */
  ghost predicate Marks(key: string, cls: Class, s: string, i: nat, token: string) {
    && i <= |s| && token != "" && (forall c | c in token :: InClass(c, cls))
    && exists blanks: string, more: string :: MarksWith(key, s, i, token, blanks, more)
  }

  ghost predicate MarksWith(key: string, s: string, i: nat, token: string, blanks: string, more: string)
    requires i <= |s|
  {
    && Blank(blanks)
    && (|| s[i..] == "[" + key + (blanks + (token + ("]" + more)))
        || (s[i..] == key + (blanks + (token + more)) && LineStart(s, i) && ClosesLine(more)))
  }

  lemma NoTokenOpensBlank(c: char, cls: Class)
    requires cls != Space && InClass(c, cls)
    ensures !IsSpace(c) && c != ']' && c != '\n'
  {
  }

  lemma NothingCloses(c: char, cls: Class)
    requires cls != Space && (c == ']' || c == '\n')
    ensures !InClass(c, cls)
  {
  }

  /** After a position, blanks and a token are read exactly where they stand. */
  lemma TokenStands(s: string, i: nat, cls: Class, bracketed: bool, token: string, blanks: string, more: string)
    requires i <= |s| && cls != Space && Blank(blanks) && token != "" && forall c | c in token :: InClass(c, cls)
    requires s[i..] == blanks + (token + more)
    requires if bracketed then more != "" && more[0] == ']' else ClosesLine(more)
    ensures TokenAfter(s, i, cls, bracketed) == Some(token)
  {
    hide IsSpace;
    var j := i + |blanks|;
    var k := j + |token|;
    NoTokenOpensBlank(token[0], cls);
    if more != "" { NothingCloses(more[0], cls); }
    assert forall x | i <= x < |s| :: s[x] == s[i..][x - i];
    forall x | i <= x < j ensures IsSpace(s[x]) { assert s[x] == blanks[x - i] && blanks[x - i] in blanks; }
    forall x | j <= x < k ensures InClass(s[x], cls) { assert s[x] == token[x - j] && token[x - j] in token; }
    assert token[0] in token && s[j] == token[0];
    RunIs(s, i, Space, j);
    assert more != "" ==> s[k] == more[0];
    RunIs(s, j, cls, k);
    assert s[j..k] == token;
  }

  lemma StandingToken(s: string, i: nat, cls: Class, bracketed: bool) returns (blanks: string, more: string)
    requires i <= |s| && TokenAfter(s, i, cls, bracketed).Some?
    ensures var token := TokenAfter(s, i, cls, bracketed).value;
            && Blank(blanks) && token != "" && (forall c | c in token :: InClass(c, cls))
            && s[i..] == blanks + (token + if bracketed then "]" + more else more)
            && (!bracketed ==> ClosesLine(more))
  {
    hide IsSpace;
    var j := Run(s, i, Space);
    var k := Run(s, j, cls);
    blanks, more := s[i..j], if bracketed then s[k + 1..] else s[k..];
    CutTwice(s, i, j, k);
    if bracketed { assert s[k..] == "]" + more; }
  }

  lemma CutTwice(s: string, i: nat, j: nat, k: nat)
    requires i <= j <= k <= |s|
    ensures s[i..] == s[i..j] + (s[j..k] + s[k..])
  {
  }

  lemma StandsExactly(key: string, s: string, i: nat)
    requires i <= |s|
    ensures StandsAt(key, s, i) <==> key <= s[i..]
  {
    if i + |key| <= |s| { assert s[i..i + |key|] == s[i..][..|key|]; }
  }

  lemma OpensWith(s: string, i: nat, key: string, rest: string)
    requires i <= |s| && s[i..] == key + rest
    ensures i + |key| <= |s| && s[i + |key|..] == rest && StandsAt(key, s, i)
  {
    StandsExactly(key, s, i);
    assert s[i + |key|..] == s[i..][|key|..];
  }

  lemma MatchMarks(key: string, cls: Class, s: string, i: nat, token: string)
    requires i <= |s| && MatchAt(key, cls, s, i) == Some(token)
    ensures Marks(key, cls, s, i, token)
  {
    hide TokenAfter, IsSpace, Blank;
    var bracketed := StandsAt("[" + key, s, i);
    var open := if bracketed then "[" + key else key;
    StandsExactly(open, s, i);
    var blanks, more := StandingToken(s, i + |open|, cls, bracketed);
    assert s[i..] == open + s[i + |open|..];
    if bracketed { assert s[i..] == "[" + key + (blanks + (token + ("]" + more))); }
    assert MarksWith(key, s, i, token, blanks, more);
  }

  lemma MarksMatch(key: string, cls: Class, s: string, i: nat, token: string)
    requires PlainKey(key, cls) && cls != Space && Marks(key, cls, s, i, token)
    ensures MatchAt(key, cls, s, i) == Some(token)
  {
    hide TokenAfter, IsSpace, Blank;
    var blanks: string, more: string :| MarksWith(key, s, i, token, blanks, more);
    if s[i..] == "[" + key + (blanks + (token + ("]" + more))) {
      OpensWith(s, i, "[" + key, blanks + (token + ("]" + more)));
      TokenStands(s, i + |key| + 1, cls, true, token, blanks, "]" + more);
    } else {
      OpensWith(s, i, key, blanks + (token + more));
      assert s[i] == s[i..][0] == key[0];
      NotBracketed(key, s, i);
      TokenStands(s, i + |key|, cls, false, token, blanks, more);
    }
  }

  lemma MatchExactly(key: string, cls: Class, s: string, i: nat, token: string)
    requires PlainKey(key, cls) && cls != Space && i <= |s|
    ensures MatchAt(key, cls, s, i) == Some(token) <==> Marks(key, cls, s, i, token)
  {
    hide MatchAt, Marks;
    if MatchAt(key, cls, s, i) == Some(token) { MatchMarks(key, cls, s, i, token); }
    if Marks(key, cls, s, i, token) { MarksMatch(key, cls, s, i, token); }
  }

  /** Nothing is marked before i. */
  ghost predicate NoneBefore(key: string, cls: Class, s: string, i: nat) {
    forall k: nat, token: string | k < i :: !Marks(key, cls, s, k, token)
  }

  lemma NoMatchBefore(key: string, cls: Class, s: string, i: nat)
    requires PlainKey(key, cls) && cls != Space && i <= |s|
    ensures NoneBefore(key, cls, s, i) <==> forall k: nat | k < i :: MatchAt(key, cls, s, k).None?
  {
    hide MatchAt, Marks, PlainKey;
    forall k: nat, token: string | k < i
      ensures MatchAt(key, cls, s, k) == Some(token) <==> Marks(key, cls, s, k, token)
    {
      MatchExactly(key, cls, s, k, token);
    }
    if NoneBefore(key, cls, s, i) {
      forall k: nat | k < i ensures MatchAt(key, cls, s, k).None? { NoMarkNoMatch(key, cls, s, k); }
    }
  }

  lemma NoMarkNoMatch(key: string, cls: Class, s: string, k: nat)
    requires k <= |s| && forall token: string :: !Marks(key, cls, s, k, token)
    ensures MatchAt(key, cls, s, k).None?
  {
    hide MatchAt, Marks;
    if MatchAt(key, cls, s, k).Some? { MatchMarks(key, cls, s, k, MatchAt(key, cls, s, k).value); }
  }

  lemma {:induction false} FoundAt(key: string, cls: Class, s: string, i: nat) returns (at: nat)
    requires i <= |s| && SearchFrom(key, cls, s, i).Some?
    ensures i <= at <= |s| && SearchFrom(key, cls, s, i) == MatchAt(key, cls, s, at)
    ensures forall k | i <= k < at :: MatchAt(key, cls, s, k).None?
    decreases |s| - i
  {
    hide MatchAt;
    if MatchAt(key, cls, s, i).Some? { at := i; } else { at := FoundAt(key, cls, s, i + 1); }
  }

  /** The search gives a token exactly when a marker of it stands somewhere with none before it. */
  lemma SearchExactly(key: string, cls: Class, s: string, token: string)
    requires PlainKey(key, cls) && cls != Space
    ensures Search(key, cls, s) == Some(token) <==>
      exists i: nat :: Marks(key, cls, s, i, token) && NoneBefore(key, cls, s, i)
  {
    hide MatchAt, Marks, NoneBefore, PlainKey;
    if Search(key, cls, s) == Some(token) {
      var i := FoundAt(key, cls, s, 0);
      MatchExactly(key, cls, s, i, token);
      NoMatchBefore(key, cls, s, i);
    }
    if i: nat :| Marks(key, cls, s, i, token) && NoneBefore(key, cls, s, i) {
      assert i <= |s| by { MarkedWithin(key, cls, s, i, token); }
      MatchExactly(key, cls, s, i, token);
      NoMatchBefore(key, cls, s, i);
      SearchFindsFirst(key, cls, s, 0, i);
    }
  }

  lemma MarkedWithin(key: string, cls: Class, s: string, i: nat, token: string)
    requires Marks(key, cls, s, i, token)
    ensures i <= |s|
  {
  }

  // ---------- The keys and characters themselves ----------

  lemma HexExactly(c: char)
    ensures InClass(c, Hex) <==> c in "0123456789abcdef"
    ensures InClass(c, Decimals) <==> c in "0123456789"
  {
    var hex, decimals := "0123456789abcdef", "0123456789";
    if '0' <= c <= '9' { assert c == hex[c as int - 48] && c == decimals[c as int - 48]; }
    if 'a' <= c <= 'f' { assert c == hex[10 + (c as int - 97)]; }
  }

  /** Python's white space below 128. */
  lemma SpaceExactly(c: char)
    requires c < '\U{80}'
    ensures IsSpace(c) <==> c in "\t\n\U{B}\U{C}\r\U{1C}\U{1D}\U{1E}\U{1F} "
  {
  }

  /** The commit a description names: that of its first marker. */
  lemma GitCommitFoundExactly(description: string, sha: string)
    ensures ParseGitCommit(description) == Some(sha) <==> exists i: nat ::
              Marks("GitCommit:", Hex, description, i, sha) && NoneBefore("GitCommit:", Hex, description, i)
  {
    hide Search, Marks, NoneBefore;
    GitCommitIsPlain();
    SearchExactly(GIT_COMMIT, Hex, description, sha);
  }

  /** The changelist a message names: that of its first marker. */
  lemma P4ClFoundExactly(message: string, cl: nat)
    ensures ParseP4Cl(message) == Some(cl) <==> exists i: nat, token: string ::
              && Marks("P4CL:", Decimals, message, i, token) && NoneBefore("P4CL:", Decimals, message, i)
              && ReadNumber(token, Ten) == Some(cl)
  {
    hide Search, Marks, NoneBefore, ReadNumber, SearchFrom;
    P4ClIsPlain();
    var found := Search(P4CL, Decimals, message);
    if found.Some? {
      TokenIsNumber(message);
      SearchExactly(P4CL, Decimals, message, found.value);
    }
    forall i: nat, token: string |
      Marks("P4CL:", Decimals, message, i, token) && NoneBefore("P4CL:", Decimals, message, i)
      ensures found == Some(token)
    {
      SearchExactly(P4CL, Decimals, message, token);
    }
  }

  lemma TokenIsNumber(message: string)
    requires Search(P4CL, Decimals, message).Some?
    ensures ParseP4Cl(message) == ReadNumber(Search(P4CL, Decimals, message).value, Ten)
  {
  }

  // ---------- What is printed ----------

  /** The whole text of a commit message. */
  lemma MessageText(m: Metadata)
    ensures FormatMessage(m) == m.message + "\n\nP4CL: " + Decimal(m.p4Changelist) + MessageTail(m)
    ensures m.integration.None? ==> MessageTail(m) == ""
    ensures m.integration.Some? ==>
      var i := m.integration.value;
      MessageTail(m) == "\n" + (("Integration: " + i.source + " -> " + i.target)
                                + (if i.sourceCl.Some? then "\n" + ("Source-CL: " + Decimal(i.sourceCl.value)) else "")
                                + (if i.files > 0 then "\n" + ("Integrated-Files: " + Decimal(i.files)) else ""))
  {
    hide FormatMessage, MessageTail;
    MessageShape(m);
    ShapeText(m.message, Decimal(m.p4Changelist), MessageTail(m));
    TailText(m);
  }

  lemma ShapeText(message: string, number: string, tail: string)
    ensures TrailerText(message + "\n\n", "P4CL:", number, tail) == message + "\n\nP4CL: " + number + tail
  {
  }

  lemma TailText(m: Metadata)
    ensures m.integration.None? ==> MessageTail(m) == ""
    ensures m.integration.Some? ==>
      var i := m.integration.value;
      MessageTail(m) == "\n" + (("Integration: " + i.source + " -> " + i.target)
                                + (if i.sourceCl.Some? then "\n" + ("Source-CL: " + Decimal(i.sourceCl.value)) else "")
                                + (if i.files > 0 then "\n" + ("Integrated-Files: " + Decimal(i.files)) else ""))
  {
    if m.integration.Some? {
      var i := m.integration.value;
      var first := "Integration: " + i.source + " -> " + i.target;
      var second := if i.sourceCl.Some? then ["Source-CL: " + Decimal(i.sourceCl.value)] else [];
      var third := if i.files > 0 then ["Integrated-Files: " + Decimal(i.files)] else [];
      assert TrailerLines(i) == [first] + second + third;
      hide TrailerLines, Decimal;
      ThreeJoined(first, second, third);
    }
  }

  lemma ThreeJoined(first: string, second: seq<string>, third: seq<string>)
    requires |second| <= 1 && |third| <= 1
    ensures JoinLines([first] + second + third) ==
      first + (if second == [] then "" else "\n" + second[0]) + (if third == [] then "" else "\n" + third[0])
  {
    assert [first] + second + third == [first] + (second + third);
    if second == [] {
      assert second + third == third;
      if third != [] { JoinMore(first, third); }
    } else {
      JoinMore(first, second + third);
      assert second == [second[0]] && second + third == [second[0]] + third;
      if third != [] { JoinMore(second[0], third); }
    }
  }

  // ---------- Stripping ----------

  lemma {:induction false} StripRightExactly(s: string)
    ensures StripRight(s) <= s && forall c | c in s[|StripRight(s)|..] :: IsSpace(c)
    ensures StripRight(s) == "" || !IsSpace(StripRight(s)[|StripRight(s)| - 1])
  {
    hide IsSpace;
    if s != "" && IsSpace(s[|s| - 1]) {
      StripRightExactly(s[..|s| - 1]);
      assert s == s[..|s| - 1] + [s[|s| - 1]];
    }
  }

  /** Stripping takes white space off both ends and stops there. */
  lemma StripExactly(s: string) returns (before: string, behind: string)
    ensures s == before + (Strip(s) + behind) && Blank(before) && Blank(behind)
    ensures Strip(s) == "" || (!IsSpace(Strip(s)[0]) && !IsSpace(Strip(s)[|Strip(s)| - 1]))
  {
    hide IsSpace;
    var i := Run(s, 0, Space);
    before := s[..i];
    assert Blank(before) && (i < |s| ==> !IsSpace(s[i..][0]));
    behind := StrippedRight(s[i..]);
    hide Blank, StripRight, Run;
  }

  lemma StrippedRight(rest: string) returns (behind: string)
    ensures rest == StripRight(rest) + behind && Blank(behind)
    ensures var kept := StripRight(rest); kept == "" || (kept[0] == rest[0] && !IsSpace(kept[|kept| - 1]))
  {
    hide IsSpace;
    StripRightExactly(rest);
    hide StripRight;
    behind := rest[|StripRight(rest)|..];
  }
}
