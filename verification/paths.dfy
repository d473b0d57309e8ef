/** Slash-separated paths: splitting, joining, and turning depot paths into repository paths. */
module Paths {
  import opened Options
  import opened Text
  import opened GitTrees

  function Split(s: string): Path
    decreases |s|
  {
    var i := IndexOf(s, '/');
    if i == |s| then [s] else [s[..i]] + Split(s[i + 1..])
  }

  function Join(p: Path): string {
    if |p| == 1 then p[0] else p[0] + ("/" + Join(p[1..]))
  }

  predicate SlashFree(p: seq<string>) { forall part | part in p :: Free(part, '/') }

  lemma {:induction false} SplitParts(s: string)
    ensures SlashFree(Split(s)) && Join(Split(s)) == s
    decreases |s|
  {
    hide IndexOf;
    var i := IndexOf(s, '/');
    if i == |s| {
      assert s[..i] == s;
    } else {
      SplitParts(s[i + 1..]);
      assert Split(s)[1..] == Split(s[i + 1..]);
      assert s == s[..i] + ("/" + s[i + 1..]);
    }
  }

  lemma SplitWhole(s: string)
    requires Free(s, '/')
    ensures Split(s) == [s]
  {
    assert IndexOf(s, '/') == |s|;
  }

  lemma SplitAfter(head: string, s: string)
    requires Free(head, '/')
    ensures Split(head + ("/" + s)) == [head] + Split(s)
  {
    IndexOfFirst(head, '/', s);
    var t := head + ("/" + s);
    assert t == head + ['/'] + s;
    assert t[..|head|] == head && t[|head| + 1..] == s;
  }

  lemma {:induction false} SplitJoin(p: Path)
    requires SlashFree(p)
    ensures Split(Join(p)) == p
  {
    hide Split;
    assert p[0] in p;
    if |p| == 1 {
      SplitWhole(p[0]);
      assert p == [p[0]];
    } else {
      assert forall part | part in p[1..] :: part in p;
      SplitJoin(p[1..]);
      SplitAfter(p[0], Join(p[1..]));
      assert p == [p[0]] + p[1..];
    }
  }

  /** Two path strings split alike only if they are the same string. */
  lemma SplitInjective(s: string, t: string)
    requires Split(s) == Split(t)
    ensures s == t
  {
    SplitParts(s);
    SplitParts(t);
  }

  // ---------- Depot paths ----------

  function DepotToGitPath(depotPath: string, stream: string, streamPrefixLen: nat): Option<string> {
    if stream + "/" <= depotPath && streamPrefixLen <= |depotPath| then Some(depotPath[streamPrefixLen..]) else None
  }

  /** The conflict detector's own idea of a comparable path: four parts of a depot path go. */
  function NormalizePath(path: string): string {
    if "//" <= path && |Split(path)| > 4 then Join(Split(path)[4..]) else path
  }

  /** A stream of two components, such as //depot/main. */
  ghost predicate TwoComponentStream(stream: string) {
    exists depot, name :: Free(depot, '/') && Free(name, '/') && stream == StreamPath(depot, name)
  }

  function StreamPath(depot: string, name: string): string { "//" + (depot + ("/" + name)) }

  lemma SplitTwo(a: string, b: string, rest: string)
    requires Free(a, '/') && Free(b, '/')
    ensures Split(a + ("/" + (b + ("/" + rest)))) == [a, b] + Split(rest)
  {
    SplitAfter(b, rest);
    SplitAfter(a, b + ("/" + rest));
  }

  lemma SplitDepotPath(depot: string, name: string, rest: string)
    requires Free(depot, '/') && Free(name, '/')
    ensures Split(StreamPath(depot, name) + ("/" + rest)) == ["", "", depot, name] + Split(rest)
  {
    var tail := depot + ("/" + (name + ("/" + rest)));
    DepotPathText(depot, name, rest);
    SplitTwo(depot, name, rest);
    SplitTwo("", "", tail);
    FourParts(depot, name, Split(rest));
  }

  lemma DepotPathText(depot: string, name: string, rest: string)
    ensures StreamPath(depot, name) + ("/" + rest)
         == "" + ("/" + ("" + ("/" + (depot + ("/" + (name + ("/" + rest)))))))
  {
  }

  lemma FourParts(depot: string, name: string, rest: seq<string>)
    ensures ["", ""] + ([depot, name] + rest) == ["", "", depot, name] + rest
  {
  }

  /** On files of a two-component stream both ways of naming a file agree. */
  lemma NormalizedIsGitPath(depotPath: string, stream: string)
    requires TwoComponentStream(stream) && stream + "/" <= depotPath
    ensures DepotToGitPath(depotPath, stream, |stream| + 1) == Some(NormalizePath(depotPath))
  {
    var depot, name :| Free(depot, '/') && Free(name, '/') && stream == StreamPath(depot, name);
    var rest := depotPath[|stream| + 1..];
    assert depotPath == stream + ("/" + rest);
    SplitDepotPath(depot, name, rest);
    var parts := Split(depotPath);
    assert parts == ["", "", depot, name] + Split(rest);
    assert |parts| > 4 && parts[4..] == Split(rest);
    SplitParts(rest);
    assert "//" <= StreamPath(depot, name) <= depotPath;
  }

  // ---------- Exactly which streams ----------

  lemma {:induction false} SplitConcat(a: string, b: string)
    ensures Split(a + ("/" + b)) == Split(a) + Split(b)
    decreases |a|
  {
    hide IndexOf;
    var i := IndexOf(a, '/');
    if i == |a| {
      assert a[..i] == a;
      SplitAfter(a, b);
    } else {
      var tail := a[i + 1..];
      assert a == a[..i] + ("/" + tail);
      SplitConcat(tail, b);
      SplitAfter(a[..i], tail + ("/" + b));
      JoinAssociates(a[..i], tail, b);
      OneMorePart(a[..i], Split(tail), Split(b));
    }
  }

  lemma {:induction false} JoinConcat(p: Path, q: Path)
    ensures Join(p + q) == Join(p) + ("/" + Join(q))
  {
    if |p| == 1 {
      assert (p + q)[1..] == q;
    } else {
      assert (p + q)[1..] == p[1..] + q;
      JoinConcat(p[1..], q);
      JoinAssociates(p[0], Join(p[1..]), Join(q));
    }
  }

  lemma OneMorePart(part: string, p: Path, q: Path)
    ensures [part] + (p + q) == ([part] + p) + q
  {
  }

  lemma JoinAssociates(a: string, b: string, c: string)
    ensures a + ("/" + (b + ("/" + c))) == (a + ("/" + b)) + ("/" + c)
  {
  }

  /** A rooted path splits into two blanks and the rest. */
  lemma SplitRooted(s: string)
    requires "//" <= s
    ensures Split(s) == ["", ""] + Split(s[2..])
  {
    SplitTwo("", "", s[2..]);
    assert s == "" + ("/" + ("" + ("/" + s[2..])));
  }

  lemma FourPartsAreTwo(stream: string)
    requires "//" <= stream
    ensures TwoComponentStream(stream) <==> |Split(stream)| == 4
  {
    SplitRooted(stream);
    if |Split(stream)| == 4 {
      var parts := Split(stream[2..]);
      SplitParts(stream[2..]);
      assert parts[0] in parts && parts[1] in parts && parts[1..] == [parts[1]];
      assert stream == StreamPath(parts[0], parts[1]);
    }
    if TwoComponentStream(stream) {
      var depot, name :| Free(depot, '/') && Free(name, '/') && stream == StreamPath(depot, name);
      assert stream[2..] == depot + ("/" + name);
      SplitAfter(depot, name);
      SplitWhole(name);
    }
  }

  /** On a rooted stream's files both ways of naming a file agree exactly when it has two components. */
  lemma NormalizedExactly(depotPath: string, stream: string)
    requires "//" <= stream && stream + "/" <= depotPath
    ensures DepotToGitPath(depotPath, stream, |stream| + 1) == Some(NormalizePath(depotPath))
        <==> TwoComponentStream(stream)
  {
    hide Split, Join, TwoComponentStream;
    var rest := depotPath[|stream| + 1..];
    var parts := Split(stream);
    assert depotPath == stream + ("/" + rest);
    SplitConcat(stream, rest);
    SplitRooted(stream);
    SplitParts(rest);
    FourPartsAreTwo(stream);
    if |parts| == 4 {
      NormalizedIsGitPath(depotPath, stream);
    } else if |parts| > 4 {
      assert Split(depotPath)[4..] == parts[4..] + Split(rest);
      JoinConcat(parts[4..], Split(rest));
    } else if |Split(rest)| > 1 {
      assert Split(depotPath)[4..] == Split(rest)[1..];
      JoinShorter(Split(rest));
    }
  }

  lemma JoinShorter(p: Path)
    requires |p| > 1
    ensures |Join(p[1..])| < |Join(p)|
  {
  }

  lemma GitPathNormalized(path: string)
    requires !("//" <= path)
    ensures NormalizePath(path) == path
  {
  }
}
