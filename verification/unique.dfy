/** Lists without repetitions. */
module Unique {

  predicate NoRepeats<T(==)>(s: seq<T>) { forall i, k | 0 <= i < k < |s| :: s[i] != s[k] }

  /** Keep the first of equal elements, in order. */
  function Firsts<T(==,!new)>(s: seq<T>): (r: seq<T>)
    ensures forall x :: x in r <==> x in s
    ensures NoRepeats(r)
    ensures |r| <= |s|
  {
    if s == [] then []
    else
      var before, last := Firsts(s[..|s| - 1]), s[|s| - 1];
      assert s == s[..|s| - 1] + [last];
      if last in before then before else before + [last]
  }

  lemma NothingIn<T(!new)>(s: seq<T>)
    ensures s == [] <==> forall x :: x !in s
  {
    if s != [] { assert s[0] in s; }
  }

  lemma JoinWithoutRepeats<T>(a: seq<T>, b: seq<T>)
    requires NoRepeats(a) && NoRepeats(b) && forall x | x in b :: x !in a
    ensures NoRepeats(a + b)
  {
    forall i, k | 0 <= i < k < |a + b| ensures (a + b)[i] != (a + b)[k] {
      if i < |a| <= k { assert b[k - |a|] in b && a[i] in a; }
    }
  }

  /** What comes first stays first, and elements of its own follow. */
  lemma {:induction false} FirstsApart<T(!new)>(s: seq<T>, t: seq<T>)
    requires forall x | x in t :: x !in s
    ensures Firsts(s + t) == Firsts(s) + Firsts(t)
  {
    if t == [] {
      assert s + t == s;
    } else {
      var k := |t| - 1;
      assert t == t[..k] + [t[k]] && (s + t)[..|s + t| - 1] == s + t[..k] && (s + t)[|s + t| - 1] == t[k];
      FirstsApart(s, t[..k]);
    }
  }
}
