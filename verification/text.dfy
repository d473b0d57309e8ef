/** Text as the sync writes and reads it: numbers in a base, lines, prefixes. A character of a
    byte stream stands for one byte. */
module Text {
  import opened Options

  function Min(a: nat, b: nat): nat { if a < b then a else b }

  datatype Base = Ten | Eight

  predicate IsDigit(c: char, base: Base) { '0' <= c <= if base.Ten? then '9' else '7' }

  predicate AllDigits(s: string, base: Base) { forall c | c in s :: IsDigit(c, base) }

  function Quotient(n: nat, base: Base): nat { if base.Ten? then n / 10 else n / 8 }

  function Remainder(n: nat, base: Base): (d: nat)
    ensures d < 10
    ensures IsDigit(DigitChar(d), base)
  {
    if base.Ten? then n % 10 else n % 8
  }

  function Shifted(n: nat, base: Base): nat { if base.Ten? then 10 * n else 8 * n }

  function DigitChar(d: nat): char
    requires d < 10
  {
    ('0' as int + d) as char
  }

  function Digits(n: nat, base: Base): (s: string)
    ensures |s| > 0 && AllDigits(s, base)
  {
    var last := [DigitChar(Remainder(n, base))];
    if Quotient(n, base) == 0 then last else Digits(Quotient(n, base), base) + last
  }

  function NumberOf(s: string, base: Base): nat
    requires AllDigits(s, base)
  {
    if s == "" then 0
    else
      assert s[|s| - 1] in s;
      Shifted(NumberOf(s[..|s| - 1], base), base) + (s[|s| - 1] as int - '0' as int)
  }

  /** Reading a printed number gives it back. */
  lemma {:induction false} NumberOfDigits(n: nat, base: Base)
    ensures NumberOf(Digits(n, base), base) == n
  {
    var s, q := Digits(n, base), Quotient(n, base);
    assert s[|s| - 1] == DigitChar(Remainder(n, base));
    if q == 0 {
      assert s[..|s| - 1] == "";
    } else {
      NumberOfDigits(q, base);
      assert s[..|s| - 1] == Digits(q, base);
    }
  }

  function Decimal(n: nat): (s: string)
    ensures |s| > 0 && AllDigits(s, Ten)
  {
    Digits(n, Ten)
  }

  function ReadNumber(s: string, base: Base): Option<nat> {
    if s != "" && AllDigits(s, base) then Some(NumberOf(s, base)) else None
  }

  lemma ReadDecimal(n: nat)
    ensures ReadNumber(Decimal(n), Ten) == Some(n)
  {
    NumberOfDigits(n, Ten);
  }

  // ---------- Splitting at a character ----------

  predicate Free(s: string, c: char) { c !in s }

  /** Where c first stands in s, or the length of s. */
  function IndexOf(s: string, c: char): (i: nat)
    ensures i <= |s| && Free(s[..i], c) && (i < |s| ==> s[i] == c)
  {
    if s == "" then 0
    else if s[0] == c then 0
    else
      var i := IndexOf(s[1..], c);
      assert s[..i + 1] == [s[0]] + s[1..][..i];
      i + 1
  }

  lemma {:induction false} IndexOfNone(s: string, c: char)
    requires Free(s, c)
    ensures IndexOf(s, c) == |s|
  {
    if s != "" {
      assert s[0] in s;
      IndexOfNone(s[1..], c);
    }
  }

  lemma {:induction false} IndexOfFirst(head: string, c: char, tail: string)
    requires Free(head, c)
    ensures IndexOf(head + [c] + tail, c) == |head|
  {
    var s := head + [c] + tail;
    if head == "" {
      assert s[0] == c;
    } else {
      assert s[0] == head[0] && head[0] in head;
      assert s[1..] == head[1..] + [c] + tail;
      IndexOfFirst(head[1..], c, tail);
    }
  }

  /** The text before and after the first c. */
  function SplitFirst(s: string, c: char): Option<(string, string)> {
    var i := IndexOf(s, c);
    if i < |s| then Some((s[..i], s[i + 1..])) else None
  }

  lemma SplitFirstOf(head: string, c: char, tail: string)
    requires Free(head, c)
    ensures SplitFirst(head + ([c] + tail), c) == Some((head, tail))
  {
    IndexOfFirst(head, c, tail);
    assert head + ([c] + tail) == head + [c] + tail;
  }

  function Drop(prefix: string, s: string): Option<string> {
    if prefix <= s then Some(s[|prefix|..]) else None
  }

  lemma DropOf(prefix: string, s: string)
    ensures Drop(prefix, prefix + s) == Some(s)
  {
  }
}
