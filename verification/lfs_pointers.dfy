/** The text that stands in a repository for a large file: its digest and its size. */
module LfsPointers {
  import opened Options
  import opened Text
  import opened CommitMetadata

  type Oid = string

  const OID_LENGTH := 64
  const POINTER_PREFIX := "version https://git-lfs.github.com/spec/v1"

  datatype Pointer = Pointer(oid: Oid, size: nat, text: string)

  predicate IsOid(oid: string) { |oid| == OID_LENGTH && AllIn(oid, Hex) }

  function FormatPointer(oid: Oid, size: nat): string {
    POINTER_PREFIX + ("\noid sha256:" + (oid + ("\nsize " + (Decimal(size) + "\n"))))
  }

  predicate IsPointer(content: string) { POINTER_PREFIX + "\n" <= content }

  /** The text of a pointer, line by line, and what marks a text as one. */
  lemma PointerText(oid: Oid, size: nat, content: string)
    ensures FormatPointer(oid, size) ==
      "version https://git-lfs.github.com/spec/v1" + ("\noid sha256:" + (oid + ("\nsize " + (Decimal(size) + "\n"))))
    ensures IsPointer(content) <==> "version https://git-lfs.github.com/spec/v1\n" <= content
    ensures IsOid(oid) <==> |oid| == 64 && forall c | c in oid :: '0' <= c <= '9' || 'a' <= c <= 'f'
  {
    hide Decimal;
  }

  // ---------- Reading ----------

  datatype Field = OidField | SizeField

  function Word(f: Field): string { if f.OidField? then "oid sha256:" else "size " }

  /** The field's value, if its pattern matches at this place. */
  function FieldAt(f: Field, s: string, i: nat): Option<string>
    requires i <= |s|
  {
    if !StandsAt(Word(f), s, i) then None
    else
      var j := i + |Word(f)|;
      match f
      case OidField => if j + OID_LENGTH <= |s| && IsOid(s[j..j + OID_LENGTH]) then Some(s[j..j + OID_LENGTH]) else None
      case SizeField => if Run(s, j, Decimals) > j then Some(s[j..Run(s, j, Decimals)]) else None
  }

  /** The leftmost match. */
  function FieldFrom(f: Field, s: string, i: nat): Option<string>
    requires i <= |s|
    decreases |s| - i
  {
    var m := FieldAt(f, s, i);
    if m.Some? || i == |s| then m else FieldFrom(f, s, i + 1)
  }

  function ParsePointer(content: string): Option<Pointer> {
    var digits :- FieldFrom(SizeField, content, 0);
    var oid :- FieldFrom(OidField, content, 0);
    var size :- ReadNumber(digits, Ten);
    Some(Pointer(oid, size, content))
  }

  // ---------- Parsing undoes printing ----------

  lemma {:induction false} FieldFoundFirst(f: Field, s: string, i: nat, at: nat)
    requires i <= at <= |s| && FieldAt(f, s, at).Some? && forall k | i <= k < at :: !StandsAt(Word(f), s, k)
    ensures FieldFrom(f, s, i) == FieldAt(f, s, at)
    decreases at - i
  {
    hide StandsAt, IsOid, Word;
    if i < at {
      assert FieldAt(f, s, i).None?;
      FieldFoundFirst(f, s, i + 1, at);
    }
  }

  /** A word does not stand where one of its characters cannot. */
  lemma NoneBefore(word: string, k: nat, s: string, at: nat)
    requires k < |word| && at + k <= |s| && Free(s[..at + k], word[k])
    ensures forall i | 0 <= i < at :: !StandsAt(word, s, i)
  {
    forall i | 0 <= i < at ensures !StandsAt(word, s, i) {
      assert s[i + k] in s[..at + k] by { assert s[..at + k][i + k] == s[i + k]; }
      assert i + |word| <= |s| ==> s[i..i + |word|][k] == s[i + k];
    }
  }

  lemma PrefixLacks()
    ensures Free(POINTER_PREFIX, 'z') && Free(POINTER_PREFIX, '6')
  {
  }

  lemma OidLacks(oid: Oid)
    requires IsOid(oid)
    ensures Free(oid, 'z')
  {
    assert !InClass('z', Hex);
  }

  lemma OidFound(oid: Oid, rest: string)
    requires IsOid(oid)
    ensures FieldFrom(OidField, POINTER_PREFIX + ("\noid sha256:" + (oid + rest)), 0) == Some(oid)
  {
    hide IsOid;
    var head, word := POINTER_PREFIX + "\n", "oid sha256:";
    var s := POINTER_PREFIX + ("\noid sha256:" + (oid + rest));
    assert |oid| == OID_LENGTH by { OidLength(oid); }
    assert s == head + (word + (oid + rest)) by { OidText(oid + rest); }
    var at, j := |head|, |head| + |word|;
    assert s[at..j] == word && s[j..j + OID_LENGTH] == oid;
    assert FieldAt(OidField, s, at) == Some(oid);
    PrefixLacks();
    assert word[9] == '6' && Free(word[..9], '6');
    assert s[..at + 9] == head + word[..9];
    NoneBefore(word, 9, s, at);
    FieldFoundFirst(OidField, s, 0, at);
  }

  lemma OidLength(oid: Oid)
    requires IsOid(oid)
    ensures |oid| == OID_LENGTH
  {
  }

  lemma OidText(rest: string)
    ensures POINTER_PREFIX + ("\noid sha256:" + rest) == (POINTER_PREFIX + "\n") + ("oid sha256:" + rest)
  {
  }

  lemma SizeText(oid: Oid, digits: string)
    ensures POINTER_PREFIX + ("\noid sha256:" + (oid + ("\nsize " + (digits + "\n"))))
         == (POINTER_PREFIX + ("\noid sha256:" + (oid + "\n"))) + ("size " + (digits + "\n"))
  {
  }

  lemma SizeMatches(head: string, digits: string)
    requires digits != "" && AllIn(digits, Decimals)
    ensures FieldAt(SizeField, head + ("size " + (digits + "\n")), |head|) == Some(digits)
  {
    var s, j := head + ("size " + (digits + "\n")), |head| + 5;
    assert s[|head|..j] == "size " && s[j..j + |digits|] == digits && s[j + |digits|] == '\n';
    forall k | j <= k < j + |digits| ensures InClass(s[k], Decimals) {
      assert s[k] == digits[k - j] && digits[k - j] in digits;
    }
    RunIs(s, j, Decimals, j + |digits|);
  }

  lemma HeadLacks(oid: Oid)
    requires IsOid(oid)
    ensures Free(POINTER_PREFIX + ("\noid sha256:" + (oid + "\n")), 'z')
  {
    PrefixLacks();
    OidLacks(oid);
  }

  lemma SizeFound(oid: Oid, size: nat)
    requires IsOid(oid)
    ensures FieldFrom(SizeField, FormatPointer(oid, size), 0) == Some(Decimal(size))
  {
    hide IsOid, FieldAt, FieldFrom;
    var digits, s := Decimal(size), FormatPointer(oid, size);
    var head := POINTER_PREFIX + ("\noid sha256:" + (oid + "\n"));
    SizeText(oid, digits);
    SizeMatches(head, digits);
    HeadLacks(oid);
    assert s[..|head| + 2] == head + "si";
    NoneBefore("size ", 2, s, |head|);
    FieldFoundFirst(SizeField, s, 0, |head|);
  }

  /** Reading a printed pointer gives back the digest and the size, for every digest and size. */
  lemma PointerReadBack(oid: Oid, size: nat)
    requires IsOid(oid)
    ensures IsPointer(FormatPointer(oid, size))
    ensures ParsePointer(FormatPointer(oid, size)) == Some(Pointer(oid, size, FormatPointer(oid, size)))
  {
    hide IsOid, FieldFrom, Decimal;
    SizeFound(oid, size);
    OidFound(oid, "\nsize " + (Decimal(size) + "\n"));
    ReadDecimal(size);
    OidText(oid + ("\nsize " + (Decimal(size) + "\n")));
  }
}
