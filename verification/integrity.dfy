/** Integrity checking of large files: verdicts from digests where possible, from contents otherwise. */
module Integrity {
  import opened Options
  import opened LfsPointers
  import opened LfsStores
  import opened LfsRouting

  datatype Verdict = Match | Mismatch | NeedContent

  // ---------- The verdicts ----------

  function DecideNormal(gitSha: string, p4Sha: string): Verdict { if gitSha == p4Sha then Match else Mismatch }

  predicate Present(s: Option<string>) { s.Some? && s.value != "" }

  function DecideLfs(p: Pointer, objectExists: Option<bool>, p4Size: Option<nat>, p4Md5: Option<string>,
                     localMd5: Option<string>): Verdict {
    if objectExists == Some(false) then Mismatch
    else if p4Size.Some? && p4Size.value != p.size then Mismatch
    else if Present(p4Md5) && Present(localMd5) then
      (if Lower(localMd5.value) == Lower(p4Md5.value) then Match else Mismatch)
    else NeedContent
  }

  function DecideLfsContent(oid: Oid, p4Sha: string): Verdict { if oid == p4Sha then Match else Mismatch }

  // ---------- The world a check looks at ----------

  /** What Perforce tells of a head revision without sending it. */
  datatype Meta = Meta(md5: string, size: nat, fileType: string)

  /** Fetching contents works, fails in a way that is skipped over, or breaks the check. */
  datatype Access = Readable | Unreadable | Broken

  datatype Head = Head(bytes: Bytes, meta: Option<Meta>, access: Access)

  datatype Hashes = Hashes(sha256: Bytes -> Oid, md5: Bytes -> string)

  /** Digests tell contents apart; MD5 digests are printed in lower case. */
  ghost predicate GoodHashes(h: Hashes) {
    && Injective(h.sha256) && Injective(h.md5)
    && (forall b {:trigger h.md5(b)} :: h.md5(b) != "" && Lower(h.md5(b)) == h.md5(b))
  }

  /** The digest Perforce reports for a file of a binary type is that of its bytes. */
  ghost predicate Honest(h: Hashes, head: Head) {
    head.meta.Some? && Classify(head.meta.value.fileType).BinaryType? && head.meta.value.md5 != "" ==>
      Lower(head.meta.value.md5) == h.md5(head.bytes)
  }

  // ---------- One large file ----------

  /** Whether the digests suffice for a verdict. */
  predicate FastPath(p: Pointer, head: Head, objects: Option<map<Oid, Bytes>>, md5Readable: bool) {
    && objects.Some? && p.oid in objects.value && md5Readable
    && head.meta.Some? && Classify(head.meta.value.fileType).BinaryType? && head.meta.value.md5 != ""
  }

  datatype Result = Raised | Skipped | Same | Different

  /** What the check says, by contents alone: the object must be there, a known size must agree, and
      the digest in the pointer must be that of the bytes in Perforce. */
  function ByContents(h: Hashes, p: Pointer, head: Head, objects: Option<map<Oid, Bytes>>, md5Readable: bool): Result {
    if objects.Some? && p.oid !in objects.value then Different
    else if head.meta.Some? && head.meta.value.size != p.size then Different
    else if FastPath(p, head, objects, md5Readable) || head.access.Readable? then
      (if h.sha256(head.bytes) == p.oid then Same else Different)
    else if head.access.Unreadable? then Skipped
    else Raised
  }

  /** Fetch the contents and compare digests; a fetch that fails skips the file. */
  method VerifyLfsByContent(h: Hashes, p: Pointer, head: Head) returns (r: Result)
    ensures r.Same? <==> head.access.Readable? && h.sha256(head.bytes) == p.oid
    ensures r.Different? <==> head.access.Readable? && h.sha256(head.bytes) != p.oid
    ensures r.Skipped? <==> head.access.Unreadable?
  {
    match head.access {
      case Broken => r := Raised;
      case Unreadable => r := Skipped;
      case Readable =>
        var verdict := DecideLfsContent(p.oid, h.sha256(head.bytes));
        r := if verdict == Match then Same else Different;
    }
  }

  /** The check of one large file, from digests where Perforce has one of a binary file: it says
      exactly what a comparison of contents would say. */
  method VerifyLfs(h: Hashes, p: Pointer, head: Head, store: Option<LfsObjectStore>, md5Readable: bool)
    returns (r: Result)
    requires GoodHashes(h) && Honest(h, head)
    requires store.Some? ==> store.value.Valid() && store.value.sha256 == h.sha256
    ensures r == ByContents(h, p, head, if store.Some? then Some(store.value.objects) else None, md5Readable)
  {
    hide Classify, Lower;
    var objectExists := None;
    var localMd5 := None;
    if store.Some? {
      var exists_ := store.value.Exists(p.oid);
      objectExists := Some(exists_);
      if exists_ && md5Readable {
        localMd5 := Some(h.md5(store.value.objects[p.oid]));
      }
    }
    var p4Md5 := None;
    if head.meta.Some? && Classify(head.meta.value.fileType).BinaryType? { p4Md5 := Some(head.meta.value.md5); }
    var p4Size := if head.meta.Some? then Some(head.meta.value.size) else None;
    var verdict := DecideLfs(p, objectExists, p4Size, p4Md5, localMd5);
    if verdict == NeedContent {
      r := VerifyLfsByContent(h, p, head);
      return;
    }
    if store.Some? && p.oid in store.value.objects && md5Readable {
      DigestsCompareContents(h, store.value.objects[p.oid], head.bytes);
    }
    r := if verdict == Match then Same else Different;
  }

  lemma DigestsCompareContents(h: Hashes, a: Bytes, b: Bytes)
    requires GoodHashes(h)
    ensures Lower(h.md5(a)) == h.md5(b) <==> h.sha256(a) == h.sha256(b)
  {
  }

  /** A large file reported the same has a pointer to exactly the bytes in Perforce: resolving the
      pointer's text yields them. */
  lemma SameMeansSameBytes(h: Hashes, p: Pointer, head: Head, objects: map<Oid, Bytes>, md5Readable: bool)
    requires GoodHashes(h) && ByContents(h, p, head, Some(objects), md5Readable).Same?
    requires (forall oid | oid in objects :: h.sha256(objects[oid]) == oid)
    requires IsPointer(p.text) && ParsePointer(p.text) == Some(p)
    ensures Resolved(p.text, objects) == head.bytes && h.sha256(head.bytes) == p.oid
    ensures head.meta.Some? ==> head.meta.value.size == p.size
  {
  }

  /** The pointer of what is stored and is in Perforce is never reported different on account of its contents. */
  lemma StoredIsSame(h: Hashes, p: Pointer, head: Head, objects: map<Oid, Bytes>, md5Readable: bool)
    requires Denotes(p, head.bytes, h.sha256) && p.oid in objects
    requires head.meta.Some? ==> head.meta.value.size == |head.bytes|
    ensures !ByContents(h, p, head, Some(objects), md5Readable).Different?
  {
  }
}
