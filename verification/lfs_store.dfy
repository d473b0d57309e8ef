/** The large file store: contents under the name of their digest. */
module LfsStores {
  import opened Options
  import opened Text
  import opened LfsPointers

  type Bytes = string

  const CHUNK_SIZE := 4 * 1024 * 1024

  ghost predicate Injective(hash: Bytes -> string) { forall a, b :: hash(a) == hash(b) ==> a == b }

  function Concat(chunks: seq<Bytes>): Bytes {
    if chunks == [] then "" else Concat(chunks[..|chunks| - 1]) + chunks[|chunks| - 1]
  }

  /** The pointer stands for these bytes. */
  predicate Denotes(p: Pointer, bytes: Bytes, sha256: Bytes -> Oid) {
    p.oid == sha256(bytes) && p.size == |bytes| && p.text == FormatPointer(p.oid, p.size)
  }

  class LfsObjectStore {
    const sha256: Bytes -> Oid
    var objects: map<Oid, Bytes>
    var files: map<string, Bytes>

    /** Every object lies under its own digest. */
    ghost predicate Valid()
      reads this
    {
      Injective(sha256) && forall oid | oid in objects :: sha256(objects[oid]) == oid
    }

    constructor (sha256: Bytes -> Oid)
      requires Injective(sha256)
      ensures Valid() && this.sha256 == sha256 && objects == map[] && files == map[]
    {
      this.sha256, objects, files := sha256, map[], map[];
    }

    /** Move a temporary file to its place, or drop it if the object is there already. Either way
        the object is what was to be stored. */
    method Finalize(oid: Oid, size: nat, tmp: string) returns (p: Pointer)
      requires Valid() && tmp in files && sha256(files[tmp]) == oid && |files[tmp]| == size
      modifies this
      ensures Valid() && objects == old(objects)[oid := old(files)[tmp]] && files == old(files) - {tmp}
      ensures Denotes(p, old(files)[tmp], sha256)
    {
      if oid !in objects { objects := objects[oid := files[tmp]]; }
      files := files - {tmp};
      p := Pointer(oid, size, FormatPointer(oid, size));
    }

    /** Store a stream of chunks; reading it may break off before some chunk, and then nothing is left behind. */
    method StoreFromStream(chunks: seq<Bytes>, breaks: Option<nat>, tmp: string) returns (p: Option<Pointer>)
      requires Valid() && tmp !in files
      modifies this
      ensures Valid() && files == old(files)
      ensures p.None? <==> breaks.Some? && breaks.value < |chunks|
      ensures p.None? ==> objects == old(objects)
      ensures p.Some? ==> Denotes(p.value, Concat(chunks), sha256)
                          && objects == old(objects)[sha256(Concat(chunks)) := Concat(chunks)]
    {
      hide FormatPointer, Injective;
      files := files[tmp := ""];
      var size := 0;
      for i := 0 to |chunks|
        invariant objects == old(objects) && tmp in files && files == old(files)[tmp := Concat(chunks[..i])]
        invariant size == |Concat(chunks[..i])| && (breaks.Some? ==> breaks.value >= i)
      {
        assert chunks[..i + 1][..i] == chunks[..i];
        if breaks == Some(i) {
          files := files - {tmp};
          return None;
        }
        files := files[tmp := files[tmp] + chunks[i]];
        size := size + |chunks[i]|;
      }
      assert chunks[..|chunks|] == chunks;
      var pointer := Finalize(sha256(files[tmp]), size, tmp);
      p := Some(pointer);
    }

    /** Store a file, reading it piece by piece; the file is moved or removed. */
    method StoreFromFile(source: string) returns (p: Pointer)
      requires Valid() && source in files
      modifies this
      ensures Valid() && files == old(files) - {source}
      ensures Denotes(p, old(files)[source], sha256) && objects == old(objects)[p.oid := old(files)[source]]
    {
      var content := files[source];
      var read, size := "", 0;
      while size < |content|
        invariant size <= |content| && read == content[..size]
      {
        var end := Min(size + CHUNK_SIZE, |content|);
        read := read + content[size..end];
        size := end;
      }
      assert read == content;
      p := Finalize(sha256(read), size, source);
    }

    method Exists(oid: Oid) returns (b: bool)
      ensures b <==> oid in objects
    {
      b := oid in objects;
    }

    method Retrieve(oid: Oid) returns (content: Option<Bytes>)
      ensures content == if oid in objects then Some(objects[oid]) else None
    {
      content := if oid in objects then Some(objects[oid]) else None;
    }

    /** The pointer of stored bytes resolves to these bytes, and only a pointer resolves to anything else than
        itself. */
    lemma StandsForStored(content: Bytes)
      requires Valid()
      ensures forall p: Pointer, bytes: Bytes | Denotes(p, bytes, sha256) && IsOid(p.oid) && p.text == content ::
        Resolved(content, objects) == if p.oid in objects then bytes else content
      ensures Resolved(content, objects) != content ==>
        IsPointer(content) && sha256(Resolved(content, objects)) in objects
    {
      forall p: Pointer, bytes: Bytes | Denotes(p, bytes, sha256) && IsOid(p.oid) && p.text == content
        ensures Resolved(content, objects) == if p.oid in objects then bytes else content
      {
        PointerReadBack(p.oid, p.size);
      }
    }

    /** What a file of the repository stands for: the object, if it is a pointer to one. */
    method ResolveContent(content: Bytes) returns (resolved: Bytes)
      requires Valid()
      ensures resolved == Resolved(content, objects)
      ensures forall p: Pointer, bytes: Bytes | Denotes(p, bytes, sha256) && IsOid(p.oid) && p.text == content ::
        resolved == if p.oid in objects then bytes else content
      ensures resolved != content ==> IsPointer(content) && sha256(resolved) in objects
    {
      StandsForStored(content);
      if !IsPointer(content) { return content; }
      var p := ParsePointer(content);
      if p.None? { return content; }
      var found := Retrieve(p.value.oid);
      resolved := if found.Some? then found.value else content;
    }
  }

  function Resolved(content: Bytes, objects: map<Oid, Bytes>): Bytes {
    if !IsPointer(content) then content
    else
      var p := ParsePointer(content);
      if p.Some? && p.value.oid in objects then objects[p.value.oid] else content
  }

  /** Storing bytes and resolving their pointer gives the bytes back. */
  lemma ResolveUndoesStore(bytes: Bytes, p: Pointer, objects: map<Oid, Bytes>, sha256: Bytes -> Oid)
    requires Denotes(p, bytes, sha256) && IsOid(p.oid) && p.oid in objects && objects[p.oid] == bytes
    ensures Resolved(p.text, objects) == bytes
  {
    hide IsOid, ParsePointer;
    PointerReadBack(p.oid, p.size);
  }
}
