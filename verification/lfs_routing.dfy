/** Which files go to the large file store: by extension, or by type and size. */
module LfsRouting {
  import opened Options
  import opened Text

  // ---------- File types ----------

  datatype TypeClass = TextType | BinaryType | UnknownType

  function LowerChar(c: char): char { if 'A' <= c <= 'Z' then (c as int + 32) as char else c }

  function Lower(s: string): string { seq(|s|, i requires 0 <= i < |s| => LowerChar(s[i])) }

  /** Capital letters become small ones, and nothing else changes. */
  lemma LowerExactly(s: string, i: nat)
    requires i < |s|
    ensures |Lower(s)| == |s| && Lower(s)[i] == if 'A' <= s[i] <= 'Z' then s[i] - 'A' + 'a' else s[i]
  {
  }

  predicate TextBase(base: string) { base in {"text", "unicode", "utf8", "utf16", "symlink"} }

  predicate BinaryBase(base: string) { base in {"binary", "apple", "resource", "ubinary"} }

  predicate Contains(s: string, word: string) { word <= s || (s != "" && Contains(s[1..], word)) }

  /** The base type, without modifiers and without the old prefix of executables. */
  function BaseType(lowered: string): string {
    var base := lowered[..IndexOf(lowered, '+')];
    if base != "" && base[0] == 'x' && !BinaryBase(base) && !TextBase(base) then base[1..] else base
  }

  function Classify(fileType: string): TypeClass {
    var lowered := Lower(fileType);
    if fileType == "" then UnknownType
    else if Contains(lowered, "symlink") then TextType
    else if TextBase(BaseType(lowered)) then TextType
    else if BinaryBase(BaseType(lowered)) then BinaryType
    else UnknownType
  }

  // ---------- The rule ----------

  /** Settings: the extensions meant for the store, and whether and from which size binaries are sent. */
  datatype Config = Config(isTargetExt: string -> bool, autoDetectBinary: bool, sizeThreshold: nat,
                           binaryThreshold: Option<nat>)

  function Threshold(cfg: Config): nat {
    if cfg.binaryThreshold.Some? then cfg.binaryThreshold.value else cfg.sizeThreshold
  }

  predicate SniffIsBinary(head: string) { '\0' in head }

  /** What an unknown type is taken for: by its first bytes, or else by its size. */
  function Settled(cfg: Config, cls: TypeClass, size: Option<nat>, head: Option<string>): TypeClass {
    match cls
    case UnknownType =>
      if head.Some? then (if SniffIsBinary(head.value) then BinaryType else TextType)
      else if size.Some? && size.value < Threshold(cfg) then TextType else BinaryType
    case _ => cls
  }

  predicate DecideLfsRoute(cfg: Config, gitPath: string, fileType: string, size: Option<nat>, head: Option<string>) {
    cfg.isTargetExt(gitPath)
    || (cfg.autoDetectBinary
        && Settled(cfg, Classify(fileType), size, head).BinaryType?
        && (size.None? || size.value >= Threshold(cfg)))
  }

  /** The rule in one piece. A file goes to the store if its extension says so, or if binaries are sent,
      it is not known to be smaller than the threshold, and it is binary: by its type, or, its type
      being unknown, by a zero among its first bytes; without those, for want of a smaller size. */
  lemma RoutedExactly(cfg: Config, gitPath: string, fileType: string, size: Option<nat>, head: Option<string>)
    ensures DecideLfsRoute(cfg, gitPath, fileType, size, head) <==>
      var threshold := if cfg.binaryThreshold.Some? then cfg.binaryThreshold.value else cfg.sizeThreshold;
      || cfg.isTargetExt(gitPath)
      || (cfg.autoDetectBinary && (size.None? || size.value >= threshold)
          && (|| Classify(fileType) == BinaryType
              || (Classify(fileType) == UnknownType && (head.Some? ==> '\0' in head.value))))
  {
    hide Classify;
  }

  /** A larger file is never kept out of the store where a smaller one goes in. */
  lemma LargerIsRouted(cfg: Config, gitPath: string, fileType: string, size: nat, larger: nat, head: Option<string>)
    requires size <= larger && DecideLfsRoute(cfg, gitPath, fileType, Some(size), head)
    ensures DecideLfsRoute(cfg, gitPath, fileType, Some(larger), head)
  {
    hide Classify;
  }

  lemma BaseOf(base: string, mods: string)
    requires Lower(base) == base && Free(base, '+') && (mods == "" || mods[0] == '+')
    ensures Lower(base + mods)[..IndexOf(Lower(base + mods), '+')] == base
  {
    var s := Lower(base + mods);
    assert s == base + Lower(mods);
    if mods == "" {
      assert s == base;
      IndexOfNone(s, '+');
    } else {
      assert Lower(mods) == "+" + Lower(mods)[1..];
      assert s == base + ['+'] + Lower(mods)[1..];
      IndexOfFirst(base, '+', Lower(mods)[1..]);
    }
  }

  /** What a base type is, by its name. */
  predicate NamesText(base: string) { base == "text" || base == "unicode" || base == "utf8" || base == "utf16" }

  predicate NamesBinary(base: string) {
    base == "binary" || base == "apple" || base == "resource" || base == "ubinary"
  }

  /** Types by their names, whatever modifiers follow, and with an x in front for executables. */
  lemma ClassifyExactly(base: string, mods: string, executable: bool)
    requires Lower(base) == base && Free(base, '+') && (mods == "" || mods[0] == '+') && base != "" && base[0] != 'x'
    requires !Contains(Lower((if executable then "x" + base else base) + mods), "symlink")
    ensures Classify((if executable then "x" + base else base) + mods) ==
      if NamesText(base) then TextType else if NamesBinary(base) then BinaryType else UnknownType
  {
    hide IndexOf, Contains, NamesText, NamesBinary, TextBase, BinaryBase;
    var raw := if executable then "x" + base else base;
    assert Lower("x" + base) == "x" + Lower(base);
    BaseOf(raw, mods);
    Executable(base);
    BasesByName(base);
    SymlinkContained(raw, base, mods);
  }

  lemma Executable(base: string)
    requires base != ""
    ensures !TextBase("x" + base) && !BinaryBase("x" + base) && ("x" + base)[1..] == base && ("x" + base)[0] == 'x'
  {
    assert ("x" + base)[0] == 'x';
  }

  lemma BasesByName(base: string)
    ensures BinaryBase(base) <==> NamesBinary(base)
    ensures TextBase(base) <==> NamesText(base) || base == "symlink"
  {
  }

  lemma SymlinkContained(raw: string, base: string, mods: string)
    requires Lower(raw) == raw && (raw == base || raw == "x" + base)
    ensures base == "symlink" ==> Contains(Lower(raw + mods), "symlink")
  {
    if base == "symlink" {
      var s := Lower(raw + mods);
      assert s == raw + Lower(mods);
      if raw != base { assert s[1..] == base + Lower(mods); }
    }
  }

  // ---------- Partition ----------

  class P4FileAction {
    const depotPath: string
    const fileType: string
    var size: Option<nat>

    constructor (depotPath: string, fileType: string, size: Option<nat>)
      ensures this.depotPath == depotPath && this.fileType == fileType && this.size == size
    {
      this.depotPath, this.fileType, this.size := depotPath, fileType, size;
    }
  }

  type Item = (P4FileAction, string)

  /** What the server answers: sizes, and the first bytes of a file. */
  datatype Server = Server(sizes: string -> Option<nat>, heads: string -> Option<string>)

  ghost function Actions(items: seq<Item>): set<P4FileAction> { set x | x in items :: x.0 }

  /** Fill in the sizes that are not known yet. */
  method FillSizes(items: seq<Item>, server: Server)
    modifies Actions(items)
    ensures forall x | x in items ::
      x.0.size == if old(x.0.size).Some? then old(x.0.size) else server.sizes(x.0.depotPath)
  {
    var i := 0;
    while i < |items|
      invariant i <= |items|
      invariant forall x | x in items ::
        x.0.size == old(x.0.size) || (old(x.0.size).None? && x.0.size == server.sizes(x.0.depotPath))
      invariant forall x | x in items[..i] ::
        x.0.size == if old(x.0.size).Some? then old(x.0.size) else server.sizes(x.0.depotPath)
    {
      var fa := items[i].0;
      if fa.size.None? { fa.size := server.sizes(fa.depotPath); }
      i := i + 1;
    }
    assert items[..i] == items;
  }

  /** The first bytes are read for files of unknown type only. */
  function HeadOf(fa: P4FileAction, server: Server): Option<string> {
    if Classify(fa.fileType).UnknownType? then server.heads(fa.depotPath) else None
  }

  /** The full rule on the size that is known now and the first bytes. */
  predicate Routed(cfg: Config, server: Server, x: Item)
    reads x.0
  {
    DecideLfsRoute(cfg, x.1, x.0.fileType, x.0.size, HeadOf(x.0, server))
  }

  predicate Ambiguous(cfg: Config, x: Item) {
    !cfg.isTargetExt(x.1) && cfg.autoDetectBinary && !Classify(x.0.fileType).TextType?
  }

  /** The early decisions are those of the full rule, whatever the size. */
  lemma ShortcutsAgree(cfg: Config, x: Item, size: Option<nat>, head: Option<string>)
    requires !Ambiguous(cfg, x)
    ensures DecideLfsRoute(cfg, x.1, x.0.fileType, size, head) <==> cfg.isTargetExt(x.1)
  {
    hide Classify;
  }

  /** Split by what can be told without asking for sizes. */
  method SortByShortcuts(actions: seq<Item>, cfg: Config)
    returns (lfs: seq<Item>, normal: seq<Item>, ambiguous: seq<Item>)
    ensures multiset(lfs) + multiset(normal) + multiset(ambiguous) == multiset(actions)
    ensures forall x | x in lfs :: !Ambiguous(cfg, x) && cfg.isTargetExt(x.1)
    ensures forall x | x in normal :: !Ambiguous(cfg, x) && !cfg.isTargetExt(x.1)
    ensures forall x | x in ambiguous :: Ambiguous(cfg, x)
  {
    hide Classify;
    lfs, normal, ambiguous := [], [], [];
    for i := 0 to |actions|
      invariant multiset(lfs) + multiset(normal) + multiset(ambiguous) == multiset(actions[..i])
      invariant forall x | x in lfs :: !Ambiguous(cfg, x) && cfg.isTargetExt(x.1)
      invariant forall x | x in normal :: !Ambiguous(cfg, x) && !cfg.isTargetExt(x.1)
      invariant forall x | x in ambiguous :: Ambiguous(cfg, x)
    {
      var x := actions[i];
      assert actions[..i + 1] == actions[..i] + [x];
      if cfg.isTargetExt(x.1) { lfs := lfs + [x]; }
      else if !cfg.autoDetectBinary { normal := normal + [x]; }
      else if Classify(x.0.fileType).TextType? { normal := normal + [x]; }
      else { ambiguous := ambiguous + [x]; }
    }
    assert actions[..|actions|] == actions;
  }

  lemma LeftOver(actions: seq<Item>, cfg: Config, lfs: seq<Item>, normal: seq<Item>, ambiguous: seq<Item>)
    requires multiset(lfs) + multiset(normal) + multiset(ambiguous) == multiset(actions)
    requires forall x | x in lfs || x in normal :: !Ambiguous(cfg, x)
    ensures forall x | x in ambiguous :: x in actions
    ensures forall x | x in actions && Ambiguous(cfg, x) :: x in ambiguous
  {
    hide Ambiguous;
    var all := multiset(lfs) + multiset(normal) + multiset(ambiguous);
    forall x | x in ambiguous ensures x in actions { assert x in all && x in multiset(actions); }
    forall x | x in actions && Ambiguous(cfg, x) ensures x in ambiguous { assert x in multiset(actions) && x in all; }
  }

  /** Every file lands in exactly one half, and in the store's half exactly when the full rule says
      so on its filled-in size; nothing is lost or doubled. */
  method PartitionForLfs(actions: seq<Item>, cfg: Config, server: Server) returns (lfs: seq<Item>, normal: seq<Item>)
    modifies Actions(actions)
    ensures multiset(lfs) + multiset(normal) == multiset(actions)
    ensures forall x | x in lfs :: Routed(cfg, server, x)
    ensures forall x | x in normal :: !Routed(cfg, server, x)
    ensures forall x | x in actions ::
      x.0.size == old(x.0.size) || (old(x.0.size).None? && x.0.size == server.sizes(x.0.depotPath))
    ensures forall x | x in actions && Ambiguous(cfg, x) ::
      x.0.size == if old(x.0.size).Some? then old(x.0.size) else server.sizes(x.0.depotPath)
  {
    hide Classify, DecideLfsRoute, Ambiguous;
    var ambiguous;
    lfs, normal, ambiguous := SortByShortcuts(actions, cfg);
    LeftOver(actions, cfg, lfs, normal, ambiguous);
    FillSizes(ambiguous, server);
    forall x | x in lfs || x in normal ensures Routed(cfg, server, x) <==> cfg.isTargetExt(x.1) {
      ShortcutsAgree(cfg, x, x.0.size, HeadOf(x.0, server));
    }
    for i := 0 to |ambiguous|
      invariant multiset(lfs) + multiset(normal) + multiset(ambiguous[i..]) == multiset(actions)
      invariant forall x | x in lfs :: Routed(cfg, server, x)
      invariant forall x | x in normal :: !Routed(cfg, server, x)
    {
      var x := ambiguous[i];
      assert ambiguous[i..] == [x] + ambiguous[i + 1..];
      var head := None;
      if Classify(x.0.fileType).UnknownType? { head := server.heads(x.0.depotPath); }
      if DecideLfsRoute(cfg, x.1, x.0.fileType, x.0.size, head) { lfs := lfs + [x]; } else { normal := normal + [x]; }
    }
  }
}
