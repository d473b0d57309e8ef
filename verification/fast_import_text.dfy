/** The text of a fast-import stream, word by word, and what a reader gets back of a merge commit. */
module FastImportText {
  import opened Options
  import opened Text
  import opened CommitMetadata
  import opened FastImport
  import opened FastImporters
  import opened FastImportRoundTrip

  // ---------- Numbers ----------

  lemma DigitText(d: nat)
    requires d < 10
    ensures DigitChar(d) == "0123456789"[d]
  {
    var digits := "0123456789";
    assert digits[0] == '0' && digits[1] == '1' && digits[2] == '2' && digits[3] == '3' && digits[4] == '4';
    assert digits[5] == '5' && digits[6] == '6' && digits[7] == '7' && digits[8] == '8' && digits[9] == '9';
  }

  /** Numbers, digit by digit: in base ten and, for modes, in base eight. */
  lemma DecimalText(n: nat)
    ensures Decimal(n) == (if n < 10 then "" else Decimal(n / 10)) + ["0123456789"[n % 10]]
  {
    hide DigitChar;
    DigitText(n % 10);
  }

  lemma OctalText(n: nat)
    ensures Digits(n, Eight) == (if n < 8 then "" else Digits(n / 8, Eight)) + ["0123456789"[n % 8]]
  {
    hide DigitChar;
    DigitText(n % 8);
  }

  /** The modes of plain files, executables and symbolic links. */
  lemma ModeText()
    ensures Digits(33188, Eight) == "100644" && Digits(33261, Eight) == "100755" && Digits(40960, Eight) == "120000"
  {
    OctalText(1);
    EightsText(8, 1, 0);
    EightsText(64, 8, 0);
    EightsText(518, 64, 6);
    EightsText(4148, 518, 4);
    EightsText(33188, 4148, 4);
    EightsText(519, 64, 7);
    EightsText(4157, 519, 5);
    EightsText(33261, 4157, 5);
    EightsText(10, 1, 2);
    EightsText(80, 10, 0);
    EightsText(640, 80, 0);
    EightsText(5120, 640, 0);
    EightsText(40960, 5120, 0);
  }

  lemma EightsText(n: nat, q: nat, r: nat)
    requires n == 8 * q + r && q > 0 && r < 8
    ensures Digits(n, Eight) == Digits(q, Eight) + ["0123456789"[r]]
  {
    assert n / 8 == q && n % 8 == r;
    hide Digits;
    OctalText(n);
  }

  // ---------- Commits ----------

  lemma OpeningText(branch: string, mark: nat, m: Metadata)
    ensures var ident := m.authorName + (" <" + (m.authorEmail + ("> " + (Decimal(m.authorTimestamp) + " +0000"))));
            var message := FormatMessage(m);
            OpeningBytes(branch, mark, m) ==
              "commit refs/heads/" + (branch + ("\n" + (
              "mark :" + (Decimal(mark) + ("\n" + (
              "author " + (ident + ("\n" + (
              "committer " + (ident + ("\n" + (
              "data " + (Decimal(|message|) + ("\n" + (message + "\n")))))))))))))))
  {
    hide FormatMessage, Decimal;
  }

  lemma FileText(mode: nat, path: string, content: string)
    ensures FileBytes(Modify(mode, path, content)) ==
            "M " + (Digits(mode, Eight) + (" inline " + (path + ("\n" +
            ("data " + (Decimal(|content|) + ("\n" + (content + "\n"))))))))
    ensures FileBytes(Delete(path)) == "D " + (path + "\n")
  {
    hide Digits, Decimal;
  }

  lemma MergeText(mark: nat, ref: string)
    ensures MergeBytes(FromMark(mark)) == "merge :" + (Decimal(mark) + "\n")
    ensures MergeBytes(FromRef(ref)) == "merge " + (ref + "\n")
    ensures CommandBytes(Checkpoint) == "checkpoint\n\n"
  {
  }

  /** Header, merges, files in order, and an empty line. */
  lemma CommitText(branch: string, mark: nat, m: Metadata, merges: seq<Merge>, files: seq<FileCommand>)
    ensures CommandBytes(CommitOf(branch, mark, m, merges, files)) ==
            OpeningBytes(branch, mark, m) + (MergesBytes(merges) + (FilesBytes(files) + "\n"))
  {
  }

  /** A merge commit read back: its branch, mark, author, message, the mark merged or else the ref, the
      files with their modes, 100644 unless told, and then the deletes. */
  lemma MergeCommitReadBack(branch: string, mark: nat, m: Metadata, fromMark: Option<nat>, fromRef: Option<string>,
                            files: seq<FileItem>, deletes: seq<string>, rest: string)
    returns (c: Command)
    requires PlainCommand(CommitOf(branch, mark, m, MergesOf(fromMark, fromRef), Writes(files) + Deletes(deletes)))
    ensures ReadCommit(MergeCommitBytes(branch, mark, m, fromMark, fromRef, files, deletes) + rest) == Some((c, rest))
    ensures c.Commit? && c.branch == branch && c.mark == mark && c.message == FormatMessage(m)
    ensures c.author == c.committer == Ident(m.authorName, m.authorEmail, m.authorTimestamp)
    ensures fromMark.Some? && fromMark.value > 0 ==> c.merges == [FromMark(fromMark.value)]
    ensures fromMark.None? || fromMark.value == 0 ==>
      c.merges == if fromRef.Some? && fromRef.value != "" then [FromRef(fromRef.value)] else []
    ensures |c.files| == |files| + |deletes|
    ensures forall i | 0 <= i < |files| ::
      c.files[i] == Modify(if files[i].mode.Some? then files[i].mode.value else 33188, files[i].path, files[i].content)
    ensures forall i | 0 <= i < |deletes| :: c.files[|files| + i] == Delete(deletes[i])
  {
    hide PlainCommand, CommandBytes, ReadCommit, FormatMessage;
    c := CommitOf(branch, mark, m, MergesOf(fromMark, fromRef), Writes(files) + Deletes(deletes));
    CommandRead(c, rest);
  }
}
