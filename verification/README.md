# P4GitSync in Dafny

P4GitSync replays Perforce changelists into Git and carries Git commits back. This project models its
decision-making core, with Perforce, Git and SQLite reduced to maps, sequences and steps that may
fail, and proves what that core keeps.

The modules follow the program:

- **Trees** (`git_trees`, `change_nodes`, `tree_builder`, `tree_rebuild`, `tree_refinement`, `tree_history`).
  The incremental tree builder: changes are sorted into linked mutable levels and merged recursively into
  the previous tree. It is proved equal to the flat-map builder of the command line operator exactly where
  the inputs merge cleanly, over single commits and whole histories.
- **Bulk import** (`fast_import`, `fast_import_roundtrip`, `fast_importer`, `fast_import_text`, `paths`, `replay`,
  `bulk_import`, `parallel_print`, `bulk_session`, `bulk_pipeline`, `import_run`). The byte stream for git-fast-import(1) with
  a reader that recovers every command; the three ways of extracting a changelist and when files are lost on
  the way; a session's effect, from file actions to the incremental builder's tree; and the bookkeeping of
  checkpoints, with the exact condition under which importing may go on after what is recorded.
- **Prefetching** (`prefetch`, `prefetch_end`). Dispatcher, workers and import loop as interleaved steps with
  failures: order, bounds, progress, termination, what a failure ends, and what is left of the threads.
- **Multi-stream engine** (`state_store`, `sync_events`, `multi_stream`, `multi_stream_runs`). Globally sorted
  events cut to batches and handled to the first failure: records over all runs, merges that find their source,
  when a backlog drains, and the ways in which it never does.
- **Two-way bridge** (`commit_metadata`, `trailer_search`, `bridge`, `bridge_loop`, `conflicts`, `bridge_round`, `recovery`,
  `recovered_bridge`). Printed and re-parsed trailers, a state machine in which nothing echoes, conflict
  detection and what a round may carry, rebuilding the tables from the log, and what the bridge does afterwards.
- **Large files** (`lfs_pointers`, `lfs_store`, `lfs_routing`, `integrity`, `integrity_checker`,
  `integrity_parallel`, `lfs_pusher`). Pointer codec, content-addressed store, verdicts, parallel checking,
  routing, and the resumable uploader.

`options`, `text`, `unique` and `round_robin` hold shared vocabulary.

## Conventions and assumptions

- A character of a byte stream, a file content or a pointer stands for one byte; `\d` in the patterns matches
  ASCII digits only, while white space is that of Python's `str`.
- Hashes are functions assumed injective. The digest Perforce reports for a binary file is taken to be that of
  its bytes.
- Timestamps, sizes and changelist numbers are unbounded naturals, as in Python.
- Calls to Perforce and Git return arbitrary results or fail; they enter as parameters (`luck`, `describe`,
  `print_`, `Outside`). Git is taken to name every commit afresh, and Perforce to number every changelist above
  all earlier ones.
- Carrying a changelist or a commit and recording it count as one step.
- The exact conditions found, each with a smallest input; in each case the code is modelled as it is:
  - a directory replaced by a file in one changelist loses the file, and this and dropped links are all that
    keeps the incremental builder from its reference (`TreeHistory.ReplacedDirectoryExample`,
    `TreeRefinement.IncrementalRefinesReference`);
  - over several connections a batch print that raises loses files without a word
    (`BulkSession.LosesABatch`, `BulkSession.CarriesExactly`);
  - a delete that takes out a directory makes a bulk session leave the history
    (`Replay.DeletedDirectoryExample`, `BulkSession.FollowsExactly`);
  - every session of the bulk importer takes the place of the branch, so after a second one, and after a failed
    checkpoint, changelists are recorded that the branch does not hold (`ImportRun.ReplacedBranchExample`,
    `ImportRun.LostCheckpointExample`, `ImportRun.ResumableExactly`, `ImportRun.CompleteExactly`); a changelist
    cut short is recorded as the commit of the one before it (`ImportRun.CutCommitExample`,
    `ImportRun.NamesExactly`);
  - a child announced before its parent is synced blocks all streams, and so do a child that would start at a
    blank commit and, with the Git library, every commit without a parent on a branch that exists
    (`MultiStreamRuns.BlockedExample`, `MultiStreamRuns.EmptyParentExample`,
    `MultiStreamRuns.RefusedChildExample`, `MultiStreamRuns.ProgressExactly`); a batch of announcements only
    changes nothing either (`MultiStreamRuns.ShrinksExactly`);
  - the first commit of a child, and the first after an empty changelist, has no parent
    (`MultiStreamRuns.ParentlessExactly`);
  - conflicts go unseen on streams of more or fewer than two components (`Conflicts.OtherStreamMisses`,
    `Conflicts.SeesExactly`), and in a round whose first fetch fails (`BridgeRound.ApartExactly`);
  - a description with another changelist's marker misleads recovery (`CommitMetadata.MarkedExample`,
    `CommitMetadata.PrintedNumberReadBack`), and so does a message with the separator
    (`Recovery.SeparatorExample`, `Recovery.LogSplitsExactly`);
  - a failed import can leave its dispatcher blocked at a full queue (`PrefetchEnd.BlockedExample`,
    `PrefetchEnd.RestsExactly`);
  - after recovery every submitted commit is new again (`RecoveredBridge.ResubmittedExample`,
    `RecoveredBridge.RecoveredExactly`).

## Model

| member | source | states |
|---|---|---|
| TreeBuilder.Build | p4gitsync/src/p4gitsync/git/pygit2_git_operator.py:27-52 | sorting all changes and deletes into linked mutable levels yields a structure that marks exactly those paths as written or deleted and has a level for exactly the directories passed through |
| TreeBuilder.AddBlob | p4gitsync/src/p4gitsync/git/pygit2_git_operator.py:34-41 | one more write walks or creates the levels of its path and changes the marking by that path alone |
| TreeBuilder.AddDelete | p4gitsync/src/p4gitsync/git/pygit2_git_operator.py:43-50 | the same for one more delete |
| TreeRebuild.RebuildTree | p4gitsync/src/p4gitsync/git/pygit2_git_operator.py:380-431 | the recursive method over mutable levels and a processed set computes the rebuild function |
| TreeRebuild.KeepPrevious | p4gitsync/src/p4gitsync/git/pygit2_git_operator.py:392-416 | which previous entries survive, are overwritten, are merged recursively or are dropped when empty, and which names count as processed |
| TreeRebuild.AddBlobs | p4gitsync/src/p4gitsync/git/pygit2_git_operator.py:418-421 | new files are added for exactly the names not processed before |
| TreeRebuild.AddDirectories | p4gitsync/src/p4gitsync/git/pygit2_git_operator.py:423-429 | new directories likewise, unless they come out empty |
| TreeRefinement.BuildFlatMap | p4gitsync/src/p4gitsync/git/git_cli_operator.py:236-263 | editing the flat dictionary in place gives base minus deletes plus the last write of every path |
| TreeRefinement.AgreesExactlyWhenFaithful | p4gitsync/src/p4gitsync/git/pygit2_git_operator.py:380-431 | the rebuilt tree holds what is expected at every path if and only if the expected files are prefix-free, no written path is a previous directory and no link is dropped |
| TreeRefinement.IncrementalRefinesReference | p4gitsync/src/p4gitsync/git/pygit2_git_operator.py:380-431 | flattening the rebuilt tree gives the command-line builder's flat map if and only if the inputs merge cleanly |
| TreeRefinement.RebuildIsCanonical | p4gitsync/src/p4gitsync/git/pygit2_git_operator.py:405-431 | no rebuild ever leaves an empty directory below the root |
| GitTrees.CanonicalTreesAreTheirListings | p4gitsync/src/p4gitsync/git/pygit2_git_operator.py:412-413 | two trees without empty directories and with the same files are the same tree |
| GitTrees.FlatIsPrefixFree | p4gitsync/src/p4gitsync/git/git_cli_operator.py:238-246 | no file of a tree lies below another |
| TreeHistory.BuildTreeIncremental | p4gitsync/src/p4gitsync/git/pygit2_git_operator.py:351-378 | building the tree of a commit never leaves empty directories and meets the reference exactly on mergeable inputs |
| TreeHistory.HistoryInvariant | p4gitsync/src/p4gitsync/git/pygit2_git_operator.py:351-378 | along every cleanly merging history the tree stays canonical and lists the folded flat map |
| TreeHistory.HistoryEndsInScratchBuild | p4gitsync/src/p4gitsync/git/pygit2_git_operator.py:351-378 | the tree a history ends in is the tree built from nothing out of its final files |
| TreeHistory.PrefixFreeInputsMerge | p4gitsync/src/p4gitsync/git/pygit2_git_operator.py:380-431 | prefix-free paths without links merge cleanly |
| TreeHistory.ReplacedDirectoryIsLost | p4gitsync/src/p4gitsync/git/pygit2_git_operator.py:405-421 | a written path that is a previous directory with a change below it is missing from the result, for all inputs |
| TreeHistory.ReplacedDirectoryExample | p4gitsync/src/p4gitsync/git/pygit2_git_operator.py:405-421 | the smallest such changelist: directory d becomes file d, and d is lost |
| CommitMetadata.MessageShape | p4gitsync/src/p4gitsync/git/commit_metadata.py:16-21 | a printed message is the description, a blank line, and a whole P4CL line, whatever trailers follow |
| CommitMetadata.PrintedMessageRecognised | p4gitsync/src/p4gitsync/git/commit_metadata.py:16-21 | for every description the printed message is recognised as coming from Perforce, as written and after stripping |
| CommitMetadata.PrintedDescriptionRecognised | p4gitsync/src/p4gitsync/services/reverse_commit_builder.py:108-115 | whatever the commit message, the submitted description is recognised as coming from Git, also with a line feed added at its end |
| CommitMetadata.DescriptionReadBack | p4gitsync/src/p4gitsync/services/reverse_commit_builder.py:108-115 | the commit read back from a submitted description is the commit submitted if and only if the text it was submitted with holds no marker of another one |
| CommitMetadata.DescriptionText | p4gitsync/src/p4gitsync/services/reverse_commit_builder.py:108-115 | the submitted description is that text, a blank line and GitCommit: with the commit's name |
| TrailerSearch.GitCommitFoundExactly | p4gitsync/src/p4gitsync/git/commit_metadata.py:45-62 | a description names the commit of its first marker: [GitCommit: hex digits] anywhere, or GitCommit: hex digits as a whole line, with none before it |
| TrailerSearch.P4ClFoundExactly | p4gitsync/src/p4gitsync/git/commit_metadata.py:45-54 | a message names the changelist of its first marker, of the same two shapes with decimal digits |
| TrailerSearch.SearchExactly | p4gitsync/src/p4gitsync/git/commit_metadata.py:45-62 | the search gives a token exactly when a marker of it stands somewhere with no marker before it, for every text |
| TrailerSearch.MessageText | p4gitsync/src/p4gitsync/git/commit_metadata.py:16-40 | the whole text of a printed message, word by word, with the two streams, the source changelist and the number of files of an integration |
| CommitMetadata.PrintedNumberReadBack | p4gitsync/src/p4gitsync/git/commit_metadata.py:45-54 | the number read back is the number printed if and only if the description holds no marker of another changelist |
| CommitMetadata.NumberReadExactly | p4gitsync/src/p4gitsync/git/commit_metadata.py:45-54 | the same with anything added or stripped after the trailer line |
| CommitMetadata.TrailerFoundExactly | p4gitsync/src/p4gitsync/git/commit_metadata.py:45-62 | after a description without a marker the search returns exactly the printed token, for both trailers |
| CommitMetadata.MarkerHidesTrailer | p4gitsync/src/p4gitsync/git/commit_metadata.py:45-62 | a marker in the description always wins over the printed trailer |
| CommitMetadata.MarkedExample | p4gitsync/src/p4gitsync/git/commit_metadata.py:45-54 | the smallest kind of it: under the description [P4CL: 7] every changelist reads back as 7 |
| FastImportRoundTrip.StreamRead | p4gitsync/src/p4gitsync/git/fast_importer.py:27-146 | a reader of the input format of git-fast-import(1) recovers exactly the commands written, for arbitrary messages and contents |
| FastImportRoundTrip.CommandRead | p4gitsync/src/p4gitsync/git/fast_importer.py:98-140 | one commit command is recovered in front of any further bytes |
| FastImporters.FastImporter.BeginCommit | p4gitsync/src/p4gitsync/git/fast_importer.py:98-121 | uses up a mark and writes the opening lines with the byte length of the message |
| FastImporters.FastImporter.WriteFile | p4gitsync/src/p4gitsync/git/fast_importer.py:123-132 | writes one length-prefixed file with its octal mode |
| FastImporters.FastImporter.WriteDelete | p4gitsync/src/p4gitsync/git/fast_importer.py:134-136 | writes one delete line |
| FastImporters.FastImporter.AddCommit | p4gitsync/src/p4gitsync/git/fast_importer.py:27-57 | writes the bytes of one whole commit, files before deletes |
| FastImporters.FastImporter.AddMergeCommit | p4gitsync/src/p4gitsync/git/fast_importer.py:59-96 | the same with at most one merge line, a mark winning over a ref |
| FastImporters.FastImporter.AddCheckpoint | p4gitsync/src/p4gitsync/git/fast_importer.py:142-146 | writes one checkpoint command |
| FastImporters.CommitWritten | p4gitsync/src/p4gitsync/git/fast_importer.py:98-140 | opening, merges, files and the closing line feed make up exactly one commit command |
| FastImportText.MergeCommitReadBack | p4gitsync/src/p4gitsync/git/fast_importer.py:59-96 | a merge commit read back says its branch and mark, the changelist's author twice, its message, the mark merged or else the ref, every file with its content and its mode, 100644 unless told, and then every delete |
| FastImportText.OpeningText | p4gitsync/src/p4gitsync/git/fast_importer.py:98-121 | the opening of a commit, word by word: branch, mark, author, committer, length and message |
| FastImportText.FileText | p4gitsync/src/p4gitsync/git/fast_importer.py:123-136 | a file and a delete, word by word |
| FastImportText.ModeText | p4gitsync/src/p4gitsync/git/fast_importer.py:123-132 | the modes of files, executables and links are printed 100644, 100755 and 120000 |
| Paths.SplitJoin | p4gitsync/src/p4gitsync/git/pygit2_git_operator.py:35-36 | splitting a joined path at slashes gives its parts back |
| Paths.SplitInjective | p4gitsync/src/p4gitsync/git/pygit2_git_operator.py:35-36 | different path strings have different parts |
| Paths.NormalizedIsGitPath | p4gitsync/src/p4gitsync/services/conflict_detector.py:168-179 | on files of a two-component stream the detector's normalized path is the repository path |
| Paths.NormalizedExactly | p4gitsync/src/p4gitsync/services/conflict_detector.py:168-179 | on a rooted stream's files the two agree if and only if the stream has two components |
| Replay.ReplayMeetsReference | p4gitsync/src/p4gitsync/services/initial_importer.py:653-666 | replaying deletes and then writes gives the reference map if and only if that map is prefix-free and no delete takes a directory whose files are not asked for |
| Replay.ReplayOfChangelist | p4gitsync/src/p4gitsync/services/initial_importer.py:653-666 | the file commands of a changelist act as its deletes followed by its writes |
| BulkImport.SortActions | p4gitsync/src/p4gitsync/services/initial_importer.py:416-427 | a file is to be written exactly when an action adds, edits, branches, integrates or moves it in, under the stream, with its path and mode; a path is to be deleted exactly when an action deletes, moves away or purges it; both lists in the order of the actions |
| BulkImport.WrittenExactly | p4gitsync/src/p4gitsync/p4/p4_file_action.py:3-4 | for every list of actions, stream and file: the file is written if and only if some add, edit, branch, integrate or move/add of the stream's path names it, with that action's mode |
| BulkImport.DeletedExactly | p4gitsync/src/p4gitsync/p4/p4_file_action.py:3-4 | a path is deleted if and only if some delete, move/delete or purge of the stream's path names it |
| BulkImport.SortedApart | p4gitsync/src/p4gitsync/services/initial_importer.py:416-427 | lists of actions are sorted piece by piece, so order and number are those of the actions |
| BulkImport.SortedOne | p4gitsync/src/p4gitsync/services/initial_importer.py:416-427 | a single action of the stream gives one file, one path, or nothing |
| BulkImport.SequentialPrint | p4gitsync/src/p4gitsync/services/initial_importer.py:523-548 | batchwise printing ends exactly when some batch raises; otherwise it yields every printable file in order and reports exactly the others as missing |
| ParallelPrinting.DealBatches | p4gitsync/src/p4gitsync/services/initial_importer.py:571-614 | dealing the batches in turn gives connection w exactly the batches k with k mod n = w, in order |
| ParallelPrinting.ParallelPrint | p4gitsync/src/p4gitsync/services/initial_importer.py:580-629 | in every interleaving of the connections the shared results are those of exactly the batches reached, each once; a batch that raises ends its connection's queue without a word |
| ParallelPrinting.ReachedCovers | p4gitsync/src/p4gitsync/services/initial_importer.py:580-629 | the batches reached hold all files if and only if no batch raises |
| BulkSession.BuildClData | p4gitsync/src/p4gitsync/services/initial_importer.py:409-494 | when extraction fails, and that the data returned carries every file if and only if the changelist is streamed, has fewer than five hundred files, or no batch raised; over several connections a raise loses files and still returns data |
| BulkSession.CarriesExactly | p4gitsync/src/p4gitsync/services/initial_importer.py:580-629 | printed over several connections without a report, all files are there if and only if no batch raised |
| BulkSession.LosesABatch | p4gitsync/src/p4gitsync/services/initial_importer.py:470-494 | the smallest loss: five hundred printable files, the second of three batches raises, and three hundred files are returned as the changelist |
| BulkSession.StreamNormal | p4gitsync/src/p4gitsync/services/initial_importer.py:675-696 | streaming writes every printable file of the batches before the first that raises, and succeeds exactly when none raises and none is missing |
| BulkSession.WriteChangelist | p4gitsync/src/p4gitsync/services/initial_importer.py:633-666 | writes one commit, deletes first, then files, in either extraction mode; a failed one leaves the commit of the files reached without its closing line feed |
| BulkSession.ImportSession | p4gitsync/src/p4gitsync/services/initial_importer.py:181-206 | a session's bytes are those of the commits of the changelists that were not skipped, marked from one up; after a failure, of those before it and of what was reached of the failed one |
| BulkSession.SessionSays | p4gitsync/src/p4gitsync/services/initial_importer.py:633-666 | the i-th commit of a session has mark i, the changelist's author and message, no merge, and its deletes before its files, each with its content and mode |
| BulkSession.WritesByPath | p4gitsync/src/p4gitsync/services/initial_importer.py:550-629 | with one entry per path the written blobs are found by path, whatever the order |
| BulkSession.OrderDoesNotMatter | p4gitsync/src/p4gitsync/services/initial_importer.py:550-629 | any two orders of the same files write the same blobs |
| Replay.DeletedDirectoryExample | p4gitsync/src/p4gitsync/services/initial_importer.py:653-666 | the smallest delete that takes out a directory: deleting d loses d/x, which the reference keeps |
| BulkSession.FollowsExactly | p4gitsync/src/p4gitsync/services/initial_importer.py:653-666 | the session has the history's files after every changelist if and only if no delete along it takes out a directory |
| BulkSession.BulkSessionEqualsIncremental | p4gitsync/src/p4gitsync/services/initial_importer.py:441-494 | reading a session's bytes back and replaying them gives the files of the incremental builder's tree, however each changelist was extracted |
| BulkPipeline.ImportAll | p4gitsync/src/p4gitsync/services/initial_importer.py:181-206 | extracting and writing changelist after changelist succeeds exactly when printing fails on none, and the bytes are those of the extracted changelists |
| BulkPipeline.StepFromActions | p4gitsync/src/p4gitsync/services/initial_importer.py:416-427 | the incremental builder's step in terms of the actions: a path is deleted, or written with what Perforce prints and the action's mode, exactly when some action says so |
| BulkPipeline.ImportBranch | p4gitsync/src/p4gitsync/services/initial_importer.py:165-277 | from the file actions to the tree: a session in which nothing fails and nothing is lost, read back and replayed, gives the files of the incremental builder's tree |
| ImportRun.WriteOne | p4gitsync/src/p4gitsync/services/initial_importer.py:192-240 | one changelist with its checkpoint: a session finished well takes the place of the branch and its last changelist is recorded with the new tip; a failed one changes neither |
| ImportRun.Run | p4gitsync/src/p4gitsync/services/initial_importer.py:165-277 | which commits the branch holds at the end, which were ever made, and which changelist is recorded with which commit, from the fate of every changelist and checkpoint |
| ImportRun.StoppedEarly | p4gitsync/src/p4gitsync/services/initial_importer.py:192-277 | a run stopped before its first checkpoint, for every list of changelists: missing files leave a cut commit that the changelist before is recorded with, an exception leaves it and records nothing, a broken pipe leaves no trace of it, and a session that ends badly changes nothing |
| ImportRun.Importer.Finish | p4gitsync/src/p4gitsync/git/fast_importer.py:98-190 | a session that ends well and made a commit takes the place of the branch, for its first commit has no parent |
| ImportRun.ResumableExactly | p4gitsync/src/p4gitsync/services/initial_importer.py:165-277 | importing may go on after what is recorded if and only if at most one of these is so: the branch was not empty at the start, a session took its place, a checkpoint failed |
| ImportRun.CompleteExactly | p4gitsync/src/p4gitsync/services/initial_importer.py:165-277 | when all goes well on an empty branch, it ends with every wanted changelist if and only if none stands behind a checkpoint |
| ImportRun.MadeExactly | p4gitsync/src/p4gitsync/services/initial_importer.py:212-270 | of what is recorded everything was committed at some time, if and only if no checkpoint failed on a branch with commits |
| ImportRun.NamesExactly | p4gitsync/src/p4gitsync/services/initial_importer.py:192-270 | the recorded changelist is recorded with its own whole commit, if and only if no checkpoint failed on a branch with commits and none behind it was cut short by missing files |
| ImportRun.ReplacedBranchExample | p4gitsync/src/p4gitsync/services/initial_importer.py:212-240 | a checkpoint after each of two changelists and no failure: 2 is recorded and the branch holds nothing of 1 |
| ImportRun.CutCommitExample | p4gitsync/src/p4gitsync/services/initial_importer.py:192-248 | files of the second changelist are missing while it is streamed: 1 is recorded with the commit of what was there of 2 |
| ImportRun.LostCheckpointExample | p4gitsync/src/p4gitsync/services/initial_importer.py:192-277 | the second of two checkpoints fails: 2 is recorded with the commit of 1, and has none of its own |
| Prefetch.DeliveredInOrder | p4gitsync/src/p4gitsync/services/initial_importer.py:306-394 | in every interleaving, with failures anywhere, the import loop is handed a prefix of the changelists in order |
| Prefetch.NothingAfterFailure | p4gitsync/src/p4gitsync/services/initial_importer.py:165-210 | in every run, after a write that failed, an interrupt, or a wait that has seen the stop flag, the loop is leaving or has left, and nothing more is delivered whatever happens later |
| Prefetch.NothingFromFailedChunk | p4gitsync/src/p4gitsync/services/initial_importer.py:327-394 | in every run in which a worker fails at a chunk, the stop flag is up from there on and only changelists before that chunk are ever delivered |
| Prefetch.ChunksOfTen | p4gitsync/src/p4gitsync/services/initial_importer.py:360-363 | chunk k is the changelists from ten times k on, ten of them or what is left |
| Prefetch.ChunksInTurn | p4gitsync/src/p4gitsync/services/initial_importer.py:359-386 | chunk k always goes to worker k mod W, and at most W chunks are in flight |
| Prefetch.WaitingIsBounded | p4gitsync/src/p4gitsync/services/initial_importer.py:27-28 | never more than ten changelists a worker and twice as many as there are workers in the queue are extracted ahead |
| Prefetch.RunsAreFinite | p4gitsync/src/p4gitsync/services/initial_importer.py:306-394 | apart from polling, every run, failing or not, takes a bounded number of steps |
| Prefetch.NeverStuck | p4gitsync/src/p4gitsync/services/initial_importer.py:171-185 | until the import loop has left, a step that is neither a failure nor a poll is possible, whatever has failed |
| Prefetch.EverythingDelivered | p4gitsync/src/p4gitsync/services/initial_importer.py:306-394 | without failures the import loop leaves only with every changelist, in order |
| Prefetch.StopsComplete | p4gitsync/src/p4gitsync/services/initial_importer.py:306-394 | a failure-free run that nothing but polling could carry further has ended, with every changelist delivered |
| Prefetch.Completable | p4gitsync/src/p4gitsync/services/initial_importer.py:306-394 | every failure-free run can be carried on without a failure to that end |
| PrefetchEnd.NothingSubmittedAfterStop | p4gitsync/src/p4gitsync/services/initial_importer.py:365-386 | once the stop flag is up no chunk is handed out any more, but for those the dispatcher was about to |
| PrefetchEnd.OneMoreTake | p4gitsync/src/p4gitsync/services/initial_importer.py:327-351 | a worker that takes a chunk with the flag up never takes another |
| PrefetchEnd.RestsExactly | p4gitsync/src/p4gitsync/services/initial_importer.py:306-394 | when no step at all is possible any more the loop has left, and either every thread has ended or the dispatcher is blocked: at a full queue, or for the reply of a worker that has left |
| PrefetchEnd.EverythingEnds | p4gitsync/src/p4gitsync/services/initial_importer.py:306-394 | without failures such a run has delivered every changelist and every thread has ended |
| PrefetchEnd.BlockedExample | p4gitsync/src/p4gitsync/services/initial_importer.py:378-379 | with a failure it need not: the first of four changelists cannot be written, and the dispatcher waits for ever to put the last one into a queue nobody empties |
| Prefetch.RunInv | p4gitsync/src/p4gitsync/services/initial_importer.py:359-386 | the window of chunks, the single chunk of each worker and the order of the queue are kept by every step |
| Prefetch.MeasureDrops | p4gitsync/src/p4gitsync/services/initial_importer.py:306-394 | every step other than polling lowers the measure |
| StateStores.StateStore.RecordCommit | p4gitsync/src/p4gitsync/state/state_store.py:179-197 | records a changelist's commit; a second record keeps the first branch |
| StateStores.RecordedExactly | p4gitsync/src/p4gitsync/state/state_store.py:179-197 | the row holds the commit and direction given last and the branch given first, and nothing else changes |
| StateStores.StateStore.GetCommitSha | p4gitsync/src/p4gitsync/state/state_store.py:165-177 | the commit of a changelist in whatever stream, and none only if no stream has it |
| StateStores.StateStore.GetLastCommitBefore | p4gitsync/src/p4gitsync/state/state_store.py:276-284 | the commit of the stream's greatest changelist below the bound |
| StateStores.StateStore.RegisterStream | p4gitsync/src/p4gitsync/state/state_store.py:286-297 | registers or changes one stream, and keeps every stream under its own name |
| StateStores.StateStore.GetAllRegisteredStreams | p4gitsync/src/p4gitsync/state/state_store.py:299-312 | every registered stream once, in no particular order |
| StateStores.StateStore.KnowsSha | p4gitsync/src/p4gitsync/state/state_store.py:485-491 | whether any row names a commit |
| SyncEvents.GatheredExactly | p4gitsync/src/p4gitsync/services/event_collector.py:34-52 | gathering finds exactly the owed events of the listed streams, each once |
| SyncEvents.SortSorts | p4gitsync/src/p4gitsync/services/event_collector.py:54-54 | the sorted list is ordered by changelist and then priority |
| SyncEvents.SortedExactly | p4gitsync/src/p4gitsync/services/sync_event.py:12-42 | sorted means by changelist number, and at one number every branch creation before every changelist |
| SyncEvents.Collect | p4gitsync/src/p4gitsync/services/event_collector.py:25-66 | returns the front of the globally sorted queue of all owed events, at most a batch |
| MultiStream.HandleBranchCreate | p4gitsync/src/p4gitsync/services/multi_stream_sync.py:86-107 | succeeds exactly when a branch point is found, Git does not fail, and the branch exists or its start is not the blank commit of an empty changelist; it starts at the parent's last commit up to the branch point, or else at its last synced one |
| MultiStream.BuildCommit | p4gitsync/src/p4gitsync/services/commit_builder.py:142-177 | none for an empty changelist; otherwise a commit whose first parent is the stream's commit if there is one, with the source as the second exactly when both are known |
| MultiStream.HandleChangelist | p4gitsync/src/p4gitsync/services/multi_stream_sync.py:109-137 | records the commit and moves the stream up to the changelist, or changes nothing when it fails; the Git library refuses a commit without a parent on a branch that exists |
| MultiStream.FirstIsSmallest | p4gitsync/src/p4gitsync/services/multi_stream_sync.py:59-77 | when a changelist comes up, every smaller one of every registered stream has been handled and recorded |
| MultiStream.ProcessedKeeps | p4gitsync/src/p4gitsync/services/multi_stream_sync.py:59-77 | handling any front of the queue, to its end or its first failure, keeps each stream's records exactly its changelists up to the last one synced |
| MultiStream.SourceIsFound | p4gitsync/src/p4gitsync/services/commit_builder.py:152-177 | a merge whose smaller source has real commits on record finds it and never falls back when it has a parent |
| MultiStream.FirstParentIsLast | p4gitsync/src/p4gitsync/services/commit_builder.py:152-177 | in a state in sync the first parent of a commit, merge or plain, is the commit of the row its stream stands at, and a second one is a row's commit of the changelist integrated from |
| MultiStream.FollowsItsStream | p4gitsync/src/p4gitsync/services/commit_builder.py:152-177 | when a changelist comes up, its commit continues the recorded commit of the stream's greatest smaller changelist, and has no parent exactly when that is blank or there is none |
| MultiStream.PollAndSync | p4gitsync/src/p4gitsync/services/multi_stream_sync.py:43-77 | a round collects, handles to the first failure, and logs every commit recorded; the first parent of every logged commit is the recorded commit of its stream's greatest changelist below it, and every integration whose source was committed is a merge with it |
| MultiStream.NothingBehindFailure | p4gitsync/src/p4gitsync/services/multi_stream_sync.py:59-77 | when an event fails, or the clean-up behind a changelist, nothing that comes after it is recorded in the round |
| MultiStreamRuns.EveryRunInSync | p4gitsync/src/p4gitsync/services/multi_stream_sync.py:43-137 | over rounds with any failures, batch cuts, new changelists and new streams, recorded changelists are exactly those up to the last synced |
| MultiStreamRuns.LastNeverDecreases | p4gitsync/src/p4gitsync/services/multi_stream_sync.py:114-127 | the last synced changelist of a stream never goes down |
| MultiStreamRuns.ShrinksExactly | p4gitsync/src/p4gitsync/services/event_collector.py:54-58 | a failure-free round shrinks the backlog if and only if a changelist event is in the batch |
| MultiStreamRuns.ProgressExactly | p4gitsync/src/p4gitsync/services/multi_stream_sync.py:43-137 | when nothing outside fails, a round shrinks the backlog if and only if the first changelist of its batch can be committed and the branches of all children announced before it can be made: parent synced, and branch there already or start not blank |
| MultiStreamRuns.LargeBatchReaches | p4gitsync/src/p4gitsync/services/event_collector.py:38-58 | a batch larger than the number of never-synced children reaches a changelist |
| MultiStreamRuns.BacklogDrains | p4gitsync/src/p4gitsync/services/event_collector.py:38-58 | with such a batch a fixed backlog is worked off in at most as many failure-free rounds as it has changelists |
| MultiStreamRuns.SmallBatchStarves | p4gitsync/src/p4gitsync/services/event_collector.py:38-58 | a batch of branch announcements only changes nothing, so the next round collects it again |
| MultiStreamRuns.BranchPointFoundExactly | p4gitsync/src/p4gitsync/services/multi_stream_sync.py:88-101 | a branch point is found if and only if the parent has been synced |
| MultiStreamRuns.FirstBlocks | p4gitsync/src/p4gitsync/services/multi_stream_sync.py:86-137 | a child ahead of every changelist whose branch cannot be made, or a refused first changelist, blocks every stream in every round, whatever happens outside |
| MultiStreamRuns.BlockedExample | p4gitsync/src/p4gitsync/services/multi_stream_sync.py:86-101 | the smallest such state: a child registered without a branch point keeps its parent's only changelist waiting for ever |
| MultiStreamRuns.EmptyParentExample | p4gitsync/src/p4gitsync/git/pygit2_git_operator.py:108-117 | the smallest state in which a synced parent blocks: its only changelist was empty, and a child's branch would start at the blank commit |
| MultiStreamRuns.RefusedChildExample | p4gitsync/src/p4gitsync/git/pygit2_git_operator.py:85-117 | the smallest state in which the Git library blocks: a child's branch was made, and its first changelist has no parent to commit on |
| MultiStreamRuns.ParentlessExactly | p4gitsync/src/p4gitsync/services/multi_stream_sync.py:112-121 | a commit starts a history of its own if and only if its stream was never synced or the last changelist synced was empty |
| Bridge.ForwardKeeps | p4gitsync/src/p4gitsync/services/sync_orchestrator.py:452-473 | carrying a changelist keeps: marks recognised, rows right, nothing crossed twice, nothing passed lost |
| Bridge.ReverseKeeps | p4gitsync/src/p4gitsync/services/reverse_commit_builder.py:34-95 | carrying a commit keeps the same |
| Bridge.CommitStandsFor | p4gitsync/src/p4gitsync/services/commit_builder.py:63-130 | the commit made of a changelist starts with its description and number, reads back as that number unless the description holds another's marker, and touches exactly the files some action writes or deletes |
| Bridge.SubmittedNames | p4gitsync/src/p4gitsync/services/reverse_commit_builder.py:57-78 | the changelist submitted for a commit starts with its message, stripped, or with the text a script maps it to, and reads back as that commit if and only if this text holds no marker of another |
| Bridge.NoEcho | p4gitsync/src/p4gitsync/services/sync_orchestrator.py:119-140 | in every run each changelist makes at most one commit and each commit at most one changelist, and what the bridge made never crosses back |
| Bridge.PassedExactly | p4gitsync/src/p4gitsync/services/sync_orchestrator.py:452-473 | a passed changelist has a commit if and only if a user made it, its description has no marker and it touches files of the stream |
| BridgeLoop.Orchestrator.Poll | p4gitsync/src/p4gitsync/services/changelist_poller.py:18-34 | at most a batch of changelists above the last synced one, ascending, and none left out is smaller than one of them |
| BridgeLoop.Orchestrator.ProcessChangelist | p4gitsync/src/p4gitsync/services/sync_orchestrator.py:452-488 | one forward step, and when it stops the loop; the commit made stands for the changelist: its message starts with the description and the number, which reads back unless the description holds another's marker, and it touches the files the actions name |
| BridgeLoop.ForwardedMakes | p4gitsync/src/p4gitsync/services/sync_orchestrator.py:452-488 | unless it fails, a changelist without a marker that touches files of the stream makes one commit, which stands for it and is on record; any other makes none; and the mark moves up to it |
| BridgeLoop.Orchestrator.PollAndSync | p4gitsync/src/p4gitsync/services/sync_orchestrator.py:398-421 | a forward round carries the polled changelists in order up to the first that stops it |
| BridgeLoop.Orchestrator.DetectNewCommits | p4gitsync/src/p4gitsync/git/git_change_detector.py:31-54 | the commits seen that carry no trailer and are not on record, in order |
| BridgeLoop.Orchestrator.SyncCommit | p4gitsync/src/p4gitsync/services/reverse_commit_builder.py:34-95 | one reverse step: submit, record, remember; the new changelist starts with the commit's message, or the mapped text, and names the commit, which reads back if and only if that text holds no other commit's marker |
| BridgeLoop.Orchestrator.PollReverse | p4gitsync/src/p4gitsync/services/sync_orchestrator.py:683-695 | a reverse round submits the detected commits in order up to the first failure |
| BridgeLoop.ForwardReaches | p4gitsync/src/p4gitsync/services/sync_orchestrator.py:398-421 | where a forward round stops: before the first changelist that fails, at the first whose clean-up fails, or at the last |
| BridgeLoop.ReverseReaches | p4gitsync/src/p4gitsync/services/sync_orchestrator.py:683-695 | how many commits a reverse round submits: those before the first refused, and one whose submission is not remembered |
| BridgeLoop.NewCommitsCross | p4gitsync/src/p4gitsync/git/git_change_detector.py:37-54 | detected commits are exactly the new ones among those seen, each once |
| BridgeLoop.DetectedExactly | p4gitsync/src/p4gitsync/git/git_change_detector.py:37-54 | a commit is detected if and only if it is seen, its stripped message names no changelist, and no row has it |
| BridgeLoop.BehindFirst | p4gitsync/src/p4gitsync/services/changelist_poller.py:25-34 | what waits above the first waiting changelist is what waited behind it |
| Conflicts.Detect | p4gitsync/src/p4gitsync/services/conflict_detector.py:38-91 | reports a conflict exactly when a changelist and a commit touch one normalized path, and names all numbers and commits in order and exactly the paths both touch |
| Conflicts.CollectP4Changes | p4gitsync/src/p4gitsync/services/sync_orchestrator.py:697-710 | the polled changelists without a marker, with their files, in order |
| Conflicts.ListedExactly | p4gitsync/src/p4gitsync/services/sync_orchestrator.py:697-710 | an entry is listed if and only if it is the number and the depot paths of a changelist without a marker |
| Conflicts.NoOverlapDisjoint | p4gitsync/src/p4gitsync/services/conflict_detector.py:54-76 | without an overlap, carried changelists and carried commits touch different files |
| Conflicts.DeeperStreamMisses | p4gitsync/src/p4gitsync/services/conflict_detector.py:168-179 | on every stream of more than two components both sides can touch any one file and no conflict is found |
| Conflicts.OtherStreamMisses | p4gitsync/src/p4gitsync/services/conflict_detector.py:168-179 | on every rooted stream of another number of components an edit of a/b on both sides is not found |
| Conflicts.SeesExactly | p4gitsync/src/p4gitsync/services/conflict_detector.py:38-91 | the detector lets no common file through, whatever waits, if and only if the stream has two components |
| BridgeRound.CheckConflicts | p4gitsync/src/p4gitsync/services/sync_orchestrator.py:601-644 | with a remote, blocks exactly when a conflict is on record or, if fetching succeeds, what waits overlaps; what it records; without a remote or when fetching fails it lets the round run unchecked |
| BridgeRound.ConflictsExactly | p4gitsync/src/p4gitsync/services/sync_orchestrator.py:601-644 | a recorded conflict stays until it is resolved, a new one is recorded exactly when an overlap is found and its branch can be made, it names what overlaps, and other branches are not touched |
| BridgeRound.PollReverseChecked | p4gitsync/src/p4gitsync/services/sync_orchestrator.py:646-695 | nothing is submitted under a conflict or when fetching fails; otherwise exactly the detected commits, to the first failure; and which conflicts are on record afterwards |
| BridgeRound.NewBefore | p4gitsync/src/p4gitsync/services/sync_orchestrator.py:668-680 | what the second look at the log finds new, the first look found new |
| BridgeRound.BidirectionalRound | p4gitsync/src/p4gitsync/services/sync_orchestrator.py:128-133 | called off, neither side crosses; otherwise the round is the forward loop followed by the checked reverse loop; the two touch different files if the first look at Git succeeds |
| BridgeRound.ApartExactly | p4gitsync/src/p4gitsync/services/sync_orchestrator.py:617-695 | what crosses in a round always touches different files if and only if the first fetch succeeds or the second fails too, with a remote configured, or nothing is polled |
| BridgeRound.RoundCommutes | p4gitsync/src/p4gitsync/services/sync_orchestrator.py:128-133 | when the sides are kept apart, the new commits and those the new changelists come from give the same files in either order |
| Recovery.LogSplits | p4gitsync/src/p4gitsync/services/recovery.py:42-52 | splitting the printed log at the separator gives back one entry a commit |
| Recovery.LogSplitsExactly | p4gitsync/src/p4gitsync/services/recovery.py:42-52 | the log splits into its entries if and only if no message holds the separator |
| Recovery.EntryRead | p4gitsync/src/p4gitsync/services/recovery.py:57-71 | any entry reads as its commit and the number in its message, or is passed over when there is none |
| Recovery.EntryReadBack | p4gitsync/src/p4gitsync/services/recovery.py:57-71 | an entry of a commit of the sync reads back as its changelist and commit if and only if its description holds no other changelist's marker |
| Recovery.RebuildStateFromGit | p4gitsync/src/p4gitsync/services/recovery.py:27-83 | the loop over entries records each parsed commit in turn and counts them |
| Recovery.RebuildInvertsRecording | p4gitsync/src/p4gitsync/services/recovery.py:42-79 | rebuilding from a log that users' unmarked commits are part of gives exactly the tables forward recording made |
| Recovery.RebuildRestores | p4gitsync/src/p4gitsync/services/recovery.py:42-79 | from an empty database the map from changelists to commits is restored, the stream stands at the greatest changelist committed with its commit, and the count is the number of commits the sync had made |
| Recovery.SeparatorExample | p4gitsync/src/p4gitsync/services/recovery.py:52-71 | the smallest log that does not: a description with the separator takes its commit apart, and nothing is recovered |
| RecoveredBridge.EveryRunLogged | p4gitsync/src/p4gitsync/services/sync_orchestrator.py:452-473 | in every run of the bridge its commits carry printed messages, and their changelists ascend along the log |
| RecoveredBridge.RecoveredExactly | p4gitsync/src/p4gitsync/services/recovery.py:42-79 | after any run, the tables rebuilt from the log keep the bridge's invariant if and only if nothing has been submitted to Perforce |
| RecoveredBridge.PassedAgain | p4gitsync/src/p4gitsync/services/recovery.py:67-79 | going forward from the rebuilt tables, what is passed a second time makes no commit |
| RecoveredBridge.ResubmittedExample | p4gitsync/src/p4gitsync/services/recovery.py:42-79 | the smallest such run: one commit is submitted, and after rebuilding it is new again |
| RecoveredBridge.SubmittedAgain | p4gitsync/src/p4gitsync/git/git_change_detector.py:37-54 | going in reverse, every user's commit without a trailer is new again, also one that was submitted and known |
| LfsPointers.PointerReadBack | p4gitsync/src/p4gitsync/lfs/lfs_pointer_utils.py:21-51 | reading a printed pointer gives back digest and size, for every 64-digit digest and every size |
| LfsPointers.PointerText | p4gitsync/src/p4gitsync/lfs/lfs_pointer_utils.py:1-51 | the text of a pointer, line by line; a digest is sixty-four hexadecimal digits |
| LfsStores.LfsObjectStore.StoreFromStream | p4gitsync/src/p4gitsync/lfs/lfs_object_store.py:31-47 | stores the concatenated chunks under their digest, or leaves nothing behind when reading breaks off |
| LfsStores.LfsObjectStore.StoreFromFile | p4gitsync/src/p4gitsync/lfs/lfs_object_store.py:49-71 | stores a file under its digest and takes the file away, whether or not the object was there |
| LfsStores.LfsObjectStore.Finalize | p4gitsync/src/p4gitsync/lfs/lfs_object_store.py:113-124 | keeping an existing object is as good as storing the new one |
| LfsStores.LfsObjectStore.ResolveContent | p4gitsync/src/p4gitsync/services/reverse_commit_builder.py:97-106 | the pointer of any bytes resolves to these bytes if the store has their object, and only a pointer to a stored object resolves to anything but itself |
| LfsStores.ResolveUndoesStore | p4gitsync/src/p4gitsync/services/reverse_commit_builder.py:97-106 | storing bytes and resolving their pointer gives the bytes back |
| Integrity.VerifyLfs | p4gitsync/src/p4gitsync/services/integrity_checker.py:335-369 | the check by digests says exactly what a comparison of contents would say |
| Integrity.VerifyLfsByContent | p4gitsync/src/p4gitsync/services/integrity_checker.py:371-389 | same, different or skipped, by the digest of the fetched contents |
| Integrity.SameMeansSameBytes | p4gitsync/src/p4gitsync/services/integrity_compare.py:27-67 | a large file reported the same has a pointer that resolves to exactly the bytes in Perforce |
| Integrity.StoredIsSame | p4gitsync/src/p4gitsync/services/integrity_compare.py:27-67 | the pointer of stored bytes that are in Perforce is never reported different |
| IntegrityCheckers.VerifySlice | p4gitsync/src/p4gitsync/services/integrity_checker.py:282-333 | a slice's count and mismatches are those of its files, which in bytes means: a plain file is reported exactly when Perforce sends other bytes, a large one exactly when its object is missing, its size differs, or its bytes do; it fails exactly when a fetch that is needed breaks |
| IntegrityCheckers.OutcomeMeans | p4gitsync/src/p4gitsync/services/integrity_checker.py:282-369 | for every path, what is reported by digests and sizes is what comparing bytes would say: different, the same, or broken off |
| IntegrityCheckers.TallyInBytes | p4gitsync/src/p4gitsync/services/integrity_checker.py:282-333 | for every list of paths each one that differs in bytes is reported as often as it is listed and no other is, and as many are counted as were compared or found to differ |
| IntegrityCheckers.TallyPermutes | p4gitsync/src/p4gitsync/services/integrity_checker.py:282-333 | the outcome does not depend on the order of the files |
| IntegrityParallel.SlicesPermute | p4gitsync/src/p4gitsync/services/integrity_checker.py:232-233 | the strided slices hold every path as often as the list, for every number of workers |
| IntegrityParallel.CompareParallel | p4gitsync/src/p4gitsync/services/integrity_checker.py:228-278 | checking over any number of connections reports what checking over one does; one failing worker fails the check |
| IntegrityParallel.CompareFiles | p4gitsync/src/p4gitsync/services/integrity_checker.py:207-226 | over one connection or several: a path is among the mismatched if and only if it is listed and differs in bytes; passing means that Git's blobs are Perforce's bytes wherever they are plain and readable, and that pointers resolve to Perforce's bytes; it fails exactly when a fetch that is needed breaks |
| IntegrityParallel.SelectSmart | p4gitsync/src/p4gitsync/services/integrity_checker.py:183-203 | every large file first and then a sample of the small ones, none twice; without sizes a sample of all files |
| LfsRouting.PartitionForLfs | p4gitsync/src/p4gitsync/lfs/lfs_routing.py:127-179 | loses and doubles no file, and puts a file in the store's half exactly when the full rule says so on its filled-in size and first bytes |
| LfsRouting.ShortcutsAgree | p4gitsync/src/p4gitsync/lfs/lfs_routing.py:147-153 | the early decisions by extension and text type are those of the full rule, whatever the size |
| LfsRouting.RoutedExactly | p4gitsync/src/p4gitsync/lfs/lfs_routing.py:78-124 | the rule in one piece: by extension, or, if binaries are sent, not known to be below the threshold and binary by type or by a zero among the first bytes, or unknown and not known to be small |
| LfsRouting.ClassifyExactly | p4gitsync/src/p4gitsync/lfs/lfs_routing.py:40-66 | text, unicode, utf8 and utf16 are text; binary, apple, resource and ubinary are binary; with any modifiers, and with an x in front |
| LfsRouting.LowerExactly | p4gitsync/src/p4gitsync/lfs/lfs_routing.py:52-52 | capital letters become small ones, and nothing else changes |
| LfsRouting.LargerIsRouted | p4gitsync/src/p4gitsync/lfs/lfs_routing.py:78-124 | a larger file is never kept out of the store where a smaller one goes in |
| LfsRouting.FillSizes | p4gitsync/src/p4gitsync/p4/p4_client.py:188-210 | fills in exactly the sizes not known yet |
| LfsPushing.ParseLsFilesOids | p4gitsync/src/p4gitsync/services/lfs_pusher.py:32-48 | the digests named, each once, in order of first appearance |
| LfsPushing.FirstWordExactly | p4gitsync/src/p4gitsync/services/lfs_pusher.py:39-43 | the word read of a line is what stands before its first white space, blanks in front taken off |
| LfsPushing.NamesOidExactly | p4gitsync/src/p4gitsync/services/lfs_pusher.py:44-44 | a word is a digest if and only if it is sixty-four hexadecimal digits, in either case |
| LfsPushing.ChunkHoldsAll | p4gitsync/src/p4gitsync/services/lfs_pusher.py:51-55 | batches hold the list piece by piece, none empty and none too large |
| LfsPushing.LfsPusher.Run | p4gitsync/src/p4gitsync/services/lfs_pusher.py:167-202 | marked digests were accepted and are not sent again, counts add up, everything sent is accepted or reported failed, nothing is sent behind a refused batch unless the run goes on after errors, and ok means every listed digest is done |
| LfsPushing.RunAll | p4gitsync/src/p4gitsync/services/lfs_pusher.py:167-202 | over any sequence of runs with failures and crashes, a digest marked on disk had been accepted and no later run sends it |

## Left out

- TreeBuilder.Build: the order in which a Python set hands out deletes is arbitrary here too; nothing is said about time.
- ParallelPrinting.ParallelPrint: the printed files are those of one revision; what Perforce prints is a function of the depot path.
- BulkSession.BuildClData: the large-file half of a changelist is left out; which batches raise is a parameter, counted from nought in every changelist.
- BulkSession.WriteChangelist: without the attribute files written at the first changelist and without pointer files.
- BulkSession.BulkSessionEqualsIncremental: with large file routing off, without the attribute files, and for one entry per path; a fast-import session is followed on its own, for a commit carries no `from` line.
- BulkPipeline.ImportBranch: one session without checkpoints, for a later one would start a branch of its own; the changelists come in order, as prefetching delivers them.
- ImportRun.Run: a broken pipe is taken to leave nothing of its changelist on the stream, and an exception to come after its commit was begun; the rows of earlier checkpoints are followed only through the last record.
- Prefetch.DeliveredInOrder: a describe call is taken to answer one record per changelist, in order; process death is not modelled.
- MultiStreamRuns.EveryRunInSync: starts from an empty database, for a bulk import records only checkpoints; a process death between recording a commit and moving the stream up is not modelled.
- MultiStream.SourceIsFound: when a changelist has rows in several streams any of them may be found, so all of them must have real commits.
- Bridge.NoEcho: which part of the log is looked at is arbitrary, so nothing is claimed about commits beyond the window of 1000 being found.
- Bridge.ForwardKeeps: which parent a commit gets, and whether Git refuses it for having none, is not followed there.
- BridgeRound.BidirectionalRound: for two-component streams, and without changes by users between the two looks at the log; a check that raises while reading a commit's files, which ends the round, is left out.
- BridgeRound.ApartExactly: without a remote the log looked at is the one fetched last, which is empty if there was never a fetch.
- Recovery.RebuildRestores: for a branch without merges, and for a log in which no message contains the separator.
- RecoveredBridge.RecoveredExactly: rebuilding from the log of the single branch the bridge keeps; other tables start empty.
- IntegrityParallel.SelectSmart: sizes enter as a function of the repository path, zero for files Perforce does not list.
- SyncEvents.Collect: ties between streams at one changelist number may come in any order.
- LfsPushing.ParseLsFilesOids: starts from the lines of the listing, not from its text.
- LfsRouting.PartitionForLfs: the extension test is a parameter.
- LfsRouting.FillSizes: for one action per depot path, as in a changelist; of two with the same path the program fills in the last only.
- User mapping, but for the description a script may give, which is a parameter.
- Virtual stream filters, file modes, circuit breakers, error tables, push status and the integration flag of a row.
- The Redis consumer, which sets the last changelist to whatever arrives and bypasses the conflict check.
- Resynchronising a range and archiving old rows.
- Stream watching and exact branch points; creating the conflict branch and its commit.
- `MultiStreamImporter`, which writes files before deletes.
- Transactions of the database, the author cache, and locking.
- Command line, setup, notifications, reports, service management and other user interface.
