/** The sync's database: what has been synced of every stream, and which commit stands for which
    changelist. */
module StateStores {
  import opened Options

  type CL = nat
  type Stream = string
  type Sha = string

  datatype Synced = Synced(cl: CL, sha: Sha)

  datatype Direction = P4ToGit | GitToP4

  datatype Row = Row(sha: Sha, branch: string, direction: Direction)

  datatype StreamMapping = StreamMapping(stream: Stream, branch: string, parent: Option<Stream>,
                                         branchPoint: Option<CL>)

  datatype Conflict = Conflict(p4Changelists: seq<CL>, gitCommits: seq<Sha>, files: set<string>)

  /** The tables, as values. */
  datatype Tables = Tables(
    synced: map<Stream, Synced>,
    commits: map<(CL, Stream), Row>,
    registry: map<Stream, StreamMapping>,
    reverse: map<string, Sha>,
    conflicts: map<string, Conflict>)

  ghost predicate Keyed(registry: map<Stream, StreamMapping>) { forall s | s in registry :: registry[s].stream == s }

  ghost predicate IsListing(ms: seq<StreamMapping>, registry: map<Stream, StreamMapping>) {
    && (forall m | m in ms :: m.stream in registry && registry[m.stream] == m)
    && (forall s | s in registry :: registry[s] in ms)
    && (forall i, k | 0 <= i < k < |ms| :: ms[i].stream != ms[k].stream)
  }

  function LastSynced(t: Tables, stream: Stream): CL {
    if stream in t.synced then t.synced[stream].cl else 0
  }

  /** A changelist recorded again keeps the branch it was first recorded with. */
  function Recorded(t: Tables, cl: CL, stream: Stream, row: Row): Tables {
    var branch := if (cl, stream) in t.commits then t.commits[(cl, stream)].branch else row.branch;
    t.(commits := t.commits[(cl, stream) := row.(branch := branch)])
  }

  /** The row holds the commit and the direction given last and the branch given first; nothing else changes. */
  lemma RecordedExactly(t: Tables, cl: CL, stream: Stream, row: Row)
    ensures var t' := Recorded(t, cl, stream, row);
      && t' == t.(commits := t'.commits) && (cl, stream) in t'.commits
      && t'.commits[(cl, stream)].sha == row.sha && t'.commits[(cl, stream)].direction == row.direction
      && ((cl, stream) !in t.commits ==> t'.commits[(cl, stream)].branch == row.branch)
      && ((cl, stream) in t.commits ==> t'.commits[(cl, stream)].branch == t.commits[(cl, stream)].branch)
      && forall k | k != (cl, stream) :: (k in t'.commits <==> k in t.commits)
                                         && (k in t.commits ==> t'.commits[k] == t.commits[k])
  {
  }

  /** sha is the commit of the stream's last changelist below the bound, if it has one. */
  ghost predicate IsLastBefore(t: Tables, stream: Stream, bound: CL, sha: Option<Sha>) {
    match sha
    case None => forall c: CL | c < bound :: (c, stream) !in t.commits
    case Some(s) =>
      exists c: CL ::
        && c < bound && (c, stream) in t.commits && t.commits[(c, stream)].sha == s
        && forall d: CL | c < d < bound :: (d, stream) !in t.commits
  }

  /** Some row of this changelist, whatever its stream. */
  ghost predicate IsShaOf(t: Tables, cl: CL, sha: Option<Sha>) {
    match sha
    case None => forall s: Stream :: (cl, s) !in t.commits
    case Some(x) => exists s: Stream :: (cl, s) in t.commits && t.commits[(cl, s)].sha == x
  }

  ghost predicate KnownSha(t: Tables, sha: Sha) { exists k :: k in t.commits && t.commits[k].sha == sha }

  class StateStore {
    var syncState: map<Stream, Synced>
    var clCommitMap: map<(CL, Stream), Row>
    var streamRegistry: map<Stream, StreamMapping>
    var reverseSyncState: map<string, Sha>
    var conflictState: map<string, Conflict>

    ghost function Contents(): Tables
      reads this
    {
      Tables(syncState, clCommitMap, streamRegistry, reverseSyncState, conflictState)
    }

    constructor ()
      ensures Contents() == Tables(map[], map[], map[], map[], map[])
    {
      syncState, clCommitMap, streamRegistry, reverseSyncState, conflictState := map[], map[], map[], map[], map[];
    }

    method GetLastSyncedCl(stream: Stream) returns (cl: CL)
      ensures cl == LastSynced(Contents(), stream)
    {
      cl := if stream in syncState then syncState[stream].cl else 0;
    }

    method SetLastSyncedCl(stream: Stream, cl: CL, sha: Sha)
      modifies this
      ensures Contents() == old(Contents()).(synced := old(syncState)[stream := Synced(cl, sha)])
    {
      syncState := syncState[stream := Synced(cl, sha)];
    }

    method IsStreamSynced(stream: Stream) returns (b: bool)
      ensures b <==> stream in syncState
    {
      b := stream in syncState;
    }

    method GetStreamCommitSha(cl: CL, stream: Stream) returns (sha: Option<Sha>)
      ensures sha == if (cl, stream) in clCommitMap then Some(clCommitMap[(cl, stream)].sha) else None
    {
      sha := if (cl, stream) in clCommitMap then Some(clCommitMap[(cl, stream)].sha) else None;
    }

    /** The commit of a changelist in any stream: the first row found. */
    method GetCommitSha(cl: CL) returns (sha: Option<Sha>)
      ensures IsShaOf(Contents(), cl, sha)
    {
      var keys := clCommitMap.Keys;
      while keys != {}
        invariant keys <= clCommitMap.Keys
        invariant forall s: Stream | (cl, s) in clCommitMap :: (cl, s) in keys
        decreases |keys|
      {
        var key :| key in keys;
        if key.0 == cl {
          assert key == (cl, key.1);
          return Some(clCommitMap[key].sha);
        }
        keys := keys - {key};
      }
      sha := None;
    }

    /** Whether any row names this commit. */
    method KnowsSha(sha: Sha) returns (b: bool)
      ensures b <==> KnownSha(Contents(), sha)
    {
      var keys := clCommitMap.Keys;
      while keys != {}
        invariant keys <= clCommitMap.Keys
        invariant forall k | k in clCommitMap && k !in keys :: clCommitMap[k].sha != sha
        decreases |keys|
      {
        var key :| key in keys;
        if clCommitMap[key].sha == sha { return true; }
        keys := keys - {key};
      }
      b := false;
    }

    method RecordCommit(cl: CL, sha: Sha, stream: Stream, branch: string, direction: Direction)
      modifies this
      ensures Contents() == Recorded(old(Contents()), cl, stream, Row(sha, branch, direction))
    {
      var kept := if (cl, stream) in clCommitMap then clCommitMap[(cl, stream)].branch else branch;
      clCommitMap := clCommitMap[(cl, stream) := Row(sha, kept, direction)];
    }

    method GetLastCommitBefore(stream: Stream, bound: CL) returns (sha: Option<Sha>)
      ensures IsLastBefore(Contents(), stream, bound, sha)
    {
      var c := bound;
      while c > 0
        invariant c <= bound
        invariant forall d: CL | c <= d < bound :: (d, stream) !in clCommitMap
      {
        c := c - 1;
        if (c, stream) in clCommitMap { return Some(clCommitMap[(c, stream)].sha); }
      }
      sha := None;
    }

    /** Register a stream, or change what is registered of it: every stream stays under its own name. */
    method RegisterStream(mapping: StreamMapping)
      modifies this
      ensures old(Keyed(streamRegistry)) ==> Keyed(streamRegistry)
      ensures Contents() == old(Contents()).(registry := old(streamRegistry)[mapping.stream := mapping])
    {
      streamRegistry := streamRegistry[mapping.stream := mapping];
    }

    /** All registered streams, each once, in no particular order. */
    method GetAllRegisteredStreams() returns (ms: seq<StreamMapping>)
      requires Keyed(streamRegistry)
      ensures IsListing(ms, streamRegistry)
    {
      var keys := streamRegistry.Keys;
      ms := [];
      while keys != {}
        invariant keys <= streamRegistry.Keys
        invariant forall m | m in ms :: m.stream in streamRegistry && m.stream !in keys && streamRegistry[m.stream] == m
        invariant forall s | s in streamRegistry && s !in keys :: streamRegistry[s] in ms
        invariant forall i, k | 0 <= i < k < |ms| :: ms[i].stream != ms[k].stream
        decreases |keys|
      {
        var key :| key in keys;
        keys := keys - {key};
        ms := ms + [streamRegistry[key]];
      }
    }

    method SetLastReverseSyncSha(branch: string, sha: Sha)
      modifies this
      ensures Contents() == old(Contents()).(reverse := old(reverseSyncState)[branch := sha])
    {
      reverseSyncState := reverseSyncState[branch := sha];
    }

    method RecordConflict(branch: string, conflict: Conflict)
      modifies this
      ensures Contents() == old(Contents()).(conflicts := old(conflictState)[branch := conflict])
    {
      conflictState := conflictState[branch := conflict];
    }

    method GetConflict(branch: string) returns (conflict: Option<Conflict>)
      ensures conflict == if branch in conflictState then Some(conflictState[branch]) else None
    {
      conflict := if branch in conflictState then Some(conflictState[branch]) else None;
    }

    method ResolveConflict(branch: string)
      modifies this
      ensures Contents() == old(Contents()).(conflicts := old(conflictState) - {branch})
    {
      conflictState := conflictState - {branch};
    }
  }
}
