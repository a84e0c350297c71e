/** Repository checkpoints over whole runs of requests. */
module DeltaRuns {
  import opened Wrappers
  import opened Text
  import opened GraphStore
  import opened DeltaTheorems

  datatype Commit = Commit(repo: Repository, rebuild: bool, base: string, head: string)

  function LogEntry(d: Delta): Commit {
    Commit(RepositoryOf(d), FullRebuild(d), Trim(d.baseSha), Trim(d.headSha))
  }

  /** What one request adds to the history of committed deltas. */
  function Logged(db: Database, op: Operation): seq<Commit> {
    if op.DeltaOp? && ApplyDelta(db, op.delta).1.Committed? then [LogEntry(op.delta)] else []
  }

  /** The committed deltas of a run from the empty store, oldest first. */
  function History(ops: seq<Operation>): seq<Commit> {
    if ops == [] then []
    else History(ops[..|ops| - 1]) + Logged(ExecuteAll(EMPTY, ops[..|ops| - 1]), ops[|ops| - 1])
  }

  function LastHead(log: seq<Commit>, repo: Repository): Option<string> {
    if log == [] then None
    else if log[|log| - 1].repo == repo then Some(log[|log| - 1].head)
    else LastHead(log[..|log| - 1], repo)
  }

  /** A commit continues a history: rebuild first, right base when incremental, and a head never seen before. */
  ghost predicate Continues(before: seq<Commit>, c: Commit) {
    && (LastHead(before, c.repo) == None ==> c.rebuild)
    && (!c.rebuild ==> LastHead(before, c.repo) == Some(c.base))
    && (forall p :: p in before && p.repo == c.repo ==> p.head != c.head)
  }

  ghost predicate Chained(log: seq<Commit>) {
    forall i :: 0 <= i < |log| ==> Continues(log[..i], log[i])
  }

  /** The stored checkpoints are the last commits, and every commit left its audit row. */
  ghost predicate Consistent(db: Database, log: seq<Commit>) {
    && (forall repo :: HeadOf(db, repo) == LastHead(log, repo))
    && (forall c :: c in log ==> RepositoryOk(c.repo) && RunIdOf(c.repo, c.head) in db.runs)
  }

  lemma LastHeadSnoc(log: seq<Commit>, c: Commit, repo: Repository)
    ensures LastHead(log + [c], repo) == if c.repo == repo then Some(c.head) else LastHead(log, repo)
  {
    assert (log + [c])[..|log|] == log;
  }

  lemma ChainedSnoc(log: seq<Commit>, c: Commit)
    requires Chained(log) && Continues(log, c)
    ensures Chained(log + [c])
  {
    var longer := log + [c];
    forall i | 0 <= i < |longer| ensures Continues(longer[..i], longer[i]) {
      if i < |log| {
        assert longer[..i] == log[..i];
      } else {
        assert longer[..i] == log;
      }
    }
  }

  /** What a commit does to the audit rows and checkpoints. */
  lemma CommitEffect(db: Database, d: Delta)
    requires ApplyDelta(db, d).1.Committed?
    ensures var c, after := LogEntry(d), ApplyDelta(db, d).0;
            && RepositoryOk(c.repo) && RunIdOf(c.repo, c.head) !in db.runs
            && (c.rebuild || HeadOf(db, c.repo) == Some(c.base))
            && after.runs.Keys == db.runs.Keys + {RunIdOf(c.repo, c.head)}
            && after.checkpoints == db.checkpoints[c.repo := Checkpoint(c.head, Trim(d.schemaVersion))]
  {
    CommitsExactlyWhen(db, d);
    CommitConcludes(db, d);
    ConcludeEffect(db, d, Reconcile(db.tables, d));
  }

  lemma ConcludeEffect(db: Database, d: Delta, reconciled: Result<Tables, Failure>)
    requires Conclude(db, d, reconciled).1.Committed?
    ensures var c, after := LogEntry(d), Conclude(db, d, reconciled).0;
            && after.runs.Keys == db.runs.Keys + {RunIdOf(c.repo, c.head)}
            && after.checkpoints == db.checkpoints[c.repo := Checkpoint(c.head, Trim(d.schemaVersion))]
  {
  }

  lemma CommitIsNew(db: Database, log: seq<Commit>, c: Commit)
    requires Consistent(db, log) && RunIdOf(c.repo, c.head) !in db.runs
    requires c.rebuild || HeadOf(db, c.repo) == Some(c.base)
    ensures Continues(log, c)
  {
    forall p | p in log && p.repo == c.repo ensures p.head != c.head {
      assert RunIdOf(p.repo, p.head) in db.runs;
    }
  }

  lemma LogGrows(db: Database, after: Database, log: seq<Commit>, c: Commit, schemaVersion: string)
    requires Consistent(db, log) && RepositoryOk(c.repo)
    requires after.runs.Keys == db.runs.Keys + {RunIdOf(c.repo, c.head)}
    requires after.checkpoints == db.checkpoints[c.repo := Checkpoint(c.head, schemaVersion)]
    ensures Consistent(after, log + [c])
  {
    forall repo ensures HeadOf(after, repo) == LastHead(log + [c], repo) {
      LastHeadSnoc(log, c, repo);
      assert HeadOf(db, repo) == LastHead(log, repo);
    }
  }

  /** A committed delta continues the history it is committed on. */
  lemma CommitContinues(db: Database, log: seq<Commit>, d: Delta)
    requires Consistent(db, log) && ApplyDelta(db, d).1.Committed?
    ensures Continues(log, LogEntry(d))
    ensures Consistent(ApplyDelta(db, d).0, log + [LogEntry(d)])
  {
    CommitEffect(db, d);
    CommitIsNew(db, log, LogEntry(d));
    LogGrows(db, ApplyDelta(db, d).0, log, LogEntry(d), Trim(d.schemaVersion));
  }

  lemma OtherRequestsEffect(db: Database, op: Operation)
    requires Logged(db, op) == []
    ensures Execute(db, op).checkpoints == db.checkpoints && db.runs.Keys <= Execute(db, op).runs.Keys
  {
  }

  lemma LogStays(db: Database, after: Database, log: seq<Commit>)
    requires Consistent(db, log) && after.checkpoints == db.checkpoints && db.runs.Keys <= after.runs.Keys
    ensures Consistent(after, log)
  {
    forall repo ensures HeadOf(after, repo) == LastHead(log, repo) {
      assert HeadOf(after, repo) == HeadOf(db, repo);
    }
  }

  lemma OtherRequestsKeepConsistency(db: Database, log: seq<Commit>, op: Operation)
    requires Consistent(db, log) && Logged(db, op) == []
    ensures Consistent(Execute(db, op), log)
  {
    OtherRequestsEffect(db, op);
    LogStays(db, Execute(db, op), log);
  }

  lemma RequestKeepsChain(db: Database, log: seq<Commit>, op: Operation)
    requires Consistent(db, log) && Chained(log)
    ensures Consistent(Execute(db, op), log + Logged(db, op))
    ensures Chained(log + Logged(db, op))
  {
    LoggedMeans(db, op);
    if Logged(db, op) == [] {
      OtherRequestsKeepConsistency(db, log, op);
      assert log + Logged(db, op) == log;
    } else {
      CommitContinues(db, log, op.delta);
      ChainedSnoc(log, LogEntry(op.delta));
    }
  }

  lemma LoggedMeans(db: Database, op: Operation)
    ensures Logged(db, op) != [] ==>
              && op.DeltaOp? && ApplyDelta(db, op.delta).1.Committed?
              && Logged(db, op) == [LogEntry(op.delta)] && Execute(db, op) == ApplyDelta(db, op.delta).0
  {
  }

  /** Over every run: checkpoints are the last commits, and the commits of each repository form a chain. */
  lemma {:induction false} CheckpointChain(ops: seq<Operation>)
    ensures Consistent(ExecuteAll(EMPTY, ops), History(ops))
    ensures Chained(History(ops))
  {
    if ops != [] {
      var front, op := ops[..|ops| - 1], ops[|ops| - 1];
      var db, log := ExecuteAll(EMPTY, front), History(front);
      CheckpointChain(front);
      RequestKeepsChain(db, log, op);
    }
  }

  lemma CommitMovesCheckpoint(db: Database, d: Delta)
    requires ApplyDelta(db, d).1.Committed?
    ensures ValidateDelta(d).None?
    ensures RepositoryOf(d) in ApplyDelta(db, d).0.checkpoints
    ensures ApplyDelta(db, d).0.checkpoints[RepositoryOf(d)] == ApplyDelta(db, d).1.checkpoint
    ensures ApplyDelta(db, d).1.checkpoint.headSha == Trim(d.headSha)
  {
  }

  lemma OnlyCommitsChangeAnything(db: Database, d: Delta)
    ensures ApplyDelta(db, d).1.Committed? || ApplyDelta(db, d).0 == db
    ensures ApplyDelta(db, d).1.Replayed? <==>
            ValidateDelta(d).None? && HeadOf(db, RepositoryOf(d)) == Some(Trim(d.headSha))
  {
  }

  lemma CurrentHeadIsReplayed(db: Database, d: Delta)
    requires ValidateDelta(d).None? && HeadOf(db, RepositoryOf(d)) == Some(Trim(d.headSha))
    ensures ApplyDelta(db, d) == (db, Replayed(db.checkpoints[RepositoryOf(d)], NO_COUNTS))
  {
  }

  /** Sending a delta again right after it committed is answered from the checkpoint and changes nothing. */
  lemma RetryIsReplay(db: Database, d: Delta)
    requires ApplyDelta(db, d).1.Committed?
    ensures var (after, done) := ApplyDelta(db, d);
            ApplyDelta(after, d) == (after, Replayed(done.checkpoint, NO_COUNTS))
  {
    CommitMovesCheckpoint(db, d);
    CurrentHeadIsReplayed(ApplyDelta(db, d).0, d);
  }

  /**
   No delta, not even a full rebuild, ever returns a repository to a head it had before: the delta is
   either a replay of the current head or refused, because the old head's audit row is still there.
   */
  lemma OldHeadsNeverReturn(ops: seq<Operation>, d: Delta, c: Commit)
    requires c in History(ops) && c.repo == RepositoryOf(d) && c.head == Trim(d.headSha)
    ensures var db := ExecuteAll(EMPTY, ops);
            && ApplyDelta(db, d).0 == db
            && (ApplyDelta(db, d).1.Replayed? <==>
                  ValidateDelta(d).None? && LastHead(History(ops), c.repo) == Some(c.head))
            && !ApplyDelta(db, d).1.Committed?
  {
    CheckpointChain(ops);
    CommitsExactlyWhen(ExecuteAll(EMPTY, ops), d);
    OnlyCommitsChangeAnything(ExecuteAll(EMPTY, ops), d);
  }
}
