/** The write paths as they run: statement by statement on a transaction's copy, stored only on commit. */
module GraphDatabase {
  import opened Wrappers
  import opened Text
  import opened GraphStore

  class NativeGraph {
    var nodes: map<string, NodeRow>
    var edges: map<string, EdgeRow>
    var nextId: nat
    var runs: map<string, RunRow>
    var checkpoints: map<Repository, Checkpoint>

    ghost function State(): Database
      reads this
    {
      Database(Tables(nodes, edges, nextId), runs, checkpoints)
    }

    constructor ()
      ensures State() == EMPTY
    {
      nodes, edges, nextId, runs, checkpoints := map[], map[], 0, map[], map[];
    }

    method Store(tables: Tables)
      modifies this
      ensures State() == old(State()).(tables := tables)
    {
      nodes, edges, nextId := tables.nodes, tables.edges, tables.nextId;
    }

    /** The upsert loop shared by the bulk route, imports and deltas. */
    method UpsertNodeRows(start: Tables, ns: seq<NodeInput>, runId: Option<string>) returns (t: Tables)
      ensures t == PutNodes(start, ns, runId)
    {
      t := start;
      for i := 0 to |ns|
        invariant t == PutNodes(start, ns[..i], runId)
      {
        assert ns[..i + 1][..i] == ns[..i];
        t := PutNode(t, ns[i], runId);
      }
      assert ns[..|ns|] == ns;
    }

    /** The edge loop: the first missing endpoint throws, which aborts the transaction. */
    method UpsertEdgeRows(start: Tables, es: seq<EdgeInput>, runId: Option<string>)
      returns (r: Result<Tables, Failure>)
      ensures r == PutEdges(start, es, runId)
    {
      var t := start;
      for i := 0 to |es|
        invariant PutEdges(start, es[..i], runId) == Ok(t)
      {
        assert es[..i + 1][..i] == es[..i];
        var next := PutEdge(t, es[i], runId);
        if next.Err? {
          PutEdgesFailsEarly(start, es, runId, i + 1);
          return next;
        }
        t := next.value;
      }
      assert es[..|es|] == es;
      return Ok(t);
    }

    method BulkUpsertNodes(ns: seq<NodeInput>, runId: string) returns (r: Result<(), Failure>)
      modifies this
      ensures match UpsertNodes(old(State()), ns, runId)
              case Ok(db) => r == Ok(()) && State() == db
              case Err(failure) => r == Err(failure) && State() == old(State())
    {
      var failure := FirstNodeFailure(ns);
      if failure.Some? { return Err(failure.value); }
      var t := UpsertNodeRows(Tables(nodes, edges, nextId), ns, RunKey(runId));
      Store(t);
      return Ok(());
    }

    method BulkUpsertEdges(es: seq<EdgeInput>, runId: string) returns (r: Result<(), Failure>)
      modifies this
      ensures match UpsertEdges(old(State()), es, runId)
              case Ok(db) => r == Ok(()) && State() == db
              case Err(failure) => r == Err(failure) && State() == old(State())
    {
      var failure := FirstEdgeFailure(es);
      if failure.Some? { return Err(failure.value); }
      var t := UpsertEdgeRows(Tables(nodes, edges, nextId), es, RunKey(runId));
      if t.Err? { return Err(t.error); }
      Store(t.value);
      return Ok(());
    }

    method ImportNativeGraph(ns: seq<NodeInput>, es: seq<EdgeInput>, runId: string) returns (r: Result<(), Failure>)
      modifies this
      ensures match Import(old(State()), ns, es, runId)
              case Ok(db) => r == Ok(()) && State() == db
              case Err(failure) => r == Err(failure) && State() == old(State())
    {
      if Trim(runId) == "" { return Err(RunIdRequired); }
      var nodeFailure := FirstNodeFailure(ns);
      if nodeFailure.Some? { return Err(nodeFailure.value); }
      var edgeFailure := FirstEdgeFailure(es);
      if edgeFailure.Some? { return Err(edgeFailure.value); }
      var t := UpsertNodeRows(Tables(nodes, edges, nextId), ns, RunKey(runId));
      var done := UpsertEdgeRows(t, es, RunKey(runId));
      if done.Err? { return Err(done.error); }
      runs := runs[Trim(runId) := RunRow(|ns|, |es|)];
      Store(done.value);
      return Ok(());
    }

    method ApplyRepositoryDelta(d: Delta) returns (o: Outcome)
      modifies this
      ensures (State(), o) == ApplyDelta(old(State()), d)
    {
      var invalid := ValidateDelta(d);
      if invalid.Some? { return Rejected(invalid.value); }
      var repo, head := RepositoryOf(d), Trim(d.headSha);
      if repo in checkpoints && checkpoints[repo].headSha == head {
        return Replayed(checkpoints[repo], NO_COUNTS);
      }
      if d.mode == "incremental" && !(repo in checkpoints && checkpoints[repo].headSha == Trim(d.baseSha)) {
        return Rejected(StaleBase(if repo in checkpoints then Some(checkpoints[repo].headSha) else None));
      }

      var deletions := DeleteRows(Tables(nodes, edges, nextId), d);
      if deletions.Err? { return Rejected(deletions.error); }
      var (cleared, nodesDeleted, edgesDeleted) := deletions.value;
      var runId := RunIdOf(repo, head);
      var t := UpsertNodeRows(cleared, d.nodes, Some(runId));
      var done := UpsertEdgeRows(t, d.edges, Some(runId));
      if done.Err? { return Rejected(done.error); }
      if runId in runs { return Rejected(RunExists); }
      runs := runs[runId := RunRow(|d.nodes|, |d.edges|)];
      var checkpoint := Checkpoint(head, Trim(d.schemaVersion));
      checkpoints := checkpoints[repo := checkpoint];
      Store(done.value);
      return Committed(checkpoint, Counts(|d.nodes|, |d.edges|, nodesDeleted, edgesDeleted));
    }

    /** The edges a delta deletes by id: those a rebuild no longer wants, then those it names. */
    method DeleteNamedEdges(start: Tables, d: Delta) returns (t: Tables, edgesDeleted: nat)
      ensures t == EdgesCleared(start, d)
      ensures edgesDeleted == |StaleEdges(start, d)| + |RequestedEdges(DropEdges(start, StaleEdges(start, d)), d)|
    {
      t, edgesDeleted := start, 0;
      var stale := StaleEdges(start, d);
      if FullRebuild(d) {
        t := DropEdges(t, stale);
        edgesDeleted := edgesDeleted + |stale|;
      } else {
        assert t.edges - stale == t.edges;
      }
      var requested := RequestedEdges(t, d);
      t := DropEdges(t, requested);
      edgesDeleted := edgesDeleted + |requested|;
    }

    /** The deletions of a delta in order, with how many node and edge rows they removed. */
    method DeleteRows(start: Tables, d: Delta) returns (r: Result<(Tables, nat, nat), Failure>)
      ensures Blocked(start, d) ==> r == Err(CrossRepositoryEdge)
      ensures !Blocked(start, d) ==>
                r.Ok? && r.value.0 == Cleared(start, d)
                && Counts(|d.nodes|, |d.edges|, r.value.1, r.value.2) == DeltaCounts(start, d)
    {
      var t, edgesDeleted := DeleteNamedEdges(start, d);
      var doomed := DoomedNodes(t.nodes, d);
      var incident := IncidentEdges(t, doomed);
      if exists x :: x in incident && !Owns(RepositoryOf(d), x) {
        return Err(CrossRepositoryEdge);
      }
      t := DropEdges(t, incident);
      edgesDeleted := edgesDeleted + |incident|;
      var nodesDeleted := |t.nodes.Keys * doomed|;
      t := t.(nodes := t.nodes - doomed);
      return Ok((t, nodesDeleted, edgesDeleted));
    }
  }

  lemma {:induction false} PutEdgesFailsEarly(t: Tables, es: seq<EdgeInput>, runId: Option<string>, i: nat)
    requires i <= |es| && PutEdges(t, es[..i], runId).Err?
    ensures PutEdges(t, es, runId) == PutEdges(t, es[..i], runId)
  {
    if i == |es| {
      assert es[..i] == es;
    } else {
      assert es[..|es| - 1][..i] == es[..i];
      PutEdgesFailsEarly(t, es[..|es| - 1], runId, i);
    }
  }
}
