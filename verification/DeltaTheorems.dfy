/**
 What the write paths guarantee: referential integrity over every run, locality, exactly when a delta
 commits, and what its counts mean.
 */
module DeltaTheorems {
  import opened Wrappers
  import opened Text
  import opened GraphStore

  /** Surrogate ids are unique and allocated, and both endpoints of every edge are existing node rows. */
  ghost predicate Integral(t: Tables) {
    && (forall x, y :: x in t.nodes && y in t.nodes && t.nodes[x].id == t.nodes[y].id ==> x == y)
    && (forall x :: x in t.nodes ==> t.nodes[x].id < t.nextId)
    && (forall e :: e in t.edges ==> t.edges[e].sourceId in AllIds(t.nodes) && t.edges[e].targetId in AllIds(t.nodes))
  }

  // ------------------------------------------------------------------ the upsert loops

  lemma NodeKeysSnoc(ns: seq<NodeInput>)
    requires ns != []
    ensures NodeKeys(ns) == NodeKeys(ns[..|ns| - 1]) + {NodeKey(ns[|ns| - 1])}
  {
    assert ns == ns[..|ns| - 1] + [ns[|ns| - 1]];
  }

  lemma EdgeKeysSnoc(es: seq<EdgeInput>)
    requires es != []
    ensures EdgeKeys(es) == EdgeKeys(es[..|es| - 1]) + {EdgeKey(es[|es| - 1])}
  {
    assert es == es[..|es| - 1] + [es[|es| - 1]];
  }

  lemma PutNodeKeepsIntegrity(t: Tables, n: NodeInput, run: Option<string>)
    requires Integral(t)
    ensures Integral(PutNode(t, n, run))
  {
    var r := PutNode(t, n, run);
    OneRowKeepsIntegrity(t, NodeKey(n), r.nodes[NodeKey(n)]);
    assert r == WithRow(t, NodeKey(n), r.nodes[NodeKey(n)]);
  }

  /** The tables with one node row written: an existing row keeps its surrogate id, a new one takes the next. */
  function WithRow(t: Tables, key: string, row: NodeRow): Tables {
    t.(nodes := t.nodes[key := row], nextId := if key in t.nodes then t.nextId else t.nextId + 1)
  }

  lemma OneRowKeepsIntegrity(t: Tables, key: string, row: NodeRow)
    requires Integral(t) && row.id == if key in t.nodes then t.nodes[key].id else t.nextId
    ensures Integral(WithRow(t, key, row))
  {
    var r := WithRow(t, key, row);
    forall id | id in AllIds(t.nodes) ensures id in AllIds(r.nodes) {
      var a :| a in t.nodes && t.nodes[a].id == id;
      assert r.nodes[a].id == id;
    }
  }

  lemma {:induction false} PutNodesFrame(t: Tables, ns: seq<NodeInput>, run: Option<string>)
    ensures PutNodes(t, ns, run).edges == t.edges
    ensures PutNodes(t, ns, run).nodes.Keys == t.nodes.Keys + NodeKeys(ns)
    ensures forall x :: x in t.nodes ==> PutNodes(t, ns, run).nodes[x].id == t.nodes[x].id
    ensures forall x :: x in t.nodes && x !in NodeKeys(ns) ==> PutNodes(t, ns, run).nodes[x] == t.nodes[x]
  {
    if ns != [] {
      PutNodesFrame(t, ns[..|ns| - 1], run);
      NodeKeysSnoc(ns);
    }
  }

  lemma {:induction false} PutNodesKeepsIntegrity(t: Tables, ns: seq<NodeInput>, run: Option<string>)
    requires Integral(t)
    ensures Integral(PutNodes(t, ns, run))
  {
    if ns != [] {
      PutNodesKeepsIntegrity(t, ns[..|ns| - 1], run);
      PutNodeKeepsIntegrity(PutNodes(t, ns[..|ns| - 1], run), ns[|ns| - 1], run);
    }
  }

  ghost predicate EndpointsExist(t: Tables, es: seq<EdgeInput>) {
    forall e :: e in es ==> FromKey(e) in t.nodes && ToKey(e) in t.nodes
  }

  /** What the edge loop leaves alone: every node, and the edges it does not name. */
  ghost predicate EdgeFrame(t: Tables, keys: set<string>, r: Tables) {
    && r.nodes == t.nodes && r.nextId == t.nextId
    && r.edges.Keys == t.edges.Keys + keys
    && (forall x :: x in t.edges && x !in keys ==> r.edges[x] == t.edges[x])
  }

  lemma EdgeFrameGrows(t: Tables, keys: set<string>, r: Tables, e: EdgeInput, run: Option<string>)
    requires EdgeFrame(t, keys, r)
    ensures PutEdge(r, e, run).Ok? <==> FromKey(e) in t.nodes && ToKey(e) in t.nodes
    ensures PutEdge(r, e, run).Ok? ==> EdgeFrame(t, keys + {EdgeKey(e)}, PutEdge(r, e, run).value)
  {
  }

  lemma EndpointsSnoc(t: Tables, es: seq<EdgeInput>)
    requires es != []
    ensures EndpointsExist(t, es) <==>
            && EndpointsExist(t, es[..|es| - 1])
            && FromKey(es[|es| - 1]) in t.nodes && ToKey(es[|es| - 1]) in t.nodes
  {
    assert es == es[..|es| - 1] + [es[|es| - 1]];
  }

  /** The edge loop succeeds exactly when every endpoint is a node. */
  lemma {:induction false} PutEdgesFrame(t: Tables, es: seq<EdgeInput>, run: Option<string>)
    ensures PutEdges(t, es, run).Ok? <==> EndpointsExist(t, es)
    ensures PutEdges(t, es, run).Ok? ==> EdgeFrame(t, EdgeKeys(es), PutEdges(t, es, run).value)
  {
    if es != [] {
      var front, last := es[..|es| - 1], es[|es| - 1];
      PutEdgesFrame(t, front, run);
      EdgeKeysSnoc(es);
      EndpointsSnoc(t, es);
      match PutEdges(t, front, run)
      case Err(_) =>
      case Ok(r) =>
        EdgeFrameGrows(t, EdgeKeys(front), r, last, run);
    } else {
      assert EdgeKeys(es) == {};
    }
  }

  lemma {:induction false} PutEdgesKeepsIntegrity(t: Tables, es: seq<EdgeInput>, run: Option<string>)
    requires Integral(t) && PutEdges(t, es, run).Ok?
    ensures Integral(PutEdges(t, es, run).value)
  {
    if es != [] {
      PutEdgesKeepsIntegrity(t, es[..|es| - 1], run);
      PutEdgeKeepsIntegrity(PutEdges(t, es[..|es| - 1], run).value, es[|es| - 1], run);
    }
  }

  lemma PutEdgeKeepsIntegrity(t: Tables, e: EdgeInput, run: Option<string>)
    requires Integral(t) && PutEdge(t, e, run).Ok?
    ensures Integral(PutEdge(t, e, run).value)
  {
    var r := PutEdge(t, e, run).value;
    OneEdgeKeepsIntegrity(t, EdgeKey(e), r.edges[EdgeKey(e)]);
    assert r == t.(edges := t.edges[EdgeKey(e) := r.edges[EdgeKey(e)]]);
  }

  lemma OneEdgeKeepsIntegrity(t: Tables, key: string, row: EdgeRow)
    requires Integral(t) && row.sourceId in AllIds(t.nodes) && row.targetId in AllIds(t.nodes)
    ensures Integral(t.(edges := t.edges[key := row]))
  {
  }

  // ------------------------------------------------------------------ the deletions of a delta

  lemma OwnedByValidDelta(d: Delta)
    requires ValidateDelta(d).None?
    ensures forall x :: x in NodeKeys(d.nodes) ==> Owns(RepositoryOf(d), x)
    ensures forall x :: x in EdgeKeys(d.edges) ==> Owns(RepositoryOf(d), x)
    ensures forall x :: x in TrimAll(d.deleteNodeIds) ==> Owns(RepositoryOf(d), x)
    ensures forall x :: x in TrimAll(d.deleteEdgeIds) ==> Owns(RepositoryOf(d), x)
  {
  }

  /** An edge that survives the deletions has neither endpoint among the deleted nodes. */
  lemma ClearedKeepsIntegrity(t: Tables, d: Delta)
    requires Integral(t)
    ensures Integral(Cleared(t, d))
  {
    var r, doomed := Cleared(t, d), DoomedNodes(t.nodes, d);
    forall e | e in r.edges
      ensures r.edges[e].sourceId in AllIds(r.nodes) && r.edges[e].targetId in AllIds(r.nodes)
    {
      var row := t.edges[e];
      var a :| a in t.nodes && t.nodes[a].id == row.sourceId;
      var b :| b in t.nodes && t.nodes[b].id == row.targetId;
      assert row.sourceId !in IdsOf(t.nodes, doomed) && row.targetId !in IdsOf(t.nodes, doomed);
      assert a in r.nodes && r.nodes[a].id == row.sourceId;
      assert b in r.nodes && r.nodes[b].id == row.targetId;
    }
  }

  /** Only rows of the delta's own repository are deleted. */
  lemma ClearedIsLocal(t: Tables, d: Delta)
    requires ValidateDelta(d).None? && !Blocked(t, d)
    ensures var r := Cleared(t, d);
            && r.nodes == t.nodes - DoomedNodes(t.nodes, d)
            && (forall x :: x in r.edges ==> x in t.edges && r.edges[x] == t.edges[x])
            && (forall x :: x in t.edges && !Owns(RepositoryOf(d), x) ==> x in r.edges)
            && (forall x :: x in DoomedNodes(t.nodes, d) ==> Owns(RepositoryOf(d), x))
  {
    OwnedByValidDelta(d);
  }

  lemma ReconcileKeepsIntegrity(t: Tables, d: Delta)
    requires Integral(t) && Reconcile(t, d).Ok?
    ensures Integral(Reconcile(t, d).value)
  {
    var run := Some(RunIdOf(RepositoryOf(d), Trim(d.headSha)));
    ClearedKeepsIntegrity(t, d);
    PutNodesKeepsIntegrity(Cleared(t, d), d.nodes, run);
    PutEdgesKeepsIntegrity(PutNodes(Cleared(t, d), d.nodes, run), d.edges, run);
  }

  // ------------------------------------------------------------------ every operation keeps integrity

  datatype Operation =
    | UpsertNodesOp(nodes: seq<NodeInput>, runId: string)
    | UpsertEdgesOp(edges: seq<EdgeInput>, runId: string)
    | ImportOp(nodes: seq<NodeInput>, edges: seq<EdgeInput>, runId: string)
    | DeltaOp(delta: Delta)

  function OrElse(r: Result<Database, Failure>, db: Database): Database {
    if r.Ok? then r.value else db
  }

  /** One request: a failed one leaves the database as it was. */
  function Execute(db: Database, op: Operation): Database {
    match op
    case UpsertNodesOp(ns, runId) => OrElse(UpsertNodes(db, ns, runId), db)
    case UpsertEdgesOp(es, runId) => OrElse(UpsertEdges(db, es, runId), db)
    case ImportOp(ns, es, runId) => OrElse(Import(db, ns, es, runId), db)
    case DeltaOp(d) => ApplyDelta(db, d).0
  }

  function ExecuteAll(db: Database, ops: seq<Operation>): Database {
    if ops == [] then db else Execute(ExecuteAll(db, ops[..|ops| - 1]), ops[|ops| - 1])
  }

  lemma BulkEdgesKeepIntegrity(db: Database, es: seq<EdgeInput>, runId: string)
    requires Integral(db.tables)
    ensures Integral(OrElse(UpsertEdges(db, es, runId), db).tables)
  {
    if PutEdges(db.tables, es, RunKey(runId)).Ok? {
      PutEdgesKeepsIntegrity(db.tables, es, RunKey(runId));
    }
  }

  lemma ImportKeepsIntegrity(db: Database, ns: seq<NodeInput>, es: seq<EdgeInput>, runId: string)
    requires Integral(db.tables)
    ensures Integral(OrElse(Import(db, ns, es, runId), db).tables)
  {
    var t := PutNodes(db.tables, ns, RunKey(runId));
    PutNodesKeepsIntegrity(db.tables, ns, RunKey(runId));
    if PutEdges(t, es, RunKey(runId)).Ok? {
      PutEdgesKeepsIntegrity(t, es, RunKey(runId));
    }
  }

  lemma DeltaKeepsIntegrity(db: Database, d: Delta)
    requires Integral(db.tables)
    ensures Integral(ApplyDelta(db, d).0.tables)
  {
    if Reconcile(db.tables, d).Ok? {
      ReconcileKeepsIntegrity(db.tables, d);
    }
  }

  lemma ExecuteKeepsIntegrity(db: Database, op: Operation)
    requires Integral(db.tables)
    ensures Integral(Execute(db, op).tables)
  {
    match op
    case UpsertNodesOp(ns, runId) => PutNodesKeepsIntegrity(db.tables, ns, RunKey(runId));
    case UpsertEdgesOp(es, runId) => BulkEdgesKeepIntegrity(db, es, runId);
    case ImportOp(ns, es, runId) => ImportKeepsIntegrity(db, ns, es, runId);
    case DeltaOp(d) => DeltaKeepsIntegrity(db, d);
  }

  /** Referential integrity over every run from the empty store. */
  lemma {:induction false} ReferentialIntegrity(ops: seq<Operation>)
    ensures Integral(ExecuteAll(EMPTY, ops).tables)
  {
    if ops != [] {
      ReferentialIntegrity(ops[..|ops| - 1]);
      ExecuteKeepsIntegrity(ExecuteAll(EMPTY, ops[..|ops| - 1]), ops[|ops| - 1]);
    }
  }

  // ------------------------------------------------------------------ locality

  /** Rows outside the delta's repository survive unchanged, and no new ones appear there. */
  lemma DeltaIsLocal(db: Database, d: Delta, id: string)
    requires !Owns(RepositoryOf(d), id)
    ensures var after := ApplyDelta(db, d).0;
            && (id in after.tables.nodes <==> id in db.tables.nodes)
            && (id in db.tables.nodes ==> after.tables.nodes[id] == db.tables.nodes[id])
            && (id in after.tables.edges <==> id in db.tables.edges)
            && (id in db.tables.edges ==> after.tables.edges[id] == db.tables.edges[id])
  {
    if ApplyDelta(db, d).1.Committed? {
      var t, run := db.tables, Some(RunIdOf(RepositoryOf(d), Trim(d.headSha)));
      OwnedByValidDelta(d);
      ClearedIsLocal(t, d);
      PutNodesFrame(Cleared(t, d), d.nodes, run);
      PutEdgesFrame(PutNodes(Cleared(t, d), d.nodes, run), d.edges, run);
    }
  }

  /** A delta leaves the checkpoint of every other repository alone. */
  lemma DeltaMovesOneCheckpoint(db: Database, d: Delta, repo: Repository)
    requires repo != RepositoryOf(d)
    ensures HeadOf(ApplyDelta(db, d).0, repo) == HeadOf(db, repo)
  {
  }

  lemma {:induction false} ColonSplitsOnce(a: string, x: string, b: string, y: string)
    requires ':' !in a && ':' !in b && a + ":" + x == b + ":" + y
    ensures a == b && x == y
  {
    var s := a + ":" + x;
    assert s[|a|] == ':' && s == b + ":" + y && s[|b|] == ':';
    assert forall i :: 0 <= i < |a| ==> s[i] == a[i] && a[i] in a;
    assert forall i :: 0 <= i < |b| ==> s[i] == b[i] && b[i] in b;
    assert a == s[..|a|] && b == s[..|b|];
    assert x == s[|a| + 1..] && y == s[|b| + 1..];
  }

  predicate RepositoryOk(repo: Repository) { RepositoryIdOk(repo.0) && RepositoryIdOk(repo.1) }

  /** Two different repositories never own the same id, because their names cannot contain a colon. */
  lemma RepositoriesOwnDisjointIds(p: Repository, q: Repository, id: string)
    requires RepositoryOk(p) && RepositoryOk(q) && Owns(p, id) && Owns(q, id)
    ensures p == q
  {
    var x, y := id[|Prefix(p)|..], id[|Prefix(q)|..];
    assert id == Prefix(p) + x && id == Prefix(q) + y;
    assert id == p.0 + ":" + (p.1 + ":" + x) && id == q.0 + ":" + (q.1 + ":" + y);
    ColonSplitsOnce(p.0, p.1 + ":" + x, q.0, q.1 + ":" + y);
    ColonSplitsOnce(p.1, x, q.1, y);
  }

  /** The audit key of a commit names its repository and its head. */
  lemma RunIdsAreInjective(p: Repository, h: string, q: Repository, k: string)
    requires RepositoryOk(p) && RepositoryOk(q) && RunIdOf(p, h) == RunIdOf(q, k)
    ensures p == q && h == k
  {
    var tag := "repository-delta:";
    var a, b := p.0 + ":" + (p.1 + ":" + h), q.0 + ":" + (q.1 + ":" + k);
    assert RunIdOf(p, h) == tag + a && RunIdOf(q, k) == tag + b;
    assert a == (tag + a)[|tag|..] && b == (tag + b)[|tag|..];
    ColonSplitsOnce(p.0, p.1 + ":" + h, q.0, q.1 + ":" + k);
    ColonSplitsOnce(p.1, h, q.1, k);
  }

  // ------------------------------------------------------------------ when a delta commits

  /** The nodes a delta leaves: those it does not delete, and those it writes. */
  function FinalNodes(t: Tables, d: Delta): set<string> {
    t.nodes.Keys - DoomedNodes(t.nodes, d) + NodeKeys(d.nodes)
  }

  /** A delta that is not a replay commits exactly when all five of its conditions hold. */
  lemma CommitsExactlyWhen(db: Database, d: Delta)
    ensures ApplyDelta(db, d).1.Committed? <==>
            && ValidateDelta(d).None?
            && HeadOf(db, RepositoryOf(d)) != Some(Trim(d.headSha))
            && (!FullRebuild(d) ==> HeadOf(db, RepositoryOf(d)) == Some(Trim(d.baseSha)))
            && !Blocked(db.tables, d)
            && (forall e :: e in d.edges ==>
                  FromKey(e) in FinalNodes(db.tables, d) && ToKey(e) in FinalNodes(db.tables, d))
            && RunIdOf(RepositoryOf(d), Trim(d.headSha)) !in db.runs
  {
    var run := Some(RunIdOf(RepositoryOf(d), Trim(d.headSha)));
    var t5 := PutNodes(Cleared(db.tables, d), d.nodes, run);
    PutNodesFrame(Cleared(db.tables, d), d.nodes, run);
    PutEdgesFrame(t5, d.edges, run);
    assert t5.nodes.Keys == FinalNodes(db.tables, d);
  }

  lemma CountsOfDeletions(t: Tables, d: Delta)
    ensures DeltaCounts(t, d).nodesDeleted == |t.nodes| - |Cleared(t, d).nodes|
    ensures DeltaCounts(t, d).edgesDeleted == |t.edges| - |Cleared(t, d).edges|
  {
    CountOfDeletedNodes(t, d);
    EdgesClearedCount(t, d);
    SizeAfterRemoval(EdgesCleared(t, d).edges, IncidentEdges(EdgesCleared(t, d), DoomedNodes(t.nodes, d)));
  }

  /** A rebuild whose edges stay among its own nodes always establishes the first checkpoint of an empty store. */
  lemma FirstRebuildCommits(d: Delta)
    requires ValidateDelta(d).None? && FullRebuild(d)
    requires forall e :: e in d.edges ==> FromKey(e) in NodeKeys(d.nodes) && ToKey(e) in NodeKeys(d.nodes)
    ensures ApplyDelta(EMPTY, d).1.Committed?
  {
    CommitsExactlyWhen(EMPTY, d);
  }

  lemma CountOfDeletedNodes(t: Tables, d: Delta)
    ensures DeltaCounts(t, d).nodesDeleted == |t.nodes| - |Cleared(t, d).nodes|
  {
    var doomed := DoomedNodes(t.nodes, d);
    assert t.nodes - doomed == t.nodes - t.nodes.Keys * doomed;
    SizeAfterRemoval(t.nodes, t.nodes.Keys * doomed);
  }

  lemma CommitReportsCounts(db: Database, d: Delta)
    requires ApplyDelta(db, d).1.Committed?
    ensures ApplyDelta(db, d).1.counts == DeltaCounts(db.tables, d)
  {
    CommitConcludes(db, d);
    ConcludeCounts(db, d, Reconcile(db.tables, d));
  }

  lemma CommitConcludes(db: Database, d: Delta)
    requires ApplyDelta(db, d).1.Committed?
    ensures ApplyDelta(db, d) == Conclude(db, d, Reconcile(db.tables, d))
  {
  }

  lemma ConcludeCounts(db: Database, d: Delta, reconciled: Result<Tables, Failure>)
    requires Conclude(db, d, reconciled).1.Committed?
    ensures Conclude(db, d, reconciled).1.counts == DeltaCounts(db.tables, d)
  {
  }

  /** The reported deletions are the rows that disappeared before anything was written back. */
  lemma CountsAreRowsDeleted(db: Database, d: Delta)
    requires ApplyDelta(db, d).1.Committed?
    ensures var counts := ApplyDelta(db, d).1.counts;
            && counts.nodesDeleted == |db.tables.nodes| - |Cleared(db.tables, d).nodes|
            && counts.edgesDeleted == |db.tables.edges| - |Cleared(db.tables, d).edges|
            && counts.nodesUpserted == |d.nodes| && counts.edgesUpserted == |d.edges|
  {
    CommitReportsCounts(db, d);
    CountsOfDeletions(db.tables, d);
  }

  lemma EdgesClearedCount(t: Tables, d: Delta)
    ensures |EdgesCleared(t, d).edges|
         == |t.edges| - |StaleEdges(t, d)| - |RequestedEdges(DropEdges(t, StaleEdges(t, d)), d)|
  {
    var t1 := DropEdges(t, StaleEdges(t, d));
    SizeAfterRemoval(t.edges, StaleEdges(t, d));
    SizeAfterRemoval(t1.edges, RequestedEdges(t1, d));
  }

  lemma SizeAfterRemoval<V>(m: map<string, V>, keys: set<string>)
    requires keys <= m.Keys
    ensures |m - keys| == |m| - |keys|
  {
    assert (m - keys).Keys == m.Keys - keys;
    assert m.Keys == (m - keys).Keys + keys;
  }
}
