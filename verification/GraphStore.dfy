/**
 The native graph tables of one scope and source, the row operations every write path shares,
 and the repository delta written as functions from table contents to table contents.

 Rows are keyed by external id. A node row also carries the surrogate id that edges point at, so
 deleting and re-creating a node is different from updating it.
 */
module GraphStore {
  import opened Wrappers
  import opened Text
  import Lists

  // A JSON object, as its top-level fields.
  type Properties = map<string, string>

  datatype NodeInput = NodeInput(
    externalId: string, nodeType: string, labels: seq<string>, properties: Properties, propertyMode: string)

  datatype EdgeInput = EdgeInput(
    externalId: string, fromExternalId: string, toExternalId: string, relationshipType: string,
    properties: Properties, propertyMode: string)

  datatype NodeRow = NodeRow(
    id: nat, runId: Option<string>, nodeType: Option<string>, labels: seq<string>, properties: Properties)

  datatype EdgeRow = EdgeRow(
    runId: Option<string>, sourceId: nat, targetId: nat, relationshipType: string, properties: Properties)

  datatype Tables = Tables(nodes: map<string, NodeRow>, edges: map<string, EdgeRow>, nextId: nat)

  datatype RunRow = RunRow(nodesUpserted: nat, edgesUpserted: nat)

  datatype Checkpoint = Checkpoint(headSha: string, schemaVersion: string)

  // A repository: its corpus id and its repository id.
  type Repository = (string, string)

  datatype Database = Database(
    tables: Tables, runs: map<string, RunRow>, checkpoints: map<Repository, Checkpoint>)

  datatype Delta = Delta(
    corpusId: string, repositoryId: string, baseSha: string, headSha: string, schemaVersion: string, mode: string,
    nodes: seq<NodeInput>, edges: seq<EdgeInput>, deleteNodeIds: seq<string>, deleteEdgeIds: seq<string>)

  datatype Failure =
    | InvalidNode | InvalidEdge | RunIdRequired
    | InvalidCorpus | InvalidRepository | HeadRequired | SchemaRequired | InvalidMode | BaseRequired
    | ScopeEscape | InvalidPropertyMode
    | StaleBase(current: Option<string>) | CrossRepositoryEdge | EdgeNodeMissing(from: string, to: string)
    | RunExists

  datatype Counts = Counts(nodesUpserted: nat, edgesUpserted: nat, nodesDeleted: nat, edgesDeleted: nat)

  const NO_COUNTS := Counts(0, 0, 0, 0)

  datatype Outcome =
    | Rejected(failure: Failure)
    | Replayed(checkpoint: Checkpoint, counts: Counts)
    | Committed(checkpoint: Checkpoint, counts: Counts)

  const EMPTY := Database(Tables(map[], map[], 0), map[], map[])

  // ------------------------------------------------------------------ normalised inputs

  function NodeKey(n: NodeInput): string { Trim(n.externalId) }

  function FromKey(e: EdgeInput): string { Trim(e.fromExternalId) }

  function ToKey(e: EdgeInput): string { Trim(e.toExternalId) }

  function EdgeKey(e: EdgeInput): string {
    if Trim(e.externalId) != "" then Trim(e.externalId)
    else FromKey(e) + "|" + Trim(e.relationshipType) + "|" + ToKey(e)
  }

  function NodeKeys(ns: seq<NodeInput>): set<string> { set n | n in ns :: NodeKey(n) }

  function EdgeKeys(es: seq<EdgeInput>): set<string> { set e | e in es :: EdgeKey(e) }

  function TrimAll(ids: seq<string>): set<string> { set x | x in ids :: Trim(x) }

  function NonBlank(labels: seq<string>): seq<string> {
    if labels == [] then []
    else (if Trim(labels[0]) == "" then [] else [Trim(labels[0])]) + NonBlank(labels[1..])
  }

  function NormalizeLabels(labels: seq<string>): seq<string> {
    Lists.Sort(Lists.Unique(NonBlank(labels)), StrLe)
  }

  function NodeType(n: NodeInput): Option<string> {
    var labels := NormalizeLabels(n.labels);
    if Trim(n.nodeType) != "" then Some(Trim(n.nodeType))
    else if labels != [] then Some(labels[0])
    else None
  }

  function NodeFailure(n: NodeInput): Option<Failure> {
    if NodeKey(n) == "" then Some(InvalidNode) else None
  }

  function EdgeFailure(e: EdgeInput): Option<Failure> {
    if FromKey(e) == "" || ToKey(e) == "" || Trim(e.relationshipType) == "" then Some(InvalidEdge) else None
  }

  function FirstNodeFailure(ns: seq<NodeInput>): Option<Failure> {
    if ns == [] then None
    else if NodeFailure(ns[0]).Some? then NodeFailure(ns[0])
    else FirstNodeFailure(ns[1..])
  }

  function FirstEdgeFailure(es: seq<EdgeInput>): Option<Failure> {
    if es == [] then None
    else if EdgeFailure(es[0]).Some? then EdgeFailure(es[0])
    else FirstEdgeFailure(es[1..])
  }

  // ------------------------------------------------------------------ row operations

  function Overlay(mode: string, before: Properties, given: Properties): Properties {
    if mode == "replace" then given else before + given
  }

  function Latest(given: Option<string>, before: Option<string>): Option<string> {
    if given.Some? then given else before
  }

  /** The insert-or-update of one node: a row that exists keeps its surrogate id. */
  function PutNode(t: Tables, n: NodeInput, runId: Option<string>): Tables {
    var key := NodeKey(n);
    if key in t.nodes then
      var row := t.nodes[key];
      t.(nodes := t.nodes[key := NodeRow(row.id, Latest(runId, row.runId), NodeType(n), NormalizeLabels(n.labels),
                                         Overlay(n.propertyMode, row.properties, n.properties))])
    else
      t.(nodes := t.nodes[key := NodeRow(t.nextId, runId, NodeType(n), NormalizeLabels(n.labels), n.properties)],
         nextId := t.nextId + 1)
  }

  function PutNodes(t: Tables, ns: seq<NodeInput>, runId: Option<string>): Tables {
    if ns == [] then t else PutNode(PutNodes(t, ns[..|ns| - 1], runId), ns[|ns| - 1], runId)
  }

  /** The insert-or-update of one edge: both endpoints must be nodes already. */
  function PutEdge(t: Tables, e: EdgeInput, runId: Option<string>): Result<Tables, Failure> {
    if FromKey(e) !in t.nodes || ToKey(e) !in t.nodes then Err(EdgeNodeMissing(FromKey(e), ToKey(e)))
    else
      var key, source, target := EdgeKey(e), t.nodes[FromKey(e)].id, t.nodes[ToKey(e)].id;
      if key in t.edges then
        var row := t.edges[key];
        Ok(t.(edges := t.edges[key := EdgeRow(Latest(runId, row.runId), source, target, Trim(e.relationshipType),
                                              Overlay(e.propertyMode, row.properties, e.properties))]))
      else
        Ok(t.(edges := t.edges[key := EdgeRow(runId, source, target, Trim(e.relationshipType), e.properties)]))
  }

  function PutEdges(t: Tables, es: seq<EdgeInput>, runId: Option<string>): Result<Tables, Failure> {
    if es == [] then Ok(t)
    else
      var before := PutEdges(t, es[..|es| - 1], runId);
      if before.Err? then before else PutEdge(before.value, es[|es| - 1], runId)
  }

  function RunKey(runId: string): Option<string> {
    if Trim(runId) == "" then None else Some(Trim(runId))
  }

  // ------------------------------------------------------------------ bulk writes and imports

  function UpsertNodes(db: Database, ns: seq<NodeInput>, runId: string): Result<Database, Failure> {
    match FirstNodeFailure(ns)
    case Some(failure) => Err(failure)
    case None => Ok(db.(tables := PutNodes(db.tables, ns, RunKey(runId))))
  }

  function UpsertEdges(db: Database, es: seq<EdgeInput>, runId: string): Result<Database, Failure> {
    match FirstEdgeFailure(es)
    case Some(failure) => Err(failure)
    case None =>
      match PutEdges(db.tables, es, RunKey(runId))
      case Ok(tables) => Ok(db.(tables := tables))
      case Err(failure) => Err(failure)
  }

  /** A generic import writes its run row whether or not that run id was used before. */
  function Import(db: Database, ns: seq<NodeInput>, es: seq<EdgeInput>, runId: string): Result<Database, Failure> {
    if Trim(runId) == "" then Err(RunIdRequired)
    else if FirstNodeFailure(ns).Some? then Err(FirstNodeFailure(ns).value)
    else if FirstEdgeFailure(es).Some? then Err(FirstEdgeFailure(es).value)
    else match PutEdges(PutNodes(db.tables, ns, RunKey(runId)), es, RunKey(runId))
      case Ok(tables) => Ok(db.(tables := tables, runs := db.runs[Trim(runId) := RunRow(|ns|, |es|)]))
      case Err(failure) => Err(failure)
  }

  // ------------------------------------------------------------------ repository deltas

  predicate RepositoryIdOk(s: string) {
    s != "" && forall c :: c in s ==> 'A' <= c <= 'Z' || 'a' <= c <= 'z' || '0' <= c <= '9' || c in "._/-"
  }

  function Prefix(repo: Repository): string { repo.0 + ":" + repo.1 + ":" }

  /** Whether an external id belongs to a repository. */
  predicate Owns(repo: Repository, id: string) { Prefix(repo) <= id }

  function RepositoryOf(d: Delta): Repository { (Trim(d.corpusId), Trim(d.repositoryId)) }

  function RunIdOf(repo: Repository, head: string): string {
    "repository-delta:" + repo.0 + ":" + repo.1 + ":" + head
  }

  predicate FullRebuild(d: Delta) { d.mode == "full_rebuild" }

  predicate PropertyModeOk(mode: string) { mode == "" || mode == "merge" || mode == "replace" }

  function FirstDeltaNodeFailure(ns: seq<NodeInput>): Option<Failure> {
    if ns == [] then None
    else if NodeFailure(ns[0]).Some? then NodeFailure(ns[0])
    else if !PropertyModeOk(ns[0].propertyMode) then Some(InvalidPropertyMode)
    else FirstDeltaNodeFailure(ns[1..])
  }

  function FirstDeltaEdgeFailure(es: seq<EdgeInput>): Option<Failure> {
    if es == [] then None
    else if EdgeFailure(es[0]).Some? then EdgeFailure(es[0])
    else if !PropertyModeOk(es[0].propertyMode) then Some(InvalidPropertyMode)
    else FirstDeltaEdgeFailure(es[1..])
  }

  predicate EdgeIdsOwned(repo: Repository, es: seq<EdgeInput>) { forall e :: e in es ==> Owns(repo, EdgeKey(e)) }

  predicate EndpointsInCorpus(prefix: string, es: seq<EdgeInput>) {
    forall e :: e in es ==> prefix <= FromKey(e) && prefix <= ToKey(e)
  }

  function HeaderFailure(repo: Repository, head: string, schemaVersion: string, mode: string, base: string)
    : Option<Failure>
  {
    if !RepositoryIdOk(repo.0) then Some(InvalidCorpus)
    else if !RepositoryIdOk(repo.1) then Some(InvalidRepository)
    else if head == "" then Some(HeadRequired)
    else if schemaVersion == "" then Some(SchemaRequired)
    else if mode != "incremental" && mode != "full_rebuild" then Some(InvalidMode)
    else if mode == "incremental" && base == "" then Some(BaseRequired)
    else None
  }

  predicate NodeIdsOwned(repo: Repository, ns: seq<NodeInput>) { forall n :: n in ns ==> Owns(repo, NodeKey(n)) }

  predicate IdsOwned(repo: Repository, ids: seq<string>) { forall x :: x in ids ==> Owns(repo, Trim(x)) }

  function ValidateDelta(d: Delta): Option<Failure> {
    var repo := RepositoryOf(d);
    var header := HeaderFailure(repo, Trim(d.headSha), Trim(d.schemaVersion), d.mode, Trim(d.baseSha));
    if header.Some? then header
    else if !NodeIdsOwned(repo, d.nodes) || !EdgeIdsOwned(repo, d.edges) then Some(ScopeEscape)
    else if !IdsOwned(repo, d.deleteNodeIds) || !IdsOwned(repo, d.deleteEdgeIds) then Some(ScopeEscape)
    else if !EndpointsInCorpus(repo.0 + ":", d.edges) then Some(ScopeEscape)
    else if FirstDeltaNodeFailure(d.nodes).Some? then FirstDeltaNodeFailure(d.nodes)
    else FirstDeltaEdgeFailure(d.edges)
  }

  function AllIds(nodes: map<string, NodeRow>): set<nat> { set x | x in nodes :: nodes[x].id }

  function IdsOf(nodes: map<string, NodeRow>, keys: set<string>): set<nat> {
    set x | x in nodes && x in keys :: nodes[x].id
  }

  function DropEdges(t: Tables, keys: set<string>): Tables { t.(edges := t.edges - keys) }

  /** Edges a full rebuild no longer wants. */
  function StaleEdges(t: Tables, d: Delta): set<string> {
    if FullRebuild(d) then set x | x in t.edges && Owns(RepositoryOf(d), x) && x !in EdgeKeys(d.edges) else {}
  }

  function RequestedEdges(t: Tables, d: Delta): set<string> {
    set x | x in t.edges && x in TrimAll(d.deleteEdgeIds)
  }

  function DoomedNodes(nodes: map<string, NodeRow>, d: Delta): set<string> {
    if FullRebuild(d) then set x | x in nodes && Owns(RepositoryOf(d), x) && x !in NodeKeys(d.nodes)
    else TrimAll(d.deleteNodeIds)
  }

  /** The join of an edge with its two endpoint rows, one of which is to be deleted. */
  function IncidentEdges(t: Tables, doomed: set<string>): set<string> {
    set x | x in t.edges && t.edges[x].sourceId in AllIds(t.nodes) && t.edges[x].targetId in AllIds(t.nodes)
            && (t.edges[x].sourceId in IdsOf(t.nodes, doomed) || t.edges[x].targetId in IdsOf(t.nodes, doomed))
  }

  /** The tables after both explicit edge deletions. */
  function EdgesCleared(t: Tables, d: Delta): Tables {
    var t1 := DropEdges(t, StaleEdges(t, d));
    DropEdges(t1, RequestedEdges(t1, d))
  }

  predicate Blocked(t: Tables, d: Delta) {
    exists x :: x in IncidentEdges(EdgesCleared(t, d), DoomedNodes(t.nodes, d)) && !Owns(RepositoryOf(d), x)
  }

  /** The tables after every deletion of the delta. */
  function Cleared(t: Tables, d: Delta): Tables {
    var t2 := EdgesCleared(t, d);
    var t3 := DropEdges(t2, IncidentEdges(t2, DoomedNodes(t.nodes, d)));
    t3.(nodes := t3.nodes - DoomedNodes(t.nodes, d))
  }

  function Reconcile(t: Tables, d: Delta): Result<Tables, Failure> {
    if Blocked(t, d) then Err(CrossRepositoryEdge)
    else
      var run := Some(RunIdOf(RepositoryOf(d), Trim(d.headSha)));
      PutEdges(PutNodes(Cleared(t, d), d.nodes, run), d.edges, run)
  }

  function DeltaCounts(t: Tables, d: Delta): Counts {
    var t1 := DropEdges(t, StaleEdges(t, d));
    var t2 := EdgesCleared(t, d);
    Counts(|d.nodes|, |d.edges|, |t.nodes.Keys * DoomedNodes(t.nodes, d)|,
           |StaleEdges(t, d)| + |RequestedEdges(t1, d)| + |IncidentEdges(t2, DoomedNodes(t.nodes, d))|)
  }

  function HeadOf(db: Database, repo: Repository): Option<string> {
    if repo in db.checkpoints then Some(db.checkpoints[repo].headSha) else None
  }

  /** The reconciled tables, the audit row and the checkpoint, stored together. */
  function CommitTables(db: Database, d: Delta, tables: Tables): (Database, Outcome) {
    var repo, head := RepositoryOf(d), Trim(d.headSha);
    var checkpoint := Checkpoint(head, Trim(d.schemaVersion));
    (Database(tables, db.runs[RunIdOf(repo, head) := RunRow(|d.nodes|, |d.edges|)], db.checkpoints[repo := checkpoint]),
     Committed(checkpoint, DeltaCounts(db.tables, d)))
  }

  /** The plain insert of the audit row is the last thing that can fail. */
  function Conclude(db: Database, d: Delta, reconciled: Result<Tables, Failure>): (Database, Outcome) {
    match reconciled
    case Err(failure) => (db, Rejected(failure))
    case Ok(tables) =>
      if RunIdOf(RepositoryOf(d), Trim(d.headSha)) in db.runs then (db, Rejected(RunExists))
      else CommitTables(db, d, tables)
  }

  function ApplyDelta(db: Database, d: Delta): (Database, Outcome) {
    var repo, head := RepositoryOf(d), Trim(d.headSha);
    if ValidateDelta(d).Some? then (db, Rejected(ValidateDelta(d).value))
    else if HeadOf(db, repo) == Some(head) then (db, Replayed(db.checkpoints[repo], NO_COUNTS))
    else if !FullRebuild(d) && HeadOf(db, repo) != Some(Trim(d.baseSha))
    then (db, Rejected(StaleBase(HeadOf(db, repo))))
    else Conclude(db, d, Reconcile(db.tables, d))
  }
}
