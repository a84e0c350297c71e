/**
 Contents of a repository's subgraph after a delta: a rebuild produces exactly what its payload says,
 whatever was stored before, and so does an incremental delta that carries the difference.

 Contents are a node's type, labels and properties and an edge's endpoints, type and properties.
 Surrogate ids and run ids are not contents.
 */
module DeltaContents {
  import opened Wrappers
  import opened Text
  import opened GraphStore
  import opened DeltaTheorems

  function LastNode(ns: seq<NodeInput>, key: string): NodeInput
    requires key in NodeKeys(ns)
  {
    if NodeKey(ns[|ns| - 1]) == key then ns[|ns| - 1]
    else
      assert key in NodeKeys(ns[..|ns| - 1]) by { NodeKeysSnoc(ns); }
      LastNode(ns[..|ns| - 1], key)
  }

  function LastEdge(es: seq<EdgeInput>, key: string): (e: EdgeInput)
    requires key in EdgeKeys(es)
    ensures e in es && EdgeKey(e) == key
  {
    if EdgeKey(es[|es| - 1]) == key then es[|es| - 1]
    else
      assert key in EdgeKeys(es[..|es| - 1]) by { EdgeKeysSnoc(es); }
      LastEdge(es[..|es| - 1], key)
  }

  datatype NodeContent = NodeContent(nodeType: Option<string>, labels: seq<string>, properties: Properties)

  datatype EdgeContent = EdgeContent(from: string, to: string, relationshipType: string, properties: Properties)

  function NodeWanted(n: NodeInput): NodeContent {
    NodeContent(NodeType(n), NormalizeLabels(n.labels), n.properties)
  }

  function NodeStored(row: NodeRow): NodeContent { NodeContent(row.nodeType, row.labels, row.properties) }

  function EdgeWanted(e: EdgeInput): EdgeContent {
    EdgeContent(FromKey(e), ToKey(e), Trim(e.relationshipType), e.properties)
  }

  /** An edge row holds the given contents: its surrogate ids are those of the named nodes. */
  ghost predicate EdgeHolds(t: Tables, row: EdgeRow, c: EdgeContent) {
    && c.from in t.nodes && t.nodes[c.from].id == row.sourceId
    && c.to in t.nodes && t.nodes[c.to].id == row.targetId
    && c.relationshipType == row.relationshipType && c.properties == row.properties
  }

  /** Every row of a payload replaces properties instead of merging them. */
  predicate ReplacesAll(d: Delta) {
    && (forall n :: n in d.nodes ==> n.propertyMode == "replace")
    && (forall e :: e in d.edges ==> e.propertyMode == "replace")
  }

  /** At one id, the tables hold exactly what a payload lists: nothing else, and the last entry's contents. */
  ghost predicate ListedExactly(t: Tables, d: Delta, id: string) {
    && (id in t.nodes <==> id in NodeKeys(d.nodes))
    && (id in t.edges <==> id in EdgeKeys(d.edges))
  }

  ghost predicate Reaches(t: Tables, d: Delta, id: string) {
    && ListedExactly(t, d, id)
    && (id in t.nodes ==> NodeStored(t.nodes[id]) == NodeWanted(LastNode(d.nodes, id)))
    && (id in t.edges ==> EdgeHolds(t, t.edges[id], EdgeWanted(LastEdge(d.edges, id))))
  }

  lemma {:induction false} PutNodesStoresLast(t: Tables, ns: seq<NodeInput>, run: Option<string>, key: string)
    requires key in NodeKeys(ns)
    requires forall n :: n in ns ==> n.propertyMode == "replace"
    ensures key in PutNodes(t, ns, run).nodes
    ensures NodeStored(PutNodes(t, ns, run).nodes[key]) == NodeWanted(LastNode(ns, key))
  {
    var front, last := ns[..|ns| - 1], ns[|ns| - 1];
    assert last in ns;
    if NodeKey(last) != key {
      NodeKeysSnoc(ns);
      PutNodesStoresLast(t, front, run, key);
    }
  }

  lemma {:induction false} PutEdgesStoresLast(t: Tables, es: seq<EdgeInput>, run: Option<string>, key: string)
    requires key in EdgeKeys(es) && PutEdges(t, es, run).Ok?
    requires forall e :: e in es ==> e.propertyMode == "replace"
    ensures key in PutEdges(t, es, run).value.edges
    ensures EdgeHolds(t, PutEdges(t, es, run).value.edges[key], EdgeWanted(LastEdge(es, key)))
  {
    var front, last := es[..|es| - 1], es[|es| - 1];
    assert last in es;
    PutEdgesFrame(t, front, run);
    if EdgeKey(last) != key {
      EdgeKeysSnoc(es);
      PutEdgesStoresLast(t, front, run, key);
    }
  }

  function After(db: Database, d: Delta): Tables { ApplyDelta(db, d).0.tables }

  ghost predicate Commits(db: Database, d: Delta) { ApplyDelta(db, d).1.Committed? }

  /** A committed delta's tables, seen through its three phases. */
  lemma CommitPhases(db: Database, d: Delta)
    requires Commits(db, d)
    ensures var run, cleared := Some(RunIdOf(RepositoryOf(d), Trim(d.headSha))), Cleared(db.tables, d);
            var written := PutNodes(cleared, d.nodes, run);
            && ValidateDelta(d).None? && !Blocked(db.tables, d)
            && PutEdges(written, d.edges, run) == Ok(After(db, d))
            && After(db, d).nodes == written.nodes
            && written.nodes.Keys == cleared.nodes.Keys + NodeKeys(d.nodes)
            && After(db, d).edges.Keys == cleared.edges.Keys + EdgeKeys(d.edges)
  {
    var run, cleared := Some(RunIdOf(RepositoryOf(d), Trim(d.headSha))), Cleared(db.tables, d);
    PutNodesFrame(cleared, d.nodes, run);
    PutEdgesFrame(PutNodes(cleared, d.nodes, run), d.edges, run);
  }

  lemma PayloadIsStored(db: Database, d: Delta, id: string)
    requires Commits(db, d) && ReplacesAll(d)
    ensures id in NodeKeys(d.nodes) ==>
              id in After(db, d).nodes && NodeStored(After(db, d).nodes[id]) == NodeWanted(LastNode(d.nodes, id))
    ensures id in EdgeKeys(d.edges) ==>
              id in After(db, d).edges
              && EdgeHolds(After(db, d), After(db, d).edges[id], EdgeWanted(LastEdge(d.edges, id)))
  {
    CommitPhases(db, d);
    var run := Some(RunIdOf(RepositoryOf(d), Trim(d.headSha)));
    var written := PutNodes(Cleared(db.tables, d), d.nodes, run);
    if id in NodeKeys(d.nodes) {
      PutNodesStoresLast(Cleared(db.tables, d), d.nodes, run, id);
    }
    if id in EdgeKeys(d.edges) {
      PutEdgesStoresLast(written, d.edges, run, id);
    }
  }

  /** A rebuild leaves exactly the listed ids, and with replaced properties exactly the listed contents. */
  lemma RebuildReachesPayload(db: Database, d: Delta, id: string)
    requires Commits(db, d) && FullRebuild(d) && Owns(RepositoryOf(d), id)
    ensures ListedExactly(After(db, d), d, id)
    ensures ReplacesAll(d) ==> Reaches(After(db, d), d, id)
  {
    CommitPhases(db, d);
    if ReplacesAll(d) {
      PayloadIsStored(db, d, id);
    }
  }

  /** A node or edge of one table, as another table would have to hold it to agree on contents. */
  ghost predicate SameContents(s: Tables, t: Tables, id: string) {
    && (id in s.nodes <==> id in t.nodes)
    && (id in s.nodes ==> NodeStored(s.nodes[id]) == NodeStored(t.nodes[id]))
    && (id in s.edges <==> id in t.edges)
    && (id in s.edges ==> forall c :: EdgeHolds(s, s.edges[id], c) <==> EdgeHolds(t, t.edges[id], c))
  }

  /** The payload determines the contents: two tables that reach it agree. */
  lemma ReachingIsDeterministic(s: Tables, t: Tables, d: Delta, id: string)
    requires Integral(s) && Integral(t) && Reaches(s, d, id) && Reaches(t, d, id)
    ensures SameContents(s, t, id)
  {
  }

  /** A replacing rebuild forgets everything the repository held before. */
  lemma RebuildForgetsThePast(db: Database, other: Database, d: Delta, id: string)
    requires Integral(db.tables) && Integral(other.tables)
    requires Commits(db, d) && Commits(other, d) && FullRebuild(d) && ReplacesAll(d) && Owns(RepositoryOf(d), id)
    ensures SameContents(After(db, d), After(other, d), id)
  {
    RebuildReachesPayload(db, d, id);
    RebuildReachesPayload(other, d, id);
    DeltaKeepsIntegrity(db, d);
    DeltaKeepsIntegrity(other, d);
    ReachingIsDeterministic(After(db, d), After(other, d), d, id);
  }

  // ------------------------------------------------------------------ incremental difference

  /** The deletions of `d` are the stored ids `want` does not list, and its upserts are wanted entries. */
  ghost predicate DifferenceOfNodes(t: Tables, d: Delta, want: Delta) {
    && (forall x :: x in t.nodes && Owns(RepositoryOf(d), x) ==>
          (x in TrimAll(d.deleteNodeIds) <==> x !in NodeKeys(want.nodes)))
    && (forall x :: x in NodeKeys(d.nodes) ==>
          x in NodeKeys(want.nodes) && NodeWanted(LastNode(d.nodes, x)) == NodeWanted(LastNode(want.nodes, x)))
    && (forall x :: x in NodeKeys(want.nodes) && x !in NodeKeys(d.nodes) ==>
          x in t.nodes && NodeStored(t.nodes[x]) == NodeWanted(LastNode(want.nodes, x)))
  }

  ghost predicate DifferenceOfEdges(t: Tables, d: Delta, want: Delta) {
    && (forall x :: x in t.edges && Owns(RepositoryOf(d), x) ==>
          (x in TrimAll(d.deleteEdgeIds) <==> x !in EdgeKeys(want.edges)))
    && (forall x :: x in EdgeKeys(d.edges) ==>
          x in EdgeKeys(want.edges) && EdgeWanted(LastEdge(d.edges, x)) == EdgeWanted(LastEdge(want.edges, x)))
    && (forall x :: x in EdgeKeys(want.edges) && x !in EdgeKeys(d.edges) ==>
          x in t.edges && EdgeHolds(t, t.edges[x], EdgeWanted(LastEdge(want.edges, x))))
  }

  ghost predicate IsDifference(t: Tables, d: Delta, want: Delta) {
    && !FullRebuild(d) && FullRebuild(want) && RepositoryOf(d) == RepositoryOf(want)
    && DifferenceOfNodes(t, d, want) && DifferenceOfEdges(t, d, want)
  }

  /** Both ends of a wanted edge that is already right are kept by the difference. */
  lemma EndpointsSurvive(db: Database, d: Delta, want: Delta, e: EdgeInput)
    requires Commits(db, want) && ValidateDelta(d).None? && IsDifference(db.tables, d, want)
    requires e in want.edges && FromKey(e) in db.tables.nodes && ToKey(e) in db.tables.nodes
    ensures FromKey(e) !in DoomedNodes(db.tables.nodes, d) && ToKey(e) !in DoomedNodes(db.tables.nodes, d)
  {
    CommitsExactlyWhen(db, want);
    OwnedByValidDelta(d);
  }

  lemma NotIncident(t: Tables, doomed: set<string>, x: string)
    requires Integral(t) && x in t.nodes && x !in doomed
    ensures t.nodes[x].id !in IdsOf(t.nodes, doomed)
  {
  }

  lemma IncrementalKeeps(t: Tables, d: Delta, id: string)
    requires !FullRebuild(d) && id in t.edges && id !in TrimAll(d.deleteEdgeIds)
    requires t.edges[id].sourceId !in IdsOf(t.nodes, DoomedNodes(t.nodes, d))
    requires t.edges[id].targetId !in IdsOf(t.nodes, DoomedNodes(t.nodes, d))
    ensures id in Cleared(t, d).edges && Cleared(t, d).edges[id] == t.edges[id]
  {
  }

  /** A wanted edge that is already right is not swept away with a deleted node. */
  lemma UntouchedEdgeSurvives(db: Database, d: Delta, want: Delta, id: string)
    requires Integral(db.tables) && Commits(db, d) && Commits(db, want) && IsDifference(db.tables, d, want)
    requires id in EdgeKeys(want.edges) && id !in EdgeKeys(d.edges) && Owns(RepositoryOf(d), id)
    ensures id in Cleared(db.tables, d).edges
  {
    var t, e, doomed := db.tables, LastEdge(want.edges, id), DoomedNodes(db.tables.nodes, d);
    assert EdgeHolds(t, t.edges[id], EdgeWanted(e));
    EndpointsSurvive(db, d, want, e);
    NotIncident(t, doomed, FromKey(e));
    NotIncident(t, doomed, ToKey(e));
    IncrementalKeeps(t, d, id);
  }

  /** And it still holds what it held: its endpoints keep their surrogate ids. */
  lemma UntouchedEdgeHolds(db: Database, d: Delta, want: Delta, id: string)
    requires Commits(db, d) && Commits(db, want) && IsDifference(db.tables, d, want)
    requires id in EdgeKeys(want.edges) && id !in EdgeKeys(d.edges) && id in Cleared(db.tables, d).edges
    ensures id in After(db, d).edges
    ensures EdgeHolds(After(db, d), After(db, d).edges[id], EdgeWanted(LastEdge(want.edges, id)))
  {
    var t, e := db.tables, LastEdge(want.edges, id);
    var run, cleared := Some(RunIdOf(RepositoryOf(d), Trim(d.headSha))), Cleared(db.tables, d);
    assert EdgeHolds(t, t.edges[id], EdgeWanted(e));
    CommitPhases(db, d);
    EndpointsSurvive(db, d, want, e);
    assert FromKey(e) in cleared.nodes && ToKey(e) in cleared.nodes;
    PutNodesFrame(cleared, d.nodes, run);
    PutEdgesFrame(PutNodes(cleared, d.nodes, run), d.edges, run);
    assert After(db, d).edges[id] == cleared.edges[id] == t.edges[id];
  }

  lemma DifferenceReachesNodes(db: Database, d: Delta, want: Delta, id: string)
    requires Commits(db, d) && IsDifference(db.tables, d, want) && ReplacesAll(d) && Owns(RepositoryOf(d), id)
    ensures id in After(db, d).nodes <==> id in NodeKeys(want.nodes)
    ensures id in After(db, d).nodes ==> NodeStored(After(db, d).nodes[id]) == NodeWanted(LastNode(want.nodes, id))
  {
    var run := Some(RunIdOf(RepositoryOf(d), Trim(d.headSha)));
    CommitPhases(db, d);
    PayloadIsStored(db, d, id);
    PutNodesFrame(Cleared(db.tables, d), d.nodes, run);
  }

  lemma DifferenceReachesEdges(db: Database, d: Delta, want: Delta, id: string)
    requires Integral(db.tables) && Commits(db, d) && Commits(db, want)
    requires IsDifference(db.tables, d, want) && ReplacesAll(d) && Owns(RepositoryOf(d), id)
    ensures id in After(db, d).edges <==> id in EdgeKeys(want.edges)
    ensures id in After(db, d).edges ==>
              EdgeHolds(After(db, d), After(db, d).edges[id], EdgeWanted(LastEdge(want.edges, id)))
  {
    CommitPhases(db, d);
    if id in EdgeKeys(d.edges) {
      PayloadIsStored(db, d, id);
    } else if id in EdgeKeys(want.edges) {
      UntouchedEdgeSurvives(db, d, want, id);
      UntouchedEdgeHolds(db, d, want, id);
    }
  }

  lemma DifferenceDeletesTheSameRows(t: Tables, d: Delta, want: Delta)
    requires ValidateDelta(d).None? && IsDifference(t, d, want)
    ensures t.nodes.Keys * DoomedNodes(t.nodes, d) == DoomedNodes(t.nodes, want)
    ensures IdsOf(t.nodes, DoomedNodes(t.nodes, d)) == IdsOf(t.nodes, DoomedNodes(t.nodes, want))
    ensures FinalNodes(t, d) == FinalNodes(t, want)
  {
    OwnedByValidDelta(d);
    assert t.nodes.Keys * DoomedNodes(t.nodes, d) == DoomedNodes(t.nodes, want);
  }

  lemma DifferenceIsNotBlocked(t: Tables, d: Delta, want: Delta)
    requires ValidateDelta(d).None? && ValidateDelta(want).None? && IsDifference(t, d, want) && !Blocked(t, want)
    ensures !Blocked(t, d)
  {
    DifferenceDeletesTheSameRows(t, d, want);
    forall x | x in IncidentEdges(EdgesCleared(t, d), DoomedNodes(t.nodes, d)) ensures Owns(RepositoryOf(d), x) {
      if !Owns(RepositoryOf(d), x) { ForeignIncidentEdge(t, d, want, x); }
    }
  }

  lemma ForeignIncidentEdge(t: Tables, d: Delta, want: Delta, x: string)
    requires ValidateDelta(want).None? && RepositoryOf(d) == RepositoryOf(want) && !Owns(RepositoryOf(d), x)
    requires IdsOf(t.nodes, DoomedNodes(t.nodes, d)) == IdsOf(t.nodes, DoomedNodes(t.nodes, want))
    requires x in IncidentEdges(EdgesCleared(t, d), DoomedNodes(t.nodes, d))
    ensures x in IncidentEdges(EdgesCleared(t, want), DoomedNodes(t.nodes, want))
  {
    OwnedByValidDelta(want);
    assert x in EdgesCleared(t, want).edges;
  }

  /** Where the rebuild commits, so does its difference, given the checkpoint it was computed from and a new head. */
  lemma DifferenceCommits(db: Database, d: Delta, want: Delta)
    requires Commits(db, want) && ValidateDelta(d).None? && IsDifference(db.tables, d, want)
    requires forall e :: e in d.edges ==> e in want.edges
    requires HeadOf(db, RepositoryOf(d)) == Some(Trim(d.baseSha)) && Trim(d.baseSha) != Trim(d.headSha)
    requires RunIdOf(RepositoryOf(d), Trim(d.headSha)) !in db.runs
    ensures Commits(db, d)
  {
    CommitsExactlyWhen(db, d);
    CommitsExactlyWhen(db, want);
    DifferenceDeletesTheSameRows(db.tables, d, want);
    DifferenceIsNotBlocked(db.tables, d, want);
  }

  /** Sending the difference reaches the state a full rebuild would have reached. */
  lemma DifferenceEqualsRebuild(db: Database, d: Delta, want: Delta, id: string)
    requires Integral(db.tables) && Commits(db, d) && Commits(db, want)
    requires IsDifference(db.tables, d, want) && ReplacesAll(d) && ReplacesAll(want) && Owns(RepositoryOf(d), id)
    ensures SameContents(After(db, d), After(db, want), id)
  {
    DifferenceReachesNodes(db, d, want, id);
    DifferenceReachesEdges(db, d, want, id);
    assert Reaches(After(db, d), want, id);
    RebuildReachesPayload(db, want, id);
    DeltaKeepsIntegrity(db, d);
    DeltaKeepsIntegrity(db, want);
    ReachingIsDeterministic(After(db, d), After(db, want), want, id);
  }
}
