/** Edges that reach from one repository into another of the same corpus. */
module ForeignEdges {
  import opened Wrappers
  import opened Text
  import opened GraphStore
  import opened DeltaTheorems
  import opened DeltaContents

  /** A node is an end of an edge. */
  predicate IsEnd(t: Tables, edge: string, node: string) {
    && edge in t.edges && node in t.nodes
    && (t.edges[edge].sourceId == t.nodes[node].id || t.edges[edge].targetId == t.nodes[node].id)
  }

  lemma ForeignEdgeBlocks(t: Tables, d: Delta, edge: string, node: string)
    requires Integral(t) && ValidateDelta(d).None? && IsEnd(t, edge, node) && !Owns(RepositoryOf(d), edge)
    requires node in DoomedNodes(t.nodes, d)
    ensures Blocked(t, d)
  {
    ForeignEdgeStaysUncleared(t, d, edge);
    assert t.nodes[node].id in IdsOf(t.nodes, DoomedNodes(t.nodes, d));
    assert edge in IncidentEdges(EdgesCleared(t, d), DoomedNodes(t.nodes, d));
  }

  lemma ForeignEdgeStaysUncleared(t: Tables, d: Delta, edge: string)
    requires ValidateDelta(d).None? && edge in t.edges && !Owns(RepositoryOf(d), edge)
    ensures edge in EdgesCleared(t, d).edges && EdgesCleared(t, d).edges[edge] == t.edges[edge]
    ensures EdgesCleared(t, d).nodes == t.nodes
  {
    OwnedByValidDelta(d);
  }

  /** No delta deletes or re-creates a node at which an edge of another repository ends; the edge still ends there. */
  lemma ForeignEdgeKeepsItsEnds(db: Database, d: Delta, edge: string, node: string)
    requires Integral(db.tables) && IsEnd(db.tables, edge, node) && !Owns(RepositoryOf(d), edge)
    ensures var after := ApplyDelta(db, d).0.tables;
            && IsEnd(after, edge, node)
            && after.nodes[node].id == db.tables.nodes[node].id && after.edges[edge] == db.tables.edges[edge]
  {
    DeltaIsLocal(db, d, edge);
    if ApplyDelta(db, d).1.Committed? {
      CommitPhases(db, d);
      if node in DoomedNodes(db.tables.nodes, d) { ForeignEdgeBlocks(db.tables, d, edge, node); }
      KeptNodeKeepsItsId(db, d, node);
    }
  }

  lemma KeptNodeKeepsItsId(db: Database, d: Delta, node: string)
    requires Commits(db, d) && node in db.tables.nodes && node !in DoomedNodes(db.tables.nodes, d)
    ensures node in After(db, d).nodes && After(db, d).nodes[node].id == db.tables.nodes[node].id
  {
    CommitPhases(db, d);
    ClearedIsLocal(db.tables, d);
    PutNodesFrame(Cleared(db.tables, d), d.nodes, Some(RunIdOf(RepositoryOf(d), Trim(d.headSha))));
  }

  // ------------------------------------------------------------------ what validation asks of endpoints

  predicate EdgeEntryOk(e: EdgeInput) { EdgeFailure(e).None? && PropertyModeOk(e.propertyMode) }

  lemma {:induction false} OneEntryChanged(es: seq<EdgeInput>, i: nat, e: EdgeInput)
    requires i < |es| && FirstDeltaEdgeFailure(es).None?
    ensures EdgeEntryOk(es[i])
    ensures EdgeEntryOk(e) ==> FirstDeltaEdgeFailure(es[i := e]).None?
  {
    if i == 0 {
      assert es[i := e][1..] == es[1..];
    } else {
      assert es[i := e][1..] == es[1..][i - 1 := e];
      OneEntryChanged(es[1..], i - 1, e);
    }
  }

  lemma OwnIdIsAllThatMatters(repo: Repository, es: seq<EdgeInput>, i: nat, e: EdgeInput)
    requires i < |es| && EdgeIdsOwned(repo, es) && EdgeKey(e) == EdgeKey(es[i])
    ensures EdgeIdsOwned(repo, es[i := e])
  {
    assert es[i] in es;
    forall x | x in es[i := e] ensures x == e || x in es { }
  }

  lemma EndpointsChanged(prefix: string, es: seq<EdgeInput>, i: nat, e: EdgeInput)
    requires i < |es| && EndpointsInCorpus(prefix, es)
    ensures EndpointsInCorpus(prefix, es[i := e]) <==> prefix <= FromKey(e) && prefix <= ToKey(e)
  {
    assert es[i := e][i] == e;
    forall x | x in es[i := e] ensures x == e || x in es { }
  }

  /** What validation asks of the edges, apart from everything else. */
  lemma EdgesValidatedApart(d: Delta)
    ensures ValidateDelta(d).None? <==>
            && ValidateDelta(d.(edges := [])).None?
            && EdgeIdsOwned(RepositoryOf(d), d.edges) && EndpointsInCorpus(RepositoryOf(d).0 + ":", d.edges)
            && FirstDeltaEdgeFailure(d.edges).None?
  {
  }

  /** The delta with one edge led to another node. */
  function Redirected(d: Delta, i: nat, end: string): Delta
    requires i < |d.edges|
  {
    d.(edges := d.edges[i := d.edges[i].(toExternalId := end)])
  }

  /**
   An edge with an id of its own may be led to any node without making the delta invalid, exactly as long as that
   node belongs to the corpus: the endpoint may belong to another repository.
   */
  lemma EndpointsNeedOnlyTheCorpus(d: Delta, i: nat, end: string)
    requires ValidateDelta(d).None? && i < |d.edges| && Trim(d.edges[i].externalId) != ""
    ensures ValidateDelta(Redirected(d, i, end)).None? <==> RepositoryOf(d).0 + ":" <= Trim(end)
  {
    var edge := d.edges[i].(toExternalId := end);
    assert d.edges[i] in d.edges && EdgeKey(edge) == EdgeKey(d.edges[i]) && FromKey(edge) == FromKey(d.edges[i]);
    OneEntryChanged(d.edges, i, edge);
    OwnIdIsAllThatMatters(RepositoryOf(d), d.edges, i, edge);
    EndpointsChanged(RepositoryOf(d).0 + ":", d.edges, i, edge);
    EdgesValidatedApart(d);
    EdgesValidatedApart(Redirected(d, i, end));
    assert Redirected(d, i, end).(edges := []) == d.(edges := []);
  }
}
