/** What the upsert loops store: canonical labels, the property writes that count, and the run that wrote a row. */
module GraphRows {
  import opened Wrappers
  import opened Text
  import opened Lists
  import opened GraphStore
  import opened DeltaTheorems
  import opened DeltaContents

  // ------------------------------------------------------------------ labels

  predicate NamesLabel(labels: seq<string>, x: string) { x != "" && exists l :: l in labels && Trim(l) == x }

  lemma {:induction false} NonBlankMeans(labels: seq<string>)
    ensures forall x :: x in NonBlank(labels) <==> NamesLabel(labels, x)
  {
    if labels != [] {
      NonBlankMeans(labels[1..]);
      assert labels == [labels[0]] + labels[1..];
      forall x ensures x in NonBlank(labels) <==> NamesLabel(labels, x) {
        assert NamesLabel(labels, x) <==> NamesLabel(labels[1..], x) || (x != "" && Trim(labels[0]) == x);
      }
    }
  }

  /** Normalised labels are the trimmed non-blank ones, each once, in order. */
  lemma LabelsAreNormal(labels: seq<string>)
    ensures var r := NormalizeLabels(labels);
            Distinct(r) && Sorted(r, StrLe) && forall x :: x in r <==> NamesLabel(labels, x)
  {
    NonBlankMeans(labels);
    UniqueKeepsElements(NonBlank(labels));
    StrLeIsTotalOrder();
    SortSorts(Unique(NonBlank(labels)), StrLe);
    SortPermutes(Unique(NonBlank(labels)), StrLe);
    SortKeepsDistinct(Unique(NonBlank(labels)), StrLe);
  }

  /** Two label lists are stored alike exactly when they name the same labels. */
  lemma LabelsAgreeIff(a: seq<string>, b: seq<string>)
    ensures NormalizeLabels(a) == NormalizeLabels(b) <==> forall x :: NamesLabel(a, x) <==> NamesLabel(b, x)
  {
    LabelsAreNormal(a);
    LabelsAreNormal(b);
    StrLeIsTotalOrder();
    if forall x :: NamesLabel(a, x) <==> NamesLabel(b, x) {
      SortedIsCanonical(NormalizeLabels(a), NormalizeLabels(b), StrLe);
    }
  }

  // ------------------------------------------------------------------ properties

  function Value(p: Properties, name: string): Option<string> { if name in p then Some(p[name]) else None }

  function NodeValue(t: Tables, key: string, name: string): Option<string> {
    if key in t.nodes then Value(t.nodes[key].properties, name) else None
  }

  function EdgeValue(t: Tables, key: string, name: string): Option<string> {
    if key in t.edges then Value(t.edges[key].properties, name) else None
  }

  /** Whether an entry decides a property of a node: by naming it, or by replacing all of them. */
  predicate DecidesNode(n: NodeInput, key: string, name: string) {
    NodeKey(n) == key && (n.propertyMode == "replace" || name in n.properties)
  }

  predicate DecidesEdge(e: EdgeInput, key: string, name: string) {
    EdgeKey(e) == key && (e.propertyMode == "replace" || name in e.properties)
  }

  lemma NodeValueAfter(t: Tables, n: NodeInput, run: Option<string>, key: string, name: string)
    ensures NodeValue(PutNode(t, n, run), key, name)
         == if DecidesNode(n, key, name) then Value(n.properties, name) else NodeValue(t, key, name)
  {
  }

  lemma EdgeValueAfter(t: Tables, e: EdgeInput, run: Option<string>, key: string, name: string)
    requires PutEdge(t, e, run).Ok?
    ensures EdgeValue(PutEdge(t, e, run).value, key, name)
         == if DecidesEdge(e, key, name) then Value(e.properties, name) else EdgeValue(t, key, name)
  {
  }

  /** A node property that no entry decides stays as it was. */
  lemma {:induction false} UndecidedNodeValue(
    t: Tables, ns: seq<NodeInput>, run: Option<string>, key: string, name: string)
    requires forall n :: n in ns ==> !DecidesNode(n, key, name)
    ensures NodeValue(PutNodes(t, ns, run), key, name) == NodeValue(t, key, name)
  {
    if ns != [] {
      UndecidedNodeValue(t, ns[..|ns| - 1], run, key, name);
      NodeValueAfter(PutNodes(t, ns[..|ns| - 1], run), ns[|ns| - 1], run, key, name);
    }
  }

  /** The last entry that decides a node property gives its value. */
  lemma {:induction false} LastEntryDecidesNode(
    t: Tables, ns: seq<NodeInput>, run: Option<string>, key: string, name: string, i: nat)
    requires i < |ns| && DecidesNode(ns[i], key, name)
    requires forall j :: i < j < |ns| ==> !DecidesNode(ns[j], key, name)
    ensures NodeValue(PutNodes(t, ns, run), key, name) == Value(ns[i].properties, name)
  {
    NodeValueAfter(PutNodes(t, ns[..|ns| - 1], run), ns[|ns| - 1], run, key, name);
    if i < |ns| - 1 { LastEntryDecidesNode(t, ns[..|ns| - 1], run, key, name, i); }
  }

  lemma {:induction false} UndecidedEdgeValue(
    t: Tables, es: seq<EdgeInput>, run: Option<string>, key: string, name: string)
    requires PutEdges(t, es, run).Ok? && forall e :: e in es ==> !DecidesEdge(e, key, name)
    ensures EdgeValue(PutEdges(t, es, run).value, key, name) == EdgeValue(t, key, name)
  {
    if es != [] {
      UndecidedEdgeValue(t, es[..|es| - 1], run, key, name);
      EdgeValueAfter(PutEdges(t, es[..|es| - 1], run).value, es[|es| - 1], run, key, name);
    }
  }

  lemma {:induction false} LastEntryDecidesEdge(
    t: Tables, es: seq<EdgeInput>, run: Option<string>, key: string, name: string, i: nat)
    requires PutEdges(t, es, run).Ok? && i < |es| && DecidesEdge(es[i], key, name)
    requires forall j :: i < j < |es| ==> !DecidesEdge(es[j], key, name)
    ensures EdgeValue(PutEdges(t, es, run).value, key, name) == Value(es[i].properties, name)
  {
    EdgeValueAfter(PutEdges(t, es[..|es| - 1], run).value, es[|es| - 1], run, key, name);
    if i < |es| - 1 { LastEntryDecidesEdge(t, es[..|es| - 1], run, key, name, i); }
  }

  // ------------------------------------------------------------------ the run that wrote a row

  lemma {:induction false} NodesCarryTheirRun(t: Tables, ns: seq<NodeInput>, run: string, key: string)
    requires key in NodeKeys(ns)
    ensures key in PutNodes(t, ns, Some(run)).nodes && PutNodes(t, ns, Some(run)).nodes[key].runId == Some(run)
  {
    NodeKeysSnoc(ns);
    if key != NodeKey(ns[|ns| - 1]) { NodesCarryTheirRun(t, ns[..|ns| - 1], run, key); }
  }

  lemma {:induction false} EdgesCarryTheirRun(t: Tables, es: seq<EdgeInput>, run: string, key: string)
    requires key in EdgeKeys(es) && PutEdges(t, es, Some(run)).Ok?
    ensures key in PutEdges(t, es, Some(run)).value.edges
         && PutEdges(t, es, Some(run)).value.edges[key].runId == Some(run)
  {
    EdgeKeysSnoc(es);
    if key != EdgeKey(es[|es| - 1]) { EdgesCarryTheirRun(t, es[..|es| - 1], run, key); }
  }

  /** Every row a committed delta lists is marked with that commit's run, and no row of another repository is. */
  lemma CommitMarksItsRows(db: Database, d: Delta, id: string)
    requires Commits(db, d)
    ensures var run := Some(RunIdOf(RepositoryOf(d), Trim(d.headSha))); var after := After(db, d);
            && (id in NodeKeys(d.nodes) ==> id in after.nodes && after.nodes[id].runId == run)
            && (id in EdgeKeys(d.edges) ==> id in after.edges && after.edges[id].runId == run)
            && (!Owns(RepositoryOf(d), id) ==>
                  (id in after.nodes ==> id in db.tables.nodes && after.nodes[id].runId == db.tables.nodes[id].runId)
                  && (id in after.edges ==>
                        id in db.tables.edges && after.edges[id].runId == db.tables.edges[id].runId))
  {
    var run := RunIdOf(RepositoryOf(d), Trim(d.headSha));
    CommitPhases(db, d);
    if id in NodeKeys(d.nodes) { NodesCarryTheirRun(Cleared(db.tables, d), d.nodes, run, id); }
    if id in EdgeKeys(d.edges) {
      EdgesCarryTheirRun(PutNodes(Cleared(db.tables, d), d.nodes, Some(run)), d.edges, run, id);
    }
    if !Owns(RepositoryOf(d), id) { DeltaIsLocal(db, d, id); }
  }
}
