/** The search for prerequisite cycles that publication validation runs from every concept. */
module CycleSearch {
  import opened Digraph
  import opened DepthFirst
  import opened Lists

  /** The same edges, with an entry for every id in play. */
  ghost function Total(next: Successors, ids: set<string>): Successors {
    map id | id in ids :: Next(next, id)
  }

  ghost predicate Covers(ids: set<string>, next: Successors) {
    && next.Keys <= ids
    && (forall v, w :: w in Next(next, v) ==> w in ids)
  }

  lemma TotalHasTheSameEdges(next: Successors, ids: set<string>)
    requires Covers(ids, next)
    ensures forall v :: Next(Total(next, ids), v) == Next(next, v)
    ensures forall p :: IsPath(Total(next, ids), p) <==> IsPath(next, p)
    ensures forall c :: IsCycle(Total(next, ids), c) <==> IsCycle(next, c)
    ensures forall r, v :: Reaches(Total(next, ids), r, v) <==> Reaches(next, r, v)
  {
    var g := Total(next, ids);
    assert forall v :: Next(g, v) == Next(next, v);
    forall p ensures IsPath(g, p) <==> IsPath(next, p) {}
    forall r, v ensures Reaches(g, r, v) <==> Reaches(next, r, v) {
      if Reaches(g, r, v) {
        var p :| PathFrom(g, p, r, v);
        assert PathFrom(next, p, r, v);
      }
      if Reaches(next, r, v) {
        var p :| PathFrom(next, p, r, v);
        assert PathFrom(g, p, r, v);
      }
    }
  }

  class Search {
    const next: Successors
    ghost const g: Successors
    ghost const roots: set<string>
    var visiting: set<string>
    var visited: set<string>
    var reported: seq<string>
    ghost var order: seq<string>
    ghost var cycles: seq<seq<string>>

    constructor (next: Successors, ghost ids: set<string>, ghost roots: set<string>)
      requires Covers(ids, next) && roots <= ids
      ensures this.next == next && g == Total(next, ids) && this.roots == roots
      ensures Ready() && State() == Progress({}, {}, [], [], []) && reported == []
    {
      this.next, g, this.roots := next, Total(next, ids), roots;
      visiting, visited, reported, order, cycles := {}, {}, [], [], [];
      new;
      TotalHasTheSameEdges(next, ids);
    }

    ghost predicate Ready() {
      && (forall v :: Next(g, v) == Next(next, v))
      && (forall v, w :: w in Next(g, v) ==> w in g)
      && (forall r :: r in roots ==> r in g)
    }

    ghost function State(): Progress
      reads this
    {
      Progress(visiting, visited, order, cycles, [])
    }

    /** Each reported id is where a recorded cycle starts. */
    ghost predicate Reported()
      reads this
    {
      |reported| == |cycles| && forall i :: 0 <= i < |cycles| ==> cycles[i] != [] && cycles[i][0] == reported[i]
    }

    method Visit(id: string, ghost path: seq<string>)
      requires Ready() && Reported() && Consistent(g, roots, State(), path)
      requires if path == [] then id in roots else id in Next(g, path[|path| - 1])
      modifies this
      ensures Reported() && Consistent(g, roots, State(), path)
      ensures Extends(old(State()), State()) && Handled(State(), id)
      decreases g.Keys - visiting - visited, 1
    {
      StepReaches(g, roots, State(), path, id);
      if id in visiting {
        ghost var k :| 0 <= k < |path| && path[k] == id;
        CycleIsRecorded(g, roots, State(), path, id, k);
        reported := reported + [id];
        cycles := cycles + [path[k..] + [id]];
        return;
      }
      if id in visited { return; }
      VisitNew(id, path);
    }

    /** The rest of `visit`, for an id met for the first time. */
    method VisitNew(id: string, ghost path: seq<string>)
      requires Ready() && Reported() && Consistent(g, roots, State(), path) && ReachesFrom(g, roots, id)
      requires if path == [] then id in roots else id in Next(g, path[|path| - 1])
      requires id in g && !State().Seen(id)
      modifies this
      ensures Reported() && Consistent(g, roots, State(), path)
      ensures Extends(old(State()), State()) && Handled(State(), id)
      decreases g.Keys - visiting - visited, 0
    {
      ghost var before := State();
      visiting := visiting + {id};
      assert State() == before.(visiting := before.visiting + {id});
      BranchGrows(g, roots, before, path, id);
      assert id in g.Keys - before.visiting - before.visited;
      VisitAll(Next(next, id), path + [id]);
      ghost var swept := State();
      visiting := visiting - {id};
      visited := visited + {id};
      order := order + [id];
      assert State() == Done(swept, id);
      VisitFinishes(g, roots, before, swept, path, id);
    }

    /** The loop over an id's successors, or over the concepts when the branch is empty. */
    method VisitAll(ids: seq<string>, ghost branch: seq<string>)
      requires Ready() && Reported() && Consistent(g, roots, State(), branch)
      requires forall w :: w in ids ==> if branch == [] then w in roots else w in Next(g, branch[|branch| - 1])
      modifies this
      ensures Reported() && Consistent(g, roots, State(), branch)
      ensures Extends(old(State()), State()) && AllHandled(State(), ids)
      decreases g.Keys - visiting - visited, 2
    {
      for i := 0 to |ids|
        invariant Reported() && Consistent(g, roots, State(), branch)
        invariant Extends(old(State()), State()) && AllHandled(State(), ids[..i])
      {
        ghost var last := State();
        assert ids[i] in ids;
        Visit(ids[i], branch);
        OneMoreHandled(last, State(), ids[..i], ids[i]);
        assert ids[..i + 1] == ids[..i] + [ids[i]];
      }
      assert ids[..|ids|] == ids;
    }
  }

  /**
   Which ids are reported as closing a prerequisite cycle, starting from each root in turn: only ids
   that really lie on one, and some id whenever a cycle can be reached from a root at all.
   */
  method FindCycles(next: Successors, roots: seq<string>, ghost ids: set<string>) returns (reported: seq<string>)
    requires Covers(ids, next) && forall r :: r in roots ==> r in ids
    ensures forall id :: id in reported ==>
              exists c :: IsCycle(next, c) && c[0] == id && ReachesFrom(next, Elements(roots), id)
    ensures reported == [] <==> forall c :: IsCycle(next, c) ==> !ReachesFrom(next, Elements(roots), c[0])
  {
    ghost var starts := Elements(roots);
    var search := new Search(next, ids, starts);
    search.VisitAll(roots, []);
    reported := search.reported;
    assert forall r :: r in starts ==> r in roots;
    SearchMeans(next, ids, starts, search.State(), reported);
  }

  lemma SearchMeans(next: Successors, ids: set<string>, roots: set<string>, s: Progress, reported: seq<string>)
    requires Covers(ids, next) && Consistent(Total(next, ids), roots, s, []) && RootsHandled(s, roots)
    requires |reported| == |s.cycles|
    requires forall i :: 0 <= i < |s.cycles| ==> s.cycles[i] != [] && s.cycles[i][0] == reported[i]
    ensures forall id :: id in reported ==> exists c :: IsCycle(next, c) && c[0] == id && ReachesFrom(next, roots, id)
    ensures reported == [] <==> forall c :: IsCycle(next, c) ==> !ReachesFrom(next, roots, c[0])
  {
    var g := Total(next, ids);
    TotalHasTheSameEdges(next, ids);
    assert forall v :: ReachesFrom(g, roots, v) <==> ReachesFrom(next, roots, v);
    SearchIsComplete(g, roots, s);
    forall id | id in reported
      ensures exists c :: IsCycle(next, c) && c[0] == id && ReachesFrom(next, roots, id)
    {
      var i :| 0 <= i < |reported| && reported[i] == id;
      assert s.cycles[i] in s.cycles;
      assert IsCycle(next, s.cycles[i]) && s.cycles[i][0] == id;
    }
    assert reported == [] <==> s.cycles == [];
  }
}
