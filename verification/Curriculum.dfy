/** The depth-first walk that turns a goal concept into a learning path of its prerequisites. */
module Curriculum {
  import opened Text
  import opened DepthFirst
  import opened Digraph
  import opened Lists

  datatype Concept = Concept(id: string, title: string, objective: string, prerequisites: seq<string>)

  datatype Report = Report(
    goal: string, order: seq<Concept>, cycles: seq<seq<string>>, missing: seq<string>, valid: bool)

  /** The index by id: a later entry with the same id wins. */
  function ById(nodes: seq<Concept>): (m: map<string, Concept>)
    ensures forall id :: id in m ==> m[id].id == id
  {
    if nodes == [] then map[] else ById(nodes[..|nodes| - 1])[nodes[|nodes| - 1].id := nodes[|nodes| - 1]]
  }

  /** The edges the walk follows: each concept's prerequisites, in sorted order. */
  function PrerequisiteGraph(byId: map<string, Concept>): Successors {
    map id | id in byId :: Sort(byId[id].prerequisites, StrLe)
  }

  function Graph(nodes: seq<Concept>): Successors { PrerequisiteGraph(ById(nodes)) }

  class Walk {
    const byId: map<string, Concept>
    const goal: string
    var visiting: set<string>
    var visited: set<string>
    var order: seq<string>
    var cycles: seq<seq<string>>
    var missing: seq<string>

    constructor (nodes: seq<Concept>, goal: string)
      ensures byId == ById(nodes) && this.goal == goal
      ensures State() == Progress({}, {}, [], [], [])
    {
      byId, this.goal := ById(nodes), goal;
      visiting, visited, order, cycles, missing := {}, {}, [], [], [];
    }

    ghost function State(): Progress
      reads this
    {
      Progress(visiting, visited, order, cycles, missing)
    }

    ghost function G(): Successors { PrerequisiteGraph(byId) }

    method Visit(id: string, path: seq<string>)
      requires Consistent(G(), {goal}, State(), path)
      requires if path == [] then id == goal else id in Next(G(), path[|path| - 1])
      modifies this
      ensures Consistent(G(), {goal}, State(), path)
      ensures Extends(old(State()), State())
      ensures Handled(State(), id)
      ensures id in byId && !old(State()).Seen(id) ==> order != [] && order[|order| - 1] == id
      decreases byId.Keys - visiting - visited, 1
    {
      ghost var g := PrerequisiteGraph(byId);
      StepReaches(g, {goal}, State(), path, id);
      if id in visiting {
        var k := IndexOf(path, id);
        CycleIsRecorded(g, {goal}, State(), path, id, k);
        cycles := cycles + [path[k..] + [id]];
        return;
      }
      if id in visited { return; }
      if id !in byId {
        MissingIsRecorded(g, {goal}, State(), path, id);
        missing := missing + [id];
        return;
      }
      VisitPrerequisites(id, path);
    }

    /** The rest of `visit`, for a node met for the first time. */
    method VisitPrerequisites(id: string, path: seq<string>)
      requires Consistent(G(), {goal}, State(), path) && ReachesFrom(G(), {goal}, id)
      requires if path == [] then id == goal else id in Next(G(), path[|path| - 1])
      requires id in byId && !State().Seen(id)
      modifies this
      ensures Consistent(G(), {goal}, State(), path)
      ensures Extends(old(State()), State())
      ensures id in visited && order != [] && order[|order| - 1] == id
      decreases byId.Keys - visiting - visited, 0
    {
      ghost var g, before := PrerequisiteGraph(byId), State();
      visiting := visiting + {id};
      assert State() == before.(visiting := before.visiting + {id});
      BranchGrows(g, {goal}, before, path, id);
      assert id in byId.Keys - before.visiting - before.visited;
      VisitAll(Sort(byId[id].prerequisites, StrLe), path + [id]);
      ghost var swept := State();
      visiting := visiting - {id};
      visited := visited + {id};
      order := order + [id];
      assert State() == Done(swept, id);
      VisitFinishes(g, {goal}, before, swept, path, id);
    }

    /** The loop over a node's prerequisites. */
    method VisitAll(ids: seq<string>, branch: seq<string>)
      requires Consistent(G(), {goal}, State(), branch) && branch != []
      requires forall w :: w in ids ==> w in Next(G(), branch[|branch| - 1])
      modifies this
      ensures Consistent(G(), {goal}, State(), branch)
      ensures Extends(old(State()), State())
      ensures AllHandled(State(), ids)
      decreases byId.Keys - visiting - visited, 2
    {
      for i := 0 to |ids|
        invariant Consistent(G(), {goal}, State(), branch)
        invariant Extends(old(State()), State())
        invariant AllHandled(State(), ids[..i])
      {
        ghost var last := State();
        assert ids[i] in ids;
        Visit(ids[i], branch);
        OneMoreHandled(last, State(), ids[..i], ids[i]);
        assert ids[..i + 1] == ids[..i] + [ids[i]];
      }
      assert ids[..|ids|] == ids;
    }
  }

  method IndexOf(path: seq<string>, id: string) returns (k: nat)
    requires id in path
    ensures k < |path| && path[k] == id && id !in path[..k]
  {
    k := 0;
    while path[k] != id
      invariant k < |path| && id !in path[..k] && id in path[k..]
      decreases |path| - k
    {
      k := k + 1;
    }
  }

  /** The concepts an order of ids stands for. */
  function Entries(byId: map<string, Concept>, ids: seq<string>): (order: seq<Concept>)
    requires forall i :: 0 <= i < |ids| ==> ids[i] in byId
    requires forall id :: id in byId ==> byId[id].id == id
    ensures |order| == |ids| && Ids(order) == ids
    ensures forall i :: 0 <= i < |order| ==> order[i] == byId[ids[i]] && order[i].id == ids[i]
  {
    var order := seq(|ids|, i requires 0 <= i < |ids| && ids[i] in byId => byId[ids[i]]);
    assert Ids(order) == ids;
    order
  }

  function Ids(order: seq<Concept>): seq<string> { seq(|order|, i requires 0 <= i < |order| => order[i].id) }

  /** `[...new Set(ids)].sort()`. */
  lemma SortedSet(ids: seq<string>)
    ensures var r := Sort(Unique(ids), StrLe);
            Distinct(r) && Sorted(r, StrLe) && (forall x :: x in r <==> x in ids) && (r == [] <==> ids == [])
  {
    UniqueKeepsElements(ids);
    SortPermutes(Unique(ids), StrLe);
    SortKeepsDistinct(Unique(ids), StrLe);
    StrLeIsTotalOrder();
    SortSorts(Unique(ids), StrLe);
    assert ids == [] || ids[0] in Unique(ids);
  }

  lemma PrerequisitesComeFirst(byId: map<string, Concept>, s: Progress)
    requires Finished(PrerequisiteGraph(byId), s) && s.cycles == [] && s.missing == []
    ensures forall i, p :: 0 <= i < |s.order| && s.order[i] in byId && p in byId[s.order[i]].prerequisites ==>
              p in s.order[..i]
  {
    assert s.Missing() == {};
    forall i, p | 0 <= i < |s.order| && s.order[i] in byId && p in byId[s.order[i]].prerequisites
      ensures p in s.order[..i]
    {
      SortPermutes(byId[s.order[i]].prerequisites, StrLe);
      assert p in Next(PrerequisiteGraph(byId), s.order[i]);
      assert p in s.order[..i] || p in s.Missing();
    }
  }

  /** The visit from the goal, and what it collected. */
  method Search(goal: string, nodes: seq<Concept>)
    returns (ids: seq<string>, cycles: seq<seq<string>>, missing: seq<string>)
    ensures Distinct(ids)
    ensures forall id :: id in ids <==> id in ById(nodes) && Reaches(Graph(nodes), goal, id)
    ensures forall id :: id in missing <==> id !in ById(nodes) && Reaches(Graph(nodes), goal, id)
    ensures forall c :: c in cycles ==> IsCycle(Graph(nodes), c) && Reaches(Graph(nodes), goal, c[0])
    ensures cycles == [] <==> forall c :: IsCycle(Graph(nodes), c) ==> !Reaches(Graph(nodes), goal, c[0])
    ensures goal in ById(nodes) ==> ids != [] && ids[|ids| - 1] == goal
    ensures cycles == [] && missing == [] ==>
              forall i, p :: 0 <= i < |ids| && ids[i] in ById(nodes) && p in ById(nodes)[ids[i]].prerequisites ==>
                p in ids[..i]
  {
    var walk := new Walk(nodes, goal);
    assert !walk.State().Seen(goal);
    walk.Visit(goal, []);
    ghost var s := walk.State();
    assert forall id :: ReachesFrom(Graph(nodes), {goal}, id) <==> Reaches(Graph(nodes), goal, id);
    SearchIsComplete(Graph(nodes), {goal}, s);
    if s.cycles == [] && s.missing == [] {
      PrerequisitesComeFirst(ById(nodes), s);
    }
    return walk.order, walk.cycles, walk.missing;
  }

  /**
   The learning path of a goal. `order` is the part of the prerequisite closure that has nodes, without
   repetition and with the goal last; `missing` is the rest; `cycles` is empty exactly when no cycle can
   be reached; and in a valid report every concept comes after all of its prerequisites.
   */
  method LearningPath(goal: string, nodes: seq<Concept>) returns (r: Report)
    ensures r.goal == goal && (r.valid <==> r.cycles == [] && r.missing == [])
    ensures Distinct(r.missing) && Sorted(r.missing, StrLe)
    ensures forall id :: id in r.missing <==> id !in ById(nodes) && Reaches(Graph(nodes), goal, id)
    ensures forall c :: c in r.cycles ==> IsCycle(Graph(nodes), c) && Reaches(Graph(nodes), goal, c[0])
    ensures r.cycles == [] <==> forall c :: IsCycle(Graph(nodes), c) ==> !Reaches(Graph(nodes), goal, c[0])
    ensures Distinct(Ids(r.order))
    ensures forall i :: 0 <= i < |r.order| ==> r.order[i].id in ById(nodes) && r.order[i] == ById(nodes)[r.order[i].id]
    ensures forall id :: id in Ids(r.order) <==> id in ById(nodes) && Reaches(Graph(nodes), goal, id)
    ensures goal in ById(nodes) ==> r.order != [] && r.order[|r.order| - 1].id == goal
    ensures r.valid ==> forall i, p :: 0 <= i < |r.order| && p in r.order[i].prerequisites ==> p in Ids(r.order)[..i]
  {
    var byId := ById(nodes);
    var ids, cycles, missing := Search(goal, nodes);
    assert forall i :: 0 <= i < |ids| ==> ids[i] in ids;
    var order := Entries(byId, ids);
    SortedSet(missing);
    r := Report(goal, order, cycles, Sort(Unique(missing), StrLe), cycles == [] && missing == []);
  }
}
