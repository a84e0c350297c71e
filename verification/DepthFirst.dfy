/**
 Depth-first search with a branch of ids being visited, as two parts of the program run it: what the
 state of such a search means at every moment, and what it has established when it is done.
 */
module DepthFirst {
  import opened Digraph
  import opened Lists

  ghost predicate ReachesFrom(g: Successors, roots: set<string>, id: string) {
    exists r :: r in roots && Reaches(g, r, id)
  }

  datatype Progress = Progress(
    visiting: set<string>, visited: set<string>, order: seq<string>, cycles: seq<seq<string>>, missing: seq<string>)
  {
    function Missing(): set<string> { set x | x in missing }

    predicate Seen(id: string) { id in visited || id in visiting || id in missing }
  }

  /** The current branch: distinct ids, linked by edges, from a root down. */
  ghost predicate Branch(g: Successors, roots: set<string>, s: Progress, path: seq<string>) {
    && Distinct(path)
    && (forall x :: x in s.visiting <==> x in path)
    && (path != [] ==> IsPath(g, path) && path[0] in roots)
  }

  ghost predicate OnlyReachable(g: Successors, roots: set<string>, s: Progress) {
    && (forall v :: v in s.visited || v in s.visiting ==> v in g && ReachesFrom(g, roots, v))
    && (forall v :: v in s.missing ==> v !in g && ReachesFrom(g, roots, v))
    && (forall c :: c in s.cycles ==> IsCycle(g, c) && ReachesFrom(g, roots, c[0]))
  }

  ghost predicate Finished(g: Successors, s: Progress) {
    && Distinct(s.order)
    && (forall x :: x in s.visited <==> x in s.order)
    && s.visited !! s.visiting
    && (forall v, w :: v in s.visited && w in Next(g, v) ==> s.Seen(w))
    && (s.cycles == [] ==> SuccessorsFirst(g, s.order, s.Missing()))
  }

  ghost predicate Consistent(g: Successors, roots: set<string>, s: Progress, path: seq<string>) {
    Branch(g, roots, s, path) && OnlyReachable(g, roots, s) && Finished(g, s)
  }

  /** What one call of `visit` may do to the progress. */
  ghost predicate Extends(s: Progress, t: Progress) {
    && t.visiting == s.visiting && s.visited <= t.visited
    && (forall x :: x in s.missing ==> x in t.missing)
    && (t.cycles == [] ==> s.cycles == [])
  }

  /** After a visit the id is accounted for; with no cycle reported it is finished or missing. */
  ghost predicate Handled(t: Progress, id: string) {
    t.Seen(id) && (t.cycles == [] ==> id in t.visited || id in t.missing)
  }

  lemma StepReaches(g: Successors, roots: set<string>, s: Progress, path: seq<string>, id: string)
    requires Consistent(g, roots, s, path)
    requires if path == [] then id in roots else id in Next(g, path[|path| - 1])
    ensures ReachesFrom(g, roots, id)
  {
    if path == [] {
      ReachesItself(g, id);
    } else {
      assert PathFrom(g, path, path[0], path[|path| - 1]);
      ReachesOneMore(g, path[0], path[|path| - 1], id);
    }
  }

  lemma CycleIsRecorded(g: Successors, roots: set<string>, s: Progress, path: seq<string>, id: string, k: nat)
    requires Consistent(g, roots, s, path) && ReachesFrom(g, roots, id)
    requires k < |path| && path[k] == id && id in Next(g, path[|path| - 1])
    ensures Consistent(g, roots, s.(cycles := s.cycles + [path[k..] + [id]]), path)
  {
    var t := s.(cycles := s.cycles + [path[k..] + [id]]);
    LoopOnPath(g, path, k, id);
    assert (path[k..] + [id])[0] == id;
    forall v, w | v in t.visited && w in Next(g, v) ensures t.Seen(w) {
      assert s.Seen(w);
    }
  }

  lemma MissingIsRecorded(g: Successors, roots: set<string>, s: Progress, path: seq<string>, id: string)
    requires Consistent(g, roots, s, path) && ReachesFrom(g, roots, id) && id !in g
    ensures Consistent(g, roots, s.(missing := s.missing + [id]), path)
  {
    var t := s.(missing := s.missing + [id]);
    forall v, w | v in t.visited && w in Next(g, v) ensures t.Seen(w) {
      assert s.Seen(w);
    }
    forall i, w | s.cycles == [] && 0 <= i < |s.order| && w in Next(g, s.order[i])
      ensures w in s.order[..i] || w in t.Missing()
    {
      assert w in s.order[..i] || w in s.Missing();
    }
  }

  lemma BranchGrows(g: Successors, roots: set<string>, s: Progress, path: seq<string>, id: string)
    requires Consistent(g, roots, s, path) && id in g && !s.Seen(id) && ReachesFrom(g, roots, id)
    requires if path == [] then id in roots else id in Next(g, path[|path| - 1])
    ensures Consistent(g, roots, s.(visiting := s.visiting + {id}), path + [id])
  {
    var t := s.(visiting := s.visiting + {id});
    forall v, w | v in t.visited && w in Next(g, v) ensures t.Seen(w) {
      assert s.Seen(w);
    }
  }

  ghost predicate AllHandled(s: Progress, ids: seq<string>) { forall w :: w in ids ==> Handled(s, w) }

  lemma OneMoreHandled(s: Progress, t: Progress, ids: seq<string>, id: string)
    requires Extends(s, t) && AllHandled(s, ids) && Handled(t, id)
    ensures AllHandled(t, ids + [id])
  {
    forall w | w in ids + [id] ensures Handled(t, w) {
      assert w in ids ==> Handled(s, w);
    }
  }

  /** The progress once an id's successors have all been visited. */
  function Done(s: Progress, id: string): Progress {
    s.(visiting := s.visiting - {id}, visited := s.visited + {id}, order := s.order + [id])
  }

  lemma VisitFinishes(g: Successors, roots: set<string>, before: Progress, s: Progress, path: seq<string>, id: string)
    requires Consistent(g, roots, before, path) && id !in before.visiting
    requires Consistent(g, roots, s, path + [id]) && s.visiting == before.visiting + {id}
    requires AllHandled(s, Next(g, id))
    ensures Consistent(g, roots, Done(s, id), path)
    ensures Extends(before.(visiting := before.visiting + {id}), s) ==> Extends(before, Done(s, id))
  {
    var t := Done(s, id);
    forall v, w | v in t.visited && w in Next(g, v) ensures t.Seen(w) {
      assert s.Seen(w);
    }
    forall i, w | s.cycles == [] && 0 <= i < |t.order| && w in Next(g, t.order[i])
      ensures w in t.order[..i] || w in t.Missing()
    {
      if i < |s.order| {
        assert t.order[i] == s.order[i] && t.order[..i] == s.order[..i];
      } else {
        assert t.order[..i] == s.order && Handled(s, w);
      }
    }
  }

  ghost predicate RootsHandled(s: Progress, roots: set<string>) { forall r :: r in roots ==> Handled(s, r) }

  /** Once the search is back at the top, everything reachable has been accounted for. */
  lemma NothingReachableIsLeft(g: Successors, roots: set<string>, s: Progress, id: string)
    requires Consistent(g, roots, s, []) && RootsHandled(s, roots) && ReachesFrom(g, roots, id)
    ensures id in s.visited || id in s.missing
  {
    var r :| r in roots && Reaches(g, r, id);
    var p :| PathFrom(g, p, r, id);
    assert Handled(s, r);
    var all := s.visited + s.Missing();
    forall v, w | v in all && w in Next(g, v) ensures w in all {
      assert v in s.visited;
      assert s.Seen(w);
    }
    ClosedUnderReach(g, all, p);
  }

  /** With no cycle reported, no cycle can be reached from the roots. */
  lemma NoCycleWasMissed(g: Successors, roots: set<string>, s: Progress, c: seq<string>)
    requires Consistent(g, roots, s, []) && RootsHandled(s, roots) && s.cycles == []
    requires IsCycle(g, c)
    ensures !ReachesFrom(g, roots, c[0])
  {
    assert c[0 + 1] in Next(g, c[0]);
    if ReachesFrom(g, roots, c[0]) {
      NothingReachableIsLeft(g, roots, s, c[0]);
      OrderExcludesCycles(g, s.order, s.Missing(), c);
    }
  }

  lemma SearchIsComplete(g: Successors, roots: set<string>, s: Progress)
    requires Consistent(g, roots, s, []) && RootsHandled(s, roots)
    ensures forall id :: id in s.order <==> id in g && ReachesFrom(g, roots, id)
    ensures forall id :: id in s.missing <==> id !in g && ReachesFrom(g, roots, id)
    ensures s.cycles == [] <==> forall c :: IsCycle(g, c) ==> !ReachesFrom(g, roots, c[0])
  {
    forall id | ReachesFrom(g, roots, id) ensures id in s.visited || id in s.missing {
      NothingReachableIsLeft(g, roots, s, id);
    }
    if s.cycles == [] {
      forall c | IsCycle(g, c) ensures !ReachesFrom(g, roots, c[0]) {
        NoCycleWasMissed(g, roots, s, c);
      }
    } else {
      assert IsCycle(g, s.cycles[0]) && ReachesFrom(g, roots, s.cycles[0][0]);
    }
  }
}
