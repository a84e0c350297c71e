/** Paths, reachability and cycles in a directed graph given by successor lists. */
module Digraph {
  import opened Lists

  type Successors = map<string, seq<string>>

  function Next(g: Successors, id: string): seq<string> {
    if id in g then g[id] else []
  }

  ghost predicate IsPath(g: Successors, p: seq<string>) {
    p != [] && forall i :: 0 <= i < |p| - 1 ==> p[i + 1] in Next(g, p[i])
  }

  ghost predicate PathFrom(g: Successors, p: seq<string>, a: string, b: string) {
    IsPath(g, p) && p[0] == a && p[|p| - 1] == b
  }

  ghost predicate Reaches(g: Successors, a: string, b: string) {
    exists p :: PathFrom(g, p, a, b)
  }

  /** A closed path of at least one step. */
  ghost predicate IsCycle(g: Successors, c: seq<string>) {
    |c| >= 2 && IsPath(g, c) && c[0] == c[|c| - 1]
  }

  lemma ReachesItself(g: Successors, a: string)
    ensures Reaches(g, a, a)
  {
    assert PathFrom(g, [a], a, a);
  }

  lemma ReachesOneMore(g: Successors, a: string, b: string, c: string)
    requires Reaches(g, a, b) && c in Next(g, b)
    ensures Reaches(g, a, c)
  {
    var p :| PathFrom(g, p, a, b);
    assert PathFrom(g, p + [c], a, c);
  }

  /** A set holding the start and every successor of its members holds everything reachable. */
  lemma {:induction false} ClosedUnderReach(g: Successors, s: set<string>, p: seq<string>)
    requires IsPath(g, p) && p[0] in s
    requires forall v, w :: v in s && w in Next(g, v) ==> w in s
    ensures p[|p| - 1] in s
  {
    if |p| > 1 {
      var q := p[..|p| - 1];
      assert IsPath(g, q);
      ClosedUnderReach(g, s, q);
      assert p[|p| - 2 + 1] in Next(g, p[|p| - 2]);
    }
  }

  /** Every successor of a listed id is listed before it, or is one of `leaves`. */
  ghost predicate SuccessorsFirst(g: Successors, order: seq<string>, leaves: set<string>) {
    forall i, w :: 0 <= i < |order| && w in Next(g, order[i]) ==> w in order[..i] || w in leaves
  }

  /** Walking from a listed id only ever goes to earlier positions. */
  lemma {:induction false} PathDescends(g: Successors, order: seq<string>, leaves: set<string>, p: seq<string>, i: nat)
    requires SuccessorsFirst(g, order, leaves) && (forall w :: w in leaves ==> Next(g, w) == [])
    requires IsPath(g, p) && |p| >= 2 && i < |order| && p[0] == order[i]
    ensures p[|p| - 1] in order[..i] || p[|p| - 1] in leaves
  {
    assert p[0 + 1] in Next(g, p[0]);
    assert |p| > 2 ==> p[1 + 1] in Next(g, p[1]);
    if |p| > 2 && p[1] !in leaves {
      var j :| 0 <= j < i && order[j] == p[1];
      var q := p[1..];
      forall k | 0 <= k < |q| - 1 ensures q[k + 1] in Next(g, q[k]) {
        assert p[(k + 1) + 1] in Next(g, p[k + 1]);
      }
      PathDescends(g, order, leaves, q, j);
    }
  }

  /** No cycle passes through an id that is listed after all its successors. */
  lemma OrderExcludesCycles(g: Successors, order: seq<string>, leaves: set<string>, c: seq<string>)
    requires Distinct(order) && SuccessorsFirst(g, order, leaves) && (forall w :: w in leaves ==> Next(g, w) == [])
    requires c != [] && c[0] in order
    ensures !IsCycle(g, c)
  {
    var i :| 0 <= i < |order| && order[i] == c[0];
    assert IsCycle(g, c) ==> c[0 + 1] in Next(g, c[0]);
    if IsCycle(g, c) {
      PathDescends(g, order, leaves, c, i);
    }
  }

  /** The loop closed by stepping from the end of a path back onto one of its ids. */
  lemma LoopOnPath(g: Successors, path: seq<string>, k: nat, id: string)
    requires IsPath(g, path) && k < |path| && path[k] == id && id in Next(g, path[|path| - 1])
    ensures IsCycle(g, path[k..] + [id])
  {
    var c := path[k..] + [id];
    forall i | 0 <= i < |c| - 1 ensures c[i + 1] in Next(g, c[i]) {
      if i < |c| - 2 {
        assert path[k + i + 1] in Next(g, path[k + i]);
      }
    }
  }
}
