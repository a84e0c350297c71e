/** The bounded breadth-first walk around a concept. */
module BoundedWalk {
  import opened Wrappers
  import opened Lists
  import opened Keyed
  import opened ResearchGraph

  datatype WalkError = ConceptNotFound | InvalidBounds

  datatype Neighbourhood = Neighbourhood(concepts: seq<Concept>, relations: seq<Relation>, truncated: bool)

  predicate Touches(r: Relation, id: string) { r.from == id || r.to == id }

  function OtherEnd(r: Relation, id: string): string { if r.from == id then r.to else r.from }

  /** Two ids joined by a relation, in either direction. */
  predicate Linked(g: Graph, x: string, y: string) {
    exists r :: r in g.relations && Touches(r, x) && OtherEnd(r, x) == y
  }

  /** The ids one relation away from some id of a set. */
  function Around(g: Graph, ids: set<string>): set<string> {
    set r, x | r in g.relations && x in ids && Touches(r, x) :: OtherEnd(r, x)
  }

  lemma LinkedIsAround(g: Graph, ids: set<string>, x: string, y: string)
    requires x in ids && Linked(g, x, y)
    ensures y in Around(g, ids)
  {
  }

  /** The ids within `k` undirected hops of the start. */
  function Ball(g: Graph, start: string, k: nat): set<string> {
    if k == 0 then {start} else Ball(g, start, k - 1) + Around(g, Ball(g, start, k - 1))
  }

  lemma {:induction false} BallsAreNested(g: Graph, start: string, j: nat, k: nat)
    requires j <= k
    ensures Ball(g, start, j) <= Ball(g, start, k)
    decreases k - j
  {
    if j < k {
      BallsAreNested(g, start, j + 1, k);
    }
  }

  lemma NeighboursAreLinked(g: Graph, id: string, relations: seq<Relation>, ids: seq<string>)
    requires forall r :: r in relations <==> r in g.relations && Touches(r, id)
    requires |ids| == |relations| && forall i :: 0 <= i < |ids| ==> ids[i] == OtherEnd(relations[i], id)
    ensures forall y :: y in ids <==> Linked(g, id, y)
  {
    forall y ensures y in ids <==> Linked(g, id, y) {
      if y in ids {
        var i :| 0 <= i < |ids| && ids[i] == y;
        assert relations[i] in relations;
      }
      if Linked(g, id, y) {
        var r :| r in g.relations && Touches(r, id) && OtherEnd(r, id) == y;
        var i :| 0 <= i < |relations| && relations[i] == r;
        assert ids[i] == y;
      }
    }
  }

  /** The other ends of the relations touching an id, in relation order. */
  function NeighboursOf(g: Graph, id: string): (ids: seq<string>)
    ensures forall y :: y in ids <==> Linked(g, id, y)
  {
    var touching := Filter(g.relations, (r: Relation) => Touches(r, id));
    var relations := Sort(touching, ById(RelationId));
    FilterMeans(g.relations, (r: Relation) => Touches(r, id));
    SortPermutes(touching, ById(RelationId));
    var ids := seq(|relations|, i requires 0 <= i < |relations| => OtherEnd(relations[i], id));
    NeighboursAreLinked(g, id, relations, ids);
    ids
  }

  /** The inner loop: the unseen neighbours of one id, in relation order, while there is room. */
  method Expand(g: Graph, id: string, before: set<string>, limit: nat) returns (seen: set<string>, added: seq<string>)
    requires |before| <= limit
    ensures before <= seen && |before| <= |seen| <= limit
    ensures forall y :: y in seen <==> y in before || y in added
    ensures forall y :: y in added ==> Linked(g, id, y)
    ensures |seen| < limit ==> forall y :: Linked(g, id, y) ==> y in seen
  {
    seen, added := before, [];
    var others := NeighboursOf(g, id);
    for i := 0 to |others|
      invariant before <= seen && |before| <= |seen| <= limit
      invariant forall y :: y in seen <==> y in before || y in added
      invariant forall y :: y in added ==> y in others
      invariant |seen| < limit ==> forall j :: 0 <= j < i ==> others[j] in seen
    {
      if others[i] !in seen && |seen| < limit {
        seen := seen + {others[i]};
        added := added + [others[i]];
      }
    }
  }

  /**
   The walk fills level after level: at every moment it holds a whole ball and part of the next one.
   `seen` is the set of ids it reached.
   */
  method Walk(g: Graph, start: string, depth: int, limit: int)
    returns (r: Result<Neighbourhood, WalkError>, ghost seen: set<string>)
    ensures r == Err(ConceptNotFound) <==> start !in ConceptIds(g)
    ensures r == Err(InvalidBounds) <==> start in ConceptIds(g) && !(0 <= depth <= 4 && 1 <= limit <= 100)
    ensures r.Ok? ==>
              && start in seen && |seen| <= limit && seen <= Ball(g, start, depth)
              && (forall k: nat :: Ball(g, start, k) <= seen || seen <= Ball(g, start, k))
              && (!r.value.truncated ==> seen == Ball(g, start, depth))
              && (r.value.truncated <==> |seen| == limit)
              && (r.value.truncated <==> |Ball(g, start, depth)| >= limit)
              && r.value.concepts == Filter(g.concepts, (c: Concept) => c.id in seen)
              && r.value.relations == Filter(g.relations, (e: Relation) => e.from in seen && e.to in seen)
  {
    seen := {};
    if start !in ConceptIds(g) { return Err(ConceptNotFound), seen; }
    if depth < 0 || depth > 4 || limit < 1 || limit > 100 { return Err(InvalidBounds), seen; }
    var found, frontier, d := {start}, [start], 0;
    while d < depth && |found| < limit
      invariant 0 <= d <= depth && start in found && |found| <= limit
      invariant Between(g, start, d, found)
      invariant |found| < limit ==> AtBall(g, start, d, found, frontier)
      decreases depth - d
    {
      ghost var ball, edge := found, frontier;
      found, frontier := Level(g, found, frontier, limit);
      NextLevel(g, start, d, ball, edge, found, frontier);
      d := d + 1;
    }
    seen := found;
    Nested(g, start, d, seen);
    BallsAreNested(g, start, d, depth);
    if |found| < limit {
      assert d == depth;
    } else {
      SubsetSize(found, Ball(g, start, depth));
    }
    r := Ok(Neighbourhood(Filter(g.concepts, (c: Concept) => c.id in found),
                          Filter(g.relations, (e: Relation) => e.from in found && e.to in found), |found| == limit));
  }

  /** One level: every frontier id is expanded in turn. */
  method Level(g: Graph, ball: set<string>, frontier: seq<string>, limit: nat)
    returns (found: set<string>, next: seq<string>)
    requires |ball| <= limit && forall x :: x in frontier ==> x in ball
    ensures |found| <= limit && forall y :: y in found <==> y in ball || y in next
    ensures forall y :: y in next ==> y in Around(g, ball)
    ensures |found| < limit ==> forall x, y :: x in frontier && Linked(g, x, y) ==> y in found
  {
    found, next := ball, [];
    for i := 0 to |frontier|
      invariant |found| <= limit && forall y :: y in found <==> y in ball || y in next
      invariant forall y :: y in next ==> y in Around(g, ball)
      invariant |found| < limit ==> forall j, y :: 0 <= j < i && Linked(g, frontier[j], y) ==> y in found
    {
      assert frontier[i] in ball;
      var added;
      found, added := Expand(g, frontier[i], found, limit);
      forall y | y in added ensures y in Around(g, ball) {
        LinkedIsAround(g, ball, frontier[i], y);
      }
      next := next + added;
    }
  }

  /** Between the balls of two consecutive radii. */
  ghost predicate Between(g: Graph, start: string, d: nat, found: set<string>) {
    found <= Ball(g, start, d) && (d > 0 ==> Ball(g, start, d - 1) <= found)
  }

  /** Exactly a ball, whose ids outside the frontier have no neighbours left to add. */
  ghost predicate AtBall(g: Graph, start: string, d: nat, found: set<string>, frontier: seq<string>) {
    && found == Ball(g, start, d)
    && (forall x :: x in frontier ==> x in found)
    && (forall x, y :: x in found && x !in frontier && Linked(g, x, y) ==> y in found)
  }

  lemma NextLevel(
    g: Graph, start: string, d: nat, ball: set<string>, frontier: seq<string>, found: set<string>, next: seq<string>)
    requires AtBall(g, start, d, ball, frontier)
    requires forall y :: y in found <==> y in ball || y in next
    requires forall y :: y in next ==> y in Around(g, ball)
    ensures Between(g, start, d + 1, found)
    ensures (forall x, y :: x in frontier && Linked(g, x, y) ==> y in found) ==> AtBall(g, start, d + 1, found, next)
  {
    assert Ball(g, start, d + 1) == ball + Around(g, ball);
    if forall x, y :: x in frontier && Linked(g, x, y) ==> y in found {
      forall y | y in Around(g, ball) ensures y in found {
        var r, x :| r in g.relations && x in ball && Touches(r, x) && OtherEnd(r, x) == y;
        assert Linked(g, x, y);
      }
      forall x, y | x in found && x !in next && Linked(g, x, y) ensures y in found {
        LinkedIsAround(g, ball, x, y);
      }
    }
  }

  lemma Squeezed(a: set<string>, inner: set<string>, seen: set<string>, outer: set<string>)
    requires inner <= seen <= outer && (a <= inner || outer <= a)
    ensures a <= seen || seen <= a
  {
  }

  lemma ComparableWithBall(g: Graph, start: string, d: nat, seen: set<string>, k: nat)
    requires Between(g, start, d, seen)
    ensures Ball(g, start, k) <= seen || seen <= Ball(g, start, k)
  {
    var inner := if d > 0 then Ball(g, start, d - 1) else {};
    if k < d {
      BallsAreNested(g, start, k, d - 1);
    } else {
      BallsAreNested(g, start, d, k);
    }
    Squeezed(Ball(g, start, k), inner, seen, Ball(g, start, d));
  }

  /** A set between two consecutive balls is comparable with every ball. */
  lemma Nested(g: Graph, start: string, d: nat, seen: set<string>)
    requires Between(g, start, d, seen)
    ensures forall k: nat :: Ball(g, start, k) <= seen || seen <= Ball(g, start, k)
  {
    forall k: nat ensures Ball(g, start, k) <= seen || seen <= Ball(g, start, k) {
      ComparableWithBall(g, start, d, seen, k);
    }
  }

  lemma SubsetSize(a: set<string>, b: set<string>)
    requires a <= b
    ensures |a| <= |b|
  {
    assert b == a + (b - a);
  }
}
