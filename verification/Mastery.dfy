/** What a learner's evidence says about each concept. */
module Mastery {
  import opened Wrappers
  import opened Text
  import opened Lists

  const DAY := 86_400_000

  datatype Kind = Assessment | Recall

  datatype Row = Row(concept: string, kind: Kind, passed: bool, independent: bool, reviewed: bool, createdAt: int)

  datatype State = Developing | Demonstrated | Remembered

  datatype Standing = Standing(concept: string, state: State, dueAt: Option<int>, due: bool, evidenceCount: nat)

  function Last<T>(rows: seq<T>): Option<T> { if rows == [] then None else Some(rows[|rows| - 1]) }

  predicate Earlier(a: Row, b: Row) { a.createdAt <= b.createdAt }

  /** The latest independent assessment, if it is passed and reviewed. */
  function Pass(evidence: seq<Row>): Option<Row> {
    var latest := Last(Filter(evidence, (e: Row) => e.kind == Assessment && e.independent));
    if latest.Some? && latest.value.passed && latest.value.reviewed then latest else None
  }

  /** A recall that counts towards a pass: a day later at least, and not an unreviewed success. */
  predicate CountsAsRecall(e: Row, pass: Row) {
    e.kind == Recall && e.independent && (e.reviewed || !e.passed) && e.createdAt >= pass.createdAt + DAY
  }

  function LatestRecall(evidence: seq<Row>, pass: Option<Row>): Option<Row> {
    if pass.None? then None else Last(Filter(evidence, (e: Row) => CountsAsRecall(e, pass.value)))
  }

  /** The standing of one concept, from its evidence in order of time. */
  function Judge(concept: string, evidence: seq<Row>, now: int): Standing {
    var pass := Pass(evidence);
    var recall := LatestRecall(evidence, pass);
    var recalled := recall.Some? && recall.value.passed;
    var state := if recalled then Remembered else if recall.Some? then Developing
                 else if pass.Some? then Demonstrated else Developing;
    var dueAt := if pass.None? then None
                 else Some((if recall.Some? then recall.value.createdAt else pass.value.createdAt)
                           + (if recalled then 7 else 1) * DAY);
    Standing(concept, state, dueAt, dueAt.Some? && dueAt.value <= now, |evidence|)
  }

  function RowsOf(rows: seq<Row>, concept: string): seq<Row> {
    if rows == [] then []
    else
      var r := rows[|rows| - 1];
      RowsOf(rows[..|rows| - 1], concept) + if r.concept == concept then [r] else []
  }

  function StandingOf(rows: seq<Row>, concept: string, now: int): Standing {
    Judge(concept, Sort(RowsOf(rows, concept), Earlier), now)
  }

  function Concepts(rows: seq<Row>): seq<string> {
    if rows == [] then []
    else
      var front, c := Concepts(rows[..|rows| - 1]), rows[|rows| - 1].concept;
      if c in front then front else front + [c]
  }

  function Standings(rows: seq<Row>, concepts: seq<string>, now: int): seq<Standing> {
    if concepts == [] then []
    else Standings(rows, concepts[..|concepts| - 1], now) + [StandingOf(rows, concepts[|concepts| - 1], now)]
  }

  predicate ByConcept(a: Standing, b: Standing) { StrLe(a.concept, b.concept) }

  function DeriveMastery(rows: seq<Row>, now: int): seq<Standing> {
    Sort(Standings(rows, Concepts(rows), now), ByConcept)
  }

  /** Each concept met so far maps to its rows, in order. */
  ghost predicate Grouped(groups: map<string, seq<Row>>, rows: seq<Row>) {
    && (forall c :: c in groups <==> c in Concepts(rows))
    && (forall c :: c in groups ==> groups[c] == RowsOf(rows, c))
  }

  lemma {:induction false} RowsOfUnmetConcept(rows: seq<Row>, concept: string)
    requires concept !in Concepts(rows)
    ensures RowsOf(rows, concept) == []
  {
    if rows != [] { RowsOfUnmetConcept(rows[..|rows| - 1], concept); }
  }

  lemma RowsOfSnoc(rows: seq<Row>, r: Row, c: string)
    ensures RowsOf(rows + [r], c) == RowsOf(rows, c) + if r.concept == c then [r] else []
  {
    assert (rows + [r])[..|rows|] == rows;
  }

  lemma ConceptsSnoc(rows: seq<Row>, r: Row)
    ensures Concepts(rows + [r]) == if r.concept in Concepts(rows) then Concepts(rows) else Concepts(rows) + [r.concept]
  {
    assert (rows + [r])[..|rows|] == rows;
  }

  lemma GroupedStep(groups: map<string, seq<Row>>, rows: seq<Row>, r: Row)
    requires Grouped(groups, rows)
    ensures Grouped(groups[r.concept := (if r.concept in groups then groups[r.concept] else []) + [r]], rows + [r])
  {
    ConceptsSnoc(rows, r);
    var now := groups[r.concept := (if r.concept in groups then groups[r.concept] else []) + [r]];
    if r.concept !in groups { RowsOfUnmetConcept(rows, r.concept); }
    forall c | c in now ensures now[c] == RowsOf(rows + [r], c) { RowsOfSnoc(rows, r, c); }
  }

  /** The grouping loop: each concept's rows, in order, and the concepts as first met. */
  method Group(rows: seq<Row>) returns (groups: map<string, seq<Row>>, concepts: seq<string>)
    ensures concepts == Concepts(rows)
    ensures forall c :: c in groups <==> c in concepts
    ensures forall c :: c in groups ==> groups[c] == RowsOf(rows, c)
  {
    groups, concepts := map[], [];
    for i := 0 to |rows|
      invariant concepts == Concepts(rows[..i]) && Grouped(groups, rows[..i])
    {
      var c := rows[i].concept;
      GroupedStep(groups, rows[..i], rows[i]);
      ConceptsSnoc(rows[..i], rows[i]);
      assert rows[..i + 1] == rows[..i] + [rows[i]];
      if c !in groups {
        concepts := concepts + [c];
      }
      groups := groups[c := (if c in groups then groups[c] else []) + [rows[i]]];
    }
    assert rows[..|rows|] == rows;
  }

  /** One group, sorted by time and judged. */
  method JudgeGroup(ghost rows: seq<Row>, concept: string, group: seq<Row>, now: int) returns (standing: Standing)
    requires group == RowsOf(rows, concept)
    ensures standing == StandingOf(rows, concept, now)
  {
    standing := Judge(concept, Sort(group, Earlier), now);
  }

  /** The judging loop over the concepts. */
  method JudgeAll(ghost rows: seq<Row>, groups: map<string, seq<Row>>, concepts: seq<string>, now: int)
    returns (r: seq<Standing>)
    requires forall c :: c in concepts ==> c in groups && groups[c] == RowsOf(rows, c)
    ensures |r| == |concepts| && forall k :: 0 <= k < |r| ==> r[k] == StandingOf(rows, concepts[k], now)
  {
    r := [];
    for i := 0 to |concepts|
      invariant |r| == i && forall k :: 0 <= k < i ==> r[k] == StandingOf(rows, concepts[k], now)
    {
      var standing := JudgeGroup(rows, concepts[i], groups[concepts[i]], now);
      r := r + [standing];
    }
  }

  /** Grouping by concept, judging each group, and listing the standings by concept. */
  method Derive(rows: seq<Row>, now: int) returns (r: seq<Standing>)
    ensures r == DeriveMastery(rows, now)
  {
    var groups, concepts := Group(rows);
    r := JudgeAll(rows, groups, concepts, now);
    StandingsAt(rows, concepts, now);
    assert r == Standings(rows, concepts, now);
    r := Sort(r, ByConcept);
  }

  // ------------------------------------------------------------------ independence of the order of rows

  /** Within a concept no two rows were created at the same time. */
  ghost predicate DistinctTimes(rows: seq<Row>) {
    forall i, j :: 0 <= i < j < |rows| && rows[i].concept == rows[j].concept ==> rows[i].createdAt != rows[j].createdAt
  }

  lemma {:induction false} RowsOfMeans(rows: seq<Row>, concept: string)
    ensures forall x :: x in RowsOf(rows, concept) <==> x in rows && x.concept == concept
    ensures forall x :: multiset(RowsOf(rows, concept))[x] == if x.concept == concept then multiset(rows)[x] else 0
  {
    if rows != [] {
      RowsOfMeans(rows[..|rows| - 1], concept);
      assert rows == rows[..|rows| - 1] + [rows[|rows| - 1]];
    }
  }

  lemma {:induction false} ConceptsAreTheirs(rows: seq<Row>)
    ensures Distinct(Concepts(rows))
    ensures forall c :: c in Concepts(rows) <==> exists r :: r in rows && r.concept == c
  {
    if rows != [] {
      var front, last := rows[..|rows| - 1], rows[|rows| - 1];
      ConceptsAreTheirs(front);
      assert forall r :: r in rows <==> r in front || r == last by { assert rows == front + [last]; }
    }
  }

  /** Rows with distinct times sort to the same list from any order. */
  lemma SortedEvidenceIsCanonical(rows: seq<Row>, other: seq<Row>, concept: string)
    requires multiset(rows) == multiset(other) && DistinctTimes(rows)
    ensures Sort(RowsOf(rows, concept), Earlier) == Sort(RowsOf(other, concept), Earlier)
  {
    var a, b := RowsOf(rows, concept), RowsOf(other, concept);
    RowsOfMeans(rows, concept);
    RowsOfMeans(other, concept);
    DistinctTimesMeansOneEach(rows);
    OneEachIsDistinct(a);
    OneEachIsDistinct(b);
    SortKeepsDistinct(a, Earlier);
    SortKeepsDistinct(b, Earlier);
    SortPermutes(a, Earlier);
    SortPermutes(b, Earlier);
    SortSorts(a, Earlier);
    SortSorts(b, Earlier);
    forall x ensures x in Sort(a, Earlier) <==> x in Sort(b, Earlier) { SameMembers(rows, other, x); }
    forall x, y | x in Sort(a, Earlier) && y in Sort(a, Earlier) && Earlier(x, y) && Earlier(y, x) ensures x == y {
      SameTimeIsSameRow(rows, x, y);
    }
    SortedIsCanonical(Sort(a, Earlier), Sort(b, Earlier), Earlier);
  }

  lemma SameMembers<T>(a: seq<T>, b: seq<T>, x: T)
    requires multiset(a) == multiset(b)
    ensures x in a <==> x in b
  {
    assert x in a <==> x in multiset(a);
    assert x in b <==> x in multiset(b);
  }

  lemma SameTimeIsSameRow(rows: seq<Row>, x: Row, y: Row)
    requires DistinctTimes(rows) && x in rows && y in rows && x.concept == y.concept && x.createdAt == y.createdAt
    ensures x == y
  {
    var i :| 0 <= i < |rows| && rows[i] == x;
    var j :| 0 <= j < |rows| && rows[j] == y;
  }

  lemma DistinctTimesMeansOneEach(rows: seq<Row>)
    requires DistinctTimes(rows)
    ensures forall x :: multiset(rows)[x] <= 1
  {
    forall i, j | 0 <= i < j < |rows| ensures rows[i] != rows[j] {
      assert rows[i].concept == rows[j].concept ==> rows[i].createdAt != rows[j].createdAt;
    }
    DistinctIsOneEach(rows);
  }

  lemma {:induction false} AsManyStandings(rows: seq<Row>, concepts: seq<string>, now: int)
    ensures |Standings(rows, concepts, now)| == |concepts|
  {
    if concepts != [] { AsManyStandings(rows, concepts[..|concepts| - 1], now); }
  }

  lemma {:induction false} StandingAt(rows: seq<Row>, concepts: seq<string>, now: int, i: nat)
    requires i < |concepts|
    ensures i < |Standings(rows, concepts, now)|
    ensures Standings(rows, concepts, now)[i] == StandingOf(rows, concepts[i], now)
  {
    AsManyStandings(rows, concepts[..|concepts| - 1], now);
    if i < |concepts| - 1 { StandingAt(rows, concepts[..|concepts| - 1], now, i); }
  }

  lemma StandingsAt(rows: seq<Row>, concepts: seq<string>, now: int)
    ensures |Standings(rows, concepts, now)| == |concepts|
    ensures forall i :: 0 <= i < |concepts| ==> Standings(rows, concepts, now)[i] == StandingOf(rows, concepts[i], now)
  {
    AsManyStandings(rows, concepts, now);
    forall i | 0 <= i < |concepts|
      ensures Standings(rows, concepts, now)[i] == StandingOf(rows, concepts[i], now)
    {
      StandingAt(rows, concepts, now, i);
    }
  }

  lemma StandingsAreByConcept(rows: seq<Row>, concepts: seq<string>, now: int)
    requires Distinct(concepts)
    ensures Distinct(Standings(rows, concepts, now))
    ensures forall s: Standing :: s in Standings(rows, concepts, now) <==>
              s.concept in concepts && s == StandingOf(rows, s.concept, now)
  {
    var r := Standings(rows, concepts, now);
    StandingsAt(rows, concepts, now);
    assert forall i :: 0 <= i < |r| ==> r[i].concept == concepts[i];
    forall s: Standing | s.concept in concepts && s == StandingOf(rows, s.concept, now) ensures s in r {
      var i :| 0 <= i < |concepts| && concepts[i] == s.concept;
      assert r[i] == s;
    }
  }

  lemma SameStandings(rows: seq<Row>, other: seq<Row>, now: int)
    requires multiset(rows) == multiset(other) && DistinctTimes(rows)
    ensures forall s: Standing ::
              s in Standings(rows, Concepts(rows), now) <==> s in Standings(other, Concepts(other), now)
  {
    ConceptsAreTheirs(rows);
    ConceptsAreTheirs(other);
    StandingsAreByConcept(rows, Concepts(rows), now);
    StandingsAreByConcept(other, Concepts(other), now);
    forall r: Row ensures r in rows <==> r in other { SameMembers(rows, other, r); }
    forall c ensures StandingOf(rows, c, now) == StandingOf(other, c, now) {
      SortedEvidenceIsCanonical(rows, other, c);
    }
  }

  lemma StandingsSort(rows: seq<Row>, now: int)
    ensures var a := Standings(rows, Concepts(rows), now); var r := Sort(a, ByConcept);
            && Distinct(r) && Sorted(r, ByConcept) && (forall s :: s in r <==> s in a)
            && (forall x, y :: x in r && y in r && ByConcept(x, y) && ByConcept(y, x) ==> x == y)
  {
    var a := Standings(rows, Concepts(rows), now);
    ConceptsAreTheirs(rows);
    StandingsAreByConcept(rows, Concepts(rows), now);
    StrLeIsTotalOrder();
    SortSorts(a, ByConcept);
    SortPermutes(a, ByConcept);
    SortKeepsDistinct(a, ByConcept);
  }

  /** The derived standings do not depend on the order in which rows are listed. */
  lemma OrderOfRowsDoesNotMatter(rows: seq<Row>, other: seq<Row>, now: int)
    requires multiset(rows) == multiset(other) && DistinctTimes(rows)
    ensures DeriveMastery(rows, now) == DeriveMastery(other, now)
  {
    SameStandings(rows, other, now);
    StandingsSort(rows, now);
    StandingsSort(other, now);
    SortedIsCanonical(DeriveMastery(rows, now), DeriveMastery(other, now), ByConcept);
  }
}
