/** The research graph: what a publishable graph is, and the merge of an addition onto a base. */
module ResearchGraph {
  import opened Wrappers
  import opened Text
  import opened Lists
  import opened Keyed
  import opened Digraph
  import opened DepthFirst

  datatype Source = Source(
    id: string, url: string, title: string, publisher: string, retrievedAt: string, reviewedAt: string)

  datatype Concept = Concept(id: string, cluster: string, title: string, claim: string)

  datatype Relation = Relation(id: string, from: string, to: string, kind: string)

  datatype Support = Support(targetType: string, targetId: string, sourceId: string, locator: string, summary: string)

  datatype Graph = Graph(
    sources: seq<Source>, concepts: seq<Concept>, relations: seq<Relation>, supports: seq<Support>)

  // The digest of a graph's canonical JSON text, taken to identify the graph.
  datatype Digest = Digest(of: Graph)

  // ------------------------------------------------------------------ field checks

  predicate IdentOk(s: string) {
    && s != "" && s[0] != '-' && s[|s| - 1] != '-'
    && (forall c :: c in s ==> 'a' <= c <= 'z' || '0' <= c <= '9' || c == '-')
    && (forall i :: 0 <= i < |s| - 1 ==> !(s[i] == '-' && s[i + 1] == '-'))
  }

  predicate NotBlank(s: string) { Trim(s) != "" }

  function Digit(c: char): nat { if '0' <= c <= '9' then c as nat - '0' as nat else 0 }

  function DaysIn(year: nat, month: nat): nat {
    if month == 2 then (if year % 4 == 0 && (year % 100 != 0 || year % 400 == 0) then 29 else 28)
    else if month in {4, 6, 9, 11} then 30 else 31
  }

  predicate DateOk(s: string) {
    && |s| == 10 && s[4] == '-' && s[7] == '-'
    && (forall i :: 0 <= i < 10 && i != 4 && i != 7 ==> '0' <= s[i] <= '9')
    && var year := 1000 * Digit(s[0]) + 100 * Digit(s[1]) + 10 * Digit(s[2]) + Digit(s[3]);
       var month, day := 10 * Digit(s[5]) + Digit(s[6]), 10 * Digit(s[8]) + Digit(s[9]);
       1 <= month <= 12 && 1 <= day <= DaysIn(year, month)
  }

  predicate SourceOk(s: Source) {
    "https://" <= s.url && NotBlank(s.title) && NotBlank(s.publisher) && DateOk(s.retrievedAt) && DateOk(s.reviewedAt)
  }

  predicate ConceptOk(c: Concept) { IdentOk(c.cluster) && NotBlank(c.title) && NotBlank(c.claim) }

  predicate RelationOk(g: Graph, r: Relation) {
    && r.from in ConceptIds(g) && r.to in ConceptIds(g) && r.from != r.to
    && r.kind in ["prerequisite", "supports", "explains", "related"]
  }

  predicate SupportOk(g: Graph, s: Support) {
    && s.targetType in ["concept", "relation"]
    && (if s.targetType == "concept" then s.targetId in ConceptIds(g) else s.targetId in RelationIds(g))
    && s.sourceId in SourceIds(g) && NotBlank(s.locator) && NotBlank(s.summary)
  }

  function SourceIds(g: Graph): set<string> { set s | s in g.sources :: s.id }

  function ConceptIds(g: Graph): set<string> { set c | c in g.concepts :: c.id }

  function RelationIds(g: Graph): set<string> { set r | r in g.relations :: r.id }

  predicate Supported(g: Graph, targetType: string, id: string) {
    exists s :: s in g.supports && s.targetType == targetType && s.targetId == id
  }

  /** A source's address, a single trailing slash aside. */
  function Address(s: Source): string {
    if s.url != "" && s.url[|s.url| - 1] == '/' then s.url[..|s.url| - 1] else s.url
  }

  function SupportKey(s: Support): string { s.targetType + ":" + s.targetId + ":" + s.sourceId }

  // ------------------------------------------------------------------ prerequisites

  /** The adjacency map built from the prerequisite relations, in order. */
  function PrerequisiteLists(relations: seq<Relation>): Successors {
    if relations == [] then map[]
    else
      var g, r := PrerequisiteLists(relations[..|relations| - 1]), relations[|relations| - 1];
      if r.kind == "prerequisite" then g[r.from := Next(g, r.from) + [r.to]] else g
  }

  /** `from` is a prerequisite of `to`. */
  predicate IsPrerequisite(g: Graph, from: string, to: string) {
    exists r :: r in g.relations && r.kind == "prerequisite" && r.from == from && r.to == to
  }

  lemma {:induction false} ListsArePrerequisites(g: Graph, from: string, to: string)
    ensures to in Next(PrerequisiteLists(g.relations), from) <==> IsPrerequisite(g, from, to)
    decreases |g.relations|
  {
    if g.relations != [] {
      var front, r := g.(relations := g.relations[..|g.relations| - 1]), g.relations[|g.relations| - 1];
      ListsArePrerequisites(front, from, to);
      assert g.relations == front.relations + [r];
      assert IsPrerequisite(g, from, to) <==>
             IsPrerequisite(front, from, to) || (r.kind == "prerequisite" && r.from == from && r.to == to);
    }
  }

  /** A prerequisite cycle that starts at some concept or can be reached from one. */
  ghost predicate CycleFromConcepts(g: Graph, c: seq<string>) {
    IsCycle(PrerequisiteLists(g.relations), c) && ReachesFrom(PrerequisiteLists(g.relations), ConceptIds(g), c[0])
  }

  ghost predicate Acyclic(g: Graph) { forall c :: !IsCycle(PrerequisiteLists(g.relations), c) }

  // ------------------------------------------------------------------ publishable graphs

  ghost predicate DistinctKeys(g: Graph) {
    && UniqueIds(g.sources, SourceId)
    && UniqueIds(g.concepts, ConceptId)
    && UniqueIds(g.relations, RelationId)
    && (forall i, j :: 0 <= i < j < |g.supports| ==> SupportKey(g.supports[i]) != SupportKey(g.supports[j]))
    && (forall i, j :: 0 <= i < j < |g.sources| ==>
          Address(g.sources[i]) == "" || Address(g.sources[i]) != Address(g.sources[j]))
  }

  // A concept asks for a support and a support for a concept, so these are only unfolded where named.
  predicate SourceRecordOk(s: Source) { IdentOk(s.id) && SourceOk(s) }

  predicate ConceptRecordOk(g: Graph, c: Concept) { IdentOk(c.id) && ConceptOk(c) && Supported(g, "concept", c.id) }

  predicate RelationRecordOk(g: Graph, r: Relation) {
    IdentOk(r.id) && RelationOk(g, r) && Supported(g, "relation", r.id)
  }

  ghost predicate RecordsOk(g: Graph) {
    && (forall s {:trigger SourceRecordOk(s)} :: s in g.sources ==> SourceRecordOk(s))
    && (forall c {:trigger ConceptRecordOk(g, c)} :: c in g.concepts ==> ConceptRecordOk(g, c))
    && (forall r {:trigger RelationRecordOk(g, r)} :: r in g.relations ==> RelationRecordOk(g, r))
    && (forall s {:trigger SupportOk(g, s)} :: s in g.supports ==> SupportOk(g, s))
  }

  /** A graph without issues: valid records, unique keys, everything supported, no prerequisite cycle. */
  ghost predicate Publishable(g: Graph) {
    DistinctKeys(g) && RecordsOk(g) && Acyclic(g)
  }

  // ------------------------------------------------------------------ merging

  function SourceId(s: Source): string { s.id }

  function ConceptId(c: Concept): string { c.id }

  function RelationId(r: Relation): string { r.id }

  predicate ListLe(a: seq<string>, b: seq<string>) {
    a == [] || (b != [] && (StrLt(a[0], b[0]) || (a[0] == b[0] && ListLe(a[1..], b[1..]))))
  }

  /** A support's fields in the order its canonical JSON text lists them. */
  function Fields(s: Support): seq<string> { [s.locator, s.sourceId, s.summary, s.targetId, s.targetType] }

  predicate SupportLe(a: Support, b: Support) { ListLe(Fields(a), Fields(b)) }

  function AddSupports(base: seq<Support>, addition: seq<Support>): seq<Support> {
    if addition == [] then base
    else
      var before, s := AddSupports(base, addition[..|addition| - 1]), addition[|addition| - 1];
      if s in before then before else before + [s]
  }

  /** The merged graph, or the first id found carrying two contents. */
  function Merge(base: Graph, addition: Graph): Result<Graph, string> {
    match MergeRows(base.sources, addition.sources, SourceId)
    case Err(conflict) => Err(conflict)
    case Ok(sources) =>
      match MergeRows(base.concepts, addition.concepts, ConceptId)
      case Err(conflict) => Err(conflict)
      case Ok(concepts) =>
        match MergeRows(base.relations, addition.relations, RelationId)
        case Err(conflict) => Err(conflict)
        case Ok(relations) =>
          Ok(Graph(sources, concepts, relations, Sort(AddSupports(base.supports, addition.supports), SupportLe)))
  }

  method MergeGraph(base: Graph, addition: Graph) returns (r: Result<Graph, string>)
    ensures r == Merge(base, addition)
  {
    var supports := base.supports;
    for i := 0 to |addition.supports|
      invariant supports == AddSupports(base.supports, addition.supports[..i])
    {
      assert addition.supports[..i + 1][..i] == addition.supports[..i];
      if addition.supports[i] !in supports {
        supports := supports + [addition.supports[i]];
      }
    }
    assert addition.supports[..|addition.supports|] == addition.supports;
    var sources := MergeLists(base.sources, addition.sources, SourceId);
    if sources.Err? { return Err(sources.error); }
    var concepts := MergeLists(base.concepts, addition.concepts, ConceptId);
    if concepts.Err? { return Err(concepts.error); }
    var relations := MergeLists(base.relations, addition.relations, RelationId);
    if relations.Err? { return Err(relations.error); }
    return Ok(Graph(sources.value, concepts.value, relations.value, Sort(supports, SupportLe)));
  }

  // ------------------------------------------------------------------ merge laws

  /** What merging needs of a base; every publishable graph has it. */
  ghost predicate UniqueRecords(g: Graph) {
    UniqueIds(g.sources, SourceId) && UniqueIds(g.concepts, ConceptId) && UniqueIds(g.relations, RelationId)
    && Distinct(g.supports)
  }

  ghost predicate NoConflict(base: Graph, addition: Graph) {
    && Compatible(base.sources, addition.sources, SourceId)
    && Compatible(base.concepts, addition.concepts, ConceptId)
    && Compatible(base.relations, addition.relations, RelationId)
  }

  /** The records of two graphs together. */
  ghost predicate IsUnion(m: Graph, a: Graph, b: Graph) {
    && (forall x :: x in m.sources <==> x in a.sources || x in b.sources)
    && (forall x :: x in m.concepts <==> x in a.concepts || x in b.concepts)
    && (forall x :: x in m.relations <==> x in a.relations || x in b.relations)
    && (forall x :: x in m.supports <==> x in a.supports || x in b.supports)
  }

  /** Every record of `a` is in `b`, field for field. */
  ghost predicate Includes(b: Graph, a: Graph) {
    && (forall x :: x in a.sources ==> x in b.sources)
    && (forall x :: x in a.concepts ==> x in b.concepts)
    && (forall x :: x in a.relations ==> x in b.relations)
    && (forall x :: x in a.supports ==> x in b.supports)
  }

  /** The form every merge result has: each list in order and without repetition. */
  ghost predicate Canonical(g: Graph) {
    && InIdOrder(g.sources, SourceId) && InIdOrder(g.concepts, ConceptId) && InIdOrder(g.relations, RelationId)
    && Distinct(g.supports) && Sorted(g.supports, SupportLe)
  }

  lemma CanonicalIsUnique(g: Graph)
    requires Canonical(g)
    ensures UniqueRecords(g)
  {
    IdOrderIsUnique(g.sources, SourceId);
    IdOrderIsUnique(g.concepts, ConceptId);
    IdOrderIsUnique(g.relations, RelationId);
  }

  lemma PublishableIsUnique(g: Graph)
    requires Publishable(g)
    ensures UniqueRecords(g)
  {
    forall i, j | 0 <= i < j < |g.supports| ensures g.supports[i] != g.supports[j] {
      assert SupportKey(g.supports[i]) != SupportKey(g.supports[j]);
    }
  }

  lemma {:induction false} ListLeTotal(a: seq<string>, b: seq<string>)
    ensures ListLe(a, b) || ListLe(b, a)
  {
    if a != [] && b != [] {
      StrLeTotal(a[0], b[0]);
      ListLeTotal(a[1..], b[1..]);
    }
  }

  lemma {:induction false} ListLeTransitive(a: seq<string>, b: seq<string>, c: seq<string>)
    requires ListLe(a, b) && ListLe(b, c)
    ensures ListLe(a, c)
  {
    if a != [] {
      StrLeTotal(a[0], a[0]);
      StrLeTotal(c[0], c[0]);
      StrLeTransitive(a[0], b[0], c[0]);
      if a[0] == c[0] {
        StrLeAntisymmetric(a[0], b[0]);
        ListLeTransitive(a[1..], b[1..], c[1..]);
      }
    }
  }

  lemma {:induction false} ListLeAntisymmetric(a: seq<string>, b: seq<string>)
    requires ListLe(a, b) && ListLe(b, a)
    ensures a == b
  {
    if a != [] {
      if a[0] != b[0] {
        StrLeAntisymmetric(a[0], b[0]);
      } else {
        ListLeAntisymmetric(a[1..], b[1..]);
        assert a == [a[0]] + a[1..] && b == [b[0]] + b[1..];
      }
    }
  }

  lemma SupportsAreOrdered()
    ensures TotalPreorder(SupportLe)
    ensures forall a, b :: SupportLe(a, b) && SupportLe(b, a) ==> a == b
  {
    forall a, b ensures SupportLe(a, b) || SupportLe(b, a) { ListLeTotal(Fields(a), Fields(b)); }
    forall a, b, c | SupportLe(a, b) && SupportLe(b, c) ensures SupportLe(a, c) {
      ListLeTransitive(Fields(a), Fields(b), Fields(c));
    }
    forall a, b | SupportLe(a, b) && SupportLe(b, a) ensures a == b {
      ListLeAntisymmetric(Fields(a), Fields(b));
      assert Fields(a)[0] == Fields(b)[0] && Fields(a)[1] == Fields(b)[1] && Fields(a)[2] == Fields(b)[2];
      assert Fields(a)[3] == Fields(b)[3] && Fields(a)[4] == Fields(b)[4];
    }
  }

  lemma {:induction false} AddSupportsIsUnion(base: seq<Support>, addition: seq<Support>)
    requires Distinct(base)
    ensures Distinct(AddSupports(base, addition))
    ensures forall x :: x in AddSupports(base, addition) <==> x in base || x in addition
  {
    if addition != [] {
      var front, s := addition[..|addition| - 1], addition[|addition| - 1];
      AddSupportsIsUnion(base, front);
      assert addition == front + [s];
    }
  }

  lemma MergedSupports(base: seq<Support>, addition: seq<Support>)
    requires Distinct(base)
    ensures var r := Sort(AddSupports(base, addition), SupportLe);
            Distinct(r) && Sorted(r, SupportLe) && forall x :: x in r <==> x in base || x in addition
  {
    AddSupportsIsUnion(base, addition);
    SupportsAreOrdered();
    SortSorts(AddSupports(base, addition), SupportLe);
    SortPermutes(AddSupports(base, addition), SupportLe);
    SortKeepsDistinct(AddSupports(base, addition), SupportLe);
  }

  /** A merge succeeds exactly when no id conflicts, and yields the union in canonical form. */
  lemma MergeIsCanonicalUnion(base: Graph, addition: Graph)
    requires UniqueRecords(base)
    ensures Merge(base, addition).Ok? <==> NoConflict(base, addition)
    ensures Merge(base, addition).Ok? ==>
              Canonical(Merge(base, addition).value) && IsUnion(Merge(base, addition).value, base, addition)
  {
    MergeRowsIsSortedUnion(base.sources, addition.sources, SourceId);
    MergeRowsIsSortedUnion(base.concepts, addition.concepts, ConceptId);
    MergeRowsIsSortedUnion(base.relations, addition.relations, RelationId);
    MergedSupports(base.supports, addition.supports);
  }

  /** Canonical graphs with the same records are equal, so they have the same digest. */
  lemma CanonicalGraphsAgree(a: Graph, b: Graph)
    requires Canonical(a) && Canonical(b) && Includes(a, b) && Includes(b, a)
    ensures a == b
  {
    IdOrderIsCanonical(a.sources, b.sources, SourceId);
    IdOrderIsCanonical(a.concepts, b.concepts, ConceptId);
    IdOrderIsCanonical(a.relations, b.relations, RelationId);
    SupportsAreOrdered();
    SortedIsCanonical(a.supports, b.supports, SupportLe);
  }

  /** Merging an addition a second time changes nothing. */
  lemma MergeIsIdempotent(base: Graph, addition: Graph)
    requires UniqueRecords(base) && Merge(base, addition).Ok?
    ensures Merge(Merge(base, addition).value, addition) == Merge(base, addition)
  {
    var once := Merge(base, addition).value;
    MergeIsCanonicalUnion(base, addition);
    CanonicalIsUnique(once);
    MergeIsCanonicalUnion(once, addition);
    assert NoConflict(once, addition);
    CanonicalGraphsAgree(once, Merge(once, addition).value);
  }

  function MergeBoth(base: Graph, first: Graph, second: Graph): Result<Graph, string> {
    match Merge(base, first)
    case Ok(m) => Merge(m, second)
    case Err(conflict) => Err(conflict)
  }

  lemma CompatibleSwaps<T>(base: seq<T>, m: seq<T>, a: seq<T>, b: seq<T>, n: seq<T>, id: T -> string)
    requires forall x :: x in m <==> x in base || x in a
    requires forall x :: x in n <==> x in base || x in b
    requires Compatible(base, a, id) && Compatible(m, b, id)
    ensures Compatible(base, b, id) && Compatible(n, a, id)
  {
  }

  lemma ConflictFreeSwaps(base: Graph, a: Graph, b: Graph)
    requires UniqueRecords(base) && MergeBoth(base, a, b).Ok?
    ensures NoConflict(base, b)
    ensures Merge(base, b).Ok? && NoConflict(Merge(base, b).value, a)
  {
    var m := Merge(base, a).value;
    MergeIsCanonicalUnion(base, a);
    CanonicalIsUnique(m);
    MergeIsCanonicalUnion(m, b);
    MergeIsCanonicalUnion(base, b);
    CompatibleSwaps(base.sources, m.sources, a.sources, b.sources, base.sources + b.sources, SourceId);
    CompatibleSwaps(base.concepts, m.concepts, a.concepts, b.concepts, base.concepts + b.concepts, ConceptId);
    CompatibleSwaps(base.relations, m.relations, a.relations, b.relations, base.relations + b.relations, RelationId);
  }

  /** Two additions that merge in one order merge in the other, with the same result. */
  lemma MergesCommute(base: Graph, a: Graph, b: Graph)
    requires UniqueRecords(base) && MergeBoth(base, a, b).Ok?
    ensures MergeBoth(base, b, a) == MergeBoth(base, a, b)
  {
    ConflictFreeSwaps(base, a, b);
    var m, n := Merge(base, a).value, Merge(base, b).value;
    MergeIsCanonicalUnion(base, a);
    MergeIsCanonicalUnion(base, b);
    CanonicalIsUnique(m);
    CanonicalIsUnique(n);
    MergeIsCanonicalUnion(m, b);
    MergeIsCanonicalUnion(n, a);
    CanonicalGraphsAgree(Merge(m, b).value, Merge(n, a).value);
  }

  /** The digest stays the same exactly when the base is in canonical form and the addition brings nothing. */
  lemma DigestUnchangedIff(base: Graph, addition: Graph)
    requires UniqueRecords(base) && Merge(base, addition).Ok?
    ensures Digest(Merge(base, addition).value) == Digest(base) <==> Canonical(base) && Includes(base, addition)
  {
    var m := Merge(base, addition).value;
    MergeIsCanonicalUnion(base, addition);
    if Canonical(base) && Includes(base, addition) {
      CanonicalGraphsAgree(m, base);
    }
  }

  const NOTHING := Graph([], [], [], [])

  /** An empty addition always merges, and changes the digest exactly when the base is not in canonical form. */
  lemma EmptyAdditionLooksNew(base: Graph)
    requires UniqueRecords(base)
    ensures Merge(base, NOTHING).Ok?
    ensures Digest(Merge(base, NOTHING).value) != Digest(base) <==> !Canonical(base)
  {
    MergeIsCanonicalUnion(base, NOTHING);
    DigestUnchangedIff(base, NOTHING);
  }

  // Two concepts listed as the hand-ordered seed lists them.
  const SEED_ORDER := Graph([], [Concept("sun-star", "sun", "t", "c"), Concept("sun-core", "sun", "t", "c")], [], [])

  lemma SeedOrderIsNotCanonical()
    ensures UniqueRecords(SEED_ORDER) && !Canonical(SEED_ORDER)
  {
    SunOrder();
    assert ConceptId(SEED_ORDER.concepts[0]) == "sun-star" && ConceptId(SEED_ORDER.concepts[1]) == "sun-core";
    assert !StrLt(ConceptId(SEED_ORDER.concepts[0]), ConceptId(SEED_ORDER.concepts[1]));
    assert !InIdOrder(SEED_ORDER.concepts, ConceptId);
  }

  lemma SunOrder()
    ensures !StrLe("sun-star", "sun-core")
  {
    assert "sun-star"[1..] == "un-star" && "sun-core"[1..] == "un-core";
    assert "un-star"[1..] == "n-star" && "un-core"[1..] == "n-core";
    assert "n-star"[1..] == "-star" && "n-core"[1..] == "-core";
    assert "-star"[1..] == "star" && "-core"[1..] == "core";
    assert !StrLe("star", "core");
  }
}
