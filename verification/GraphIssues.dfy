/** The validation that decides whether a research graph may be published. */
module GraphIssues {
  import opened Lists
  import opened Keyed
  import opened Digraph
  import opened DepthFirst
  import opened CycleSearch
  import opened ResearchGraph

  datatype Issue =
    | InvalidId(list: string) | DuplicateId(list: string, id: string)
    | DuplicateUrl(url: string) | InvalidSource(id: string) | InvalidConcept(id: string) | InvalidRelation(id: string)
    | DuplicateSupport(key: string) | InvalidSupport(key: string)
    | UnsupportedConcept(id: string) | UnsupportedRelation(id: string)
    | PrerequisiteCycle(id: string)

  /** `for (const row of rows) if (bad(row)) issues.push(issue(row))`. */
  method Flag<T>(rows: seq<T>, bad: T -> bool, issue: T -> Issue) returns (issues: seq<Issue>)
    ensures forall x :: x in issues <==> exists r :: r in rows && bad(r) && issue(r) == x
  {
    issues := [];
    for i := 0 to |rows|
      invariant forall x :: x in issues <==> exists r :: r in rows[..i] && bad(r) && issue(r) == x
    {
      assert rows[..i + 1] == rows[..i] + [rows[i]];
      if bad(rows[i]) {
        issues := issues + [issue(rows[i])];
      }
    }
    assert rows[..|rows|] == rows;
  }

  ghost predicate Repeats<K>(keys: seq<K>, k: K) {
    exists i, j :: 0 <= i < j < |keys| && keys[i] == k && keys[j] == k
  }

  /** The same with a set of keys seen so far: one issue for every repeated key that counts. */
  method FlagRepeats<K(==)>(keys: seq<K>, counts: K -> bool, issue: K -> Issue) returns (issues: seq<Issue>)
    ensures forall x :: x in issues <==> exists k :: k in keys && Repeats(keys, k) && counts(k) && issue(k) == x
  {
    issues := [];
    var seen: set<K> := {};
    for i := 0 to |keys|
      invariant seen == Elements(keys[..i])
      invariant forall x :: x in issues <==>
                  exists k :: k in keys[..i] && Repeats(keys[..i], k) && counts(k) && issue(k) == x
    {
      RepeatsSnoc(keys[..i], keys[i]);
      assert keys[..i + 1] == keys[..i] + [keys[i]];
      if counts(keys[i]) && keys[i] in seen {
        issues := issues + [issue(keys[i])];
      }
      seen := seen + {keys[i]};
    }
    assert keys[..|keys|] == keys;
  }

  lemma RepeatsSnoc<K>(keys: seq<K>, key: K)
    ensures forall k :: Repeats(keys + [key], k) <==> Repeats(keys, k) || (k == key && key in keys)
  {
    var longer := keys + [key];
    forall k ensures Repeats(longer, k) <==> Repeats(keys, k) || (k == key && key in keys) {
      if Repeats(keys, k) {
        var i, j :| 0 <= i < j < |keys| && keys[i] == k && keys[j] == k;
        assert longer[i] == k && longer[j] == k;
      }
      if k == key && key in keys {
        var i :| 0 <= i < |keys| && keys[i] == key;
        assert longer[i] == k && longer[|keys|] == k;
      }
    }
  }

  function Map<T, K>(rows: seq<T>, key: T -> K): (keys: seq<K>)
    ensures |keys| == |rows| && forall i :: 0 <= i < |rows| ==> keys[i] == key(rows[i])
    ensures forall r :: r in rows ==> key(r) in keys
  {
    var keys := seq(|rows|, i requires 0 <= i < |rows| => key(rows[i]));
    assert forall i :: 0 <= i < |rows| ==> keys[i] == key(rows[i]) && keys[i] in keys;
    keys
  }

  /** Which issues other than cycles a graph has. */
  ghost predicate Found(g: Graph, x: Issue) {
    match x
    case InvalidId(list) =>
      || (list == "sources" && exists s :: s in g.sources && !IdentOk(s.id))
      || (list == "concepts" && exists c :: c in g.concepts && !IdentOk(c.id))
      || (list == "relations" && exists r :: r in g.relations && !IdentOk(r.id))
    case DuplicateId(list, id) =>
      || (list == "sources" && Repeats(Map(g.sources, SourceId), id))
      || (list == "concepts" && Repeats(Map(g.concepts, ConceptId), id))
      || (list == "relations" && Repeats(Map(g.relations, RelationId), id))
    case DuplicateUrl(url) => url != "" && Repeats(Map(g.sources, Address), url)
    case InvalidSource(id) => exists s :: s in g.sources && !SourceOk(s) && s.id == id
    case InvalidConcept(id) => exists c :: c in g.concepts && !ConceptOk(c) && c.id == id
    case InvalidRelation(id) => exists r :: r in g.relations && !RelationOk(g, r) && r.id == id
    case DuplicateSupport(key) => Repeats(Map(g.supports, SupportKey), key)
    case InvalidSupport(key) => exists s :: s in g.supports && !SupportOk(g, s) && SupportKey(s) == key
    case UnsupportedConcept(id) => exists c :: c in g.concepts && !Supported(g, "concept", c.id) && c.id == id
    case UnsupportedRelation(id) => exists r :: r in g.relations && !Supported(g, "relation", r.id) && r.id == id
    case PrerequisiteCycle(_) => false
  }

  /** The identifier checks of one list. */
  method FlagIds(list: string, ids: seq<string>) returns (issues: seq<Issue>)
    ensures forall x :: x in issues <==>
              || (x == InvalidId(list) && exists id :: id in ids && !IdentOk(id))
              || (x.DuplicateId? && x.list == list && Repeats(ids, x.id))
  {
    var invalid := Flag(ids, id => !IdentOk(id), id => InvalidId(list));
    var repeated := FlagRepeats(ids, id => true, id => DuplicateId(list, id));
    issues := invalid + repeated;
  }

  /** The identifier issues of all three lists. */
  method IdIssues(g: Graph) returns (issues: seq<Issue>)
    ensures forall x :: x in issues <==> (x.InvalidId? || x.DuplicateId?) && Found(g, x)
  {
    var ss, cs, rs := Map(g.sources, SourceId), Map(g.concepts, ConceptId), Map(g.relations, RelationId);
    var sources := FlagIds("sources", ss);
    var concepts := FlagIds("concepts", cs);
    var relations := FlagIds("relations", rs);
    issues := sources + concepts + relations;
    assert forall r :: r in g.sources ==> SourceId(r) in ss;
    assert forall r :: r in g.concepts ==> ConceptId(r) in cs;
    assert forall r :: r in g.relations ==> RelationId(r) in rs;
  }

  /** The issues of sources and supports, and of the records they belong to. */
  method RecordIssues(g: Graph) returns (issues: seq<Issue>)
    ensures forall x :: x in issues <==>
              !x.InvalidId? && !x.DuplicateId? && !x.PrerequisiteCycle? && Found(g, x)
  {
    var urls := FlagRepeats(Map(g.sources, Address), url => url != "", url => DuplicateUrl(url));
    var sources := Flag(g.sources, s => !SourceOk(s), (s: Source) => InvalidSource(s.id));
    var concepts := Flag(g.concepts, c => !ConceptOk(c), (c: Concept) => InvalidConcept(c.id));
    var relations := Flag(g.relations, r => !RelationOk(g, r), (r: Relation) => InvalidRelation(r.id));
    var keys := FlagRepeats(Map(g.supports, SupportKey), key => true, key => DuplicateSupport(key));
    var supports := Flag(g.supports, s => !SupportOk(g, s), s => InvalidSupport(SupportKey(s)));
    var loneConcepts := Flag(
      g.concepts, (c: Concept) => !Supported(g, "concept", c.id), (c: Concept) => UnsupportedConcept(c.id));
    var loneRelations := Flag(
      g.relations, (r: Relation) => !Supported(g, "relation", r.id), (r: Relation) => UnsupportedRelation(r.id));
    issues := urls + sources + concepts + relations + keys + supports + loneConcepts + loneRelations;
  }

  /**
   All issues of a graph, each once. A cycle issue names an id that lies on a real prerequisite cycle, and
   there is one exactly when such a cycle starts at a concept or can be reached from one.
   */
  method Issues(g: Graph) returns (issues: seq<Issue>)
    ensures Distinct(issues)
    ensures forall x :: x in issues && !x.PrerequisiteCycle? <==> Found(g, x)
    ensures forall id :: PrerequisiteCycle(id) in issues ==> exists c :: CycleFromConcepts(g, c) && c[0] == id
    ensures (exists id :: PrerequisiteCycle(id) in issues) <==> exists c :: CycleFromConcepts(g, c)
    ensures issues == [] <==> Publishable(g)
  {
    var ids := IdIssues(g);
    var records := RecordIssues(g);
    var next := PrerequisiteLists(g.relations);
    var starts := Unique(Map(g.concepts, ConceptId));
    StartsAreConcepts(g);
    ListsStayInside(g);
    var cyclic := FindCycles(next, starts, ConceptIds(g) + Mentioned(g));
    var all := ids + records + Map(cyclic, id => PrerequisiteCycle(id));
    issues := Unique(all);
    UniqueKeepsElements(all);
    assert forall c :: CycleFromConcepts(g, c) <==> IsCycle(next, c) && ReachesFrom(next, Elements(starts), c[0]);
    AllIssuesMean(g, ids, records, cyclic, all);
    assert issues == [] <==> all == [] by {
      assert all == [] || all[0] in issues;
    }
    PublishableIff(g);
  }

  /** Ids that occur as an end of a relation. */
  function Mentioned(g: Graph): set<string> {
    (set r | r in g.relations :: r.from) + (set r | r in g.relations :: r.to)
  }

  lemma StartsAreConcepts(g: Graph)
    ensures Elements(Unique(Map(g.concepts, ConceptId))) == ConceptIds(g)
  {
    UniqueKeepsElements(Map(g.concepts, ConceptId));
    assert forall c :: c in g.concepts ==> ConceptId(c) in Map(g.concepts, ConceptId);
  }

  lemma {:induction false} ListKeys(relations: seq<Relation>)
    ensures forall v :: v in PrerequisiteLists(relations) ==> exists r :: r in relations && r.from == v
  {
    if relations != [] {
      var front, r := relations[..|relations| - 1], relations[|relations| - 1];
      ListKeys(front);
      assert relations == front + [r];
    }
  }

  lemma ListsStayInside(g: Graph)
    ensures Covers(ConceptIds(g) + Mentioned(g), PrerequisiteLists(g.relations))
  {
    var next := PrerequisiteLists(g.relations);
    ListKeys(g.relations);
    forall v, w | w in Next(next, v) ensures w in Mentioned(g) {
      ListsArePrerequisites(g, v, w);
    }
  }

  lemma AllIssuesMean(g: Graph, ids: seq<Issue>, records: seq<Issue>, cyclic: seq<string>, all: seq<Issue>)
    requires forall x :: x in ids <==> (x.InvalidId? || x.DuplicateId?) && Found(g, x)
    requires forall x :: x in records <==> !x.InvalidId? && !x.DuplicateId? && !x.PrerequisiteCycle? && Found(g, x)
    requires forall id :: id in cyclic ==> exists c :: CycleFromConcepts(g, c) && c[0] == id
    requires cyclic == [] <==> forall c :: !CycleFromConcepts(g, c)
    requires all == ids + records + Map(cyclic, id => PrerequisiteCycle(id))
    ensures forall x :: x in all && !x.PrerequisiteCycle? <==> Found(g, x)
    ensures forall id :: PrerequisiteCycle(id) in all ==> exists c :: CycleFromConcepts(g, c) && c[0] == id
    ensures (exists id :: PrerequisiteCycle(id) in all) <==> exists c :: CycleFromConcepts(g, c)
    ensures all == [] <==> (forall x :: !Found(g, x)) && (forall c :: !CycleFromConcepts(g, c))
  {
    var reported := Map(cyclic, id => PrerequisiteCycle(id));
    assert forall id :: PrerequisiteCycle(id) in all <==> id in cyclic;
    assert cyclic == [] || cyclic[0] in cyclic;
    assert all == [] || all[0] in all;
    assert all == [] <==> forall x :: x !in all;
  }

  /** With valid relations every prerequisite cycle starts at a concept. */
  lemma CyclesStartAtConcepts(g: Graph, c: seq<string>)
    requires forall r :: r in g.relations ==> r.from in ConceptIds(g)
    requires IsCycle(PrerequisiteLists(g.relations), c)
    ensures CycleFromConcepts(g, c)
  {
    assert c[0 + 1] in Next(PrerequisiteLists(g.relations), c[0]);
    ListsArePrerequisites(g, c[0], c[1]);
    ReachesItself(PrerequisiteLists(g.relations), c[0]);
  }

  /** When no relation starts at an unknown id, the search misses no prerequisite cycle at all. */
  lemma EveryCycleIsFound(g: Graph)
    requires forall r :: r in g.relations ==> r.from in ConceptIds(g)
    ensures forall c :: CycleFromConcepts(g, c) <==> IsCycle(PrerequisiteLists(g.relations), c)
  {
    forall c | IsCycle(PrerequisiteLists(g.relations), c) ensures CycleFromConcepts(g, c) {
      CyclesStartAtConcepts(g, c);
    }
  }

  lemma NoRepeatsIff(g: Graph)
    ensures DistinctKeys(g) <==>
            && (forall id :: !Repeats(Map(g.sources, SourceId), id))
            && (forall id :: !Repeats(Map(g.concepts, ConceptId), id))
            && (forall id :: !Repeats(Map(g.relations, RelationId), id))
            && (forall key :: !Repeats(Map(g.supports, SupportKey), key))
            && (forall url :: url != "" ==> !Repeats(Map(g.sources, Address), url))
  {
    NoIdRepeatsIff(g.sources, SourceId);
    NoIdRepeatsIff(g.concepts, ConceptId);
    NoIdRepeatsIff(g.relations, RelationId);
    var keys, urls := Map(g.supports, SupportKey), Map(g.sources, Address);
    forall i, j | 0 <= i < j < |keys| && keys[i] == keys[j] ensures Repeats(keys, keys[i]) {}
    forall i, j | 0 <= i < j < |urls| && urls[i] == urls[j] ensures Repeats(urls, urls[i]) {}
  }

  lemma NoIdRepeatsIff<T>(rows: seq<T>, id: T -> string)
    ensures UniqueIds(rows, id) <==> forall k :: !Repeats(Map(rows, id), k)
  {
    var ids := Map(rows, id);
    forall i, j | 0 <= i < j < |rows| && id(rows[i]) == id(rows[j]) ensures Repeats(ids, ids[i]) {
      assert ids[i] == ids[j];
    }
  }

  /** The declarative reading: no issue of any kind means the graph is publishable, and conversely. */
  lemma PublishableIff(g: Graph)
    ensures (forall x :: !Found(g, x)) && (forall c :: !CycleFromConcepts(g, c)) <==> Publishable(g)
  {
    if (forall x :: !Found(g, x)) && (forall c :: !CycleFromConcepts(g, c)) {
      FoundNothing(g);
      forall r | r in g.relations ensures r.from in ConceptIds(g) { assert RelationRecordOk(g, r); }
      EveryCycleIsFound(g);
    }
    if Publishable(g) {
      NothingFound(g);
    }
  }

  lemma NothingFound(g: Graph)
    requires Publishable(g)
    ensures forall x :: !Found(g, x)
  {
    forall x ensures !Found(g, x) {
      if x.DuplicateId? || x.DuplicateUrl? || x.DuplicateSupport? {
        NoRepeatsIff(g);
      } else {
        NoRecordFound(g, x);
      }
    }
  }

  lemma NoRecordFound(g: Graph, x: Issue)
    requires RecordsOk(g) && !x.DuplicateId? && !x.DuplicateUrl? && !x.DuplicateSupport?
    ensures !Found(g, x)
  {
    match x
    case InvalidId(_) =>
      assert forall s :: s in g.sources ==> SourceRecordOk(s);
      assert forall c :: c in g.concepts ==> ConceptRecordOk(g, c);
      assert forall r :: r in g.relations ==> RelationRecordOk(g, r);
    case InvalidSource(_) => assert forall s :: s in g.sources ==> SourceRecordOk(s);
    case InvalidConcept(_) => assert forall c :: c in g.concepts ==> ConceptRecordOk(g, c);
    case UnsupportedConcept(_) => assert forall c :: c in g.concepts ==> ConceptRecordOk(g, c);
    case InvalidRelation(_) => assert forall r :: r in g.relations ==> RelationRecordOk(g, r);
    case UnsupportedRelation(_) => assert forall r :: r in g.relations ==> RelationRecordOk(g, r);
    case InvalidSupport(_) => assert forall s :: s in g.supports ==> SupportOk(g, s);
    case _ =>
  }

  lemma FoundNothing(g: Graph)
    requires forall x :: !Found(g, x)
    ensures DistinctKeys(g) && RecordsOk(g)
  {
    NothingRepeats(g);
    assert !Found(g, InvalidId("sources")) && !Found(g, InvalidId("concepts")) && !Found(g, InvalidId("relations"));
    forall s | s in g.sources ensures SourceRecordOk(s) { assert !Found(g, InvalidSource(s.id)); }
    forall c | c in g.concepts ensures ConceptRecordOk(g, c) {
      assert !Found(g, InvalidConcept(c.id)) && !Found(g, UnsupportedConcept(c.id));
    }
    forall r | r in g.relations ensures RelationRecordOk(g, r) {
      assert !Found(g, InvalidRelation(r.id)) && !Found(g, UnsupportedRelation(r.id));
    }
    forall s | s in g.supports ensures SupportOk(g, s) { assert !Found(g, InvalidSupport(SupportKey(s))); }
  }

  lemma NoIdRepeats(g: Graph)
    requires forall x :: !Found(g, x)
    ensures forall id :: !Repeats(Map(g.sources, SourceId), id)
    ensures forall id :: !Repeats(Map(g.concepts, ConceptId), id)
    ensures forall id :: !Repeats(Map(g.relations, RelationId), id)
  {
    forall id ensures !Repeats(Map(g.sources, SourceId), id) { assert !Found(g, DuplicateId("sources", id)); }
    forall id ensures !Repeats(Map(g.concepts, ConceptId), id) { assert !Found(g, DuplicateId("concepts", id)); }
    forall id ensures !Repeats(Map(g.relations, RelationId), id) { assert !Found(g, DuplicateId("relations", id)); }
  }

  lemma NothingRepeats(g: Graph)
    requires forall x :: !Found(g, x)
    ensures DistinctKeys(g)
  {
    NoIdRepeats(g);
    NoRepeatsIff(g);
    forall key ensures !Repeats(Map(g.supports, SupportKey), key) { assert !Found(g, DuplicateSupport(key)); }
    forall url | url != "" ensures !Repeats(Map(g.sources, Address), url) { assert !Found(g, DuplicateUrl(url)); }
  }
}
