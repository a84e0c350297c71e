/** Which curated assessment cards a published research graph still backs. */
module AssessmentCards {
  import opened Wrappers
  import opened Keyed
  import opened ResearchGraph
  import opened Publication
  import opened PublicationRuns

  datatype Card = Card(id: string, cluster: string, supportIds: seq<string>)

  // The curated cards and the seed graph they were written against.
  datatype Library = Library(seed: Graph, cards: seq<Card>)

  /** `rows.find(wanted)`. */
  function First<T>(rows: seq<T>, wanted: T -> bool): (r: Option<T>)
    ensures r.Some? ==> r.value in rows && wanted(r.value)
    ensures r.None? ==> forall x :: x in rows ==> !wanted(x)
  {
    if rows == [] then None else if wanted(rows[0]) then Some(rows[0]) else First(rows[1..], wanted)
  }

  function ConceptOf(g: Graph, id: string): Option<Concept> { First(g.concepts, (c: Concept) => c.id == id) }

  /** A concept of the card is backed: same claim, same support text, same NASA source. */
  predicate Backed(seed: Graph, g: Graph, id: string) {
    var seedNode, node := ConceptOf(seed, id), ConceptOf(g, id);
    var seedSupport := First(seed.supports, (s: Support) => s.targetType == "concept" && s.targetId == id);
    && seedNode.Some? && node.Some? && node.value.claim == seedNode.value.claim
    && seedSupport.Some?
    && First(g.supports, (s: Support) => s.targetType == "concept" && s.targetId == id
        && s.sourceId == seedSupport.value.sourceId && s.locator == seedSupport.value.locator
        && s.summary == seedSupport.value.summary).Some?
    && var seedSource := First(seed.sources, (s: Source) => s.id == seedSupport.value.sourceId);
       && seedSource.Some?
       && First(g.sources, (s: Source) => s.id == seedSource.value.id && s.url == seedSource.value.url
           && s.publisher == "NASA Science").Some?
  }

  function AvailableCard(lib: Library, id: string, g: Graph, publishedSeedHash: Digest): Option<Card> {
    var card := First(lib.cards, (c: Card) => c.id == id);
    var seedConcept, current := ConceptOf(lib.seed, id), ConceptOf(g, id);
    if publishedSeedHash != Digest(lib.seed) || card.None? then None
    else if current.Some? && seedConcept.Some? && current.value.claim == seedConcept.value.claim
            && current.value.cluster == card.value.cluster
            && forall target :: target in card.value.supportIds ==> Backed(lib.seed, g, target)
    then card
    else None
  }

  lemma SameConcept(older: Graph, newer: Graph, id: string)
    requires UniqueIds(newer.concepts, ConceptId) && Includes(newer, older) && ConceptOf(older, id).Some?
    ensures ConceptOf(newer, id) == ConceptOf(older, id)
  {
    var c := ConceptOf(older, id).value;
    assert c in newer.concepts && ConceptId(c) == id;
    var d := ConceptOf(newer, id).value;
    var i :| 0 <= i < |newer.concepts| && newer.concepts[i] == c;
    var j :| 0 <= j < |newer.concepts| && newer.concepts[j] == d;
    assert ConceptId(newer.concepts[i]) == ConceptId(newer.concepts[j]);
  }

  lemma BackingStays(seed: Graph, older: Graph, newer: Graph, id: string)
    requires UniqueIds(newer.concepts, ConceptId) && Includes(newer, older) && Backed(seed, older, id)
    ensures Backed(seed, newer, id)
  {
    SameConcept(older, newer, id);
  }

  /** A card available on a graph is available, unchanged, on every graph that keeps its records. */
  lemma AvailableCardStays(lib: Library, id: string, older: Graph, newer: Graph, hash: Digest)
    requires UniqueIds(newer.concepts, ConceptId) && Includes(newer, older) && AvailableCard(lib, id, older, hash).Some?
    ensures AvailableCard(lib, id, newer, hash) == AvailableCard(lib, id, older, hash)
  {
    SameConcept(older, newer, id);
    forall target | Backed(lib.seed, older, target) ensures Backed(lib.seed, newer, target) {
      BackingStays(lib.seed, older, newer, target);
    }
  }

  /** In every run that kept one chain, a card available at a version is available at every later one. */
  lemma CardsSurvivePublication(lib: Library, id: string, desk: Desk, j: nat, i: nat, hash: Digest)
    requires Sound(desk) && Linear(desk.versions) && j <= i < |desk.versions|
    requires AvailableCard(lib, id, desk.versions[j].graph, hash).Some?
    ensures AvailableCard(lib, id, desk.versions[i].graph, hash) == AvailableCard(lib, id, desk.versions[j].graph, hash)
  {
    LaterVersionsInclude(desk.versions, j, i);
    assert desk.versions[i] in desk.versions;
    AvailableCardStays(lib, id, desk.versions[j].graph, desk.versions[i].graph, hash);
  }

  /** A card available at the seed is available at every version, even where the versions fork. */
  lemma SeedCardsStayAvailable(lib: Library, id: string, desk: Desk, i: nat, hash: Digest)
    requires Sound(desk) && i < |desk.versions| && AvailableCard(lib, id, desk.versions[0].graph, hash).Some?
    ensures AvailableCard(lib, id, desk.versions[i].graph, hash) == AvailableCard(lib, id, desk.versions[0].graph, hash)
  {
    EveryVersionIncludesTheSeed(desk.versions, i);
    assert desk.versions[i] in desk.versions;
    AvailableCardStays(lib, id, desk.versions[0].graph, desk.versions[i].graph, hash);
  }
}
