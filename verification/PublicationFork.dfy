/** How the published versions can fail to form one chain. */
module PublicationFork {
  import opened Wrappers
  import opened Text
  import opened Lists
  import opened Keyed
  import opened Digraph
  import opened ResearchGraph
  import opened Publication
  import opened PublicationRuns

  // Three additions, the graphs they merge to, and the versions they are published as: `a` on the seed, `c` and `d`
  // on the version of `a`. The start of a publication is that of its transaction.
  datatype Plan = Plan(
    seed: Version, a: Graph, c: Graph, d: Graph, afterA: Graph, afterC: Graph, afterD: Graph,
    nameA: string, nameC: string, nameD: string, startA: int, startC: int, startD: int)

  const CURATORS := {"x", "y"}

  /** An addition that merges onto a base to a publishable graph. */
  ghost predicate Passes(base: Graph, addition: Graph, merged: Graph) {
    Merge(base, addition) == Ok(merged) && Publishable(merged)
  }

  /** Each addition alone would pass its review. */
  ghost predicate AllPass(p: Plan) {
    Passes(p.seed.graph, p.a, p.afterA) && Passes(p.afterA, p.c, p.afterC) && Passes(p.afterA, p.d, p.afterD)
  }

  predicate GraphsDiffer(p: Plan) {
    && p.seed.contentHash == Digest(p.seed.graph) && p.a != p.c && p.a != p.d && p.c != p.d
    && p.seed.graph != p.afterA && p.seed.graph != p.afterC && p.seed.graph != p.afterD
    && p.afterA != p.afterC && p.afterA != p.afterD && p.afterC != p.afterD
  }

  predicate NamesDiffer(p: Plan) {
    && p.seed.name != p.nameA && p.seed.name != p.nameC && p.seed.name != p.nameD
    && p.nameA != p.nameC && p.nameA != p.nameD && p.nameC != p.nameD
  }

  predicate NamesOk(p: Plan) {
    VersionNameOk(p.seed.name) && VersionNameOk(p.nameA) && VersionNameOk(p.nameC) && VersionNameOk(p.nameD)
  }

  ghost predicate Workable(p: Plan) { AllPass(p) && GraphsDiffer(p) && NamesDiffer(p) && NamesOk(p) }

  function StageAndReview(id: string, base: string, addition: Graph): seq<Request> {
    [StageRequest(id, base, addition, "x"), ReviewRequest(id, "y")]
  }

  function UntilReviewed(p: Plan): seq<Request> {
    StageAndReview("a", p.seed.name, p.a) + [PublishRequest("a", p.nameA, "x", p.startA)]
    + StageAndReview("c", p.nameA, p.c) + StageAndReview("d", p.nameA, p.d)
  }

  function Requests(p: Plan): seq<Request> {
    UntilReviewed(p) + [PublishRequest("c", p.nameC, "x", p.startC)] + [PublishRequest("d", p.nameD, "x", p.startD)]
  }

  // ------------------------------------------------------------------ requests that are accepted

  function Waiting(base: string, addition: Graph): Candidate {
    Candidate(base, addition, Staged, "x", None, None)
  }

  function Passed(c: Candidate): Candidate { c.(status := Reviewed, reviewedBy := Some("y")) }

  function Out(c: Candidate, name: string): Candidate { c.(status := Published, publishedVersion := Some(name)) }

  lemma StageAccepted(desk: Desk, id: string, base: Version, addition: Graph, merged: Graph)
    requires "x" in desk.curators && CandidateIdOk(id) && id !in desk.candidates && VersionNameOk(base.name)
    requires Find(desk.versions, base.name) == Some(base)
    requires Merge(base.graph, addition) == Ok(merged) && Publishable(merged)
    requires forall other :: other in desk.candidates ==> desk.candidates[other].addition != addition
    ensures Stage(desk, id, base.name, addition, "x").0 == Written(desk, id, Waiting(base.name, addition))
  {
  }

  lemma ReviewAccepted(desk: Desk, id: string, merged: Graph)
    requires desk.versions != [] && "y" in desk.curators && id in desk.candidates
    requires var c, latest := desk.candidates[id], Latest(desk.versions);
             && c == Waiting(latest.name, c.addition) && Merge(latest.graph, c.addition) == Ok(merged)
             && Publishable(merged) && Digest(merged) != latest.contentHash
    ensures Review(desk, id, "y").0 == Written(desk, id, Passed(desk.candidates[id]))
  {
  }

  function Child(name: string, parent: string, merged: Graph, at: int): Version {
    Version(name, Some(parent), merged, Digest(merged), "y", at)
  }

  lemma PublishAccepted(desk: Desk, id: string, merged: Graph, name: string, at: int)
    requires desk.versions != [] && "x" in desk.curators && id in desk.candidates && VersionNameOk(name)
    requires Find(desk.versions, name).None? && !HashTaken(desk.versions, Digest(merged))
    requires var c, latest := desk.candidates[id], Latest(desk.versions);
             && c == Passed(Waiting(latest.name, c.addition)) && Merge(latest.graph, c.addition) == Ok(merged)
             && Publishable(merged)
    ensures Publish(desk, id, name, "x", at).0
         == Written(desk, id, Out(desk.candidates[id], name))
            .(versions := desk.versions + [Child(name, Latest(desk.versions).name, merged, at)])
  {
  }

  lemma LatestSnoc(versions: seq<Version>, v: Version)
    requires versions != []
    ensures Latest(versions + [v]) == if Newer(v, Latest(versions)) then v else Latest(versions)
  {
    assert (versions + [v])[..|versions|] == versions;
  }

  // ------------------------------------------------------------------ the run, desk by desk

  function VersionA(p: Plan): Version { Child(p.nameA, p.seed.name, p.afterA, p.startA) }

  function VersionC(p: Plan): Version { Child(p.nameC, p.nameA, p.afterC, p.startC) }

  function VersionD(p: Plan): Version { Child(p.nameD, p.nameA, p.afterD, p.startD) }

  function OutA(p: Plan): Candidate { Out(Passed(Waiting(p.seed.name, p.a)), p.nameA) }

  function OutC(p: Plan): Candidate { Out(Passed(Waiting(p.nameA, p.c)), p.nameC) }

  function OutD(p: Plan): Candidate { Out(Passed(Waiting(p.nameA, p.d)), p.nameD) }

  function Opened(p: Plan): Desk { Desk(CURATORS, map[], [p.seed]) }

  function ReviewedA(p: Plan): Desk { Desk(CURATORS, map["a" := Passed(Waiting(p.seed.name, p.a))], [p.seed]) }

  function PublishedA(p: Plan): Desk { Desk(CURATORS, map["a" := OutA(p)], [p.seed, VersionA(p)]) }

  function ReviewedC(p: Plan): Desk {
    Desk(CURATORS, map["a" := OutA(p), "c" := Passed(Waiting(p.nameA, p.c))], [p.seed, VersionA(p)])
  }

  function ReviewedD(p: Plan): Desk {
    Desk(CURATORS, map["a" := OutA(p), "c" := Passed(Waiting(p.nameA, p.c)), "d" := Passed(Waiting(p.nameA, p.d))],
         [p.seed, VersionA(p)])
  }

  function PublishedC(p: Plan): Desk {
    Desk(CURATORS, map["a" := OutA(p), "c" := OutC(p), "d" := Passed(Waiting(p.nameA, p.d))],
         [p.seed, VersionA(p), VersionC(p)])
  }

  function PublishedD(p: Plan): Desk {
    Desk(CURATORS, map["a" := OutA(p), "c" := OutC(p), "d" := OutD(p)], [p.seed, VersionA(p), VersionC(p), VersionD(p)])
  }

  /** One request after another, from the left. */
  lemma {:induction false} RunFirst(desk: Desk, q: Request, qs: seq<Request>)
    requires desk.versions != []
    ensures Run(desk, [q] + qs) == Run(Step(desk, q).0, qs)
  {
    if qs == [] {
      assert [q] + qs == [q] && [q][..0] == [];
    } else {
      var all := [q] + qs;
      assert all[..|all| - 1] == [q] + qs[..|qs| - 1];
      RunFirst(desk, q, qs[..|qs| - 1]);
    }
  }

  lemma RunOne(desk: Desk, q: Request)
    requires desk.versions != []
    ensures Run(desk, [q]) == Step(desk, q).0
  {
    assert [q][..0] == [];
  }

  lemma RunTwo(desk: Desk, q: Request, r: Request)
    requires desk.versions != []
    ensures Run(desk, [q, r]) == Step(Step(desk, q).0, r).0
  {
    RunFirst(desk, q, [r]);
    RunOne(Step(desk, q).0, r);
    assert [q, r] == [q] + [r];
  }

  lemma {:induction false} RunAppended(desk: Desk, qs: seq<Request>, more: seq<Request>)
    requires desk.versions != []
    ensures Run(desk, qs + more) == Run(Run(desk, qs), more)
  {
    if more == [] {
      assert qs + more == qs;
    } else {
      assert (qs + more)[..|qs + more| - 1] == qs + more[..|more| - 1];
      RunAppended(desk, qs, more[..|more| - 1]);
    }
  }

  lemma WrittenTwice(desk: Desk, id: string, before: Candidate, after: Candidate)
    ensures Written(Written(desk, id, before), id, after) == Written(desk, id, after)
  {
    assert desk.candidates[id := before][id := after] == desk.candidates[id := after];
  }

  /** Staging and reviewing one more candidate on the latest version. */
  lemma StagedAndReviewed(desk: Desk, id: string, latest: Version, addition: Graph, merged: Graph)
    requires desk.versions != [] && desk.curators == CURATORS && CandidateIdOk(id) && id !in desk.candidates
    requires Latest(desk.versions) == latest && VersionNameOk(latest.name)
    requires Find(desk.versions, latest.name) == Some(latest)
    requires Passes(latest.graph, addition, merged) && Digest(merged) != latest.contentHash
    requires forall other :: other in desk.candidates ==> desk.candidates[other].addition != addition
    ensures Run(desk, StageAndReview(id, latest.name, addition))
         == Written(desk, id, Passed(Waiting(latest.name, addition)))
  {
    var staged := Written(desk, id, Waiting(latest.name, addition));
    StageAccepted(desk, id, latest, addition, merged);
    ReviewAccepted(staged, id, merged);
    WrittenTwice(desk, id, Waiting(latest.name, addition), Passed(Waiting(latest.name, addition)));
    RunTwo(desk, StageRequest(id, latest.name, addition, "x"), ReviewRequest(id, "y"));
  }

  /** Publishing a reviewed candidate of the latest version. */
  lemma PublishedNext(desk: Desk, id: string, latest: Version, addition: Graph, merged: Graph, name: string, at: int)
    requires desk.versions != [] && desk.curators == CURATORS && VersionNameOk(name)
    requires id in desk.candidates && desk.candidates[id] == Passed(Waiting(latest.name, addition))
    requires Latest(desk.versions) == latest && Find(desk.versions, name).None?
    requires Passes(latest.graph, addition, merged) && !HashTaken(desk.versions, Digest(merged))
    ensures Run(desk, [PublishRequest(id, name, "x", at)])
         == Written(desk, id, Out(Passed(Waiting(latest.name, addition)), name))
            .(versions := desk.versions + [Child(name, latest.name, merged, at)])
  {
    PublishAccepted(desk, id, merged, name, at);
    RunOne(desk, PublishRequest(id, name, "x", at));
  }

  lemma NamesAreFound(p: Plan)
    requires NamesDiffer(p)
    ensures Find([p.seed], p.seed.name) == Some(p.seed) && Find([p.seed], p.nameA).None?
    ensures Find([p.seed, VersionA(p)], p.nameA) == Some(VersionA(p)) && Find([p.seed, VersionA(p)], p.nameC).None?
    ensures Find([p.seed, VersionA(p), VersionC(p)], p.nameD).None?
  {
    assert [p.seed] + [VersionA(p)] == [p.seed, VersionA(p)];
    assert [p.seed, VersionA(p)] + [VersionC(p)] == [p.seed, VersionA(p), VersionC(p)];
    forall name { FindAfterAppend([], p.seed, name); }
    forall name { FindAfterAppend([p.seed], VersionA(p), name); }
    FindAfterAppend([p.seed, VersionA(p)], VersionC(p), p.nameD);
  }

  lemma HashesAreFree(p: Plan)
    requires GraphsDiffer(p)
    ensures !HashTaken([p.seed], Digest(p.afterA))
    ensures !HashTaken([p.seed, VersionA(p)], Digest(p.afterC))
    ensures !HashTaken([p.seed, VersionA(p), VersionC(p)], Digest(p.afterD))
  {
  }

  lemma IdsAreOk()
    ensures CandidateIdOk("a") && CandidateIdOk("c") && CandidateIdOk("d")
  {
  }

  lemma APassesReview(p: Plan)
    requires Passes(p.seed.graph, p.a, p.afterA) && GraphsDiffer(p) && NamesDiffer(p) && VersionNameOk(p.seed.name)
    ensures Run(Opened(p), StageAndReview("a", p.seed.name, p.a)) == ReviewedA(p)
  {
    IdsAreOk();
    NamesAreFound(p);
    StagedAndReviewed(Opened(p), "a", p.seed, p.a, p.afterA);
    assert Written(Opened(p), "a", Passed(Waiting(p.seed.name, p.a))) == ReviewedA(p);
  }

  lemma AIsPublished(p: Plan)
    requires Passes(p.seed.graph, p.a, p.afterA) && GraphsDiffer(p) && NamesDiffer(p) && VersionNameOk(p.nameA)
    ensures Run(ReviewedA(p), [PublishRequest("a", p.nameA, "x", p.startA)]) == PublishedA(p)
  {
    NamesAreFound(p);
    PublishedNext(ReviewedA(p), "a", p.seed, p.a, p.afterA, p.nameA, p.startA);
    assert ReviewedA(p).candidates["a" := OutA(p)] == PublishedA(p).candidates;
    assert [p.seed] + [VersionA(p)] == [p.seed, VersionA(p)];
  }

  lemma AIsLatest(p: Plan)
    requires p.seed.publishedAt < p.startA
    ensures Latest([p.seed, VersionA(p)]) == VersionA(p)
    ensures p.startC < p.startA ==> Latest([p.seed, VersionA(p), VersionC(p)]) == VersionA(p)
  {
    assert [p.seed] + [VersionA(p)] == [p.seed, VersionA(p)];
    assert [p.seed, VersionA(p)] + [VersionC(p)] == [p.seed, VersionA(p), VersionC(p)];
    LatestSnoc([p.seed], VersionA(p));
    LatestSnoc([p.seed, VersionA(p)], VersionC(p));
  }

  lemma CAndDPassReview(p: Plan)
    requires Passes(p.afterA, p.c, p.afterC) && Passes(p.afterA, p.d, p.afterD)
    requires GraphsDiffer(p) && NamesDiffer(p) && VersionNameOk(p.nameA) && p.seed.publishedAt < p.startA
    ensures Run(PublishedA(p), StageAndReview("c", p.nameA, p.c)) == ReviewedC(p)
    ensures Run(ReviewedC(p), StageAndReview("d", p.nameA, p.d)) == ReviewedD(p)
  {
    IdsAreOk();
    NamesAreFound(p);
    AIsLatest(p);
    StagedAndReviewed(PublishedA(p), "c", VersionA(p), p.c, p.afterC);
    assert Written(PublishedA(p), "c", Passed(Waiting(p.nameA, p.c))) == ReviewedC(p);
    StagedAndReviewed(ReviewedC(p), "d", VersionA(p), p.d, p.afterD);
    assert Written(ReviewedC(p), "d", Passed(Waiting(p.nameA, p.d))) == ReviewedD(p);
  }

  /** A publication that began before that of its base leaves the base the latest version. */
  lemma CIsPublished(p: Plan)
    requires Passes(p.afterA, p.c, p.afterC) && GraphsDiffer(p) && NamesDiffer(p) && VersionNameOk(p.nameC)
    requires p.seed.publishedAt < p.startA && p.startC < p.startA
    ensures Run(ReviewedD(p), [PublishRequest("c", p.nameC, "x", p.startC)]) == PublishedC(p)
  {
    NamesAreFound(p);
    HashesAreFree(p);
    AIsLatest(p);
    CStepsOut(p);
    PublishedNext(ReviewedD(p), "c", VersionA(p), p.c, p.afterC, p.nameC, p.startC);
  }

  lemma CStepsOut(p: Plan)
    ensures ReviewedD(p).candidates["c" := OutC(p)] == PublishedC(p).candidates
    ensures ReviewedD(p).versions + [VersionC(p)] == PublishedC(p).versions
  {
  }

  lemma DIsPublished(p: Plan)
    requires Passes(p.afterA, p.d, p.afterD) && GraphsDiffer(p) && NamesDiffer(p) && VersionNameOk(p.nameD)
    requires p.seed.publishedAt < p.startA && p.startC < p.startA
    ensures Run(PublishedC(p), [PublishRequest("d", p.nameD, "x", p.startD)]) == PublishedD(p)
  {
    NamesAreFound(p);
    HashesAreFree(p);
    AIsLatest(p);
    DStepsOut(p);
    PublishedNext(PublishedC(p), "d", VersionA(p), p.d, p.afterD, p.nameD, p.startD);
  }

  lemma DStepsOut(p: Plan)
    ensures PublishedC(p).candidates["d" := OutD(p)] == PublishedD(p).candidates
    ensures PublishedC(p).versions + [VersionD(p)] == PublishedD(p).versions
  {
  }

  lemma RunInThree(d0: Desk, a: seq<Request>, d1: Desk, b: seq<Request>, d2: Desk, c: seq<Request>, d3: Desk)
    requires d0.versions != [] && d1.versions != [] && d2.versions != []
    requires Run(d0, a) == d1 && Run(d1, b) == d2 && Run(d2, c) == d3
    ensures Run(d0, a + b + c) == d3
  {
    RunAppended(d0, a, b);
    RunAppended(d0, a + b, c);
  }

  lemma BothAreReviewed(p: Plan)
    requires Workable(p) && p.seed.publishedAt < p.startA
    ensures Run(Opened(p), UntilReviewed(p)) == ReviewedD(p)
  {
    APassesReview(p);
    AIsPublished(p);
    CAndDPassReview(p);
    RunAppended(Opened(p), StageAndReview("a", p.seed.name, p.a), [PublishRequest("a", p.nameA, "x", p.startA)]);
    RunInThree(
      Opened(p), StageAndReview("a", p.seed.name, p.a) + [PublishRequest("a", p.nameA, "x", p.startA)], PublishedA(p),
      StageAndReview("c", p.nameA, p.c), ReviewedC(p), StageAndReview("d", p.nameA, p.d), ReviewedD(p));
  }

  lemma AllArePublished(p: Plan)
    requires Workable(p) && p.seed.publishedAt < p.startA && p.startC < p.startA
    ensures Run(Opened(p), Requests(p)) == PublishedD(p)
  {
    BothAreReviewed(p);
    CIsPublished(p);
    DIsPublished(p);
    RunInThree(
      Opened(p), UntilReviewed(p), ReviewedD(p), [PublishRequest("c", p.nameC, "x", p.startC)], PublishedC(p),
      [PublishRequest("d", p.nameD, "x", p.startD)], PublishedD(p));
  }

  /**
   Whatever the additions, if the transaction that publishes `c` began before the one that published its base, then
   `c` does not become the latest version, `d` is published on the same base, and the versions fork.
   */
  lemma PublicationsMayFork(p: Plan)
    requires Workable(p) && p.seed.publishedAt < p.startA && p.startC < p.startA
    ensures Run(Opening(CURATORS, p.seed), Requests(p)) == PublishedD(p)
    ensures !Linear(PublishedD(p).versions)
    ensures var candidates := PublishedD(p).candidates;
            && candidates["c"].status == Published && candidates["d"].status == Published
            && candidates["c"].baseVersion == candidates["d"].baseVersion
  {
    AllArePublished(p);
    assert !FollowsPrevious(PublishedD(p).versions, 3);
  }

  // ------------------------------------------------------------------ such a plan

  function SourceOf(id: string): Source { Source(id, "https://x/" + id, "t", "p", "2026-01-01", "2026-01-01") }

  function Listing(ids: seq<string>): Graph {
    Graph(seq(|ids|, i requires 0 <= i < |ids| => SourceOf(ids[i])), [], [], [])
  }

  /** Identifiers of one character. */
  predicate Letters(ids: seq<string>) { forall i :: 0 <= i < |ids| ==> |ids[i]| == 1 && 'a' <= ids[i][0] <= 'z' }

  lemma SourceIsOk(id: string)
    requires |id| == 1 && 'a' <= id[0] <= 'z'
    ensures SourceRecordOk(SourceOf(id)) && Address(SourceOf(id)) == "https://x/" + id
  {
    assert TrimStart("t") == "t" && TrimStart("p") == "p";
  }

  lemma NoEdgesNoCycle(c: seq<string>)
    ensures !IsCycle(map[], c)
  {
    assert |c| >= 2 ==> c[0 + 1] !in Next(map[], c[0]);
  }

  lemma ListingIsPublishable(ids: seq<string>)
    requires Letters(ids) && Distinct(ids)
    ensures Publishable(Listing(ids))
  {
    var g := Listing(ids);
    forall i | 0 <= i < |ids| ensures SourceRecordOk(g.sources[i]) && Address(g.sources[i]) == "https://x/" + ids[i] {
      SourceIsOk(ids[i]);
    }
    forall i, j | 0 <= i < j < |ids| ensures Address(g.sources[i]) != Address(g.sources[j]) {
      assert ("https://x/" + ids[i])[10..] == ids[i] && ("https://x/" + ids[j])[10..] == ids[j];
    }
    forall c ensures !IsCycle(PrerequisiteLists(g.relations), c) { NoEdgesNoCycle(c); }
    assert RecordsOk(g) && DistinctKeys(g);
  }

  lemma ListingIsCanonical(ids: seq<string>)
    requires forall i, j :: 0 <= i < j < |ids| ==> StrLt(ids[i], ids[j])
    ensures Canonical(Listing(ids))
  {
  }

  /** Listings in order merge by joining them. */
  lemma ListingsMerge(ids: seq<string>, id: string)
    requires forall i, j :: 0 <= i < j < |ids + [id]| ==> StrLt((ids + [id])[i], (ids + [id])[j])
    ensures Merge(Listing(ids), Listing([id])) == Ok(Listing(ids + [id]))
  {
    var base, addition, joined := Listing(ids), Listing([id]), Listing(ids + [id]);
    assert forall i, j :: 0 <= i < j < |ids| ==> (ids + [id])[i] == ids[i] && (ids + [id])[j] == ids[j];
    ListingIsCanonical(ids);
    ListingIsCanonical(ids + [id]);
    CanonicalIsUnique(base);
    assert joined.sources == base.sources + addition.sources;
    MergeIsCanonicalUnion(base, addition);
    CanonicalGraphsAgree(Merge(base, addition).value, joined);
  }

  lemma OneListed(a: string)
    requires Letters([a])
    ensures Passes(Listing([]), Listing([a]), Listing([a]))
  {
    assert [] + [a] == [a];
    ListingsMerge([], a);
    ListingIsPublishable([a]);
  }

  lemma OneMoreListed(a: string, b: string)
    requires Letters([a, b]) && StrLt(a, b)
    ensures Passes(Listing([a]), Listing([b]), Listing([a, b]))
  {
    assert [a] + [b] == [a, b];
    ListingsMerge([a], b);
    ListingIsPublishable([a, b]);
  }

  const SEED := Version("2026-01-01.1", None, Listing([]), Digest(Listing([])), "seed", 1)

  // The version of `a` began to be published at 5, that of `c` at 4, and that of `d` at 8, all after the seed.
  const FORK := Plan(
    SEED, Listing(["a"]), Listing(["c"]), Listing(["d"]), Listing(["a"]), Listing(["a", "c"]), Listing(["a", "d"]),
    "2026-01-02.1", "2026-01-03.1", "2026-01-04.1", 5, 4, 8)

  lemma ForkPasses()
    ensures AllPass(FORK)
  {
    OneListed("a");
    OneMoreListed("a", "c");
    OneMoreListed("a", "d");
  }

  lemma ForkDiffers()
    ensures GraphsDiffer(FORK) && NamesDiffer(FORK)
  {
    assert |FORK.seed.graph.sources| == 0 && |FORK.afterA.sources| == 1;
    assert |FORK.afterC.sources| == |FORK.afterD.sources| == 2;
    assert FORK.afterC.sources[1].id == "c" && FORK.afterD.sources[1].id == "d";
    assert FORK.a.sources[0].id == "a" && FORK.c.sources[0].id == "c" && FORK.d.sources[0].id == "d";
    assert FORK.seed.name[9] == '1' && FORK.nameA[9] == '2' && FORK.nameC[9] == '3' && FORK.nameD[9] == '4';
  }

  lemma ForkNamesAreOk()
    ensures NamesOk(FORK)
  {
  }

  /** A run of nine requests from a seed that is published first ends in a fork. */
  lemma AForkingRun()
    ensures Workable(FORK) && FORK.seed.publishedAt < FORK.startC < FORK.startA
    ensures !Linear(Run(Opening(CURATORS, FORK.seed), Requests(FORK)).versions)
  {
    ForkPasses();
    ForkDiffers();
    ForkNamesAreOk();
    PublicationsMayFork(FORK);
  }
}
