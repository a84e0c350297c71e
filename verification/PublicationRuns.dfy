/** Whole runs of staging, reviewing and publishing. */
module PublicationRuns {
  import opened Wrappers
  import opened ResearchGraph
  import opened Publication

  datatype Request =
    | StageRequest(id: string, base: string, addition: Graph, actor: string)
    | ReviewRequest(id: string, actor: string)
    | PublishRequest(id: string, name: string, actor: string, startedAt: int)

  ghost function Step(desk: Desk, q: Request): (r: (Desk, Result<Reply, Refusal>))
    requires desk.versions != []
    ensures r.0.versions != []
  {
    match q
    case StageRequest(id, base, addition, actor) => Stage(desk, id, base, addition, actor)
    case ReviewRequest(id, actor) => Review(desk, id, actor)
    case PublishRequest(id, name, actor, startedAt) => Publish(desk, id, name, actor, startedAt)
  }

  ghost function Run(desk: Desk, qs: seq<Request>): (r: Desk)
    requires desk.versions != []
    ensures r.versions != []
  {
    if qs == [] then desk else Step(Run(desk, qs[..|qs| - 1]), qs[|qs| - 1]).0
  }

  // ------------------------------------------------------------------ the invariant

  ghost predicate UniqueNames(versions: seq<Version>) {
    forall i, j :: 0 <= i < j < |versions| ==> versions[i].name != versions[j].name
  }

  /** A later version was made from the version that was latest at the time. */
  ghost predicate MadeFrom(v: Version, latest: Version) {
    v.parent == Some(latest.name) && Includes(v.graph, latest.graph) && Canonical(v.graph)
  }

  ghost predicate MadeInPlace(versions: seq<Version>, i: int)
    requires 1 <= i < |versions|
  {
    MadeFrom(versions[i], Latest(versions[..i]))
  }

  ghost predicate VersionsOk(versions: seq<Version>) {
    && versions != [] && UniqueNames(versions)
    && (forall v :: v in versions ==> Publishable(v.graph) && v.contentHash == Digest(v.graph))
    && (forall i :: 1 <= i < |versions| ==> MadeInPlace(versions, i))
  }

  /** A published candidate's version exists and has the candidate's base as parent. */
  ghost predicate PublishedAs(versions: seq<Version>, c: Candidate) {
    exists i ::
      1 <= i < |versions| && c.publishedVersion == Some(versions[i].name) && versions[i].parent == Some(c.baseVersion)
  }

  ghost predicate CandidateOk(versions: seq<Version>, c: Candidate) {
    && Find(versions, c.baseVersion).Some?
    && (c.status == Staged ==> c.reviewedBy == None)
    && (c.status != Staged ==> c.reviewedBy.Some? && c.reviewedBy.value != c.stagedBy)
    && (c.status == Published ==> PublishedAs(versions, c))
    && (c.status != Published ==> c.publishedVersion == None)
  }

  ghost predicate Sound(desk: Desk) {
    && VersionsOk(desk.versions)
    && (forall id :: id in desk.candidates ==> CandidateOk(desk.versions, desk.candidates[id]))
    && OwnVersions(desk.candidates)
  }

  /** No two candidates were published as the same version. */
  ghost predicate OwnVersions(candidates: map<string, Candidate>) {
    forall a, b :: a in candidates && b in candidates && a != b && candidates[a].publishedVersion.Some? ==>
      candidates[a].publishedVersion != candidates[b].publishedVersion
  }

  lemma {:induction false} FindIsByName(versions: seq<Version>, name: string)
    ensures Find(versions, name).Some? <==> exists v :: v in versions && v.name == name
    ensures Find(versions, name).Some? ==>
              Find(versions, name).value in versions && Find(versions, name).value.name == name
  {
    if versions != [] {
      FindIsByName(versions[..|versions| - 1], name);
      assert versions == versions[..|versions| - 1] + [versions[|versions| - 1]];
    }
  }

  lemma FindUnique(versions: seq<Version>, v: Version)
    requires UniqueNames(versions) && v in versions
    ensures Find(versions, v.name) == Some(v)
  {
    FindIsByName(versions, v.name);
  }

  lemma FindAfterAppend(versions: seq<Version>, v: Version, name: string)
    ensures Find(versions + [v], name) == if v.name == name then Some(v) else Find(versions, name)
  {
    assert (versions + [v])[..|versions|] == versions;
  }

  lemma AppendKeepsVersionsOk(versions: seq<Version>, v: Version)
    requires VersionsOk(versions) && Find(versions, v.name).None? && MadeFrom(v, Latest(versions))
    requires Publishable(v.graph) && v.contentHash == Digest(v.graph)
    ensures VersionsOk(versions + [v])
  {
    var longer := versions + [v];
    FindIsByName(versions, v.name);
    forall i | 1 <= i < |longer| ensures MadeInPlace(longer, i) {
      if i < |versions| {
        assert MadeInPlace(versions, i) && longer[..i] == versions[..i];
      } else {
        assert longer[..i] == versions;
      }
    }
  }

  lemma CandidateStaysOk(versions: seq<Version>, v: Version, c: Candidate)
    requires CandidateOk(versions, c)
    ensures CandidateOk(versions + [v], c)
  {
    FindAfterAppend(versions, v, c.baseVersion);
    if c.status == Published {
      var i :| 1 <= i < |versions|
               && c.publishedVersion == Some(versions[i].name) && versions[i].parent == Some(c.baseVersion);
      assert (versions + [v])[i] == versions[i];
    }
  }

  // ------------------------------------------------------------------ what a request can do

  /** The desk after a candidate is written. */
  function Written(desk: Desk, id: string, c: Candidate): Desk { desk.(candidates := desk.candidates[id := c]) }

  predicate Stages(desk: Desk, after: Desk, id: string, base: string, addition: Graph, actor: string) {
    && id !in desk.candidates && Find(desk.versions, base).Some?
    && after == Written(desk, id, Candidate(base, addition, Staged, actor, None, None))
  }

  predicate Reviews(desk: Desk, after: Desk, id: string, actor: string) {
    && id in desk.candidates && desk.candidates[id].status == Staged && desk.candidates[id].stagedBy != actor
    && after == Written(desk, id, desk.candidates[id].(status := Reviewed, reviewedBy := Some(actor)))
  }

  /** The version a publication would insert. */
  ghost function NewVersion(desk: Desk, id: string, name: string, startedAt: int): Version
    requires desk.versions != [] && id in desk.candidates
  {
    Version(name, Some(Latest(desk.versions).name), MergedOf(desk, id), Digest(MergedOf(desk, id)),
            Reviewer(desk.candidates[id]), startedAt)
  }

  ghost predicate Publishes(desk: Desk, after: Desk, id: string, name: string, startedAt: int)
    requires desk.versions != []
  {
    && id in desk.candidates && desk.candidates[id].status == Reviewed && Find(desk.versions, name).None?
    && desk.candidates[id].baseVersion == Latest(desk.versions).name
    && Merge(Latest(desk.versions).graph, desk.candidates[id].addition) == Ok(MergedOf(desk, id))
    && Publishable(MergedOf(desk, id))
    && after == Written(desk, id, desk.candidates[id].(status := Published, publishedVersion := Some(name)))
                .(versions := desk.versions + [NewVersion(desk, id, name, startedAt)])
  }

  lemma StageEffect(desk: Desk, id: string, base: string, addition: Graph, actor: string)
    ensures var after := Stage(desk, id, base, addition, actor).0;
            after == desk || Stages(desk, after, id, base, addition, actor)
  {
  }

  /** While a candidate's base is the latest version, what it would publish is its merge onto the latest graph. */
  lemma MergeOntoLatest(desk: Desk, id: string)
    requires VersionsOk(desk.versions) && id in desk.candidates
    requires desk.candidates[id].baseVersion == Latest(desk.versions).name
    ensures Merge(Latest(desk.versions).graph, desk.candidates[id].addition).Ok? ==>
              Merge(Latest(desk.versions).graph, desk.candidates[id].addition) == Ok(MergedOf(desk, id))
  {
    FindUnique(desk.versions, Latest(desk.versions));
  }

  lemma ReviewEffect(desk: Desk, id: string, actor: string)
    requires VersionsOk(desk.versions)
    ensures var (after, r) := Review(desk, id, actor);
            if r.Ok? then Reviews(desk, after, id, actor) && r == Ok(ReviewedReply(Digest(MergedOf(desk, id))))
            else after == desk
  {
    if id in desk.candidates && desk.candidates[id].baseVersion == Latest(desk.versions).name {
      MergeOntoLatest(desk, id);
    }
  }

  lemma RefusedPublishKeepsTheDesk(desk: Desk, id: string, name: string, actor: string, startedAt: int)
    requires desk.versions != []
    ensures var (after, r) := Publish(desk, id, name, actor, startedAt);
            (r.Ok? && r.value.PublishedReply?) || after == desk
  {
  }

  lemma AcceptedPublish(desk: Desk, id: string, name: string, actor: string, startedAt: int)
    requires VersionsOk(desk.versions)
    requires var r := Publish(desk, id, name, actor, startedAt).1; r.Ok? && r.value.PublishedReply?
    ensures Publishes(desk, Publish(desk, id, name, actor, startedAt).0, id, name, startedAt)
    ensures Publish(desk, id, name, actor, startedAt).1.value.contentHash == Digest(MergedOf(desk, id))
  {
    MergeOntoLatest(desk, id);
  }

  lemma PublishEffect(desk: Desk, id: string, name: string, actor: string, startedAt: int)
    requires VersionsOk(desk.versions)
    ensures var (after, r) := Publish(desk, id, name, actor, startedAt);
            if r.Ok? && r.value.PublishedReply?
            then Publishes(desk, after, id, name, startedAt) && r.value.contentHash == Digest(MergedOf(desk, id))
            else after == desk
  {
    var r := Publish(desk, id, name, actor, startedAt).1;
    if r.Ok? && r.value.PublishedReply? {
      AcceptedPublish(desk, id, name, actor, startedAt);
    } else {
      RefusedPublishKeepsTheDesk(desk, id, name, actor, startedAt);
    }
  }

  /** What publishing a candidate would produce: its addition merged onto its base version. */
  ghost function MergedOf(desk: Desk, id: string): Graph {
    if id in desk.candidates
    then MergeOrNothing(Find(desk.versions, desk.candidates[id].baseVersion), desk.candidates[id].addition)
    else NOTHING
  }

  function MergeOrNothing(base: Option<Version>, addition: Graph): Graph {
    if base.Some? && Merge(base.value.graph, addition).Ok? then Merge(base.value.graph, addition).value else NOTHING
  }

  lemma StagesKeepsSound(desk: Desk, after: Desk, id: string, base: string, addition: Graph, actor: string)
    requires Sound(desk) && Stages(desk, after, id, base, addition, actor)
    ensures Sound(after)
  {
  }

  lemma ReviewsKeepsSound(desk: Desk, after: Desk, id: string, actor: string)
    requires Sound(desk) && Reviews(desk, after, id, actor)
    ensures Sound(after)
  {
    assert CandidateOk(desk.versions, desk.candidates[id]);
    assert CandidateOk(after.versions, after.candidates[id]);
    assert OwnVersions(after.candidates);
  }

  lemma NameIsUnused(desk: Desk, name: string, id: string)
    requires Sound(desk) && Find(desk.versions, name).None? && id in desk.candidates
    ensures desk.candidates[id].publishedVersion != Some(name)
  {
    FindIsByName(desk.versions, name);
    assert CandidateOk(desk.versions, desk.candidates[id]);
  }

  lemma NewVersionIsOk(desk: Desk, after: Desk, id: string, name: string, startedAt: int)
    requires Sound(desk) && Publishes(desk, after, id, name, startedAt)
    ensures VersionsOk(after.versions)
  {
    var latest := Latest(desk.versions);
    PublishableIsUnique(latest.graph);
    MergeIsCanonicalUnion(latest.graph, desk.candidates[id].addition);
    AppendKeepsVersionsOk(desk.versions, NewVersion(desk, id, name, startedAt));
  }

  lemma NewCandidateIsOk(desk: Desk, after: Desk, id: string, name: string, startedAt: int)
    requires Sound(desk) && Publishes(desk, after, id, name, startedAt)
    ensures CandidateOk(after.versions, after.candidates[id])
  {
    var v := NewVersion(desk, id, name, startedAt);
    assert CandidateOk(desk.versions, desk.candidates[id]);
    FindAfterAppend(desk.versions, v, desk.candidates[id].baseVersion);
    assert after.versions[|desk.versions|] == v;
    assert PublishedAs(after.versions, after.candidates[id]);
  }

  lemma PublishesKeepsSound(desk: Desk, after: Desk, id: string, name: string, startedAt: int)
    requires Sound(desk) && Publishes(desk, after, id, name, startedAt)
    ensures Sound(after)
  {
    NewVersionIsOk(desk, after, id, name, startedAt);
    forall other | other in after.candidates ensures CandidateOk(after.versions, after.candidates[other]) {
      if other == id {
        NewCandidateIsOk(desk, after, id, name, startedAt);
      } else {
        CandidateStaysOk(desk.versions, NewVersion(desk, id, name, startedAt), desk.candidates[other]);
      }
    }
    NewVersionIsItsOwn(desk, after, id, name, startedAt);
  }

  lemma NewVersionIsItsOwn(desk: Desk, after: Desk, id: string, name: string, startedAt: int)
    requires Sound(desk) && Publishes(desk, after, id, name, startedAt)
    ensures OwnVersions(after.candidates)
  {
    forall a | a in desk.candidates ensures desk.candidates[a].publishedVersion != Some(name) {
      NameIsUnused(desk, name, a);
    }
  }

  lemma StepKeepsSound(desk: Desk, q: Request)
    requires Sound(desk)
    ensures Sound(Step(desk, q).0)
  {
    var after := Step(desk, q).0;
    match q
    case StageRequest(id, base, addition, actor) =>
      StageEffect(desk, id, base, addition, actor);
      if after != desk { StagesKeepsSound(desk, after, id, base, addition, actor); }
    case ReviewRequest(id, actor) =>
      ReviewEffect(desk, id, actor);
      if after != desk { ReviewsKeepsSound(desk, after, id, actor); }
    case PublishRequest(id, name, actor, startedAt) =>
      PublishEffect(desk, id, name, actor, startedAt);
      if after != desk { PublishesKeepsSound(desk, after, id, name, startedAt); }
  }

  /** The table as it starts: one published seed, nothing staged. */
  ghost function Opening(curators: set<string>, seed: Version): Desk { Desk(curators, map[], [seed]) }

  lemma {:induction false} RunKeepsSound(desk: Desk, qs: seq<Request>)
    requires Sound(desk)
    ensures Sound(Run(desk, qs))
  {
    if qs != [] {
      RunKeepsSound(desk, qs[..|qs| - 1]);
      StepKeepsSound(Run(desk, qs[..|qs| - 1]), qs[|qs| - 1]);
    }
  }

  /** Versions are only ever appended. */
  lemma {:induction false} VersionsAreAppendOnly(desk: Desk, qs: seq<Request>)
    requires Sound(desk)
    ensures desk.versions <= Run(desk, qs).versions
  {
    if qs != [] {
      VersionsAreAppendOnly(desk, qs[..|qs| - 1]);
      RunKeepsSound(desk, qs[..|qs| - 1]);
      StepOnlyAppends(Run(desk, qs[..|qs| - 1]), qs[|qs| - 1]);
    }
  }

  lemma StepOnlyAppends(desk: Desk, q: Request)
    requires VersionsOk(desk.versions)
    ensures desk.versions <= Step(desk, q).0.versions
  {
    match q
    case StageRequest(id, base, addition, actor) => StageEffect(desk, id, base, addition, actor);
    case ReviewRequest(id, actor) => ReviewEffect(desk, id, actor);
    case PublishRequest(id, name, actor, startedAt) => PublishEffect(desk, id, name, actor, startedAt);
  }

  /** Every run from a publishable seed is sound: each version is publishable and extends the latest one of its time. */
  lemma EveryRunIsSound(curators: set<string>, seed: Version, qs: seq<Request>)
    requires Publishable(seed.graph) && seed.contentHash == Digest(seed.graph)
    ensures Sound(Run(Opening(curators, seed), qs))
    ensures Run(Opening(curators, seed), qs).versions[0] == seed
  {
    RunKeepsSound(Opening(curators, seed), qs);
    VersionsAreAppendOnly(Opening(curators, seed), qs);
  }

  // ------------------------------------------------------------------ only curators act

  predicate AllBy(curators: set<string>, c: Candidate) {
    c.stagedBy in curators && (c.reviewedBy.Some? ==> c.reviewedBy.value in curators)
  }

  /** Everyone on record staged or reviewed as a curator; the seed was reviewed before. */
  ghost predicate ByCurators(desk: Desk) {
    && (forall id :: id in desk.candidates ==> AllBy(desk.curators, desk.candidates[id]))
    && (forall i :: 1 <= i < |desk.versions| ==> desk.versions[i].reviewedBy in desk.curators)
  }

  /** A request is answered with success, or changes anything at all, only for a curator. */
  lemma OnlyCuratorsAct(desk: Desk, q: Request)
    requires desk.versions != []
    ensures Step(desk, q).0.curators == desk.curators
    ensures Step(desk, q).1.Ok? || Step(desk, q).0 != desk ==> q.actor in desk.curators
  {
    CuratorsAreFixed(desk, q);
    if q.actor !in desk.curators { OthersAreRefused(desk, q); }
  }

  lemma CuratorsAreFixed(desk: Desk, q: Request)
    requires desk.versions != []
    ensures Step(desk, q).0.curators == desk.curators
  {
    match q
    case StageRequest(id, base, addition, actor) => StageEffect(desk, id, base, addition, actor);
    case ReviewRequest(id, actor) =>
    case PublishRequest(id, name, actor, startedAt) => RefusedPublishKeepsTheDesk(desk, id, name, actor, startedAt);
  }

  lemma OthersAreRefused(desk: Desk, q: Request)
    requires desk.versions != [] && q.actor !in desk.curators
    ensures Step(desk, q) == (desk, Err(CuratorForbidden))
  {
  }

  lemma StepKeepsByCurators(desk: Desk, q: Request)
    requires Sound(desk) && ByCurators(desk)
    ensures ByCurators(Step(desk, q).0)
  {
    var after := Step(desk, q).0;
    OnlyCuratorsAct(desk, q);
    match q
    case StageRequest(id, base, addition, actor) => StageEffect(desk, id, base, addition, actor);
    case ReviewRequest(id, actor) => ReviewEffect(desk, id, actor);
    case PublishRequest(id, name, actor, startedAt) =>
      PublishEffect(desk, id, name, actor, startedAt);
      if after != desk { PublishesKeepsByCurators(desk, after, id, name, startedAt); }
  }

  lemma PublishesKeepsByCurators(desk: Desk, after: Desk, id: string, name: string, startedAt: int)
    requires Sound(desk) && ByCurators(desk) && Publishes(desk, after, id, name, startedAt)
    ensures ByCurators(after)
  {
    assert CandidateOk(desk.versions, desk.candidates[id]);
  }

  /** In every run curators staged and reviewed all candidates, and reviewed all versions after the seed. */
  lemma {:induction false} EverythingIsByCurators(curators: set<string>, seed: Version, qs: seq<Request>)
    requires Publishable(seed.graph) && seed.contentHash == Digest(seed.graph)
    ensures Run(Opening(curators, seed), qs).curators == curators && ByCurators(Run(Opening(curators, seed), qs))
  {
    if qs != [] {
      var front, q := qs[..|qs| - 1], qs[|qs| - 1];
      EverythingIsByCurators(curators, seed, front);
      EveryRunIsSound(curators, seed, front);
      OnlyCuratorsAct(Run(Opening(curators, seed), front), q);
      StepKeepsByCurators(Run(Opening(curators, seed), front), q);
    }
  }

  /** At any point of any run, a request of somebody else is refused and changes nothing. */
  lemma OthersChangeNothing(curators: set<string>, seed: Version, qs: seq<Request>, q: Request)
    requires Publishable(seed.graph) && seed.contentHash == Digest(seed.graph) && q.actor !in curators
    ensures Run(Opening(curators, seed), qs + [q]) == Run(Opening(curators, seed), qs)
    ensures Step(Run(Opening(curators, seed), qs), q).1 == Err(CuratorForbidden)
  {
    EverythingIsByCurators(curators, seed, qs);
    assert (qs + [q])[..|qs|] == qs;
    OthersAreRefused(Run(Opening(curators, seed), qs), q);
  }

  // ------------------------------------------------------------------ candidates only move forward

  function Rank(s: Status): nat { match s case Staged => 0 case Reviewed => 1 case Published => 2 }

  /** What later requests can never change about a candidate. */
  ghost predicate Forward(before: Desk, after: Desk, id: string) {
    && id in before.candidates && id in after.candidates
    && var c, d := before.candidates[id], after.candidates[id];
       && d.baseVersion == c.baseVersion && d.addition == c.addition && d.stagedBy == c.stagedBy
       && Rank(c.status) <= Rank(d.status)
       && (c.reviewedBy.Some? ==> d.reviewedBy == c.reviewedBy)
       && (c.publishedVersion.Some? ==> d.publishedVersion == c.publishedVersion)
  }

  lemma PublishesMovesForward(desk: Desk, after: Desk, other: string, name: string, startedAt: int, id: string)
    requires Sound(desk) && Publishes(desk, after, other, name, startedAt) && id in desk.candidates
    ensures Forward(desk, after, id) && MergedOf(after, id) == MergedOf(desk, id)
  {
    var base := desk.candidates[id].baseVersion;
    assert CandidateOk(desk.versions, desk.candidates[id]) && CandidateOk(desk.versions, desk.candidates[other]);
    FindAfterAppend(desk.versions, NewVersion(desk, other, name, startedAt), base);
    FindIsByName(desk.versions, base);
    FindIsByName(desk.versions, name);
    assert Find(after.versions, base) == Find(desk.versions, base);
  }

  lemma ReviewsMovesForward(desk: Desk, after: Desk, other: string, actor: string, id: string)
    requires Sound(desk) && Reviews(desk, after, other, actor) && id in desk.candidates
    ensures Forward(desk, after, id) && MergedOf(after, id) == MergedOf(desk, id)
  {
    assert CandidateOk(desk.versions, desk.candidates[other]);
  }

  lemma StepMovesForward(desk: Desk, q: Request, id: string)
    requires Sound(desk) && id in desk.candidates
    ensures Forward(desk, Step(desk, q).0, id)
    ensures MergedOf(Step(desk, q).0, id) == MergedOf(desk, id)
  {
    var after := Step(desk, q).0;
    match q
    case StageRequest(other, base, addition, actor) => StageEffect(desk, other, base, addition, actor);
    case ReviewRequest(other, actor) =>
      ReviewEffect(desk, other, actor);
      if after != desk { ReviewsMovesForward(desk, after, other, actor, id); }
    case PublishRequest(other, name, actor, startedAt) =>
      PublishEffect(desk, other, name, actor, startedAt);
      if after != desk { PublishesMovesForward(desk, after, other, name, startedAt, id); }
  }

  lemma {:induction false} RunMovesForward(desk: Desk, qs: seq<Request>, id: string)
    requires Sound(desk) && id in desk.candidates
    ensures Forward(desk, Run(desk, qs), id)
    ensures MergedOf(Run(desk, qs), id) == MergedOf(desk, id)
  {
    if qs != [] {
      RunMovesForward(desk, qs[..|qs| - 1], id);
      RunKeepsSound(desk, qs[..|qs| - 1]);
      StepMovesForward(Run(desk, qs[..|qs| - 1]), qs[|qs| - 1], id);
    }
  }

  /** Whatever happens between the two, the hash published is the hash the reviewer was shown. */
  lemma ReviewedIsPublished(desk: Desk, id: string, reviewer: string, reviewed: Desk, shown: Digest, qs: seq<Request>,
                            name: string, publisher: string, startedAt: int, after: Desk, published: Digest)
    requires Sound(desk) && reviewed.versions != []
    requires Review(desk, id, reviewer) == (reviewed, Ok(ReviewedReply(shown)))
    requires Publish(Run(reviewed, qs), id, name, publisher, startedAt) == (after, Ok(PublishedReply(published)))
    ensures published == shown
    ensures after.versions != [] && var v := after.versions[|after.versions| - 1];
            && v.name == name && v.contentHash == shown && v.reviewedBy == reviewer
            && id in after.candidates && after.candidates[id].stagedBy != reviewer
  {
    var mid := Run(reviewed, qs);
    StepKeepsSound(desk, ReviewRequest(id, reviewer));
    ReviewEffect(desk, id, reviewer);
    assert MergedOf(reviewed, id) == MergedOf(desk, id);
    RunKeepsSound(reviewed, qs);
    RunMovesForward(reviewed, qs, id);
    PublishEffect(mid, id, name, publisher, startedAt);
  }

  // ------------------------------------------------------------------ the chain of versions

  /** One line of versions, each made from the one before it. */
  ghost predicate Linear(versions: seq<Version>) {
    forall i :: 1 <= i < |versions| ==> FollowsPrevious(versions, i)
  }

  ghost predicate FollowsPrevious(versions: seq<Version>, i: int)
    requires 1 <= i < |versions|
  {
    versions[i].parent == Some(versions[i - 1].name)
  }

  /** Each publication but the last sorted after everything published before it. */
  ghost predicate PublishedInOrder(versions: seq<Version>) {
    forall k :: 1 <= k < |versions| - 1 ==> NewerThanAllBefore(versions, k)
  }

  ghost predicate NewerThanAllBefore(versions: seq<Version>, k: int)
    requires 1 <= k < |versions|
  {
    Newer(versions[k], Latest(versions[..k]))
  }

  lemma LatestOfPrefix(versions: seq<Version>, i: nat)
    requires 1 <= i < |versions| && UniqueNames(versions)
    ensures Latest(versions[..i]).name == versions[i - 1].name <==>
            i == 1 || Newer(versions[i - 1], Latest(versions[..i - 1]))
  {
    if i > 1 {
      assert versions[..i][..i - 1] == versions[..i - 1];
      var before := Latest(versions[..i - 1]);
      var j :| 0 <= j < i - 1 && versions[j] == before;
      assert versions[j].name != versions[i - 1].name;
    }
  }

  /**
   The versions form one chain exactly when every publication but the last sorted after the versions then
   present. The order is by the start time of the publishing transaction, not by the lock it waits for.
   */
  lemma LinearIffInOrder(desk: Desk)
    requires Sound(desk)
    ensures Linear(desk.versions) <==> PublishedInOrder(desk.versions)
  {
    var vs := desk.versions;
    forall i | 1 <= i < |vs|
      ensures FollowsPrevious(vs, i) <==> i == 1 || NewerThanAllBefore(vs, i - 1)
    {
      assert MadeInPlace(vs, i);
      LatestOfPrefix(vs, i);
    }
    if Linear(vs) {
      forall k | 1 <= k < |vs| - 1 ensures NewerThanAllBefore(vs, k) {
        assert FollowsPrevious(vs, k + 1);
      }
    }
  }

  lemma IncludesIsTransitive(a: Graph, b: Graph, c: Graph)
    requires Includes(c, b) && Includes(b, a)
    ensures Includes(c, a)
  {
  }

  lemma IncludesThePrevious(versions: seq<Version>, i: nat)
    requires VersionsOk(versions) && 1 <= i < |versions| && FollowsPrevious(versions, i)
    ensures Includes(versions[i].graph, versions[i - 1].graph)
  {
    var latest := Latest(versions[..i]);
    assert MadeInPlace(versions, i);
    var k :| 0 <= k < i && versions[k] == latest;
    assert k == i - 1;
  }

  /** On a chain every version keeps every record of every earlier one, field for field. */
  lemma {:induction false} LaterVersionsInclude(versions: seq<Version>, j: nat, i: nat)
    requires VersionsOk(versions) && Linear(versions) && j <= i < |versions|
    ensures Includes(versions[i].graph, versions[j].graph)
  {
    if j < i {
      LaterVersionsInclude(versions, j, i - 1);
      assert FollowsPrevious(versions, i);
      IncludesThePrevious(versions, i);
      IncludesIsTransitive(versions[j].graph, versions[i - 1].graph, versions[i].graph);
    }
  }

  /** In any case every version keeps every record of the seed. */
  lemma {:induction false} EveryVersionIncludesTheSeed(versions: seq<Version>, i: nat)
    requires VersionsOk(versions) && i < |versions|
    ensures Includes(versions[i].graph, versions[0].graph)
  {
    if i > 0 {
      var latest := Latest(versions[..i]);
      assert MadeInPlace(versions, i);
      var k :| 0 <= k < i && versions[k] == latest;
      EveryVersionIncludesTheSeed(versions, k);
      IncludesIsTransitive(versions[0].graph, latest.graph, versions[i].graph);
    }
  }

  /** On a chain at most one candidate is ever published per base version. */
  lemma OnePublicationPerBase(desk: Desk, a: string, b: string)
    requires Sound(desk) && Linear(desk.versions)
    requires a in desk.candidates && b in desk.candidates
    requires desk.candidates[a].status == Published && desk.candidates[b].status == Published
    requires desk.candidates[a].baseVersion == desk.candidates[b].baseVersion
    ensures a == b
  {
    var vs, c, d := desk.versions, desk.candidates[a], desk.candidates[b];
    assert CandidateOk(vs, c) && CandidateOk(vs, d);
    var i :| 1 <= i < |vs| && c.publishedVersion == Some(vs[i].name) && vs[i].parent == Some(c.baseVersion);
    var j :| 1 <= j < |vs| && d.publishedVersion == Some(vs[j].name) && vs[j].parent == Some(d.baseVersion);
    assert FollowsPrevious(vs, i) && FollowsPrevious(vs, j);
    assert i == j;
  }

  /** The empty-candidate check refuses exactly the additions that bring nothing, once the base is in canonical form. */
  lemma EmptyCheckIff(desk: Desk, id: string, actor: string)
    requires Sound(desk) && id in desk.candidates
    requires Review(desk, id, actor).1.Ok? || Review(desk, id, actor).1 == Err(EmptyCandidate)
    ensures var latest := Latest(desk.versions).graph;
            Review(desk, id, actor).1 == Err(EmptyCandidate)
            <==> Canonical(latest) && Includes(latest, desk.candidates[id].addition)
  {
    var latest := Latest(desk.versions);
    PublishableIsUnique(latest.graph);
    DigestUnchangedIff(latest.graph, desk.candidates[id].addition);
  }

  /** Every version after the seed is in canonical form, so there the check is exact. */
  lemma OnlyTheSeedMayBeUnsorted(desk: Desk)
    requires Sound(desk)
    ensures Latest(desk.versions) == desk.versions[0] || Canonical(Latest(desk.versions).graph)
  {
    var i :| 0 <= i < |desk.versions| && desk.versions[i] == Latest(desk.versions);
    assert i == 0 || MadeInPlace(desk.versions, i);
  }
}
