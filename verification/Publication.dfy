/** Staging, reviewing and publishing candidate additions to the research graph. */
module Publication {
  import opened Wrappers
  import opened Text
  import opened ResearchGraph
  import GraphIssues

  datatype Status = Staged | Reviewed | Published

  datatype Candidate = Candidate(
    baseVersion: string, addition: Graph, status: Status, stagedBy: string, reviewedBy: Option<string>,
    publishedVersion: Option<string>)

  // `publishedAt` is the start of the publishing transaction.
  datatype Version = Version(
    name: string, parent: Option<string>, graph: Graph, contentHash: Digest, reviewedBy: string, publishedAt: int)

  datatype Desk = Desk(curators: set<string>, candidates: map<string, Candidate>, versions: seq<Version>)

  datatype Refusal =
    | CuratorForbidden | InvalidBody | VersionNotFound | InvalidGraph | CandidateDuplicate | CandidateConflict
    | CandidateNotFound | SelfReview | AlreadyReviewed | StaleBase | IdentifierConflict | EmptyCandidate
    | NotReviewed | VersionConflict | ContentAlreadyPublished

  datatype Reply =
    | StagedReply(idempotent: bool)
    | ReviewedReply(mergedContentHash: Digest)
    | AlreadyPublished
    | PublishedReply(contentHash: Digest)

  // ------------------------------------------------------------------ lookups

  predicate CandidateIdOk(id: string) { IdentOk(id) && |id| <= 120 }

  predicate Digits(s: string) { forall c :: c in s ==> '0' <= c <= '9' }

  /** Four digits, two digits and two digits joined by hyphens, a full stop, and a positive number. */
  predicate VersionNameOk(v: string) {
    && |v| >= 12 && v[4] == '-' && v[7] == '-' && v[10] == '.' && v[11] != '0'
    && Digits(v[..4]) && Digits(v[5..7]) && Digits(v[8..10]) && Digits(v[11..])
  }

  function Find(versions: seq<Version>, name: string): Option<Version> {
    if versions == [] then None
    else if versions[|versions| - 1].name == name then Some(versions[|versions| - 1])
    else Find(versions[..|versions| - 1], name)
  }

  /** Comes first by publication time, then by name, both descending. */
  predicate Newer(a: Version, b: Version) {
    a.publishedAt > b.publishedAt || (a.publishedAt == b.publishedAt && StrLt(b.name, a.name))
  }

  function Latest(versions: seq<Version>): (v: Version)
    requires versions != []
    ensures v in versions
  {
    if |versions| == 1 then versions[0]
    else
      var before := Latest(versions[..|versions| - 1]);
      if Newer(versions[|versions| - 1], before) then versions[|versions| - 1] else before
  }

  // ------------------------------------------------------------------ the three requests

  ghost function Stage(desk: Desk, id: string, base: string, addition: Graph, actor: string)
    : (Desk, Result<Reply, Refusal>)
  {
    if actor !in desk.curators then (desk, Err(CuratorForbidden))
    else if !CandidateIdOk(id) || !VersionNameOk(base) then (desk, Err(InvalidBody))
    else if Find(desk.versions, base).None? then (desk, Err(VersionNotFound))
    else
      var merged := Merge(Find(desk.versions, base).value.graph, addition);
      if merged.Err? || !Publishable(merged.value) then (desk, Err(InvalidGraph))
      else if
        exists other :: other in desk.candidates && other != id && SameContent(desk.candidates[other], base, addition)
      then (desk, Err(CandidateDuplicate))
      else if id in desk.candidates then
        if SameContent(desk.candidates[id], base, addition) && desk.candidates[id].stagedBy == actor
        then (desk, Ok(StagedReply(true))) else (desk, Err(CandidateConflict))
      else
        (desk.(candidates := desk.candidates[id := Candidate(base, addition, Staged, actor, None, None)]),
         Ok(StagedReply(false)))
  }

  predicate SameContent(c: Candidate, base: string, addition: Graph) {
    c.baseVersion == base && Digest(c.addition) == Digest(addition)
  }

  ghost function Review(desk: Desk, id: string, actor: string): (Desk, Result<Reply, Refusal>)
    requires desk.versions != []
  {
    if actor !in desk.curators then (desk, Err(CuratorForbidden))
    else if id !in desk.candidates then (desk, Err(CandidateNotFound))
    else
      var c, latest := desk.candidates[id], Latest(desk.versions);
      if c.stagedBy == actor then (desk, Err(SelfReview))
      else if c.status != Staged then (desk, Err(AlreadyReviewed))
      else if c.baseVersion != latest.name then (desk, Err(StaleBase))
      else
        var merged := Merge(latest.graph, c.addition);
        if merged.Err? then (desk, Err(IdentifierConflict))
        else if !Publishable(merged.value) then (desk, Err(InvalidGraph))
        else if Digest(merged.value) == latest.contentHash then (desk, Err(EmptyCandidate))
        else
          (desk.(candidates := desk.candidates[id := c.(status := Reviewed, reviewedBy := Some(actor))]),
           Ok(ReviewedReply(Digest(merged.value))))
  }

  ghost function Publish(desk: Desk, id: string, name: string, actor: string, startedAt: int)
    : (Desk, Result<Reply, Refusal>)
    requires desk.versions != []
  {
    if actor !in desk.curators then (desk, Err(CuratorForbidden))
    else if !VersionNameOk(name) then (desk, Err(InvalidBody))
    else if id !in desk.candidates then (desk, Err(CandidateNotFound))
    else
      var c, latest := desk.candidates[id], Latest(desk.versions);
      if c.status == Published && c.publishedVersion == Some(name) then (desk, Ok(AlreadyPublished))
      else if c.status != Reviewed then (desk, Err(NotReviewed))
      else if c.baseVersion != latest.name then (desk, Err(StaleBase))
      else
        var merged := Merge(latest.graph, c.addition);
        if merged.Err? then (desk, Err(IdentifierConflict))
        else if !Publishable(merged.value) then (desk, Err(InvalidGraph))
        else if Find(desk.versions, name).Some? then (desk, Err(VersionConflict))
        else if HashTaken(desk.versions, Digest(merged.value)) then (desk, Err(ContentAlreadyPublished))
        else
          var v := Version(name, Some(latest.name), merged.value, Digest(merged.value), Reviewer(c), startedAt);
          (desk.(candidates := desk.candidates[id := c.(status := Published, publishedVersion := Some(name))],
                 versions := desk.versions + [v]),
           Ok(PublishedReply(Digest(merged.value))))
  }

  function Reviewer(c: Candidate): string { if c.reviewedBy.Some? then c.reviewedBy.value else "" }

  /** The content hash of a version is unique in the table. */
  predicate HashTaken(versions: seq<Version>, hash: Digest) {
    exists i :: 0 <= i < |versions| && versions[i].contentHash == hash
  }

  // ------------------------------------------------------------------ the handlers

  class ResearchDesk {
    const curators: set<string>
    var candidates: map<string, Candidate>
    var versions: seq<Version>

    ghost function State(): Desk
      reads this
    {
      Desk(curators, candidates, versions)
    }

    constructor (curators: set<string>, seed: Version)
      ensures State() == Desk(curators, map[], [seed])
    {
      this.curators, candidates, versions := curators, map[], [seed];
    }

    method StageCandidate(id: string, base: string, addition: Graph, actor: string) returns (r: Result<Reply, Refusal>)
      modifies this
      ensures (State(), r) == Stage(old(State()), id, base, addition, actor)
    {
      if actor !in curators { return Err(CuratorForbidden); }
      if !CandidateIdOk(id) || !VersionNameOk(base) { return Err(InvalidBody); }
      var snapshot := Find(versions, base);
      if snapshot.None? { return Err(VersionNotFound); }
      var merged := MergeGraph(snapshot.value.graph, addition);
      if merged.Err? { return Err(InvalidGraph); }
      var issues := GraphIssues.Issues(merged.value);
      if issues != [] { return Err(InvalidGraph); }
      if exists other :: other in candidates && other != id && SameContent(candidates[other], base, addition) {
        return Err(CandidateDuplicate);
      }
      if id in candidates {
        if SameContent(candidates[id], base, addition) && candidates[id].stagedBy == actor {
          return Ok(StagedReply(true));
        }
        return Err(CandidateConflict);
      }
      candidates := candidates[id := Candidate(base, addition, Staged, actor, None, None)];
      return Ok(StagedReply(false));
    }

    method ReviewCandidate(id: string, actor: string) returns (r: Result<Reply, Refusal>)
      requires versions != []
      modifies this
      ensures (State(), r) == Review(old(State()), id, actor)
    {
      if actor !in curators { return Err(CuratorForbidden); }
      if id !in candidates { return Err(CandidateNotFound); }
      var candidate := candidates[id];
      if candidate.stagedBy == actor { return Err(SelfReview); }
      if candidate.status != Staged { return Err(AlreadyReviewed); }
      var latest := Latest(versions);
      if candidate.baseVersion != latest.name { return Err(StaleBase); }
      var merged := MergeGraph(latest.graph, candidate.addition);
      if merged.Err? { return Err(IdentifierConflict); }
      var issues := GraphIssues.Issues(merged.value);
      if issues != [] { return Err(InvalidGraph); }
      if Digest(merged.value) == latest.contentHash { return Err(EmptyCandidate); }
      candidates := candidates[id := candidate.(status := Reviewed, reviewedBy := Some(actor))];
      return Ok(ReviewedReply(Digest(merged.value)));
    }

    method PublishCandidate(id: string, name: string, actor: string, startedAt: int) returns (r: Result<Reply, Refusal>)
      requires versions != []
      modifies this
      ensures (State(), r) == Publish(old(State()), id, name, actor, startedAt)
    {
      if actor !in curators { return Err(CuratorForbidden); }
      if !VersionNameOk(name) { return Err(InvalidBody); }
      if id !in candidates { return Err(CandidateNotFound); }
      var candidate := candidates[id];
      if candidate.status == Published && candidate.publishedVersion == Some(name) { return Ok(AlreadyPublished); }
      if candidate.status != Reviewed { return Err(NotReviewed); }
      var latest := Latest(versions);
      if candidate.baseVersion != latest.name { return Err(StaleBase); }
      var merged := MergeGraph(latest.graph, candidate.addition);
      if merged.Err? { return Err(IdentifierConflict); }
      var issues := GraphIssues.Issues(merged.value);
      if issues != [] { return Err(InvalidGraph); }
      if Find(versions, name).Some? { return Err(VersionConflict); }
      var hash := Digest(merged.value);
      if HashTaken(versions, hash) { return Err(ContentAlreadyPublished); }
      versions := versions + [Version(name, Some(latest.name), merged.value, hash, Reviewer(candidate), startedAt)];
      candidates := candidates[id := candidate.(status := Published, publishedVersion := Some(name))];
      return Ok(PublishedReply(hash));
    }
  }
}
