/** When the published versions do form one chain: each publication begins after its candidate's review. */
module PublicationTiming {
  import opened Wrappers
  import opened ResearchGraph
  import opened Publication
  import opened PublicationRuns

  // A request and the moment it takes effect, while it holds the lock.
  datatype Timed = Timed(q: Request, at: int)

  // The desk, when each candidate passed its review, and the current time.
  datatype World = World(desk: Desk, reviewedAt: map<string, int>, now: int)

  ghost function Next(w: World, t: Timed): (v: World)
    requires w.desk.versions != []
    ensures v.desk.versions != []
  {
    var (desk, r) := Step(w.desk, t.q);
    World(desk, if t.q.ReviewRequest? && r.Ok? then w.reviewedAt[t.q.id := t.at] else w.reviewedAt, t.at)
  }

  ghost function TimedRun(w: World, ts: seq<Timed>): (v: World)
    requires w.desk.versions != []
    ensures v.desk.versions != []
  {
    if ts == [] then w else Next(TimedRun(w, ts[..|ts| - 1]), ts[|ts| - 1])
  }

  /**
   Time does not run backwards, a transaction begins before it takes effect, and one that publishes a candidate begins
   after the review of that candidate.
   */
  predicate Prompt(w: World, t: Timed) {
    && w.now <= t.at
    && (t.q.PublishRequest? ==>
          t.q.startedAt <= t.at && (t.q.id in w.reviewedAt ==> w.reviewedAt[t.q.id] < t.q.startedAt))
  }

  ghost predicate PromptAt(w: World, ts: seq<Timed>, i: int)
    requires w.desk.versions != [] && 0 <= i < |ts|
  {
    Prompt(TimedRun(w, ts[..i]), ts[i])
  }

  ghost predicate PromptRun(w: World, ts: seq<Timed>)
    requires w.desk.versions != []
  {
    forall i :: 0 <= i < |ts| ==> PromptAt(w, ts, i)
  }

  // ------------------------------------------------------------------ the invariant

  predicate Increasing(versions: seq<Version>) {
    forall i, j :: 0 <= i < j < |versions| ==> versions[i].publishedAt < versions[j].publishedAt
  }

  lemma {:induction false} LatestIsLast(versions: seq<Version>)
    requires versions != [] && Increasing(versions)
    ensures Latest(versions) == versions[|versions| - 1]
  {
    if |versions| > 1 {
      LatestIsLast(versions[..|versions| - 1]);
      assert versions[|versions| - 2].publishedAt < versions[|versions| - 1].publishedAt;
    }
  }

  /** A reviewed candidate of the latest version passed its review after that version was published. */
  predicate ReviewedLate(w: World, id: string)
    requires w.desk.versions != [] && id in w.desk.candidates
  {
    var c := w.desk.candidates[id];
    c.status == Reviewed && c.baseVersion == Latest(w.desk.versions).name ==>
      id in w.reviewedAt && Latest(w.desk.versions).publishedAt <= w.reviewedAt[id]
  }

  ghost predicate Timely(w: World) {
    && Sound(w.desk) && Increasing(w.desk.versions) && Latest(w.desk.versions).publishedAt <= w.now
    && (forall id :: id in w.desk.candidates ==> ReviewedLate(w, id))
  }

  lemma StageStaysTimely(w: World, t: Timed)
    requires Timely(w) && t.q.StageRequest? && w.now <= t.at
    ensures Timely(Next(w, t))
  {
    StepKeepsSound(w.desk, t.q);
    StageEffect(w.desk, t.q.id, t.q.base, t.q.addition, t.q.actor);
    var v := Next(w, t);
    forall id | id in v.desk.candidates ensures ReviewedLate(v, id) {
      if id in w.desk.candidates { assert ReviewedLate(w, id); }
    }
  }

  lemma ReviewStaysTimely(w: World, t: Timed)
    requires Timely(w) && t.q.ReviewRequest? && w.now <= t.at
    ensures Timely(Next(w, t))
  {
    StepKeepsSound(w.desk, t.q);
    ReviewEffect(w.desk, t.q.id, t.q.actor);
    var v := Next(w, t);
    forall id | id in v.desk.candidates ensures ReviewedLate(v, id) { assert ReviewedLate(w, id); }
  }

  /** Nothing has been staged on a version that is only now published. */
  lemma NewNameIsNoBase(desk: Desk, name: string, id: string)
    requires Sound(desk) && Find(desk.versions, name).None? && id in desk.candidates
    ensures desk.candidates[id].baseVersion != name
  {
    assert CandidateOk(desk.versions, desk.candidates[id]);
  }

  lemma LaterVersionIsLatest(versions: seq<Version>, v: Version)
    requires versions != [] && Increasing(versions) && Latest(versions).publishedAt < v.publishedAt
    ensures Increasing(versions + [v]) && Latest(versions + [v]) == v
  {
    LatestIsLast(versions);
    assert (versions + [v])[..|versions|] == versions;
  }

  lemma PublishedStaysTimely(w: World, v: World, t: Timed)
    requires Timely(w) && t.q.PublishRequest? && Prompt(w, t) && Sound(v.desk)
    requires Publishes(w.desk, v.desk, t.q.id, t.q.name, t.q.startedAt) && v.reviewedAt == w.reviewedAt && v.now == t.at
    ensures Timely(v)
  {
    assert ReviewedLate(w, t.q.id);
    LaterVersionIsLatest(w.desk.versions, NewVersion(w.desk, t.q.id, t.q.name, t.q.startedAt));
    forall id | id in v.desk.candidates ensures ReviewedLate(v, id) {
      NewNameIsNoBase(w.desk, t.q.name, id);
    }
  }

  lemma PublishStaysTimely(w: World, t: Timed)
    requires Timely(w) && t.q.PublishRequest? && Prompt(w, t)
    ensures Timely(Next(w, t))
  {
    var v := Next(w, t);
    StepKeepsSound(w.desk, t.q);
    PublishEffect(w.desk, t.q.id, t.q.name, t.q.actor, t.q.startedAt);
    if v.desk == w.desk {
      forall id | id in v.desk.candidates ensures ReviewedLate(v, id) { assert ReviewedLate(w, id); }
    } else {
      PublishedStaysTimely(w, v, t);
    }
  }

  lemma {:induction false} RunStaysTimely(w: World, ts: seq<Timed>)
    requires Timely(w) && PromptRun(w, ts)
    ensures Timely(TimedRun(w, ts))
  {
    if ts != [] {
      var front, t := ts[..|ts| - 1], ts[|ts| - 1];
      forall i | 0 <= i < |front| ensures PromptAt(w, front, i) {
        assert front[..i] == ts[..i] && PromptAt(w, ts, i);
      }
      RunStaysTimely(w, front);
      assert PromptAt(w, ts, |ts| - 1);
      match t.q
      case StageRequest(_, _, _, _) => StageStaysTimely(TimedRun(w, front), t);
      case ReviewRequest(_, _) => ReviewStaysTimely(TimedRun(w, front), t);
      case PublishRequest(_, _, _, _) => PublishStaysTimely(TimedRun(w, front), t);
    }
  }

  lemma IncreasingIsLinear(desk: Desk)
    requires Sound(desk) && Increasing(desk.versions)
    ensures Linear(desk.versions)
  {
    var vs := desk.versions;
    forall i | 1 <= i < |vs| ensures FollowsPrevious(vs, i) {
      assert MadeInPlace(vs, i);
      LatestIsLast(vs[..i]);
    }
  }

  ghost function OpeningAt(curators: set<string>, seed: Version): World {
    World(Opening(curators, seed), map[], seed.publishedAt)
  }

  /**
   In every run whose publications each begin after the review of their candidate, the versions form one chain, in
   order of the times they carry.
   */
  lemma PromptRunsAreLinear(curators: set<string>, seed: Version, ts: seq<Timed>)
    requires Publishable(seed.graph) && seed.contentHash == Digest(seed.graph)
    requires PromptRun(OpeningAt(curators, seed), ts)
    ensures var versions := TimedRun(OpeningAt(curators, seed), ts).desk.versions;
            Increasing(versions) && Linear(versions)
  {
    RunStaysTimely(OpeningAt(curators, seed), ts);
    IncreasingIsLinear(TimedRun(OpeningAt(curators, seed), ts).desk);
  }
}
