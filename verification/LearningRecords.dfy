/** Attempts, evidence and reviews: what issuing, submitting and reviewing do to a learner's records. */
module LearningRecords {
  import opened Wrappers
  import opened Text
  import opened Lists
  import opened Mastery

  const ASSESSMENT_CORPUS := "learning.space.assessment.v1"

  datatype Attempt = Attempt(
    id: string, learner: string, concept: string, kind: Kind, corpus: string, issuedAt: int, submittedAt: Option<int>)

  datatype Evidence = Evidence(
    id: string, attempt: string, learner: string, concept: string, kind: Kind, corpus: string, submittedBy: string,
    independent: bool, passed: bool, createdAt: int)

  datatype Review = Review(id: string, evidence: string, reviewer: string, approved: bool, createdAt: int)

  datatype Records = Records(attempts: seq<Attempt>, evidence: seq<Evidence>, reviews: seq<Review>)

  // The card offered for a concept: the concept and the corpus it comes from.
  datatype Card = Card(concept: string, corpus: string)

  // `learner` is the one the delegations select for the actor, if any; ids are freshly drawn.
  datatype Request =
    | IssueRequest(id: string, learner: Option<string>, card: Option<Card>, kind: Kind, now: int)
    | SubmitRequest(id: string, learner: Option<string>, actor: string, attempt: string, kind: Kind,
                    cardAvailable: bool, passed: bool, now: int)
    | ReviewRequest(id: string, learner: Option<string>, actor: string, evidence: string, approved: bool, now: int)

  datatype Refusal =
    | CardUnavailable | LearnerForbidden | AttemptOpen | RecallNotDue | AttemptNotFound | EvidenceNotFound
    | SelfReviewDenied | ReviewAlreadyExists | IdCollision

  // ------------------------------------------------------------------ the evidence query

  predicate Sooner(a: Evidence, b: Evidence) {
    a.createdAt < b.createdAt || (a.createdAt == b.createdAt && StrLe(a.id, b.id))
  }

  predicate ReviewSooner(a: Review, b: Review) {
    a.createdAt < b.createdAt || (a.createdAt == b.createdAt && StrLe(a.id, b.id))
  }

  /** The review of an evidence row that was made last. */
  function LatestReview(reviews: seq<Review>, evidence: string): Option<Review> {
    if reviews == [] then None
    else
      var before, last := LatestReview(reviews[..|reviews| - 1], evidence), reviews[|reviews| - 1];
      if last.evidence == evidence && (before.None? || ReviewSooner(before.value, last)) then Some(last) else before
  }

  predicate Approved(reviews: seq<Review>, e: Evidence) {
    var latest := LatestReview(reviews, e.id);
    latest.Some? && latest.value.approved
  }

  /** In the assessment corpus a review overrides the provisional score. */
  predicate Passed(reviews: seq<Review>, e: Evidence) {
    if e.corpus == ASSESSMENT_CORPUS && LatestReview(reviews, e.id).Some? then Approved(reviews, e) else e.passed
  }

  function ToRow(reviews: seq<Review>, e: Evidence): Row {
    Row(e.concept, e.kind, Passed(reviews, e), e.independent, Approved(reviews, e), e.createdAt)
  }

  function ToRows(reviews: seq<Review>, es: seq<Evidence>): (r: seq<Row>) {
    if es == [] then [] else ToRows(reviews, es[..|es| - 1]) + [ToRow(reviews, es[|es| - 1])]
  }

  function EvidenceOf(evidence: seq<Evidence>, learner: string): seq<Evidence> {
    Sort(Filter(evidence, (e: Evidence) => e.learner == learner), Sooner)
  }

  function EvidenceRows(s: Records, learner: string): seq<Row> {
    ToRows(s.reviews, EvidenceOf(s.evidence, learner))
  }

  predicate IsDue(standings: seq<Standing>, concept: string) {
    exists i :: 0 <= i < |standings| && standings[i].concept == concept && standings[i].due
  }

  // ------------------------------------------------------------------ lookups

  predicate IsOpen(a: Attempt, learner: string, concept: string, kind: Kind) {
    a.learner == learner && a.concept == concept && a.kind == kind && a.submittedAt.None?
  }

  predicate HasOpen(attempts: seq<Attempt>, learner: string, concept: string, kind: Kind) {
    exists i :: 0 <= i < |attempts| && IsOpen(attempts[i], learner, concept, kind)
  }

  predicate Answerable(a: Attempt, id: string, learner: string, kind: Kind) {
    a.id == id && a.learner == learner && a.kind == kind && a.submittedAt.None?
  }

  function FindAnswerable(attempts: seq<Attempt>, id: string, learner: string, kind: Kind): (r: Option<nat>)
    ensures r.Some? ==> r.value < |attempts| && Answerable(attempts[r.value], id, learner, kind)
    ensures r.None? ==> forall a :: a in attempts ==> !Answerable(a, id, learner, kind)
  {
    if attempts == [] then None
    else if Answerable(attempts[|attempts| - 1], id, learner, kind) then Some(|attempts| - 1)
    else FindAnswerable(attempts[..|attempts| - 1], id, learner, kind)
  }

  function FindEvidence(evidence: seq<Evidence>, id: string, learner: string): (r: Option<Evidence>)
    ensures r.Some? ==> r.value in evidence && r.value.id == id && r.value.learner == learner
    ensures r.None? ==> forall e :: e in evidence ==> e.id != id || e.learner != learner
  {
    if evidence == [] then None
    else
      var last := evidence[|evidence| - 1];
      if last.id == id && last.learner == learner then Some(last)
      else FindEvidence(evidence[..|evidence| - 1], id, learner)
  }

  predicate AttemptIdTaken(attempts: seq<Attempt>, id: string) {
    exists i :: 0 <= i < |attempts| && attempts[i].id == id
  }

  /** Evidence ids are unique, and so is the attempt that evidence answers. */
  predicate EvidenceTaken(evidence: seq<Evidence>, id: string, attempt: string) {
    exists i :: 0 <= i < |evidence| && (evidence[i].id == id || evidence[i].attempt == attempt)
  }

  predicate HasReviewed(reviews: seq<Review>, evidence: string, reviewer: string) {
    exists i :: 0 <= i < |reviews| && reviews[i].evidence == evidence && reviews[i].reviewer == reviewer
  }

  predicate ReviewIdTaken(reviews: seq<Review>, id: string) {
    exists i :: 0 <= i < |reviews| && reviews[i].id == id
  }

  // ------------------------------------------------------------------ the three requests

  /** The refusal a request meets, if any. */
  function Refused(s: Records, q: Request): Option<Refusal> {
    match q
    case IssueRequest(id, learner, card, kind, now) =>
      if card.None? then Some(CardUnavailable)
      else if learner.None? then Some(LearnerForbidden)
      else if HasOpen(s.attempts, learner.value, card.value.concept, kind) then Some(AttemptOpen)
      else if kind == Recall && !IsDue(DeriveMastery(EvidenceRows(s, learner.value), now), card.value.concept)
      then Some(RecallNotDue)
      else if AttemptIdTaken(s.attempts, id) then Some(IdCollision)
      else None
    case SubmitRequest(id, learner, actor, attempt, kind, cardAvailable, passed, now) =>
      if learner.None? then Some(LearnerForbidden)
      else if FindAnswerable(s.attempts, attempt, learner.value, kind).None? then Some(AttemptNotFound)
      else if !cardAvailable then Some(CardUnavailable)
      else if EvidenceTaken(s.evidence, id, attempt) then Some(IdCollision)
      else None
    case ReviewRequest(id, learner, actor, evidence, approved, now) =>
      if learner.None? then Some(LearnerForbidden)
      else
        var found := FindEvidence(s.evidence, evidence, learner.value);
        if found.None? then Some(EvidenceNotFound)
        else if found.value.submittedBy == actor then Some(SelfReviewDenied)
        else if HasReviewed(s.reviews, evidence, actor) then Some(ReviewAlreadyExists)
        else if ReviewIdTaken(s.reviews, id) then Some(IdCollision)
        else None
  }

  function Accept(s: Records, q: Request): Records
    requires Refused(s, q).None?
  {
    match q
    case IssueRequest(id, learner, card, kind, now) =>
      s.(attempts := s.attempts + [Attempt(id, learner.value, card.value.concept, kind, card.value.corpus, now, None)])
    case SubmitRequest(id, learner, actor, attempt, kind, cardAvailable, passed, now) =>
      var i := FindAnswerable(s.attempts, attempt, learner.value, kind).value;
      var a := s.attempts[i];
      s.(attempts := s.attempts[i := a.(submittedAt := Some(now))],
         evidence := s.evidence
           + [Evidence(id, attempt, learner.value, a.concept, kind, a.corpus, actor, true, passed, now)])
    case ReviewRequest(id, learner, actor, evidence, approved, now) =>
      s.(reviews := s.reviews + [Review(id, evidence, actor, approved, now)])
  }

  /** A refused request changes nothing. */
  function Step(s: Records, q: Request): Records {
    if Refused(s, q).Some? then s else Accept(s, q)
  }

  // ------------------------------------------------------------------ the handlers

  class LearningDesk {
    var attempts: seq<Attempt>
    var evidence: seq<Evidence>
    var reviews: seq<Review>

    ghost function State(): Records
      reads this
    {
      Records(attempts, evidence, reviews)
    }

    constructor ()
      ensures State() == Records([], [], [])
    {
      attempts, evidence, reviews := [], [], [];
    }

    method IssueAttempt(id: string, learner: Option<string>, card: Option<Card>, kind: Kind, now: int)
      returns (r: Option<Refusal>)
      modifies this
      ensures r == Refused(old(State()), IssueRequest(id, learner, card, kind, now))
      ensures State() == Step(old(State()), IssueRequest(id, learner, card, kind, now))
    {
      if card.None? { return Some(CardUnavailable); }
      if learner.None? { return Some(LearnerForbidden); }
      if HasOpen(attempts, learner.value, card.value.concept, kind) { return Some(AttemptOpen); }
      if kind == Recall {
        var standings := Derive(EvidenceRows(Records(attempts, evidence, reviews), learner.value), now);
        if !IsDue(standings, card.value.concept) { return Some(RecallNotDue); }
      }
      if AttemptIdTaken(attempts, id) { return Some(IdCollision); }
      attempts := attempts + [Attempt(id, learner.value, card.value.concept, kind, card.value.corpus, now, None)];
      return None;
    }

    /** Closing the attempt and recording its evidence stand or fall together. */
    method SubmitAnswer(
      id: string, learner: Option<string>, actor: string, attempt: string, kind: Kind, cardAvailable: bool,
      passed: bool, now: int) returns (r: Option<Refusal>)
      modifies this
      ensures r == Refused(old(State()), SubmitRequest(id, learner, actor, attempt, kind, cardAvailable, passed, now))
      ensures State()
           == Step(old(State()), SubmitRequest(id, learner, actor, attempt, kind, cardAvailable, passed, now))
    {
      if learner.None? { return Some(LearnerForbidden); }
      var found := FindAnswerable(attempts, attempt, learner.value, kind);
      if found.None? { return Some(AttemptNotFound); }
      if !cardAvailable { return Some(CardUnavailable); }
      if EvidenceTaken(evidence, id, attempt) { return Some(IdCollision); }
      var a := attempts[found.value];
      attempts := attempts[found.value := a.(submittedAt := Some(now))];
      evidence := evidence
        + [Evidence(id, attempt, learner.value, a.concept, kind, a.corpus, actor, true, passed, now)];
      return None;
    }

    method ReviewEvidence(
      id: string, learner: Option<string>, actor: string, reviewed: string, approved: bool, now: int)
      returns (r: Option<Refusal>)
      modifies this
      ensures r == Refused(old(State()), ReviewRequest(id, learner, actor, reviewed, approved, now))
      ensures State() == Step(old(State()), ReviewRequest(id, learner, actor, reviewed, approved, now))
    {
      if learner.None? { return Some(LearnerForbidden); }
      var found := FindEvidence(evidence, reviewed, learner.value);
      if found.None? { return Some(EvidenceNotFound); }
      if found.value.submittedBy == actor { return Some(SelfReviewDenied); }
      if HasReviewed(reviews, reviewed, actor) { return Some(ReviewAlreadyExists); }
      if ReviewIdTaken(reviews, id) { return Some(IdCollision); }
      reviews := reviews + [Review(id, reviewed, actor, approved, now)];
      return None;
    }
  }
}
