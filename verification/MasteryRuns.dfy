/** What every run of issuing, submitting and reviewing keeps, and what it takes for a concept to be remembered. */
module MasteryRuns {
  import opened Wrappers
  import opened Text
  import opened Lists
  import opened Mastery
  import opened LearningRecords

  function Run(s: Records, qs: seq<Request>): Records {
    if qs == [] then s else Step(Run(s, qs[..|qs| - 1]), qs[|qs| - 1])
  }

  // ------------------------------------------------------------------ invariants

  /** At most one open attempt per learner, concept and kind; attempt ids are unique. */
  ghost predicate AttemptsSound(attempts: seq<Attempt>) {
    forall i, j :: 0 <= i < j < |attempts| ==>
      attempts[i].id != attempts[j].id && ClashFree(attempts[i], attempts[j])
  }

  predicate ClashFree(a: Attempt, b: Attempt) {
    a.submittedAt.None? && b.submittedAt.None? ==>
      a.learner != b.learner || a.concept != b.concept || a.kind != b.kind
  }

  /** The evidence a submitted attempt produced. */
  predicate Answers(e: Evidence, a: Attempt) {
    && e.attempt == a.id && e.learner == a.learner && e.concept == a.concept && e.kind == a.kind && e.corpus == a.corpus
    && e.independent && a.submittedAt == Some(e.createdAt)
  }

  ghost predicate EvidenceSound(attempts: seq<Attempt>, evidence: seq<Evidence>) {
    && (forall i, j :: 0 <= i < j < |evidence| ==>
          evidence[i].id != evidence[j].id && evidence[i].attempt != evidence[j].attempt)
    && (forall e :: e in evidence ==> Produced(attempts, e))
  }

  ghost predicate Produced(attempts: seq<Attempt>, e: Evidence) { exists a :: a in attempts && Answers(e, a) }

  ghost predicate Concluded(evidence: seq<Evidence>, a: Attempt) {
    a.submittedAt.Some? ==> exists e :: e in evidence && Answers(e, a)
  }

  ghost predicate OfAnother(evidence: seq<Evidence>, v: Review) { exists e :: e in evidence && Independent(v, e) }

  /** Every submitted attempt has its evidence. */
  ghost predicate SubmissionsSound(attempts: seq<Attempt>, evidence: seq<Evidence>) {
    forall a :: a in attempts ==> Concluded(evidence, a)
  }

  /** A review is of existing evidence that someone other than the reviewer submitted. */
  predicate Independent(v: Review, e: Evidence) { v.evidence == e.id && v.reviewer != e.submittedBy }

  ghost predicate ReviewsSound(evidence: seq<Evidence>, reviews: seq<Review>) {
    && (forall i, j :: 0 <= i < j < |reviews| ==> Unlike(reviews[i], reviews[j]))
    && (forall v :: v in reviews ==> OfAnother(evidence, v))
  }

  predicate Unlike(v: Review, w: Review) { v.id != w.id && (v.evidence != w.evidence || v.reviewer != w.reviewer) }

  ghost predicate Sound(s: Records) {
    && AttemptsSound(s.attempts) && EvidenceSound(s.attempts, s.evidence)
    && SubmissionsSound(s.attempts, s.evidence) && ReviewsSound(s.evidence, s.reviews)
  }

  lemma IssueKeepsSound(s: Records, q: Request)
    requires Sound(s) && q.IssueRequest? && Refused(s, q).None?
    ensures Sound(Accept(s, q))
  {
    var t := Accept(s, q);
    forall e | e in t.evidence ensures Produced(t.attempts, e) {
      var a :| a in s.attempts && Answers(e, a);
      assert a in t.attempts;
    }
  }

  lemma AttemptIdsAreUnique(s: Records, a: Attempt, b: Attempt)
    requires Sound(s) && a in s.attempts && b in s.attempts && a.id == b.id
    ensures a == b
  {
    var i :| 0 <= i < |s.attempts| && s.attempts[i] == a;
    var j :| 0 <= j < |s.attempts| && s.attempts[j] == b;
  }

  /** Closing an open attempt leaves the evidence of the others alone. */
  lemma ClosingKeepsProduced(attempts: seq<Attempt>, i: nat, closed: Attempt, e: Evidence)
    requires i < |attempts| && attempts[i].submittedAt.None? && Produced(attempts, e)
    ensures Produced(attempts[i := closed], e)
  {
    var a :| a in attempts && Answers(e, a);
    var k :| 0 <= k < |attempts| && attempts[k] == a;
    assert attempts[i := closed][k] == a;
  }

  lemma MoreEvidenceKeepsConcluded(evidence: seq<Evidence>, added: Evidence, a: Attempt)
    requires Concluded(evidence, a)
    ensures Concluded(evidence + [added], a)
  {
    if a.submittedAt.Some? {
      var e :| e in evidence && Answers(e, a);
      assert e in evidence + [added];
    }
  }

  /** Closing an open attempt and adding its evidence. */
  lemma ClosingKeepsEvidence(attempts: seq<Attempt>, evidence: seq<Evidence>, i: nat, closed: Attempt, added: Evidence)
    requires EvidenceSound(attempts, evidence) && SubmissionsSound(attempts, evidence)
    requires i < |attempts| && attempts[i].submittedAt.None? && Answers(added, closed)
    ensures forall e :: e in evidence + [added] ==> Produced(attempts[i := closed], e)
    ensures SubmissionsSound(attempts[i := closed], evidence + [added])
  {
    assert attempts[i := closed][i] == closed && (evidence + [added])[|evidence|] == added;
    forall e | e in evidence + [added] ensures Produced(attempts[i := closed], e) {
      if e != added { ClosingKeepsProduced(attempts, i, closed, e); }
    }
    forall a | a in attempts[i := closed] ensures Concluded(evidence + [added], a) {
      if a != closed { MoreEvidenceKeepsConcluded(evidence, added, a); }
    }
  }

  lemma MoreEvidenceKeepsReviews(s: Records, added: Evidence)
    requires ReviewsSound(s.evidence, s.reviews)
    ensures ReviewsSound(s.evidence + [added], s.reviews)
  {
    forall v | v in s.reviews ensures OfAnother(s.evidence + [added], v) {
      assert OfAnother(s.evidence, v);
      var e :| e in s.evidence && Independent(v, e);
      assert e in s.evidence + [added];
    }
  }

  lemma SubmitKeepsSound(s: Records, q: Request)
    requires Sound(s) && q.SubmitRequest? && Refused(s, q).None?
    ensures Sound(Accept(s, q))
  {
    var t := Accept(s, q);
    var i := FindAnswerable(s.attempts, q.attempt, q.learner.value, q.kind).value;
    ClosingKeepsEvidence(s.attempts, s.evidence, i, t.attempts[i], t.evidence[|s.evidence|]);
    MoreEvidenceKeepsReviews(s, t.evidence[|s.evidence|]);
    AttemptsStaySound(s.attempts, i, q.now);
  }

  lemma AttemptsStaySound(attempts: seq<Attempt>, i: nat, now: int)
    requires AttemptsSound(attempts) && i < |attempts|
    ensures AttemptsSound(attempts[i := attempts[i].(submittedAt := Some(now))])
  {
  }

  lemma ReviewKeepsSound(s: Records, q: Request)
    requires Sound(s) && q.ReviewRequest? && Refused(s, q).None?
    ensures Sound(Accept(s, q))
  {
    var e := FindEvidence(s.evidence, q.evidence, q.learner.value).value;
    assert Independent(Accept(s, q).reviews[|s.reviews|], e);
  }

  /** Every run keeps the records sound. */
  lemma {:induction false} EveryRunIsSound(qs: seq<Request>)
    ensures Sound(Run(Records([], [], []), qs))
  {
    if qs != [] {
      EveryRunIsSound(qs[..|qs| - 1]);
      var s, q := Run(Records([], [], []), qs[..|qs| - 1]), qs[|qs| - 1];
      if Refused(s, q).None? {
        match q
        case IssueRequest(_, _, _, _, _) => IssueKeepsSound(s, q);
        case SubmitRequest(_, _, _, _, _, _, _, _) => SubmitKeepsSound(s, q);
        case ReviewRequest(_, _, _, _, _, _) => ReviewKeepsSound(s, q);
      }
    }
  }

  /** An attempt that has evidence can never be answered again, whoever asks. */
  lemma SubmittedOnlyOnce(s: Records, e: Evidence, learner: string, kind: Kind)
    requires Sound(s) && e in s.evidence
    ensures FindAnswerable(s.attempts, e.attempt, learner, kind).None?
  {
    assert Produced(s.attempts, e);
    var a :| a in s.attempts && Answers(e, a);
    var found := FindAnswerable(s.attempts, e.attempt, learner, kind);
    if found.Some? { AttemptIdsAreUnique(s, a, s.attempts[found.value]); }
  }

  // ------------------------------------------------------------------ the rows of one concept

  lemma {:induction false} SortOfSorted<T(!new)>(s: seq<T>, le: (T, T) -> bool)
    requires Sorted(s, le)
    ensures Sort(s, le) == s
  {
    if s != [] {
      SortOfSorted(s[1..], le);
      assert |s| > 1 ==> le(s[0], s[1]);
      assert s == [s[0]] + s[1..];
    }
  }

  lemma {:induction false} FilterKeepsSorted<T(!new)>(s: seq<T>, le: (T, T) -> bool, keep: T -> bool)
    requires Sorted(s, le)
    ensures Sorted(Filter(s, keep), le)
  {
    if s != [] {
      FilterKeepsSorted(s[..|s| - 1], le, keep);
      FilterMeans(s[..|s| - 1], keep);
      var kept := Filter(s[..|s| - 1], keep);
      forall i | 0 <= i < |kept| ensures le(kept[i], s[|s| - 1]) {
        assert kept[i] in kept;
        var k :| 0 <= k < |s| - 1 && s[k] == kept[i];
      }
    }
  }

  /** The last element that passes a filter is the greatest one that does. */
  lemma LastIsGreatest<T(!new)>(s: seq<T>, le: (T, T) -> bool, keep: T -> bool)
    requires Sorted(s, le) && forall x :: x in s ==> le(x, x)
    ensures var last := Last(Filter(s, keep));
            && (last.None? ==> forall y :: y in s ==> !keep(y))
            && (last.Some? ==>
                  last.value in s && keep(last.value) && forall y :: y in s && keep(y) ==> le(y, last.value))
  {
    FilterMeans(s, keep);
    FilterKeepsSorted(s, le, keep);
    var kept := Filter(s, keep);
    forall y | y in s && keep(y) ensures kept != [] && le(y, kept[|kept| - 1]) {
      var i :| 0 <= i < |kept| && kept[i] == y;
      assert kept[|kept| - 1] in kept;
    }
  }

  lemma ToRowsSnoc(reviews: seq<Review>, es: seq<Evidence>, e: Evidence)
    ensures ToRows(reviews, es + [e]) == ToRows(reviews, es) + [ToRow(reviews, e)]
  {
    assert (es + [e])[..|es|] == es;
  }

  lemma {:induction false} RowsOfConcept(reviews: seq<Review>, es: seq<Evidence>, concept: string)
    ensures RowsOf(ToRows(reviews, es), concept) == ToRows(reviews, Filter(es, (e: Evidence) => e.concept == concept))
  {
    if es != [] {
      var front, last := es[..|es| - 1], es[|es| - 1];
      RowsOfConcept(reviews, front, concept);
      var about := (e: Evidence) => e.concept == concept;
      RowsOfSnoc(ToRows(reviews, front), ToRow(reviews, last), concept);
      ToRowsSnoc(reviews, Filter(front, about), last);
      assert Filter(front, about) + [] == Filter(front, about);
    }
  }

  lemma {:induction false} RowsInTime(reviews: seq<Review>, es: seq<Evidence>)
    requires Sorted(es, Sooner)
    ensures |ToRows(reviews, es)| == |es|
    ensures forall i :: 0 <= i < |es| ==> ToRows(reviews, es)[i] == ToRow(reviews, es[i])
    ensures Sorted(ToRows(reviews, es), Earlier)
  {
    if es != [] {
      RowsInTime(reviews, es[..|es| - 1]);
    }
  }

  lemma {:induction false} LastRow(
    reviews: seq<Review>, es: seq<Evidence>, keepRow: Row -> bool, keep: Evidence -> bool)
    requires forall e :: e in es ==> keepRow(ToRow(reviews, e)) == keep(e)
    ensures var last := Last(Filter(es, keep));
            Last(Filter(ToRows(reviews, es), keepRow)) == if last.None? then None else Some(ToRow(reviews, last.value))
  {
    if es != [] {
      var front, last := es[..|es| - 1], es[|es| - 1];
      LastRow(reviews, front, keepRow, keep);
      var rows := ToRows(reviews, front);
      assert (rows + [ToRow(reviews, last)])[..|rows|] == rows;
      assert last in es;
    }
  }

  /** The evidence on one concept, in order of time. */
  function About(s: Records, learner: string, concept: string): seq<Evidence> {
    Filter(EvidenceOf(s.evidence, learner), (e: Evidence) => e.concept == concept)
  }

  lemma SoonerIsTotalOrder()
    ensures TotalPreorder(Sooner)
    ensures forall a, b: Evidence :: Sooner(a, b) && Sooner(b, a) ==> a.id == b.id
  {
    StrLeIsTotalOrder();
  }

  lemma AboutMeans(s: Records, learner: string, concept: string)
    ensures Sorted(About(s, learner, concept), Sooner)
    ensures forall e :: e in About(s, learner, concept) <==>
              e in s.evidence && e.learner == learner && e.concept == concept
  {
    SoonerIsTotalOrder();
    var mine := Filter(s.evidence, (e: Evidence) => e.learner == learner);
    SortSorts(mine, Sooner);
    SortPermutes(mine, Sooner);
    FilterMeans(s.evidence, (e: Evidence) => e.learner == learner);
    FilterMeans(EvidenceOf(s.evidence, learner), (e: Evidence) => e.concept == concept);
    FilterKeepsSorted(EvidenceOf(s.evidence, learner), Sooner, (e: Evidence) => e.concept == concept);
  }

  // ------------------------------------------------------------------ what it takes to be remembered

  /** The learner's last independent assessment on a concept. */
  ghost predicate LatestAssessment(s: Records, a: Evidence) {
    && a in s.evidence && a.kind == Assessment
    && forall e :: e in s.evidence && e.learner == a.learner && e.concept == a.concept && e.kind == Assessment ==>
         Sooner(e, a)
  }

  /** A recall a day or more after the assessment, other than a success nobody has approved. */
  predicate Counts(s: Records, a: Evidence, r: Evidence) {
    && r in s.evidence && r.learner == a.learner && r.concept == a.concept && r.kind == Recall
    && r.createdAt >= a.createdAt + DAY && (Approved(s.reviews, r) || !Passed(s.reviews, r))
  }

  ghost predicate LatestRecallAfter(s: Records, a: Evidence, r: Evidence) {
    Counts(s, a, r) && forall e :: Counts(s, a, e) ==> Sooner(e, r)
  }

  /** Passed, and the last review of it is an approval by someone other than the submitter. */
  ghost predicate Endorsed(s: Records, e: Evidence) {
    && (e.corpus == ASSESSMENT_CORPUS || e.passed)
    && exists v :: LastReviewOf(s, v, e) && v.approved && v.reviewer != e.submittedBy
  }

  ghost predicate LastReviewOf(s: Records, v: Review, e: Evidence) {
    && v in s.reviews && v.evidence == e.id
    && forall w :: w in s.reviews && w.evidence == e.id ==> ReviewSooner(w, v)
  }

  ghost predicate Earned(s: Records, learner: string, concept: string, a: Evidence, r: Evidence) {
    && a.learner == learner && a.concept == concept
    && LatestAssessment(s, a) && Endorsed(s, a) && LatestRecallAfter(s, a, r) && Endorsed(s, r)
  }

  lemma {:induction false} LatestReviewMeans(reviews: seq<Review>, evidence: string)
    ensures LatestReview(reviews, evidence).None? ==> forall v :: v in reviews ==> v.evidence != evidence
    ensures LatestReview(reviews, evidence).Some? ==> var v := LatestReview(reviews, evidence).value;
              v in reviews && v.evidence == evidence
              && forall w :: w in reviews && w.evidence == evidence ==> ReviewSooner(w, v)
  {
    StrLeIsTotalOrder();
    if reviews != [] {
      LatestReviewMeans(reviews[..|reviews| - 1], evidence);
      assert forall w :: w in reviews ==> w in reviews[..|reviews| - 1] || w == reviews[|reviews| - 1];
    }
  }

  lemma EndorsedIff(s: Records, e: Evidence)
    requires Sound(s) && e in s.evidence
    ensures Endorsed(s, e) <==> Passed(s.reviews, e) && Approved(s.reviews, e)
  {
    LatestReviewMeans(s.reviews, e.id);
    StrLeIsTotalOrder();
    var latest := LatestReview(s.reviews, e.id);
    if latest.Some? {
      var v := latest.value;
      ReviewedByAnother(s, v, e);
      forall w | LastReviewOf(s, w, e) ensures w == v { OneReviewPerId(s, w, v); }
      assert LastReviewOf(s, v, e);
    }
  }

  lemma ReviewedByAnother(s: Records, v: Review, e: Evidence)
    requires Sound(s) && v in s.reviews && e in s.evidence && v.evidence == e.id
    ensures v.reviewer != e.submittedBy
  {
    assert OfAnother(s.evidence, v);
    var f :| f in s.evidence && Independent(v, f);
    OneEvidencePerId(s, e, f);
  }

  lemma OneReviewPerId(s: Records, v: Review, w: Review)
    requires Sound(s) && v in s.reviews && w in s.reviews && v.id == w.id
    ensures v == w
  {
    var i :| 0 <= i < |s.reviews| && s.reviews[i] == v;
    var j :| 0 <= j < |s.reviews| && s.reviews[j] == w;
  }

  lemma OneEvidencePerId(s: Records, e: Evidence, f: Evidence)
    requires Sound(s) && e in s.evidence && f in s.evidence && e.id == f.id
    ensures e == f
  {
    var i :| 0 <= i < |s.evidence| && s.evidence[i] == e;
    var j :| 0 <= j < |s.evidence| && s.evidence[j] == f;
  }

  // ------------------------------------------------------------------ the standing in terms of the records

  lemma StandingReadsTheRecords(s: Records, learner: string, concept: string, now: int)
    ensures StandingOf(EvidenceRows(s, learner), concept, now)
         == Mastery.Judge(concept, ToRows(s.reviews, About(s, learner, concept)), now)
  {
    AboutMeans(s, learner, concept);
    RowsOfConcept(s.reviews, EvidenceOf(s.evidence, learner), concept);
    RowsInTime(s.reviews, About(s, learner, concept));
    SortOfSorted(ToRows(s.reviews, About(s, learner, concept)), Earlier);
  }

  function LastAssessment(es: seq<Evidence>): Option<Evidence> {
    Last(Filter(es, (e: Evidence) => e.kind == Assessment))
  }

  lemma LastAssessmentMeans(s: Records, learner: string, concept: string)
    requires Sound(s)
    ensures var last := LastAssessment(About(s, learner, concept));
            && (forall a: Evidence :: a.learner == learner && a.concept == concept ==>
                  (LatestAssessment(s, a) <==> last == Some(a)))
            && (last.Some? ==> last.value in About(s, learner, concept))
  {
    AboutMeans(s, learner, concept);
    SoonerIsTotalOrder();
    var es := About(s, learner, concept);
    LastIsGreatest(es, Sooner, (e: Evidence) => e.kind == Assessment);
    var last := LastAssessment(es);
    forall a: Evidence | a.learner == learner && a.concept == concept && LatestAssessment(s, a)
      ensures last == Some(a)
    {
      assert a in es;
      OneEvidencePerId(s, a, last.value);
    }
  }

  lemma PassMeans(s: Records, learner: string, concept: string)
    requires Sound(s)
    ensures var last := LastAssessment(About(s, learner, concept));
            Pass(ToRows(s.reviews, About(s, learner, concept)))
              == if last.Some? && Endorsed(s, last.value) then Some(ToRow(s.reviews, last.value)) else None
  {
    var es := About(s, learner, concept);
    AboutMeans(s, learner, concept);
    LastAssessmentMeans(s, learner, concept);
    forall e | e in es ensures e.independent { assert Produced(s.attempts, e); }
    LastRow(s.reviews, es, (e: Row) => e.kind == Assessment && e.independent, (e: Evidence) => e.kind == Assessment);
    if LastAssessment(es).Some? { EndorsedIff(s, LastAssessment(es).value); }
  }

  function LastRecall(s: Records, es: seq<Evidence>, a: Evidence): Option<Evidence> {
    Last(Filter(es, (e: Evidence) => Counts(s, a, e)))
  }

  lemma LastRecallMeans(s: Records, a: Evidence)
    requires Sound(s)
    ensures var last := LastRecall(s, About(s, a.learner, a.concept), a);
            && (forall r :: LatestRecallAfter(s, a, r) <==> last == Some(r))
            && (last.None? ==> forall r :: !Counts(s, a, r))
  {
    var es := About(s, a.learner, a.concept);
    AboutMeans(s, a.learner, a.concept);
    SoonerIsTotalOrder();
    LastIsGreatest(es, Sooner, (e: Evidence) => Counts(s, a, e));
    var last := LastRecall(s, es, a);
    forall r | Counts(s, a, r) ensures r in es { }
    forall r | LatestRecallAfter(s, a, r) ensures last == Some(r) { OneEvidencePerId(s, r, last.value); }
  }

  lemma RecallMeans(s: Records, a: Evidence)
    requires Sound(s)
    ensures var last := LastRecall(s, About(s, a.learner, a.concept), a);
            LatestRecall(ToRows(s.reviews, About(s, a.learner, a.concept)), Some(ToRow(s.reviews, a)))
              == if last.None? then None else Some(ToRow(s.reviews, last.value))
  {
    var es := About(s, a.learner, a.concept);
    AboutMeans(s, a.learner, a.concept);
    forall e | e in es ensures e.independent { assert Produced(s.attempts, e); }
    var pass := ToRow(s.reviews, a);
    LastRow(s.reviews, es, (e: Row) => CountsAsRecall(e, pass), (e: Evidence) => Counts(s, a, e));
  }

  /** A counting recall is endorsed exactly when it counts as passed. */
  lemma CountedSuccessIsEndorsed(s: Records, a: Evidence, r: Evidence)
    requires Sound(s) && Counts(s, a, r)
    ensures Endorsed(s, r) <==> Passed(s.reviews, r)
  {
    EndorsedIff(s, r);
  }

  ghost predicate Demonstrates(s: Records, learner: string, concept: string, a: Evidence) {
    && a.learner == learner && a.concept == concept
    && LatestAssessment(s, a) && Endorsed(s, a) && forall r :: !Counts(s, a, r)
  }

  lemma StandingMeans(s: Records, learner: string, concept: string, now: int)
    requires Sound(s)
    ensures var state := StandingOf(EvidenceRows(s, learner), concept, now).state;
            && (state == Remembered <==> exists a, r :: Earned(s, learner, concept, a, r))
            && (state == Demonstrated <==> exists a :: Demonstrates(s, learner, concept, a))
  {
    StandingReadsTheRecords(s, learner, concept, now);
    LastAssessmentMeans(s, learner, concept);
    PassMeans(s, learner, concept);
    AboutMeans(s, learner, concept);
    var last := LastAssessment(About(s, learner, concept));
    if last.Some? && Endorsed(s, last.value) {
      var a := last.value;
      LastRecallMeans(s, a);
      RecallMeans(s, a);
      var recall := LastRecall(s, About(s, learner, concept), a);
      if recall.Some? {
        assert LatestRecallAfter(s, a, recall.value);
        CountedSuccessIsEndorsed(s, a, recall.value);
        assert Passed(s.reviews, recall.value) ==> Earned(s, learner, concept, a, recall.value);
      } else {
        assert Demonstrates(s, learner, concept, a);
      }
    }
  }

  predicate Mentions(rows: seq<Row>, concept: string) { exists r :: r in rows && r.concept == concept }

  lemma ListedStandings(rows: seq<Row>, now: int)
    ensures forall st :: st in DeriveMastery(rows, now) <==>
              (Mentions(rows, st.concept) && st == StandingOf(rows, st.concept, now))
  {
    StandingsSort(rows, now);
    ConceptsAreTheirs(rows);
    StandingsAreByConcept(rows, Concepts(rows), now);
  }

  lemma {:induction false} RowOfEvidence(reviews: seq<Review>, es: seq<Evidence>, e: Evidence)
    requires e in es
    ensures ToRow(reviews, e) in ToRows(reviews, es)
  {
    if e != es[|es| - 1] { RowOfEvidence(reviews, es[..|es| - 1], e); }
  }

  lemma AssessedConceptIsMentioned(s: Records, learner: string, concept: string, a: Evidence)
    requires a in s.evidence && a.learner == learner && a.concept == concept
    ensures Mentions(EvidenceRows(s, learner), concept)
  {
    var mine := (e: Evidence) => e.learner == learner;
    FilterMeans(s.evidence, mine);
    SortPermutes(Filter(s.evidence, mine), Sooner);
    RowOfEvidence(s.reviews, EvidenceOf(s.evidence, learner), a);
    assert ToRow(s.reviews, a).concept == concept;
  }

  ghost predicate Listed(rows: seq<Row>, now: int, concept: string, state: State) {
    exists st :: st in DeriveMastery(rows, now) && st.concept == concept && st.state == state
  }

  /**
   * After any run, a concept is listed as remembered exactly when the latest assessment is endorsed and the latest
   * recall that counts, made a day or more after it, is endorsed too; endorsed means that the last review is an
   * approval by someone other than the submitter.
   */
  lemma RememberedIffEarned(qs: seq<Request>, learner: string, concept: string, now: int)
    ensures var s := Run(Records([], [], []), qs);
            Listed(EvidenceRows(s, learner), now, concept, Remembered) <==>
              exists a, r :: Earned(s, learner, concept, a, r)
  {
    var s := Run(Records([], [], []), qs);
    EveryRunIsSound(qs);
    StandingMeans(s, learner, concept, now);
    ListedStandings(EvidenceRows(s, learner), now);
    if a, r :| Earned(s, learner, concept, a, r) { AssessedConceptIsMentioned(s, learner, concept, a); }
  }

  /** After any run, a concept is demonstrated exactly when the latest assessment is endorsed and no recall counts. */
  lemma DemonstratedIff(qs: seq<Request>, learner: string, concept: string, now: int)
    ensures var s := Run(Records([], [], []), qs);
            Listed(EvidenceRows(s, learner), now, concept, Demonstrated) <==>
              exists a :: Demonstrates(s, learner, concept, a)
  {
    var s := Run(Records([], [], []), qs);
    EveryRunIsSound(qs);
    StandingMeans(s, learner, concept, now);
    ListedStandings(EvidenceRows(s, learner), now);
    if a :| Demonstrates(s, learner, concept, a) { AssessedConceptIsMentioned(s, learner, concept, a); }
  }

  /** A recall is due: a day after the assessment or an unsuccessful recall, a week after a successful one. */
  ghost predicate RecallDue(s: Records, learner: string, concept: string, a: Evidence, now: int) {
    && a.learner == learner && a.concept == concept && LatestAssessment(s, a) && Endorsed(s, a)
    && (forall r :: LatestRecallAfter(s, a, r) ==> r.createdAt + (if Endorsed(s, r) then 7 else 1) * DAY <= now)
    && ((forall r :: !Counts(s, a, r)) ==> a.createdAt + DAY <= now)
  }

  /** When the recall of a passed assessment is due, in terms of the last recall that counts. */
  function DueAt(s: Records, a: Evidence): int {
    var recall := LastRecall(s, About(s, a.learner, a.concept), a);
    if recall.None? then a.createdAt + DAY
    else recall.value.createdAt + (if Passed(s.reviews, recall.value) then 7 else 1) * DAY
  }

  lemma DueAtMeans(s: Records, a: Evidence, now: int)
    requires Sound(s) && LatestAssessment(s, a) && Endorsed(s, a)
    ensures DueAt(s, a) <= now <==> RecallDue(s, a.learner, a.concept, a, now)
  {
    LastRecallMeans(s, a);
    var recall := LastRecall(s, About(s, a.learner, a.concept), a);
    if recall.Some? {
      assert LatestRecallAfter(s, a, recall.value);
      CountedSuccessIsEndorsed(s, a, recall.value);
    }
  }

  lemma DueAtIsJudged(s: Records, learner: string, concept: string, now: int)
    requires Sound(s)
    ensures var last := LastAssessment(About(s, learner, concept));
            StandingOf(EvidenceRows(s, learner), concept, now).due <==>
              (last.Some? && Endorsed(s, last.value) && DueAt(s, last.value) <= now)
  {
    StandingReadsTheRecords(s, learner, concept, now);
    LastAssessmentMeans(s, learner, concept);
    PassMeans(s, learner, concept);
    var last := LastAssessment(About(s, learner, concept));
    if last.Some? && Endorsed(s, last.value) {
      AboutMeans(s, learner, concept);
      RecallMeans(s, last.value);
    }
  }

  lemma DueMeans(s: Records, learner: string, concept: string, now: int)
    requires Sound(s)
    ensures StandingOf(EvidenceRows(s, learner), concept, now).due <==>
              exists a :: RecallDue(s, learner, concept, a, now)
  {
    DueAtIsJudged(s, learner, concept, now);
    LastAssessmentMeans(s, learner, concept);
    AboutMeans(s, learner, concept);
    var last := LastAssessment(About(s, learner, concept));
    if last.Some? && Endorsed(s, last.value) { DueAtMeans(s, last.value, now); }
    forall a | RecallDue(s, learner, concept, a, now) ensures last == Some(a) { }
  }

  lemma DueIsListed(qs: seq<Request>, learner: string, concept: string, now: int)
    ensures var s := Run(Records([], [], []), qs);
            IsDue(DeriveMastery(EvidenceRows(s, learner), now), concept) <==>
              exists a :: RecallDue(s, learner, concept, a, now)
  {
    var s := Run(Records([], [], []), qs);
    EveryRunIsSound(qs);
    DueMeans(s, learner, concept, now);
    var rows := EvidenceRows(s, learner);
    ListedStandings(rows, now);
    var standings, mine := DeriveMastery(rows, now), StandingOf(rows, concept, now);
    if a :| RecallDue(s, learner, concept, a, now) {
      AssessedConceptIsMentioned(s, learner, concept, a);
      assert mine in standings;
    }
    if IsDue(standings, concept) {
      var i :| 0 <= i < |standings| && standings[i].concept == concept && standings[i].due;
      assert standings[i] in standings;
    }
  }

  /**
   After any run, a recall is issued exactly when none is open for the concept, one is due, and the new id is unused;
   it is refused as not due exactly when none is open and none is due.
   */
  lemma RecallIssuedIffDue(qs: seq<Request>, id: string, learner: string, card: Card, now: int)
    ensures var s := Run(Records([], [], []), qs);
            var refused := Refused(s, IssueRequest(id, Some(learner), Some(card), Recall, now));
            var vacant := !HasOpen(s.attempts, learner, card.concept, Recall);
            && (refused == None <==>
                  && vacant && !AttemptIdTaken(s.attempts, id)
                  && exists a :: RecallDue(s, learner, card.concept, a, now))
            && (refused == Some(RecallNotDue) <==> vacant && forall a :: !RecallDue(s, learner, card.concept, a, now))
  {
    DueIsListed(qs, learner, card.concept, now);
  }

  /** Every recall attempt on record was due when it was issued. */
  lemma {:induction false} RecallsWereDue(qs: seq<Request>, r: Attempt)
    requires r in Run(Records([], [], []), qs).attempts && r.kind == Recall
    ensures exists n, a ::
              0 <= n < |qs| && RecallDue(Run(Records([], [], []), qs[..n]), r.learner, r.concept, a, r.issuedAt)
  {
    var front, q := qs[..|qs| - 1], qs[|qs| - 1];
    var s := Run(Records([], [], []), front);
    if q.IssueRequest? && Refused(s, q).None? && r == Accept(s, q).attempts[|s.attempts|] {
      RecallIssuedIffDue(front, q.id, q.learner.value, q.card.value, q.now);
    } else {
      var before := EarlierForm(s, q, r);
      RecallsWereDue(front, before);
      var n, a :|
        0 <= n < |front| && RecallDue(Run(Records([], [], []), front[..n]), r.learner, r.concept, a, r.issuedAt);
      assert qs[..n] == front[..n];
    }
  }

  /** An attempt that the last request did not issue was on record before, perhaps not yet submitted. */
  lemma EarlierForm(s: Records, q: Request, r: Attempt) returns (before: Attempt)
    requires r in Step(s, q).attempts
    requires !(q.IssueRequest? && Refused(s, q).None? && r == Accept(s, q).attempts[|s.attempts|])
    ensures before in s.attempts && before.learner == r.learner && before.concept == r.concept
    ensures before.kind == r.kind && before.issuedAt == r.issuedAt
  {
    var i :| 0 <= i < |Step(s, q).attempts| && Step(s, q).attempts[i] == r;
    before := s.attempts[i];
  }
}
