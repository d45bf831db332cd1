/**
 * Reviews and the rating aggregator (controllers/review.controller.js): creating a
 * review of a completed session, which folds its rating into the tutor profile's
 * running mean, and listing a tutor's reviews.
 */
module Reviews {
  import opened Types
  import opened Invariants
  import Text
  import Sessions

  /** The caller has already reviewed the session. */
  predicate HasReview(rs: seq<Review>, student: UserId, sessionId: SessionId)
  {
    exists i | 0 <= i < |rs| :: rs[i].student == student && rs[i].session == sessionId
  }

  /**
   * A review the review schema accepts on save: a rating is present and within [1, 5],
   * and the comment is not blank once trimmed.
   */
  predicate Acceptable(rating: Option<real>, comment: string)
  {
    rating.Some? && 1.0 <= rating.value <= 5.0 && !Text.Blank(comment)
  }

  /** The running mean after one more rating: (avg * total + rating) / (total + 1). */
  function RunningMean(avg: real, total: nat, rating: real): (r: real)
    ensures r * ((total + 1) as real) == avg * (total as real) + rating
  {
    (avg * (total as real) + rating) / ((total + 1) as real)
  }

  /** A tutor averaging 4.0 over 3 reviews who receives a 5 averages 4.25 over 4. */
  lemma RunningMeanExample()
    ensures RunningMean(4.0, 3, 5.0) == 4.25
  {
  }

  /** The profile after one more rating: one more review, the mean moved accordingly. */
  function AddRating(p: TutorProfile, rating: real): (q: TutorProfile)
    ensures q.totalReviews == p.totalReviews + 1
    ensures q.averageRating * (q.totalReviews as real) == p.averageRating * (p.totalReviews as real) + rating
    ensures q == p.(totalReviews := q.totalReviews, averageRating := q.averageRating)
  {
    p.(totalReviews := p.totalReviews + 1, averageRating := RunningMean(p.averageRating, p.totalReviews, rating))
  }

  /**
   * createReview. Checks, in order: the session exists (NotFound), it is completed
   * (NotReviewable), the caller is its student (Forbidden), the caller has not reviewed
   * it yet (Conflict), the review passes schema validation (ValidationFailed); a missing
   * rating is only caught by that last check. On success one review is appended, and
   * the tutor's profile, when there is one, counts one more review with the rating
   * folded into its mean; a tutor without a profile still gets the review and no
   * profile changes.
   */
  function CreateReview(st: Store, caller: UserId, sessionId: SessionId, rating: Option<real>, comment: string)
    : (r: Result<Store>)
    ensures sessionId >= |st.sessions| ==> r == Err(NotFound)
    ensures sessionId < |st.sessions| && st.sessions[sessionId].status != Completed ==> r == Err(NotReviewable)
    ensures (sessionId < |st.sessions| && st.sessions[sessionId].status == Completed
             && st.sessions[sessionId].student != caller) ==> r == Err(Forbidden)
    ensures (sessionId < |st.sessions| && st.sessions[sessionId].status == Completed
             && st.sessions[sessionId].student == caller && HasReview(st.reviews, caller, sessionId))
            ==> r == Err(Conflict)
    ensures r.Ok? <==>
            && sessionId < |st.sessions| && st.sessions[sessionId].status == Completed
            && st.sessions[sessionId].student == caller && !HasReview(st.reviews, caller, sessionId)
            && Acceptable(rating, comment)
    ensures (sessionId < |st.sessions| && st.sessions[sessionId].status == Completed
             && st.sessions[sessionId].student == caller && !HasReview(st.reviews, caller, sessionId)
             && !Acceptable(rating, comment)) ==> r == Err(ValidationFailed)
    ensures r.Ok? ==>
      var tutor := st.sessions[sessionId].tutor;
      && r.value.reviews == st.reviews + [Review(caller, tutor, sessionId, rating.value, comment)]
      && r.value.sessions == st.sessions && r.value.users == st.users && r.value.wishlists == st.wishlists
      && match Sessions.ProfileOf(st.profiles, tutor)
         case None => r.value.profiles == st.profiles
         case Some(k) => r.value.profiles == st.profiles[k := AddRating(st.profiles[k], rating.value)]
  {
    if sessionId >= |st.sessions| then Err(NotFound)
    else
      var s := st.sessions[sessionId];
      if s.status != Completed then Err(NotReviewable)
      else if s.student != caller then Err(Forbidden)
      else if HasReview(st.reviews, caller, sessionId) then Err(Conflict)
      else if !Acceptable(rating, comment) then Err(ValidationFailed)
      else
        var reviews := st.reviews + [Review(caller, s.tutor, sessionId, rating.value, comment)];
        match Sessions.ProfileOf(st.profiles, s.tutor)
        case None => Ok(st.(reviews := reviews))
        case Some(k) => Ok(st.(reviews := reviews, profiles := st.profiles[k := AddRating(st.profiles[k], rating.value)]))
  }

  /**
   * Once the ownership and duplicate checks pass, a review without a rating, or whose
   * comment is only a vertical tab, is refused by schema validation and stores nothing.
   */
  lemma IncompleteReviewRefused(st: Store, caller: UserId, sessionId: SessionId, rating: Option<real>)
    requires sessionId < |st.sessions| && st.sessions[sessionId].status == Completed
    requires st.sessions[sessionId].student == caller && !HasReview(st.reviews, caller, sessionId)
    ensures CreateReview(st, caller, sessionId, None, "Great session") == Err(ValidationFailed)
    ensures CreateReview(st, caller, sessionId, rating, "\U{000B}") == Err(ValidationFailed)
  {
    assert Text.Blank("\U{000B}") by {
      assert "\U{000B}"[0] == '\U{000B}';
    }
  }

  /** Appending a review adds it to its own tutor's count and sum and to no one else's. */
  lemma AppendReviewLedger(rs: seq<Review>, r: Review, t: UserId)
    ensures RatingCount(rs + [r], t) == RatingCount(rs, t) + (if r.tutor == t then 1 else 0)
    ensures RatingSum(rs + [r], t) == RatingSum(rs, t) + (if r.tutor == t then r.rating else 0.0)
  {
    assert (rs + [r])[..|rs|] == rs;
  }

  /** A profile stays aggregated when a review is appended and folded in only if it is its tutor's. */
  lemma AggregatedAfterAppend(p: TutorProfile, rs: seq<Review>, r: Review)
    requires RatingsAggregated(p, rs)
    ensures RatingsAggregated(if r.tutor == p.user then AddRating(p, r.rating) else p, rs + [r])
  {
    AppendReviewLedger(rs, r, p.user);
  }

  /**
   * Creating a review keeps every store invariant; in particular each profile's
   * averageRating * totalReviews stays the sum of its tutor's ratings, and reviews stay
   * unique per (student, session).
   */
  lemma CreateReviewPreservesValid(st: Store, caller: UserId, sessionId: SessionId, rating: Option<real>, comment: string)
    requires Valid(st)
    requires CreateReview(st, caller, sessionId, rating, comment).Ok?
    ensures Valid(CreateReview(st, caller, sessionId, rating, comment).value)
  {
    var st' := CreateReview(st, caller, sessionId, rating, comment).value;
    var tutor := st.sessions[sessionId].tutor;
    var review := Review(caller, tutor, sessionId, rating.value, comment);
    var found := Sessions.ProfileOf(st.profiles, tutor);
    assert st'.reviews == st.reviews + [review];
    assert st'.profiles == if found.Some? then st.profiles[found.value := AddRating(st.profiles[found.value], rating.value)]
                           else st.profiles;
    forall k | 0 <= k < |st'.profiles|
      ensures RatingsAggregated(st'.profiles[k], st'.reviews)
    {
      var p := st.profiles[k];
      assert RatingsAggregated(p, st.reviews);
      AggregatedAfterAppend(p, st.reviews, review);
      if found.Some? && found.value == k {
        assert p.user == tutor;
      } else {
        assert p.user != tutor;
      }
    }
    assert UniqueProfileUsers(st'.profiles) by {
      assert forall k | 0 <= k < |st'.profiles| :: st'.profiles[k].user == st.profiles[k].user;
    }
    assert OneReviewPerSession(st'.reviews);
  }

  /** The reviews among the first n whose tutor is tutorId, latest first. */
  function NewestFirst(rs: seq<Review>, tutorId: UserId, n: nat): (r: seq<ReviewId>)
    requires n <= |rs|
    ensures forall i | 0 <= i < |r| :: r[i] < n
    ensures forall k: ReviewId :: k in r <==> k < n && rs[k].tutor == tutorId
    ensures forall i, j | 0 <= i < j < |r| :: r[i] > r[j]
  {
    if n == 0 then []
    else
      var rest := NewestFirst(rs, tutorId, n - 1);
      if rs[n - 1].tutor == tutorId then [n - 1] + rest else rest
  }

  /** getTutorReviews: exactly the reviews of the tutor, newest first. */
  function TutorReviews(st: Store, tutorId: UserId): (r: seq<ReviewId>)
    ensures forall k: ReviewId :: k in r <==> k < |st.reviews| && st.reviews[k].tutor == tutorId
    ensures forall i, j | 0 <= i < j < |r| :: r[i] > r[j]
  {
    NewestFirst(st.reviews, tutorId, |st.reviews|)
  }

  /** A review just created heads its tutor's review list. */
  lemma NewReviewListedFirst(st: Store, caller: UserId, sessionId: SessionId, rating: Option<real>, comment: string)
    requires CreateReview(st, caller, sessionId, rating, comment).Ok?
    ensures var st' := CreateReview(st, caller, sessionId, rating, comment).value;
            var listed := TutorReviews(st', st.sessions[sessionId].tutor);
            |listed| > 0 && listed[0] == |st.reviews|
  {
    var st' := CreateReview(st, caller, sessionId, rating, comment).value;
    var listed := TutorReviews(st', st.sessions[sessionId].tutor);
    assert |st.reviews| in listed;
    assert forall i | 0 < i < |listed| :: listed[0] > listed[i];
  }
}
