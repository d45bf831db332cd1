/**
 * The store-wide invariants every modelled operation keeps:
 *  - no two pending/confirmed sessions of a tutor share a day and a start time;
 *  - every session has the shape the session schema enforces on save, and is paid
 *    only once completed;
 *  - each tutor profile's averageRating * totalReviews is the sum of the ratings
 *    aggregated for that tutor, and totalReviews is their number;
 *  - at most one review per (student, session), each rating within [1, 5];
 *  - every wishlist is free of duplicate tutors.
 */
module Invariants {
  import opened Types
  import opened Seqs

  /** Pending and confirmed sessions occupy their slot; cancelled and completed ones do not. */
  predicate Active(s: Session)
  {
    s.status == Pending || s.status == Confirmed
  }

  /** Same tutor, same calendar day and identical start-time string. */
  predicate SameSlot(a: Session, b: Session)
  {
    a.tutor == b.tutor && a.date == b.date && a.startTime == b.startTime
  }

  predicate NoDoubleBooking(ss: seq<Session>)
  {
    forall i, j | 0 <= i < |ss| && 0 <= j < |ss| && i != j ::
      !(Active(ss[i]) && Active(ss[j]) && SameSlot(ss[i], ss[j]))
  }

  /**
   * A saved session: location exactly for in-person sessions and meeting link exactly
   * for online ones, each non-empty when present; non-empty times; payment completed
   * only for a completed session.
   */
  predicate WellFormedSession(s: Session)
  {
    && (s.location.Some? <==> s.sessionType == InPerson)
    && (s.meetingLink.Some? <==> s.sessionType == Online)
    && (s.location.Some? ==> Present(s.location))
    && (s.meetingLink.Some? ==> Present(s.meetingLink))
    && |s.startTime| > 0 && |s.endTime| > 0
    && (s.paymentStatus == PaymentCompleted ==> s.status == Completed)
  }

  /** Number of reviews of tutor in rs. */
  function RatingCount(rs: seq<Review>, tutor: UserId): nat
  {
    if |rs| == 0 then 0
    else RatingCount(rs[..|rs| - 1], tutor) + (if rs[|rs| - 1].tutor == tutor then 1 else 0)
  }

  /** Sum of the ratings of the reviews of tutor in rs. */
  function RatingSum(rs: seq<Review>, tutor: UserId): real
  {
    if |rs| == 0 then 0.0
    else RatingSum(rs[..|rs| - 1], tutor) + (if rs[|rs| - 1].tutor == tutor then rs[|rs| - 1].rating else 0.0)
  }

  /** The profile's running mean describes exactly the reviews of its tutor in rs. */
  predicate RatingsAggregated(p: TutorProfile, rs: seq<Review>)
  {
    && p.totalReviews == RatingCount(rs, p.user)
    && p.averageRating * (p.totalReviews as real) == RatingSum(rs, p.user)
  }

  /** A tutor profile is one-to-one with its user. */
  predicate UniqueProfileUsers(ps: seq<TutorProfile>)
  {
    forall i, j | 0 <= i < |ps| && 0 <= j < |ps| && i != j :: ps[i].user != ps[j].user
  }

  predicate OneReviewPerSession(rs: seq<Review>)
  {
    forall i, j | 0 <= i < |rs| && 0 <= j < |rs| && i != j ::
      !(rs[i].student == rs[j].student && rs[i].session == rs[j].session)
  }

  predicate RatingsInRange(rs: seq<Review>)
  {
    forall i | 0 <= i < |rs| :: 1.0 <= rs[i].rating <= 5.0
  }

  predicate WishlistsDistinct(w: map<UserId, seq<UserId>>)
  {
    forall u | u in w :: NoDuplicates(w[u])
  }

  predicate Valid(st: Store)
  {
    && NoDoubleBooking(st.sessions)
    && (forall i | 0 <= i < |st.sessions| :: WellFormedSession(st.sessions[i]))
    && UniqueProfileUsers(st.profiles)
    && (forall k | 0 <= k < |st.profiles| :: RatingsAggregated(st.profiles[k], st.reviews))
    && OneReviewPerSession(st.reviews)
    && RatingsInRange(st.reviews)
    && WishlistsDistinct(st.wishlists)
  }

  /** With no reviews of the tutor, the count and the sum are both zero. */
  lemma {:induction false} NoReviewsSumZero(rs: seq<Review>, tutor: UserId)
    requires RatingCount(rs, tutor) == 0
    ensures RatingSum(rs, tutor) == 0.0
  {
    if |rs| > 0 {
      NoReviewsSumZero(rs[..|rs| - 1], tutor);
    }
  }

  /**
   * A new tutor profile carries the schema defaults: no rating, no reviews, pending
   * verification. Those rating defaults describe a tutor's ratings exactly when the
   * tutor has no reviews yet.
   */
  function NewProfile(user: UserId, bio: string, hourlyRate: real): (p: TutorProfile)
    ensures p.user == user && p.bio == bio && p.hourlyRate == hourlyRate
    ensures p.averageRating == 0.0 && p.totalReviews == 0
    ensures p.verificationStatus == VerificationPending && p.verificationComment == None
    ensures forall rs :: RatingsAggregated(p, rs) <==> RatingCount(rs, user) == 0
  {
    var p := TutorProfile(user, bio, [], hourlyRate, [], None, 0.0, 0, VerificationPending, None);
    assert forall rs :: RatingsAggregated(p, rs) <==> RatingCount(rs, user) == 0 by {
      forall rs: seq<Review>
        ensures RatingsAggregated(p, rs) <==> RatingCount(rs, user) == 0
      {
        if RatingCount(rs, user) == 0 {
          NoReviewsSumZero(rs, user);
        }
      }
    }
    p
  }

  /** With every rating in [1, 5], the sum of n ratings lies within [n, 5n]. */
  lemma {:induction false} RatingSumBounds(rs: seq<Review>, tutor: UserId)
    requires RatingsInRange(rs)
    ensures RatingCount(rs, tutor) as real <= RatingSum(rs, tutor) <= 5.0 * RatingCount(rs, tutor) as real
  {
    if |rs| > 0 {
      RatingSumBounds(rs[..|rs| - 1], tutor);
    }
  }

  /** A factor whose product with a positive number is non-negative is itself non-negative. */
  lemma NonNegativeFactor(x: real, n: real)
    requires n > 0.0 && x * n >= 0.0
    ensures x >= 0.0
  {
  }

  /** Once a tutor has a review, the running mean lies within [1, 5]. */
  lemma AverageInRange(st: Store, k: ProfileId)
    requires Valid(st) && k < |st.profiles|
    requires st.profiles[k].totalReviews >= 1
    ensures 1.0 <= st.profiles[k].averageRating <= 5.0
  {
    var p := st.profiles[k];
    var a := p.averageRating;
    var n := p.totalReviews as real;
    var sum := RatingSum(st.reviews, p.user);
    assert RatingsAggregated(p, st.reviews);
    RatingSumBounds(st.reviews, p.user);
    assert n <= sum <= 5.0 * n;
    assert (a - 1.0) * n == sum - n;
    assert (5.0 - a) * n == 5.0 * n - sum;
    NonNegativeFactor(a - 1.0, n);
    NonNegativeFactor(5.0 - a, n);
  }

  /** A store of fresh tutor profiles, with no sessions, reviews or wishlists, is valid. */
  lemma FreshStoreValid(users: map<UserId, User>, profiles: seq<TutorProfile>)
    requires UniqueProfileUsers(profiles)
    requires forall k | 0 <= k < |profiles| :: profiles[k].totalReviews == 0 && profiles[k].averageRating == 0.0
    ensures Valid(Store(users, profiles, [], [], map[]))
  {
  }
}
