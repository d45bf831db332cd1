/**
 * The tutor verification workflow (controllers/admin.controller.js): listing the
 * profiles awaiting verification, and an admin's approve/reject decision, which
 * cascades to the tutor user's isVerified flag.
 */
module Admin {
  import opened Types
  import opened Seqs
  import opened Invariants

  /** The decisions an admin may send. */
  function ParseDecision(status: string): (r: Option<Verification>)
    ensures r.Some? <==> status == "approved" || status == "rejected"
    ensures r.Some? ==> r.value.Name() == status
  {
    if status == "approved" then Some(Approved)
    else if status == "rejected" then Some(Rejected)
    else None
  }

  /** getPendingTutors: exactly the profiles whose verification is pending. */
  function PendingTutors(st: Store): (r: seq<TutorProfile>)
    ensures forall p :: multiset(r)[p] ==
                        if p.verificationStatus == VerificationPending then multiset(st.profiles)[p] else 0
  {
    Filter(st.profiles, (p: TutorProfile) => p.verificationStatus == VerificationPending)
  }

  /**
   * verifyTutor. Checks, in order: the status is approved or rejected (InvalidStatus,
   * before any lookup), the profile exists (NotFound). Then the profile takes the
   * decision, a non-empty comment replaces the stored one (an empty one keeps it), and
   * the profile's user, if it exists, gets isVerified exactly when approved. Nothing
   * else changes.
   */
  function VerifyTutor(st: Store, id: ProfileId, status: string, comment: string): (r: Result<Store>)
    ensures ParseDecision(status).None? ==> r == Err(InvalidStatus)
    ensures ParseDecision(status).Some? && id >= |st.profiles| ==> r == Err(NotFound)
    ensures r.Ok? <==> ParseDecision(status).Some? && id < |st.profiles|
    ensures r.Ok? ==> |r.value.profiles| == |st.profiles| && id < |st.profiles|
    ensures r.Ok? ==>
      var p := st.profiles[id];
      var q := r.value.profiles[id];
      && q.verificationStatus.Name() == status
      && q.verificationComment == (if comment != "" then Some(comment) else p.verificationComment)
      && q == p.(verificationStatus := q.verificationStatus, verificationComment := q.verificationComment)
      && (forall k | 0 <= k < |st.profiles| && k != id :: r.value.profiles[k] == st.profiles[k])
      && (p.user in st.users ==>
            r.value.users == st.users[p.user := st.users[p.user].(isVerified := status == "approved")])
      && (p.user !in st.users ==> r.value.users == st.users)
      && r.value.sessions == st.sessions && r.value.reviews == st.reviews && r.value.wishlists == st.wishlists
  {
    match ParseDecision(status)
    case None => Err(InvalidStatus)
    case Some(decision) =>
      if id >= |st.profiles| then Err(NotFound)
      else
        var p := st.profiles[id];
        var p' := p.(verificationStatus := decision,
                     verificationComment := if comment != "" then Some(comment) else p.verificationComment);
        var users := if p.user in st.users
                     then st.users[p.user := st.users[p.user].(isVerified := decision == Approved)]
                     else st.users;
        Ok(st.(profiles := st.profiles[id := p'], users := users))
  }

  /** After a decision the user's flag agrees with the profile: verified exactly when approved. */
  lemma VerifiedFlagFollowsDecision(st: Store, id: ProfileId, status: string, comment: string)
    requires VerifyTutor(st, id, status, comment).Ok?
    requires st.profiles[id].user in st.users
    ensures var st' := VerifyTutor(st, id, status, comment).value;
            var q := st'.profiles[id];
            q.user in st'.users && (st'.users[q.user].isVerified <==> q.verificationStatus == Approved)
  {
  }

  /** Repeating a decision changes nothing more. */
  lemma VerifyIdempotent(st: Store, id: ProfileId, status: string, comment: string)
    requires VerifyTutor(st, id, status, comment).Ok?
    ensures var st' := VerifyTutor(st, id, status, comment).value;
            VerifyTutor(st', id, status, comment) == Ok(st')
  {
    var st' := VerifyTutor(st, id, status, comment).value;
    var st'' := VerifyTutor(st', id, status, comment).value;
    assert st''.profiles == st'.profiles;
    assert st''.users == st'.users;
  }

  /** A decision keeps every store invariant (ratings and the profile's user are untouched). */
  lemma VerifyPreservesValid(st: Store, id: ProfileId, status: string, comment: string)
    requires Valid(st)
    requires VerifyTutor(st, id, status, comment).Ok?
    ensures Valid(VerifyTutor(st, id, status, comment).value)
  {
    var st' := VerifyTutor(st, id, status, comment).value;
    assert forall k | 0 <= k < |st.profiles| ::
      st'.profiles[k].user == st.profiles[k].user
      && st'.profiles[k].totalReviews == st.profiles[k].totalReviews
      && st'.profiles[k].averageRating == st.profiles[k].averageRating;
  }
}
