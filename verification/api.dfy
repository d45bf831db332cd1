/**
 * The routed API (the student, tutor and admin routers, with middleware/auth.middleware.js):
 * every request first passes authentication (the caller must be a known user) and the
 * role gate of its router, then reaches its handler.
 */
module Api {
  import opened Types
  import opened Invariants
  import Sessions
  import TutorSessions
  import Reviews
  import AdminOps = Admin
  import Wishlists
  import TutorSearch

  /**
   * One request per modelled route, with the handler's inputs: the student router's
   * routes first, then the tutor router's, then the admin router's.
   */
  datatype Request =
    | SearchTutors(filters: TutorSearch.SearchFilters)
    | BookSession(booking: Sessions.BookingRequest)
    | GetTutorAvailability(tutorId: UserId, date: Day)
    | GetStudentSessions(status: string)
    | UpdateStudentSession(id: SessionId, status: string)
    | CreateReview(sessionId: SessionId, rating: Option<real>, comment: string)
    | GetTutorReviews(tutorId: UserId)
    | AddToWishlist(tutorId: UserId)
    | RemoveFromWishlist(tutorId: UserId)
    | GetWishlist
    | GetTutorSessions(status: string, startDate: Option<Day>, endDate: Option<Day>)
    | UpdateTutorSession(id: SessionId, status: string)
    | GetEarnings(period: string, now: Day, startDate: Option<Day>, endDate: Option<Day>)
    | GetPendingTutors
    | VerifyTutor(profileId: ProfileId, status: string, comment: string)

  /** What a successful request returns besides the (possibly new) store. */
  datatype Reply =
    | Done
    | Tutors(profiles: seq<TutorProfile>)
    | SlotsAndBookings(availability: Sessions.Availability)
    | SessionList(sessions: seq<Session>)
    | ReviewList(reviews: seq<ReviewId>)
    | TutorIds(tutors: seq<UserId>)
    | Report(report: TutorSessions.EarningsReport)

  datatype Response = Response(store: Store, result: Result<Reply>)

  /** The role a request's router is restricted to. */
  function RequiredRole(req: Request): Role
  {
    match req
    case GetTutorSessions(_, _, _) => Role.Tutor
    case UpdateTutorSession(_, _) => Role.Tutor
    case GetEarnings(_, _, _, _) => Role.Tutor
    case GetPendingTutors => Role.Admin
    case VerifyTutor(_, _, _) => Role.Admin
    case _ => Role.Student
  }

  /** Requests that only read the store. */
  predicate IsQuery(req: Request)
  {
    match req
    case BookSession(_) => false
    case UpdateStudentSession(_, _) => false
    case CreateReview(_, _, _) => false
    case AddToWishlist(_) => false
    case RemoveFromWishlist(_) => false
    case UpdateTutorSession(_, _) => false
    case VerifyTutor(_, _, _) => false
    case _ => true
  }

  /** A write's outcome as a response: the new store on success, the old one on failure. */
  function Commit(st: Store, r: Result<Store>): Response
  {
    match r
    case Ok(st') => Response(st', Ok(Done))
    case Err(e) => Response(st, Err(e))
  }

  /** The handler a request is routed to, for a caller who passed both gates. */
  function Dispatch(st: Store, caller: UserId, req: Request): Response
  {
    match req
    case SearchTutors(f) => Response(st, Ok(Tutors(TutorSearch.Search(st, f))))
    case BookSession(b) => Commit(st, Sessions.Book(st, caller, b))
    case GetTutorAvailability(t, d) =>
      (match Sessions.TutorAvailability(st, t, d)
       case Ok(a) => Response(st, Ok(SlotsAndBookings(a)))
       case Err(e) => Response(st, Err(e)))
    case GetStudentSessions(status) => Response(st, Ok(SessionList(Sessions.StudentSessions(st, caller, status))))
    case UpdateStudentSession(id, status) => Commit(st, Sessions.UpdateStatus(st, caller, id, status))
    case CreateReview(sid, rating, comment) => Commit(st, Reviews.CreateReview(st, caller, sid, rating, comment))
    case GetTutorReviews(t) => Response(st, Ok(ReviewList(Reviews.TutorReviews(st, t))))
    case AddToWishlist(t) => Commit(st, Wishlists.Add(st, caller, t))
    case RemoveFromWishlist(t) => Commit(st, Wishlists.Remove(st, caller, t))
    case GetWishlist => Response(st, Ok(TutorIds(Wishlists.Wishlist(st, caller))))
    case GetTutorSessions(status, from, to) =>
      Response(st, Ok(SessionList(TutorSessions.TutorSessionList(st, caller, status, from, to))))
    case UpdateTutorSession(id, status) => Commit(st, TutorSessions.UpdateStatus(st, caller, id, status))
    case GetEarnings(period, now, from, to) =>
      Response(st, Ok(Report(TutorSessions.Earnings(st, caller, TutorSessions.PeriodRange(period, now, from, to)))))
    case GetPendingTutors => Response(st, Ok(Tutors(AdminOps.PendingTutors(st))))
    case VerifyTutor(id, status, comment) => Commit(st, AdminOps.VerifyTutor(st, id, status, comment))
  }

  /**
   * A request end to end: an unknown caller is refused with Unauthenticated, a caller
   * of another role with Forbidden, before any handler runs. A failed request and a
   * query leave the store as it was.
   */
  function Handle(st: Store, caller: UserId, req: Request): (r: Response)
    ensures caller !in st.users ==> r == Response(st, Err(Unauthenticated))
    ensures caller in st.users && st.users[caller].role != RequiredRole(req) ==> r == Response(st, Err(Forbidden))
    ensures r.result.Ok? ==> caller in st.users && st.users[caller].role == RequiredRole(req)
    ensures r.result.Err? ==> r.store == st
    ensures IsQuery(req) ==> r.store == st
  {
    if caller !in st.users then Response(st, Err(Unauthenticated))
    else if st.users[caller].role != RequiredRole(req) then Response(st, Err(Forbidden))
    else Dispatch(st, caller, req)
  }

  /** Every request keeps every store invariant, whoever sends it. */
  lemma HandlePreservesValid(st: Store, caller: UserId, req: Request)
    requires Valid(st)
    ensures Valid(Handle(st, caller, req).store)
  {
    var r := Handle(st, caller, req);
    if r.store != st {
      match req
      case BookSession(b) =>
        Sessions.BookPreservesValid(st, caller, b);
      case UpdateStudentSession(id, status) =>
        Sessions.UpdateStatusPreservesValid(st, caller, id, status);
      case CreateReview(sid, rating, comment) =>
        Reviews.CreateReviewPreservesValid(st, caller, sid, rating, comment);
      case AddToWishlist(t) =>
        Wishlists.AddPreservesValid(st, caller, t);
      case RemoveFromWishlist(t) =>
        Wishlists.RemovePreservesValid(st, caller, t);
      case UpdateTutorSession(id, status) =>
        TutorSessions.UpdateStatusPreservesValid(st, caller, id, status);
      case VerifyTutor(id, status, comment) =>
        AdminOps.VerifyPreservesValid(st, id, status, comment);
      case _ =>
    }
  }

  /** A tutor or an admin can never book a session, whatever the request holds. */
  lemma OnlyStudentsBook(st: Store, caller: UserId, b: Sessions.BookingRequest)
    requires caller in st.users && st.users[caller].role != Role.Student
    ensures Handle(st, caller, BookSession(b)) == Response(st, Err(Forbidden))
  {
  }

  /**
   * A session counted by the earnings route: the tutor's own, completed and paid, and
   * dated within the window the period names.
   */
  predicate EarnedInPeriod(s: Session, tutor: UserId, period: string, now: Day, from: Option<Day>, to: Option<Day>)
  {
    && s.tutor == tutor && s.status == Completed && s.paymentStatus == PaymentCompleted
    && (period == "weekly" ==> now - 6 <= s.date <= now)
    && (period == "monthly" ==> now - 29 <= s.date <= now)
    && (period == "custom" && from.Some? && to.Some? ==> from.value <= s.date <= to.value)
  }

  /**
   * The earnings route reports exactly the sessions the period's window admits: the
   * last seven days through today, the last thirty, a custom range when both bounds are
   * given, and all time otherwise; the total is the sum of their prices.
   */
  lemma EarningsRouteWindow(st: Store, tutor: UserId, period: string, now: Day, from: Option<Day>, to: Option<Day>)
    requires tutor in st.users && st.users[tutor].role == Role.Tutor
    ensures var r := Handle(st, tutor, GetEarnings(period, now, from, to));
      && r.store == st && r.result.Ok? && r.result.value.Report?
      && exists paid: seq<Session> ::
           && (forall s :: multiset(paid)[s] ==
                           if EarnedInPeriod(s, tutor, period, now, from, to) then multiset(st.sessions)[s] else 0)
           && r.result.value.report.totalSessions == |paid|
           && r.result.value.report.totalEarnings == TutorSessions.PriceSum(paid)
  {
    var range := TutorSessions.PeriodRange(period, now, from, to);
    var paid := TutorSessions.PaidSessions(st, tutor, range);
    forall s
      ensures TutorSessions.Earned(s, tutor, range) <==> EarnedInPeriod(s, tutor, period, now, from, to)
    {
    }
    assert forall s :: multiset(paid)[s] ==
                       if EarnedInPeriod(s, tutor, period, now, from, to) then multiset(st.sessions)[s] else 0;
  }

  /**
   * The wishlist route: a student without a stored wishlist gets an empty list, and
   * after a successful add the list read back is the previous one with the tutor at
   * its end.
   */
  lemma WishlistRoute(st: Store, student: UserId, tutorId: UserId)
    requires student in st.users && st.users[student].role == Role.Student
    ensures student !in st.wishlists ==> Handle(st, student, GetWishlist) == Response(st, Ok(TutorIds([])))
    ensures Handle(st, student, GetWishlist).result.Ok?
    ensures Wishlists.Add(st, student, tutorId).Ok? ==>
            var st' := Wishlists.Add(st, student, tutorId).value;
            Handle(st', student, GetWishlist).result
            == Ok(TutorIds(Handle(st, student, GetWishlist).result.value.tutors + [tutorId]))
  {
  }
}
