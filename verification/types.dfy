/**
 * The document store of the tutoring backend, lifted into immutable values.
 *
 * Users, tutor profiles, sessions, reviews and wishlists are the collections the
 * controllers read and write. A session, tutor profile or review is identified by its
 * position in the store's insertion-ordered sequence: the modelled operations only ever
 * append to these collections, so a position never changes meaning. Users and
 * wishlists are keyed by user id (a wishlist is unique per student).
 */
module Types {

  datatype Option<+T> = None | Some(value: T)

  /** Every failure the modelled handlers report, one kind per distinct response. */
  datatype Error =
    | Unauthenticated    // 401: the caller is not a known user
    | InvalidStatus      // 400: the requested status is not one the handler accepts
    | NotFound           // 404: the referenced document does not exist
    | Forbidden          // 403: wrong role, or the caller does not own the document
    | Conflict           // 400: already booked, already reviewed, already wishlisted
    | InvalidTransition  // 400: the session is completed (or, for tutors, cancelled)
    | NotReviewable      // 400: only completed sessions can be reviewed
    | ValidationFailed   // 500: the schema rejected the document on save

  datatype Result<+T> = Ok(value: T) | Err(error: Error)

  type UserId = nat
  type SubjectId = nat
  /** Position of a session in Store.sessions. */
  type SessionId = nat
  /** Position of a tutor profile in Store.profiles. */
  type ProfileId = nat
  /** Position of a review in Store.reviews; later positions were created later. */
  type ReviewId = nat
  /** A calendar day, as an abstract day number. */
  type Day = int

  datatype Role = Student | Tutor | Admin

  datatype User = User(role: Role, isVerified: bool)

  datatype Weekday = Monday | Tuesday | Wednesday | Thursday | Friday | Saturday | Sunday
  {
    function Name(): string {
      match this
      case Monday => "Monday"
      case Tuesday => "Tuesday"
      case Wednesday => "Wednesday"
      case Thursday => "Thursday"
      case Friday => "Friday"
      case Saturday => "Saturday"
      case Sunday => "Sunday"
    }
  }

  /** A recurring weekly availability window; times are "HH:MM" strings. */
  datatype Slot = Slot(day: Weekday, startTime: string, endTime: string)

  datatype Verification = VerificationPending | Approved | Rejected
  {
    function Name(): string {
      match this
      case VerificationPending => "pending"
      case Approved => "approved"
      case Rejected => "rejected"
    }
  }

  datatype TutorProfile = TutorProfile(
    user: UserId,
    bio: string,
    subjects: seq<SubjectId>,
    hourlyRate: real,
    availability: seq<Slot>,
    city: Option<string>,
    averageRating: real,
    totalReviews: nat,
    verificationStatus: Verification,
    verificationComment: Option<string>)

  datatype SessionStatus = Pending | Confirmed | Completed | Cancelled
  {
    function Name(): string {
      match this
      case Pending => "pending"
      case Confirmed => "confirmed"
      case Completed => "completed"
      case Cancelled => "cancelled"
    }
  }

  datatype PaymentStatus = PaymentPending | PaymentCompleted

  datatype SessionType = InPerson | Online
  {
    function Name(): string {
      match this
      case InPerson => "in-person"
      case Online => "online"
    }
  }

  datatype Session = Session(
    student: UserId,
    tutor: UserId,
    subject: SubjectId,
    date: Day,
    startTime: string,
    endTime: string,
    duration: real,          // minutes
    sessionType: SessionType,
    location: Option<string>,
    meetingLink: Option<string>,
    price: real,
    status: SessionStatus,
    notes: Option<string>,
    paymentStatus: PaymentStatus)

  datatype Review = Review(
    student: UserId,
    tutor: UserId,
    session: SessionId,
    rating: real,
    comment: string)

  datatype Store = Store(
    users: map<UserId, User>,
    profiles: seq<TutorProfile>,
    sessions: seq<Session>,
    reviews: seq<Review>,
    wishlists: map<UserId, seq<UserId>>)

  /** A value a string `required` field accepts: present and non-empty. */
  predicate Present(o: Option<string>)
  {
    o.Some? && |o.value| > 0
  }

  /** The session-status enum as the schema spells it. */
  function ParseSessionStatus(s: string): (r: Option<SessionStatus>)
    ensures r.Some? ==> r.value.Name() == s
    ensures r.None? ==> forall st: SessionStatus :: st.Name() != s
  {
    if s == "pending" then Some(Pending)
    else if s == "confirmed" then Some(Confirmed)
    else if s == "completed" then Some(Completed)
    else if s == "cancelled" then Some(Cancelled)
    else None
  }

  /** The session-type enum as the schema spells it. */
  function ParseSessionType(s: string): (r: Option<SessionType>)
    ensures r.Some? ==> r.value.Name() == s
    ensures r.None? ==> forall t: SessionType :: t.Name() != s
  {
    if s == "in-person" then Some(InPerson)
    else if s == "online" then Some(Online)
    else None
  }
}
