/**
 * The student side of the scheduling engine (controllers/session.controller.js):
 * booking a session with an approved tutor, reading a tutor's availability for a
 * day, the student's session list, and the student's status update (cancel).
 */
module Sessions {
  import opened Types
  import opened Seqs
  import opened Invariants

  /**
   * The fields of a booking request body. A start time or session type left out is "";
   * every other field left out is None.
   */
  datatype BookingRequest = BookingRequest(
    tutorId: UserId,
    subjectId: Option<SubjectId>,
    date: Day,
    startTime: string,
    endTime: Option<string>,
    duration: Option<real>,
    sessionType: string,
    location: Option<string>,
    meetingLink: Option<string>,
    notes: Option<string>)

  /** What a client receives to compute free slots: the weekly template and the day's bookings. */
  datatype Availability = Availability(slots: seq<Slot>, booked: seq<Session>)

  predicate IsApprovedProfileOf(p: TutorProfile, tutorId: UserId)
  {
    p.user == tutorId && p.verificationStatus == Approved
  }

  /** The profile the booking is made against: the first approved profile of tutorId. */
  function ApprovedProfile(ps: seq<TutorProfile>, tutorId: UserId): (r: Option<ProfileId>)
    ensures r.Some? ==> r.value < |ps| && IsApprovedProfileOf(ps[r.value], tutorId)
    ensures r.None? <==> forall k | 0 <= k < |ps| :: !IsApprovedProfileOf(ps[k], tutorId)
  {
    FirstMatch(ps, p => IsApprovedProfileOf(p, tutorId))
  }

  /** The first profile of tutorId, whatever its verification status. */
  function ProfileOf(ps: seq<TutorProfile>, tutorId: UserId): (r: Option<ProfileId>)
    ensures r.Some? ==> r.value < |ps| && ps[r.value].user == tutorId
    ensures r.None? <==> forall k | 0 <= k < |ps| :: ps[k].user != tutorId
  {
    FirstMatch(ps, (p: TutorProfile) => p.user == tutorId)
  }

  /** Price of a session: the hourly rate prorated to the duration in minutes. */
  function Price(hourlyRate: real, duration: real): (r: real)
    ensures r * 60.0 == hourlyRate * duration
  {
    hourlyRate * (duration / 60.0)
  }

  /**
   * The double-booking query: a pending or confirmed session of the same tutor on the
   * same day with the IDENTICAL start-time string. Overlapping sessions that start at a
   * different time are not detected; that coarse check is the source's behaviour.
   */
  predicate HasConflict(ss: seq<Session>, tutorId: UserId, date: Day, startTime: string)
  {
    exists i | 0 <= i < |ss| ::
      ss[i].tutor == tutorId && ss[i].date == date && ss[i].startTime == startTime && Active(ss[i])
  }

  /** Forty an hour for ninety minutes costs sixty. */
  lemma PriceExample()
    ensures Price(40.0, 90.0) == 60.0
  {
  }

  /** A cancelled or completed session never blocks a slot, wherever it sits. */
  lemma {:induction false} InactiveNeverBlocks(ss: seq<Session>, s: Session, tutorId: UserId, date: Day, startTime: string)
    requires !Active(s)
    ensures HasConflict(ss + [s], tutorId, date, startTime) <==> HasConflict(ss, tutorId, date, startTime)
  {
    var all := ss + [s];
    if HasConflict(all, tutorId, date, startTime) {
      var i :| 0 <= i < |all| && all[i].tutor == tutorId && all[i].date == date
               && all[i].startTime == startTime && Active(all[i]);
      assert i < |ss| && all[i] == ss[i];
    }
    if HasConflict(ss, tutorId, date, startTime) {
      var i :| 0 <= i < |ss| && ss[i].tutor == tutorId && ss[i].date == date
               && ss[i].startTime == startTime && Active(ss[i]);
      assert all[i] == ss[i];
    }
  }

  /**
   * Only the start time is compared: a complete request for an approved tutor succeeds
   * when no stored session starts at the same time, however much the intervals overlap.
   */
  lemma OverlapNotDetected(st: Store, caller: UserId, req: BookingRequest)
    requires ApprovedProfile(st.profiles, req.tutorId).Some? && RequestComplete(req)
    requires forall i | 0 <= i < |st.sessions| :: st.sessions[i].startTime != req.startTime
    ensures Book(st, caller, req).Ok?
  {
  }

  /** The request yields a session the session schema accepts on save. */
  predicate RequestComplete(req: BookingRequest)
  {
    && req.subjectId.Some?
    && |req.startTime| > 0
    && Present(req.endTime)
    && req.duration.Some?
    && match ParseSessionType(req.sessionType)
       case None => false
       case Some(InPerson) => Present(req.location)
       case Some(Online) => Present(req.meetingLink)
  }

  /**
   * The session document built from the request: location kept only for in-person
   * sessions, meeting link only for online ones, status and payment pending; it fails
   * schema validation when a required field is missing.
   */
  function NewSession(student: UserId, req: BookingRequest, hourlyRate: real): (r: Result<Session>)
    ensures r.Ok? <==> RequestComplete(req)
    ensures r.Err? ==> r.error == ValidationFailed
    ensures r.Ok? ==> WellFormedSession(r.value)
    ensures r.Ok? ==>
      && r.value.student == student && r.value.tutor == req.tutorId
      && Some(r.value.subject) == req.subjectId && r.value.date == req.date
      && r.value.startTime == req.startTime && Some(r.value.endTime) == req.endTime
      && Some(r.value.duration) == req.duration && r.value.sessionType.Name() == req.sessionType
      && r.value.price * 60.0 == hourlyRate * r.value.duration
      && r.value.status == Pending && r.value.paymentStatus == PaymentPending
      && r.value.notes == req.notes
      && (r.value.sessionType == InPerson ==> r.value.location == req.location && r.value.meetingLink == None)
      && (r.value.sessionType == Online ==> r.value.meetingLink == req.meetingLink && r.value.location == None)
  {
    match ParseSessionType(req.sessionType)
    case None => Err(ValidationFailed)
    case Some(kind) =>
      var location := if kind == InPerson then req.location else None;
      var meetingLink := if kind == Online then req.meetingLink else None;
      if req.subjectId.None? || |req.startTime| == 0 || !Present(req.endTime) || req.duration.None?
         || (kind == InPerson && !Present(location)) || (kind == Online && !Present(meetingLink))
      then Err(ValidationFailed)
      else
        Ok(Session(student, req.tutorId, req.subjectId.value, req.date, req.startTime,
                   req.endTime.value, req.duration.value, kind, location, meetingLink,
                   Price(hourlyRate, req.duration.value), Pending, req.notes, PaymentPending))
  }

  /**
   * bookSession. Checks, in order: an approved profile of the tutor exists (NotFound),
   * no double booking (Conflict), the document passes schema validation
   * (ValidationFailed). On success exactly one session is appended and nothing else
   * changes.
   */
  function Book(st: Store, caller: UserId, req: BookingRequest): (r: Result<Store>)
    ensures ApprovedProfile(st.profiles, req.tutorId).None? ==> r == Err(NotFound)
    ensures (ApprovedProfile(st.profiles, req.tutorId).Some?
             && HasConflict(st.sessions, req.tutorId, req.date, req.startTime)) ==> r == Err(Conflict)
    ensures r.Ok? <==>
            && ApprovedProfile(st.profiles, req.tutorId).Some?
            && !HasConflict(st.sessions, req.tutorId, req.date, req.startTime)
            && RequestComplete(req)
    ensures (ApprovedProfile(st.profiles, req.tutorId).Some?
             && !HasConflict(st.sessions, req.tutorId, req.date, req.startTime)
             && !RequestComplete(req)) ==> r == Err(ValidationFailed)
    ensures r == Err(Conflict) <==>
            ApprovedProfile(st.profiles, req.tutorId).Some? && HasConflict(st.sessions, req.tutorId, req.date, req.startTime)
    ensures r.Err? ==> r.error == NotFound || r.error == Conflict || r.error == ValidationFailed
    ensures r.Ok? ==>
      && |r.value.sessions| == |st.sessions| + 1
      && r.value == st.(sessions := st.sessions + [r.value.sessions[|st.sessions|]])
      && r.value.sessions[|st.sessions|]
         == NewSession(caller, req, st.profiles[ApprovedProfile(st.profiles, req.tutorId).value].hourlyRate).value
  {
    match ApprovedProfile(st.profiles, req.tutorId)
    case None => Err(NotFound)
    case Some(k) =>
      if HasConflict(st.sessions, req.tutorId, req.date, req.startTime) then Err(Conflict)
      else
        match NewSession(caller, req, st.profiles[k].hourlyRate)
        case Err(e) => Err(e)
        case Ok(s) => Ok(st.(sessions := st.sessions + [s]))
  }

  /** Booking keeps every store invariant; in particular it never double-books a tutor. */
  lemma BookPreservesValid(st: Store, caller: UserId, req: BookingRequest)
    requires Valid(st)
    requires Book(st, caller, req).Ok?
    ensures Valid(Book(st, caller, req).value)
  {
    var st' := Book(st, caller, req).value;
    var n := |st.sessions|;
    var s := st'.sessions[n];
    assert forall i | 0 <= i < n :: st'.sessions[i] == st.sessions[i];
    assert forall i | 0 <= i < n && Active(st.sessions[i]) :: !SameSlot(st.sessions[i], s);
    assert NoDoubleBooking(st'.sessions);
  }

  /** getTutorAvailability: the tutor's weekly slots and exactly their active sessions that day. */
  function TutorAvailability(st: Store, tutorId: UserId, date: Day): (r: Result<Availability>)
    ensures r.Err? <==> ProfileOf(st.profiles, tutorId).None?
    ensures r.Err? ==> r.error == NotFound
    ensures r.Ok? ==> r.value.slots == st.profiles[ProfileOf(st.profiles, tutorId).value].availability
    ensures r.Ok? ==> forall s :: multiset(r.value.booked)[s] ==
                                  if s.tutor == tutorId && s.date == date && Active(s)
                                  then multiset(st.sessions)[s] else 0
  {
    match ProfileOf(st.profiles, tutorId)
    case None => Err(NotFound)
    case Some(k) =>
      Ok(Availability(st.profiles[k].availability,
                      Filter(st.sessions, (s: Session) => s.tutor == tutorId && s.date == date && Active(s))))
  }

  /**
   * The availability read and the booking check agree: for a tutor with a profile, a start
   * time is blocked exactly when one of the day's booked sessions starts at it.
   */
  lemma AvailabilityShowsConflicts(st: Store, tutorId: UserId, date: Day, startTime: string)
    requires ProfileOf(st.profiles, tutorId).Some?
    ensures var booked := TutorAvailability(st, tutorId, date).value.booked;
            HasConflict(st.sessions, tutorId, date, startTime) <==>
            exists j | 0 <= j < |booked| :: booked[j].startTime == startTime
  {
    var booked := TutorAvailability(st, tutorId, date).value.booked;
    if HasConflict(st.sessions, tutorId, date, startTime) {
      var i :| 0 <= i < |st.sessions| && st.sessions[i].tutor == tutorId && st.sessions[i].date == date
               && st.sessions[i].startTime == startTime && Active(st.sessions[i]);
      assert st.sessions[i] in multiset(st.sessions);
      assert st.sessions[i] in multiset(booked);
      assert st.sessions[i] in booked;
    }
    if exists j | 0 <= j < |booked| :: booked[j].startTime == startTime {
      var j :| 0 <= j < |booked| && booked[j].startTime == startTime;
      assert booked[j] in multiset(booked);
      assert booked[j] in multiset(st.sessions);
      assert booked[j] in st.sessions;
    }
  }

  /** A session appears on a student's dashboard: theirs, and of the filtered status if one applies. */
  predicate InStudentView(s: Session, caller: UserId, status: string)
  {
    s.student == caller && (ParseSessionStatus(status).None? || s.status == ParseSessionStatus(status).value)
  }

  /**
   * getStudentSessions: the caller's sessions, narrowed to a status only when the filter
   * names one of the four statuses (any other value is ignored), latest date first.
   */
  function StudentSessions(st: Store, caller: UserId, status: string): (r: seq<Session>)
    ensures forall s :: multiset(r)[s] == if InStudentView(s, caller, status) then multiset(st.sessions)[s] else 0
    ensures forall i, j | 0 <= i < j < |r| :: r[i].date >= r[j].date
  {
    var mine := Filter(st.sessions, s => InStudentView(s, caller, status));
    var r := SortDesc(mine, (s: Session) => s.date as real);
    assert forall i, j | 0 <= i < j < |r| :: r[i].date as real >= r[j].date as real;
    r
  }

  /**
   * The student's status update (cancel). Checks, in order: the session exists
   * (NotFound), the caller is its student (Forbidden), it is not completed
   * (InvalidTransition); then only "cancelled" on a session not already cancelled
   * succeeds, changing nothing but its status; anything else is InvalidStatus.
   * As the source is written, a CONFIRMED session can be cancelled by the student too.
   */
  function UpdateStatus(st: Store, caller: UserId, id: SessionId, status: string): (r: Result<Store>)
    ensures id >= |st.sessions| ==> r == Err(NotFound)
    ensures id < |st.sessions| && st.sessions[id].student != caller ==> r == Err(Forbidden)
    ensures id < |st.sessions| && st.sessions[id].student == caller && st.sessions[id].status == Completed
            ==> r == Err(InvalidTransition)
    ensures r.Ok? <==>
            id < |st.sessions| && st.sessions[id].student == caller && Active(st.sessions[id]) && status == "cancelled"
    ensures r.Err? && id < |st.sessions| && st.sessions[id].student == caller && st.sessions[id].status != Completed
            ==> r.error == InvalidStatus
    ensures r.Ok? ==> r.value == st.(sessions := st.sessions[id := st.sessions[id].(status := Cancelled)])
  {
    if id >= |st.sessions| then Err(NotFound)
    else
      var s := st.sessions[id];
      if s.student != caller then Err(Forbidden)
      else if s.status == Completed then Err(InvalidTransition)
      else if status == "cancelled" && s.status != Cancelled then
        Ok(st.(sessions := st.sessions[id := s.(status := Cancelled)]))
      else Err(InvalidStatus)
  }

  /** Cancelling frees the slot and keeps every store invariant. */
  lemma UpdateStatusPreservesValid(st: Store, caller: UserId, id: SessionId, status: string)
    requires Valid(st)
    requires UpdateStatus(st, caller, id, status).Ok?
    ensures Valid(UpdateStatus(st, caller, id, status).value)
  {
    var st' := UpdateStatus(st, caller, id, status).value;
    assert forall i | 0 <= i < |st.sessions| && i != id :: st'.sessions[i] == st.sessions[i];
    assert !Active(st'.sessions[id]);
    assert WellFormedSession(st.sessions[id]);
  }
}
