/**
 * The tutor side of the scheduling engine (controllers/tutorSession.controller.js):
 * the tutor's session list, the tutor's status state machine, and the earnings report
 * with its per-day chart.
 */
module TutorSessions {
  import opened Types
  import opened Seqs
  import opened Invariants

  /** An inclusive range of days. */
  datatype DateRange = DateRange(from: Option<Day>, to: Option<Day>)

  predicate InRange(d: Day, range: DateRange)
  {
    (range.from.None? || range.from.value <= d) && (range.to.None? || d <= range.to.value)
  }

  /** A session appears in the tutor's list: theirs, of the filtered status if one applies, in range. */
  predicate InTutorView(s: Session, caller: UserId, status: string, range: DateRange)
  {
    && s.tutor == caller
    && (ParseSessionStatus(status).None? || s.status == ParseSessionStatus(status).value)
    && InRange(s.date, range)
  }

  /**
   * getTutorSessions: the caller's sessions, narrowed to a status only when the filter
   * names one of the four statuses, within the inclusive date bounds given, earliest first.
   */
  function TutorSessionList(st: Store, caller: UserId, status: string, startDate: Option<Day>, endDate: Option<Day>)
    : (r: seq<Session>)
    ensures forall s :: multiset(r)[s] ==
                        if InTutorView(s, caller, status, DateRange(startDate, endDate))
                        then multiset(st.sessions)[s] else 0
    ensures forall i, j | 0 <= i < j < |r| :: r[i].date <= r[j].date
  {
    var mine := Filter(st.sessions, (s: Session) => InTutorView(s, caller, status, DateRange(startDate, endDate)));
    // Sorting by the negated date, highest first, puts the earliest date first.
    var r := SortDesc(mine, (s: Session) => -(s.date as real));
    assert forall i, j | 0 <= i < j < |r| :: -(r[i].date as real) >= -(r[j].date as real);
    r
  }

  /** The statuses a tutor may request. */
  function ParseTutorStatus(status: string): (r: Option<SessionStatus>)
    ensures r.Some? <==> status == "confirmed" || status == "cancelled" || status == "completed"
    ensures r.Some? ==> r.value.Name() == status
  {
    match ParseSessionStatus(status)
    case Some(Pending) => None
    case other => other
  }

  /**
   * The tutor's status update. Checks, in order: the requested status is confirmed,
   * cancelled or completed (InvalidStatus, before any lookup), the session exists
   * (NotFound), the caller is its tutor (Forbidden), it is neither completed nor
   * cancelled (InvalidTransition). Then the status becomes exactly the requested one, and
   * completing also marks the payment completed.
   * As the source is written, pending -> completed and confirmed -> confirmed are allowed.
   */
  function UpdateStatus(st: Store, caller: UserId, id: SessionId, status: string): (r: Result<Store>)
    ensures ParseTutorStatus(status).None? ==> r == Err(InvalidStatus)
    ensures ParseTutorStatus(status).Some? && id >= |st.sessions| ==> r == Err(NotFound)
    ensures ParseTutorStatus(status).Some? && id < |st.sessions| && st.sessions[id].tutor != caller
            ==> r == Err(Forbidden)
    ensures (ParseTutorStatus(status).Some? && id < |st.sessions| && st.sessions[id].tutor == caller
             && !Active(st.sessions[id])) ==> r == Err(InvalidTransition)
    ensures r.Ok? <==>
            ParseTutorStatus(status).Some? && id < |st.sessions| && st.sessions[id].tutor == caller
            && Active(st.sessions[id])
    ensures r.Ok? ==> |r.value.sessions| == |st.sessions| && id < |st.sessions|
    ensures r.Ok? ==>
      && r.value.sessions[id].status.Name() == status
      && (r.value.sessions[id].paymentStatus == PaymentCompleted <==>
          status == "completed" || st.sessions[id].paymentStatus == PaymentCompleted)
      && r.value == st.(sessions := st.sessions[id := st.sessions[id].(
                          status := r.value.sessions[id].status,
                          paymentStatus := r.value.sessions[id].paymentStatus)])
  {
    match ParseTutorStatus(status)
    case None => Err(InvalidStatus)
    case Some(next) =>
      if id >= |st.sessions| then Err(NotFound)
      else
        var s := st.sessions[id];
        if s.tutor != caller then Err(Forbidden)
        else if s.status == Completed then Err(InvalidTransition)
        else if s.status == Cancelled then Err(InvalidTransition)
        else
          var paid := if next == Completed then PaymentCompleted else s.paymentStatus;
          Ok(st.(sessions := st.sessions[id := s.(status := next, paymentStatus := paid)]))
  }

  /**
   * The tutor's update keeps every store invariant: a session that stays active keeps
   * its slot, and payment is completed only together with the session.
   */
  lemma UpdateStatusPreservesValid(st: Store, caller: UserId, id: SessionId, status: string)
    requires Valid(st)
    requires UpdateStatus(st, caller, id, status).Ok?
    ensures Valid(UpdateStatus(st, caller, id, status).value)
  {
    var st' := UpdateStatus(st, caller, id, status).value;
    assert forall i | 0 <= i < |st.sessions| && i != id :: st'.sessions[i] == st.sessions[i];
    assert SameSlot(st'.sessions[id], st.sessions[id]) && SameSlot(st.sessions[id], st'.sessions[id]);
    assert WellFormedSession(st.sessions[id]);
    assert NoDoubleBooking(st'.sessions) by {
      forall i, j | 0 <= i < |st'.sessions| && 0 <= j < |st'.sessions| && i != j
        ensures !(Active(st'.sessions[i]) && Active(st'.sessions[j]) && SameSlot(st'.sessions[i], st'.sessions[j]))
      {
        if Active(st'.sessions[i]) && Active(st'.sessions[j]) {
          assert Active(st.sessions[i]) && Active(st.sessions[j]);
        }
      }
    }
  }

  /** One day's total in the earnings chart. */
  datatype DayEarnings = DayEarnings(date: Day, earnings: real)

  datatype EarningsReport = EarningsReport(totalEarnings: real, totalSessions: nat, chartData: seq<DayEarnings>)

  /**
   * The reporting window. Weekly and monthly reach back 7 or 30 times 24 hours from the
   * current instant, which is past the start of day `now`; a session dated at the start
   * of its day therefore counts from day now - 6 (or now - 29) through day now. A custom
   * range needs both bounds; anything else is unbounded.
   */
  function PeriodRange(period: string, now: Day, startDate: Option<Day>, endDate: Option<Day>): DateRange
  {
    if period == "weekly" then DateRange(Some(now - 6), Some(now))
    else if period == "monthly" then DateRange(Some(now - 29), Some(now))
    else if period == "custom" && startDate.Some? && endDate.Some? then DateRange(startDate, endDate)
    else DateRange(None, None)
  }

  /** A session the tutor has been paid for within the range. */
  predicate Earned(s: Session, caller: UserId, range: DateRange)
  {
    s.tutor == caller && s.status == Completed && s.paymentStatus == PaymentCompleted && InRange(s.date, range)
  }

  function PriceSum(ss: seq<Session>): real
  {
    if |ss| == 0 then 0.0 else PriceSum(ss[..|ss| - 1]) + ss[|ss| - 1].price
  }

  /** Sum of the prices of the sessions held on day d. */
  function DaySum(ss: seq<Session>, d: Day): real
  {
    if |ss| == 0 then 0.0
    else DaySum(ss[..|ss| - 1], d) + (if ss[|ss| - 1].date == d then ss[|ss| - 1].price else 0.0)
  }

  /** Chart days strictly increase: one entry per day, earliest first. */
  predicate Ascending(c: seq<DayEarnings>)
  {
    forall i, j | 0 <= i < j < |c| :: c[i].date < c[j].date
  }

  /** The days the chart has an entry for. */
  function Days(c: seq<DayEarnings>): set<Day>
  {
    if |c| == 0 then {} else {c[0].date} + Days(c[1..])
  }

  /** The days on which the sessions took place. */
  function SessionDays(ss: seq<Session>): set<Day>
  {
    if |ss| == 0 then {} else SessionDays(ss[..|ss| - 1]) + {ss[|ss| - 1].date}
  }

  /** Earnings the chart records for day d (summing all entries for d). */
  function EarningsOn(c: seq<DayEarnings>, d: Day): real
  {
    if |c| == 0 then 0.0 else (if c[0].date == d then c[0].earnings else 0.0) + EarningsOn(c[1..], d)
  }

  function ChartSum(c: seq<DayEarnings>): real
  {
    if |c| == 0 then 0.0 else c[0].earnings + ChartSum(c[1..])
  }

  /** Adds price p to day d of an ascending chart, opening the day's entry if needed. */
  function AddToDay(c: seq<DayEarnings>, d: Day, p: real): (r: seq<DayEarnings>)
    requires Ascending(c)
    ensures Ascending(r)
    ensures |r| > 0 && r[0].date == if |c| > 0 && c[0].date < d then c[0].date else d
    ensures Days(r) == Days(c) + {d}
    ensures forall x :: EarningsOn(r, x) == EarningsOn(c, x) + (if x == d then p else 0.0)
    ensures ChartSum(r) == ChartSum(c) + p
  {
    if |c| == 0 then [DayEarnings(d, p)]
    else if c[0].date == d then
      var r := [c[0].(earnings := c[0].earnings + p)] + c[1..];
      assert r[1..] == c[1..];
      r
    else if d < c[0].date then
      var r := [DayEarnings(d, p)] + c;
      assert r[1..] == c;
      r
    else
      var rest := AddToDay(c[1..], d, p);
      var r := [c[0]] + rest;
      assert r[1..] == rest;
      assert |c| > 1 ==> c[0].date < c[1].date;
      assert c[0].date < rest[0].date;
      assert forall j | 0 < j < |rest| :: rest[0].date < rest[j].date;
      r
  }

  /** Groups the sessions' prices by day into an ascending chart. */
  function GroupByDay(ss: seq<Session>): (r: seq<DayEarnings>)
    ensures Ascending(r)
    ensures Days(r) == SessionDays(ss)
    ensures forall x :: EarningsOn(r, x) == DaySum(ss, x)
    ensures ChartSum(r) == PriceSum(ss)
  {
    if |ss| == 0 then []
    else
      var last := ss[|ss| - 1];
      AddToDay(GroupByDay(ss[..|ss| - 1]), last.date, last.price)
  }

  /** A day belongs to SessionDays exactly when some session took place on it. */
  lemma {:induction false} SessionDaysMembers(ss: seq<Session>, x: Day)
    ensures x in SessionDays(ss) <==> exists i | 0 <= i < |ss| :: ss[i].date == x
  {
    if |ss| > 0 {
      var init := ss[..|ss| - 1];
      SessionDaysMembers(init, x);
      if exists i | 0 <= i < |init| :: init[i].date == x {
        var i :| 0 <= i < |init| && init[i].date == x;
        assert ss[i].date == x;
      }
      if exists i | 0 <= i < |ss| :: ss[i].date == x {
        var i :| 0 <= i < |ss| && ss[i].date == x;
        if i < |init| { assert init[i].date == x; }
      }
    }
  }

  /** Every day of a chart whose entries all lie after b lies after b. */
  lemma {:induction false} DaysAfter(c: seq<DayEarnings>, b: Day)
    requires forall j | 0 <= j < |c| :: b < c[j].date
    ensures forall y | y in Days(c) :: b < y
  {
    if |c| > 0 {
      DaysAfter(c[1..], b);
    }
  }

  /** A day absent from the chart has no earnings in it. */
  lemma {:induction false} AbsentDayEarnsNothing(c: seq<DayEarnings>, d: Day)
    requires d !in Days(c)
    ensures EarningsOn(c, d) == 0.0
  {
    if |c| > 0 {
      AbsentDayEarnsNothing(c[1..], d);
    }
  }

  /** In an ascending chart each entry holds everything the chart records for its day. */
  lemma {:induction false} EntryIsDayTotal(c: seq<DayEarnings>, i: nat)
    requires Ascending(c) && i < |c|
    ensures EarningsOn(c, c[i].date) == c[i].earnings
  {
    var d := c[i].date;
    if i == 0 {
      DaysAfter(c[1..], d);
      AbsentDayEarnsNothing(c[1..], d);
    } else {
      assert c[1..][i - 1] == c[i];
      EntryIsDayTotal(c[1..], i - 1);
      assert c[0].date < d;
    }
  }

  /** The caller's completed and paid sessions within the range, in store order. */
  function PaidSessions(st: Store, caller: UserId, range: DateRange): (r: seq<Session>)
    ensures forall s :: multiset(r)[s] == if Earned(s, caller, range) then multiset(st.sessions)[s] else 0
  {
    Filter(st.sessions, (s: Session) => Earned(s, caller, range))
  }

  /**
   * getEarnings: exactly the caller's completed and paid sessions in the range are
   * counted; the total is the sum of their prices; the chart has one entry per day on
   * which such a session took place, in ascending order, each holding that day's sum,
   * and the chart's entries add up to the total.
   */
  function Earnings(st: Store, caller: UserId, range: DateRange): (r: EarningsReport)
    ensures var paid := PaidSessions(st, caller, range);
      && r.totalSessions == |paid|
      && r.totalEarnings == PriceSum(paid)
      && Ascending(r.chartData)
      && Days(r.chartData) == SessionDays(paid)
      && (forall i | 0 <= i < |r.chartData| :: r.chartData[i].earnings == DaySum(paid, r.chartData[i].date))
      && ChartSum(r.chartData) == r.totalEarnings
  {
    var paid := PaidSessions(st, caller, range);
    var chart := GroupByDay(paid);
    forall i | 0 <= i < |chart|
      ensures chart[i].earnings == DaySum(paid, chart[i].date)
    {
      EntryIsDayTotal(chart, i);
    }
    EarningsReport(PriceSum(paid), |paid|, chart)
  }
}
