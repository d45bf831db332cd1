/**
 * The tutor directory search (controllers/tutor.controller.js): the query document
 * built from the optional filters, as a predicate on profiles, and the result ordered
 * by average rating, highest first.
 */
module TutorSearch {
  import opened Types
  import opened Seqs
  import opened Text
  import Admin

  /**
   * The search filters. String filters are "" when absent (an empty query string adds
   * no clause either); numeric ones are None when absent.
   */
  datatype SearchFilters = SearchFilters(
    subject: Option<SubjectId>,
    city: string,
    minPrice: Option<real>,
    maxPrice: Option<real>,
    minRating: Option<real>,
    day: string,
    startTime: string,
    endTime: string)

  const NoFilters := SearchFilters(None, "", None, None, None, "", "", "")

  predicate SubjectClause(p: TutorProfile, f: SearchFilters)
  {
    f.subject.None? || f.subject.value in p.subjects
  }

  /** Case-insensitive substring match on the city, the filter taken as a literal pattern. */
  predicate CityClause(p: TutorProfile, f: SearchFilters)
  {
    f.city == "" || (p.city.Some? && ContainsIgnoreCase(p.city.value, f.city))
  }

  /** Independent inclusive bounds on the hourly rate. */
  predicate PriceClause(p: TutorProfile, f: SearchFilters)
  {
    (f.minPrice.None? || f.minPrice.value <= p.hourlyRate)
    && (f.maxPrice.None? || p.hourlyRate <= f.maxPrice.value)
  }

  predicate RatingClause(p: TutorProfile, f: SearchFilters)
  {
    f.minRating.None? || f.minRating.value <= p.averageRating
  }

  predicate HasSlotOn(p: TutorProfile, day: string)
  {
    exists i | 0 <= i < |p.availability| :: p.availability[i].day.Name() == day
  }

  predicate HasSlotStartingBy(p: TutorProfile, time: string)
  {
    exists i | 0 <= i < |p.availability| :: StrLe(p.availability[i].startTime, time)
  }

  predicate HasSlotEndingFrom(p: TutorProfile, time: string)
  {
    exists i | 0 <= i < |p.availability| :: StrLe(time, p.availability[i].endTime)
  }

  /**
   * The availability clauses, applied only when a day is given. Each is a separate
   * condition on the slot array, so the day, the start bound and the end bound may each
   * be met by a DIFFERENT slot; that is how the source's query behaves.
   */
  predicate AvailabilityClause(p: TutorProfile, f: SearchFilters)
  {
    f.day == "" ||
    (&& HasSlotOn(p, f.day)
     && (f.startTime == "" || HasSlotStartingBy(p, f.startTime))
     && (f.endTime == "" || HasSlotEndingFrom(p, f.endTime)))
  }

  /** The query: approved, and every given filter's clause. */
  predicate Matches(p: TutorProfile, f: SearchFilters)
  {
    && p.verificationStatus == Approved
    && SubjectClause(p, f)
    && CityClause(p, f)
    && PriceClause(p, f)
    && RatingClause(p, f)
    && AvailabilityClause(p, f)
  }

  /** searchTutors: exactly the profiles matching the query, highest average rating first. */
  function Search(st: Store, f: SearchFilters): (r: seq<TutorProfile>)
    ensures forall p :: multiset(r)[p] == if Matches(p, f) then multiset(st.profiles)[p] else 0
    ensures forall i, j | 0 <= i < j < |r| :: r[i].averageRating >= r[j].averageRating
  {
    SortDesc(Filter(st.profiles, (p: TutorProfile) => Matches(p, f)), (p: TutorProfile) => p.averageRating)
  }

  /** With no filters the search lists every approved profile and nothing else. */
  lemma NoFiltersListsApproved(st: Store)
    ensures forall p :: multiset(Search(st, NoFilters))[p] ==
                        if p.verificationStatus == Approved then multiset(st.profiles)[p] else 0
  {
  }

  /** A profile an admin has just rejected is not found by any search. */
  lemma RejectedNotSearchable(st: Store, id: ProfileId, comment: string, f: SearchFilters)
    requires Admin.VerifyTutor(st, id, "rejected", comment).Ok?
    ensures var st' := Admin.VerifyTutor(st, id, "rejected", comment).value;
            st'.profiles[id] !in Search(st', f)
  {
    var st' := Admin.VerifyTutor(st, id, "rejected", comment).value;
    assert !Matches(st'.profiles[id], f);
    assert multiset(Search(st', f))[st'.profiles[id]] == 0;
  }

  /**
   * The availability clauses may be met by different slots: a tutor free on Monday
   * 09:00-10:00 and on Tuesday 08:00-20:00 matches a request for Monday 08:30-19:00,
   * although no slot covers that window.
   */
  lemma AvailabilitySlotsMayDiffer()
    ensures var monday := Slot(Monday, "09:00", "10:00");
            var tuesday := Slot(Tuesday, "08:00", "20:00");
            var p := TutorProfile(1, "bio", [], 40.0, [monday, tuesday], None, 0.0, 0, Approved, None);
            var f := NoFilters.(day := "Monday", startTime := "08:30", endTime := "19:00");
            && Matches(p, f)
            && !(exists i | 0 <= i < |p.availability| ::
                   && p.availability[i].day.Name() == f.day
                   && StrLe(p.availability[i].startTime, f.startTime)
                   && StrLe(f.endTime, p.availability[i].endTime))
  {
    var monday := Slot(Monday, "09:00", "10:00");
    var tuesday := Slot(Tuesday, "08:00", "20:00");
    var p := TutorProfile(1, "bio", [], 40.0, [monday, tuesday], None, 0.0, 0, Approved, None);
    assert StrLe("08:00", "08:30") by {
      assert "08:00"[1..] == "8:00" && "08:30"[1..] == "8:30";
      assert "8:00"[1..] == ":00" && "8:30"[1..] == ":30";
      assert ":00"[1..] == "00" && ":30"[1..] == "30";
    }
    assert StrLe("19:00", "20:00");
    assert !StrLe("09:00", "08:30") by {
      assert "09:00"[1..] == "9:00" && "08:30"[1..] == "8:30";
    }
    assert p.availability[0] == monday && p.availability[1] == tuesday;
    assert HasSlotStartingBy(p, "08:30");
    assert HasSlotEndingFrom(p, "19:00");
  }

  /** Asking for a later start time keeps every tutor that matched an earlier one. */
  lemma LaterStartKeepsMatch(p: TutorProfile, f: SearchFilters, later: string)
    requires Matches(p, f) && f.startTime != "" && StrLe(f.startTime, later)
    ensures Matches(p, f.(startTime := later))
  {
    if f.day != "" && later != "" {
      var i :| 0 <= i < |p.availability| && StrLe(p.availability[i].startTime, f.startTime);
      StrLeTransitive(p.availability[i].startTime, f.startTime, later);
    }
  }

  /** Asking for an earlier end time keeps every tutor that matched a later one. */
  lemma EarlierEndKeepsMatch(p: TutorProfile, f: SearchFilters, earlier: string)
    requires Matches(p, f) && f.endTime != "" && StrLe(earlier, f.endTime)
    ensures Matches(p, f.(endTime := earlier))
  {
    if f.day != "" && earlier != "" {
      var i :| 0 <= i < |p.availability| && StrLe(f.endTime, p.availability[i].endTime);
      StrLeTransitive(earlier, f.endTime, p.availability[i].endTime);
    }
  }
}
