# Tutoring backend core, modelled in Dafny

This project models the business logic of an Express/Mongoose tutoring marketplace,
in which students book sessions with tutors, tutors run those sessions, students review
them, and admins verify tutors. Every request handler is lifted into a pure function over
an immutable document store (`Types.Store`). The store holds users, tutor profiles,
sessions, reviews and wishlists. A write returns `Result<Store>`: either the new store or
the error the handler answers with. The modules follow the controllers:

- `Sessions` models the student side of scheduling: booking with the approved-tutor gate,
  the price, the double-booking check and the session schema's shape; tutor
  availability; the student's session list; and the student's cancel.
- `TutorSessions` models the tutor side: the tutor's session list, the tutor's status
  state machine (including the payment flag), and the earnings report with its per-day
  chart.
- `Reviews` models review creation, with its ordered checks and the running-mean rating
  of the tutor profile, and the tutor's review list.
- `Admin` models the pending-tutor list and the approve/reject decision, which cascades
  to the user's `isVerified` flag.
- `Wishlists` models a student's duplicate-free, insertion-ordered list of tutors.
- `TutorSearch` models the search query built from optional filters, and its ordering by
  rating.
- `Api` models the routers: authentication of the caller, the role gate of each router,
  and dispatch. It proves that every request, from anyone, keeps the store invariant.
- `Invariants` defines that store invariant (`Valid`):
  - no two pending or confirmed sessions of a tutor share a day and a start time;
  - every session has the shape its schema enforces;
  - each profile's `averageRating * totalReviews` is the sum of its tutor's ratings, and
    `totalReviews` is their number;
  - there is at most one review per student and session;
  - every rating lies in [1, 5];
  - no wishlist contains a tutor twice;
  - no two profiles belong to the same user (`UniqueProfileUsers`). The source assumes
    this but does not enforce it; see "Left out".
- `Types`, `Seqs` and `Text` hold the data model and the generic helpers: the `findOne`
  first match, filter, sort by key, remove-all, lexicographic string order and
  case-insensitive substring.

Representation choices:

- **Identifiers.** Sessions, profiles and reviews are identified by their position in
  the store. The modelled operations only append to those sequences or update them in
  place.
- **Prices and ratings** are `real`, so the arithmetic is exact.
- **Dates** are abstract day numbers. The current day is a parameter of the earnings
  report.
- **Times** are strings, compared lexicographically as the database compares them.
- **Absent request fields.** The optional fields are the booking's subject, end time,
  duration, location, meeting link and notes, the review's rating, and the query filters.
  Each of these is `None` when the client leaves it out, the string-valued end time,
  location, meeting link and notes included. The other string inputs (the booking's
  start time and session type, the review comment, the requested statuses, the earnings
  period and the string query filters) are `""` when left out. The handlers treat a
  missing and an empty string alike. Ids and dates are always
  present; see "Left out".
- **Schema validation.** A document the schema rejects on save yields
  `ValidationFailed`. That check comes after the handler's own checks.

Behaviour kept as written, and flagged where it is modelled:

- A student may cancel a session the tutor has already confirmed (`Sessions.UpdateStatus`).
- A tutor may move a session straight from pending to completed, or from confirmed to
  confirmed (`TutorSessions.UpdateStatus`).
- The double-booking check compares exact start times only, so an overlapping booking
  that starts at another time goes through (`Sessions.OverlapNotDetected`).
- The search's day, start-time and end-time clauses may each be met by a different
  availability slot (`TutorSearch.AvailabilitySlotsMayDiffer`).

Two further facts about the code that the model keeps:

- The duration of a booking is required (models/session.model.js:31-34), but its value is
  never range-checked. `Sessions.Book` therefore accepts a zero or negative duration,
  and the price follows from it.
- The verification cascade is two writes: the profile first, then the user. The model
  makes both writes in one step, so the case where the second write fails is not
  modelled.

## Model

| member | source | states |
|---|---|---|
| Types.ParseSessionStatus | models/session.model.js:56-60 | a status string is accepted exactly when it names one of the four statuses, and maps to the status of that name |
| Types.ParseSessionType | models/session.model.js:35-39 | a session type string is accepted exactly when it is "in-person" or "online", and maps to the type of that name |
| Seqs.FirstMatch | controllers/session.controller.js:21-24 | a findOne: the first position whose element matches, and none exactly when no element matches |
| Seqs.RemoveAll | controllers/wishlist.controller.js:73-75 | removing a tutor drops every occurrence and keeps every other element as many times as before, changes nothing when absent and keeps the list duplicate-free |
| Seqs.RemoveAllConcat | controllers/wishlist.controller.js:73-75 | removal works piecewise over a concatenation, so the kept elements stay in their order |
| Invariants.NewProfile | models/tutor.model.js:48-60 | a new profile starts with average 0, no reviews, verification pending and no comment, and its rating fields agree with a ledger of reviews exactly when that ledger holds none for the tutor |
| Invariants.RatingSumBounds | models/review.model.js:19-24 | with every rating in [1, 5], the sum of a tutor's n ratings lies in [n, 5n] |
| Invariants.AverageInRange | controllers/review.controller.js:62-66 | in a valid store, a profile with at least one review has its average within [1, 5] |
| Invariants.FreshStoreValid | models/tutor.model.js:48-55 | a store of profiles with default ratings and no sessions, reviews or wishlists satisfies every invariant |
| Sessions.ApprovedProfile | controllers/session.controller.js:21-31 | the profile booked against belongs to the tutor and is approved; there is none exactly when the tutor has no approved profile |
| Sessions.ProfileOf | controllers/session.controller.js:91-98 | the tutor's profile whatever its status; there is none exactly when the tutor has no profile |
| Sessions.Price | controllers/session.controller.js:34 | price times 60 equals the hourly rate times the duration in minutes |
| Sessions.PriceExample | controllers/session.controller.js:34 | 40 an hour for 90 minutes costs 60 |
| Sessions.InactiveNeverBlocks | controllers/session.controller.js:38-46 | a cancelled or completed session never causes a conflict |
| Sessions.OverlapNotDetected | controllers/session.controller.js:38-53 | a complete booking for an approved tutor succeeds when no session starts at the same time, whatever the overlap |
| Sessions.NewSession | controllers/session.controller.js:56-71 | the new session copies the request, keeps the location only in person and the link only online, starts pending and unpaid, and fails validation exactly when a required field is missing |
| Sessions.Book | controllers/session.controller.js:5-83 | NotFound without an approved profile, then Conflict exactly when an active session has the same tutor, day and start time, then ValidationFailed exactly when a required field is missing; success appends exactly one session and changes nothing else; that session is the one built from the request and the approved profile's rate: pending, unpaid, the caller as student, the requested tutor, day, times, subject, type and notes, the location only in person, the link only online, and the prorated price |
| Sessions.BookPreservesValid | controllers/session.controller.js:36-71 | booking keeps every store invariant, so it never double-books a tutor |
| Sessions.TutorAvailability | controllers/session.controller.js:86-124 | NotFound exactly without a profile; otherwise the profile's slots and exactly the tutor's pending or confirmed sessions that day |
| Sessions.AvailabilityShowsConflicts | controllers/session.controller.js:38-46 | a start time would conflict exactly when one of the day's listed bookings starts at it |
| Sessions.StudentSessions | controllers/session.controller.js:127-157 | exactly the caller's sessions, narrowed by status only when the filter names a status, latest date first |
| Sessions.UpdateStatus | controllers/session.controller.js:160-211 | NotFound, then Forbidden for another student, then a completed session is final; success exactly for "cancelled" on a pending or confirmed session, changing only its status |
| Sessions.UpdateStatusPreservesValid | controllers/session.controller.js:190-193 | a student's cancel keeps every store invariant |
| TutorSessions.TutorSessionList | controllers/tutorSession.controller.js:5-47 | exactly the caller's sessions, narrowed by a valid status, within inclusive date bounds, earliest first |
| TutorSessions.ParseTutorStatus | controllers/tutorSession.controller.js:55-60 | the accepted statuses are exactly confirmed, cancelled and completed |
| TutorSessions.UpdateStatus | controllers/tutorSession.controller.js:50-114 | InvalidStatus before any lookup, then NotFound, then Forbidden, then completed and cancelled are final; success sets exactly the requested status, sets payment completed when completing and changes nothing else |
| TutorSessions.UpdateStatusPreservesValid | controllers/tutorSession.controller.js:94-102 | a tutor's update keeps every store invariant, including payment completed only on completed sessions |
| TutorSessions.PaidSessions | controllers/tutorSession.controller.js:121-152 | exactly the caller's completed and paid sessions within the range |
| TutorSessions.AddToDay | controllers/tutorSession.controller.js:160-168 | adding a price to a day keeps the chart ascending, adds the day if new, and raises that day's and the chart's total by the price |
| TutorSessions.GroupByDay | controllers/tutorSession.controller.js:158-174 | the chart is ascending by day, has one entry per session day, and each day's and the whole chart's totals match the sessions |
| TutorSessions.SessionDaysMembers | controllers/tutorSession.controller.js:160-165 | a day has a chart entry exactly when some session took place on it |
| TutorSessions.EntryIsDayTotal | controllers/tutorSession.controller.js:171-174 | in an ascending chart each entry holds the whole of its day |
| TutorSessions.Earnings | controllers/tutorSession.controller.js:117-190 | counts exactly the paid sessions in range; the total is their price sum; the chart is ascending with one entry per day holding that day's sum, and its entries add up to the total |
| Reviews.RunningMean | controllers/review.controller.js:64-66 | the new mean times the new count equals the old mean times the old count plus the rating |
| Reviews.RunningMeanExample | controllers/review.controller.js:64-66 | an average of 4.0 over 3 reviews plus a 5 gives 4.25 |
| Reviews.AddRating | controllers/review.controller.js:62-69 | one more review is counted, the mean absorbs the rating, and no other profile field changes |
| Reviews.CreateReview | controllers/review.controller.js:6-81 | NotFound, then NotReviewable unless completed, then Forbidden for another student, then Conflict if already reviewed, then ValidationFailed for a missing or out-of-range rating or a comment that trims to nothing; success appends exactly one review and updates the tutor's profile, or no profile when there is none |
| Reviews.AppendReviewLedger | controllers/review.controller.js:49-57 | a new review adds to its own tutor's count and rating sum and to no one else's |
| Reviews.IncompleteReviewRefused | models/review.model.js:19-29 | once the earlier checks pass, a review without a rating, or whose comment is only a vertical tab (which trimming removes), is refused with ValidationFailed |
| Reviews.CreateReviewPreservesValid | controllers/review.controller.js:57-69 | creating a review keeps every invariant, in particular average times count equals the rating sum |
| Reviews.NewestFirst | controllers/review.controller.js:88-94 | the listed reviews are exactly the tutor's among the first n, in strictly decreasing creation order |
| Reviews.TutorReviews | controllers/review.controller.js:84-107 | exactly the tutor's reviews, newest first |
| Reviews.NewReviewListedFirst | controllers/review.controller.js:49-57 | a review just created heads its tutor's review list |
| Admin.ParseDecision | controllers/admin.controller.js:37-42 | the accepted decisions are exactly approved and rejected |
| Admin.PendingTutors | controllers/admin.controller.js:8-28 | exactly the profiles whose verification is pending |
| Admin.VerifyTutor | controllers/admin.controller.js:31-78 | InvalidStatus before lookup, then NotFound; success records the decision, replaces the comment only when a non-empty one is given, sets the user's isVerified exactly when approved, and changes nothing else |
| Admin.VerifiedFlagFollowsDecision | controllers/admin.controller.js:63-66 | after a decision the user is verified exactly when the profile is approved |
| Admin.VerifyIdempotent | controllers/admin.controller.js:53-66 | repeating a decision gives back the same store |
| Admin.VerifyPreservesValid | controllers/admin.controller.js:53-66 | a decision keeps every store invariant |
| Wishlists.Add | controllers/wishlist.controller.js:6-55 | NotFound unless the id is a tutor user, Conflict when already listed; otherwise the tutor is appended, a first add creating [tutorId], and nothing else changes |
| Wishlists.Remove | controllers/wishlist.controller.js:58-89 | NotFound exactly without a wishlist; otherwise the tutor is gone, every other tutor is kept as many times as before, and nothing else changes |
| Wishlists.RemoveKeepsOrder | controllers/wishlist.controller.js:73-75 | removing a tutor keeps the remaining tutors in their previous order |
| Wishlists.AddTwiceConflicts | controllers/wishlist.controller.js:33-38 | adding the same tutor again is refused with Conflict |
| Wishlists.AddThenRemoveRestores | controllers/wishlist.controller.js:40-75 | adding a new tutor then removing it restores the student's list |
| Wishlists.AddPreservesValid | controllers/wishlist.controller.js:33-40 | adding keeps every wishlist duplicate-free |
| Wishlists.RemovePreservesValid | controllers/wishlist.controller.js:73-75 | removing keeps every wishlist duplicate-free |
| TutorSearch.Search | controllers/tutor.controller.js:4-77 | exactly the approved profiles meeting every given filter, with non-increasing average rating |
| TutorSearch.NoFiltersListsApproved | controllers/tutor.controller.js:18-19 | with no filters the result is exactly the approved profiles |
| TutorSearch.RejectedNotSearchable | controllers/admin.controller.js:53-54 | a profile just rejected by an admin is found by no search |
| TutorSearch.LaterStartKeepsMatch | controllers/tutor.controller.js:47-50 | a tutor found for a start time is still found for any later start time |
| TutorSearch.EarlierEndKeepsMatch | controllers/tutor.controller.js:51-53 | a tutor found for an end time is still found for any earlier end time |
| TutorSearch.AvailabilitySlotsMayDiffer | controllers/tutor.controller.js:44-55 | a tutor matches a day and time window that no single slot covers when different slots meet the day, start and end clauses |
| Api.Handle | middleware/auth.middleware.js:4-53 | an unknown caller gets Unauthenticated and a caller of the wrong role Forbidden, before any handler runs; failures and queries leave the store unchanged |
| Api.HandlePreservesValid | routes/student.routes.js:11-33 | every routed request keeps every store invariant |
| Api.OnlyStudentsBook | routes/student.routes.js:12-19 | a tutor or an admin can never book a session |
| Api.EarningsRouteWindow | controllers/tutorSession.controller.js:120-155 | the earnings reply counts exactly the tutor's completed and paid sessions dated within the period's window (the last 7 days through today, the last 30, a custom range given both bounds, otherwise all time) and totals their prices |
| Api.WishlistRoute | controllers/wishlist.controller.js:92-107 | a student without a wishlist reads back an empty list, and after a successful add reads back the previous list with the tutor at its end |

## Left out

- Authentication is out. Token checking and password hashing depend on an opaque library, so identity is a given user id. An unknown id yields `Unauthenticated`.
- Registration, login and the user routes are out.
- The tutor-profile management handlers (profile, availability and subject edits) are out. Their code is not part of this model.
- `getTutorById` is out, because it is a plain lookup.
- Admin reports and export are out. They are database aggregation pipelines and a placeholder CSV export.
- `.populate(...)` joins and response formatting are out. Results are the stored documents or their ids.
- The geospatial index is out, along with the profile's coordinates, address and education fields.
- JavaScript dates and time zones are abstract day numbers. This covers the midnight to 23:59:59 window of the conflict and availability queries, the UTC day of the earnings chart, and `new Date()`. The earnings report takes "now" as a day number.
- IEEE floating point is out: prices and averages are exact `real`s. Non-numeric query strings (which become `NaN`) are not modelled.
- Concurrency is out. Each request is one atomic step, although the source's check-then-insert and its two-document writes can race.
- Trimming of stored strings is out. A review comment is rejected when it trims to nothing, with JavaScript's whitespace set (`Text.Blank`), but a stored comment or note is not shown trimmed.
- Sessions.Book: the booking date is always present. Without one, the source's conflict query fails to cast the date and answers 500, after the profile lookup and before the conflict check (controllers/session.controller.js:37-46). That request is not modelled.
- Sessions.TutorAvailability: the date is always present. Without one, the booked-sessions query fails the same way (controllers/session.controller.js:100-109). That request is not modelled.
- Ids in a request (the tutor id of a booking or wishlist request, the session id of a review or a status update) are always present. An absent id is not modelled.
- The ordering of results among equal keys is out. The model orders ties deterministically; the database leaves them unspecified.
- Reviews are ordered by position rather than by `createdAt` timestamps.
- Object id generation and casting are out, including malformed ids, which raise cast errors in the source.
- Text.ContainsIgnoreCase: the city filter is treated as a literal pattern folded over ASCII letters only. Regular-expression metacharacters and non-ASCII case folding are not modelled.
- UniqueProfileUsers: the store invariant assumes at most one profile per user. The profile schema (models/tutor.model.js:4-8) has no unique index, and profile creation is not part of this model. With two profiles for one user, the source's `findOne` (controllers/review.controller.js:60) would update only the first one, which is what `Reviews.CreateReview` does.
- Reviews.CreateReview: request fields are taken with their schema types. A rating sent as the JSON string "5" would make the source's running mean concatenate strings: with 3 reviews averaging 4, `4*3 + "5"` is "125", and "125" / 4 is 31.25. Such a request is not modelled.
- TutorSessions.PeriodRange: weekly and monthly windows start at day now - 6 and now - 29. A request made exactly at midnight, whose window would then also take in day now - 7 (or now - 30), is not modelled.
