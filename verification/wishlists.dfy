/**
 * Student wishlists (controllers/wishlist.controller.js): an ordered, duplicate-free
 * list of tutor user ids per student.
 */
module Wishlists {
  import opened Types
  import opened Seqs
  import opened Invariants

  predicate IsTutorUser(st: Store, tutorId: UserId)
  {
    tutorId in st.users && st.users[tutorId].role == Tutor
  }

  /** getWishlist: the student's tutors, or an empty list when no wishlist is stored. */
  function Wishlist(st: Store, student: UserId): seq<UserId>
  {
    if student in st.wishlists then st.wishlists[student] else []
  }

  /**
   * addToWishlist. Fails with NotFound unless tutorId is a user with the tutor role, and
   * with Conflict when the tutor is already listed. Otherwise the tutor is appended at the
   * end, existing entries keeping their order; a student's first add creates the list.
   */
  function Add(st: Store, student: UserId, tutorId: UserId): (r: Result<Store>)
    ensures !IsTutorUser(st, tutorId) ==> r == Err(NotFound)
    ensures IsTutorUser(st, tutorId) && tutorId in Wishlist(st, student) ==> r == Err(Conflict)
    ensures r.Ok? <==> IsTutorUser(st, tutorId) && tutorId !in Wishlist(st, student)
    ensures student !in st.wishlists && r.Ok? ==> Wishlist(r.value, student) == [tutorId]
    ensures r.Ok? ==>
      && student in r.value.wishlists
      && r.value == st.(wishlists := r.value.wishlists)
      && r.value.wishlists == st.wishlists[student := r.value.wishlists[student]]
      && Wishlist(r.value, student) == Wishlist(st, student) + [tutorId]
  {
    if !IsTutorUser(st, tutorId) then Err(NotFound)
    else if student !in st.wishlists then Ok(st.(wishlists := st.wishlists[student := [tutorId]]))
    else if tutorId in st.wishlists[student] then Err(Conflict)
    else Ok(st.(wishlists := st.wishlists[student := st.wishlists[student] + [tutorId]]))
  }

  /**
   * removeFromWishlist. Fails with NotFound when the student has no wishlist; otherwise
   * every occurrence of tutorId is dropped and the others keep their order (removing an
   * absent tutor succeeds and changes nothing).
   */
  function Remove(st: Store, student: UserId, tutorId: UserId): (r: Result<Store>)
    ensures r.Err? <==> student !in st.wishlists
    ensures r.Err? ==> r.error == NotFound
    ensures r.Ok? ==>
      && r.value == st.(wishlists := st.wishlists[student := RemoveAll(st.wishlists[student], tutorId)])
      && tutorId !in Wishlist(r.value, student)
      && (forall t :: t != tutorId ==> (t in Wishlist(r.value, student) <==> t in Wishlist(st, student)))
      && (forall t :: multiset(Wishlist(r.value, student))[t] ==
                     if t == tutorId then 0 else multiset(Wishlist(st, student))[t])
  {
    if student !in st.wishlists then Err(NotFound)
    else Ok(st.(wishlists := st.wishlists[student := RemoveAll(st.wishlists[student], tutorId)]))
  }

  /** Adding a tutor twice: the second add is refused, so the list never holds a duplicate. */
  lemma AddTwiceConflicts(st: Store, student: UserId, tutorId: UserId)
    requires Add(st, student, tutorId).Ok?
    ensures Add(Add(st, student, tutorId).value, student, tutorId) == Err(Conflict)
  {
    var st' := Add(st, student, tutorId).value;
    assert Wishlist(st', student)[|Wishlist(st', student)| - 1] == tutorId;
  }

  /** Adding a new tutor and then removing it gives the student the list they had. */
  lemma AddThenRemoveRestores(st: Store, student: UserId, tutorId: UserId)
    requires Add(st, student, tutorId).Ok?
    ensures var st' := Add(st, student, tutorId).value;
            && Remove(st', student, tutorId).Ok?
            && Wishlist(Remove(st', student, tutorId).value, student) == Wishlist(st, student)
  {
    RemoveAllAppended(Wishlist(st, student), tutorId);
  }

  /**
   * Removal keeps the others in order: removing from a list made of two parts removes
   * from each part and keeps the first part ahead of the second.
   */
  lemma RemoveKeepsOrder(st: Store, student: UserId, tutorId: UserId, front: seq<UserId>, back: seq<UserId>)
    requires Wishlist(st, student) == front + back
    requires Remove(st, student, tutorId).Ok?
    ensures Wishlist(Remove(st, student, tutorId).value, student) == RemoveAll(front, tutorId) + RemoveAll(back, tutorId)
  {
    RemoveAllConcat(front, back, tutorId);
  }

  lemma AddPreservesValid(st: Store, student: UserId, tutorId: UserId)
    requires Valid(st)
    requires Add(st, student, tutorId).Ok?
    ensures Valid(Add(st, student, tutorId).value)
  {
    var before := Wishlist(st, student);
    assert NoDuplicates(before);
    AppendFresh(before, tutorId);
  }

  lemma RemovePreservesValid(st: Store, student: UserId, tutorId: UserId)
    requires Valid(st)
    requires Remove(st, student, tutorId).Ok?
    ensures Valid(Remove(st, student, tutorId).value)
  {
    assert NoDuplicates(st.wishlists[student]);
  }
}
