/** Anonymous event feedback (backend/controllers/feedbackController.js):
    a participant with an active registration rates a completed event once;
    the organizer sees the ratings and comments without any author, filtered
    by rating, with a count per star. The author is kept only as a hash
    (`hashUser`, a parameter here), which the unique (event, userHash)
    index uses to refuse a second submission. */
module Feedbacks {
  import opened Outcome
  import opened Schema
  import opened Db

  datatype FeedbackError = NotRegistered | NotCompleted | Invalid | AlreadySubmitted | NotYourEvent

  /** Some `active` registration of `user` for `eventId`. */
  predicate HasActiveRegistration(regs: seq<Registration>, user: UserId, eventId: EventId) {
    exists i :: 0 <= i < |regs| && regs[i].user == user && regs[i].event == eventId && regs[i].status.Active?
  }

  // ---------------------------------------------------------------------
  // Submitting
  // ---------------------------------------------------------------------

  /** The decision of submitFeedback, in the order the source checks: the
      registration, the event's stored status, the schema validators that
      `create` runs, then the unique index. */
  function Submission(db: Database, user: UserId, eventId: EventId, rating: real, comment: Option<string>,
                      userHash: string): (r: Result<Feedback, FeedbackError>)
    ensures r == Err(NotRegistered) <==> !HasActiveRegistration(db.registrations, user, eventId)
    ensures r == Err(NotCompleted) <==>
      HasActiveRegistration(db.registrations, user, eventId) &&
      !(eventId < |db.events| && db.events[eventId].status.Completed?)
    ensures r.Ok? <==>
      && HasActiveRegistration(db.registrations, user, eventId)
      && eventId < |db.events| && db.events[eventId].status.Completed?
      && FeedbackValid(Feedback(|db.feedback|, eventId, userHash, rating, comment))
      && !FeedbackGiven(db.feedback, eventId, userHash)
    ensures r.Ok? ==> r.value == Feedback(|db.feedback|, eventId, userHash, rating, comment)
    ensures r == Err(Invalid) <==>
      && HasActiveRegistration(db.registrations, user, eventId)
      && eventId < |db.events| && db.events[eventId].status.Completed?
      && !FeedbackValid(Feedback(|db.feedback|, eventId, userHash, rating, comment))
    ensures r == Err(AlreadySubmitted) <==>
      && HasActiveRegistration(db.registrations, user, eventId)
      && eventId < |db.events| && db.events[eventId].status.Completed?
      && FeedbackValid(Feedback(|db.feedback|, eventId, userHash, rating, comment))
      && FeedbackGiven(db.feedback, eventId, userHash)
  {
    var f := Feedback(|db.feedback|, eventId, userHash, rating, comment);
    if !(exists i :: 0 <= i < |db.registrations| && db.registrations[i].user == user &&
                     db.registrations[i].event == eventId && db.registrations[i].status.Active?) then
      Err(NotRegistered)
    else if eventId >= |db.events| || !db.events[eventId].status.Completed? then Err(NotCompleted)
    else if !FeedbackValid(f) then Err(Invalid)
    else if exists i :: 0 <= i < |db.feedback| && db.feedback[i].event == eventId && db.feedback[i].userHash == userHash then
      Err(AlreadySubmitted)
    else Ok(f)
  }

  /** submitFeedback by participant `user`. */
  method SubmitFeedback(st: Store, user: UserId, eventId: EventId, rating: real, comment: Option<string>,
                        hashUser: UserId -> string) returns (r: Result<FeedbackId, FeedbackError>)
    requires st.Valid()
    modifies st
    ensures st.Valid()
    ensures var d := Submission(old(st.State()), user, eventId, rating, comment, hashUser(user));
      && (d.Err? ==> r == Err(d.error) && st.State() == old(st.State()))
      && (d.Ok? ==> r == Ok(d.value.id) && st.State() == old(st.State()).(feedback := old(st.feedback) + [d.value]))
  {
    var d := Submission(st.State(), user, eventId, rating, comment, hashUser(user));
    if d.Err? {
      return Err(d.error);
    }
    st.InsertFeedback(d.value);
    r := Ok(d.value.id);
  }

  /** Once a user's feedback is stored, a further valid submission by the
      same user for the same event is refused as a duplicate. */
  lemma SecondSubmissionRefused(db: Database, user: UserId, eventId: EventId, rating: real, comment: Option<string>,
                                rating2: real, comment2: Option<string>, userHash: string)
    requires Submission(db, user, eventId, rating, comment, userHash).Ok?
    requires FeedbackValid(Feedback(|db.feedback| + 1, eventId, userHash, rating2, comment2))
    ensures var db2 := db.(feedback := db.feedback + [Submission(db, user, eventId, rating, comment, userHash).value]);
      Submission(db2, user, eventId, rating2, comment2, userHash) == Err(AlreadySubmitted)
  {
    var f := Submission(db, user, eventId, rating, comment, userHash).value;
    var db2 := db.(feedback := db.feedback + [f]);
    assert db2.feedback[|db.feedback|] == f;
    assert FeedbackGiven(db2.feedback, eventId, userHash);
  }

  // ---------------------------------------------------------------------
  // The organizer's view
  // ---------------------------------------------------------------------

  /** What the organizer sees of one feedback: no author, not even the hash. */
  datatype FeedbackView = FeedbackView(id: FeedbackId, rating: real, comment: Option<string>)

  function View(f: Feedback): FeedbackView {
    FeedbackView(f.id, f.rating, f.comment)
  }

  /** The query `{ event, rating? }`: a present filter keeps exactly that rating. */
  predicate Selected(f: Feedback, eventId: EventId, ratingFilter: Option<int>) {
    f.event == eventId && (ratingFilter.None? || f.rating == ratingFilter.value as real)
  }

  /** The feedback the query returns, newest first (the collection is in
      creation order, so the `createdAt` descending sort reverses it). */
  function Matching(fs: seq<Feedback>, eventId: EventId, ratingFilter: Option<int>): (r: seq<FeedbackView>)
    ensures |r| <= |fs|
    ensures forall v :: v in r <==> exists i :: 0 <= i < |fs| && Selected(fs[i], eventId, ratingFilter) && v == View(fs[i])
  {
    if fs == [] then []
    else
      var last := fs[|fs| - 1];
      var rest := Matching(fs[..|fs| - 1], eventId, ratingFilter);
      assert forall i :: 0 <= i < |fs| - 1 ==> fs[..|fs| - 1][i] == fs[i];
      if Selected(last, eventId, ratingFilter) then [View(last)] + rest else rest
  }

  /** With a rating filter every returned feedback has exactly that rating. */
  lemma FilterExact(fs: seq<Feedback>, eventId: EventId, rating: int)
    ensures forall v :: v in Matching(fs, eventId, Some(rating)) ==> v.rating == rating as real
  {
    forall v | v in Matching(fs, eventId, Some(rating)) ensures v.rating == rating as real {
      var i :| 0 <= i < |fs| && Selected(fs[i], eventId, Some(rating)) && v == View(fs[i]);
    }
  }

  /** Strictly decreasing ids: newest first. */
  predicate NewestFirst(vs: seq<FeedbackView>) {
    forall a, b :: 0 <= a < b < |vs| ==> vs[a].id > vs[b].id
  }

  /** On an indexed collection the views come newest first. */
  lemma {:induction false} MatchingNewestFirst(fs: seq<Feedback>, eventId: EventId, ratingFilter: Option<int>)
    requires FeedbackIndexed(fs)
    ensures forall v :: v in Matching(fs, eventId, ratingFilter) ==> v.id < |fs|
    ensures NewestFirst(Matching(fs, eventId, ratingFilter))
  {
    if fs != [] {
      var init := fs[..|fs| - 1];
      assert FeedbackIndexed(init);
      MatchingNewestFirst(init, eventId, ratingFilter);
      var last := fs[|fs| - 1];
      var rest := Matching(init, eventId, ratingFilter);
      if Selected(last, eventId, ratingFilter) {
        var r := [View(last)] + rest;
        assert Matching(fs, eventId, ratingFilter) == r;
        forall a, b | 0 <= a < b < |r| ensures r[a].id > r[b].id {
          assert r[b] == rest[b - 1] && rest[b - 1] in rest;
          if a > 0 {
            assert r[a] == rest[a - 1];
          }
        }
      }
    }
  }

  /** `feedbacks.filter(f => f.rating === r).length`. */
  function CountRating(vs: seq<FeedbackView>, r: int): (n: nat)
    ensures n <= |vs|
  {
    if vs == [] then 0 else (if vs[0].rating == r as real then 1 else 0) + CountRating(vs[1..], r)
  }

  /** `[1, 2, 3, 4, 5].map(...)`: the count for each star, in order. */
  function Distribution(vs: seq<FeedbackView>): (d: seq<nat>)
    ensures |d| == 5
    ensures forall k :: 0 <= k < 5 ==> d[k] == CountRating(vs, k + 1)
  {
    seq(5, k requires 0 <= k < 5 => CountRating(vs, k + 1))
  }

  /** A whole number of stars between 1 and 5. */
  predicate WholeStars(rating: real) {
    1.0 <= rating <= 5.0 && rating == rating.Floor as real
  }

  /** When every rating is a whole number of stars, the five counts add up
      to the number of feedbacks returned. */
  lemma {:induction false} DistributionSumsToTotal(vs: seq<FeedbackView>)
    requires forall v :: v in vs ==> WholeStars(v.rating)
    ensures CountRating(vs, 1) + CountRating(vs, 2) + CountRating(vs, 3) + CountRating(vs, 4) + CountRating(vs, 5) == |vs|
  {
    if vs != [] {
      assert vs[0] in vs;
      var k := vs[0].rating.Floor;
      assert 1 <= k <= 5 && vs[0].rating == k as real;
      assert forall v :: v in vs[1..] ==> v in vs;
      DistributionSumsToTotal(vs[1..]);
    }
  }

  /** Ratings that are not a whole number of stars (the schema only bounds
      them to 1..5) are counted under no star. */
  lemma {:induction false} FractionalRatingUncounted(vs: seq<FeedbackView>, k: int)
    requires forall v :: v in vs ==> !WholeStars(v.rating)
    requires 1 <= k <= 5
    ensures CountRating(vs, k) == 0
  {
    if vs != [] {
      assert vs[0] in vs;
      assert (k as real).Floor == k;
      assert forall v :: v in vs[1..] ==> v in vs;
      FractionalRatingUncounted(vs[1..], k);
    }
  }

  /** The response of getEventFeedback, without `avgRating`. */
  datatype FeedbackReport = FeedbackReport(feedbacks: seq<FeedbackView>, total: nat, distribution: seq<nat>)

  /** getEventFeedback by organizer `org`. */
  function GetEventFeedback(db: Database, org: OrganizerId, eventId: EventId, ratingFilter: Option<int>)
    : (r: Result<FeedbackReport, FeedbackError>)
    ensures r.Err? <==> !OwnsEvent(db.events, org, eventId)
    ensures r.Err? ==> r.error == NotYourEvent
    ensures r.Ok? ==>
      && r.value.total == |r.value.feedbacks|
      && (forall v :: v in r.value.feedbacks <==>
            exists i :: 0 <= i < |db.feedback| && Selected(db.feedback[i], eventId, ratingFilter) && v == View(db.feedback[i]))
      && |r.value.distribution| == 5
      && (forall k :: 0 <= k < 5 ==> r.value.distribution[k] == CountRating(r.value.feedbacks, k + 1))
  {
    if !OwnsEvent(db.events, org, eventId) then Err(NotYourEvent)
    else
      var vs := Matching(db.feedback, eventId, ratingFilter);
      Ok(FeedbackReport(vs, |vs|, Distribution(vs)))
  }

  // ---------------------------------------------------------------------
  // checkSubmitted
  // ---------------------------------------------------------------------

  /** `Feedback.findOne({ event, userHash })`: the first such feedback. */
  function FindFeedback(fs: seq<Feedback>, eventId: EventId, userHash: string): (r: Option<FeedbackId>)
    ensures r.Some? ==> r.value < |fs| && fs[r.value].event == eventId && fs[r.value].userHash == userHash
    ensures r.None? <==> !FeedbackGiven(fs, eventId, userHash)
  {
    if fs == [] then None
    else match FindFeedback(fs[..|fs| - 1], eventId, userHash)
      case Some(i) => Some(i)
      case None =>
        if fs[|fs| - 1].event == eventId && fs[|fs| - 1].userHash == userHash then Some(|fs| - 1) else None
  }

  /** checkSubmitted for participant `user`. */
  function CheckSubmitted(db: Database, user: UserId, eventId: EventId, hashUser: UserId -> string): (submitted: bool)
    ensures submitted <==> FeedbackGiven(db.feedback, eventId, hashUser(user))
  {
    FindFeedback(db.feedback, eventId, hashUser(user)).Some?
  }

  /** After a successful submission the participant's check reports it. */
  lemma SubmittedAfterSubmit(db: Database, user: UserId, eventId: EventId, rating: real, comment: Option<string>,
                             hashUser: UserId -> string)
    requires Submission(db, user, eventId, rating, comment, hashUser(user)).Ok?
    ensures CheckSubmitted(db.(feedback := db.feedback + [Submission(db, user, eventId, rating, comment, hashUser(user)).value]),
                           user, eventId, hashUser)
  {
    var f := Submission(db, user, eventId, rating, comment, hashUser(user)).value;
    assert (db.feedback + [f])[|db.feedback|] == f;
  }
}
