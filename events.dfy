/** The event lifecycle (backend/controllers/eventController.js): the display
    status derived from the clock, the status-transition table, the edit rules
    that depend on the status, the custom-form lock, event creation, the
    escaping of search strings and the participant relevance ordering. */
module Events {
  import opened Outcome
  import opened Schema
  import opened Db
  import opened Sorting

  datatype EventError =
    | EventNotFound
    | CannotEditLive
    | ValidationFailed
    | InvalidTransition(from: EventStatus, requested: string)
    | FormLocked
    | NotNormalEvent

  // ---------------------------------------------------------------------
  // computeEffectiveStatus
  // ---------------------------------------------------------------------

  /** The status shown to readers. A stored `draft` or `cancelled` is shown as
      it is; any other stored status is replaced by what the clock says:
      `ongoing` inside [start, end], `completed` after the end, `published`
      before the start. */
  function EffectiveStatus(stored: EventStatus, start: Time, end: Time, now: Time): (r: EventStatus)
    ensures stored.Draft? || stored.Cancelled? ==> r == stored
    ensures !stored.Draft? && !stored.Cancelled? ==>
      && (r.Ongoing? <==> start <= now <= end)
      && (r.Completed? <==> now > end)
      && (r.Published? <==> now < start && now <= end)
  {
    if stored.Cancelled? || stored.Draft? then stored
    else if now >= start && now <= end then Ongoing
    else if now > end then EventStatus.Completed
    else Published
  }

  /** Position of a status along the lifecycle. */
  function Rank(s: EventStatus): nat {
    match s
    case Draft => 0
    case Published => 1
    case Ongoing => 2
    case Completed => 3
    case Cancelled => 3
  }

  /** As time passes the displayed status of a well-formed event only moves
      forward: published, then ongoing, then completed. */
  lemma EffectiveStatusAdvances(stored: EventStatus, start: Time, end: Time, t1: Time, t2: Time)
    requires start <= end && t1 <= t2
    ensures Rank(EffectiveStatus(stored, start, end, t1)) <= Rank(EffectiveStatus(stored, start, end, t2))
  {
  }

  /** Sets the display status of an event that is about to be returned. */
  function WithEffectiveStatus(e: Event, now: Time): (r: Event)
    ensures r.status == EffectiveStatus(e.status, e.startDate, e.endDate, now)
    ensures r.(status := e.status) == e
  {
    e.(status := EffectiveStatus(e.status, e.startDate, e.endDate, now))
  }

  // ---------------------------------------------------------------------
  // Status transitions (updateEventStatus)
  // ---------------------------------------------------------------------

  function StatusName(s: EventStatus): string {
    match s
    case Draft => "draft"
    case Published => "published"
    case Ongoing => "ongoing"
    case Completed => "completed"
    case Cancelled => "cancelled"
  }

  /** The `validTransitions` table. */
  function NextStatuses(s: EventStatus): seq<EventStatus> {
    match s
    case Draft => [Published, EventStatus.Cancelled]
    case Published => [Ongoing, EventStatus.Cancelled]
    case Ongoing => [EventStatus.Completed, EventStatus.Cancelled]
    case Completed => []
    case Cancelled => []
  }

  predicate Allowed(from: EventStatus, to: EventStatus) {
    to in NextStatuses(from)
  }

  /** The status a request string names if the table allows it from `from`
      (`validTransitions[from].includes(status)`), or nothing. */
  function Transition(from: EventStatus, requested: string): (r: Option<EventStatus>)
    ensures r.Some? ==> Allowed(from, r.value) && StatusName(r.value) == requested
    ensures r.None? ==> forall t :: Allowed(from, t) ==> StatusName(t) != requested
  {
    var next := NextStatuses(from);
    if |next| > 0 && StatusName(next[0]) == requested then Some(next[0])
    else if |next| > 1 && StatusName(next[1]) == requested then Some(next[1])
    else None
  }

  /** Every accepted transition moves strictly forward along the lifecycle, and
      `completed` and `cancelled` are terminal. */
  lemma TransitionAdvances(from: EventStatus, to: EventStatus)
    requires Allowed(from, to)
    ensures Rank(from) < Rank(to)
    ensures !from.Completed? && !from.Cancelled?
  {
  }

  /** The status after a sequence of transition requests, each applied only
      when the table allows it. */
  function AfterRequests(s: EventStatus, reqs: seq<string>): EventStatus
    decreases |reqs|
  {
    if reqs == [] then s
    else match Transition(s, reqs[0])
      case Some(t) => AfterRequests(t, reqs[1..])
      case None => AfterRequests(s, reqs[1..])
  }

  /** How many requests of the sequence were accepted. */
  function AcceptedRequests(s: EventStatus, reqs: seq<string>): nat
    decreases |reqs|
  {
    if reqs == [] then 0
    else match Transition(s, reqs[0])
      case Some(t) => 1 + AcceptedRequests(t, reqs[1..])
      case None => AcceptedRequests(s, reqs[1..])
  }

  /** Whatever requests arrive, an event takes at most three transitions, and
      no status is ever left and re-entered. */
  lemma {:induction false} AtMostThreeTransitions(s: EventStatus, reqs: seq<string>)
    ensures AcceptedRequests(s, reqs) + Rank(s) <= Rank(AfterRequests(s, reqs))
    ensures AcceptedRequests(s, reqs) <= 3
    decreases |reqs|
  {
    if reqs != [] {
      match Transition(s, reqs[0])
      case Some(t) =>
        TransitionAdvances(s, t);
        AtMostThreeTransitions(t, reqs[1..]);
      case None =>
        AtMostThreeTransitions(s, reqs[1..]);
    }
  }

  // ---------------------------------------------------------------------
  // Request bodies for createEvent and updateEvent
  // ---------------------------------------------------------------------

  /** The fields a request body may carry: `None` is a field the body leaves
      out. `closeRegistrations` is true when the body holds the literal `true`. */
  datatype EventPatch = EventPatch(
    organizer: Option<OrganizerId>,
    name: Option<string>,
    description: Option<string>,
    eventType: Option<EventType>,
    eligibility: Option<Eligibility>,
    startDate: Option<Time>,
    endDate: Option<Time>,
    registrationDeadline: Option<Time>,
    registrationLimit: Option<int>,
    registrationCount: Option<int>,
    registrationFee: Option<Money>,
    tags: Option<seq<string>>,
    venue: Option<string>,
    imageUrl: Option<string>,
    status: Option<EventStatus>,
    customForm: Option<seq<FormField>>,
    formLocked: Option<bool>,
    merchandiseItems: Option<seq<Variant>>,
    purchaseLimit: Option<int>,
    teamSize: Option<int>,
    requiresPaymentApproval: Option<bool>,
    viewCount: Option<int>,
    revenue: Option<Money>,
    closeRegistrations: bool)

  /** `Object.assign(event, body)`: every field the body carries replaces the
      event's. */
  function AssignAll(e: Event, p: EventPatch): Event {
    e.(organizer := p.organizer.Or(e.organizer),
       name := p.name.Or(e.name),
       description := p.description.Or(e.description),
       eventType := p.eventType.Or(e.eventType),
       eligibility := p.eligibility.Or(e.eligibility),
       startDate := p.startDate.Or(e.startDate),
       endDate := p.endDate.Or(e.endDate),
       registrationDeadline := p.registrationDeadline.Or(e.registrationDeadline),
       registrationLimit := p.registrationLimit.Or(e.registrationLimit),
       registrationCount := p.registrationCount.Or(e.registrationCount),
       registrationFee := p.registrationFee.Or(e.registrationFee),
       tags := p.tags.Or(e.tags),
       venue := if p.venue.Some? then p.venue else e.venue,
       imageUrl := if p.imageUrl.Some? then p.imageUrl else e.imageUrl,
       status := p.status.Or(e.status),
       customForm := p.customForm.Or(e.customForm),
       formLocked := p.formLocked.Or(e.formLocked),
       merchandiseItems := p.merchandiseItems.Or(e.merchandiseItems),
       purchaseLimit := p.purchaseLimit.Or(e.purchaseLimit),
       teamSize := p.teamSize.Or(e.teamSize),
       requiresPaymentApproval := p.requiresPaymentApproval.Or(e.requiresPaymentApproval),
       viewCount := p.viewCount.Or(e.viewCount),
       revenue := p.revenue.Or(e.revenue))
  }

  /** The `required: true` string fields that `save()` validates. */
  predicate RequiredPresent(e: Event) {
    e.name != [] && e.description != []
  }

  /** Every field other than the four a published event may change freely
      and its deadline and limit is as it was. */
  predicate SameOutsidePublishedEdit(e: Event, r: Event) {
    r == e.(description := r.description, venue := r.venue, imageUrl := r.imageUrl, tags := r.tags,
            registrationDeadline := r.registrationDeadline, registrationLimit := r.registrationLimit)
  }

  /** The published branch: only the whitelisted fields, a later deadline, a
      larger limit, and closing registrations at `now`. */
  function PublishedEdit(e: Event, p: EventPatch, now: Time): Event {
    var deadline :=
      if p.closeRegistrations then now
      else if p.registrationDeadline.Some? && p.registrationDeadline.value > e.registrationDeadline
      then p.registrationDeadline.value
      else e.registrationDeadline;
    var limit :=
      if p.registrationLimit.Some? && p.registrationLimit.value > e.registrationLimit
      then p.registrationLimit.value
      else e.registrationLimit;
    e.(description := p.description.Or(e.description),
       venue := if p.venue.Some? then p.venue else e.venue,
       imageUrl := if p.imageUrl.Some? then p.imageUrl else e.imageUrl,
       tags := p.tags.Or(e.tags),
       registrationDeadline := deadline,
       registrationLimit := limit)
  }

  /** updateEvent on the loaded event: the new event document, or the error. */
  function EditEvent(e: Event, p: EventPatch, now: Time): (r: Result<Event, EventError>)
    // ongoing and completed events are locked
    ensures e.status.Ongoing? || e.status.Completed? <==> r == Err(CannotEditLive)
    // an unlocked event is saved exactly when the edited document still validates
    ensures e.status.Published? ==> (r.Ok? <==> RequiredPresent(PublishedEdit(e, p, now)))
    ensures e.status.Draft? || e.status.Cancelled? ==> (r.Ok? <==> RequiredPresent(AssignAll(e, p)))
    // a published event keeps everything outside the whitelist
    ensures e.status.Published? && r.Ok? ==>
      && SameOutsidePublishedEdit(e, r.value)
      && r.value.description == p.description.Or(e.description)
      && r.value.tags == p.tags.Or(e.tags)
      && (p.venue.Some? ==> r.value.venue == p.venue)
      && (p.venue.None? ==> r.value.venue == e.venue)
      && (p.imageUrl.Some? ==> r.value.imageUrl == p.imageUrl)
      && (p.imageUrl.None? ==> r.value.imageUrl == e.imageUrl)
    // the limit of a published event only grows, and only to a strictly larger request
    ensures e.status.Published? && r.Ok? ==>
      && r.value.registrationLimit >= e.registrationLimit
      && (r.value.registrationLimit != e.registrationLimit <==>
            p.registrationLimit.Some? && p.registrationLimit.value > e.registrationLimit)
      && (r.value.registrationLimit != e.registrationLimit ==> r.value.registrationLimit == p.registrationLimit.value)
    // the deadline of a published event only moves later, unless registrations are closed now
    ensures e.status.Published? && r.Ok? && !p.closeRegistrations ==>
      && r.value.registrationDeadline >= e.registrationDeadline
      && (r.value.registrationDeadline != e.registrationDeadline <==>
            p.registrationDeadline.Some? && p.registrationDeadline.value > e.registrationDeadline)
      && (r.value.registrationDeadline != e.registrationDeadline ==>
            r.value.registrationDeadline == p.registrationDeadline.value)
    ensures e.status.Published? && r.Ok? && p.closeRegistrations ==> r.value.registrationDeadline == now
    // draft and cancelled events take every field of the body
    ensures (e.status.Draft? || e.status.Cancelled?) && r.Ok? ==> r.value == AssignAll(e, p)
    // the only other failure is a document that no longer validates
    ensures r.Err? && !e.status.Ongoing? && !e.status.Completed? ==> r.error == ValidationFailed
    ensures r.Ok? ==> RequiredPresent(r.value) && r.value.id == e.id
  {
    if e.status.Ongoing? || e.status.Completed? then Err(CannotEditLive)
    else
      var updated := if e.status.Published? then PublishedEdit(e, p, now) else AssignAll(e, p);
      if RequiredPresent(updated) then Ok(updated) else Err(ValidationFailed)
  }

  /** A cancelled event is not locked: the full-edit branch lets a request body
      bring it back to `published` without going through the transition table. */
  lemma CancelledEventCanBeRepublished(e: Event, now: Time)
    requires e.status.Cancelled? && RequiredPresent(e)
    ensures var p := EventPatch(None, None, None, None, None, None, None, None, None, None, None, None,
                                None, None, Some(Published), None, None, None, None, None, None, None, None, false);
            EditEvent(e, p, now) == Ok(e.(status := Published))
            && !Allowed(e.status, Published)
  {
  }

  // ---------------------------------------------------------------------
  // updateEventForm
  // ---------------------------------------------------------------------

  /** updateEventForm on the loaded event. */
  function EditForm(e: Event, fields: seq<FormField>): (r: Result<Event, EventError>)
    ensures r.Ok? <==> !e.formLocked && e.eventType.Normal?
    ensures e.formLocked ==> r == Err(FormLocked)
    ensures !e.formLocked && !e.eventType.Normal? ==> r == Err(NotNormalEvent)
    ensures r.Ok? ==> r.value.customForm == fields && r.value == e.(customForm := r.value.customForm)
  {
    if e.formLocked then Err(FormLocked)
    else if !e.eventType.Normal? then Err(NotNormalEvent)
    else Ok(e.(customForm := fields))
  }

  // ---------------------------------------------------------------------
  // createEvent
  // ---------------------------------------------------------------------

  /** `Event.create({ ...body, organizer, status: 'draft' })`: the schema
      defaults fill what the body leaves out; the organizer and the `draft`
      status are forced; the required fields must be present. */
  function NewEvent(id: EventId, org: OrganizerId, p: EventPatch, now: Time): (r: Result<Event, EventError>)
    ensures r.Ok? <==>
      && p.name.Some? && p.name.value != [] && p.description.Some? && p.description.value != []
      && p.eventType.Some? && p.startDate.Some? && p.endDate.Some?
      && p.registrationDeadline.Some? && p.registrationLimit.Some?
    ensures r.Err? ==> r.error == ValidationFailed
    ensures r.Ok? ==> var e := r.value;
      && e.id == id && e.organizer == org && e.status == Draft && e.createdAt == now
      && e.name == p.name.value && e.description == p.description.value && e.eventType == p.eventType.value
      && e.startDate == p.startDate.value && e.endDate == p.endDate.value
      && e.registrationDeadline == p.registrationDeadline.value && e.registrationLimit == p.registrationLimit.value
      && e.tags == p.tags.Or([]) && e.venue == p.venue && e.imageUrl == p.imageUrl
      && e.customForm == p.customForm.Or([]) && e.merchandiseItems == p.merchandiseItems.Or([])
      && e.eligibility == p.eligibility.Or(DefaultEligibility)
      && e.registrationCount == p.registrationCount.Or(0)
      && e.registrationFee == p.registrationFee.Or(0)
      && e.viewCount == p.viewCount.Or(0)
      && e.revenue == p.revenue.Or(0)
      && e.formLocked == p.formLocked.Or(false)
      && e.requiresPaymentApproval == p.requiresPaymentApproval.Or(false)
      && e.teamSize == p.teamSize.Or(DefaultTeamSize)
      && e.purchaseLimit == p.purchaseLimit.Or(DefaultPurchaseLimit)
  {
    if p.name.Some? && p.name.value != [] && p.description.Some? && p.description.value != []
       && p.eventType.Some? && p.startDate.Some? && p.endDate.Some?
       && p.registrationDeadline.Some? && p.registrationLimit.Some?
    then
      Ok(Event(id, org, p.name.value, p.description.value, p.eventType.value,
               p.eligibility.Or(DefaultEligibility), p.startDate.value, p.endDate.value,
               p.registrationDeadline.value, p.registrationLimit.value,
               p.registrationCount.Or(0), p.registrationFee.Or(0), p.tags.Or([]),
               p.venue, p.imageUrl, DefaultEventStatus, p.customForm.Or([]), p.formLocked.Or(false),
               p.merchandiseItems.Or([]), p.purchaseLimit.Or(DefaultPurchaseLimit),
               p.teamSize.Or(DefaultTeamSize), p.requiresPaymentApproval.Or(false),
               p.viewCount.Or(0), p.revenue.Or(0), now))
    else Err(ValidationFailed)
  }

  // ---------------------------------------------------------------------
  // Search escaping in getEvents
  // ---------------------------------------------------------------------

  /** The characters of the class `[.*+?^${}()|[\]\\]`. */
  predicate IsRegexMeta(c: char) {
    c in {'.', '*', '+', '?', '^', '$', '{', '}', '(', ')', '|', '[', ']', '\\'}
  }

  function CountMeta(s: string): nat {
    if s == [] then 0 else (if IsRegexMeta(s[0]) then 1 else 0) + CountMeta(s[1..])
  }

  /** `search.replace(/[.*+?^${}()|[\]\\]/g, '\\$&')`. */
  function EscapeRegex(s: string): (r: string)
    ensures |r| == |s| + CountMeta(s)
  {
    if s == [] then []
    else (if IsRegexMeta(s[0]) then ['\\', s[0]] else [s[0]]) + EscapeRegex(s[1..])
  }

  /** Reads an escaped pattern back: a backslash stands for the next character. */
  function Unescape(r: string): string
    decreases |r|
  {
    if r == [] then []
    else if r[0] == '\\' && |r| >= 2 then [r[1]] + Unescape(r[2..])
    else [r[0]] + Unescape(r[1..])
  }

  /** Escaping loses nothing: the escaped pattern matches exactly the text typed. */
  lemma {:induction false} EscapeRoundTrip(s: string)
    ensures Unescape(EscapeRegex(s)) == s
  {
    if s != [] {
      EscapeRoundTrip(s[1..]);
      var tail := EscapeRegex(s[1..]);
      if IsRegexMeta(s[0]) {
        assert EscapeRegex(s) == ['\\', s[0]] + tail;
        assert (['\\', s[0]] + tail)[2..] == tail;
      } else {
        assert EscapeRegex(s) == [s[0]] + tail;
        assert ([s[0]] + tail)[1..] == tail;
      }
      assert s == [s[0]] + s[1..];
    }
  }

  /** A search string without metacharacters is used as it is. */
  lemma {:induction false} EscapeKeepsPlainText(s: string)
    requires forall i :: 0 <= i < |s| ==> !IsRegexMeta(s[i])
    ensures EscapeRegex(s) == s
  {
    if s != [] {
      EscapeKeepsPlainText(s[1..]);
      assert s == [s[0]] + s[1..];
    }
  }

  // ---------------------------------------------------------------------
  // Participant relevance ordering in getEvents
  // ---------------------------------------------------------------------

  /** A tag matches when, lower-cased, it contains an interest or is contained
      in one. */
  predicate TagMatches(tag: string, interests: seq<string>) {
    exists i :: 0 <= i < |interests| &&
      (Contains(Lower(tag), Lower(interests[i])) || Contains(Lower(interests[i]), Lower(tag)))
  }

  /** The number of matching tags: none exactly when no tag matches, all
      exactly when every tag does. */
  function MatchingTags(tags: seq<string>, interests: seq<string>): (n: nat)
    ensures n <= |tags|
    ensures n == 0 <==> forall i :: 0 <= i < |tags| ==> !TagMatches(tags[i], interests)
    ensures n == |tags| <==> forall i :: 0 <= i < |tags| ==> TagMatches(tags[i], interests)
  {
    if tags == [] then 0
    else (if TagMatches(tags[0], interests) then 1 else 0) + MatchingTags(tags[1..], interests)
  }

  /** `_relevanceScore`: 10 when the organizer is a followed club, plus 3 per
      matching tag. */
  function RelevanceScore(e: Event, followed: seq<OrganizerId>, interests: seq<string>): nat {
    (if e.organizer in followed then 10 else 0) + 3 * MatchingTags(e.tags, interests)
  }

  /** More interests never lower a score. */
  lemma {:induction false} MoreInterestsNeverLower(tags: seq<string>, interests: seq<string>, extra: seq<string>)
    ensures MatchingTags(tags, interests) <= MatchingTags(tags, interests + extra)
  {
    if tags != [] {
      MoreInterestsNeverLower(tags[1..], interests, extra);
      if TagMatches(tags[0], interests) {
        var i :| 0 <= i < |interests| &&
          (Contains(Lower(tags[0]), Lower(interests[i])) || Contains(Lower(interests[i]), Lower(tags[0])));
        assert (interests + extra)[i] == interests[i];
      }
    }
  }

  /** Following the organizer adds exactly 10 to the score of its events. */
  lemma FollowingAddsTen(e: Event, followed: seq<OrganizerId>, interests: seq<string>)
    requires e.organizer !in followed
    ensures RelevanceScore(e, followed + [e.organizer], interests) == RelevanceScore(e, followed, interests) + 10
  {
  }

  function RelevanceKey(followed: seq<OrganizerId>, interests: seq<string>): Event -> (int, int) {
    e => (0 - (RelevanceScore(e, followed, interests) as int), 0 - e.createdAt)
  }

  /** The participant ordering: the same events, by score, highest first, and
      among equal scores the most recently created first. */
  function RankForParticipant(events: seq<Event>, followed: seq<OrganizerId>, interests: seq<string>): (r: seq<Event>)
    ensures multiset(r) == multiset(events)
    ensures forall i, j :: 0 <= i < j < |r| ==>
      || RelevanceScore(r[i], followed, interests) > RelevanceScore(r[j], followed, interests)
      || (RelevanceScore(r[i], followed, interests) == RelevanceScore(r[j], followed, interests)
          && r[i].createdAt >= r[j].createdAt)
  {
    var key := RelevanceKey(followed, interests);
    var r := SortBy(events, key);
    assert forall i, j :: 0 <= i < j < |r| ==> KeyLe(key(r[i]), key(r[j]));
    r
  }

  datatype ListingFailure = ServerError

  /** The participant branch of getEvents as the code has it. The effective
      status step has already replaced every event by a plain object, which
      has no `toObject` method, so the scoring map throws on the first event
      and the catch answers 500. Only an empty listing gets through. */
  function ParticipantListingAsWritten(events: seq<Event>, followed: seq<OrganizerId>, interests: seq<string>)
    : (r: Result<seq<Event>, ListingFailure>)
    ensures r.Err? <==> events != []
    ensures r.Ok? ==> r.value == RankForParticipant(events, followed, interests)
  {
    if events == [] then Ok([]) else Err(ServerError)
  }

  /** Every participant listing with at least one event fails as written,
      although the intended ranking of the same events is not empty. */
  lemma ParticipantListingFails(events: seq<Event>, followed: seq<OrganizerId>, interests: seq<string>)
    requires events != []
    ensures ParticipantListingAsWritten(events, followed, interests) == Err(ServerError)
    ensures |RankForParticipant(events, followed, interests)| == |events| > 0
  {
    var r := RankForParticipant(events, followed, interests);
    assert |multiset(r)| == |multiset(events)|;
  }

  // ---------------------------------------------------------------------
  // Handlers
  // ---------------------------------------------------------------------

  /** createEvent: a new `draft` event owned by the requesting organizer. */
  method CreateEvent(st: Store, org: OrganizerId, body: EventPatch, now: Time) returns (r: Result<EventId, EventError>)
    requires st.Valid()
    modifies st
    ensures st.Valid()
    ensures r.Ok? <==> NewEvent(|old(st.events)|, org, body, now).Ok?
    ensures r.Err? ==> r.error == ValidationFailed && st.State() == old(st.State())
    ensures r.Ok? ==>
      && r.value == |old(st.events)|
      && st.State() == old(st.State()).(events := old(st.events) + [NewEvent(r.value, org, body, now).value])
  {
    var created := NewEvent(|st.events|, org, body, now);
    if created.Err? {
      return Err(created.error);
    }
    r := Ok(|st.events|);
    st.events := st.events + [created.value];
  }

  /** updateEvent: the edit rules of EditEvent, applied to the requester's own event. */
  method UpdateEvent(st: Store, org: OrganizerId, eventId: EventId, body: EventPatch, now: Time)
    returns (r: Result<Event, EventError>)
    requires st.Valid()
    modifies st
    ensures st.Valid()
    ensures !OwnsEvent(old(st.events), org, eventId) ==> r == Err(EventNotFound)
    ensures OwnsEvent(old(st.events), org, eventId) ==> r == EditEvent(old(st.events)[eventId], body, now)
    ensures r.Err? ==> st.State() == old(st.State())
    ensures r.Ok? ==> st.State() == old(st.State()).(events := old(st.events)[eventId := r.value])
  {
    if !OwnsEvent(st.events, org, eventId) {
      return Err(EventNotFound);
    }
    r := EditEvent(st.events[eventId], body, now);
    if r.Ok? {
      st.events := st.events[eventId := r.value];
    }
  }

  /** updateEventStatus: only a transition listed in the table is taken, and
      then the status becomes exactly the requested one. */
  method UpdateEventStatus(st: Store, org: OrganizerId, eventId: EventId, requested: string)
    returns (r: Result<Event, EventError>)
    requires st.Valid()
    modifies st
    ensures st.Valid()
    ensures !OwnsEvent(old(st.events), org, eventId) ==> r == Err(EventNotFound)
    ensures OwnsEvent(old(st.events), org, eventId) ==>
      var e := old(st.events)[eventId];
      match Transition(e.status, requested)
      case None => r == Err(InvalidTransition(e.status, requested))
      case Some(t) => r == Ok(e.(status := t)) && StatusName(t) == requested && Allowed(e.status, t)
    ensures r.Err? ==> st.State() == old(st.State())
    ensures r.Ok? ==> st.State() == old(st.State()).(events := old(st.events)[eventId := r.value])
  {
    if !OwnsEvent(st.events, org, eventId) {
      return Err(EventNotFound);
    }
    var e := st.events[eventId];
    var target := Transition(e.status, requested);
    if target.None? {
      return Err(InvalidTransition(e.status, requested));
    }
    var updated := e.(status := target.value);
    st.events := st.events[eventId := updated];
    r := Ok(updated);
  }

  /** updateEventForm: replaces the custom form of an unlocked normal event. */
  method UpdateEventForm(st: Store, org: OrganizerId, eventId: EventId, fields: seq<FormField>)
    returns (r: Result<Event, EventError>)
    requires st.Valid()
    modifies st
    ensures st.Valid()
    ensures !OwnsEvent(old(st.events), org, eventId) ==> r == Err(EventNotFound)
    ensures OwnsEvent(old(st.events), org, eventId) ==> r == EditForm(old(st.events)[eventId], fields)
    ensures r.Err? ==> st.State() == old(st.State())
    ensures r.Ok? ==> st.State() == old(st.State()).(events := old(st.events)[eventId := r.value])
  {
    if !OwnsEvent(st.events, org, eventId) {
      return Err(EventNotFound);
    }
    r := EditForm(st.events[eventId], fields);
    if r.Ok? {
      st.events := st.events[eventId := r.value];
    }
  }
}
