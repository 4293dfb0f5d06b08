/** The database: one collection per model, held by a `Store` object whose
    fields the handlers reassign, together with the unique indexes and the
    references that every handler keeps intact. */
module Db {
  import opened Outcome
  import opened Schema

  /** The whole database as a value, so that a handler can say which
      collections it changed and that the others are as they were. */
  datatype Database = Database(
    users: seq<User>,
    organizers: seq<Organizer>,
    events: seq<Event>,
    registrations: seq<Registration>,
    teams: seq<Team>,
    attendances: seq<Attendance>,
    nextAttendanceId: nat,
    feedback: seq<Feedback>,
    requests: seq<ResetRequest>,
    messages: seq<ForumMessage>)

  // ---------------------------------------------------------------------
  // Ids: documents of never-deleted collections are numbered by position
  // ---------------------------------------------------------------------

  ghost predicate UsersIndexed(s: seq<User>) { forall i :: 0 <= i < |s| ==> s[i].id == i }
  ghost predicate OrganizersIndexed(s: seq<Organizer>) { forall i :: 0 <= i < |s| ==> s[i].id == i }
  ghost predicate EventsIndexed(s: seq<Event>) { forall i :: 0 <= i < |s| ==> s[i].id == i }
  ghost predicate RegistrationsIndexed(s: seq<Registration>) { forall i :: 0 <= i < |s| ==> s[i].id == i }
  ghost predicate TeamsIndexed(s: seq<Team>) { forall i :: 0 <= i < |s| ==> s[i].id == i }
  ghost predicate FeedbackIndexed(s: seq<Feedback>) { forall i :: 0 <= i < |s| ==> s[i].id == i }
  ghost predicate RequestsIndexed(s: seq<ResetRequest>) { forall i :: 0 <= i < |s| ==> s[i].id == i }
  ghost predicate MessagesIndexed(s: seq<ForumMessage>) { forall i :: 0 <= i < |s| ==> s[i].id == i }

  // ---------------------------------------------------------------------
  // Unique indexes
  // ---------------------------------------------------------------------

  /** `ticketId: { unique: true }` (Registration.js). */
  ghost predicate UniqueTickets(regs: seq<Registration>) {
    forall i, j :: 0 <= i < j < |regs| ==> regs[i].ticketId != regs[j].ticketId
  }

  /** `inviteCode: { unique: true }` (Team.js). */
  ghost predicate UniqueInviteCodes(teams: seq<Team>) {
    forall i, j :: 0 <= i < j < |teams| ==> teams[i].inviteCode != teams[j].inviteCode
  }

  /** `email: { unique: true }` (User.js). */
  ghost predicate UniqueUserEmails(users: seq<User>) {
    forall i, j :: 0 <= i < j < |users| ==> users[i].email != users[j].email
  }

  /** `contactEmail: { unique: true }` (Organizer.js). */
  ghost predicate UniqueContactEmails(orgs: seq<Organizer>) {
    forall i, j :: 0 <= i < j < |orgs| ==> orgs[i].contactEmail != orgs[j].contactEmail
  }

  /** The compound unique index `{ event: 1, registration: 1 }` (Attendance.js),
      and distinct document ids below the next id to hand out. */
  ghost predicate AttendanceKeysUnique(atts: seq<Attendance>, nextId: nat) {
    && (forall i :: 0 <= i < |atts| ==> atts[i].id < nextId)
    && (forall i, j :: 0 <= i < j < |atts| ==> atts[i].id != atts[j].id)
    && (forall i, j :: 0 <= i < j < |atts| ==>
          !(atts[i].event == atts[j].event && atts[i].registration == atts[j].registration))
  }

  /** The compound unique index `{ event: 1, userHash: 1 }` (Feedback.js). */
  ghost predicate FeedbackKeysUnique(fs: seq<Feedback>) {
    forall i, j :: 0 <= i < j < |fs| ==> !(fs[i].event == fs[j].event && fs[i].userHash == fs[j].userHash)
  }

  /** An organizer has at most one pending password-reset request. */
  ghost predicate OnePendingPerOrganizer(reqs: seq<ResetRequest>) {
    forall i, j :: 0 <= i < j < |reqs| && reqs[i].status.Pending? && reqs[j].status.Pending? ==>
      reqs[i].organizer != reqs[j].organizer
  }

  // ---------------------------------------------------------------------
  // Queries shared by several handlers
  // ---------------------------------------------------------------------

  /** `Event.findOne({ _id: eventId, organizer: req.user._id })` finds a document. */
  predicate OwnsEvent(events: seq<Event>, org: OrganizerId, eventId: EventId) {
    eventId < |events| && events[eventId].organizer == org
  }

  /** Some registration of `user` for `eventId` whose status is not `cancelled`. */
  predicate HasLiveRegistration(regs: seq<Registration>, user: UserId, eventId: EventId) {
    exists i :: 0 <= i < |regs| && regs[i].user == user && regs[i].event == eventId && !regs[i].status.Cancelled?
  }

  /** Some registration of `user` for `eventId`, whatever its status. */
  predicate HasAnyRegistration(regs: seq<Registration>, user: UserId, eventId: EventId) {
    exists i :: 0 <= i < |regs| && regs[i].user == user && regs[i].event == eventId
  }

  predicate TicketTaken(regs: seq<Registration>, ticket: string) {
    exists i :: 0 <= i < |regs| && regs[i].ticketId == ticket
  }

  /** `User.findOne({ email })`: the first user with that email. */
  function FindUserByEmail(users: seq<User>, email: string): (r: Option<UserId>)
    ensures r.Some? ==> r.value < |users| && users[r.value].email == email
    ensures r.None? <==> forall i :: 0 <= i < |users| ==> users[i].email != email
  {
    if users == [] then None
    else match FindUserByEmail(users[..|users| - 1], email)
      case Some(i) => Some(i)
      case None => if users[|users| - 1].email == email then Some(|users| - 1) else None
  }

  /** `Organizer.findOne({ contactEmail })`: the first organizer with that email. */
  function FindOrganizerByEmail(orgs: seq<Organizer>, email: string): (r: Option<OrganizerId>)
    ensures r.Some? ==> r.value < |orgs| && orgs[r.value].contactEmail == email
    ensures r.None? <==> forall i :: 0 <= i < |orgs| ==> orgs[i].contactEmail != email
  {
    if orgs == [] then None
    else match FindOrganizerByEmail(orgs[..|orgs| - 1], email)
      case Some(i) => Some(i)
      case None => if orgs[|orgs| - 1].contactEmail == email then Some(|orgs| - 1) else None
  }

  /** Ids, references between documents, and the unique indexes. */
  ghost predicate Consistent(db: Database) {
    && UsersIndexed(db.users) && OrganizersIndexed(db.organizers) && EventsIndexed(db.events)
    && RegistrationsIndexed(db.registrations) && TeamsIndexed(db.teams) && FeedbackIndexed(db.feedback)
    && RequestsIndexed(db.requests) && MessagesIndexed(db.messages)
    && (forall i :: 0 <= i < |db.registrations| ==> db.registrations[i].event < |db.events|)
    && (forall i :: 0 <= i < |db.teams| ==> db.teams[i].event < |db.events|)
    && (forall i :: 0 <= i < |db.requests| ==> db.requests[i].organizer < |db.organizers|)
    && UniqueTickets(db.registrations)
    && UniqueInviteCodes(db.teams)
    && UniqueUserEmails(db.users)
    && UniqueContactEmails(db.organizers)
    && AttendanceKeysUnique(db.attendances, db.nextAttendanceId)
    && FeedbackKeysUnique(db.feedback)
    && OnePendingPerOrganizer(db.requests)
  }

  /** Replacing an event by a version of itself keeps the database consistent. */
  lemma ReplaceEvent(db: Database, i: nat, e: Event)
    requires Consistent(db) && i < |db.events| && e.id == i
    ensures Consistent(db.(events := db.events[i := e]))
  {
  }

  /** Appending a registration with the next id, an existing event and a
      fresh ticket id keeps the database consistent. */
  lemma AppendRegistration(db: Database, reg: Registration)
    requires Consistent(db)
    requires reg.id == |db.registrations| && reg.event < |db.events|
    requires !TicketTaken(db.registrations, reg.ticketId)
    ensures Consistent(db.(registrations := db.registrations + [reg]))
  {
    var regs := db.registrations + [reg];
    forall i, j | 0 <= i < j < |regs| ensures regs[i].ticketId != regs[j].ticketId {
      if j == |db.registrations| {
        assert regs[i] == db.registrations[i];
      }
    }
  }

  /** Replacing a registration by a version with the same id, event and
      ticket keeps the database consistent. */
  lemma ReplaceRegistration(db: Database, i: nat, reg: Registration)
    requires Consistent(db) && i < |db.registrations|
    requires reg.id == i && reg.event == db.registrations[i].event
    requires reg.ticketId == db.registrations[i].ticketId
    ensures Consistent(db.(registrations := db.registrations[i := reg]))
  {
  }

  /** A team code is in use. */
  predicate InviteCodeTaken(teams: seq<Team>, code: string) {
    exists i :: 0 <= i < |teams| && teams[i].inviteCode == code
  }

  /** Appending a team with the next id, an existing event and an unused
      invite code keeps the database consistent. */
  lemma AppendTeam(db: Database, t: Team)
    requires Consistent(db)
    requires t.id == |db.teams| && t.event < |db.events|
    requires !InviteCodeTaken(db.teams, t.inviteCode)
    ensures Consistent(db.(teams := db.teams + [t]))
  {
    var teams := db.teams + [t];
    forall i, j | 0 <= i < j < |teams| ensures teams[i].inviteCode != teams[j].inviteCode {
      if j == |db.teams| {
        assert teams[i] == db.teams[i];
      }
    }
  }

  /** Replacing a team by a version with the same id, event and invite code
      keeps the database consistent. */
  lemma ReplaceTeam(db: Database, i: nat, t: Team)
    requires Consistent(db) && i < |db.teams|
    requires t.id == i && t.event == db.teams[i].event && t.inviteCode == db.teams[i].inviteCode
    ensures Consistent(db.(teams := db.teams[i := t]))
  {
  }

  /** `Attendance.findOne({ event, registration })` finds a record. */
  predicate CheckedIn(atts: seq<Attendance>, eventId: EventId, regId: RegistrationId) {
    exists i :: 0 <= i < |atts| && atts[i].event == eventId && atts[i].registration == regId
  }

  /** Appending a record with the next id for a pair that has none keeps the
      database consistent. */
  lemma AppendAttendance(db: Database, a: Attendance)
    requires Consistent(db) && a.id == db.nextAttendanceId
    requires !CheckedIn(db.attendances, a.event, a.registration)
    ensures Consistent(db.(attendances := db.attendances + [a], nextAttendanceId := db.nextAttendanceId + 1))
  {
    var atts := db.attendances + [a];
    forall i, j | 0 <= i < j < |atts|
      ensures atts[i].id != atts[j].id
      ensures !(atts[i].event == atts[j].event && atts[i].registration == atts[j].registration)
    {
      if j == |db.attendances| {
        assert atts[i] == db.attendances[i];
      }
    }
  }

  /** `Attendance.findByIdAndDelete(id)`: every record but the one with that id. */
  function WithoutAttendance(atts: seq<Attendance>, id: AttendanceId): (r: seq<Attendance>)
    ensures |r| <= |atts|
    ensures forall k :: 0 <= k < |r| ==> r[k] in atts && r[k].id != id
  {
    if atts == [] then []
    else WithoutAttendance(atts[..|atts| - 1], id)
         + (if atts[|atts| - 1].id == id then [] else [atts[|atts| - 1]])
  }

  /** The last record differs in id and pair from every earlier one. */
  lemma LastDistinct(atts: seq<Attendance>, n: nat, x: Attendance)
    requires AttendanceKeysUnique(atts, n) && atts != [] && x in atts[..|atts| - 1]
    ensures x.id != atts[|atts| - 1].id
    ensures !(x.event == atts[|atts| - 1].event && x.registration == atts[|atts| - 1].registration)
  {
    var k :| 0 <= k < |atts| - 1 && atts[..|atts| - 1][k] == x;
    assert atts[k] == x;
  }

  /** Removing records keeps ids and (event, registration) pairs distinct. */
  lemma {:induction false} RemoveAttendance(atts: seq<Attendance>, n: nat, id: AttendanceId)
    requires AttendanceKeysUnique(atts, n)
    ensures AttendanceKeysUnique(WithoutAttendance(atts, id), n)
  {
    if atts != [] {
      var init := atts[..|atts| - 1];
      var last := atts[|atts| - 1];
      assert AttendanceKeysUnique(init, n);
      RemoveAttendance(init, n, id);
      var w := WithoutAttendance(init, id);
      if last.id != id {
        var r := w + [last];
        forall i, j | 0 <= i < j < |r|
          ensures r[i].id != r[j].id
          ensures !(r[i].event == r[j].event && r[i].registration == r[j].registration)
        {
          assert r[i] == w[i];
          if j == |w| {
            LastDistinct(atts, n, w[i]);
          } else {
            assert r[j] == w[j];
          }
        }
      }
    }
  }

  /** The organizer has a `pending` password-reset request. */
  predicate PendingFor(reqs: seq<ResetRequest>, org: OrganizerId) {
    exists i :: 0 <= i < |reqs| && reqs[i].organizer == org && reqs[i].status.Pending?
  }

  lemma AppendRequest(db: Database, r: ResetRequest)
    requires Consistent(db) && r.id == |db.requests| && r.organizer < |db.organizers|
    requires r.status.Pending? ==> !PendingFor(db.requests, r.organizer)
    ensures Consistent(db.(requests := db.requests + [r]))
  {
    var reqs := db.requests + [r];
    forall i, j | 0 <= i < j < |reqs| && reqs[i].status.Pending? && reqs[j].status.Pending?
      ensures reqs[i].organizer != reqs[j].organizer
    {
      if j == |db.requests| {
        assert reqs[i] == db.requests[i];
      }
    }
  }

  /** A request may be resolved, never made pending again. */
  lemma ReplaceRequest(db: Database, i: nat, r: ResetRequest)
    requires Consistent(db) && i < |db.requests|
    requires r.id == i && r.organizer == db.requests[i].organizer
    requires r.status.Pending? ==> db.requests[i].status.Pending?
    ensures Consistent(db.(requests := db.requests[i := r]))
  {
    var reqs := db.requests[i := r];
    forall a, b | 0 <= a < b < |reqs| && reqs[a].status.Pending? && reqs[b].status.Pending?
      ensures reqs[a].organizer != reqs[b].organizer
    {
      assert db.requests[a].status.Pending? && db.requests[b].status.Pending?;
    }
  }

  lemma AppendOrganizer(db: Database, o: Organizer)
    requires Consistent(db) && o.id == |db.organizers|
    requires forall j :: 0 <= j < |db.organizers| ==> db.organizers[j].contactEmail != o.contactEmail
    ensures Consistent(db.(organizers := db.organizers + [o]))
  {
    var orgs := db.organizers + [o];
    forall a, b | 0 <= a < b < |orgs| ensures orgs[a].contactEmail != orgs[b].contactEmail {
      if b == |db.organizers| {
        assert orgs[a] == db.organizers[a];
      }
    }
  }

  lemma ReplaceOrganizer(db: Database, i: nat, o: Organizer)
    requires Consistent(db) && i < |db.organizers| && o.id == i
    requires forall j :: 0 <= j < |db.organizers| && j != i ==> db.organizers[j].contactEmail != o.contactEmail
    ensures Consistent(db.(organizers := db.organizers[i := o]))
  {
  }

  lemma AppendUser(db: Database, u: User)
    requires Consistent(db) && u.id == |db.users|
    requires forall j :: 0 <= j < |db.users| ==> db.users[j].email != u.email
    ensures Consistent(db.(users := db.users + [u]))
  {
    var users := db.users + [u];
    forall a, b | 0 <= a < b < |users| ensures users[a].email != users[b].email {
      if b == |db.users| {
        assert users[a] == db.users[a];
      }
    }
  }

  lemma ReplaceUser(db: Database, i: nat, u: User)
    requires Consistent(db) && i < |db.users| && u.id == i && u.email == db.users[i].email
    ensures Consistent(db.(users := db.users[i := u]))
  {
  }

  /** Some feedback of the event carries that user hash. */
  predicate FeedbackGiven(fs: seq<Feedback>, eventId: EventId, userHash: string) {
    exists i :: 0 <= i < |fs| && fs[i].event == eventId && fs[i].userHash == userHash
  }

  lemma AppendFeedback(db: Database, f: Feedback)
    requires Consistent(db) && f.id == |db.feedback| && !FeedbackGiven(db.feedback, f.event, f.userHash)
    ensures Consistent(db.(feedback := db.feedback + [f]))
  {
    var fs := db.feedback + [f];
    forall a, b | 0 <= a < b < |fs| ensures !(fs[a].event == fs[b].event && fs[a].userHash == fs[b].userHash) {
      if b == |db.feedback| {
        assert fs[a] == db.feedback[a];
      }
    }
  }

  lemma AppendMessage(db: Database, m: ForumMessage)
    requires Consistent(db) && m.id == |db.messages|
    ensures Consistent(db.(messages := db.messages + [m]))
  {
  }

  lemma ReplaceMessage(db: Database, i: nat, m: ForumMessage)
    requires Consistent(db) && i < |db.messages| && m.id == i
    ensures Consistent(db.(messages := db.messages[i := m]))
  {
  }

  /** The database of the platform. Every handler takes it, checks, updates
      the documents it concerns by reassigning the collections, and keeps
      `Valid()`. */
  class Store {
    var users: seq<User>
    var organizers: seq<Organizer>
    var events: seq<Event>
    var registrations: seq<Registration>
    var teams: seq<Team>
    var attendances: seq<Attendance>
    var nextAttendanceId: nat
    var feedback: seq<Feedback>
    var requests: seq<ResetRequest>
    var messages: seq<ForumMessage>

    /** The contents of every collection. */
    function State(): Database
      reads this
    {
      Database(users, organizers, events, registrations, teams, attendances,
               nextAttendanceId, feedback, requests, messages)
    }

    ghost predicate Valid()
      reads this
    {
      Consistent(State())
    }

    /** `event.save()` on the event with id `i`. */
    method SaveEvent(i: EventId, e: Event)
      requires Valid() && i < |events| && e.id == i
      modifies this
      ensures Valid()
      ensures State() == old(State()).(events := old(events)[i := e])
    {
      ReplaceEvent(State(), i, e);
      events := events[i := e];
    }

    /** `Registration.create(...)`: refused by the unique index when the
        ticket id is taken, which the caller checks first. */
    method InsertRegistration(reg: Registration)
      requires Valid() && reg.id == |registrations| && reg.event < |events|
      requires !TicketTaken(registrations, reg.ticketId)
      modifies this
      ensures Valid()
      ensures State() == old(State()).(registrations := old(registrations) + [reg])
    {
      AppendRegistration(State(), reg);
      registrations := registrations + [reg];
    }

    /** `registration.save()` on the registration with id `i`. */
    method SaveRegistration(i: RegistrationId, reg: Registration)
      requires Valid() && i < |registrations|
      requires reg.id == i && reg.event == registrations[i].event && reg.ticketId == registrations[i].ticketId
      modifies this
      ensures Valid()
      ensures State() == old(State()).(registrations := old(registrations)[i := reg])
    {
      ReplaceRegistration(State(), i, reg);
      registrations := registrations[i := reg];
    }

    /** `Team.create(...)`: refused by the unique index when the invite code
        is taken, which the caller checks first. */
    method InsertTeam(t: Team)
      requires Valid() && t.id == |teams| && t.event < |events|
      requires !InviteCodeTaken(teams, t.inviteCode)
      modifies this
      ensures Valid()
      ensures State() == old(State()).(teams := old(teams) + [t])
    {
      AppendTeam(State(), t);
      teams := teams + [t];
    }

    /** `team.save()` on the team with id `i`. */
    method SaveTeam(i: TeamId, t: Team)
      requires Valid() && i < |teams|
      requires t.id == i && t.event == teams[i].event && t.inviteCode == teams[i].inviteCode
      modifies this
      ensures Valid()
      ensures State() == old(State()).(teams := old(teams)[i := t])
    {
      ReplaceTeam(State(), i, t);
      teams := teams[i := t];
    }

    /** `Attendance.create(...)`: the caller checks first that the pair has
        no record, which the unique index would refuse. */
    method InsertAttendance(a: Attendance)
      requires Valid() && a.id == nextAttendanceId
      requires !CheckedIn(attendances, a.event, a.registration)
      modifies this
      ensures Valid()
      ensures State() == old(State()).(attendances := old(attendances) + [a],
                                       nextAttendanceId := old(nextAttendanceId) + 1)
    {
      AppendAttendance(State(), a);
      attendances := attendances + [a];
      nextAttendanceId := nextAttendanceId + 1;
    }

    /** `Attendance.findByIdAndDelete(id)`. */
    method DeleteAttendance(id: AttendanceId)
      requires Valid()
      modifies this
      ensures Valid()
      ensures State() == old(State()).(attendances := WithoutAttendance(old(attendances), id))
    {
      RemoveAttendance(attendances, nextAttendanceId, id);
      attendances := WithoutAttendance(attendances, id);
    }

    method InsertRequest(r: ResetRequest)
      requires Valid() && r.id == |requests| && r.organizer < |organizers|
      requires r.status.Pending? ==> !PendingFor(requests, r.organizer)
      modifies this
      ensures Valid()
      ensures State() == old(State()).(requests := old(requests) + [r])
    {
      AppendRequest(State(), r);
      requests := requests + [r];
    }

    method SaveRequest(i: RequestId, r: ResetRequest)
      requires Valid() && i < |requests| && r.id == i && r.organizer == requests[i].organizer
      requires r.status.Pending? ==> requests[i].status.Pending?
      modifies this
      ensures Valid()
      ensures State() == old(State()).(requests := old(requests)[i := r])
    {
      ReplaceRequest(State(), i, r);
      requests := requests[i := r];
    }

    method InsertOrganizer(o: Organizer)
      requires Valid() && o.id == |organizers|
      requires forall j :: 0 <= j < |organizers| ==> organizers[j].contactEmail != o.contactEmail
      modifies this
      ensures Valid()
      ensures State() == old(State()).(organizers := old(organizers) + [o])
    {
      AppendOrganizer(State(), o);
      organizers := organizers + [o];
    }

    method SaveOrganizer(i: OrganizerId, o: Organizer)
      requires Valid() && i < |organizers| && o.id == i
      requires forall j :: 0 <= j < |organizers| && j != i ==> organizers[j].contactEmail != o.contactEmail
      modifies this
      ensures Valid()
      ensures State() == old(State()).(organizers := old(organizers)[i := o])
    {
      ReplaceOrganizer(State(), i, o);
      organizers := organizers[i := o];
    }

    method InsertUser(u: User)
      requires Valid() && u.id == |users|
      requires forall j :: 0 <= j < |users| ==> users[j].email != u.email
      modifies this
      ensures Valid()
      ensures State() == old(State()).(users := old(users) + [u])
    {
      AppendUser(State(), u);
      users := users + [u];
    }

    method SaveUser(i: UserId, u: User)
      requires Valid() && i < |users| && u.id == i && u.email == users[i].email
      modifies this
      ensures Valid()
      ensures State() == old(State()).(users := old(users)[i := u])
    {
      ReplaceUser(State(), i, u);
      users := users[i := u];
    }

    method InsertFeedback(f: Feedback)
      requires Valid() && f.id == |feedback| && !FeedbackGiven(feedback, f.event, f.userHash)
      modifies this
      ensures Valid()
      ensures State() == old(State()).(feedback := old(feedback) + [f])
    {
      AppendFeedback(State(), f);
      feedback := feedback + [f];
    }

    method InsertMessage(m: ForumMessage)
      requires Valid() && m.id == |messages|
      modifies this
      ensures Valid()
      ensures State() == old(State()).(messages := old(messages) + [m])
    {
      AppendMessage(State(), m);
      messages := messages + [m];
    }

    method SaveMessage(i: MessageId, m: ForumMessage)
      requires Valid() && i < |messages| && m.id == i
      modifies this
      ensures Valid()
      ensures State() == old(State()).(messages := old(messages)[i := m])
    {
      ReplaceMessage(State(), i, m);
      messages := messages[i := m];
    }

    /** An empty database. */
    constructor ()
      ensures Valid()
      ensures State() == Database([], [], [], [], [], [], 0, [], [], [])
    {
      users, organizers, events, registrations, teams := [], [], [], [], [];
      attendances, nextAttendanceId, feedback, requests, messages := [], 0, [], [], [];
    }
  }
}
