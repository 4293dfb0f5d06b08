/** Administration (backend/controllers/adminController.js): creating an
    organizer account with a generated password, switching an organizer's
    status, and the platform statistics. */
module Admin {
  import opened Outcome
  import opened Schema
  import opened Db
  import PasswordReset

  datatype AdminError = EmailInUse | Invalid | InvalidStatus | OrganizerNotFound

  // ---------------------------------------------------------------------
  // createOrganizer
  // ---------------------------------------------------------------------

  /** The account createOrganizer stores: the e-mail lower-cased by the
      schema, the generated password, active and not archived. */
  function NewOrganizer(id: OrganizerId, admin: UserId, name: string, category: string, contactEmail: string,
                        contactNumber: Option<string>, description: Option<string>, password: string): (o: Organizer)
    ensures o.id == id && o.name == name && o.category == category && o.contactEmail == Lower(contactEmail)
    ensures o.contactNumber == contactNumber && o.description == description && o.password == password
    ensures o.discordWebhook.None? && o.isActive && !o.isArchived && o.status == OrgStatus.Active
    ensures o.createdBy == Some(admin)
  {
    Organizer(id, name, category, Lower(contactEmail), contactNumber, description, password, None,
              true, false, OrgStatus.Active, Some(admin))
  }

  /** createOrganizer by `admin`; `bytes` are the eight random bytes of the
      password. The look-up runs first, then the schema's required fields.
      The credentials echo the e-mail as given. */
  method CreateOrganizer(st: Store, admin: UserId, name: string, category: string, contactEmail: string,
                         contactNumber: Option<string>, description: Option<string>, bytes: Bytes8)
    returns (r: Result<(Organizer, PasswordReset.Credentials), AdminError>)
    requires st.Valid()
    modifies st
    ensures st.Valid()
    ensures FindOrganizerByEmail(old(st.organizers), Lower(contactEmail)).Some? ==>
      r == Err(EmailInUse) && st.State() == old(st.State())
    ensures FindOrganizerByEmail(old(st.organizers), Lower(contactEmail)).None? &&
            (name == "" || category == "" || contactEmail == "") ==>
      r == Err(Invalid) && st.State() == old(st.State())
    ensures FindOrganizerByEmail(old(st.organizers), Lower(contactEmail)).None? &&
            name != "" && category != "" && contactEmail != "" ==>
      var o := NewOrganizer(old(|st.organizers|), admin, name, category, contactEmail, contactNumber, description,
                            GeneratedPassword(bytes));
      && r == Ok((o, PasswordReset.Credentials(contactEmail, GeneratedPassword(bytes))))
      && st.State() == old(st.State()).(organizers := old(st.organizers) + [o])
  {
    if FindOrganizerByEmail(st.organizers, Lower(contactEmail)).Some? {
      return Err(EmailInUse);
    }
    if name == "" || category == "" || contactEmail == "" {
      return Err(Invalid);
    }
    var pw := GeneratedPassword(bytes);
    var o := NewOrganizer(|st.organizers|, admin, name, category, contactEmail, contactNumber, description, pw);
    st.InsertOrganizer(o);
    r := Ok((o, PasswordReset.Credentials(contactEmail, pw)));
  }

  // ---------------------------------------------------------------------
  // updateOrganizerStatus
  // ---------------------------------------------------------------------

  /** The accepted status strings. */
  function ParseOrgStatus(s: string): (r: Option<OrgStatus>)
    ensures r.Some? <==> s == "active" || s == "disabled" || s == "archived"
    ensures r == Some(OrgStatus.Active) <==> s == "active"
    ensures r == Some(OrgStatus.Archived) <==> s == "archived"
  {
    if s == "active" then Some(OrgStatus.Active)
    else if s == "disabled" then Some(OrgStatus.Disabled)
    else if s == "archived" then Some(OrgStatus.Archived)
    else None
  }

  /** The organizer after a status update: the two flags follow the status. */
  function WithStatus(o: Organizer, s: OrgStatus): (r: Organizer)
    ensures r.status == s && r.isActive == (s == OrgStatus.Active) && r.isArchived == (s == OrgStatus.Archived)
    ensures r.(status := o.status, isActive := o.isActive, isArchived := o.isArchived) == o
  {
    o.(status := s, isActive := s == OrgStatus.Active, isArchived := s == OrgStatus.Archived)
  }

  /** updateOrganizerStatus: the status string is checked before the look-up. */
  method UpdateOrganizerStatus(st: Store, id: OrganizerId, status: string) returns (r: Result<Organizer, AdminError>)
    requires st.Valid()
    modifies st
    ensures st.Valid()
    ensures ParseOrgStatus(status).None? ==> r == Err(InvalidStatus) && st.State() == old(st.State())
    ensures ParseOrgStatus(status).Some? && id >= old(|st.organizers|) ==>
      r == Err(OrganizerNotFound) && st.State() == old(st.State())
    ensures ParseOrgStatus(status).Some? && id < old(|st.organizers|) ==>
      && r == Ok(WithStatus(old(st.organizers)[id], ParseOrgStatus(status).value))
      && st.State() == old(st.State()).(organizers := old(st.organizers)[id := r.value])
  {
    var s := ParseOrgStatus(status);
    if s.None? {
      return Err(InvalidStatus);
    }
    if id >= |st.organizers| {
      return Err(OrganizerNotFound);
    }
    var o := WithStatus(st.organizers[id], s.value);
    st.SaveOrganizer(id, o);
    r := Ok(o);
  }

  // ---------------------------------------------------------------------
  // getStats
  // ---------------------------------------------------------------------

  /** The number of events stored with status `s`: none exactly when no
      event has it, all exactly when every event has it. */
  function CountStatus(events: seq<Event>, s: EventStatus): (n: nat)
    ensures n <= |events|
    ensures n == 0 <==> forall i :: 0 <= i < |events| ==> events[i].status != s
    ensures n == |events| <==> forall i :: 0 <= i < |events| ==> events[i].status == s
  {
    if events == [] then 0
    else CountStatus(events[..|events| - 1], s) + (if events[|events| - 1].status == s then 1 else 0)
  }

  /** `$sum: '$revenue'` over all events: 0 when there are none. */
  function SumRevenue(events: seq<Event>): Money {
    if events == [] then 0 else SumRevenue(events[..|events| - 1]) + events[|events| - 1].revenue
  }

  /** The `$group` by status: one (status, count) pair per status that
      occurs, taken over `statuses` in order. */
  function GroupByStatus(events: seq<Event>, statuses: seq<EventStatus>): (g: seq<(EventStatus, nat)>)
    ensures |g| <= |statuses|
    ensures forall i :: 0 <= i < |g| ==> g[i].0 in statuses && g[i].1 == CountStatus(events, g[i].0) > 0
    ensures forall s :: s in statuses && CountStatus(events, s) > 0 ==> (s, CountStatus(events, s)) in g
  {
    if statuses == [] then []
    else
      var rest := GroupByStatus(events, statuses[1..]);
      if CountStatus(events, statuses[0]) > 0 then [(statuses[0], CountStatus(events, statuses[0]))] + rest
      else rest
  }

  const AllStatuses := [EventStatus.Draft, EventStatus.Published, EventStatus.Ongoing, EventStatus.Completed, EventStatus.Cancelled]

  /** The map that `forEach(e => statusBreakdown[e._id] = e.count)` leaves:
      each pair assigned in turn. */
  function Assigned(groups: seq<(EventStatus, nat)>): map<EventStatus, nat> {
    if groups == [] then map[]
    else Assigned(groups[..|groups| - 1])[groups[|groups| - 1].0 := groups[|groups| - 1].1]
  }

  /** The `forEach` that fills `statusBreakdown`. */
  method FillBreakdown(groups: seq<(EventStatus, nat)>) returns (m: map<EventStatus, nat>)
    ensures m == Assigned(groups)
    ensures forall s :: s in m <==> exists i :: 0 <= i < |groups| && groups[i].0 == s
  {
    m := map[];
    var i := 0;
    while i < |groups|
      invariant 0 <= i <= |groups|
      invariant m == Assigned(groups[..i])
      invariant forall s :: s in m <==> exists k :: 0 <= k < i && groups[k].0 == s
    {
      assert groups[..i + 1][..i] == groups[..i];
      m := m[groups[i].0 := groups[i].1];
      i := i + 1;
    }
    assert groups[..i] == groups;
  }

  /** A map assigned from pairs whose values agree with a count keeps that
      count under every key it holds. */
  lemma {:induction false} AssignedCounts(groups: seq<(EventStatus, nat)>, events: seq<Event>)
    requires forall i :: 0 <= i < |groups| ==> groups[i].1 == CountStatus(events, groups[i].0)
    ensures forall s :: s in Assigned(groups) ==> Assigned(groups)[s] == CountStatus(events, s)
    ensures forall s :: s in Assigned(groups) <==> exists i :: 0 <= i < |groups| && groups[i].0 == s
  {
    if groups != [] {
      var init := groups[..|groups| - 1];
      AssignedCounts(init, events);
      forall s ensures s in Assigned(groups) <==> exists i :: 0 <= i < |groups| && groups[i].0 == s {
        if s in Assigned(init) {
          var i :| 0 <= i < |init| && init[i].0 == s;
          assert groups[i].0 == s;
        }
        if exists i :: 0 <= i < |groups| && groups[i].0 == s {
          var i :| 0 <= i < |groups| && groups[i].0 == s;
          if i < |init| {
            assert init[i].0 == s;
          }
        }
      }
    }
  }

  datatype Stats = Stats(totalUsers: nat, totalOrganizers: nat, totalEvents: nat, totalRegistrations: nat,
                         totalRevenue: Money, statusBreakdown: map<EventStatus, nat>, pendingResetRequests: nat)

  /** `countDocuments({ role: 'participant' })`. */
  function CountParticipants(users: seq<User>): (n: nat)
    ensures n <= |users|
    ensures n == 0 <==> forall i :: 0 <= i < |users| ==> !users[i].role.Participant?
    ensures n == |users| <==> forall i :: 0 <= i < |users| ==> users[i].role.Participant?
  {
    if users == [] then 0
    else CountParticipants(users[..|users| - 1]) + (if users[|users| - 1].role.Participant? then 1 else 0)
  }

  /** `countDocuments({ status: 'active' })` on registrations. */
  function CountActiveRegistrations(regs: seq<Registration>): (n: nat)
    ensures n <= |regs|
    ensures n == 0 <==> forall i :: 0 <= i < |regs| ==> !regs[i].status.Active?
    ensures n == |regs| <==> forall i :: 0 <= i < |regs| ==> regs[i].status.Active?
  {
    if regs == [] then 0
    else CountActiveRegistrations(regs[..|regs| - 1]) + (if regs[|regs| - 1].status.Active? then 1 else 0)
  }

  /** `countDocuments({ status: 'pending' })` on reset requests. */
  function CountPending(reqs: seq<ResetRequest>): (n: nat)
    ensures n <= |reqs|
    ensures n == 0 <==> forall i :: 0 <= i < |reqs| ==> !reqs[i].status.Pending?
    ensures n == |reqs| <==> forall i :: 0 <= i < |reqs| ==> reqs[i].status.Pending?
  {
    if reqs == [] then 0
    else CountPending(reqs[..|reqs| - 1]) + (if reqs[|reqs| - 1].status.Pending? then 1 else 0)
  }

  /** getStats: the breakdown holds exactly the statuses some event has,
      each with its number of events; the revenue is the sum over all
      events, 0 when there are none. */
  method GetStats(st: Store) returns (s: Stats)
    ensures s.totalUsers == CountParticipants(st.users) && s.totalOrganizers == |st.organizers|
    ensures s.totalEvents == |st.events| && s.totalRegistrations == CountActiveRegistrations(st.registrations)
    ensures s.pendingResetRequests == CountPending(st.requests)
    ensures s.totalRevenue == SumRevenue(st.events)
    ensures |st.events| == 0 ==> s.totalRevenue == 0
    ensures forall e :: e in s.statusBreakdown <==> CountStatus(st.events, e) > 0
    ensures forall e :: e in s.statusBreakdown ==> s.statusBreakdown[e] == CountStatus(st.events, e)
  {
    var groups := GroupByStatus(st.events, AllStatuses);
    var breakdown := FillBreakdown(groups);
    AssignedCounts(groups, st.events);
    forall e | CountStatus(st.events, e) > 0 ensures e in breakdown {
      assert e in AllStatuses;
    }
    s := Stats(CountParticipants(st.users), |st.organizers|, |st.events|, CountActiveRegistrations(st.registrations),
               SumRevenue(st.events), breakdown, CountPending(st.requests));
  }

  /** Every event is counted under exactly one status. */
  lemma {:induction false} BreakdownCoversEvents(events: seq<Event>)
    ensures CountStatus(events, Draft) + CountStatus(events, Published) + CountStatus(events, Ongoing)
            + CountStatus(events, EventStatus.Completed) + CountStatus(events, EventStatus.Cancelled) == |events|
  {
    if events != [] {
      BreakdownCoversEvents(events[..|events| - 1]);
    }
  }
}
