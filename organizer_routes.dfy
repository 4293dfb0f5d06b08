/** The organizer routes (backend/routes/organizers.js): the dashboard
    analytics over an organizer's completed events, and the public profile
    with its upcoming and past events. */
module OrganizerRoutes {
  import opened Outcome
  import opened Schema
  import opened Db
  import opened Sorting
  import Attendances

  // ---------------------------------------------------------------------
  // dashboard-analytics
  // ---------------------------------------------------------------------

  /** The completed events of `org`, in stored order. */
  function CompletedOf(events: seq<Event>, org: OrganizerId): (r: seq<Event>)
    ensures |r| <= |events|
    ensures forall e :: e in r <==> e in events && e.organizer == org && e.status == EventStatus.Completed
  {
    if events == [] then []
    else
      var last := events[|events| - 1];
      CompletedOf(events[..|events| - 1], org)
        + (if last.organizer == org && last.status == EventStatus.Completed then [last] else [])
  }

  /** The quantities of one registration's merchandise purchases. */
  function SumQuantity(ps: seq<Purchase>): int {
    if ps == [] then 0 else SumQuantity(ps[..|ps| - 1]) + ps[|ps| - 1].quantity
  }

  /** Items sold for an event: the purchase quantities summed over its
      registrations that are not cancelled. */
  function ItemsSold(regs: seq<Registration>, eventId: EventId): int {
    if regs == [] then 0
    else
      var last := regs[|regs| - 1];
      ItemsSold(regs[..|regs| - 1], eventId)
        + (if last.event == eventId && last.status != RegStatus.Cancelled then SumQuantity(last.purchases) else 0)
  }

  /** Cancelling a registration removes exactly its purchases from the
      event's items sold. */
  lemma {:induction false} CancelRemovesItems(regs: seq<Registration>, i: nat)
    requires i < |regs| && regs[i].status != RegStatus.Cancelled
    ensures ItemsSold(regs[i := regs[i].(status := RegStatus.Cancelled)], regs[i].event)
            == ItemsSold(regs, regs[i].event) - SumQuantity(regs[i].purchases)
  {
    var after := regs[i := regs[i].(status := RegStatus.Cancelled)];
    var n := |regs| - 1;
    assert after[..n] == (if i < n then regs[..n][i := regs[i].(status := RegStatus.Cancelled)] else regs[..n]);
    if i < n {
      CancelRemovesItems(regs[..n], i);
    }
  }

  /** `Math.round`: the nearest integer, halves rounded up, for either sign. */
  function Round(x: real): (n: int)
    ensures n as real - 0.5 <= x < n as real + 0.5
  {
    (x + 0.5).Floor
  }

  /** A percentage rounded to a whole number, 0 when the denominator is 0
      (the `e.registrationCount ? ... : 0` guard). */
  function Rate(part: int, whole: int): (r: int)
    ensures whole == 0 ==> r == 0
  {
    if whole == 0 then 0 else Round((part as real / whole as real) * 100.0)
  }

  /** While no more people attended than registered, the rate is a
      percentage, and it is 100 exactly at full attendance. */
  lemma RateIsPercentage(part: int, whole: int)
    requires 0 <= part <= whole && whole > 0
    ensures 0 <= Rate(part, whole) <= 100
    ensures part == whole ==> Rate(part, whole) == 100
  {
    var q := part as real / whole as real;
    assert q * whole as real == part as real;
    assert 0.0 <= q <= 1.0;
    if part == whole {
      assert q == 1.0;
    }
  }

  datatype EventRow = EventRow(id: EventId, name: string, eventType: EventType, registrations: int,
                               revenue: Money, attendance: nat, itemsSold: int, attendanceRate: int)

  /** One row of `perEvent`. */
  function Row(db: Database, e: Event): (r: EventRow)
    ensures r.id == e.id && r.name == e.name && r.eventType == e.eventType
    ensures r.registrations == e.registrationCount && r.revenue == e.revenue
    ensures r.attendance == Attendances.CountRecords(db.attendances, e.id)
    ensures r.itemsSold == ItemsSold(db.registrations, e.id)
    ensures r.attendanceRate == Rate(r.attendance, e.registrationCount)
  {
    var att := Attendances.CountRecords(db.attendances, e.id);
    EventRow(e.id, e.name, e.eventType, e.registrationCount, e.revenue, att,
             ItemsSold(db.registrations, e.id), Rate(att, e.registrationCount))
  }

  function Rows(db: Database, events: seq<Event>): (rs: seq<EventRow>)
    ensures |rs| == |events|
    ensures forall i :: 0 <= i < |events| ==> rs[i] == Row(db, events[i])
  {
    if events == [] then [] else Rows(db, events[..|events| - 1]) + [Row(db, events[|events| - 1])]
  }

  datatype Totals = Totals(totalRegistrations: int, totalRevenue: Money, totalAttendance: int, totalItemsSold: int)

  const NoTotals := Totals(0, 0, 0, 0)

  /** One step of the `reduce`. */
  function Add(acc: Totals, row: EventRow): Totals {
    Totals(acc.totalRegistrations + row.registrations, acc.totalRevenue + row.revenue,
           acc.totalAttendance + row.attendance, acc.totalItemsSold + row.itemsSold)
  }

  /** The `reduce`: rows folded into the accumulator from the left. */
  function Reduce(acc: Totals, rows: seq<EventRow>): Totals
    decreases |rows|
  {
    if rows == [] then acc else Reduce(Add(acc, rows[0]), rows[1..])
  }

  function SumRegistrations(rows: seq<EventRow>): int {
    if rows == [] then 0 else SumRegistrations(rows[..|rows| - 1]) + rows[|rows| - 1].registrations
  }

  function SumRevenue(rows: seq<EventRow>): Money {
    if rows == [] then 0 else SumRevenue(rows[..|rows| - 1]) + rows[|rows| - 1].revenue
  }

  function SumAttendance(rows: seq<EventRow>): int {
    if rows == [] then 0 else SumAttendance(rows[..|rows| - 1]) + rows[|rows| - 1].attendance
  }

  function SumItems(rows: seq<EventRow>): int {
    if rows == [] then 0 else SumItems(rows[..|rows| - 1]) + rows[|rows| - 1].itemsSold
  }

  /** The four column sums of `rows`. */
  function Sums(rows: seq<EventRow>): Totals {
    Totals(SumRegistrations(rows), SumRevenue(rows), SumAttendance(rows), SumItems(rows))
  }

  /** Each column sum splits at the front row. */
  lemma {:induction false} SumsSplitFront(rows: seq<EventRow>)
    requires rows != []
    ensures Sums(rows) == Add(Sums(rows[1..]), rows[0])
  {
    var n := |rows| - 1;
    if n > 0 {
      assert rows[1..][..n - 1] == rows[..n][1..];
      SumsSplitFront(rows[..n]);
      assert rows[1..][n - 1] == rows[n];
    } else {
      assert rows[1..] == [];
      assert rows[..n] == [];
    }
  }

  /** The fold adds each column onto the accumulator. */
  lemma {:induction false} ReduceAdds(acc: Totals, rows: seq<EventRow>)
    ensures Reduce(acc, rows) == Totals(acc.totalRegistrations + Sums(rows).totalRegistrations,
                                        acc.totalRevenue + Sums(rows).totalRevenue,
                                        acc.totalAttendance + Sums(rows).totalAttendance,
                                        acc.totalItemsSold + Sums(rows).totalItemsSold)
    decreases |rows|
  {
    if rows != [] {
      ReduceAdds(Add(acc, rows[0]), rows[1..]);
      SumsSplitFront(rows);
    }
  }

  /** Started from zero, the fold is the column sums. */
  lemma ReduceIsSums(rows: seq<EventRow>)
    ensures Reduce(NoTotals, rows) == Sums(rows)
  {
    ReduceAdds(NoTotals, rows);
  }

  datatype Dashboard = Dashboard(perEvent: seq<EventRow>, totals: Totals, avgAttendanceRate: int)

  /** dashboard-analytics for `org`: one row per completed event of the
      organizer, in stored order, the totals as column sums, and the
      average rate guarded against no registrations. */
  function DashboardFor(db: Database, org: OrganizerId): (d: Dashboard)
    ensures |d.perEvent| == |CompletedOf(db.events, org)|
    ensures forall i :: 0 <= i < |d.perEvent| ==> d.perEvent[i] == Row(db, CompletedOf(db.events, org)[i])
    ensures d.totals == Sums(d.perEvent)
    ensures d.avgAttendanceRate == Rate(d.totals.totalAttendance, d.totals.totalRegistrations)
  {
    var rows := Rows(db, CompletedOf(db.events, org));
    var totals := Reduce(NoTotals, rows);
    ReduceIsSums(rows);
    Dashboard(rows, totals, Rate(totals.totalAttendance, totals.totalRegistrations))
  }

  /** The dashboard has a row for every completed event of the organizer. */
  lemma DashboardCoversCompleted(db: Database, org: OrganizerId, e: Event)
    requires e in db.events && IsPast(e, org)
    ensures Row(db, e) in DashboardFor(db, org).perEvent
  {
    var completed := CompletedOf(db.events, org);
    var i :| 0 <= i < |completed| && completed[i] == e;
    assert DashboardFor(db, org).perEvent[i] == Row(db, e);
  }

  /** Every row of the dashboard is that of a completed event of the
      organizer. */
  lemma DashboardOnlyCompleted(db: Database, org: OrganizerId, i: nat)
    requires i < |DashboardFor(db, org).perEvent|
    ensures exists k :: 0 <= k < |db.events| && IsPast(db.events[k], org)
                        && DashboardFor(db, org).perEvent[i] == Row(db, db.events[k])
  {
    var completed := CompletedOf(db.events, org);
    assert completed[i] in completed;
    var k :| 0 <= k < |db.events| && db.events[k] == completed[i];
    assert IsPast(db.events[k], org);
  }

  // ---------------------------------------------------------------------
  // Public profile
  // ---------------------------------------------------------------------

  /** The organizer as the public profile shows it: without the password
      and the Discord webhook. */
  datatype PublicOrganizer = PublicOrganizer(id: OrganizerId, name: string, category: string, contactEmail: string,
                                             contactNumber: Option<string>, description: Option<string>,
                                             isActive: bool, isArchived: bool, status: OrgStatus,
                                             createdBy: Option<UserId>)

  function Public(o: Organizer): (p: PublicOrganizer)
    ensures p.id == o.id && p.name == o.name && p.category == o.category && p.contactEmail == o.contactEmail
    ensures p.contactNumber == o.contactNumber && p.description == o.description
    ensures p.status == o.status && p.isActive == o.isActive && p.isArchived == o.isArchived && p.createdBy == o.createdBy
  {
    PublicOrganizer(o.id, o.name, o.category, o.contactEmail, o.contactNumber, o.description,
                    o.isActive, o.isArchived, o.status, o.createdBy)
  }

  const ProfileLimit := 10

  predicate IsUpcoming(e: Event, org: OrganizerId, now: Time) {
    e.organizer == org && (e.status == Published || e.status == Ongoing) && e.startDate >= now
  }

  predicate IsPast(e: Event, org: OrganizerId) {
    e.organizer == org && e.status == EventStatus.Completed
  }

  function UpcomingOf(events: seq<Event>, org: OrganizerId, now: Time): (r: seq<Event>)
    ensures forall e :: e in r <==> e in events && IsUpcoming(e, org, now)
  {
    if events == [] then []
    else
      var last := events[|events| - 1];
      UpcomingOf(events[..|events| - 1], org, now) + (if IsUpcoming(last, org, now) then [last] else [])
  }

  function PastOf(events: seq<Event>, org: OrganizerId): (r: seq<Event>)
    ensures forall e :: e in r <==> e in events && IsPast(e, org)
  {
    if events == [] then []
    else
      var last := events[|events| - 1];
      PastOf(events[..|events| - 1], org) + (if IsPast(last, org) then [last] else [])
  }

  function StartKey(e: Event): (int, int) {
    (e.startDate, 0)
  }

  function LatestFirstKey(e: Event): (int, int) {
    (0 - e.startDate, 0)
  }

  predicate EarliestFirst(r: seq<Event>) {
    forall i, j :: 0 <= i < j < |r| ==> r[i].startDate <= r[j].startDate
  }

  predicate LatestFirst(r: seq<Event>) {
    forall i, j :: 0 <= i < j < |r| ==> r[i].startDate >= r[j].startDate
  }

  /** The ten soonest upcoming events: published or ongoing and not yet
      started, earliest first. */
  function Upcoming(events: seq<Event>, org: OrganizerId, now: Time): (r: seq<Event>)
    ensures |r| == if |UpcomingOf(events, org, now)| < ProfileLimit then |UpcomingOf(events, org, now)| else ProfileLimit
    ensures forall e :: e in r ==> e in events && IsUpcoming(e, org, now)
    ensures EarliestFirst(r)
  {
    var candidates := UpcomingOf(events, org, now);
    var r := Take(SortBy(candidates, StartKey), ProfileLimit);
    TakeSortedKeeps(candidates, StartKey, ProfileLimit);
    r
  }

  /** An upcoming event left off the profile starts no earlier than any
      listed one. */
  lemma UpcomingAreSoonest(events: seq<Event>, org: OrganizerId, now: Time, e: Event)
    requires e in events && IsUpcoming(e, org, now) && e !in Upcoming(events, org, now)
    ensures forall x :: x in Upcoming(events, org, now) ==> x.startDate <= e.startDate
  {
    TakeKeepsSmallest(UpcomingOf(events, org, now), StartKey, ProfileLimit);
  }

  /** The ten latest completed events, latest first. */
  function Past(events: seq<Event>, org: OrganizerId): (r: seq<Event>)
    ensures |r| == if |PastOf(events, org)| < ProfileLimit then |PastOf(events, org)| else ProfileLimit
    ensures forall e :: e in r ==> e in events && IsPast(e, org)
    ensures LatestFirst(r)
  {
    var candidates := PastOf(events, org);
    var r := Take(SortBy(candidates, LatestFirstKey), ProfileLimit);
    TakeSortedKeeps(candidates, LatestFirstKey, ProfileLimit);
    r
  }

  /** A completed event left off the profile starts no later than any
      listed one. */
  lemma PastAreLatest(events: seq<Event>, org: OrganizerId, e: Event)
    requires e in events && IsPast(e, org) && e !in Past(events, org)
    ensures forall x :: x in Past(events, org) ==> x.startDate >= e.startDate
  {
    TakeKeepsSmallest(PastOf(events, org), LatestFirstKey, ProfileLimit);
  }

  datatype Profile = Profile(organizer: PublicOrganizer, upcomingEvents: seq<Event>, pastEvents: seq<Event>)

  datatype ProfileError = OrganizerNotFound

  /** The public profile of organizer `id` at time `now`. */
  function GetProfile(db: Database, id: OrganizerId, now: Time): (r: Result<Profile, ProfileError>)
    ensures r.Err? <==> id >= |db.organizers|
    ensures r.Ok? ==> r.value == Profile(Public(db.organizers[id]), Upcoming(db.events, id, now), Past(db.events, id))
  {
    if id >= |db.organizers| then Err(OrganizerNotFound)
    else Ok(Profile(Public(db.organizers[id]), Upcoming(db.events, id, now), Past(db.events, id)))
  }

  /** An event is never both upcoming and past on the same profile. */
  lemma UpcomingAndPastDisjoint(db: Database, id: OrganizerId, now: Time)
    ensures forall e :: e in Upcoming(db.events, id, now) ==> e !in Past(db.events, id)
  {
  }
}
