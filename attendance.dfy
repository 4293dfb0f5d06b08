/** Attendance at an event (backend/controllers/attendanceController.js):
    the organizer of the event checks registrations in by scanning their QR
    payload or by hand, sees the counts, and can revert a check-in. The
    unique index on (event, registration) allows one record per
    registration; the handlers look for one before inserting. */
module Attendances {
  import opened Outcome
  import opened Schema
  import opened Db
  import opened Sorting

  datatype AttendanceError =
    | NotYourEvent
    | InvalidQrCode
    | NotRegistered
    | AlreadyCheckedIn(checkedInAt: Option<Time>)
    | RegistrationNotFound

  // ---------------------------------------------------------------------
  // Lookups
  // ---------------------------------------------------------------------

  /** The ticket id a payload carries, if any: team payloads carry none. */
  function PayloadTicket(p: QrPayload): Option<string> {
    match p
    case TicketQr(t, _, _) => Some(t)
    case TeamQr(_, _, _) => None
  }

  /** The scan query: a registration for the event being scanned, still
      `active`, whose ticket id is the payload's or whose user is the
      payload's user. The event id inside the payload plays no part. A
      payload without a ticket id leaves `ticketId` undefined, and Mongoose
      drops an undefined key from a filter, so that branch of the `$or`
      becomes the empty filter and matches every registration. */
  predicate ScanMatches(reg: Registration, eventId: EventId, p: QrPayload) {
    && reg.event == eventId
    && reg.status.Active?
    && (PayloadTicket(p).None? || PayloadTicket(p) == Some(reg.ticketId) || reg.user == p.userId)
  }

  /** A team QR is accepted for any active registration of the scanned
      event, whoever holds it. */
  lemma TeamQrMatchesAnyActive(regs: seq<Registration>, eventId: EventId, user: UserId, qrEvent: EventId,
                               team: TeamId)
    ensures var r := FindScanned(regs, eventId, TeamQr(user, qrEvent, team));
      && (r.None? <==> forall k :: 0 <= k < |regs| ==> !(regs[k].event == eventId && regs[k].status.Active?))
      && (r.Some? ==> forall k :: 0 <= k < r.value ==> !(regs[k].event == eventId && regs[k].status.Active?))
  {
  }

  /** `Registration.findOne(...)` for a scan: the first matching registration. */
  function FindScanned(regs: seq<Registration>, eventId: EventId, p: QrPayload): (r: Option<RegistrationId>)
    ensures r.Some? ==> r.value < |regs| && ScanMatches(regs[r.value], eventId, p)
    ensures r.Some? ==> forall k :: 0 <= k < r.value ==> !ScanMatches(regs[k], eventId, p)
    ensures r.None? <==> forall k :: 0 <= k < |regs| ==> !ScanMatches(regs[k], eventId, p)
  {
    if regs == [] then None
    else match FindScanned(regs[..|regs| - 1], eventId, p)
      case Some(k) => Some(k)
      case None => if ScanMatches(regs[|regs| - 1], eventId, p) then Some(|regs| - 1) else None
  }

  /** `Attendance.findOne({ event, registration })`: the first record. */
  function FindRecord(atts: seq<Attendance>, eventId: EventId, regId: RegistrationId): (r: Option<nat>)
    ensures r.Some? ==> r.value < |atts| && atts[r.value].event == eventId && atts[r.value].registration == regId
    ensures r.None? <==> !CheckedIn(atts, eventId, regId)
  {
    if atts == [] then None
    else match FindRecord(atts[..|atts| - 1], eventId, regId)
      case Some(k) => Some(k)
      case None =>
        if atts[|atts| - 1].event == eventId && atts[|atts| - 1].registration == regId then Some(|atts| - 1)
        else None
  }

  /** Once a record for a pair is appended, looking the pair up finds that
      record: a repeated check-in reports the first one's time. */
  lemma FindAfterCheckIn(atts: seq<Attendance>, a: Attendance)
    requires !CheckedIn(atts, a.event, a.registration)
    ensures FindRecord(atts + [a], a.event, a.registration) == Some(|atts|)
  {
    assert (atts + [a])[..|atts|] == atts;
  }

  // ---------------------------------------------------------------------
  // New records
  // ---------------------------------------------------------------------

  /** The record a QR scan creates. */
  function ScanRecord(id: AttendanceId, eventId: EventId, reg: Registration, org: OrganizerId, now: Time)
    : (a: Attendance)
    ensures a.id == id && a.event == eventId && a.registration == reg.id && a.user == reg.user
    ensures a.checkInMethod == QrScan && a.isManualOverride == DefaultManualOverride && a.overrideAudit == []
    ensures a.checkedInAt == now && a.markedBy == org && a.overrideReason.None?
  {
    Attendance(id, eventId, reg.id, reg.user, now, QrScan, org, DefaultManualOverride, None, [])
  }

  /** The record a manual check-in creates: an override with its reason and
      a single `check_in` audit entry. */
  function ManualRecord(id: AttendanceId, eventId: EventId, reg: Registration, org: OrganizerId,
                        reason: Option<string>, now: Time): (a: Attendance)
    ensures a.id == id && a.event == eventId && a.registration == reg.id && a.user == reg.user
    ensures a.checkInMethod == Manual && a.isManualOverride && a.overrideReason == reason
    ensures a.overrideAudit == [AuditEntry(org, now, reason, CheckIn)]
    ensures a.checkedInAt == now && a.markedBy == org
  {
    Attendance(id, eventId, reg.id, reg.user, now, Manual, org, true, reason, [AuditEntry(org, now, reason, CheckIn)])
  }

  // ---------------------------------------------------------------------
  // Handlers
  // ---------------------------------------------------------------------

  /** scanQR by organizer `org`. `payload` is the parsed QR text, `None`
      when it is not valid JSON. */
  method ScanQr(st: Store, org: OrganizerId, eventId: EventId, payload: Option<QrPayload>, now: Time)
    returns (r: Result<Attendance, AttendanceError>)
    requires st.Valid()
    modifies st
    ensures st.Valid()
    ensures !OwnsEvent(old(st.events), org, eventId) ==> r == Err(NotYourEvent) && st.State() == old(st.State())
    ensures OwnsEvent(old(st.events), org, eventId) && payload.None? ==>
      r == Err(InvalidQrCode) && st.State() == old(st.State())
    ensures OwnsEvent(old(st.events), org, eventId) && payload.Some? ==>
      var found := FindScanned(old(st.registrations), eventId, payload.value);
      && (found.None? ==> r == Err(NotRegistered) && st.State() == old(st.State()))
      && (found.Some? ==>
            var reg := old(st.registrations)[found.value];
            var prior := FindRecord(old(st.attendances), eventId, reg.id);
            && (prior.Some? ==>
                  && r == Err(AlreadyCheckedIn(Some(old(st.attendances)[prior.value].checkedInAt)))
                  && st.State() == old(st.State()))
            && (prior.None? ==>
                  && r == Ok(ScanRecord(old(st.nextAttendanceId), eventId, reg, org, now))
                  && st.State() == old(st.State()).(attendances := old(st.attendances) + [r.value],
                                                    nextAttendanceId := old(st.nextAttendanceId) + 1)))
  {
    if !OwnsEvent(st.events, org, eventId) {
      return Err(NotYourEvent);
    }
    if payload.None? {
      return Err(InvalidQrCode);
    }
    var found := FindScanned(st.registrations, eventId, payload.value);
    if found.None? {
      return Err(NotRegistered);
    }
    var reg := st.registrations[found.value];
    var prior := FindRecord(st.attendances, eventId, reg.id);
    if prior.Some? {
      return Err(AlreadyCheckedIn(Some(st.attendances[prior.value].checkedInAt)));
    }
    var a := ScanRecord(st.nextAttendanceId, eventId, reg, org, now);
    st.InsertAttendance(a);
    r := Ok(a);
  }

  /** manualCheckIn by organizer `org`: the registration is looked up by id
      and event only, so a cancelled registration can be checked in. */
  method ManualCheckIn(st: Store, org: OrganizerId, eventId: EventId, regId: RegistrationId,
                       reason: Option<string>, now: Time)
    returns (r: Result<Attendance, AttendanceError>)
    requires st.Valid()
    modifies st
    ensures st.Valid()
    ensures !OwnsEvent(old(st.events), org, eventId) ==> r == Err(NotYourEvent) && st.State() == old(st.State())
    ensures OwnsEvent(old(st.events), org, eventId) ==>
      && (regId >= |old(st.registrations)| || old(st.registrations)[regId].event != eventId ==>
            r == Err(RegistrationNotFound) && st.State() == old(st.State()))
      && (regId < |old(st.registrations)| && old(st.registrations)[regId].event == eventId ==>
            && (CheckedIn(old(st.attendances), eventId, regId) ==>
                  r == Err(AlreadyCheckedIn(None)) && st.State() == old(st.State()))
            && (!CheckedIn(old(st.attendances), eventId, regId) ==>
                  && r == Ok(ManualRecord(old(st.nextAttendanceId), eventId, old(st.registrations)[regId], org,
                                          reason, now))
                  && st.State() == old(st.State()).(attendances := old(st.attendances) + [r.value],
                                                    nextAttendanceId := old(st.nextAttendanceId) + 1)))
  {
    if !OwnsEvent(st.events, org, eventId) {
      return Err(NotYourEvent);
    }
    if regId >= |st.registrations| || st.registrations[regId].event != eventId {
      return Err(RegistrationNotFound);
    }
    var reg := st.registrations[regId];
    if FindRecord(st.attendances, eventId, regId).Some? {
      return Err(AlreadyCheckedIn(None));
    }
    var a := ManualRecord(st.nextAttendanceId, eventId, reg, org, reason, now);
    st.InsertAttendance(a);
    r := Ok(a);
  }

  /** revertCheckIn by organizer `org`: deletes the record with that id,
      whichever event it belongs to; the reason is not recorded. */
  method RevertCheckIn(st: Store, org: OrganizerId, eventId: EventId, attendanceId: AttendanceId)
    returns (r: Result<(), AttendanceError>)
    requires st.Valid()
    modifies st
    ensures st.Valid()
    ensures !OwnsEvent(old(st.events), org, eventId) ==> r == Err(NotYourEvent) && st.State() == old(st.State())
    ensures OwnsEvent(old(st.events), org, eventId) ==>
      && r == Ok(())
      && st.State() == old(st.State()).(attendances := WithoutAttendance(old(st.attendances), attendanceId))
  {
    if !OwnsEvent(st.events, org, eventId) {
      return Err(NotYourEvent);
    }
    st.DeleteAttendance(attendanceId);
    r := Ok(());
  }

  /** Reverting removes exactly the record with that id: with distinct ids,
      every other record stays, in order. */
  lemma {:induction false} RevertKeepsOthers(atts: seq<Attendance>, id: AttendanceId)
    ensures forall a :: a in atts && a.id != id ==> a in WithoutAttendance(atts, id)
    ensures forall a :: a in WithoutAttendance(atts, id) ==> a in atts && a.id != id
    ensures (forall k :: 0 <= k < |atts| ==> atts[k].id != id) ==> WithoutAttendance(atts, id) == atts
  {
    if atts != [] {
      var init := atts[..|atts| - 1];
      RevertKeepsOthers(init, id);
      assert atts == init + [atts[|atts| - 1]];
      forall a | a in WithoutAttendance(atts, id) ensures a in atts && a.id != id {
        var k :| 0 <= k < |WithoutAttendance(atts, id)| && WithoutAttendance(atts, id)[k] == a;
      }
    }
  }

  // ---------------------------------------------------------------------
  // getAttendance
  // ---------------------------------------------------------------------

  /** `Attendance.countDocuments({ event })`. */
  function CountRecords(atts: seq<Attendance>, eventId: EventId): (n: nat)
    ensures n <= |atts|
  {
    if atts == [] then 0
    else CountRecords(atts[..|atts| - 1], eventId) + (if atts[|atts| - 1].event == eventId then 1 else 0)
  }

  /** `Registration.countDocuments({ event, status: 'active' })`. */
  function CountActive(regs: seq<Registration>, eventId: EventId): (n: nat)
    ensures n <= |regs|
  {
    if regs == [] then 0
    else CountActive(regs[..|regs| - 1], eventId)
         + (if regs[|regs| - 1].event == eventId && regs[|regs| - 1].status.Active? then 1 else 0)
  }

  /** The event's records, newest check-in first. */
  function RecordsOf(atts: seq<Attendance>, eventId: EventId): (r: seq<Attendance>)
    ensures |r| == CountRecords(atts, eventId)
    ensures forall k :: 0 <= k < |r| ==> r[k].event == eventId
  {
    if atts == [] then []
    else RecordsOf(atts[..|atts| - 1], eventId) + (if atts[|atts| - 1].event == eventId then [atts[|atts| - 1]] else [])
  }

  datatype AttendanceView = AttendanceView(checked: nat, total: nat, notChecked: int, records: seq<Attendance>)

  /** getAttendance by organizer `org`. */
  function GetAttendance(db: Database, org: OrganizerId, eventId: EventId): (r: Result<AttendanceView, AttendanceError>)
    ensures r.Err? <==> !OwnsEvent(db.events, org, eventId)
    ensures r.Ok? ==>
      && r.value.checked == CountRecords(db.attendances, eventId)
      && r.value.total == CountActive(db.registrations, eventId)
      && r.value.notChecked == r.value.total - r.value.checked
      && multiset(r.value.records) == multiset(RecordsOf(db.attendances, eventId))
      && SortedBy(r.value.records, NewestFirst)
  {
    if !OwnsEvent(db.events, org, eventId) then Err(NotYourEvent)
    else
      var checked := CountRecords(db.attendances, eventId);
      var total := CountActive(db.registrations, eventId);
      Ok(AttendanceView(checked, total, total - checked, SortBy(RecordsOf(db.attendances, eventId), NewestFirst)))
  }

  /** `.sort({ checkedInAt: -1 })`. */
  function NewestFirst(a: Attendance): (int, int) {
    (0 - a.checkedInAt, 0)
  }

  /** Appending a record of the event counts one more check-in. */
  lemma CheckInCounts(atts: seq<Attendance>, a: Attendance)
    ensures CountRecords(atts + [a], a.event) == CountRecords(atts, a.event) + 1
  {
    assert (atts + [a])[..|atts|] == atts;
  }

  /** Cancelling a registration lowers the active count while its check-in
      record stays, so `notChecked` can fall below zero. */
  lemma {:induction false} CancelLowersActive(regs: seq<Registration>, i: nat)
    requires i < |regs| && regs[i].status.Active?
    ensures CountActive(regs[i := regs[i].(status := RegStatus.Cancelled)], regs[i].event)
         == CountActive(regs, regs[i].event) - 1
  {
    var n := |regs|;
    var after := regs[i := regs[i].(status := RegStatus.Cancelled)];
    if i < n - 1 {
      assert after[..n - 1] == regs[..n - 1][i := regs[i].(status := RegStatus.Cancelled)];
      CancelLowersActive(regs[..n - 1], i);
    } else {
      assert after[..n - 1] == regs[..n - 1];
    }
  }
}
