/** Organizer password resets (backend/controllers/passwordResetController.js):
    an organizer asks for a reset, an admin approves it (a fresh random
    password replaces the organizer's and is kept in plain text until the
    admin acknowledges having passed it on) or rejects it. At most one
    request per organizer is pending at any time. */
module PasswordReset {
  import opened Outcome
  import opened Schema
  import opened Db

  datatype ResetError = ReasonRequired | AlreadyPending | NotFound | AlreadyResolved

  /** What an approval hands back to the admin. */
  datatype Credentials = Credentials(email: string, password: string)

  /** The string a status is stored and queried as. */
  function StatusName(s: RequestStatus): (n: string)
    ensures n != ""
  {
    match s
    case Pending => "pending"
    case Approved => "approved"
    case Rejected => "rejected"
  }

  // ---------------------------------------------------------------------
  // Submitting
  // ---------------------------------------------------------------------

  /** The request `submitRequest` creates: pending, nothing resolved yet. */
  function NewRequest(id: RequestId, org: OrganizerId, reason: string): (r: ResetRequest)
    ensures r.id == id && r.organizer == org && r.reason == reason && r.status.Pending?
    ensures r.adminComment.None? && r.resolvedBy.None? && r.resolvedAt.None? && r.newPasswordPlain.None?
  {
    ResetRequest(id, org, reason, RequestStatus.Pending, None, None, None, None)
  }

  /** The decision of `submitRequest` by organizer `org`: an empty reason is
      refused first, then a second pending request. */
  function Submission(reqs: seq<ResetRequest>, org: OrganizerId, reason: string): (r: Result<ResetRequest, ResetError>)
    ensures r == Err(ReasonRequired) <==> reason == ""
    ensures r == Err(AlreadyPending) <==> reason != "" && PendingFor(reqs, org)
    ensures r.Ok? <==> reason != "" && !PendingFor(reqs, org)
    ensures r.Ok? ==> r.value == NewRequest(|reqs|, org, reason)
  {
    if reason == "" then Err(ReasonRequired)
    else if exists i :: 0 <= i < |reqs| && reqs[i].organizer == org && reqs[i].status.Pending? then Err(AlreadyPending)
    else Ok(NewRequest(|reqs|, org, reason))
  }

  /** submitRequest by the signed-in organizer `org`. */
  method SubmitRequest(st: Store, org: OrganizerId, reason: string) returns (r: Result<ResetRequest, ResetError>)
    requires st.Valid() && org < |st.organizers|
    modifies st
    ensures st.Valid()
    ensures r == Submission(old(st.requests), org, reason)
    ensures r.Err? ==> st.State() == old(st.State())
    ensures r.Ok? ==> st.State() == old(st.State()).(requests := old(st.requests) + [r.value])
  {
    r := Submission(st.requests, org, reason);
    if r.Ok? {
      st.InsertRequest(r.value);
    }
  }

  // ---------------------------------------------------------------------
  // Resolving
  // ---------------------------------------------------------------------

  /** Request `id` may be resolved: it exists and is still pending. */
  function Resolvable(reqs: seq<ResetRequest>, id: RequestId): (r: Result<ResetRequest, ResetError>)
    ensures r == Err(NotFound) <==> id >= |reqs|
    ensures r == Err(AlreadyResolved) <==> id < |reqs| && !reqs[id].status.Pending?
    ensures r.Ok? <==> id < |reqs| && reqs[id].status.Pending?
    ensures r.Ok? ==> r.value == reqs[id]
  {
    if id >= |reqs| then Err(NotFound)
    else if reqs[id].status != RequestStatus.Pending then Err(AlreadyResolved)
    else Ok(reqs[id])
  }

  /** The request after approval by `admin`: the new password is kept in
      plain text for the admin to read once. */
  function ApprovedRequest(req: ResetRequest, admin: UserId, comment: Option<string>, password: string, now: Time)
    : (r: ResetRequest)
    ensures r.id == req.id && r.organizer == req.organizer && r.reason == req.reason
    ensures r.status == RequestStatus.Approved && r.adminComment == comment
    ensures r.resolvedBy == Some(admin) && r.resolvedAt == Some(now) && r.newPasswordPlain == Some(password)
  {
    req.(status := RequestStatus.Approved, adminComment := comment, resolvedBy := Some(admin),
         resolvedAt := Some(now), newPasswordPlain := Some(password))
  }

  /** The request after rejection by `admin`: no password is issued. */
  function RejectedRequest(req: ResetRequest, admin: UserId, comment: Option<string>, now: Time): (r: ResetRequest)
    ensures r.id == req.id && r.organizer == req.organizer && r.reason == req.reason
    ensures r.status == RequestStatus.Rejected && r.adminComment == comment
    ensures r.resolvedBy == Some(admin) && r.resolvedAt == Some(now)
    ensures r.newPasswordPlain == req.newPasswordPlain
  {
    req.(status := RequestStatus.Rejected, adminComment := comment, resolvedBy := Some(admin), resolvedAt := Some(now))
  }

  /** approveRequest by `admin`; `bytes` are the eight random bytes the new
      password is drawn from. */
  method ApproveRequest(st: Store, admin: UserId, id: RequestId, comment: Option<string>, bytes: Bytes8, now: Time)
    returns (r: Result<Credentials, ResetError>)
    requires st.Valid()
    modifies st
    ensures st.Valid()
    ensures Resolvable(old(st.requests), id).Err? ==>
      r == Err(Resolvable(old(st.requests), id).error) && st.State() == old(st.State())
    ensures Resolvable(old(st.requests), id).Ok? ==>
      var req := old(st.requests)[id];
      var org := old(st.organizers)[req.organizer];
      var pw := GeneratedPassword(bytes);
      && r == Ok(Credentials(org.contactEmail, pw))
      && st.State() == old(st.State()).(
           organizers := old(st.organizers)[req.organizer := org.(password := pw)],
           requests := old(st.requests)[id := ApprovedRequest(req, admin, comment, pw, now)])
  {
    var ok := Resolvable(st.requests, id);
    if ok.Err? {
      return Err(ok.error);
    }
    var req := st.requests[id];
    var pw := GeneratedPassword(bytes);
    var org := st.organizers[req.organizer];
    st.SaveOrganizer(req.organizer, org.(password := pw));
    st.SaveRequest(id, ApprovedRequest(req, admin, comment, pw, now));
    r := Ok(Credentials(org.contactEmail, pw));
  }

  /** rejectRequest by `admin`. */
  method RejectRequest(st: Store, admin: UserId, id: RequestId, comment: Option<string>, now: Time)
    returns (r: Result<(), ResetError>)
    requires st.Valid()
    modifies st
    ensures st.Valid()
    ensures Resolvable(old(st.requests), id).Err? ==>
      r == Err(Resolvable(old(st.requests), id).error) && st.State() == old(st.State())
    ensures Resolvable(old(st.requests), id).Ok? ==>
      && r == Ok(())
      && st.State() == old(st.State()).(
           requests := old(st.requests)[id := RejectedRequest(old(st.requests)[id], admin, comment, now)])
  {
    var ok := Resolvable(st.requests, id);
    if ok.Err? {
      return Err(ok.error);
    }
    st.SaveRequest(id, RejectedRequest(st.requests[id], admin, comment, now));
    r := Ok(());
  }

  /** The request once its plain-text password is cleared. */
  function Acknowledged(req: ResetRequest): (r: ResetRequest)
    ensures r.newPasswordPlain.None?
    ensures r.id == req.id && r.organizer == req.organizer && r.reason == req.reason && r.status == req.status
    ensures r.adminComment == req.adminComment && r.resolvedBy == req.resolvedBy && r.resolvedAt == req.resolvedAt
  {
    req.(newPasswordPlain := None)
  }

  /** acknowledgeCredential: clears the plain-text password whatever the
      request's status. */
  method AcknowledgeCredential(st: Store, id: RequestId) returns (r: Result<(), ResetError>)
    requires st.Valid()
    modifies st
    ensures st.Valid()
    ensures id >= old(|st.requests|) ==> r == Err(NotFound) && st.State() == old(st.State())
    ensures id < old(|st.requests|) ==>
      r == Ok(()) && st.State() == old(st.State()).(requests := old(st.requests)[id := Acknowledged(old(st.requests)[id])])
  {
    if id >= |st.requests| {
      return Err(NotFound);
    }
    st.SaveRequest(id, Acknowledged(st.requests[id]));
    r := Ok(());
  }

  // ---------------------------------------------------------------------
  // Listings
  // ---------------------------------------------------------------------

  /** Who is listing: the organizer itself (getMyRequests) or an admin,
      optionally filtering on a status string (getAllRequests; `""` means
      no filter). */
  datatype Audience = Owner(org: OrganizerId) | AdminView(status: string)

  predicate Visible(aud: Audience, req: ResetRequest) {
    match aud
    case Owner(org) => req.organizer == org
    case AdminView(status) => status == "" || StatusName(req.status) == status
  }

  /** How a request is shown: the owner never sees the plain-text password;
      the admin sees it unless it is empty. */
  function Shown(aud: Audience, req: ResetRequest): (r: ResetRequest)
    ensures r.id == req.id && r.organizer == req.organizer && r.status == req.status && r.reason == req.reason
    ensures aud.Owner? ==> r.newPasswordPlain.None?
    ensures aud.AdminView? ==>
      (r.newPasswordPlain.Some? <==> req.newPasswordPlain.Some? && req.newPasswordPlain.value != "")
    ensures r.newPasswordPlain.Some? ==> r.newPasswordPlain == req.newPasswordPlain
  {
    match aud
    case Owner(_) => req.(newPasswordPlain := None)
    case AdminView(_) => if req.newPasswordPlain == Some("") then req.(newPasswordPlain := None) else req
  }

  /** The listing, newest first: requests are created in id order, so the
      `createdAt` descending sort is the reverse of the collection. */
  function Listing(reqs: seq<ResetRequest>, aud: Audience): (r: seq<ResetRequest>)
    ensures |r| <= |reqs|
    ensures forall x :: x in r <==> exists i :: 0 <= i < |reqs| && Visible(aud, reqs[i]) && x == Shown(aud, reqs[i])
  {
    if reqs == [] then []
    else
      var last := reqs[|reqs| - 1];
      var rest := Listing(reqs[..|reqs| - 1], aud);
      assert forall i :: 0 <= i < |reqs| - 1 ==> reqs[..|reqs| - 1][i] == reqs[i];
      if Visible(aud, last) then [Shown(aud, last)] + rest else rest
  }

  /** On an indexed collection the listing is strictly newest first. */
  lemma {:induction false} ListingNewestFirst(reqs: seq<ResetRequest>, aud: Audience)
    requires RequestsIndexed(reqs)
    ensures forall x :: x in Listing(reqs, aud) ==> x.id < |reqs|
    ensures forall a, b :: 0 <= a < b < |Listing(reqs, aud)| ==> Listing(reqs, aud)[a].id > Listing(reqs, aud)[b].id
  {
    if reqs != [] {
      var init := reqs[..|reqs| - 1];
      ListingNewestFirst(init, aud);
      assert RequestsIndexed(init);
    }
  }

  /** An organizer's listing holds exactly its own requests, none of them
      showing a password. */
  lemma OwnerSeesOwnOnly(reqs: seq<ResetRequest>, org: OrganizerId)
    ensures forall x :: x in Listing(reqs, Owner(org)) ==> x.organizer == org && x.newPasswordPlain.None?
    ensures forall i :: 0 <= i < |reqs| && reqs[i].organizer == org ==>
      reqs[i].(newPasswordPlain := None) in Listing(reqs, Owner(org))
  {
    forall i | 0 <= i < |reqs| && reqs[i].organizer == org
      ensures reqs[i].(newPasswordPlain := None) in Listing(reqs, Owner(org))
    {
      assert Visible(Owner(org), reqs[i]);
    }
  }

  /** Right after approval the admin's listing shows the new password on
      that request; once acknowledged, no listing shows it. */
  lemma {:induction false} PasswordShownUntilAcknowledged(reqs: seq<ResetRequest>, id: RequestId, admin: UserId,
                                                          comment: Option<string>, bytes: Bytes8, now: Time)
    requires RequestsIndexed(reqs) && id < |reqs|
    ensures var approved := reqs[id := ApprovedRequest(reqs[id], admin, comment, GeneratedPassword(bytes), now)];
      ApprovedRequest(reqs[id], admin, comment, GeneratedPassword(bytes), now) in Listing(approved, AdminView(""))
    ensures var approved := reqs[id := ApprovedRequest(reqs[id], admin, comment, GeneratedPassword(bytes), now)];
      var cleared := approved[id := Acknowledged(approved[id])];
      forall aud, x :: x in Listing(cleared, aud) && x.id == id ==> x.newPasswordPlain.None?
  {
    var pw := GeneratedPassword(bytes);
    var req := ApprovedRequest(reqs[id], admin, comment, pw, now);
    var approved := reqs[id := req];
    assert Visible(AdminView(""), approved[id]) && Shown(AdminView(""), approved[id]) == req;
    var cleared := approved[id := Acknowledged(approved[id])];
    forall aud, x | x in Listing(cleared, aud) && x.id == id ensures x.newPasswordPlain.None? {
      var i :| 0 <= i < |cleared| && Visible(aud, cleared[i]) && x == Shown(aud, cleared[i]);
      assert i == id;
    }
  }
}
