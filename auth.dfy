/** Sign-up and sign-in (backend/controllers/authController.js): the IIIT
    e-mail classification, participant registration with its duplicate
    check, and the two logins with their order of refusals. Passwords are
    compared as stored credentials (hashing is left out) and no token is
    issued here. */
module Auth {
  import opened Outcome
  import opened Schema
  import opened Db

  datatype AuthError = EmailTaken | Invalid | BadCredentials | AccountDisabled

  // ---------------------------------------------------------------------
  // E-mail domain
  // ---------------------------------------------------------------------

  const IiitDomains: seq<string> := ["students.iiit.ac.in", "research.iiit.ac.in"]

  /** The position of the first `@`, if any. */
  function FirstAt(s: string): (r: Option<nat>)
    ensures r.None? <==> '@' !in s
    ensures r.Some? ==> r.value < |s| && s[r.value] == '@' && '@' !in s[..r.value]
  {
    if s == [] then None
    else if s[0] == '@' then Some(0)
    else match FirstAt(s[1..])
      case None => None
      case Some(k) =>
        assert s[..k + 1] == [s[0]] + s[1..][..k];
        Some(k + 1)
  }

  /** `email.split('@')[1]`: the text between the first `@` and the next
      one (or the end); nothing when there is no `@`. */
  function EmailDomain(email: string): (r: Option<string>)
    ensures r.None? <==> '@' !in email
    ensures r.Some? ==> exists k :: 0 <= k < |email| && email[k] == '@' && '@' !in email[..k] && DomainAt(email, k, r.value)
  {
    match FirstAt(email)
    case None => None
    case Some(k) =>
      var rest := email[k + 1..];
      match FirstAt(rest)
      case None =>
        assert DomainAt(email, k, rest);
        Some(rest)
      case Some(j) =>
        assert email[k + 1..k + 1 + j] == rest[..j] && email[k + 1 + j] == rest[j];
        assert DomainAt(email, k, rest[..j]);
        Some(rest[..j])
  }

  /** `d` is the segment that starts right after the `@` at `k`: it holds
      no `@` and is followed by one or by the end. */
  predicate DomainAt(email: string, k: nat, d: string)
    requires k < |email|
  {
    && k + 1 + |d| <= |email|
    && email[k + 1..k + 1 + |d|] == d
    && '@' !in d
    && (k + 1 + |d| == |email| || email[k + 1 + |d|] == '@')
  }

  /** The participant type chosen at registration. */
  function ClassifyEmail(email: string): (t: ParticipantType)
    ensures t == Iiit <==> EmailDomain(email).Some? && EmailDomain(email).value in IiitDomains
  {
    match EmailDomain(email)
    case Some(d) => if d == IiitDomains[0] || d == IiitDomains[1] then Iiit else NonIiit
    case None => NonIiit
  }

  /** Only the segment right after the first `@` decides: an allowed domain
      there makes the address IIIT whatever follows a further `@`, and an
      address without `@` is never IIIT. */
  lemma ClassifyBySegment(local: string, d: string, rest: string)
    requires '@' !in local && '@' !in d && (rest == [] || rest[0] == '@')
    ensures ClassifyEmail(local + "@" + d + rest) == Iiit <==> d in IiitDomains
  {
    var email := local + "@" + d + rest;
    var k := |local|;
    assert email[k] == '@' && email[..k] == local;
    assert FirstAt(email) == Some(k);
    var tail := email[k + 1..];
    assert tail == d + rest;
    if rest == [] {
      assert tail == d;
      assert FirstAt(tail).None?;
    } else {
      assert tail[|d|] == '@' && tail[..|d|] == d;
      assert FirstAt(tail) == Some(|d|);
    }
    assert EmailDomain(email) == Some(d);
  }

  // ---------------------------------------------------------------------
  // registerParticipant
  // ---------------------------------------------------------------------

  /** The participant registerParticipant stores: e-mail lower-cased by the
      schema, type from the address as typed, schema defaults elsewhere. */
  function NewParticipant(id: UserId, firstName: string, lastName: string, email: string, password: string,
                          contactNumber: Option<string>, collegeOrOrg: Option<string>): (u: User)
    ensures u.id == id && u.firstName == firstName && u.lastName == lastName && u.email == Lower(email)
    ensures u.password == password && u.contactNumber == contactNumber && u.collegeOrOrg == collegeOrOrg
    ensures u.kind == ClassifyEmail(email) && u.role == Participant
    ensures u.areasOfInterest == [] && u.followedClubs == [] && !u.onboardingCompleted && u.isActive
  {
    User(id, firstName, lastName, Lower(email), password, contactNumber, collegeOrOrg, ClassifyEmail(email),
         Participant, [], [], false, true)
  }

  /** registerParticipant: the duplicate check runs before the schema's
      required fields. */
  method RegisterParticipant(st: Store, firstName: string, lastName: string, email: string, password: string,
                             contactNumber: Option<string>, collegeOrOrg: Option<string>)
    returns (r: Result<User, AuthError>)
    requires st.Valid()
    modifies st
    ensures st.Valid()
    ensures FindUserByEmail(old(st.users), Lower(email)).Some? ==> r == Err(EmailTaken) && st.State() == old(st.State())
    ensures FindUserByEmail(old(st.users), Lower(email)).None? &&
            (firstName == "" || lastName == "" || email == "" || password == "") ==>
      r == Err(Invalid) && st.State() == old(st.State())
    ensures FindUserByEmail(old(st.users), Lower(email)).None? &&
            firstName != "" && lastName != "" && email != "" && password != "" ==>
      && r == Ok(NewParticipant(old(|st.users|), firstName, lastName, email, password, contactNumber, collegeOrOrg))
      && st.State() == old(st.State()).(users := old(st.users) + [r.value])
  {
    if FindUserByEmail(st.users, Lower(email)).Some? {
      return Err(EmailTaken);
    }
    if firstName == "" || lastName == "" || email == "" || password == "" {
      return Err(Invalid);
    }
    var u := NewParticipant(|st.users|, firstName, lastName, email, password, contactNumber, collegeOrOrg);
    st.InsertUser(u);
    r := Ok(u);
  }

  // ---------------------------------------------------------------------
  // Logins
  // ---------------------------------------------------------------------

  /** login (participants and admins): an unknown address and a wrong
      password are the same refusal, and come before the disabled check. */
  function Login(users: seq<User>, email: string, password: string): (r: Result<UserId, AuthError>)
    ensures r == Err(BadCredentials) <==>
      FindUserByEmail(users, Lower(email)).None? || users[FindUserByEmail(users, Lower(email)).value].password != password
    ensures r == Err(AccountDisabled) <==>
      && FindUserByEmail(users, Lower(email)).Some?
      && users[FindUserByEmail(users, Lower(email)).value].password == password
      && !users[FindUserByEmail(users, Lower(email)).value].isActive
    ensures r.Ok? ==> r.value < |users| && users[r.value].email == Lower(email) && users[r.value].password == password
                      && users[r.value].isActive
    ensures r.Err? ==> r.error == BadCredentials || r.error == AccountDisabled
  {
    match FindUserByEmail(users, Lower(email))
    case None => Err(BadCredentials)
    case Some(i) =>
      if users[i].password != password then Err(BadCredentials)
      else if !users[i].isActive then Err(AccountDisabled)
      else Ok(i)
  }

  /** loginOrganizer: after the credentials, only the `active` status lets
      the organizer in (the `isActive` flag is not consulted). */
  function LoginOrganizer(orgs: seq<Organizer>, email: string, password: string): (r: Result<OrganizerId, AuthError>)
    ensures r == Err(BadCredentials) <==>
      FindOrganizerByEmail(orgs, Lower(email)).None? || orgs[FindOrganizerByEmail(orgs, Lower(email)).value].password != password
    ensures r == Err(AccountDisabled) <==>
      && FindOrganizerByEmail(orgs, Lower(email)).Some?
      && orgs[FindOrganizerByEmail(orgs, Lower(email)).value].password == password
      && orgs[FindOrganizerByEmail(orgs, Lower(email)).value].status != OrgStatus.Active
    ensures r.Ok? ==> r.value < |orgs| && orgs[r.value].contactEmail == Lower(email)
                      && orgs[r.value].password == password && orgs[r.value].status == OrgStatus.Active
    ensures r.Err? ==> r.error == BadCredentials || r.error == AccountDisabled
  {
    match FindOrganizerByEmail(orgs, Lower(email))
    case None => Err(BadCredentials)
    case Some(i) =>
      if orgs[i].password != password then Err(BadCredentials)
      else if orgs[i].status != OrgStatus.Active then Err(AccountDisabled)
      else Ok(i)
  }

  lemma LowerIdempotent(s: string)
    ensures Lower(Lower(s)) == Lower(s)
  {
    assert forall i :: 0 <= i < |s| ==> Lower(Lower(s))[i] == Lower(s)[i];
  }

  /** A newly registered participant can log in with the address and
      password they registered with. */
  lemma RegisteredCanLogIn(db: Database, firstName: string, lastName: string, email: string, password: string,
                           contactNumber: Option<string>, collegeOrOrg: Option<string>)
    requires Consistent(db) && FindUserByEmail(db.users, Lower(email)).None?
    ensures var u := NewParticipant(|db.users|, firstName, lastName, email, password, contactNumber, collegeOrOrg);
      Login(db.users + [u], email, password) == Ok(|db.users|)
  {
    var u := NewParticipant(|db.users|, firstName, lastName, email, password, contactNumber, collegeOrOrg);
    var users := db.users + [u];
    assert users[..|db.users|] == db.users;
    assert FindUserByEmail(users, Lower(email)) == Some(|db.users|);
  }

  /** With unique contact e-mails, the organizer whose (lower-case) address
      is given is the one found, so after a password reset they log in with
      the new password exactly when their status is `active`. */
  lemma LoginAfterReset(db: Database, o: OrganizerId, password: string)
    requires Consistent(db) && o < |db.organizers| && Lower(db.organizers[o].contactEmail) == db.organizers[o].contactEmail
    ensures var orgs := db.organizers[o := db.organizers[o].(password := password)];
      LoginOrganizer(orgs, db.organizers[o].contactEmail, password).Ok? <==> db.organizers[o].status == OrgStatus.Active
  {
    var orgs := db.organizers[o := db.organizers[o].(password := password)];
    var email := db.organizers[o].contactEmail;
    var found := FindOrganizerByEmail(orgs, Lower(email));
    assert orgs[o].contactEmail == email;
    assert found.Some?;
    assert found.value == o;
  }
}
