/** The account routes (backend/routes/users.js): onboarding, changing a
    password, and updating one's own profile. The profile and onboarding
    updates are partial: a field the request leaves out (`None` here) keeps
    its stored value, since undefined keys are dropped from the update. */
module UserRoutes {
  import opened Outcome
  import opened Schema
  import opened Db
  import Auth

  /** A field the request may carry. */
  function Patch<T>(stored: T, given: Option<T>): (r: T)
    ensures given.None? ==> r == stored
    ensures given.Some? ==> r == given.value
  {
    match given
    case None => stored
    case Some(v) => v
  }

  // ---------------------------------------------------------------------
  // onboarding
  // ---------------------------------------------------------------------

  /** The participant after onboarding: interests and clubs as given, and
      the onboarding marked complete. */
  function Onboarded(u: User, interests: Option<seq<string>>, clubs: Option<seq<OrganizerId>>): (r: User)
    ensures r.onboardingCompleted
    ensures interests.Some? ==> r.areasOfInterest == interests.value
    ensures clubs.Some? ==> r.followedClubs == clubs.value
    ensures interests.None? ==> r.areasOfInterest == u.areasOfInterest
    ensures clubs.None? ==> r.followedClubs == u.followedClubs
    ensures r.(areasOfInterest := u.areasOfInterest, followedClubs := u.followedClubs, onboardingCompleted := u.onboardingCompleted) == u
  {
    u.(areasOfInterest := Patch(u.areasOfInterest, interests), followedClubs := Patch(u.followedClubs, clubs),
       onboardingCompleted := true)
  }

  /** onboarding for the signed-in participant `user`. */
  method CompleteOnboarding(st: Store, user: UserId, interests: Option<seq<string>>, clubs: Option<seq<OrganizerId>>)
    returns (u: User)
    requires st.Valid() && user < |st.users| && st.users[user].role == Participant
    modifies st
    ensures st.Valid()
    ensures u == Onboarded(old(st.users)[user], interests, clubs)
    ensures st.State() == old(st.State()).(users := old(st.users)[user := u])
  {
    u := Onboarded(st.users[user], interests, clubs);
    st.SaveUser(user, u);
  }

  // ---------------------------------------------------------------------
  // change-password
  // ---------------------------------------------------------------------

  datatype PasswordError = FieldsRequired | TooShort | WrongPassword

  const MinPasswordLength := 6

  /** The stored password of the signed-in account. */
  function StoredPassword(db: Database, who: Principal): string
    requires Signed(db, who)
  {
    match who
    case AsUser(u) => db.users[u].password
    case AsOrganizer(o) => db.organizers[o].password
  }

  /** The account behind the principal exists (the `protect` guard). */
  predicate Signed(db: Database, who: Principal) {
    match who
    case AsUser(u) => u < |db.users|
    case AsOrganizer(o) => o < |db.organizers|
  }

  /** The refusals of change-password, in the order they are checked: both
      fields present, the new one at least six characters, the current one
      matching. */
  function PasswordCheck(db: Database, who: Principal, current: string, proposed: string): (r: Option<PasswordError>)
    requires Signed(db, who)
    ensures r == Some(FieldsRequired) <==> current == "" || proposed == ""
    ensures r == Some(TooShort) <==> current != "" && proposed != "" && |proposed| < MinPasswordLength
    ensures r == Some(WrongPassword) <==>
      current != "" && |proposed| >= MinPasswordLength && StoredPassword(db, who) != current
    ensures r.None? <==> current != "" && |proposed| >= MinPasswordLength && StoredPassword(db, who) == current
  {
    if current == "" || proposed == "" then Some(FieldsRequired)
    else if |proposed| < MinPasswordLength then Some(TooShort)
    else if StoredPassword(db, who) != current then Some(WrongPassword)
    else None
  }

  /** The database with the account's password replaced. */
  function WithPassword(db: Database, who: Principal, proposed: string): (r: Database)
    requires Signed(db, who)
    ensures Signed(r, who) && StoredPassword(r, who) == proposed
    ensures who.AsUser? ==> r == db.(users := db.users[who.userId := db.users[who.userId].(password := proposed)])
    ensures who.AsOrganizer? ==>
      r == db.(organizers := db.organizers[who.organizerId := db.organizers[who.organizerId].(password := proposed)])
  {
    match who
    case AsUser(u) => db.(users := db.users[u := db.users[u].(password := proposed)])
    case AsOrganizer(o) => db.(organizers := db.organizers[o := db.organizers[o].(password := proposed)])
  }

  /** change-password: on success only the account's password changes. */
  method ChangePassword(st: Store, who: Principal, current: string, proposed: string) returns (r: Result<(), PasswordError>)
    requires st.Valid() && Signed(st.State(), who)
    modifies st
    ensures st.Valid()
    ensures PasswordCheck(old(st.State()), who, current, proposed).Some? ==>
      r == Err(PasswordCheck(old(st.State()), who, current, proposed).value) && st.State() == old(st.State())
    ensures PasswordCheck(old(st.State()), who, current, proposed).None? ==>
      r == Ok(()) && st.State() == WithPassword(old(st.State()), who, proposed)
  {
    var check := PasswordCheck(st.State(), who, current, proposed);
    if check.Some? {
      return Err(check.value);
    }
    match who {
      case AsUser(u) =>
        st.SaveUser(u, st.users[u].(password := proposed));
      case AsOrganizer(o) =>
        st.SaveOrganizer(o, st.organizers[o].(password := proposed));
    }
    r := Ok(());
  }

  /** After a participant changes their password, the new one logs them in
      while the account is active, and the old one no longer does. */
  lemma NewPasswordLogsIn(db: Database, u: UserId, current: string, proposed: string)
    requires Consistent(db) && u < |db.users| && Lower(db.users[u].email) == db.users[u].email
    requires PasswordCheck(db, AsUser(u), current, proposed).None?
    ensures var after := WithPassword(db, AsUser(u), proposed).users;
      && (Auth.Login(after, db.users[u].email, proposed).Ok? <==> db.users[u].isActive)
      && (current != proposed ==> Auth.Login(after, db.users[u].email, current) == Err(Auth.BadCredentials))
  {
    var after := WithPassword(db, AsUser(u), proposed).users;
    var email := db.users[u].email;
    assert after[u].email == email;
    assert FindUserByEmail(after, Lower(email)) == Some(u);
  }

  // ---------------------------------------------------------------------
  // profile
  // ---------------------------------------------------------------------

  /** The participant fields the profile update accepts. */
  datatype UserPatch = UserPatch(firstName: Option<string>, lastName: Option<string>, contactNumber: Option<string>,
                                 collegeOrOrg: Option<string>, areasOfInterest: Option<seq<string>>,
                                 followedClubs: Option<seq<OrganizerId>>)

  /** The organizer fields the profile update accepts. */
  datatype OrganizerPatch = OrganizerPatch(name: Option<string>, category: Option<string>, description: Option<string>,
                                           contactEmail: Option<string>, contactNumber: Option<string>,
                                           discordWebhook: Option<string>)

  /** A participant after the update: given fields replaced, everything
      else, including the e-mail, the password, the role and the account
      flags, kept. */
  function PatchedUser(u: User, p: UserPatch): (r: User)
    ensures r.id == u.id && r.email == u.email && r.password == u.password && r.role == u.role
    ensures r.kind == u.kind && r.isActive == u.isActive && r.onboardingCompleted == u.onboardingCompleted
    ensures p.firstName.Some? ==> r.firstName == p.firstName.value
    ensures p.lastName.Some? ==> r.lastName == p.lastName.value
    ensures p.contactNumber.Some? ==> r.contactNumber == p.contactNumber
    ensures p.collegeOrOrg.Some? ==> r.collegeOrOrg == p.collegeOrOrg
    ensures p.areasOfInterest.Some? ==> r.areasOfInterest == p.areasOfInterest.value
    ensures p.followedClubs.Some? ==> r.followedClubs == p.followedClubs.value
    ensures p.firstName.None? ==> r.firstName == u.firstName
    ensures p.lastName.None? ==> r.lastName == u.lastName
    ensures p.contactNumber.None? ==> r.contactNumber == u.contactNumber
    ensures p.collegeOrOrg.None? ==> r.collegeOrOrg == u.collegeOrOrg
    ensures p.areasOfInterest.None? ==> r.areasOfInterest == u.areasOfInterest
    ensures p.followedClubs.None? ==> r.followedClubs == u.followedClubs
  {
    u.(firstName := Patch(u.firstName, p.firstName), lastName := Patch(u.lastName, p.lastName),
       contactNumber := if p.contactNumber.Some? then p.contactNumber else u.contactNumber,
       collegeOrOrg := if p.collegeOrOrg.Some? then p.collegeOrOrg else u.collegeOrOrg,
       areasOfInterest := Patch(u.areasOfInterest, p.areasOfInterest),
       followedClubs := Patch(u.followedClubs, p.followedClubs))
  }

  /** An organizer after the update: given fields replaced (the e-mail
      lower-cased), the password, the status and the flags kept. */
  function PatchedOrganizer(o: Organizer, p: OrganizerPatch): (r: Organizer)
    ensures r.id == o.id && r.password == o.password && r.status == o.status
    ensures r.isActive == o.isActive && r.isArchived == o.isArchived && r.createdBy == o.createdBy
    ensures p.name.Some? ==> r.name == p.name.value
    ensures p.category.Some? ==> r.category == p.category.value
    ensures p.description.Some? ==> r.description == p.description
    ensures r.contactEmail == if p.contactEmail.Some? then Lower(p.contactEmail.value) else o.contactEmail
    ensures p.contactNumber.Some? ==> r.contactNumber == p.contactNumber
    ensures p.discordWebhook.Some? ==> r.discordWebhook == p.discordWebhook
    ensures p.name.None? ==> r.name == o.name
    ensures p.category.None? ==> r.category == o.category
    ensures p.description.None? ==> r.description == o.description
    ensures p.contactNumber.None? ==> r.contactNumber == o.contactNumber
    ensures p.discordWebhook.None? ==> r.discordWebhook == o.discordWebhook
  {
    o.(name := Patch(o.name, p.name), category := Patch(o.category, p.category),
       description := if p.description.Some? then p.description else o.description,
       contactEmail := if p.contactEmail.Some? then Lower(p.contactEmail.value) else o.contactEmail,
       contactNumber := if p.contactNumber.Some? then p.contactNumber else o.contactNumber,
       discordWebhook := if p.discordWebhook.Some? then p.discordWebhook else o.discordWebhook)
  }

  /** A request that carries no field leaves the profile as it is. */
  lemma EmptyPatchKeepsProfile(u: User, o: Organizer)
    requires Lower(o.contactEmail) == o.contactEmail
    ensures PatchedUser(u, UserPatch(None, None, None, None, None, None)) == u
    ensures PatchedOrganizer(o, OrganizerPatch(None, None, None, None, None, None)) == o
  {
  }

  /** Another organizer already holds that contact e-mail. */
  predicate HeldByOther(orgs: seq<Organizer>, i: OrganizerId, email: string) {
    exists j :: 0 <= j < |orgs| && j != i && orgs[j].contactEmail == email
  }

  datatype ProfileError = ContactEmailTaken

  datatype Updated = UpdatedUser(user: User) | UpdatedOrganizer(organizer: Organizer)

  /** profile: an organizer's request updates the organizer fields, and a
      participant's or admin's the participant fields; no field is
      validated, but an organizer cannot take another's contact e-mail. */
  method UpdateProfile(st: Store, who: Principal, up: UserPatch, op: OrganizerPatch)
    returns (r: Result<Updated, ProfileError>)
    requires st.Valid() && Signed(st.State(), who)
    modifies st
    ensures st.Valid()
    ensures who.AsUser? ==>
      && r == Ok(UpdatedUser(PatchedUser(old(st.users)[who.userId], up)))
      && st.State() == old(st.State()).(users := old(st.users)[who.userId := r.value.user])
    ensures who.AsOrganizer? && HeldByOther(old(st.organizers), who.organizerId, PatchedOrganizer(old(st.organizers)[who.organizerId], op).contactEmail) ==>
      r == Err(ContactEmailTaken) && st.State() == old(st.State())
    ensures who.AsOrganizer? && !HeldByOther(old(st.organizers), who.organizerId, PatchedOrganizer(old(st.organizers)[who.organizerId], op).contactEmail) ==>
      && r == Ok(UpdatedOrganizer(PatchedOrganizer(old(st.organizers)[who.organizerId], op)))
      && st.State() == old(st.State()).(organizers := old(st.organizers)[who.organizerId := r.value.organizer])
  {
    match who
    case AsOrganizer(i) =>
      var o := PatchedOrganizer(st.organizers[i], op);
      if HeldByOther(st.organizers, i, o.contactEmail) {
        return Err(ContactEmailTaken);
      }
      st.SaveOrganizer(i, o);
      r := Ok(UpdatedOrganizer(o));
    case AsUser(i) =>
      var u := PatchedUser(st.users[i], up);
      st.SaveUser(i, u);
      r := Ok(UpdatedUser(u));
  }

  /** An organizer keeping their own e-mail is never refused. */
  lemma OwnEmailAccepted(db: Database, i: OrganizerId, p: OrganizerPatch)
    requires Consistent(db) && i < |db.organizers| && p.contactEmail.None?
    ensures !HeldByOther(db.organizers, i, PatchedOrganizer(db.organizers[i], p).contactEmail)
  {
    assert UniqueContactEmails(db.organizers);
  }
}
