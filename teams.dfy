/** Hackathon teams (backend/controllers/teamsController.js): a leader
    creates a team for a hackathon, others ask to join with its invite code
    or are invited by the leader, invitees accept or decline, and once the
    accepted entries plus the leader reach the team's size the team is
    complete and every member is registered for the event. */
module Teams {
  import opened Outcome
  import opened Schema
  import opened Db

  datatype TeamError =
    | EventNotFound
    | NotHackathon
    | EventNotOpen
    | AlreadyInATeam
    | NameRequired
    | DuplicateInviteCode
    | TeamNotFound
    | InvalidInviteCode
    | NotAcceptingMembers
    | TeamFull
    | AlreadyInThisTeam
    | IsLeader
    | OnlyLeaderCanInvite
    | UserNotFound
    | AlreadyInvited
    | NoInvite

  // ---------------------------------------------------------------------
  // Member entries
  // ---------------------------------------------------------------------

  /** Some member entry of the list is for `user`, whatever its status. */
  predicate HasEntry(members: seq<Member>, user: UserId) {
    exists i :: 0 <= i < |members| && members[i].user == user
  }

  /** The `{ leader: user }` / `{ 'members.user': user }` query on one team. */
  predicate InTeam(t: Team, user: UserId) {
    t.leader == user || HasEntry(t.members, user)
  }

  /** `members.find(m => m.user == user)`: the first entry for `user`. */
  function FindMember(members: seq<Member>, user: UserId): (r: Option<nat>)
    ensures r.Some? ==> r.value < |members| && members[r.value].user == user
    ensures r.Some? ==> forall k :: 0 <= k < r.value ==> members[k].user != user
    ensures r.None? <==> !HasEntry(members, user)
    decreases |members|
  {
    if members == [] then None
    else if members[0].user == user then Some(0)
    else match FindMember(members[1..], user)
      case None =>
        assert forall k :: 1 <= k < |members| ==> members[k] == members[1..][k - 1];
        None
      case Some(k) => Some(k + 1)
  }

  /** `Team.findOne({ inviteCode })`: the first team with that code. */
  function FindTeamByCode(teams: seq<Team>, code: string): (r: Option<TeamId>)
    ensures r.Some? ==> r.value < |teams| && teams[r.value].inviteCode == code
    ensures r.None? <==> !InviteCodeTaken(teams, code)
  {
    if teams == [] then None
    else match FindTeamByCode(teams[..|teams| - 1], code)
      case Some(i) => Some(i)
      case None => if teams[|teams| - 1].inviteCode == code then Some(|teams| - 1) else None
  }

  /** `members.filter(m => m.user != user)`. */
  function WithoutUser(members: seq<Member>, user: UserId): (r: seq<Member>)
    ensures |r| <= |members|
  {
    if members == [] then []
    else WithoutUser(members[..|members| - 1], user)
         + (if members[|members| - 1].user == user then [] else [members[|members| - 1]])
  }

  /** Leaving removes every entry of the user and does not raise the
      accepted count. */
  lemma {:induction false} WithoutUserFacts(members: seq<Member>, user: UserId)
    ensures !HasEntry(WithoutUser(members, user), user)
    ensures CountAccepted(WithoutUser(members, user)) <= CountAccepted(members)
  {
    if members != [] {
      var init := members[..|members| - 1];
      var last := members[|members| - 1];
      WithoutUserFacts(init, user);
      var w := WithoutUser(init, user);
      assert CountAccepted(members) == CountAccepted(init) + (if last.status.Accepted? then 1 else 0);
      if last.user == user {
        assert WithoutUser(members, user) == w + [] == w;
      } else {
        assert WithoutUser(members, user) == w + [last];
        CountAcceptedAppend(w, last);
        forall i | 0 <= i < |w + [last]| ensures (w + [last])[i].user != user {
          if i < |w| { assert (w + [last])[i] == w[i]; }
        }
      }
    }
  }

  /** Leaving keeps every entry of other users, in order, and only those. */
  lemma {:induction false} WithoutUserKeeps(members: seq<Member>, user: UserId)
    ensures forall m :: m in WithoutUser(members, user) <==> m in members && m.user != user
    ensures !HasEntry(members, user) ==> WithoutUser(members, user) == members
  {
    if members != [] {
      var init := members[..|members| - 1];
      var last := members[|members| - 1];
      WithoutUserKeeps(init, user);
      assert members == init + [last];
      assert !HasEntry(members, user) ==> !HasEntry(init, user) by {
        if HasEntry(init, user) {
          var i :| 0 <= i < |init| && init[i].user == user;
          assert members[i] == init[i];
        }
      }
    }
  }

  /** The users that completion registers: the leader, then each accepted
      entry in order. */
  function AcceptedUsers(members: seq<Member>): (r: seq<UserId>)
    ensures |r| == CountAccepted(members)
  {
    if members == [] then []
    else AcceptedUsers(members[..|members| - 1])
         + (if members[|members| - 1].status.Accepted? then [members[|members| - 1].user] else [])
  }

  lemma {:induction false} AcceptedUsersAre(members: seq<Member>, u: UserId)
    ensures u in AcceptedUsers(members) <==>
      exists i :: 0 <= i < |members| && members[i].user == u && members[i].status.Accepted?
  {
    if members != [] {
      var init := members[..|members| - 1];
      AcceptedUsersAre(init, u);
      if exists i :: 0 <= i < |members| && members[i].user == u && members[i].status.Accepted? {
        var i :| 0 <= i < |members| && members[i].user == u && members[i].status.Accepted?;
        if i < |init| {
          assert init[i] == members[i];
        }
      }
      if exists i :: 0 <= i < |init| && init[i].user == u && init[i].status.Accepted? {
        var i :| 0 <= i < |init| && init[i].user == u && init[i].status.Accepted?;
        assert members[i] == init[i];
      }
    }
  }

  /** `[team.leader, ...accepted members]`: as many users as the team's
      `acceptedCount`, the leader first. */
  function Roster(t: Team): (r: seq<UserId>)
    ensures |r| == AcceptedCount(t) && r[0] == t.leader
  {
    [t.leader] + AcceptedUsers(t.members)
  }

  // ---------------------------------------------------------------------
  // Checks
  // ---------------------------------------------------------------------

  /** Some team of the event has `user` as leader or as a member entry. */
  predicate InTeamFor(teams: seq<Team>, eventId: EventId, user: UserId) {
    exists i :: 0 <= i < |teams| && teams[i].event == eventId && InTeam(teams[i], user)
  }

  /** The checks of createTeam once the event is found, in order. */
  function CreateRefusal(e: Event, teams: seq<Team>, user: UserId): (r: Option<TeamError>)
    ensures r == Some(NotHackathon) <==> !e.eventType.Hackathon?
    ensures r == Some(EventNotOpen) <==> e.eventType.Hackathon? && !(e.status.Published? || e.status.Ongoing?)
    ensures r == Some(AlreadyInATeam) <==>
      e.eventType.Hackathon? && (e.status.Published? || e.status.Ongoing?) && InTeamFor(teams, e.id, user)
    ensures r.None? <==>
      e.eventType.Hackathon? && (e.status.Published? || e.status.Ongoing?) && !InTeamFor(teams, e.id, user)
  {
    if !e.eventType.Hackathon? then Some(NotHackathon)
    else if !(e.status.Published? || e.status.Ongoing?) then Some(EventNotOpen)
    else if InTeamFor(teams, e.id, user) then Some(AlreadyInATeam)
    else None
  }

  /** `event.teamSize || 4`: a team size of 0 falls back to 4. */
  function MaxSizeFor(e: Event): (n: int)
    ensures n != 0
    ensures e.teamSize != 0 ==> n == e.teamSize
    ensures e.teamSize == 0 ==> n == 4
  {
    if e.teamSize == 0 then 4 else e.teamSize
  }

  /** The checks of joinTeam once the team is found, in order. */
  function JoinRefusal(t: Team, user: UserId): (r: Option<TeamError>)
    ensures r == Some(NotAcceptingMembers) <==> !t.status.Forming?
    ensures r == Some(TeamFull) <==> t.status.Forming? && AcceptedCount(t) >= t.maxSize
    ensures r == Some(AlreadyInThisTeam) <==>
      t.status.Forming? && AcceptedCount(t) < t.maxSize && HasEntry(t.members, user)
    ensures r == Some(IsLeader) <==>
      t.status.Forming? && AcceptedCount(t) < t.maxSize && !HasEntry(t.members, user) && t.leader == user
    ensures r.None? <==>
      t.status.Forming? && AcceptedCount(t) < t.maxSize && !InTeam(t, user)
  {
    if !t.status.Forming? then Some(NotAcceptingMembers)
    else if AcceptedCount(t) >= t.maxSize then Some(TeamFull)
    else if HasEntry(t.members, user) then Some(AlreadyInThisTeam)
    else if t.leader == user then Some(IsLeader)
    else None
  }

  /** A pending entry for `user`, invited at `now`. */
  function PendingEntry(user: UserId, now: Time): Member {
    Member(user, DefaultMemberStatus, now, None)
  }

  /** Adding a pending entry gives the user an entry and leaves the accepted
      count, and so the team's completeness, as it was. */
  lemma AddingPendingKeepsCount(t: Team, user: UserId, now: Time)
    ensures var after := t.(members := t.members + [PendingEntry(user, now)]);
      && AcceptedCount(after) == AcceptedCount(t)
      && HasEntry(after.members, user)
      && |after.members| == |t.members| + 1
  {
    CountAcceptedAppend(t.members, PendingEntry(user, now));
    assert (t.members + [PendingEntry(user, now)])[|t.members|].user == user;
  }

  /** The answer to an invite: `accept` accepts, anything else declines. */
  function Answer(action: string): (s: MemberStatus)
    ensures s.Accepted? <==> action == "accept"
    ensures s.Declined? <==> action != "accept"
  {
    if action == "accept" then Accepted else Declined
  }

  /** The team after the entry at `k` answered at `now`. */
  function Responded(t: Team, k: nat, action: string, now: Time): (r: Team)
    requires k < |t.members|
    ensures |r.members| == |t.members|
    ensures r.members[k] == t.members[k].(status := Answer(action), respondedAt := Some(now))
    ensures forall j :: 0 <= j < |t.members| && j != k ==> r.members[j] == t.members[j]
    ensures r == t.(members := r.members)
  {
    t.(members := t.members[k := t.members[k].(status := Answer(action), respondedAt := Some(now))])
  }

  /** Changing the status of one entry moves the accepted count by at most
      one, as the entry moves into or out of `accepted`. */
  lemma {:induction false} CountAcceptedUpdate(members: seq<Member>, k: nat, m: Member)
    requires k < |members|
    ensures CountAccepted(members[k := m]) ==
      CountAccepted(members) + (if m.status.Accepted? then 1 else 0)
                             - (if members[k].status.Accepted? then 1 else 0)
    decreases |members|
  {
    var n := |members|;
    var after := members[k := m];
    assert after[..n - 1] == if k == n - 1 then members[..n - 1] else members[..n - 1][k := m];
    if k < n - 1 {
      CountAcceptedUpdate(members[..n - 1], k, m);
    }
  }

  /** Accepting raises `acceptedCount` by one unless the entry was already
      accepted; declining lowers it by one if the entry was accepted. */
  lemma RespondCount(t: Team, k: nat, action: string, now: Time)
    requires k < |t.members|
    ensures AcceptedCount(Responded(t, k, action, now)) ==
      AcceptedCount(t) + (if action == "accept" then 1 else 0)
                       - (if t.members[k].status.Accepted? then 1 else 0)
  {
    CountAcceptedUpdate(t.members, k, t.members[k].(status := Answer(action), respondedAt := Some(now)));
  }

  /** Whether an answer completes the team: only an acceptance, and only once
      the accepted entries and the leader reach the team's size. */
  predicate Completes(t: Team, action: string) {
    action == "accept" && AcceptedCount(t) >= t.maxSize
  }

  // ---------------------------------------------------------------------
  // Registration of the members when a team completes
  // ---------------------------------------------------------------------

  /** The registration completion creates for `user`: a hackathon
      registration of the team with default status and payment, no amount,
      and the QR payload naming user, event and team. */
  function TeamRegistration(id: RegistrationId, ticketBytes: Bytes6, user: UserId, eventId: EventId,
                            teamId: TeamId): (r: Registration)
    ensures r.id == id && r.ticketId == TicketId(ticketBytes) && r.user == user && r.event == eventId
    ensures r.registrationType.Hackathon? && r.team == Some(teamId)
    ensures r.qrCode == Some(TeamQr(user, eventId, teamId))
    ensures r.status == DefaultRegStatus && r.paymentStatus == DefaultPayStatus && r.totalAmount == 0
    ensures r.purchases == [] && r.formResponses == [] && !r.emailSent
  {
    Registration(id, TicketId(ticketBytes), user, eventId, Hackathon, DefaultRegStatus, [], [], 0, None,
                 DefaultPayStatus, None, None, Some(teamId), Some(TeamQr(user, eventId, teamId)), false)
  }

  /** Where the completion loop stands: the registrations so far, how many it
      created, and whether a refused insert ended it. */
  datatype Fanout = Fanout(regs: seq<Registration>, added: nat, aborted: bool)

  /** One turn of the completion loop for `user`: skip a user that does not
      exist or already has a registration for the event (any status);
      otherwise insert a registration with the user's ticket draw, unless
      that ticket id is taken, which ends the loop. */
  function EnlistOne(acc: Fanout, userCount: nat, user: UserId, eventId: EventId, teamId: TeamId,
                     ticketFor: UserId -> Bytes6): Fanout
  {
    if user >= userCount || HasAnyRegistration(acc.regs, user, eventId) then acc
    else if TicketTaken(acc.regs, TicketId(ticketFor(user))) then acc.(aborted := true)
    else Fanout(acc.regs + [TeamRegistration(|acc.regs|, ticketFor(user), user, eventId, teamId)],
                acc.added + 1, false)
  }

  /** The completion loop as a specification, from the point `acc`. */
  function Enlist(acc: Fanout, userCount: nat, users: seq<UserId>, eventId: EventId, teamId: TeamId,
                  ticketFor: UserId -> Bytes6): Fanout
    decreases |users|
  {
    if users == [] || acc.aborted then acc
    else Enlist(EnlistOne(acc, userCount, users[0], eventId, teamId, ticketFor), userCount, users[1..],
                eventId, teamId, ticketFor)
  }

  /** Registration `k` is one the fan-out made: of the team, for a listed,
      existing user who had no registration for the event before it. */
  ghost predicate MadeFor(regs: seq<Registration>, k: nat, userCount: nat, users: seq<UserId>,
                          eventId: EventId, teamId: TeamId)
    requires k < |regs|
  {
    && regs[k].id == k && regs[k].event == eventId && regs[k].team == Some(teamId)
    && regs[k].registrationType.Hackathon? && regs[k].qrCode == Some(TeamQr(regs[k].user, eventId, teamId))
    && regs[k].user in users && regs[k].user < userCount
    && !HasAnyRegistration(regs[..k], regs[k].user, eventId)
  }

  /** The fan-out only appends: earlier registrations stay, one is added per
      count, and every added one was made for a listed user who had no
      registration for the event yet, so nobody is registered twice. */
  lemma {:induction false} EnlistAppends(acc: Fanout, userCount: nat, users: seq<UserId>, eventId: EventId,
                                         teamId: TeamId, ticketFor: UserId -> Bytes6)
    requires forall k :: 0 <= k < |acc.regs| ==> acc.regs[k].id == k
    ensures var f := Enlist(acc, userCount, users, eventId, teamId, ticketFor);
      && |f.regs| == |acc.regs| + f.added - acc.added
      && f.added >= acc.added
      && f.regs[..|acc.regs|] == acc.regs
      && forall k :: |acc.regs| <= k < |f.regs| ==> MadeFor(f.regs, k, userCount, users, eventId, teamId)
    decreases |users|
  {
    var f := Enlist(acc, userCount, users, eventId, teamId, ticketFor);
    if users == [] || acc.aborted {
      assert f.regs[..|acc.regs|] == acc.regs;
    } else {
      var next := EnlistOne(acc, userCount, users[0], eventId, teamId, ticketFor);
      assert forall k :: 0 <= k < |next.regs| ==> next.regs[k].id == k;
      EnlistAppends(next, userCount, users[1..], eventId, teamId, ticketFor);
      assert f.regs[..|next.regs|] == next.regs;
      assert next.regs[..|acc.regs|] == acc.regs;
      assert f.regs[..|acc.regs|] == acc.regs by {
        assert f.regs[..|acc.regs|] == f.regs[..|next.regs|][..|acc.regs|];
      }
      forall k | |acc.regs| <= k < |f.regs| ensures MadeFor(f.regs, k, userCount, users, eventId, teamId) {
        assert MadeFor(f.regs, k, userCount, users[1..], eventId, teamId) || k < |next.regs|;
        if k >= |next.regs| {
          assert forall x :: x in users[1..] ==> x in users;
        } else {
          assert k == |acc.regs| && next.regs[k] == f.regs[k];
          assert f.regs[..k] == acc.regs;
        }
      }
    }
  }

  /** A completed fan-out leaves every listed, existing user with a
      registration for the event. */
  lemma {:induction false} EnlistCovers(acc: Fanout, userCount: nat, users: seq<UserId>, eventId: EventId,
                                        teamId: TeamId, ticketFor: UserId -> Bytes6, u: UserId)
    requires u in users && u < userCount
    requires !Enlist(acc, userCount, users, eventId, teamId, ticketFor).aborted
    ensures HasAnyRegistration(Enlist(acc, userCount, users, eventId, teamId, ticketFor).regs, u, eventId)
    decreases |users|
  {
    var next := EnlistOne(acc, userCount, users[0], eventId, teamId, ticketFor);
    EnlistKeeps(next, userCount, users[1..], eventId, teamId, ticketFor);
    if users[0] == u {
      if !HasAnyRegistration(acc.regs, u, eventId) {
        var k := |acc.regs|;
        assert next.regs[k].user == u && next.regs[k].event == eventId;
      }
      KeepsRegistration(next.regs, Enlist(next, userCount, users[1..], eventId, teamId, ticketFor).regs, u, eventId);
    } else {
      EnlistCovers(next, userCount, users[1..], eventId, teamId, ticketFor, u);
    }
  }

  /** The fan-out never drops a registration it has already seen. */
  lemma {:induction false} EnlistKeeps(acc: Fanout, userCount: nat, users: seq<UserId>, eventId: EventId,
                                       teamId: TeamId, ticketFor: UserId -> Bytes6)
    ensures acc.regs <= Enlist(acc, userCount, users, eventId, teamId, ticketFor).regs
    ensures acc.aborted ==> Enlist(acc, userCount, users, eventId, teamId, ticketFor).aborted
    decreases |users|
  {
    if users != [] && !acc.aborted {
      EnlistKeeps(EnlistOne(acc, userCount, users[0], eventId, teamId, ticketFor), userCount, users[1..],
                  eventId, teamId, ticketFor);
    }
  }

  lemma KeepsRegistration(a: seq<Registration>, b: seq<Registration>, u: UserId, eventId: EventId)
    requires a <= b && HasAnyRegistration(a, u, eventId)
    ensures HasAnyRegistration(b, u, eventId)
  {
    var i :| 0 <= i < |a| && a[i].user == u && a[i].event == eventId;
    assert b[i] == a[i];
  }

  // ---------------------------------------------------------------------
  // Handlers
  // ---------------------------------------------------------------------

  /** createTeam by `user`: `inviteBytes` is the random draw for the invite
      code; a code already in use is refused by the unique index. */
  method CreateTeam(st: Store, user: UserId, eventId: EventId, name: string, inviteBytes: Bytes5)
    returns (r: Result<TeamId, TeamError>)
    requires st.Valid()
    modifies st
    ensures st.Valid()
    ensures eventId >= |old(st.events)| ==> r == Err(EventNotFound) && st.State() == old(st.State())
    ensures eventId < |old(st.events)| ==>
      var e := old(st.events)[eventId];
      var refusal := CreateRefusal(e, old(st.teams), user);
      && (refusal.Some? ==> r == Err(refusal.value) && st.State() == old(st.State()))
      && (refusal.None? && name == "" ==> r == Err(NameRequired) && st.State() == old(st.State()))
      && (refusal.None? && name != "" && InviteCodeTaken(old(st.teams), InviteCode(inviteBytes)) ==>
            r == Err(DuplicateInviteCode) && st.State() == old(st.State()))
      && (refusal.None? && name != "" && !InviteCodeTaken(old(st.teams), InviteCode(inviteBytes)) ==>
            && r == Ok(|old(st.teams)|)
            && st.State() == old(st.State()).(teams := old(st.teams) +
                 [Team(r.value, name, eventId, user, [], MaxSizeFor(e), InviteCode(inviteBytes),
                       DefaultTeamStatus, None)]))
  {
    if eventId >= |st.events| {
      return Err(EventNotFound);
    }
    var e := st.events[eventId];
    assert e.id == eventId;
    var refusal := CreateRefusal(e, st.teams, user);
    if refusal.Some? {
      return Err(refusal.value);
    }
    if name == "" {
      return Err(NameRequired);
    }
    var code := InviteCode(inviteBytes);
    if InviteCodeTaken(st.teams, code) {
      return Err(DuplicateInviteCode);
    }
    var id := |st.teams|;
    st.InsertTeam(Team(id, name, eventId, user, [], MaxSizeFor(e), code, DefaultTeamStatus, None));
    r := Ok(id);
  }

  /** joinTeam by `user` with an invite code in any letter case: a pending
      entry is added for the leader to confirm. */
  method JoinTeam(st: Store, user: UserId, code: string, now: Time) returns (r: Result<Team, TeamError>)
    requires st.Valid()
    modifies st
    ensures st.Valid()
    ensures var found := FindTeamByCode(old(st.teams), Upper(code));
      && (found.None? ==> r == Err(InvalidInviteCode) && st.State() == old(st.State()))
      && (found.Some? ==>
            var t := old(st.teams)[found.value];
            var refusal := JoinRefusal(t, user);
            && (refusal.Some? ==> r == Err(refusal.value) && st.State() == old(st.State()))
            && (refusal.None? ==>
                  && r == Ok(t.(members := t.members + [PendingEntry(user, now)]))
                  && st.State() == old(st.State()).(teams := old(st.teams)[found.value := r.value])))
  {
    var found := FindTeamByCode(st.teams, Upper(code));
    if found.None? {
      return Err(InvalidInviteCode);
    }
    var t := st.teams[found.value];
    var refusal := JoinRefusal(t, user);
    if refusal.Some? {
      return Err(refusal.value);
    }
    var joined := t.(members := t.members + [PendingEntry(user, now)]);
    st.SaveTeam(found.value, joined);
    r := Ok(joined);
  }

  /** inviteMember: only the leader invites, a user found by email who has no
      entry yet; no status or capacity check. The schema's `lowercase`
      setter lower-cases the address in the lookup. */
  method InviteMember(st: Store, requester: UserId, teamId: TeamId, email: string, now: Time)
    returns (r: Result<Team, TeamError>)
    requires st.Valid()
    modifies st
    ensures st.Valid()
    ensures teamId >= |old(st.teams)| ==> r == Err(TeamNotFound) && st.State() == old(st.State())
    ensures teamId < |old(st.teams)| ==>
      var t := old(st.teams)[teamId];
      var target := FindUserByEmail(old(st.users), Lower(email));
      && (t.leader != requester ==> r == Err(OnlyLeaderCanInvite) && st.State() == old(st.State()))
      && (t.leader == requester && target.None? ==> r == Err(UserNotFound) && st.State() == old(st.State()))
      && (t.leader == requester && target.Some? && HasEntry(t.members, target.value) ==>
            r == Err(AlreadyInvited) && st.State() == old(st.State()))
      && (t.leader == requester && target.Some? && !HasEntry(t.members, target.value) ==>
            && r == Ok(t.(members := t.members + [PendingEntry(target.value, now)]))
            && st.State() == old(st.State()).(teams := old(st.teams)[teamId := r.value]))
  {
    if teamId >= |st.teams| {
      return Err(TeamNotFound);
    }
    var t := st.teams[teamId];
    if t.leader != requester {
      return Err(OnlyLeaderCanInvite);
    }
    var target := FindUserByEmail(st.users, Lower(email));
    if target.None? {
      return Err(UserNotFound);
    }
    if HasEntry(t.members, target.value) {
      return Err(AlreadyInvited);
    }
    var invited := t.(members := t.members + [PendingEntry(target.value, now)]);
    st.SaveTeam(teamId, invited);
    r := Ok(invited);
  }

  /** The fan-out of a completed team from the database `db`. */
  ghost function Fanned(db: Database, t: Team, ticketFor: UserId -> Bytes6): Fanout {
    Enlist(Fanout(db.registrations, 0, false), |db.users|, Roster(t), t.event, t.id, ticketFor)
  }

  /** The event with `n` more registrations counted. */
  function Bumped(e: Event, n: int): (r: Event)
    ensures r.registrationCount == e.registrationCount + n
    ensures r.(registrationCount := e.registrationCount) == e
  {
    e.(registrationCount := e.registrationCount + n)
  }

  /** The database after completeTeamRegistration of `t` from `db`. */
  ghost function AfterCompletion(db: Database, t: Team, ticketFor: UserId -> Bytes6): Database
    requires t.event < |db.events| && t.id < |db.teams|
  {
    var f := Fanned(db, t, ticketFor);
    db.(registrations := f.regs,
        events := db.events[t.event := Bumped(db.events[t.event], f.added)],
        teams := if f.aborted then db.teams else db.teams[t.id := t.(status := Complete)])
  }

  lemma EnlistStep(acc: Fanout, userCount: nat, users: seq<UserId>, eventId: EventId, teamId: TeamId,
                   ticketFor: UserId -> Bytes6)
    requires users != [] && !acc.aborted
    ensures Enlist(acc, userCount, users, eventId, teamId, ticketFor)
         == Enlist(EnlistOne(acc, userCount, users[0], eventId, teamId, ticketFor), userCount, users[1..],
                   eventId, teamId, ticketFor)
  {
  }

  /** One turn of the completion loop on the store, for user `u`, from the
      point `acc` reached from the database `db0`; says whether a refused
      insert ends the loop. */
  method EnlistUser(st: Store, ghost db0: Database, ghost acc: Fanout, u: UserId, eventId: EventId,
                    teamId: TeamId, ticketFor: UserId -> Bytes6)
    returns (aborted: bool)
    requires st.Valid() && eventId < |db0.events| && !acc.aborted
    requires st.State() == db0.(registrations := acc.regs,
                                events := db0.events[eventId := Bumped(db0.events[eventId], acc.added)])
    modifies st
    ensures st.Valid()
    ensures var next := EnlistOne(acc, |db0.users|, u, eventId, teamId, ticketFor);
      && aborted == next.aborted
      && st.State() == db0.(registrations := next.regs,
                            events := db0.events[eventId := Bumped(db0.events[eventId], next.added)])
  {
    if u < |st.users| && !HasAnyRegistration(st.registrations, u, eventId) {
      if TicketTaken(st.registrations, TicketId(ticketFor(u))) {
        return true;
      }
      st.InsertRegistration(TeamRegistration(|st.registrations|, ticketFor(u), u, eventId, teamId));
      var e := st.events[eventId];
      st.SaveEvent(eventId, Bumped(e, 1));
      assert db0.events[eventId := Bumped(db0.events[eventId], acc.added)][eventId := Bumped(e, 1)]
          == db0.events[eventId := Bumped(db0.events[eventId], acc.added + 1)];
    }
    aborted := false;
  }

  /** completeTeamRegistration: registers the leader and then each accepted
      member, skipping users without a document or with a registration for
      the event, counting each new registration on the event; `ticketFor`
      gives each user's ticket draw. A refused insert ends the loop, keeping
      what was created so far; otherwise the team is saved as complete. */
  method CompleteTeamRegistration(st: Store, teamId: TeamId, ticketFor: UserId -> Bytes6)
    requires st.Valid() && teamId < |st.teams|
    modifies st
    ensures st.Valid()
    ensures st.State() == AfterCompletion(old(st.State()), old(st.teams)[teamId], ticketFor)
  {
    var t := st.teams[teamId];
    var eventId := t.event;
    var users := Roster(t);
    ghost var db0 := st.State();
    ghost var start := Fanout(st.registrations, 0, false);
    ghost var acc := start;
    var i := 0;
    assert users[0..] == users;
    while i < |users|
      invariant 0 <= i <= |users|
      invariant st.Valid() && !acc.aborted
      invariant Enlist(start, |db0.users|, users, eventId, teamId, ticketFor)
             == Enlist(acc, |db0.users|, users[i..], eventId, teamId, ticketFor)
      invariant st.State() == db0.(registrations := acc.regs, events := db0.events[eventId := Bumped(db0.events[eventId], acc.added)])
    {
      var u := users[i];
      assert users[i..][0] == u && users[i..][1..] == users[i + 1..];
      EnlistStep(acc, |db0.users|, users[i..], eventId, teamId, ticketFor);
      var aborted := EnlistUser(st, db0, acc, u, eventId, teamId, ticketFor);
      acc := EnlistOne(acc, |db0.users|, u, eventId, teamId, ticketFor);
      if aborted {
        return;
      }
      i := i + 1;
    }
    assert users[i..] == [];
    st.SaveTeam(teamId, t.(status := Complete));
  }

  /** respondInvite by `user`: the user's first entry takes the answer; an
      acceptance that brings the team to its size completes the team and
      registers its members. The team's own status is not checked. */
  method RespondInvite(st: Store, user: UserId, teamId: TeamId, action: string, now: Time,
                       ticketFor: UserId -> Bytes6)
    returns (r: Result<Team, TeamError>)
    requires st.Valid()
    modifies st
    ensures st.Valid()
    ensures teamId >= |old(st.teams)| ==> r == Err(TeamNotFound) && st.State() == old(st.State())
    ensures teamId < |old(st.teams)| ==>
      var t := old(st.teams)[teamId];
      var k := FindMember(t.members, user);
      && (k.None? ==> r == Err(NoInvite) && st.State() == old(st.State()))
      && (k.Some? ==>
            var answered := Responded(t, k.value, action, now);
            && (!Completes(answered, action) ==>
                  r == Ok(answered) && st.State() == old(st.State()).(teams := old(st.teams)[teamId := answered]))
            && (Completes(answered, action) ==>
                  var complete := answered.(status := Complete);
                  && r == Ok(complete)
                  && st.State() == AfterCompletion(old(st.State()).(teams := old(st.teams)[teamId := complete]),
                                                   complete, ticketFor)))
  {
    if teamId >= |st.teams| {
      return Err(TeamNotFound);
    }
    var t := st.teams[teamId];
    var k := FindMember(t.members, user);
    if k.None? {
      return Err(NoInvite);
    }
    var answered := Responded(t, k.value, action, now);
    if Completes(answered, action) {
      var complete := answered.(status := Complete);
      st.SaveTeam(teamId, complete);
      CompleteTeamRegistration(st, teamId, ticketFor);
      r := Ok(complete);
    } else {
      st.SaveTeam(teamId, answered);
      r := Ok(answered);
    }
  }

  /** The team after `user` leaves it: the leader disbands it (members kept);
      anyone else loses every entry and a complete team is forming again. */
  function AfterLeave(t: Team, user: UserId): (r: Team)
    ensures t.leader == user ==> r == t.(status := TeamStatus.Cancelled)
    ensures t.leader != user ==> r.members == WithoutUser(t.members, user)
    ensures t.leader != user ==> r.status == (if t.status.Complete? then Forming else t.status)
    ensures r.leader == t.leader && r.event == t.event && r.inviteCode == t.inviteCode && r.maxSize == t.maxSize
  {
    if t.leader == user then t.(status := TeamStatus.Cancelled)
    else t.(members := WithoutUser(t.members, user), status := if t.status.Complete? then Forming else t.status)
  }

  /** After a non-leader leaves, the user is no longer in the team and the
      team has no more accepted members than before. Leaving a complete team
      reopens it even for a user who had no entry. */
  lemma LeaveFacts(t: Team, user: UserId)
    requires t.leader != user
    ensures !InTeam(AfterLeave(t, user), user)
    ensures AcceptedCount(AfterLeave(t, user)) <= AcceptedCount(t)
    ensures t.status.Complete? ==> AfterLeave(t, user).status.Forming?
  {
    WithoutUserFacts(t.members, user);
  }

  /** leaveTeam by `user`. */
  method LeaveTeam(st: Store, user: UserId, teamId: TeamId) returns (r: Result<(), TeamError>)
    requires st.Valid()
    modifies st
    ensures st.Valid()
    ensures teamId >= |old(st.teams)| ==> r == Err(TeamNotFound) && st.State() == old(st.State())
    ensures teamId < |old(st.teams)| ==>
      && r == Ok(())
      && st.State() == old(st.State()).(teams := old(st.teams)[teamId := AfterLeave(old(st.teams)[teamId], user)])
  {
    if teamId >= |st.teams| {
      return Err(TeamNotFound);
    }
    var t := st.teams[teamId];
    if t.leader == user {
      st.SaveTeam(teamId, t.(status := TeamStatus.Cancelled));
      return Ok(());
    }
    var left := t.(members := WithoutUser(t.members, user));
    if t.status.Complete? {
      left := left.(status := Forming);
    }
    st.SaveTeam(teamId, left);
    r := Ok(());
  }

  /** getMyTeams: the teams `user` leads or has an entry in, in order. */
  function MyTeams(teams: seq<Team>, user: UserId): (r: seq<Team>)
    ensures forall t :: t in r <==> t in teams && InTeam(t, user)
    ensures |r| <= |teams|
  {
    if teams == [] then []
    else MyTeams(teams[..|teams| - 1], user)
         + (if InTeam(teams[|teams| - 1], user) then [teams[|teams| - 1]] else [])
  }
}
