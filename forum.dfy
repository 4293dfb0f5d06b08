/** The discussion forum of an event (backend/controllers/forumController.js):
    who may read it, the newest-first paging that returns each page in
    chronological order, announcements, the organizer's pin toggle and soft
    delete, and emoji reactions that toggle the reacting user. */
module Forum {
  import opened Outcome
  import opened Schema
  import opened Db

  datatype ForumError = NoAccess | NotYourEvent | MessageNotFound | InvalidMessage | NegativeSkip

  // ---------------------------------------------------------------------
  // Access
  // ---------------------------------------------------------------------

  /** canAccess: an organizer must own the event; anyone else (participant
      or admin) needs a registration for it that is not cancelled. */
  function CanAccess(db: Database, who: Principal, eventId: EventId): (ok: bool)
    ensures who.AsOrganizer? ==> (ok <==> OwnsEvent(db.events, who.organizerId, eventId))
    ensures who.AsUser? ==> (ok <==> HasLiveRegistration(db.registrations, who.userId, eventId))
  {
    match who
    case AsOrganizer(org) => eventId < |db.events| && db.events[eventId].organizer == org
    case AsUser(user) => FindLive(db.registrations, user, eventId).Some?
  }

  /** `Registration.findOne({ user, event, status: { $ne: 'cancelled' } })`. */
  function FindLive(regs: seq<Registration>, user: UserId, eventId: EventId): (r: Option<RegistrationId>)
    ensures r.Some? ==> r.value < |regs| && regs[r.value].user == user && regs[r.value].event == eventId
                        && !regs[r.value].status.Cancelled?
    ensures r.None? <==> !HasLiveRegistration(regs, user, eventId)
  {
    if regs == [] then None
    else match FindLive(regs[..|regs| - 1], user, eventId)
      case Some(i) => Some(i)
      case None =>
        var last := regs[|regs| - 1];
        if last.user == user && last.event == eventId && !last.status.Cancelled? then Some(|regs| - 1) else None
  }

  // ---------------------------------------------------------------------
  // Reading: getMessages
  // ---------------------------------------------------------------------

  /** The event's messages that are not deleted, oldest first. */
  function Live(msgs: seq<ForumMessage>, eventId: EventId): (r: seq<ForumMessage>)
    ensures |r| <= |msgs|
    ensures forall m :: m in r <==> m in msgs && m.event == eventId && !m.isDeleted
  {
    if msgs == [] then []
    else
      var last := msgs[|msgs| - 1];
      var init := Live(msgs[..|msgs| - 1], eventId);
      assert forall m :: m in msgs <==> m in msgs[..|msgs| - 1] || m == last;
      if last.event == eventId && !last.isDeleted then init + [last] else init
  }

  function Reverse<T>(s: seq<T>): (r: seq<T>)
    ensures |r| == |s| && forall i :: 0 <= i < |s| ==> r[i] == s[|s| - 1 - i]
  {
    seq(|s|, i requires 0 <= i < |s| => s[|s| - 1 - i])
  }

  /** A window of a reversed sequence, reversed back, is a window of the
      original sequence. */
  lemma ReverseWindow<T>(s: seq<T>, a: nat, b: nat)
    requires a <= b <= |s|
    ensures Reverse(Reverse(s)[a..b]) == s[|s| - b..|s| - a]
  {
    var w := Reverse(s)[a..b];
    var r := Reverse(w);
    var t := s[|s| - b..|s| - a];
    assert |r| == |t| == b - a;
    forall i | 0 <= i < b - a ensures r[i] == t[i] {
      var j := b - a - 1 - i;
      var k := a + j;
      assert r[i] == w[j];
      assert w[j] == Reverse(s)[k];
      assert Reverse(s)[k] == s[|s| - 1 - k];
      assert t[i] == s[|s| - b + i];
    }
  }

  /** `.skip(skip).limit(limit)`: a limit of 0 means no limit. */
  function Window<T>(s: seq<T>, skip: nat, limit: nat): (r: seq<T>)
    ensures skip >= |s| ==> r == []
    ensures skip < |s| && (limit == 0 || skip + limit >= |s|) ==> r == s[skip..]
    ensures skip < |s| && limit != 0 && skip + limit < |s| ==> r == s[skip..skip + limit]
  {
    if skip >= |s| then []
    else if limit == 0 || skip + limit >= |s| then s[skip..]
    else s[skip..skip + limit]
  }

  /** The page shown: `skip`/`limit` applied newest first, then reversed. */
  function Page(live: seq<ForumMessage>, skip: nat, limit: nat): (r: seq<ForumMessage>)
    ensures forall m :: m in r ==> m in live
  {
    var w := Window(Reverse(live), skip, limit);
    assert forall m :: m in w ==> m in Reverse(live);
    Reverse(w)
  }

  /** A page is a contiguous run of the messages in chronological order:
      page 1 ends with the newest message, and each further page ends where
      the previous one began. */
  lemma PageIsChronologicalRun(live: seq<ForumMessage>, skip: nat, limit: nat)
    ensures var hi := if skip >= |live| then 0 else |live| - skip;
      var lo := if limit == 0 || limit >= hi then 0 else hi - limit;
      Page(live, skip, limit) == live[lo..hi]
  {
    if skip >= |live| {
    } else if limit == 0 || skip + limit >= |live| {
      ReverseWindow(live, skip, |live|);
    } else {
      ReverseWindow(live, skip, skip + limit);
    }
  }

  /** getMessages: page `page` (from 1) of `limit` messages. A page below 1
      asks for a negative skip, which the database refuses. */
  function GetMessages(db: Database, who: Principal, eventId: EventId, page: int, limit: nat)
    : (r: Result<seq<ForumMessage>, ForumError>)
    ensures r == Err(NoAccess) <==> !CanAccess(db, who, eventId)
    ensures r == Err(NegativeSkip) <==> CanAccess(db, who, eventId) && (page - 1) * limit < 0
    ensures CanAccess(db, who, eventId) && (page - 1) * limit >= 0 ==> r.Ok?
    ensures r.Ok? ==> r.value == Page(Live(db.messages, eventId), (page - 1) * limit, limit)
    ensures r.Ok? ==> forall m :: m in r.value ==> m in db.messages && m.event == eventId && !m.isDeleted
  {
    if !CanAccess(db, who, eventId) then Err(NoAccess)
    else if (page - 1) * limit < 0 then Err(NegativeSkip)
    else Ok(Page(Live(db.messages, eventId), (page - 1) * limit, limit))
  }

  // ---------------------------------------------------------------------
  // Organizer moderation
  // ---------------------------------------------------------------------

  const MaxContentLength := 2000
  const DeletedContent := "[Message deleted]"

  /** postAnnouncement by `org`, shown under `name`. The content must be
      present and at most 2000 characters (schema validators). */
  method PostAnnouncement(st: Store, org: OrganizerId, name: string, eventId: EventId, content: string)
    returns (r: Result<ForumMessage, ForumError>)
    requires st.Valid()
    modifies st
    ensures st.Valid()
    ensures !OwnsEvent(old(st.events), org, eventId) ==> r == Err(NotYourEvent) && st.State() == old(st.State())
    ensures OwnsEvent(old(st.events), org, eventId) && (content == "" || |content| > MaxContentLength) ==>
      r == Err(InvalidMessage) && st.State() == old(st.State())
    ensures OwnsEvent(old(st.events), org, eventId) && content != "" && |content| <= MaxContentLength ==>
      && r == Ok(ForumMessage(old(|st.messages|), eventId, AsOrganizer(org), name, content, true, false, false, []))
      && st.State() == old(st.State()).(messages := old(st.messages) + [r.value])
  {
    if !OwnsEvent(st.events, org, eventId) {
      return Err(NotYourEvent);
    }
    if content == "" || |content| > MaxContentLength {
      return Err(InvalidMessage);
    }
    var m := ForumMessage(|st.messages|, eventId, AsOrganizer(org), name, content, true, false, false, []);
    st.InsertMessage(m);
    r := Ok(m);
  }

  /** The message with its pin flag flipped. */
  function TogglePin(m: ForumMessage): (r: ForumMessage)
    ensures r.isPinned == !m.isPinned
    ensures r.(isPinned := m.isPinned) == m
  {
    m.(isPinned := !m.isPinned)
  }

  /** The message after a soft delete: kept, flagged, its text replaced. */
  function SoftDeleted(m: ForumMessage): (r: ForumMessage)
    ensures r.isDeleted && r.content == DeletedContent
    ensures r.(isDeleted := m.isDeleted, content := m.content) == m
  {
    m.(isDeleted := true, content := DeletedContent)
  }

  /** pinMessage by `org`. The update goes by message id alone: the message
      need not belong to `eventId`, and a missing one yields no message. */
  method PinMessage(st: Store, org: OrganizerId, eventId: EventId, msgId: MessageId)
    returns (r: Result<Option<ForumMessage>, ForumError>)
    requires st.Valid()
    modifies st
    ensures st.Valid()
    ensures !OwnsEvent(old(st.events), org, eventId) ==> r == Err(NotYourEvent) && st.State() == old(st.State())
    ensures OwnsEvent(old(st.events), org, eventId) && msgId >= old(|st.messages|) ==>
      r == Ok(None) && st.State() == old(st.State())
    ensures OwnsEvent(old(st.events), org, eventId) && msgId < old(|st.messages|) ==>
      && r == Ok(Some(TogglePin(old(st.messages)[msgId])))
      && st.State() == old(st.State()).(messages := old(st.messages)[msgId := r.value.value])
  {
    if !OwnsEvent(st.events, org, eventId) {
      return Err(NotYourEvent);
    }
    if msgId >= |st.messages| {
      return Ok(None);
    }
    var m := TogglePin(st.messages[msgId]);
    st.SaveMessage(msgId, m);
    r := Ok(Some(m));
  }

  /** deleteMessage by `org`: by message id alone, like pinning; a missing
      message changes nothing and still reports success. */
  method DeleteMessage(st: Store, org: OrganizerId, eventId: EventId, msgId: MessageId)
    returns (r: Result<(), ForumError>)
    requires st.Valid()
    modifies st
    ensures st.Valid()
    ensures !OwnsEvent(old(st.events), org, eventId) ==> r == Err(NotYourEvent) && st.State() == old(st.State())
    ensures OwnsEvent(old(st.events), org, eventId) && msgId >= old(|st.messages|) ==>
      r == Ok(()) && st.State() == old(st.State())
    ensures OwnsEvent(old(st.events), org, eventId) && msgId < old(|st.messages|) ==>
      && r == Ok(())
      && st.State() == old(st.State()).(messages := old(st.messages)[msgId := SoftDeleted(old(st.messages)[msgId])])
  {
    if !OwnsEvent(st.events, org, eventId) {
      return Err(NotYourEvent);
    }
    if msgId < |st.messages| {
      st.SaveMessage(msgId, SoftDeleted(st.messages[msgId]));
    }
    r := Ok(());
  }

  /** A soft-deleted message no longer appears in any page of the forum. */
  lemma DeletedHidden(db: Database, msgId: MessageId, who: Principal, eventId: EventId, page: int, limit: nat)
    requires msgId < |db.messages| && MessagesIndexed(db.messages)
    ensures var db2 := db.(messages := db.messages[msgId := SoftDeleted(db.messages[msgId])]);
      GetMessages(db2, who, eventId, page, limit).Ok? ==>
        forall m :: m in GetMessages(db2, who, eventId, page, limit).value ==> m.id != msgId
  {
    var db2 := db.(messages := db.messages[msgId := SoftDeleted(db.messages[msgId])]);
    if GetMessages(db2, who, eventId, page, limit).Ok? {
      forall m | m in GetMessages(db2, who, eventId, page, limit).value ensures m.id != msgId {
        var k :| 0 <= k < |db2.messages| && db2.messages[k] == m;
        assert k != msgId;
        assert db.messages[k] == m;
      }
    }
  }

  // ---------------------------------------------------------------------
  // Reactions
  // ---------------------------------------------------------------------

  /** `msg.reactions.find(r => r.emoji === emoji)`: the first entry. */
  function FindReaction(rs: seq<Reaction>, emoji: string): (r: Option<nat>)
    ensures r.Some? ==> r.value < |rs| && rs[r.value].emoji == emoji
                        && forall k :: 0 <= k < r.value ==> rs[k].emoji != emoji
    ensures r.None? <==> forall k :: 0 <= k < |rs| ==> rs[k].emoji != emoji
  {
    if rs == [] then None
    else if rs[0].emoji == emoji then Some(0)
    else match FindReaction(rs[1..], emoji)
      case Some(k) => Some(k + 1)
      case None => None
  }

  /** `users.findIndex(u => u === who)`: the first position, if any. */
  function IndexOf(users: seq<Principal>, who: Principal): (r: Option<nat>)
    ensures r.Some? ==> r.value < |users| && users[r.value] == who && who !in users[..r.value]
    ensures r.None? <==> who !in users
  {
    if users == [] then None
    else if users[0] == who then Some(0)
    else match IndexOf(users[1..], who)
      case Some(k) =>
        assert users[..k + 1] == [users[0]] + users[1..][..k];
        Some(k + 1)
      case None => None
  }

  /** The reacting user is removed from the list (`splice` at the first
      occurrence) when present and appended otherwise. */
  function ToggleUser(users: seq<Principal>, who: Principal): (r: seq<Principal>)
    ensures who !in users ==> r == users + [who]
    ensures who in users ==> multiset(r) == multiset(users) - multiset{who} && |r| == |users| - 1
  {
    match IndexOf(users, who)
    case None => users + [who]
    case Some(k) =>
      assert users == users[..k] + [users[k]] + users[k + 1..];
      users[..k] + users[k + 1..]
  }

  predicate Distinct(users: seq<Principal>) {
    forall a, b :: 0 <= a < b < |users| ==> users[a] != users[b]
  }

  /** Removing the entry at `k` from a list without repeats: no repeats
      remain, exactly that entry is gone, every other entry stays. */
  lemma RemoveAtDistinct(users: seq<Principal>, k: nat)
    requires Distinct(users) && k < |users|
    ensures Distinct(users[..k] + users[k + 1..])
    ensures forall p :: p in users[..k] + users[k + 1..] <==> p in users && p != users[k]
  {
    var r := users[..k] + users[k + 1..];
    assert forall i :: 0 <= i < |r| ==> r[i] == users[if i < k then i else i + 1];
    forall p | p in users && p != users[k] ensures p in r {
      var j :| 0 <= j < |users| && users[j] == p;
      assert r[if j < k then j else j - 1] == p;
    }
  }

  /** Toggling keeps a list free of repeats and flips whether the user is in it. */
  lemma ToggleFlips(users: seq<Principal>, who: Principal)
    requires Distinct(users)
    ensures Distinct(ToggleUser(users, who))
    ensures who in ToggleUser(users, who) <==> who !in users
    ensures forall p :: p != who ==> (p in ToggleUser(users, who) <==> p in users)
  {
    match IndexOf(users, who)
    case None =>
      var r := users + [who];
      assert forall i :: 0 <= i < |users| ==> r[i] == users[i];
    case Some(k) =>
      RemoveAtDistinct(users, k);
  }

  /** Reacting twice in a row with the same emoji: a user who had not
      reacted ends with the list exactly as before; one who had ends with
      the same users, themself moved to the end. */
  lemma {:induction false} ToggleTwice(users: seq<Principal>, who: Principal)
    ensures who !in users ==> ToggleUser(ToggleUser(users, who), who) == users
    ensures who in users && Distinct(users) ==>
      multiset(ToggleUser(ToggleUser(users, who), who)) == multiset(users)
  {
    if who !in users {
      var once := users + [who];
      assert once[|users|] == who && once[..|users|] == users;
      assert IndexOf(once, who) == Some(|users|);
    } else if Distinct(users) {
      ToggleFlips(users, who);
    }
  }

  /** The reactions after `who` reacts with `emoji`: a new entry holding
      just that user, or the existing entry with the user toggled. */
  function React(rs: seq<Reaction>, emoji: string, who: Principal): (r: seq<Reaction>)
    ensures FindReaction(rs, emoji).None? ==> r == rs + [Reaction(emoji, [who])]
    ensures FindReaction(rs, emoji).Some? ==>
      var k := FindReaction(rs, emoji).value;
      r == rs[k := rs[k].(users := ToggleUser(rs[k].users, who))]
  {
    match FindReaction(rs, emoji)
    case None => rs + [Reaction(emoji, [who])]
    case Some(k) => rs[k := rs[k].(users := ToggleUser(rs[k].users, who))]
  }

  /** Reacting twice with an emoji nobody had used leaves an entry for it
      with no users: the entry itself is never removed. */
  lemma {:induction false} ReactTwiceNewEmoji(rs: seq<Reaction>, emoji: string, who: Principal)
    requires FindReaction(rs, emoji).None?
    ensures React(React(rs, emoji, who), emoji, who) == rs + [Reaction(emoji, [])]
  {
    var once := rs + [Reaction(emoji, [who])];
    assert once[|rs|].emoji == emoji;
    assert FindReaction(once, emoji) == Some(|rs|) by {
      var k := FindReaction(once, emoji).value;
      assert forall j :: 0 <= j < |rs| ==> once[j] == rs[j];
    }
    assert IndexOf([who], who) == Some(0);
  }

  /** reactToMessage by `who`. There is no access check: any signed-in user
      can react to any message. */
  method ReactToMessage(st: Store, who: Principal, msgId: MessageId, emoji: string)
    returns (r: Result<ForumMessage, ForumError>)
    requires st.Valid()
    modifies st
    ensures st.Valid()
    ensures msgId >= old(|st.messages|) ==> r == Err(MessageNotFound) && st.State() == old(st.State())
    ensures msgId < old(|st.messages|) ==>
      var m := old(st.messages)[msgId];
      && r == Ok(m.(reactions := React(m.reactions, emoji, who)))
      && st.State() == old(st.State()).(messages := old(st.messages)[msgId := r.value])
  {
    if msgId >= |st.messages| {
      return Err(MessageNotFound);
    }
    var m := st.messages[msgId];
    var reacted := m.(reactions := React(m.reactions, emoji, who));
    st.SaveMessage(msgId, reacted);
    r := Ok(reacted);
  }
}
