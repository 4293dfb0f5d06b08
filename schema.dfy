/** The documents of the platform: one datatype per Mongoose schema of
    backend/models, with the schema's enums as datatypes, its defaults as
    constants, and the `acceptedCount` virtual and the generated identifiers
    (ticket ids, invite codes) as functions. */
module Schema {
  import opened Outcome

  // ---------------------------------------------------------------------
  // Identifiers and scalar types
  // ---------------------------------------------------------------------

  /** Document ids. Each collection numbers its documents from 0 upwards. */
  type UserId = nat
  type OrganizerId = nat
  type EventId = nat
  type RegistrationId = nat
  type TeamId = nat
  type AttendanceId = nat
  type FeedbackId = nat
  type RequestId = nat
  type MessageId = nat
  type VariantId = nat

  /** A point in time, in milliseconds since the epoch. */
  type Time = int

  /** An amount of money, in whole currency units. */
  type Money = int

  type Byte = b: int | 0 <= b < 256

  /** Output of `crypto.randomBytes(n)` for the sizes the source draws. */
  type Bytes5 = s: seq<Byte> | |s| == 5 witness [0, 0, 0, 0, 0]
  type Bytes6 = s: seq<Byte> | |s| == 6 witness [0, 0, 0, 0, 0, 0]
  type Bytes8 = s: seq<Byte> | |s| == 8 witness [0, 0, 0, 0, 0, 0, 0, 0]

  /** Who sent a request: a participant or admin (a User document) or an
      organizer (an Organizer document). The two live in different collections,
      so their ids are kept apart by this tag. */
  datatype Principal = AsUser(userId: UserId) | AsOrganizer(organizerId: OrganizerId)

  // ---------------------------------------------------------------------
  // Hex encoding (`buf.toString('hex')`, optionally `.toUpperCase()`)
  // ---------------------------------------------------------------------

  function HexDigit(n: int, upper: bool): (c: char)
    requires 0 <= n < 16
    ensures IsHexChar(c, upper)
  {
    if n < 10 then ('0' as int + n) as char
    else if upper then ('A' as int + n - 10) as char
    else ('a' as int + n - 10) as char
  }

  predicate IsHexChar(c: char, upper: bool) {
    ('0' <= c <= '9') || (upper && 'A' <= c <= 'F') || (!upper && 'a' <= c <= 'f')
  }

  /** Two hex characters per byte, high nibble first. */
  function Hex(bytes: seq<Byte>, upper: bool): (s: string)
    ensures |s| == 2 * |bytes|
    ensures forall i :: 0 <= i < |s| ==> IsHexChar(s[i], upper)
  {
    if bytes == [] then []
    else [HexDigit(bytes[0] / 16, upper), HexDigit(bytes[0] % 16, upper)] + Hex(bytes[1..], upper)
  }

  lemma HexDigitInjective(m: int, n: int, upper: bool)
    requires 0 <= m < 16 && 0 <= n < 16
    requires HexDigit(m, upper) == HexDigit(n, upper)
    ensures m == n
  {
  }

  /** Distinct byte strings of one length have distinct hex encodings. */
  lemma {:induction false} HexInjective(a: seq<Byte>, b: seq<Byte>, upper: bool)
    requires |a| == |b|
    requires Hex(a, upper) == Hex(b, upper)
    ensures a == b
  {
    if a != [] {
      var ha, hb := Hex(a, upper), Hex(b, upper);
      assert ha[0] == hb[0] && ha[1] == hb[1];
      HexDigitInjective(a[0] / 16, b[0] / 16, upper);
      HexDigitInjective(a[0] % 16, b[0] % 16, upper);
      assert a[0] == b[0];
      assert ha[2..] == Hex(a[1..], upper);
      assert hb[2..] == Hex(b[1..], upper);
      HexInjective(a[1..], b[1..], upper);
      assert a == [a[0]] + a[1..] && b == [b[0]] + b[1..];
    }
  }

  /** The default ticket id of a registration: `TKT-` and six random bytes in
      upper-case hex. */
  function TicketId(bytes: Bytes6): (t: string)
    ensures |t| == 16 && t[..4] == "TKT-"
    ensures forall i :: 4 <= i < 16 ==> IsHexChar(t[i], true)
  {
    "TKT-" + Hex(bytes, true)
  }

  /** Distinct random draws give distinct ticket ids, so the unique index on
      `ticketId` only rejects a repeated draw. */
  lemma TicketIdInjective(a: Bytes6, b: Bytes6)
    requires TicketId(a) == TicketId(b)
    ensures a == b
  {
    assert TicketId(a)[4..] == Hex(a, true);
    assert TicketId(b)[4..] == Hex(b, true);
    HexInjective(a, b, true);
  }

  /** The default invite code of a team: five random bytes in upper-case hex. */
  function InviteCode(bytes: Bytes5): (c: string)
    ensures |c| == 10
    ensures forall i :: 0 <= i < 10 ==> IsHexChar(c[i], true)
  {
    Hex(bytes, true)
  }

  lemma InviteCodeInjective(a: Bytes5, b: Bytes5)
    requires InviteCode(a) == InviteCode(b)
    ensures a == b
  {
    HexInjective(a, b, true);
  }

  /** A generated password: eight random bytes in lower-case hex. */
  function GeneratedPassword(bytes: Bytes8): (p: string)
    ensures |p| == 16
    ensures forall i :: 0 <= i < 16 ==> IsHexChar(p[i], false)
  {
    Hex(bytes, false)
  }

  // ---------------------------------------------------------------------
  // Event (backend/models/Event.js)
  // ---------------------------------------------------------------------

  datatype EventType = Normal | Merchandise | Hackathon
  datatype Eligibility = All | IiitOnly | NonIiitOnly
  datatype EventStatus = Draft | Published | Ongoing | Completed | Cancelled

  const DefaultEligibility := All
  const DefaultEventStatus := Draft
  const DefaultTeamSize := 2
  const DefaultPurchaseLimit := 1

  datatype FieldKind = TextField | TextArea | Dropdown | Checkbox | Radio | NumberField | EmailField | DateField

  datatype FormField = FormField(fieldLabel: string, kind: FieldKind, options: seq<string>,
                                 required: bool, placeholder: Option<string>, order: int)

  /** A merchandise variant; `stock` defaults to 0, `price` and `variantName`
      are required. */
  datatype Variant = Variant(id: VariantId, variantName: string, size: Option<string>,
                             color: Option<string>, sku: Option<string>, stock: int, price: Money)

  const DefaultStock := 0

  datatype Event = Event(
    id: EventId,
    organizer: OrganizerId,
    name: string,
    description: string,
    eventType: EventType,
    eligibility: Eligibility,
    startDate: Time,
    endDate: Time,
    registrationDeadline: Time,
    registrationLimit: int,
    registrationCount: int,
    registrationFee: Money,
    tags: seq<string>,
    venue: Option<string>,
    imageUrl: Option<string>,
    status: EventStatus,
    customForm: seq<FormField>,
    formLocked: bool,
    merchandiseItems: seq<Variant>,
    purchaseLimit: int,
    teamSize: int,
    requiresPaymentApproval: bool,
    viewCount: int,
    revenue: Money,
    createdAt: Time)

  // ---------------------------------------------------------------------
  // Registration (backend/models/Registration.js)
  // ---------------------------------------------------------------------

  datatype RegStatus = Active | Cancelled | Completed
  datatype PayStatus = NotRequired | Pending | Approved | Rejected

  const DefaultRegStatus := RegStatus.Active
  const DefaultPayStatus := PayStatus.NotRequired
  const DefaultQuantity := 1

  datatype FormResponse = FormResponse(fieldLabel: string, value: string)

  /** One purchased variant; `priceAtPurchase` is filled in by registration. */
  datatype Purchase = Purchase(variantId: VariantId, size: Option<string>, color: Option<string>,
                               quantity: int, priceAtPurchase: Option<Money>)

  /** The JSON that a ticket's QR image encodes. The image itself is produced
      by a library and is not modelled; a registration holds the payload. */
  datatype QrPayload =
    | TicketQr(ticketId: string, eventId: EventId, userId: UserId)
    | TeamQr(userId: UserId, eventId: EventId, teamId: TeamId)

  datatype Registration = Registration(
    id: RegistrationId,
    ticketId: string,
    user: UserId,
    event: EventId,
    registrationType: EventType,
    status: RegStatus,
    formResponses: seq<FormResponse>,
    purchases: seq<Purchase>,
    totalAmount: Money,
    paymentProofUrl: Option<string>,
    paymentStatus: PayStatus,
    paymentReviewedBy: Option<OrganizerId>,
    paymentReviewedAt: Option<Time>,
    team: Option<TeamId>,
    qrCode: Option<QrPayload>,
    emailSent: bool)

  // ---------------------------------------------------------------------
  // Team (backend/models/Team.js)
  // ---------------------------------------------------------------------

  datatype MemberStatus = Pending | Accepted | Declined
  datatype TeamStatus = Forming | Complete | Incomplete | Cancelled

  const DefaultMemberStatus := MemberStatus.Pending
  const DefaultTeamStatus := Forming

  datatype Member = Member(user: UserId, status: MemberStatus, invitedAt: Time, respondedAt: Option<Time>)

  datatype Team = Team(
    id: TeamId,
    name: string,
    event: EventId,
    leader: UserId,
    members: seq<Member>,
    maxSize: int,
    inviteCode: string,
    status: TeamStatus,
    registrationId: Option<RegistrationId>)

  /** Number of member entries with status `accepted`. */
  function CountAccepted(members: seq<Member>): (n: nat)
    ensures n <= |members|
    ensures n == 0 <==> forall i :: 0 <= i < |members| ==> !members[i].status.Accepted?
  {
    if members == [] then 0
    else CountAccepted(members[..|members| - 1]) + (if members[|members| - 1].status.Accepted? then 1 else 0)
  }

  lemma {:induction false} CountAcceptedAppend(members: seq<Member>, m: Member)
    ensures CountAccepted(members + [m]) == CountAccepted(members) + (if m.status.Accepted? then 1 else 0)
  {
    assert (members + [m])[..|members + [m]| - 1] == members;
  }

  /** The `acceptedCount` virtual: accepted member entries plus one for the leader. */
  function AcceptedCount(t: Team): (n: nat)
    ensures 1 <= n <= |t.members| + 1
  {
    CountAccepted(t.members) + 1
  }

  // ---------------------------------------------------------------------
  // Attendance (backend/models/Attendance.js)
  // ---------------------------------------------------------------------

  datatype CheckInMethod = QrScan | Manual
  datatype AuditAction = CheckIn | Revert

  const DefaultCheckInMethod := QrScan
  const DefaultManualOverride := false

  datatype AuditEntry = AuditEntry(actor: OrganizerId, at: Time, reason: Option<string>, action: AuditAction)

  datatype Attendance = Attendance(
    id: AttendanceId,
    event: EventId,
    registration: RegistrationId,
    user: UserId,
    checkedInAt: Time,
    checkInMethod: CheckInMethod,
    markedBy: OrganizerId,
    isManualOverride: bool,
    overrideReason: Option<string>,
    overrideAudit: seq<AuditEntry>)

  // ---------------------------------------------------------------------
  // Feedback (backend/models/Feedback.js)
  // ---------------------------------------------------------------------

  /** An anonymous rating: the author is kept only as a hash, and there is no
      user reference. A rating is any number, so it is kept as a `real`. */
  datatype Feedback = Feedback(id: FeedbackId, event: EventId, userHash: string,
                               rating: real, comment: Option<string>)

  const MinRating := 1.0
  const MaxRating := 5.0
  const MaxCommentLength := 1000

  /** The schema validators that `Feedback.create` runs. */
  predicate FeedbackValid(f: Feedback) {
    && MinRating <= f.rating <= MaxRating
    && (f.comment.Some? ==> |f.comment.value| <= MaxCommentLength)
  }

  // ---------------------------------------------------------------------
  // Identities (backend/models/User.js, Organizer.js, PasswordResetRequest.js)
  // ---------------------------------------------------------------------

  datatype ParticipantType = Iiit | NonIiit
  datatype UserRole = Participant | Admin
  datatype OrgStatus = Active | Disabled | Archived
  datatype RequestStatus = Pending | Approved | Rejected

  /** `password` holds the credential the account logs in with; bcrypt
      hashing is left out, so a password matches exactly when it is equal. */
  datatype User = User(
    id: UserId,
    firstName: string,
    lastName: string,
    email: string,
    password: string,
    contactNumber: Option<string>,
    collegeOrOrg: Option<string>,
    kind: ParticipantType,
    role: UserRole,
    areasOfInterest: seq<string>,
    followedClubs: seq<OrganizerId>,
    onboardingCompleted: bool,
    isActive: bool)

  datatype Organizer = Organizer(
    id: OrganizerId,
    name: string,
    category: string,
    contactEmail: string,
    contactNumber: Option<string>,
    description: Option<string>,
    password: string,
    discordWebhook: Option<string>,
    isActive: bool,
    isArchived: bool,
    status: OrgStatus,
    createdBy: Option<UserId>)

  datatype ResetRequest = ResetRequest(
    id: RequestId,
    organizer: OrganizerId,
    reason: string,
    status: RequestStatus,
    adminComment: Option<string>,
    resolvedBy: Option<UserId>,
    resolvedAt: Option<Time>,
    newPasswordPlain: Option<string>)

  // ---------------------------------------------------------------------
  // Forum (backend/models/ForumMessage.js)
  // ---------------------------------------------------------------------

  datatype Reaction = Reaction(emoji: string, users: seq<Principal>)

  datatype ForumMessage = ForumMessage(
    id: MessageId,
    event: EventId,
    sender: Principal,
    senderName: string,
    content: string,
    isAnnouncement: bool,
    isPinned: bool,
    isDeleted: bool,
    reactions: seq<Reaction>)

  // ---------------------------------------------------------------------
  // ASCII case mapping (String.prototype.toLowerCase / toUpperCase on ASCII)
  // ---------------------------------------------------------------------

  function LowerChar(c: char): char {
    if 'A' <= c <= 'Z' then (c as int - 'A' as int + 'a' as int) as char else c
  }

  function UpperChar(c: char): char {
    if 'a' <= c <= 'z' then (c as int - 'a' as int + 'A' as int) as char else c
  }

  /** Each upper-case ASCII letter becomes its lower-case partner, every
      other character is kept, and no upper-case ASCII letter remains. */
  function Lower(s: string): (r: string)
    ensures |r| == |s|
    ensures forall i :: 0 <= i < |s| && 'A' <= s[i] <= 'Z' ==> r[i] as int == s[i] as int + ('a' as int - 'A' as int)
    ensures forall i :: 0 <= i < |s| && !('A' <= s[i] <= 'Z') ==> r[i] == s[i]
    ensures forall i :: 0 <= i < |r| ==> !('A' <= r[i] <= 'Z')
  {
    seq(|s|, i requires 0 <= i < |s| => LowerChar(s[i]))
  }

  /** Each lower-case ASCII letter becomes its upper-case partner, every
      other character is kept, and no lower-case ASCII letter remains. */
  function Upper(s: string): (r: string)
    ensures |r| == |s|
    ensures forall i :: 0 <= i < |s| && 'a' <= s[i] <= 'z' ==> r[i] as int == s[i] as int - ('a' as int - 'A' as int)
    ensures forall i :: 0 <= i < |s| && !('a' <= s[i] <= 'z') ==> r[i] == s[i]
    ensures forall i :: 0 <= i < |r| ==> !('a' <= r[i] <= 'z')
  {
    seq(|s|, i requires 0 <= i < |s| => UpperChar(s[i]))
  }

  /** `haystack.includes(needle)`: `needle` occurs as a contiguous substring. */
  predicate Contains(haystack: string, needle: string) {
    || (|needle| <= |haystack| && haystack[..|needle|] == needle)
    || (haystack != [] && Contains(haystack[1..], needle))
  }
}
