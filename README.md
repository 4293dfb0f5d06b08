# Felicity backend: a Dafny model

This project models the core of the Felicity campus event platform's
backend. Organizers create events. Participants register for them, buy
merchandise, form hackathon teams, check in at the door, give anonymous
feedback and talk in per-event forums. Admins manage organizer accounts and
their password resets.

The model covers these controllers and routes:

- the event, registration, teams, attendance, password-reset, feedback,
  forum, admin and auth controllers;
- the organizer routes (dashboard analytics and the public profile);
- the user routes (onboarding, password change, profile update).

It also covers the documents these use: Event, Registration, Team,
Attendance and Feedback, plus User, Organizer, PasswordResetRequest and
ForumMessage as far as the controllers touch them.

How the database is represented:

- The database is the class `Db.Store`. It holds one sequence per
  collection, and a document's id is its position in that sequence.
- Each request handler is a module-level method that takes the store and
  modifies it. Its contract gives the
  response and the whole new state of the database for every branch,
  including every error branch.
- The logic the handlers rely on is written as functions. These cover the
  admission checks, the merchandise pricing loop, the lifecycle table, the
  relevance ranking, the analytics fold and the listings. Lemmas state what
  the platform promises about them.

Several behaviours are modelled as the code has them:

- Cancelling a registration lowers the event's count even when the
  registration was still waiting for payment approval.
- A cancelled event takes the full-edit branch of `updateEvent`. Its body can
  set it back to `published`, bypassing the transition table.
- Any answer to a team invite other than `accept` declines it. Inviting has no
  capacity check.
- A non-member who "leaves" a complete team reopens it.
- Manual check-in does not require the registration to be active. Reverting a
  check-in does not look at the event of the record.
- `notChecked` in the attendance summary can be negative.
- Acknowledging a credential clears it whatever the request's status.
- Pinning and deleting a forum message go by message id alone. Reacting has no
  access check.
- Reacting twice with an emoji nobody had used leaves an empty entry for it.
  Toggling a reaction off and on again moves the user to the end of the list.
- A feedback rating between whole stars is stored but counted under no star.
- Scanning a team QR, which carries no ticket id, checks in the first active
  registration of the event, whoever holds it.
- A participant's event listing fails with a server error whenever it finds an event (see Findings).
- The credentials returned by `createOrganizer` echo the address as typed.
- `loginOrganizer` consults only the status, not the `isActive` flag.
- A profile update does not validate what it stores. A field missing from the
  body keeps the stored value. An organizer changing to an address another
  organizer holds is refused by the unique index.

## Model

| member | source | states |
|---|---|---|
| Schema.Hex | backend/models/Registration.js:8 | two hex characters per byte, every character a hex digit of the requested case |
| Schema.HexInjective | backend/models/Registration.js:8 | hex encoding is injective: equal strings come from equal bytes |
| Schema.TicketId | backend/models/Registration.js:5-9 | a ticket id is `TKT-` followed by 12 upper-case hex digits |
| Schema.TicketIdInjective | backend/models/Registration.js:5-9 | distinct random draws give distinct ticket ids |
| Schema.InviteCode | backend/models/Team.js:17-21 | an invite code is 10 upper-case hex digits |
| Schema.InviteCodeInjective | backend/models/Team.js:17-21 | distinct random draws give distinct invite codes |
| Schema.GeneratedPassword | backend/controllers/adminController.js:7 | a generated password is 16 lower-case hex digits |
| Schema.CountAccepted | backend/models/Team.js:32 | accepted members are at most all members, and none exactly when no entry is accepted |
| Schema.CountAcceptedAppend | backend/models/Team.js:32 | appending an entry adds one accepted member exactly when the entry is accepted |
| Schema.AcceptedCount | backend/models/Team.js:31-33 | `acceptedCount` counts the leader: between 1 and the member entries plus one |
| Schema.Lower | backend/models/User.js:7 | each ASCII capital becomes its small letter, every other character is kept, and no ASCII capital remains |
| Schema.Upper | backend/controllers/teamsController.js:76 | each ASCII small letter becomes its capital, every other character is kept, and no ASCII small letter remains |
| Events.EffectiveStatus | backend/controllers/eventController.js:7-17 | draft and cancelled are shown as stored; otherwise ongoing inside [start, end], completed after the end, published before the start |
| Events.EffectiveStatusAdvances | backend/controllers/eventController.js:7-17 | for a well-formed event the displayed status only moves forward as time passes |
| Events.WithEffectiveStatus | backend/controllers/eventController.js:98-102 | a listed event carries the effective status for its dates and the clock; every other field is the stored one |
| Events.Transition | backend/controllers/eventController.js:216-224 | a request is accepted exactly when the table lists the named status from the current one |
| Events.TransitionAdvances | backend/controllers/eventController.js:216-222 | every allowed transition moves forward; completed and cancelled are terminal |
| Events.AtMostThreeTransitions | backend/controllers/eventController.js:216-230 | whatever requests arrive, an event takes at most three transitions and never re-enters a status |
| Events.EditEvent | backend/controllers/eventController.js:166-203 | live events are locked; a published event changes only the whitelist, its deadline only later (or closed now), its limit only up; draft and cancelled events take the whole body; an unlocked event is saved exactly when the edited document still has its required fields |
| Events.CancelledEventCanBeRepublished | backend/controllers/eventController.js:198-201 | a cancelled event's body edit can set `published` although the table forbids that transition |
| Events.EditForm | backend/controllers/eventController.js:248-251 | the form is replaced exactly when it is unlocked and the event is normal, else the matching refusal |
| Events.NewEvent | backend/controllers/eventController.js:19-25 | created exactly when the required fields are present: a draft of the requester holding every field of the body, with the schema defaults for what the body leaves out |
| Events.EscapeRegex | backend/controllers/eventController.js:69 | each regex metacharacter gains one backslash |
| Events.EscapeRoundTrip | backend/controllers/eventController.js:69 | reading the escaped pattern back gives exactly the search text |
| Events.EscapeKeepsPlainText | backend/controllers/eventController.js:69 | a search without metacharacters is used unchanged |
| Events.MatchingTags | backend/controllers/eventController.js:113-114 | at most every tag matches; none exactly when no tag matches an interest, all exactly when every tag does |
| Events.MoreInterestsNeverLower | backend/controllers/eventController.js:113-115 | more interests never lower the relevance score |
| Events.FollowingAddsTen | backend/controllers/eventController.js:112 | following an organizer adds exactly 10 to its events' scores |
| Events.RankForParticipant | backend/controllers/eventController.js:105-120 | the ranking is a permutation of the events, by score descending, ties newest first |
| Events.ParticipantListingAsWritten | backend/controllers/eventController.js:98-127 | as written, the participant listing fails exactly when it holds an event, and an empty one is its own ranking |
| Events.ParticipantListingFails | backend/controllers/eventController.js:110 | every non-empty participant listing answers a server error, while its intended ranking has as many events |
| Events.CreateEvent | backend/controllers/eventController.js:19-36 | createEvent stores `NewEvent` at the next id, or refuses with the state unchanged |
| Events.UpdateEvent | backend/controllers/eventController.js:160-208 | only the owner's event is edited, by the rules of `EditEvent` |
| Events.UpdateEventStatus | backend/controllers/eventController.js:210-242 | the status becomes exactly the requested one when the table allows it, else the state is unchanged |
| Events.UpdateEventForm | backend/controllers/eventController.js:244-257 | only the owner's event changes, by the rules of `EditForm` |
| Registrations.Admission | backend/controllers/registrationController.js:15-32 | each refusal holds exactly when its check is the first to fail: not open, deadline passed, fully booked, eligibility, already registered |
| Registrations.SecondRegistrationRefused | backend/controllers/registrationController.js:31-32 | with a live registration of the user, a second one for the event is refused |
| Registrations.FindVariant | backend/controllers/registrationController.js:44 | the first variant with that id, and none exactly when no variant has it |
| Registrations.PurchaseSucceedsIffStockSuffices | backend/controllers/registrationController.js:43-56 | immediate purchase succeeds exactly when every variant is known and holds the total quantity asked of it |
| Registrations.PricedOrder | backend/controllers/registrationController.js:43-56 | a priced order records each purchase in order at its variant's price, and the total is price times quantity summed |
| Registrations.StockTaken | backend/controllers/registrationController.js:47-53 | immediate purchase takes exactly the demand from each variant and never leaves stock below zero |
| Registrations.PriceMerchandise | backend/controllers/registrationController.js:43-56 | the in-place loop computes the pricing specification |
| Registrations.ApprovalDeductsLikePurchase | backend/controllers/registrationController.js:184-192 | approving deducts what an immediate purchase of the still-known variants would, and fails exactly when it would |
| Registrations.DeductStock | backend/controllers/registrationController.js:184-192 | the in-place approval loop computes its specification |
| Registrations.Checkout | backend/controllers/registrationController.js:38-73 | no items is refused; approval needs a proof and leaves payment pending; a paid normal event charges its fee; otherwise nothing is charged; the order is accepted exactly when the items are present and priceable and any needed proof is uploaded |
| Registrations.MerchandiseCharge | backend/controllers/registrationController.js:38-65 | a charged merchandise order is priced at the variants' prices, with stock taken only without approval |
| Registrations.ChargeFor | backend/controllers/registrationController.js:34-73 | the method computes `Checkout` |
| Registrations.Counted | backend/controllers/registrationController.js:99-100 | a non-pending registration adds one to the count and its amount to the revenue; nothing else changes |
| Registrations.NewRegistration | backend/controllers/registrationController.js:80-95 | a QR payload is issued exactly when payment is not pending; ticket id from the draw; schema defaults |
| Registrations.Register | backend/controllers/registrationController.js:7-115 | register refuses with the state unchanged or stores the registration, the stock and the counters as specified |
| Registrations.CancelRegistration | backend/controllers/registrationController.js:135-148 | only the owner cancels; the event's count drops by one |
| Registrations.Reviewed | backend/controllers/registrationController.js:196-211 | review sets the payment status, the reviewer and the time; approval issues the QR payload |
| Registrations.CountApproval | backend/controllers/registrationController.js:193-203 | approval stores the new stock and counts one registration and its amount |
| Registrations.ReviewPayment | backend/controllers/registrationController.js:166-217 | only a pending payment of the organizer's own event is reviewed; approval takes stock or fails unchanged |
| Teams.FindMember | backend/controllers/teamsController.js:128 | the first entry of the user, and none exactly when the user has no entry |
| Teams.FindTeamByCode | backend/controllers/teamsController.js:76 | the first team with that code, and none exactly when no team has it |
| Teams.WithoutUserFacts | backend/controllers/teamsController.js:162 | after filtering, the user has no entry and the accepted count has not grown |
| Teams.WithoutUserKeeps | backend/controllers/teamsController.js:162 | filtering keeps exactly the other users' entries |
| Teams.AcceptedUsersAre | backend/controllers/teamsController.js:174 | the users completion registers are exactly the accepted members |
| Teams.Roster | backend/controllers/teamsController.js:174 | the roster starts with the leader and has `acceptedCount` users |
| Teams.CreateRefusal | backend/controllers/teamsController.js:13-18 | each refusal of createTeam holds exactly when its check is the first to fail |
| Teams.MaxSizeFor | backend/controllers/teamsController.js:24 | `teamSize \|\| 4`: the team size, or 4 when it is 0 |
| Teams.JoinRefusal | backend/controllers/teamsController.js:80-88 | each refusal of joinTeam holds exactly when its check is the first to fail |
| Teams.AddingPendingKeepsCount | backend/controllers/teamsController.js:91 | a pending entry gives the user an entry and leaves `acceptedCount` unchanged |
| Teams.Answer | backend/controllers/teamsController.js:131 | `accept` accepts and every other answer declines |
| Teams.Responded | backend/controllers/teamsController.js:131-132 | only the answering entry changes, to the answer and the time |
| Teams.RespondCount | backend/controllers/teamsController.js:131-135 | accepting raises `acceptedCount` by one unless already accepted; declining lowers it by one if it was accepted |
| Teams.TeamRegistration | backend/controllers/teamsController.js:183-192 | each completion registration is a hackathon registration of the team, with a team QR payload and schema defaults |
| Teams.EnlistAppends | backend/controllers/teamsController.js:176-197 | the fan-out only appends, one registration per listed user it does not skip |
| Teams.EnlistCovers | backend/controllers/teamsController.js:176-197 | a completed fan-out leaves every listed existing user with a registration for the event |
| Teams.CreateTeam | backend/controllers/teamsController.js:8-32 | the refusals in order, else a forming team led by the requester at the next id |
| Teams.JoinTeam | backend/controllers/teamsController.js:73-98 | the code is upper-cased; the refusals in order, else a pending entry is added |
| Teams.InviteMember | backend/controllers/teamsController.js:100-120 | only the leader invites a user found by the lower-cased address who has no entry yet; a pending entry is added |
| Teams.CompleteTeamRegistration | backend/controllers/teamsController.js:171-204 | the team becomes complete, every roster user without a registration gets one, and the count grows by those created |
| Teams.RespondInvite | backend/controllers/teamsController.js:122-149 | the user's first entry takes the answer; an acceptance that brings `acceptedCount` to the team size completes the team and registers its roster |
| Teams.AfterLeave | backend/controllers/teamsController.js:156-163 | the leader cancels the team; anyone else is filtered out and a complete team reopens |
| Teams.LeaveFacts | backend/controllers/teamsController.js:162-163 | after a non-leader leaves, the user is not in the team and the count has not grown |
| Teams.LeaveTeam | backend/controllers/teamsController.js:151-169 | the team is stored as `AfterLeave` |
| Teams.MyTeams | backend/controllers/teamsController.js:34-45 | exactly the teams the user leads or has an entry in |
| Attendances.FindScanned | backend/controllers/attendanceController.js:21-27 | the first active registration of the event matching the ticket or the user; a payload without a ticket id matches every active registration of the event |
| Attendances.FindRecord | backend/controllers/attendanceController.js:30-31 | a check-in record of the registration for the event, none exactly when there is none |
| Attendances.FindAfterCheckIn | backend/models/Attendance.js:21 | after a check-in the record is found, so a second check-in is refused |
| Attendances.ScanRecord | backend/controllers/attendanceController.js:39-45 | a scan record: QR method, no override, no audit, now, by the organizer |
| Attendances.ManualRecord | backend/controllers/attendanceController.js:75-84 | a manual record: override with its reason and one check-in audit entry |
| Attendances.TeamQrMatchesAnyActive | backend/controllers/attendanceController.js:19-25 | a team QR finds the first active registration of the scanned event, whoever holds it, and fails only when there is none |
| Attendances.ScanQr | backend/controllers/attendanceController.js:6-59 | the refusals in order (not your event, bad payload, not registered, already checked in with its time), else one record appended |
| Attendances.ManualCheckIn | backend/controllers/attendanceController.js:61-97 | the refusals in order, else one manual record appended |
| Attendances.RevertCheckIn | backend/controllers/attendanceController.js:150-167 | for the event's owner the record with that id is removed, whatever its event |
| Attendances.RevertKeepsOthers | backend/controllers/attendanceController.js:158 | reverting removes exactly the records with that id |
| Attendances.RecordsOf | backend/controllers/attendanceController.js:108 | the event's records, as many as its check-ins |
| Attendances.GetAttendance | backend/controllers/attendanceController.js:99-118 | owner only; checked = records, total = active registrations, notChecked their difference; records newest first |
| Attendances.CheckInCounts | backend/controllers/attendanceController.js:106 | a check-in adds exactly one to the event's count |
| Attendances.CancelLowersActive | backend/controllers/attendanceController.js:107 | a cancellation lowers the active total by one |
| PasswordReset.StatusName | backend/controllers/passwordResetController.js:59 | every status is stored as a non-empty string |
| PasswordReset.NewRequest | backend/controllers/passwordResetController.js:13 | a new request is pending with nothing resolved |
| PasswordReset.Submission | backend/controllers/passwordResetController.js:7-13 | an empty reason, then an open request, are refused; else a new request |
| PasswordReset.SubmitRequest | backend/controllers/passwordResetController.js:5-18 | the decision of `Submission`, stored when it is a request |
| PasswordReset.Resolvable | backend/controllers/passwordResetController.js:58-59 | not found, or already resolved, or the pending request |
| PasswordReset.ApprovedRequest | backend/controllers/passwordResetController.js:69-73 | approved by the admin at now, the new password kept in plain text |
| PasswordReset.RejectedRequest | backend/controllers/passwordResetController.js:96-99 | rejected by the admin at now, no password issued |
| PasswordReset.ApproveRequest | backend/controllers/passwordResetController.js:54-87 | a pending request is approved and the organizer's password replaced; the credentials are returned |
| PasswordReset.RejectRequest | backend/controllers/passwordResetController.js:89-106 | a pending request is rejected; nothing else changes |
| PasswordReset.Acknowledged | backend/controllers/passwordResetController.js:112 | only the plain-text password is cleared |
| PasswordReset.AcknowledgeCredential | backend/controllers/passwordResetController.js:108-118 | any existing request loses its plain-text password, whatever its status |
| PasswordReset.Shown | backend/controllers/passwordResetController.js:20-52 | the owner never sees the plain password; the admin sees it when it is set |
| PasswordReset.Listing | backend/controllers/passwordResetController.js:20-52 | exactly the visible requests, each as shown to that audience |
| PasswordReset.ListingNewestFirst | backend/controllers/passwordResetController.js:22-39 | listings are strictly newest first |
| PasswordReset.OwnerSeesOwnOnly | backend/controllers/passwordResetController.js:22-23 | an organizer sees exactly its own requests, none with a password |
| PasswordReset.PasswordShownUntilAcknowledged | backend/controllers/passwordResetController.js:73-112 | after approval the admin listing shows the password; after acknowledgement it does not |
| Feedbacks.Submission | backend/controllers/feedbackController.js:11-24 | each refusal exactly when the earlier checks pass and its own fails, in the order not registered, not completed, invalid, already submitted; else a new feedback under the user's hash |
| Feedbacks.SubmitFeedback | backend/controllers/feedbackController.js:5-27 | the decision of `Submission`, stored when it is a feedback |
| Feedbacks.SecondSubmissionRefused | backend/models/Feedback.js:13 | a second submission by the same user for the event is refused |
| Feedbacks.Matching | backend/controllers/feedbackController.js:39-43 | exactly the event's feedback passing the rating filter, without its author |
| Feedbacks.FilterExact | backend/controllers/feedbackController.js:40 | with a rating filter every result has exactly that rating |
| Feedbacks.MatchingNewestFirst | backend/controllers/feedbackController.js:43 | results are newest first |
| Feedbacks.Distribution | backend/controllers/feedbackController.js:45-50 | five counts, one per star |
| Feedbacks.DistributionSumsToTotal | backend/controllers/feedbackController.js:45-50 | with whole-star ratings the five counts add up to the number of feedback |
| Feedbacks.FractionalRatingUncounted | backend/models/Feedback.js:8 | ratings that are not a whole number of stars are counted under no star |
| Feedbacks.GetEventFeedback | backend/controllers/feedbackController.js:29-56 | owner only; the matching views and their distribution |
| Feedbacks.FindFeedback | backend/controllers/feedbackController.js:61 | the user's feedback for the event, none exactly when there is none |
| Feedbacks.CheckSubmitted | backend/controllers/feedbackController.js:58-67 | true exactly when feedback under the user's hash exists |
| Feedbacks.SubmittedAfterSubmit | backend/controllers/feedbackController.js:58-67 | after a successful submission the check reports it |
| Forum.CanAccess | backend/controllers/forumController.js:6-13 | organizers must own the event; others need a registration that is not cancelled |
| Forum.FindLive | backend/controllers/forumController.js:11 | a live registration of the user, none exactly when there is none |
| Forum.Live | backend/controllers/forumController.js:23 | exactly the event's messages not deleted |
| Forum.ReverseWindow | backend/controllers/forumController.js:24-29 | a window of the newest-first order, reversed back, is a window of the oldest-first order |
| Forum.Window | backend/controllers/forumController.js:25-26 | skip then limit, a limit of 0 meaning none |
| Forum.PageIsChronologicalRun | backend/controllers/forumController.js:23-29 | a page is a contiguous run of live messages in chronological order, ending `skip` from the newest |
| Forum.GetMessages | backend/controllers/forumController.js:15-33 | no access and negative skip are refused, and every other request succeeds with the page of live messages of the event |
| Forum.PostAnnouncement | backend/controllers/forumController.js:35-61 | owner only; empty or over-long content is refused; else an announcement appended |
| Forum.TogglePin | backend/controllers/forumController.js:69 | only the pin flag flips |
| Forum.SoftDeleted | backend/controllers/forumController.js:84 | the message is flagged and its text replaced; nothing else changes |
| Forum.PinMessage | backend/controllers/forumController.js:63-76 | the owner of the event flips the pin of the message with that id, of any event |
| Forum.DeleteMessage | backend/controllers/forumController.js:78-91 | the owner of the event soft-deletes the message with that id, of any event |
| Forum.DeletedHidden | backend/controllers/forumController.js:23-84 | a soft-deleted message appears in no page |
| Forum.FindReaction | backend/controllers/forumController.js:101 | the first entry for the emoji, none exactly when there is none |
| Forum.IndexOf | backend/controllers/forumController.js:105 | the first position of the user, none exactly when absent |
| Forum.ToggleUser | backend/controllers/forumController.js:105-107 | an absent user is appended; a present one is removed once |
| Forum.ToggleFlips | backend/controllers/forumController.js:105-107 | a list without repeats keeps none and the user's presence flips, others unchanged |
| Forum.ToggleTwice | backend/controllers/forumController.js:105-107 | toggling twice restores an absent user's list, and moves a present one to the end |
| Forum.React | backend/controllers/forumController.js:101-108 | a new emoji gets an entry with the user; an existing one toggles the user |
| Forum.ReactTwiceNewEmoji | backend/controllers/forumController.js:101-108 | reacting twice with a new emoji leaves an empty entry for it |
| Forum.ReactToMessage | backend/controllers/forumController.js:93-117 | any user's reaction is stored on the message with that id |
| Admin.NewOrganizer | backend/controllers/adminController.js:18-22 | the stored account: lower-cased e-mail, generated password, active, created by the admin |
| Admin.CreateOrganizer | backend/controllers/adminController.js:9-42 | an address in use is refused, then missing fields; else the account is stored and the credentials echo the address as typed |
| Admin.ParseOrgStatus | backend/controllers/adminController.js:59 | exactly the three status strings are accepted |
| Admin.WithStatus | backend/controllers/adminController.js:64 | the flags follow the status; nothing else changes |
| Admin.UpdateOrganizerStatus | backend/controllers/adminController.js:56-72 | the status is checked before the look-up; the organizer takes `WithStatus` |
| Admin.GroupByStatus | backend/controllers/adminController.js:129 | one pair per status that occurs, with its count |
| Admin.FillBreakdown | backend/controllers/adminController.js:135-136 | the loop's map holds exactly the grouped statuses |
| Admin.AssignedCounts | backend/controllers/adminController.js:135-136 | each key of the filled map holds that status's count |
| Admin.CountStatus | backend/controllers/adminController.js:129 | an event status has count 0 exactly when no event has it, and the full count exactly when every event has it |
| Admin.CountParticipants | backend/controllers/adminController.js:125 | 0 exactly when no user is a participant, all exactly when every user is |
| Admin.CountActiveRegistrations | backend/controllers/adminController.js:128 | 0 exactly when no registration is active, all exactly when every one is |
| Admin.CountPending | backend/controllers/adminController.js:131 | 0 exactly when no reset request is pending, all exactly when every one is |
| Admin.GetStats | backend/controllers/adminController.js:115-145 | the counts as queried; revenue 0 with no events; the breakdown has exactly the occurring statuses with their counts |
| Admin.BreakdownCoversEvents | backend/controllers/adminController.js:129 | every event is counted under exactly one status |
| Auth.FirstAt | backend/controllers/authController.js:21 | the first `@`, none exactly when there is none |
| Auth.EmailDomain | backend/controllers/authController.js:21 | the segment between the first `@` and the next one or the end |
| Auth.ClassifyEmail | backend/controllers/authController.js:12-22 | IIIT exactly when that segment is one of the two IIIT domains |
| Auth.ClassifyBySegment | backend/controllers/authController.js:21-22 | only the segment after the first `@` decides |
| Auth.NewParticipant | backend/controllers/authController.js:28-31 | the stored participant: lower-cased e-mail, type from the address, schema defaults |
| Auth.RegisterParticipant | backend/controllers/authController.js:14-51 | a taken address is refused, then missing fields; else the participant is stored |
| Auth.Login | backend/controllers/authController.js:53-83 | unknown address and wrong password are one refusal, before the disabled check; success names the account |
| Auth.LoginOrganizer | backend/controllers/authController.js:85-115 | the same order, but only the status decides whether the organizer is let in |
| Auth.LowerIdempotent | backend/models/User.js:7 | lower-casing twice is lower-casing once |
| Auth.RegisteredCanLogIn | backend/controllers/authController.js:28-65 | a newly registered participant logs in with the address and password given |
| Auth.LoginAfterReset | backend/controllers/passwordResetController.js:65-67 | after a reset the organizer logs in with the new password exactly when active |
| OrganizerRoutes.CompletedOf | backend/routes/organizers.js:22 | exactly the organizer's completed events |
| OrganizerRoutes.ItemsSold | backend/routes/organizers.js:33-38 | the quantity summed over non-cancelled registrations' purchases |
| OrganizerRoutes.CancelRemovesItems | backend/routes/organizers.js:34 | cancelling a registration removes its purchases from the items sold |
| OrganizerRoutes.Round | backend/routes/organizers.js:48 | `Math.round`: within one half of the value |
| OrganizerRoutes.RateIsPercentage | backend/routes/organizers.js:48 | the rate is between 0 and 100, and 100 at full attendance |
| OrganizerRoutes.Row | backend/routes/organizers.js:40-49 | a per-event row: the counters, the event's check-ins, the items sold and the rate |
| OrganizerRoutes.ReduceIsSums | backend/routes/organizers.js:51-57 | the reduce yields the column sums |
| OrganizerRoutes.DashboardFor | backend/routes/organizers.js:20-66 | a row per completed event, the totals and the average rate |
| OrganizerRoutes.DashboardCoversCompleted | backend/routes/organizers.js:22-40 | every completed event of the organizer has a row |
| OrganizerRoutes.DashboardOnlyCompleted | backend/routes/organizers.js:22-40 | every row is of a completed event of the organizer |
| OrganizerRoutes.Public | backend/routes/organizers.js:98 | the public organizer carries no password and no webhook |
| OrganizerRoutes.Upcoming | backend/routes/organizers.js:103-105 | at most ten qualifying events, earliest start first |
| OrganizerRoutes.UpcomingAreSoonest | backend/routes/organizers.js:103-105 | no left-out upcoming event starts before a listed one |
| OrganizerRoutes.Past | backend/routes/organizers.js:106-108 | at most ten completed events, latest start first |
| OrganizerRoutes.PastAreLatest | backend/routes/organizers.js:106-108 | no left-out past event starts after a listed one |
| OrganizerRoutes.GetProfile | backend/routes/organizers.js:96-115 | an unknown organizer is refused; else the public organizer and both lists |
| UserRoutes.Onboarded | backend/routes/users.js:12-15 | the interests and clubs as given, each kept when the request leaves it out; onboarding done; nothing else changed |
| UserRoutes.CompleteOnboarding | backend/routes/users.js:9-21 | the participant is stored as `Onboarded` |
| UserRoutes.PasswordCheck | backend/routes/users.js:27-38 | missing fields, then a short password, then a wrong current one, each exactly when first to fail |
| UserRoutes.WithPassword | backend/routes/users.js:40 | only the password changes |
| UserRoutes.ChangePassword | backend/routes/users.js:24-47 | the account's password is replaced exactly when `PasswordCheck` passes |
| UserRoutes.NewPasswordLogsIn | backend/routes/users.js:40-41 | after a change the new password logs in exactly when the account is active, and the old one is refused |
| UserRoutes.Patch | backend/routes/users.js:58-66 | a field the body carries replaces the stored one; a missing field keeps it |
| UserRoutes.PatchedUser | backend/routes/users.js:64-68 | only the six profile fields can change; each takes the given value, or keeps the stored one when the request leaves it out |
| UserRoutes.PatchedOrganizer | backend/routes/users.js:54-61 | only the six profile fields can change; each takes the given value (the e-mail lower-cased), or keeps the stored one when the request leaves it out |
| UserRoutes.UpdateProfile | backend/routes/users.js:50-73 | the requester's own document is patched; an organizer address held by another is refused |
| UserRoutes.OwnEmailAccepted | backend/routes/users.js:58 | keeping one's own address is never refused |

## Left out

- Password hashing (bcrypt), JWTs, QR images, e-mail, sockets and the Discord call (eventController.js:28, which never fires on a new draft) are left out. A password is compared as stored. A QR code is its payload. Broadcasts and e-mails are not modelled beyond the `emailSent` flag.
- Random draws (ticket ids, invite codes, passwords) and the clock are parameters.
- The `hashUser` digest is a parameter of the feedback operations. SHA-256 is not modelled.
- Database ids are positions. `createdAt` order is taken to be insertion order. Ties in sorts are broken by the sorting function, not by MongoDB.
- Concurrency and the atomicity of each write are not modelled.
- Route validators and sanitisers are not modelled. Handlers receive their bodies as given. This leaves out `notEmpty`, `isEmail`, `normalizeEmail` (routes/auth.js:11) and the 6-character password minimum (routes/auth.js:12).
- The schemas' `trim: true` setters are not modelled. They trim names, the forum content, the feedback comment, the reset reason and the admin comment.
- Auth.ClassifyEmail: classifies the address the controller receives. The route's `normalizeEmail` lower-cases it before that, so a capitalised IIIT domain is classified as IIIT in the running system. The model's direct call does not capture this.
- Schema.Lower: models ASCII case mapping only. JavaScript's `toLowerCase` and `toUpperCase` follow Unicode, where a non-ASCII letter can change case and even the length ("ß" becomes "SS" when upper-cased). The same holds for Schema.Upper.
- Field projections (`.select`) and population are not modelled.
- Forum.PostAnnouncement: the 2000-character bound counts Unicode scalar values. JavaScript's `length` counts UTF-16 code units, so text with characters outside the Basic Multilingual Plane is measured differently. The same holds for the 6-character password minimum in UserRoutes.PasswordCheck.
- Floating point is not modelled. Ratings and rates are reals. OrganizerRoutes.Round stands in for `Math.round`, and `avgRating.toFixed` is not modelled.
- getEvents: the query filters, pagination, the Fuse fuzzy re-filtering and the total are left out. Only the escaping, the effective status and the participant ordering are modelled.
- Forum.GetMessages: `limit` is a natural number, so a negative `limit` query value is not represented.
- Attendances.FindScanned: assumes that Mongoose drops the undefined `ticketId` of a team QR from the `$or` filter, so that this branch matches every registration. The code alone does not settle this. If the key were sent as `null` instead, or the branch pruned, a team QR would match only by its user. Attendances.ScanQr inherits the assumption.
- Attendances.ScanQr: QR text that parses to something other than an object (for example `null`) makes the destructuring at attendanceController.js:19 throw, and the catch answers 500. The model's payload is unparsable, a ticket payload or a team payload. Any other object is not represented: a non-object, an object without `userId`, or an object with other fields.
- Registrations.Checkout: a merchandise purchase without `quantity` compares and subtracts `undefined` (registrationController.js:49-53). The stock check passes and the stock becomes `NaN`. The model's quantity is always a number, so this is not represented.
- Operations not modelled (read-only lookups, exports and admin pages outside the core):
  - deleteEvent, incrementView, getTrendingEvents, getEvent, getEventParticipants, exportParticipantsCSV;
  - getMyRegistrations, getPendingPayments;
  - getTeam, getTeamByCode;
  - exportAttendanceCSV;
  - getOrganizers, deleteOrganizer, getUsers, updateUserStatus;
  - getMe, logout;
  - `/my-events`, `/my-ongoing`, `/analytics/:eventId`, `GET /users/organizers`.
- The event's `purchaseLimit` is stored but not enforced, in the code as in the model.
- A field set to `null` in an update body is treated like a field the body leaves out.
- The `|| 0` fallbacks on `registrationCount` and `revenue` (organizers.js:44-45) are the identity, because both fields always have a value.

## Findings

| source | as written | input that shows it | evidently intended | confidence | as-written member | corrected member |
|---|---|---|---|---|---|---|
| backend/controllers/eventController.js:110 | the participant branch calls `e.toObject()` on events that lines 98-102 have already turned into plain objects, which have no such method; the catch at line 125 answers 500 | a participant listing that finds at least one event | score and sort the plain objects directly | high, not executed | Events.ParticipantListingFails | Events.RankForParticipant |
