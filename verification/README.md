# RSVP core of a wedding invitation site, in Dafny

This project models the logic behind a wedding site's RSVP flow and its
admin area.

- **Guest submission.** A guest opens an invite by id and submits a reply with
  name, email, phone, party size and events. The action checks the fields and
  checks the events against the ones the invite offers. It then stores a fresh
  child invite and a fresh response in the key-value store, and rewrites the
  original invite as a template that lists the child.
- **Admin invites.** Admins list invites and create invites, and the invite form
  shows the event checkboxes the chosen location allows.
- **Admin responses.** Admins list responses, see the attendance figures, and
  send confirmation and welcome emails, one at a time or in throttled pairs.
- **Migration.** Admins migrate the key-value store into the relational database.
- **Admin gate.** A bearer token guards the admin area. Its payload carries the
  expiry and the role.
- **Countdown.** The site shows a countdown to the wedding.

Each source file becomes one module:

| module | source |
|---|---|
| `Submission` and `Validation` | app/actions/invite.ts |
| `Stats` | components/admin/StatsOverview.tsx |
| `Email` | lib/email.ts |
| `SendConfirmation` | app/api/admin/responses/send-confirmation/route.ts |
| `SendWelcome` | app/api/admin/responses/send-welcome/route.ts |
| `Migration` | lib/migration.ts |
| `BulkEmail` | components/admin/BulkEmailButton.tsx |
| `Auth` | utils/auth.ts |
| `Middleware` | middleware.ts |
| `Countdown` | hooks/useCountdown.tsx |
| `AdminInvites` | app/api/admin/invites/route.ts |
| `AdminResponses` | app/api/admin/responses/route.ts |
| `AdminInviteForm` | components/admin/InviteForm.tsx |

Shared pieces:

- `RecordLists` holds the two list endpoints' common fetch-and-sort.
- `Records` holds the record shapes.
- `Stores` holds the two stores, as classes whose maps the methods reassign.
- `Js` holds the JavaScript number conversions the code relies on (`parseInt`, `Number`).

Everything outside the program is a parameter:

- fresh ids;
- clock readings;
- which storage and database calls throw;
- the mail provider's outcome: accepted, an error it reports, or an error it throws;
- whether each HTTP request in a bulk run came back ok;
- the base64/JSON decoder of the token payload.

The operations that change state in place are methods over the `KvStore` and
`Database` classes, proved equal to a function of the old state:

- `Submission.SubmitInviteResponse`
- `Submission.GenerateInviteId`
- `AdminInvites.PostInvite`
- `SendWelcome.SendWelcomeEmail`
- `Migration.MigrateInvitesFromKv` and its three passes

The properties are proved about those functions. The loops of the source are
loops here, with invariants that tie the running state to the specification
function applied to a prefix: `Stats.ComputeStats`, the migration passes, and
`BulkEmail.SendWithThrottling` and `BulkEmail.SendBatch`.

Behaviour the code has and the model keeps:

- **No update path on resubmission.** Every successful submission creates a new
  child invite and a new response. A second submission through the same link
  creates a second child. A submission through a child's own link turns that
  child into a template.
- **The signature is never checked.** The token's third segment is never looked
  at, and any token whose payload decodes to an unexpired admin role passes.
- **The welcome route can send twice.** It sets the sent flag only after the
  email has gone out. When that update throws, the email has been sent but the
  flag stays false, so a later call sends again.
- **The bulk-email filter never shrinks.** The bulk button picks responses by
  `welcome_email_sent`, but it posts them to the confirmation route, which has
  no such guard and never sets the flag. A response picked once is picked
  again on every later run.
- **Some migration faults throw.** In the migration's second pass, linking an
  invite whose row is missing throws, and the throw is counted as an error.
- **A missing events object throws.** `POST` on the invites route throws a
  `TypeError` when the request has no events object. The catch answers 500
  with that error's message.

## Model

| member | source | states |
|---|---|---|
| Submission.GetInvite | app/actions/invite.ts:39-41 | the invite is found exactly when its id is stored, and it is the stored value |
| Validation.PhoneDigits | app/actions/invite.ts:78 | stripping non-digits leaves only digits and never lengthens the text |
| Validation.PhoneDigitsOfConcat | app/actions/invite.ts:78 | stripping non-digits distributes over concatenation |
| Validation.PhoneDigitsOfDigits | app/actions/invite.ts:78 | a digit string is kept as it is |
| Validation.PhoneDigitsIdempotent | app/actions/invite.ts:78 | stripping twice is stripping once |
| Validation.PhoneDigitsOfNonDigits | app/actions/invite.ts:78 | text without digits strips to nothing |
| Validation.GroupedPhoneDigits | app/actions/invite.ts:77-84 | a number written with any digit-free brackets, spaces or dashes between its groups keeps exactly its digits, so the 10-digit check does not depend on the format |
| Validation.IndexOf | app/actions/invite.ts:69 | the position of the first occurrence, or the length when there is none |
| Validation.EmailCheckMatchesPattern | app/actions/invite.ts:69-75 | the three-condition email check accepts exactly the language of `^[^\s@]+@[^\s@]+\.[^\s@]+$` |
| Validation.PatternImpliesCheck | app/actions/invite.ts:69-75 | every string the pattern matches passes the check |
| Validation.InvalidEvents | app/actions/invite.ts:96-99 | the invalid events are drawn from the selection, never more than it holds |
| Validation.InvalidEventsMembers | app/actions/invite.ts:96-99 | an event is reported exactly when it is selected and the invite does not offer it |
| Validation.InvalidEventsOfConcat | app/actions/invite.ts:96-99 | the report keeps the selection's order |
| Validation.NotInvitedMessage | app/actions/invite.ts:104-106 | the rejection message starts with the fixed "not invited" text |
| Validation.JoinCommaListsEach | app/actions/invite.ts:105 | every name joined with `, ` appears in the joined text |
| Validation.NotInvitedMessageNamesEach | app/actions/invite.ts:104-106 | the rejection message names every offending event after its fixed prefix |
| Validation.FieldError | app/actions/invite.ts:53-84 | an error is one of the four field messages, and no error means the four fields are present, the count is within 0..5 and the phone has at least ten digits |
| Validation.RequiredFieldsCheckedFirst | app/actions/invite.ts:53-58 | any missing field gives "All fields are required", whatever else is wrong |
| Validation.GuestCountBounds | app/actions/invite.ts:61-66 | with all fields present, the guest-count error is given exactly when the count is outside 0..5 |
| Validation.FieldsAcceptedIff | app/actions/invite.ts:53-84 | the fields pass exactly when all four are non-empty, the count is within 0..5, the email matches the pattern and the phone has at least 10 digits |
| Submission.EventCheck | app/actions/invite.ts:96-99 | an invite with events gives its invalid events; an invite without an events object throws exactly when some event is selected |
| Submission.Submit | app/actions/invite.ts:43-168 | a reply carries data exactly when it succeeds. Success needs no storage fault, thanks the guest and returns the new response, which names the child invite and is added to the responses. A failure adds no invite but the child |
| Submission.SubmitKeepsOtherRecords | app/actions/invite.ts:110-153 | whatever happens, only the child invite, the target invite and the new response can change, and every other record is kept |
| Submission.SubmitInviteResponse | app/actions/invite.ts:43-168 | the reply and both stores afterwards are those of `Submit` on the old store |
| Submission.SuccessIff | app/actions/invite.ts:43-168 | a submission succeeds exactly when it is admissible and no storage call throws |
| Submission.RejectionWritesNothing | app/actions/invite.ts:53-142 | a rejected submission, or one whose read or first put throws, fails without data and leaves both stores unchanged |
| Submission.MissingFieldReportedFirst | app/actions/invite.ts:53-58 | a missing field is answered before the store is read, and nothing changes |
| Submission.UnknownInviteRejected | app/actions/invite.ts:87-93 | an unknown invite id gives "Invalid invitation ID." and nothing changes |
| Submission.IneligibleEventRejected | app/actions/invite.ts:96-108 | selecting an event the invite does not offer names that event in the rejection and nothing changes |
| Submission.SuccessfulSubmission | app/actions/invite.ts:110-160 | success adds exactly one child invite and one response and rewrites the target. The child carries the target's events, a link back to the target, `is_template` false, the digit-only phone and the response. The response points at the child and carries the submitted events and count. The target gains the child in `responses` and becomes a template. Nothing else changes |
| Submission.SubmitKeepsStoreInvariants | app/actions/invite.ts:141-153 | every stored response points at a stored invite, even after a partial write, and only templates carry a `responses` list |
| Submission.PartialWriteUndercounts | app/actions/invite.ts:142-167 | when the response or template put throws, the child invite stays stored but the target is not updated |
| Submission.RepeatedSubmissionCreatesAnotherChild | app/actions/invite.ts:110-153 | submitting the same reply twice succeeds twice, adds two invites and two responses, and appends both children to the target's list |
| Submission.SubmissionGrowth | app/actions/invite.ts:110-153 | one successful submission adds exactly one key to each store and leaves the reply admissible again |
| Submission.StillAdmissible | app/actions/invite.ts:148-153 | rewriting the target keeps its events, so the same reply stays admissible |
| Submission.ResubmittingThroughChildMakesItATemplate | app/actions/invite.ts:148-153 | a reply through a child's link makes the child a template that keeps its own template link, and the new child points at it |
| Submission.GenerateInviteId | app/actions/invite.ts:170-192 | the fresh id is returned and exactly that invite is added |
| Submission.GeneratedInviteKeepsInvariants | app/actions/invite.ts:177-186 | a generated invite is a template exactly when asked, and then has an empty `responses` list; storing it keeps both store invariants |
| Stats.ComputeStats | components/admin/StatsOverview.tsx:77-112 | the loop's per-event counts equal the guests of the responses attending each event, and the totals are the count and guest sum |
| Stats.AddsParty | components/admin/StatsOverview.tsx:90-109 | adding a party exactly when the response attends keeps the running count equal to the event total of the prefix |
| Stats.EventGuestsStep | components/admin/StatsOverview.tsx:90-109 | one more response adds its party size to an event exactly when it attends it |
| Stats.SumGuestsOfConcat | components/admin/StatsOverview.tsx:85-87 | the guest sum is additive over concatenation |
| Stats.AttendingOfConcat | components/admin/StatsOverview.tsx:114-120 | filtering by event keeps the list's order |
| Stats.AttendingMembers | components/admin/StatsOverview.tsx:114-120 | a response is in the filtered list exactly when it is in the list and its flag for the event is true |
| Stats.EventGuestsAtMostTotal | components/admin/StatsOverview.tsx:84-109 | when no count is negative, no event has more guests than the total |
| Stats.FilteredResponses | components/admin/StatsOverview.tsx:114-120 | with no selection the list is unchanged |
| Stats.ShownTotalResponses | components/admin/StatsOverview.tsx:147 | without a selection the stored count is shown, and with one a count no larger than the list |
| Stats.ShownTotalGuests | components/admin/StatsOverview.tsx:159-170 | without a selection the stored guest total is shown, and with one the selected event's guest total from the stats |
| Stats.CardGuestCount | components/admin/StatsOverview.tsx:189-194 | an event card shows the event's guest total from the stats, which is also the guest sum of the list filtered by that event |
| Stats.ShownFiguresAgree | components/admin/StatsOverview.tsx:147-194 | an event card's count, the "Total Guests" figure while that event is selected and the event's entry in the stats are the same number; without a selection the stored totals are shown |
| Email.Detail | lib/email.ts:71-77 | keys outside the five events fall back to the wedding's name and date with no address or time |
| Email.AttendingEvents | lib/email.ts:62-64 | at most one listed key per entry |
| Email.AttendingEventsMembers | lib/email.ts:62-64 | a key is listed exactly when some entry switches it on |
| Email.AttendingEventsOfConcat | lib/email.ts:62-64 | the listing keeps the entries' order |
| Email.Details | lib/email.ts:71-114 | one block per listed event, in order |
| Email.GuestFigureOf | lib/email.ts:159-161 | a number gives one more than it; no value gives 1; a non-empty string is concatenated after "1" |
| Email.EditLink | lib/email.ts:117-119 | the link is the configured base address, or the default site when none is set, followed by `/invite/` and the invite id |
| Email.ButtonLabel | lib/email.ts:168-172 | "Update Your RSVP" exactly when the response was updated after creation, else "Edit Your RSVP" |
| Email.SendConfirmation | lib/email.ts:54-220 | a sent message needs an address, an events object and a provider that accepts it, goes to the guest's address and lists the attended events' blocks |
| Email.EmptyEmailFailsFirst | lib/email.ts:57-59 | a missing address fails first with its own message |
| Email.NothingAttendedFails | lib/email.ts:66-68 | a response attending nothing fails before the provider is asked |
| Email.SendSucceedsIff | lib/email.ts:54-220 | the send succeeds exactly when there is an address, some event is on and the provider accepts the message. The message then carries one block per attended event, the guest figure, the edit link and the label |
| Email.ProviderErrorFails | lib/email.ts:202-219 | a provider error surfaces as a failure carrying its message, prefixed with "Failed to send email: " when the provider reports it and unchanged when the provider throws |
| SendConfirmation.NormalisedEvents | app/api/admin/responses/send-confirmation/route.ts:43-53 | exactly the five event keys, in order, each the stored flag read as a boolean |
| SendConfirmation.NormalisedEventsKeepFlags | app/api/admin/responses/send-confirmation/route.ts:43-53 | each of the five flags is kept and every other key is dropped |
| SendConfirmation.NormalisedEventsIdempotent | app/api/admin/responses/send-confirmation/route.ts:43-53 | normalising twice is normalising once |
| SendConfirmation.Formatted | app/api/admin/responses/send-confirmation/route.ts:36-56 | the record form keeps the row's fields, renames `invite_id` to `inviteId` and normalises the events |
| SendConfirmation.Confirm | app/api/admin/responses/send-confirmation/route.ts:9-78 | no id gives 400, a throwing lookup gives 500 with its message, an unknown id gives 404, and success needs a working lookup and a provider that accepts the message |
| SendConfirmation.ConfirmationNeverGuarded | app/api/admin/responses/send-confirmation/route.ts:35-66 | a stored response with an address and an attended event is confirmed on every call, whatever its sent flag says |
| SendConfirmation.SendFailureIs500 | app/api/admin/responses/send-confirmation/route.ts:58-75 | for a sendable row, a provider error answers 500 with the prefixed message when reported and with the thrown message when thrown |
| SendWelcome.Welcome | app/api/admin/responses/send-welcome/route.ts:9-94 | only the addressed row can change. An email goes out only for a stored, unflagged row when neither the lookup nor the mailer throws |
| SendWelcome.SendWelcomeEmail | app/api/admin/responses/send-welcome/route.ts:9-94 | the reply, whether an email went out and the response table afterwards are those of `Welcome`, and the invites are untouched |
| SendWelcome.WelcomeMessage | app/api/admin/responses/send-welcome/route.ts:44-65 | the mailer gets the normalised row carrying its sent flag |
| SendWelcome.FlagFollowsSend | app/api/admin/responses/send-welcome/route.ts:36-81 | a set flag stays set. A flag that becomes set was set by a successful send to that very response |
| SendWelcome.RefusedCallsAreInert | app/api/admin/responses/send-welcome/route.ts:15-41 | a missing id, a throwing lookup, an unknown id or an already-flagged row sends and writes nothing, and the answer is 500 exactly when the lookup threw |
| SendWelcome.FailedSendLeavesFlag | app/api/admin/responses/send-welcome/route.ts:68-90 | a throwing mailer answers 500 and leaves the flag false |
| SendWelcome.FailedUpdateSendsTwice | app/api/admin/responses/send-welcome/route.ts:66-81 | when the flag update throws after the mail went out, the flag stays false and the next call sends again |
| SendWelcome.Calls | app/api/admin/responses/send-welcome/route.ts:9-94 | repeated calls never add or remove rows |
| SendWelcome.AtMostOneWelcome | app/api/admin/responses/send-welcome/route.ts:36-76 | while the flag update works, repeated calls for one response send at most one email, and none once the flag is set |
| Migration.NatToString | lib/migration.ts:222 | the printed count is a non-empty digit string |
| Migration.NatToStringRoundTrip | lib/migration.ts:222 | reading the printed count back gives the count |
| Migration.NewDbInvite | lib/migration.ts:81-99 | the row keeps the id, takes `is_template` from the record (false when absent), parses the guest count, defaults missing events to empty and leaves the template link for the second pass |
| Migration.NewDbResponse | lib/migration.ts:189-206 | the row keeps the id and invite, parses the guest count, defaults missing events and starts unflagged |
| Migration.Migrate | lib/migration.ts:11-243 | a failed run reports one error and leaves both tables unchanged |
| Migration.MigrateInvitesFromKv | lib/migration.ts:11-243 | the summary and both tables afterwards are those of `Migrate` on the old tables |
| Migration.InviteStep | lib/migration.ts:54-114 | one invite key keeps the response table and every existing invite row |
| Migration.InvitePass | lib/migration.ts:53-115 | the first pass keeps the response table and every existing invite row |
| Migration.TemplateStep | lib/migration.ts:118-149 | one template-link key adds or removes no row and keeps the response table and the template map |
| Migration.TemplatePass | lib/migration.ts:117-150 | the second pass adds or removes no row and keeps the response table and the template map |
| Migration.ResponseStep | lib/migration.ts:154-216 | one response key keeps the invite table, the template map and every existing response row |
| Migration.ResponsePass | lib/migration.ts:152-218 | the response pass keeps the invite table, the template map and every existing response row |
| Migration.CopyInvites | lib/migration.ts:53-115 | the first loop leaves the tables, template map and counts of the first pass |
| Migration.LinkTemplates | lib/migration.ts:117-150 | the second loop leaves the tables and counts of the second pass |
| Migration.CopyResponses | lib/migration.ts:152-218 | the third loop leaves the tables and counts of the response pass |
| Migration.NothingToMigrate | lib/migration.ts:25-31 | no invite keys: success with zero counts and no writes |
| Migration.InvitePassAccounting | lib/migration.ts:54-115 | every invite key is counted exactly once as created, skipped or failed; the invite table grows by the created count, and responses are untouched |
| Migration.InviteStepAccounting | lib/migration.ts:54-115 | one invite key adds one to exactly one counter and keeps the template map pointing at stored templates |
| Migration.InvitePassCreates | lib/migration.ts:80-99 | every new invite row is the converted record of some listed key |
| Migration.InvitePassCovers | lib/migration.ts:54-115 | every listed, readable, non-failing invite ends up stored, and recorded in the template map when it is a template |
| Migration.InvitePassIdle | lib/migration.ts:64-78 | when every listed invite is already stored, the pass writes nothing, and without faults it only counts skips |
| Migration.TemplatePassLinksOnly | lib/migration.ts:117-150 | the second pass never adds or removes rows and adds at most one error per key. A row it changes differs only in its template link, which is the row id of the template named by a listed, readable record with that row's id |
| Migration.TemplateStepLinksOnly | lib/migration.ts:118-149 | one key changes at most one error and at most its own record's row, which it links to the row id of the template the record names |
| Migration.TemplatePassLinks | lib/migration.ts:118-140 | a listed, readable record naming a recorded template, whose row is stored and whose id no other listed record has, ends with its row linked to that template |
| Migration.TemplatePassClean | lib/migration.ts:117-150 | with no faults and every listed invite stored, the second pass counts nothing |
| Migration.ResponsePassAccounting | lib/migration.ts:153-217 | every response key is counted exactly once as created, skipped or failed; the response table grows by the created count, and invites are untouched |
| Migration.ResponseStepAccounting | lib/migration.ts:154-216 | one response key adds one to exactly one counter and never changes an existing row |
| Migration.ResponsePassCreates | lib/migration.ts:188-206 | every new response row is the converted record of a listed response whose invite was stored |
| Migration.ResponsePassCovers | lib/migration.ts:153-217 | every listed, readable, non-failing response ends up stored unless its invite is missing |
| Migration.ResponsePassIdle | lib/migration.ts:164-186 | when every listed response is stored or orphaned, the pass writes nothing, and without faults it only counts skips |
| Migration.RunAccounting | lib/migration.ts:43-218 | each key is counted once per pass that counts it, between the two bounds, and each table grows by its created count |
| Migration.CleanRunSettles | lib/migration.ts:53-218 | a run without faults leaves every listed invite stored and every listed response stored or orphaned |
| Migration.SettledRunIdle | lib/migration.ts:53-218 | a run over a settled database creates nothing and keeps the response table |
| Migration.SecondRunCreatesNothing | lib/migration.ts:11-243 | running the migration again after a clean run creates no invite and no response |
| BulkEmail.Pending | components/admin/BulkEmailButton.tsx:20-22 | only pending responses are picked, never more than the list |
| BulkEmail.PendingMembers | components/admin/BulkEmailButton.tsx:20-22 | a response is picked exactly when it has an address and has not received the welcome email |
| BulkEmail.PendingOfConcat | components/admin/BulkEmailButton.tsx:20-22 | picking keeps the original order |
| BulkEmail.Ids | components/admin/BulkEmailButton.tsx:72 | the posted ids are the picked responses' ids, in order |
| BulkEmail.Batches | components/admin/BulkEmailButton.tsx:59-60 | every batch holds one or two ids |
| BulkEmail.BatchesCoverInOrder | components/admin/BulkEmailButton.tsx:43-105 | the batches put together are exactly the ids, in order, so each picked response is posted once |
| BulkEmail.BatchCount | components/admin/BulkEmailButton.tsx:43-105 | there are ceil(n/2) batches |
| BulkEmail.Failures | components/admin/BulkEmailButton.tsx:76-92 | no more failures than requests |
| BulkEmail.SendBulkEmails | components/admin/BulkEmailButton.tsx:18-114 | nothing pending or a declined dialog sends nothing. Otherwise the pending ids go out in pairs, the progress is reported after each pair, the final notice counts successes and failures, and `onComplete` runs once |
| BulkEmail.ReportedSnoc | components/admin/BulkEmailButton.tsx:98-102 | reporting one more batch keeps the report correct |
| BulkEmail.SendWithThrottling | components/admin/BulkEmailButton.tsx:39-110 | the loop posts exactly the batches, reports min(2(j+1), n) sent after batch j with the failures among them, and counts every failure |
| BulkEmail.SendBatch | components/admin/BulkEmailButton.tsx:62-95 | a batch adds exactly its failed requests to the count |
| BulkEmail.ProgressBounded | components/admin/BulkEmailButton.tsx:98-102 | the reported progress never exceeds the total and never goes backwards, and neither does the failure count |
| BulkEmail.FailuresMonotone | components/admin/BulkEmailButton.tsx:76-92 | failures only accumulate |
| Auth.UrlToBase64 | utils/auth.ts:3 | the same length, `-` becomes `+`, `_` becomes `/`, and every other character is kept |
| Auth.Base64ToUrl | utils/auth.ts:3 | the reverse rewrite keeps the length |
| Auth.UrlToBase64RoundTrip | utils/auth.ts:3 | on base64url text the rewrite loses nothing |
| Auth.PaddingLength | utils/auth.ts:4-5 | at most three `=`, completing a multiple of four, and none when the length already is one |
| Auth.PaddingIsLeast | utils/auth.ts:4-5 | the padding is the least that completes a quantum |
| Auth.PaddedBase64 | utils/auth.ts:1-9 | the decoder's input is the rewritten segment followed by `=` up to a multiple of four |
| Auth.StripAdminPrefix | utils/auth.ts:14 | `admin_` is removed when it heads the token, and otherwise the token is kept |
| Auth.StripsOnce | utils/auth.ts:14 | the prefix comes off once |
| Auth.Split | utils/auth.ts:17 | at least one part, none holding a dot |
| Auth.SplitAfterHead | utils/auth.ts:17 | a dot-free head before a dot becomes the first part |
| Auth.SplitJoin | utils/auth.ts:17 | splitting undoes joining dot-free parts |
| Auth.JoinSplit | utils/auth.ts:17 | joining undoes splitting |
| Auth.SplitOfDotFree | utils/auth.ts:17 | a dot-free string is one part |
| Auth.Segments | utils/auth.ts:17-18 | when found, header and payload are non-empty |
| Auth.VerifyAuth | utils/auth.ts:11-47 | an accepted token has both segments |
| Auth.AcceptedIff | utils/auth.ts:11-47 | a three-part token, with or without the `admin_` prefix, is accepted exactly when the header left after the prefix and the payload are non-empty, the payload decodes, the claims have not expired and their role is admin |
| Auth.WrongRoleRejected | utils/auth.ts:32-35 | decodable claims whose role is not admin are rejected whatever their expiry |
| Auth.UndecodableRejected | utils/auth.ts:20-41 | a payload that does not decode or parse is rejected |
| Auth.MissingSegmentRejected | utils/auth.ts:17-18 | a token missing its header or payload is rejected |
| Auth.Expired | utils/auth.ts:26-27 | a missing or zero expiry never expires, and an expired token's expiry is before the current second |
| Auth.ExpiryBoundary | utils/auth.ts:26-30 | for admin claims in a token with or without the `admin_` prefix, an expiry before the current second rejects and an expiry at or after it accepts |
| Auth.StrippedDotFree | utils/auth.ts:14 | removing the prefix from a dot-free header leaves it dot-free |
| Auth.NoPrefixAcrossDot | utils/auth.ts:14 | the prefix test sees only the header |
| Auth.StripHeader | utils/auth.ts:14-17 | stripping affects the header only |
| Auth.SignatureIgnored | utils/auth.ts:17-38 | tokens differing only in the signature get the same verdict |
| Auth.SplitsAlike | utils/auth.ts:14-18 | the split of a three-part token yields its stripped header and payload |
| Middleware.Route | middleware.ts:8-41 | every redirect goes to the login page, and the cookie is deleted only when one was sent |
| Middleware.UnprotectedPasses | middleware.ts:10-15 | paths outside the admin area, and the login page, pass |
| Middleware.ProtectedPathNeedsValidToken | middleware.ts:17-40 | an admin path passes exactly when a cookie holds a verified token. Without a cookie it redirects, and with a bad one it redirects and deletes the cookie |
| Middleware.ValidTokenKept | middleware.ts:8-41 | a verified token always passes |
| Countdown.CalculateTimeLeft | hooks/useCountdown.tsx:17-35 | all fields non-negative, hours below 24, minutes and seconds below 60 |
| Countdown.ElapsedShowsZero | hooks/useCountdown.tsx:20-27 | a target now or in the past shows all zeros |
| Countdown.Recompose | hooks/useCountdown.tsx:29-34 | days, hours, minutes and seconds recompose to the whole seconds left |
| Countdown.DaysMonotone | hooks/useCountdown.tsx:29 | more time left never shows fewer days |
| Countdown.DivDiv | hooks/useCountdown.tsx:29-34 | dividing twice is dividing by the product, so the fields nest |
| Js.LeadingDigits | lib/migration.ts:87-90 | the longest digit prefix |
| Js.TrimStart | lib/migration.ts:87-90 | a suffix starting with no white space, and everything removed is white space |
| Js.TrimEnd | components/admin/StatsOverview.tsx:86 | a prefix ending with no white space, and everything removed is white space |
| Js.ParseIntReadsDigitPrefix | lib/migration.ts:87-90 | `parseInt` of digits followed by a non-digit reads the digits |
| Js.ParseIntOfUnsigned | lib/migration.ts:87-90 | an unsigned number reads its leading digits |
| Js.ParseIntWithoutDigits | lib/migration.ts:87-90 | text without digits reads as 0 |
| Js.LeadingDigitsOfConcat | lib/migration.ts:87-90 | a digit run followed by a non-digit is the leading digits |
| Js.ParseIntOrZero | lib/migration.ts:87-90 | a non-zero reading comes from text holding a digit, and a negative one from text whose first non-space character is `-` |
| Js.NumberOf | components/admin/StatsOverview.tsx:86 | a string that reads as a number holds only white space, digits and signs |
| Js.NumberOrZero | components/admin/StatsOverview.tsx:86 | a non-zero result is the number the string reads as |
| Js.NumberOfDigits | components/admin/StatsOverview.tsx:86 | `Number` of a digit string is its value |
| Records.Lookup | app/actions/invite.ts:98 | a key is found exactly when some entry has it, with that entry's flag |
| Records.GuestsOrZero | components/admin/StatsOverview.tsx:86 | a number is kept, a missing count is 0, and a non-zero count from a string is the number that string reads as |
| Records.ParsedGuests | lib/migration.ts:87-90 | a number is kept, a missing count is 0, and a non-zero count from a string comes from a string holding a digit |
| Records.PresentIfTruthy | app/api/admin/invites/route.ts:98-100 | present exactly when given and non-empty, and then unchanged |
| RecordLists.Insert | app/api/admin/invites/route.ts:54-57 | insertion adds exactly the one record |
| RecordLists.SortNewestFirst | app/api/admin/invites/route.ts:54-57 | sorting keeps the length |
| RecordLists.InsertKeepsOrder | app/api/admin/invites/route.ts:54-57 | inserting into a newest-first list keeps it newest first |
| RecordLists.SortNewestFirstCorrect | app/api/admin/invites/route.ts:54-57 | the sort is newest first and a permutation of its input |
| RecordLists.SortIsNewestFirst | app/api/admin/invites/route.ts:54-57 | the sort is newest first |
| RecordLists.SortKeepsRecords | app/api/admin/invites/route.ts:54-57 | the sort keeps exactly the records, with their multiplicity |
| RecordLists.Fetched | app/api/admin/invites/route.ts:39-53 | at most one record per key |
| RecordLists.FetchedMembers | app/api/admin/invites/route.ts:39-53 | a record is fetched exactly when a stored key whose fetch did not throw holds it |
| RecordLists.ListRecords | app/api/admin/invites/route.ts:25-72 | a throwing listing, and only that, answers 500; no keys answer an empty list |
| RecordLists.ListedRecords | app/api/admin/invites/route.ts:38-60 | a listing answers newest first with exactly the fetched records |
| AdminInvites.ListInvites | app/api/admin/invites/route.ts:25-72 | a throwing listing answers 500 "Failed to fetch invites" with its message; no keys answer an empty list |
| AdminInvites.ListedInvites | app/api/admin/invites/route.ts:38-60 | the invites come newest first by creation time, exactly the stored ones whose fetch did not throw |
| AdminInvites.AnySelectedIff | app/api/admin/invites/route.ts:82-84 | `some` is true exactly when some event is on |
| AdminInvites.NewInvite | app/api/admin/invites/route.ts:94-101 | the new invite has the fresh id, the given events and creation time, and name, email and phone only when non-empty. It has no template fields, location, guest count or response |
| AdminInvites.GenerateInvite | app/api/admin/invites/route.ts:74-126 | a refusal is 400 exactly for "no event selected" and otherwise 500. A created invite has the fresh id, the clock's time and the request's events, and needs a working put |
| AdminInvites.PostInvite | app/api/admin/invites/route.ts:74-126 | the reply is that of `GenerateInvite`, the invite is stored exactly when it is created, and responses are untouched |
| AdminInvites.NoEventRejected | app/api/admin/invites/route.ts:85-91 | no selected event answers 400 |
| AdminInvites.CreatedIff | app/api/admin/invites/route.ts:74-126 | an invite is created exactly when there is an events object with some event on and the store accepts the put, and then it carries the fresh id and the events |
| AdminInvites.StorageFailureIs500 | app/api/admin/invites/route.ts:106-124 | a failing put answers 500 "Failed to generate invite" with the store message |
| AdminResponses.ListResponses | app/api/admin/responses/route.ts:14-64 | a throwing listing answers 500 "Failed to fetch responses" with its message; no keys answer an empty list |
| AdminResponses.ListedResponses | app/api/admin/responses/route.ts:28-49 | the responses come newest first by creation time, exactly the stored ones whose fetch did not throw |
| AdminInviteForm.HandleChange | components/admin/InviteForm.tsx:47-76 | one change alters either the events or the properties, never both. Events change only for an `event_` checkbox, and only the input's own property can change or appear |
| AdminInviteForm.SetFlag | components/admin/InviteForm.tsx:57-63 | the named event takes the new value and every other key keeps its own |
| AdminInviteForm.EventCheckboxSetsOnlyItsEvent | components/admin/InviteForm.tsx:52-63 | ticking `event_<key>` sets that event's flag and changes nothing else |
| AdminInviteForm.OtherInputSetsItsField | components/admin/InviteForm.tsx:64-75 | any other input sets its own field, a boolean for a checkbox, `Number` of the text for a number input, else the text. Other fields and the events are unchanged |
| AdminInviteForm.GuestCountIsNumeric | components/admin/InviteForm.tsx:71-74 | typing digits in the guest count stores their value |
| AdminInviteForm.VisibleEvents | components/admin/InviteForm.tsx:270-279 | at most one checkbox per event |
| AdminInviteForm.VisibleKeys | components/admin/InviteForm.tsx:270-279 | at most one checkbox per event |
| AdminInviteForm.VisibleKeysMembers | components/admin/InviteForm.tsx:270-279 | an event is shown exactly when it is in the events object and the location allows it |
| AdminInviteForm.VisibilityByLocation | components/admin/InviteForm.tsx:270-279 | Houston shows every event but the Colorado reception, Colorado shows only that, and no location shows all |
| AdminInviteForm.LocationKeepsFlags | components/admin/InviteForm.tsx:71-74 | changing the location keeps every event flag, even of hidden events, and only changes which are shown |
| AdminInviteForm.HandleSubmit | components/admin/InviteForm.tsx:78-98 | the form's data is submitted and the form is reset to the blank state |
| AdminInviteForm.ResetForm | components/admin/InviteForm.tsx:82-97 | after submitting, every event is off, the location is Houston, the guest count is 5, and the four Houston events are shown |
| Stores.KvStore.PutInvite | app/actions/invite.ts:142 | the invite is stored under its key and nothing else changes |
| Stores.KvStore.PutResponse | app/actions/invite.ts:145 | the response is stored under its key and nothing else changes |

## Left out

- Rendering is not modelled: HTML markup, colours, icons, animations and toasts, and the mail's HTML body beyond the facts it shows.
- Timers, `Promise.all` parallelism and React state updates are left out. Each request of a bulk batch runs in turn, and `setTimeout` is a plain loop iteration.
- The stores are key-to-record maps. The `invite:`/`response:` key prefixes are not modelled, and a listing yields the ids directly.
- Failures of `request.json()` and of the Prisma disconnect are left out, and so are the login, logout and single-record admin routes, which are not part of this model.
- The welcome mailer is an oracle. The welcome route imports `sendWelcomeEmail`, but lib/email.ts does not define it.
- Timestamps are integers, so the Date parsing and the ISO strings are not modelled. Because of that, no invite with an unparseable date sorts as NaN.
- The migration's `new Date()` fallbacks for missing response timestamps are not modelled.
- Js.NumberOf: `Number` is modelled for trimmed decimal integers with an optional sign. Hex, exponent, fraction and `Infinity` forms read as NaN here.
- Records.Lookup: an events object holds only its own entries. Keys inherited from `Object.prototype`, such as `constructor`, are not modelled. `templateInvite.events[event]` at app/actions/invite.ts:98 would read them as truthy.
- Validation.FieldError: the guest count is an integer here. The raw string the guest form submits, NaN and fractions are not modelled; they pass the range check at app/actions/invite.ts:61.
- Middleware.Route: the `config.matcher` of middleware.ts:44-46 (`/admin/:path*`) is not modelled; the function's own `startsWith("/admin")` test is. A path such as `/administrator` is protected by the model but never reaches the middleware in the deployed app.
- Auth.VerifyAuth: the base64 and JSON decoding is an oracle parameter, and a non-numeric `exp` is read as absent.
- AdminInviteForm.HandleChange: requires that no input is named `events`. The form has no such input.
- RecordLists.SortNewestFirst: the sort is a stable insertion sort. Its stability is not stated as a contract; newest-first order and permutation are.
- Stats.FilteredResponses: with an event selected, it requires every response to carry an events object. Without one, the source throws while rendering.
- Stats.CardGuestCount, Stats.ShownTotalGuests and Stats.ShownTotalResponses: these require the same, because the source throws in the same way (components/admin/StatsOverview.tsx:118 and 189-190).
