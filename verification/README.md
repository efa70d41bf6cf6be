# events-apis core in Dafny

A functional model of the server logic of the events-apis backend (an
event-planning service with App Store subscriptions). It covers:

- **The App Store webhook.** The route splits and decodes the signed payload. The
  x5c certificate chain and the two inner JWS tokens are verified against Apple's
  root. A verified notification then drives the subscription state machine. That
  machine updates the user's `subscriptionInfo`, records the notification in the
  transaction ledger and sends the billing-failure email.
- **Entitlement.** `isUserFreeOrPremium` and `activateFreeTrial`, and the
  plan-limit gates of event creation and invitation acceptance.
- **Event membership.** `checkPermission` and its two permission tables, the
  role shown to a user, and the classification of invited emails. Also the
  guards and list updates of invite, accept, remove invitee and assign role;
  the todo and routine list edits with their counters; and event creation and
  editing.
- **Small helpers.**
  - Order-preserving de-duplication.
  - Zero-padded invite-link ids.
  - Random numeric codes.
  - The error-message builder.
  - Reminder texts, participants, push recipients and in-app notifications.
  - Notification pagination and the unread/new counters.
  - Notification settings, the email change and the push token.
- **The account flows.** The reset-password and email-verification state machines.

The store is in memory: sequences of user, event, ledger and session records.
A handler's writes are applied together or not at all, as its transaction
does. The following are parameters of the model:

- cryptography (a `Crypto` record of certificate parsing, issuance and
  signature checks, and JWS verification; a `Hashing` record of SHA-256 and bcrypt);
- base64 decoding and JSON parsing (`Codec`);
- the clock (`now`, an integer of milliseconds);
- `Math.random` (a function from draw index to `[0, 1)`);
- whether the mailer throws (`mailerFails`).

Dafny's modules follow the source files:

| module | file | models |
|---|---|---|
| `AppleVerify` | apple_verify.dfy | `verifyAndGetAppStoreTransactions` |
| `AppStoreWebhook` | webhook.dfy | `handleVerifiedAppStoreNotification` |
| `Routes` | route.dfy | the app.js webhook and job routes |
| `Ledger` | ledger.dfy | the `AppStoreSubscriptionTransaction` schema |
| `Subscription` | subscription.dfy | `subscriptionInfo`, `isUserFreeOrPremium`, `activateFreeTrial` |
| `Users` | users.dfy | the user record and the notification counters |
| `Accounts` | accounts.dfy | the User.js methods and the reset/verify controllers |
| `Events` | events_access.dfy | controllers/events/utils.js and the index.js permission table |
| `EventOps` | events_ops.dfy | the list and membership handlers of controllers/events/index.js |
| `EventForms` | event_forms.dfy | createEvent.js and editEvent.js |
| `Notifications` | notifications.dfy | controllers/notifications.js |
| `Reminders` | reminders.dfy | controllers/webhooks.js |
| `Settings` | settings.dfy | controllers/settings.js |
| `Misc` | misc.dfy | utils/misc.js |
| `ErrorCodes` | error_codes.dfy | utils/errorCodeMap.js |

The remaining modules hold shared helpers:

- `Text`: decimal numerals, JavaScript whitespace and `trim`.
- `Seqs`: `filter`, `map`, `find`, `split` and `join`.
- `Wrappers`: `Option` and `Outcome`.

### Behaviour of the code worth noting

- **Chain check and the last certificate.** The chain check runs after the root
  is pushed onto the certificate list. So the last supplied certificate is checked
  twice against the root: by issuance and by its signature under the root's key
  (services/AppleService.js:257-273).
- **Signature algorithm.** No algorithm allow-list exists. The header's `alg` is
  passed unchanged to `jwt.verify`.
- **The two permission tables.** The `permissions` table of controllers/events/utils.js
  has no routine operations, so its `checkPermission` throws for an invitee on a
  routine operation. The copy in controllers/events/index.js lists them. The
  handlers use the index.js copy.
- **The verified webhook path.** The handler only calls `res.status(...)`, so a
  verified notification is never answered (see Findings).
- **The reminder gap.** `createEvent` and `editEvent` refuse a non-positive
  `daysBtwnReminderAndEvent` (controllers/events/createEvent.js:59-65,
  controllers/events/editEvent.js:52-58), but the Event schema has no such path,
  so the value is never stored. It only guards.
- **Reminder configurations.** The Event schema declares
  `defaultReminderConfiguration` and `customReminderConfiguration` as nested
  paths (models/Event.js:124-149), so they are objects even when never set. A
  reminder for such an event reads "undefined undefined" where the period
  would be (controllers/webhooks.js:194-206); nothing throws.
- **Mail after the commit.** The handlers await their emails after the
  transaction has committed, with no catch. A failing mailer makes the handler
  throw although its writes are kept. Push sending is not awaited and catches
  its own errors, so it never changes the answer.
- **Building the reply.** `transformEvent` (controllers/events/index.js:178-198,
  controllers/events/utils.js:148-174) reads the role entry of every invitee.
  On an event where an invitee has none, `inviteUsers`, `acceptInvitation`
  and `editEvent` throw after their writes and mail. The accept, remove and
  re-role updates never create such an event from one that has none.
- **De-duplicating participants.** `getUniqueElements` keys a JavaScript `Set`
  by the participants' ids, which are ObjectIds compared by reference
  (controllers/webhooks.js:273), while the model compares ids by value. The
  stored counters agree: `updateMany` on `{ _id: [...] }` increments each
  matching user once, however often the id is listed.
## Model

| member | source | states |
|---|---|---|
| AppleVerify.ParseAll | services/AppleService.js:248-250 | The certificate list decodes exactly when every entry parses; the result is the entries' certificates, in order |
| AppleVerify.VerifyAndGetAppStoreTransactions | services/AppleService.js:243-309 | Step by step, the method reaches the reference verdict. It passes only for a parsed, valid chain, and its claims are those verified under the leaf key |
| AppleVerify.ClaimsBoundToLeaf | services/AppleService.js:275-303 | A passed verification has a non-empty chain, and both claim sets are what the first (leaf) certificate's key verified with the header's algorithm |
| AppleVerify.BrokenLinkRejected | services/AppleService.js:264-273 | One certificate that does not verify under the next one's key (or the root's, for the last) fails the whole notification |
| AppleVerify.ForeignRootRejected | services/AppleService.js:257-262 | A chain whose last certificate the root did not issue is rejected whatever its payload |
| AppleVerify.NoCertificatesRejected | services/AppleService.js:245-262 | A missing or empty x5c list never passes (fail-closed) |
| AppleVerify.ChainSuffixValid | services/AppleService.js:264-273 | Dropping the leaf from a valid chain leaves a valid chain: trust is inherited towards the root |
| AppStoreWebhook.FindUser | services/AppleService.js:54-61 | The user found is the first whose App Store id equals the token; none is found exactly when no user has it |
| AppStoreWebhook.SetSubscription | services/AppleService.js:94-104 | Only the chosen user's subscription is replaced; every other user is untouched |
| AppStoreWebhook.LedgerEntry | services/AppleService.js:65-71 | The ledger record names the user and the notification's type and id |
| AppStoreWebhook.Subscribed | services/AppleService.js:36-41 | SUBSCRIBED/DID_RENEW state: the update exists iff both dates are present. It then makes the user premium on the App Store with the transaction's dates and ids, Monthly iff the product is Monthly123, and renewable unless autoRenewStatus is 0. The free-trial fields are kept |
| AppStoreWebhook.Transact | services/AppleService.js:72-105 | The transactional write answers 200 exactly when the update exists and the record validates, and then both changes are applied. Otherwise it answers 500 and nothing is written |
| AppStoreWebhook.ChangeRenewalStatus | services/AppleService.js:108-118 | DID_CHANGE_RENEWAL_STATUS changes only `appStore.isRenewable`, writes no ledger record and answers 200 |
| AppStoreWebhook.Deactivate | services/AppleService.js:120-188 | The billing-failure types revoke premium without ledgering. They send one billing email, or answer 500 when the mailer throws |
| AppStoreWebhook.Dispatch | services/AppleService.js:64-236 | Per-type dispatch: a status is set iff the type is handled. Only ledgered types touch the ledger; a failed ledgered type writes nothing; emails only come from a deactivation; REFUND always ends in 500 with nothing written |
| AppStoreWebhook.HandleVerifiedAppStoreNotification | services/AppleService.js:22-241 | The handler as written. A ledgered notification id answers 200 and changes nothing, as does an unknown account token. Only the matching user changes, never a free-trial field. The ledger grows by at most one valid record carrying this notification's id and type |
| AppStoreWebhook.LedgeredRedeliveryIsNoOp | services/AppleService.js:44-52 | Redelivering a SUBSCRIBED, DID_RENEW or EXPIRED notification changes nothing and sends nothing |
| AppStoreWebhook.RecordedIsProcessed | services/AppleService.js:44-52 | A run that grew the ledger answered 200 and makes the notification count as processed |
| AppStoreWebhook.UnrecordedChangesNothing | services/AppleService.js:44-106 | A ledgered type that wrote no record changed nothing, and a redelivery, whatever the mailer does, gives the same answer |
| AppStoreWebhook.BillingRedeliveryResendsEmail | services/AppleService.js:120-188 | DID_FAIL_TO_RENEW and GRACE_PERIOD_EXPIRED are not ledgered, so a redelivery emails the user again |
| AppStoreWebhook.DispatchBilling | services/AppleService.js:120-188 | Both billing-failure types take the same deactivation path |
| AppStoreWebhook.FindUserStable | services/AppleService.js:54-56 | User lookup depends only on the users' App Store ids |
| AppStoreWebhook.LedgerStaysUnique | services/AppleService.js:44-52 | The duplicate check keeps notification ids unique in the ledger across any run |
| AppStoreWebhook.SubscribedGrantsPremium | services/AppleService.js:64-106 | After a successful SUBSCRIBED/DID_RENEW the user is entitled at every instant, with the transaction's expiry, product type and renewability |
| AppStoreWebhook.ExpiredRevokesPremium | services/AppleService.js:139-169 | After a successful EXPIRED the user is not premium and stays entitled only through a still-running free trial |
| AppStoreWebhook.RefundAsWrittenIsLost | services/AppleService.js:190-240 | A REFUND for a known user answers 500 and changes nothing |
| AppStoreWebhook.RefundAsWrittenCounterexample | services/AppleService.js:204-235 | A concrete refund of the current monthly plan leaves the user premium and the ledger empty |
| AppStoreWebhook.RefundCorrected | services/AppleService.js:190-236 | REFUND as intended: the record is written with an enum that admits REFUND. Premium is revoked exactly when the refund matches the current original transaction and product |
| AppStoreWebhook.RecordOnly | services/AppleService.js:229-235 | The non-matching refund only records the transaction: 200 iff the record validates, users untouched |
| AppStoreWebhook.HandleVerifiedAppStoreNotificationCorrected | services/AppleService.js:22-241 | The corrected handler agrees with the original on every type but REFUND, keeps the duplicate check and trial fields, and appends at most one fresh record |
| AppStoreWebhook.DispatchForFoundUser | services/AppleService.js:54-236 | For a found user and a fresh notification, dispatch keeps the other users and trial fields and appends at most one valid record of this notification |
| AppStoreWebhook.RefundForFoundUser | services/AppleService.js:190-236 | The corrected refund keeps the other users and trial fields and appends at most one fresh record |
| AppStoreWebhook.RefundCorrectedRevokes | services/AppleService.js:204-228 | The same concrete refund, corrected, revokes premium, records one REFUND and is then acknowledged as a duplicate |
| AppStoreWebhook.CorrectedLedgerStaysUnique | services/AppleService.js:44-52 | With the correction, ledger notification ids stay unique |
| Routes.Prepare | app.js:80-89 | Preparation succeeds only when a payload is present with at least two dot-separated segments |
| Routes.AppleNotificationRoute | app.js:78-104 | The route answers 500 (exception) or 403 (not verified) and then changes nothing. It never answers a verified notification, and that is exactly when the handler runs |
| Routes.UnverifiedChangesNothing | app.js:91-99 | An unverified or unparsable notification changes no user, ledger or email |
| Routes.ThirdSegmentIgnored | app.js:81-84 | Anything after the second dot of the signed payload has no effect |
| Routes.SegmentsOfSignedPayload | app.js:81 | Splitting `h.p.rest` and `h.p` on dots yields `h` and `p` as the first two segments |
| Routes.SameSegmentsSamePreparation | app.js:81-89 | Payloads agreeing on their first two segments prepare identically |
| Routes.VerifiedNotificationUnanswered | app.js:91-96 | Every verified notification goes unanswered |
| Routes.AppleNotificationRouteCorrected | app.js:78-104 | With the handler's status sent: a refusal with a store change is impossible before verification. Silence only for types the handler does not handle |
| Routes.CorrectedAcknowledgesDuplicate | app.js:91-96 | A verified, already ledgered notification is answered 200 with nothing changed |
| Routes.AwaitedJobRoute | app.js:47-75 | The reminder and repeat jobs run iff the secret header equals the configured secret; otherwise 403. A failing job answers 500 |
| Routes.DetachedJobRoute | app.js:107-115 | The routine job runs iff the secret matches and then always answers 200 |
| Routes.JobRoutesAgreeOnAccess | app.js:47-115 | The three job routes admit exactly the same requests |
| Routes.UnsetSecretOpensJobRoutes | app.js:50 | With no configured secret, a request without the header runs every job |
| Ledger.InsertAgainst | models/AppStoreSubscriptionTransaction.js:3-30 | A record is stored iff it validates; it is appended even when its notification id is already present |
| Ledger.RefundRecordRejected | models/AppStoreSubscriptionTransaction.js:10-13 | A REFUND record fails the type enum |
| Ledger.TypeIsOptional | models/AppStoreSubscriptionTransaction.js:10-13 | A record without a type validates when the required paths are set |
| Ledger.RequiredPathsEnforced | models/AppStoreSubscriptionTransaction.js:4-28 | A record missing any of user, transactionId, notificationUUID or originalTransactionId is rejected |
| Ledger.InsertAllowsDuplicate | models/AppStoreSubscriptionTransaction.js:20-23 | No unique index exists: inserting a second record with the same notification id breaks uniqueness |
| Ledger.InsertFreshKeepsUnique | models/AppStoreSubscriptionTransaction.js:20-23 | Inserting a fresh notification id keeps ids unique and marks it processed |
| Subscription.IsUserFreeOrPremium | controllers/events/utils.js:15-44 | The same test as the copy at controllers/events/index.js:45-75. Premium always entitles; otherwise a trial flagged active entitles exactly while its expiry is after now, and a missing expiry (the schema's `null`, read by `new Date` as the epoch) entitles no later instant than 1970 |
| Subscription.EntitlementMonotone | controllers/events/utils.js:15-44 | Whoever is free-or-premium now was so at every earlier instant |
| Subscription.NewSubscriptionInfo | models/User.js:63-80 | A new user is never entitled and holds the documented defaults |
| Subscription.ActivateFreeTrial | controllers/subscriptions.js:10-28 | A caller whose user document is missing throws. Otherwise activation fails iff the trial was used; else it starts a seven-day trial that entitles the user until then, touching no premium or App Store field |
| Subscription.FreeTrialAtMostOnce | controllers/subscriptions.js:16-21 | A second activation always fails |
| Users.NotifyWhere | controllers/events/createEvent.js:171-175 | `$inc` of both counters on exactly the selected users |
| Accounts.ComfirmPassword | models/User.js:333-335 | Comparison against the stored hash, or against the empty string when none is set |
| Accounts.HandleResetPassword | models/User.js:372-391 | Stores the hash of the returned token and the returned five-digit code, expiry now plus ten minutes, and an unverified flag; nothing else changes |
| Accounts.HandleEmailVerification | models/User.js:352-370 | Stores the hash of the returned token and the returned code, expiring ten minutes later; nothing else changes |
| Accounts.VerifyResetPasswordCodeAsWritten | controllers/users/verifyResetPasswordCode.js:1-10 | The module uses `crypto` without requiring it, so every call throws |
| Accounts.VerifyResetPasswordCode | controllers/users/verifyResetPasswordCode.js:6-29 | With hashing available: no open session gives 'Invalid token'. Success iff the code matches, and then only the verified flag is set and the token returned |
| Accounts.ResetPassword | controllers/users/resetPassword.js:7-36 | Success iff an open session has a verified code. It then stores the new password's hash and clears the session fields |
| Accounts.ResetSessionClosed | controllers/users/resetPassword.js:28-33 | After a reset the user holds no session under any hash |
| Accounts.FreshSessionNeedsCode | controllers/users/resetPassword.js:21-23 | A freshly issued session cannot reset the password before its code is verified |
| Accounts.ResetFlowSucceeds | models/User.js:372-391 | Issuing, verifying with the mailed code and resetting within ten minutes succeeds and closes the session |
| Accounts.VerifyEmail | controllers/users/verifyEmail.js:7-36 | Users removed by the TTL index are gone; among the rest, no holder of the hash gives the expired-session error. A completed signup with the same email is refused before the code is compared. Success iff the code matches, and then only `isEmailVerified` is set |
| Accounts.Live | models/User.js:88 | At a given time the collection holds, in order, exactly the users whose `verifyEmailExpire` is not 600 seconds past |
| Accounts.ExpiredVerificationRefused | models/User.js:88 | When every holder of the token's hash is 600 seconds past its expiry, verification reports the session expired |
| Accounts.IssueThenVerify | models/User.js:352-370 | Issuing a verification and answering with the stored code before the TTL removes the user succeeds and verifies that user, when nobody else holds the hash or has completed signup with the email |
| Accounts.CompletedSignupCannotReverify | controllers/users/verifyEmail.js:20-27 | A present user whose signup is complete is always refused as 'Email taken.' |
| Events.InviteeNotifHosts | controllers/events/utils.js:196-208 | The invitees to notify are all other invitees and then the owner, never the executor |
| Events.CheckPermissionWith | controllers/events/utils.js:176-218 | The owner is granted with every invitee as host. An invitee is granted iff its role is in the entry, throws iff the entry is missing, and is never its own host |
| Events.CheckPermission | controllers/events/index.js:201-243 | With the index.js table the check never throws; granted iff owner or role listed; the user type says which |
| Events.OwnerAlwaysPermitted | controllers/events/utils.js:178-185 | The owner may do anything under either table |
| Events.TablesAgree | controllers/events/utils.js:118-130 | Both tables decide non-routine operations identically |
| Events.UtilsThrowsOnRoutineOps | controllers/events/utils.js:118-130 | For routine operations, the utils.js check throws for an invitee while index.js admits Admins and Editors |
| Events.PermissionIgnoresContent | controllers/events/index.js:201-243 | Permission depends only on owner, invitees and roles |
| Events.DeleteEventOwnerOnly | controllers/events/index.js:146-161 | Only the owner may delete an event |
| Events.ExecutorNotNotified | controllers/events/utils.js:188-217 | A user who is not listed as an invitee is never among the hosts its own action notifies |
| Events.GetLoggedInUserRoleInEvent | controllers/events/utils.js:132-146 | The owner is shown Admin first. Otherwise a non-invitee gets none and an invitee gets its role entry |
| Events.MyRoleMatchesPermission | controllers/events/utils.js:132-217 | On a consistent event the role shown agrees with what checkPermission allows |
| Events.RoleOf | controllers/events/utils.js:188-190 | The role entry found for a user, or none exactly when no entry names it |
| Events.ParticipantEmails | controllers/events/utils.js:50-60 | The owner's email followed by each invitee's, in order |
| Events.ParticipantIff | controllers/events/utils.js:50-60 | An email is a participant's iff it is the owner's or some invitee's |
| Events.UnregisteredEmails | controllers/events/utils.js:62-66 | Exactly the invitable emails not registered, in order |
| Events.UnregisteredPartition | controllers/events/utils.js:62-66 | Registered and unregistered emails split the invitable list without loss |
| Events.NotifiableEmails | controllers/events/utils.js:68-72 | Exactly the emails of the users whose email setting for the scenario is on |
| Events.RecipientsForEmailNotification | controllers/events/utils.js:74-89 | Each recipient is a user with the setting on, with that user's time zone |
| Events.RecipientsAreNotifiable | controllers/events/utils.js:68-89 | The recipients' emails are exactly the notifiable emails, in order |
| Events.UnregisteredNonEmpty | controllers/events/utils.js:62-66 | Some invited email is unregistered iff no user has it |
| Events.EmailGoesToIff | controllers/events/index.js:99-103 | A scenario email goes to some selected user iff one of them has that email setting on |
| Events.InviteEmailSentIff | controllers/events/index.js:583-608 | The invitation email is sent iff some invited email has no user or some user with an invited email has `eventInvite` on |
| Events.UnitMs | controllers/events/utils.js:242-251 | Any unit other than week, day or hour counts as minutes |
| Events.DeriveReminderTime | controllers/events/utils.js:236-252 | The reminder lies exactly `number` weeks, days or hours before the start, and `number` minutes for any other unit; strictly before for a positive number |
| Events.DeriveNextRepetitionDate | controllers/events/utils.js:254-257 | The next repetition is after the end date |
| Events.RepetitionRoundTrip | controllers/events/utils.js:236-257 | One minute before the next repetition is the end date |
| Events.ReminderTimeShifts | controllers/events/utils.js:236-252 | Moving the start moves the reminder equally; more units put it earlier |
| EventOps.Refuse | controllers/events/index.js:466-468 | An error answer writes nothing |
| EventOps.AfterCommit | controllers/events/index.js:600-608 | A mail after the commit keeps the committed store; it raises iff it is sent and the mailer fails, and otherwise leaves the answer unchanged |
| EventOps.Transformed | controllers/events/index.js:178-198 | Building the reply keeps the store; it raises iff the answer was a success and some invitee has no role entry, and otherwise leaves the answer unchanged |
| EventOps.Classify | controllers/events/index.js:497-505 | Each requested email lands in exactly one list, preserving order, with pre-invited taking precedence over participant |
| EventOps.ClassifyStep | controllers/events/index.js:497-505 | Each further email extends exactly the list its tests select |
| EventOps.PlacedUpToIsClassify | controllers/events/index.js:497-505 | The pushing loop builds the three order-preserving filters |
| EventOps.PlacedAllIsClassify | controllers/events/index.js:497-505 | Once every email has been pushed, the three lists are the classification |
| EventOps.ClassifyInvites | controllers/events/index.js:497-505 | The `forEach` loop computes the classification |
| EventOps.ClassificationError | controllers/events/index.js:507-523 | A refusal iff some email is a participant or pre-invited |
| EventOps.AllInvitable | controllers/events/index.js:507-529 | Without a refusal every requested email is invitable |
| EventOps.AllPending | controllers/events/index.js:516-523 | Emails that are all pending are refused as pre-invited |
| EventOps.WithInvitations | controllers/events/index.js:556-564 | Invitations and invitedEmails grow by exactly the given emails in order with the caller as invitor; nothing else changes |
| EventOps.InviteUsers | controllers/events/index.js:457-632 | Success iff the event exists, the caller may invite, no self-invite, and every email is new; errors write nothing. An empty list changes nothing; otherwise the invitations are appended and invited users' counters rise. The handler raises iff it went ahead and either the mailer fails while an invitation email goes out, or some invitee has no role entry for the reply |
| EventOps.ReinviteRefused | controllers/events/index.js:516-523 | Inviting an email already invited is refused |
| EventOps.PendingRefused | controllers/events/index.js:516-523 | A pending email invited by a permitted caller gets the pre-invited error |
| EventOps.InvitorOf | controllers/events/index.js:681-684 | The invitor is that of an invitation for the email, or the owner when there is none |
| EventOps.Joined | controllers/events/index.js:687-698 | The caller is appended as a Viewer and its email leaves invitedEmails and invitations; nothing else changes |
| EventOps.AcceptInvitation | controllers/events/index.js:637-780 | A missing event or an email not invited is refused with nothing written. A caller who may join (invited, and under five invitees unless the owner is free-or-premium) is added and the invitor notified. Success iff the caller may join, no acceptance email to the invitor fails, and every invitee of the joined event has a role entry; an over-limit refusal whose owner email fails raises |
| EventOps.JoinLimitKept | controllers/events/index.js:652-673 | An unentitled owner's event never grows past five invitees |
| EventOps.AcceptOnce | controllers/events/index.js:648-650 | An invitation cannot be accepted twice |
| EventOps.JoinedKeepsRolesCovered | controllers/events/index.js:687-688 | Accepting keeps every invitee covered by a role entry, the newcomer included |
| EventOps.InviteThenAccept | controllers/events/index.js:457-698 | An invitation followed by acceptance makes the guest an invitee, credited to the inviter |
| EventOps.AcceptPending | controllers/events/index.js:648-698 | Any pending email can be accepted while there is room |
| EventOps.InvitorOfNewInvitation | controllers/events/index.js:556-561 | A new invitation records its inviter |
| EventOps.RemovalRoleCheck | controllers/events/index.js:1070-1101 | An Admin or Editor may remove exactly the invitees ranked below it |
| EventOps.Without | controllers/events/index.js:1103-1110 | The invitee leaves invitees and inviteeRoles; every other entry and field stays |
| EventOps.WithoutKeepsRolesCovered | controllers/events/index.js:1103-1110 | Removing an invitee keeps every remaining invitee covered by a role entry |
| EventOps.RemovalRefusal | controllers/events/index.js:1045-1101 | The removal goes ahead iff permitted, not oneself, the target is an invitee, and an invitee executor outranks it |
| EventOps.RemovalRankRefusal | controllers/events/index.js:1070-1101 | For an invitee executor, the role checks refuse exactly when the target is not ranked below |
| EventOps.RemoverIsAdminOrEditor | controllers/events/index.js:146-161 | A permitted non-owner remover is an Admin or Editor |
| EventOps.RemoveInvitee | controllers/events/index.js:1034-1180 | Errors write nothing. When the guards pass the invitee is removed and notified; the handler then raises iff the invitee's user is missing, its removal email fails, or it had no role entry |
| EventOps.RemovedIsGone | controllers/events/index.js:1060-1067 | A removed invitee can be neither removed again nor re-roled |
| EventOps.Reroled | controllers/events/index.js:1236-1242 | Only the target's role entry changes |
| EventOps.ReroledKeepsRolesCovered | controllers/events/index.js:1236-1242 | Re-roling keeps every invitee covered by a role entry |
| EventOps.AssignmentRefusal | controllers/events/index.js:1198-1233 | Assignment goes ahead iff permitted, not oneself, an invitee, and an invitee executor outranks it |
| EventOps.AssignmentRankRefusal | controllers/events/index.js:1217-1233 | For an invitee executor the Admin check refuses exactly when the target is not ranked below |
| EventOps.AssignmentRoleCheck | controllers/events/index.js:1217-1233 | An Admin may re-role exactly the invitees ranked below it |
| EventOps.AssignerIsAdmin | controllers/events/index.js:146-161 | A permitted non-owner assigner is an Admin |
| EventOps.AssignRoleToInvitee | controllers/events/index.js:1186-1310 | Success iff the guards pass; then only the target's role changes and it is notified. It raises iff the guards pass and the target's user is missing or its role email fails |
| EventOps.AssignedRoleHolds | controllers/events/index.js:1236-1242 | The target holds the new role and everyone else keeps theirs |
| EventOps.RoleOfReroled | controllers/events/index.js:1236-1242 | The role lookup after re-roling, for any user |
| EventOps.DeleteTodo | controllers/events/index.js:1531-1630 | Goes ahead iff permitted and the todo exists; then no todo keeps the id, the others stay in order, the counter drops by one and the hosts are notified. It raises iff it went ahead and a deletion email to a host fails |
| EventOps.DeleteTodoIsSplice | controllers/events/index.js:1557-1560 | With distinct ids, deleting is splicing out the one index |
| EventOps.DeleteTodoKeepsCounts | controllers/events/index.js:1557-1560 | The todo counter stays equal to the list length |
| EventOps.WithCopyAfter | controllers/events/index.js:1663-1667 | The copy under the fresh id sits right after the original; everything else keeps its place |
| EventOps.DuplicateTodo | controllers/events/index.js:1636-1744 | Goes ahead iff permitted (as addTodo) and the todo exists; then the copy is inserted after it, the counter rises by one and the hosts are notified. It raises iff it went ahead and an added-todo email to a host fails |
| EventOps.DuplicateThenDelete | controllers/events/index.js:1531-1669 | Deleting the copy restores the list and counter |
| EventOps.DuplicateKeepsDeletePermission | controllers/events/index.js:146-161 | Whoever may duplicate may delete the copy |
| EventOps.DeleteCopyFromStore | controllers/events/index.js:1531-1560 | Deleting the copy from a store holding it succeeds and gives back the original list |
| EventOps.DeleteCopy | controllers/events/index.js:1557-1560 | Filtering out the copy's fresh id gives back the original list |
| EventOps.CopyKeepsIdsDistinct | controllers/events/index.js:1663-1667 | A copy under an unused id keeps todo ids distinct |
| EventOps.DeleteRoutine | controllers/events/index.js:2006-2048 | Success iff permitted and the routine exists; then exactly the first routine with the id is spliced out, the others keep their order, and the counter drops by one |
| EventOps.DeleteRoutineKeepsCounts | controllers/events/index.js:2037-2038 | The routine counter stays equal to the list length |
| EventOps.DuplicateTodoKeepsCounts | controllers/events/index.js:1663-1669 | The todo counter stays equal to the list length |
| EventForms.RoutineCountOf | controllers/events/createEvent.js:82 | The routine count is zero iff there are no routines |
| EventForms.RoutineLimitRefusal | controllers/events/createEvent.js:84-96 | Refusal iff there are routines, a numeric maximum, and more email routines than it |
| EventForms.UnsetRoutineMaxAdmitsAll | controllers/events/createEvent.js:86-90 | An unset maximum (NaN) never refuses |
| EventForms.CreateRefusal | controllers/events/createEvent.js:36-96 | The plan limit comes first; creation goes ahead iff entitled or first event, no self-invite, a positive reminder gap, and the routine limit holds |
| EventForms.NewEvent | controllers/events/createEvent.js:67-142 | The event is owned by the creator, has one invitation per requested email with the creator as invitor, never lists the creator's email, and has matching counts |
| EventForms.CreateEvent | controllers/events/createEvent.js:27-243 | Refused iff a guard refuses; otherwise the event is created with the requested invitations and the invited registered users are notified. It raises iff created, the mailer fails and an invitation email goes out |
| EventForms.CreateInvitedAsRequested | controllers/events/createEvent.js:139-142 | After the self-invite guard, the stored invitedEmails are the requested ones |
| EventForms.CreatedInvitationsAcceptable | controllers/events/createEvent.js:70-75 | Every guest invited at creation can accept, credited to the creator |
| EventForms.OneEventOnFreePlan | controllers/events/createEvent.js:36-49 | An unentitled creator can only create a first event; the refusal writes nothing |
| EventForms.CreateReminderGapOnlyGuards | controllers/events/createEvent.js:59-65 | Any two positive reminder gaps give the same creation and the same answer |
| EventForms.EditRefusal | controllers/events/editEvent.js:31-95 | The self-invite refusal comes before the lookup. Then 404, owner only, the reminder gap, and the classification refusals |
| EventForms.Edited | controllers/events/editEvent.js:104-176 | Title, lists, counters and link flag are replaced, invitations appended with the caller as invitor; id, owner, invitees and roles stay |
| EventForms.EditEvent | controllers/events/editEvent.js:26-276 | Saved iff no refusal, todos given and the routine limit holds, and then invited users are notified; otherwise nothing is written. A form without todos throws. A saved edit raises iff the mailer fails while an invitation email goes out, or some invitee has no role entry for the reply |
| EventForms.EditReminderGapOnlyGuards | controllers/events/editEvent.js:52-58 | Any two positive reminder gaps give the same edit and the same answer |
| EventForms.EditInvitesLikeInviteUsers | controllers/events/editEvent.js:69-246 | A saved edit records invitations, notifies and mails exactly as inviteUsers would, giving the same answer |
| EventForms.EditRejectsLikeInviteUsers | controllers/events/editEvent.js:79-95 | Classification refusals are exactly those of inviteUsers |
| EventForms.EditTwiceRefused | controllers/events/editEvent.js:88-95 | Resubmitting an edit that invited someone is refused as pre-invited |
| Notifications.PageSize | controllers/notifications.js:45-47 | The page size is positive; an absent or zero limit gives ten |
| Notifications.NewCountCleared | controllers/notifications.js:78-81 | Only the caller's new-count becomes zero |
| Notifications.GetNotifications | controllers/notifications.js:44-92 | Over the collection in newest-first order, the page is the caller's matching notifications cut to the page size. There is a next page iff more remain, the cursor is the last id iff so, and the total counts all the caller's notifications |
| Notifications.FilterNewestFirst | controllers/notifications.js:62-63 | Filtering keeps newest-first order |
| Notifications.OlderThanPivot | controllers/notifications.js:57-59 | In newest-first order, the items older than item k are those after it |
| Notifications.NextPageContinues | controllers/notifications.js:57-90 | The next cursor continues exactly where the page ended |
| Notifications.LastPageHoldsRest | controllers/notifications.js:68-76 | Without a next page, the first page holds all the caller's notifications |
| Notifications.MarkedRead | controllers/notifications.js:107-116 | The unread count drops by one only when positive; new-count becomes zero |
| Notifications.MarkedReadKeepsCountNonNegative | controllers/notifications.js:109-111 | The unread count never goes negative |
| Notifications.ReadAfterNotified | controllers/notifications.js:107-116 | Reading after one notification restores the unread count |
| Notifications.MarkWith | controllers/notifications.js:97-119 | A missing notification throws. Success iff the notification and user exist; then only that notification and that user's counters change |
| Notifications.MarkNotificationAsClicked | controllers/notifications.js:97-119 | The returned notification carries the requested clicked flag |
| Notifications.MarkNotificationAction | controllers/notifications.js:124-146 | The returned notification is clicked and carries the action flag |
| Notifications.MarkTwiceCountsTwice | controllers/notifications.js:107-116 | Marking the same notification twice decrements unread twice |
| Reminders.HoursPhrase | controllers/webhooks.js:48-60 | "less than 1 hour", "1 hour", otherwise the count and "hours" |
| Reminders.DayReminderEmailText | controllers/webhooks.js:48-53 | "<name> Happens in less than 1 hour.", "<name> Happens in 1 hour.", otherwise "<name> Happens in <count> hours." |
| Reminders.DayReminderPushText | controllers/webhooks.js:55-60 | "Happens in less than 1 hour.", "Happens in 1 hour.", otherwise "Happens in <count> hours." |
| Reminders.HoursPhraseInjective | controllers/webhooks.js:48-60 | Different hour counts give different phrases |
| Reminders.DayEmailExtendsPush | controllers/webhooks.js:48-60 | The event-day email is the event name followed by the push text |
| Reminders.PeriodPhrase | controllers/webhooks.js:198-206 | Number and unit as printed ("undefined" when unset), with an "s" iff the number is set and exceeds one |
| Reminders.UnsetPeriodPhrase | models/Event.js:124-149 | An unset configuration is phrased "undefined undefined" |
| Reminders.GetParticipant | controllers/webhooks.js:179-257 | Never throws; only unknown types give `{}`. Otherwise the record addresses the user with its kind's texts: the configured period for custom and default reminders, the hours for the event day |
| Reminders.UnsetConfigText | controllers/webhooks.js:194-206 | An unset configuration still gives a reminder, reading "undefined undefined" |
| Reminders.GetParticipants | controllers/webhooks.js:135-177 | The owner's record first, then each invitee's in order |
| Reminders.ParticipantsAreMembers | controllers/webhooks.js:135-177 | Every configured reminder participant is addressed to the owner or the invitee at its place |
| Reminders.SaveInAppNotification | controllers/webhooks.js:259-293 | One notification per participant, but each user's counters rise once however often listed |
| Reminders.ListedTwiceCountedOnce | controllers/webhooks.js:273-290 | A user listed twice gets two notifications and one increment |
| Reminders.DevicePayloadsOfFiltered | controllers/webhooks.js:320-339 | A participant's payloads are one per own device, in device order |
| Reminders.RecipientsOfSnoc | controllers/webhooks.js:320-340 | Recipients are built participant by participant |
| Reminders.DevicesOf | controllers/webhooks.js:322-324 | The participant's devices are those owned by it |
| Reminders.PushPayloads | controllers/webhooks.js:328-338 | One payload is appended per device |
| Reminders.AddParticipantRecipients | controllers/webhooks.js:320-339 | One participant's device payloads are appended |
| Reminders.GetPushNotificationRecipients | controllers/webhooks.js:317-343 | One entry per (participant, own device) pair, by participant then device. An empty participant throws iff there are devices |
| Reminders.HandleDefaultRemindersAsWritten | controllers/webhooks.js:394-442 | Any due event raises a ReferenceError and nothing is marked |
| Reminders.DispatchedForSnoc | controllers/webhooks.js:425-430 | Dispatches compose event by event |
| Reminders.DispatchDefault | controllers/webhooks.js:425-430 | Exactly the events without a custom reminder time get their participants, one list each, in order |
| Reminders.HandleDefaultReminders | controllers/webhooks.js:394-442 | The corrected job never throws, reminds every due event without a custom time and marks every event |
| Reminders.DispatchSingle | controllers/webhooks.js:425-436 | A single event without a custom time is reminded once and marked |
| Reminders.DispatchOne | controllers/webhooks.js:425-430 | A single event without a custom time gets its participants |
| Reminders.UnsetDefaultStillReminded | controllers/webhooks.js:425-436 | An event without a default configuration is still reminded, reading "undefined undefined" |
| Reminders.DueEventText | controllers/webhooks.js:198-203 | The default-reminder email of a two-day configuration reads "Launch is coming up in 2 days" |
| Reminders.TwoDays | controllers/webhooks.js:198-206 | Two days are phrased "2 days" |
| Reminders.DefaultReminderNeverSent | controllers/webhooks.js:425-430 | As written the due event is never reminded; corrected, it is |
| Settings.EditableAreNonRoutine | controllers/settings.js:14-80 | The editable scenarios are exactly the non-routine ones |
| Settings.PickEditable | controllers/settings.js:14-80 | Exactly the editable keys, set where the input has a flag |
| Settings.GenerateEditNotificationUpdates | controllers/settings.js:14-80 | Every push and email flag lands on its own key, absent where not given. The newsletter flags are copied |
| Settings.RoutineAlertsNotEdited | controllers/settings.js:14-80 | Routine scenarios are never written |
| Settings.DataValue | utils/templateParser.js:7-23 | The template value under a key, when present |
| Settings.ChangeEmailRefusal | controllers/settings.js:96-126 | The request goes ahead iff the emails differ, the new one is unused, and the caller is an email user with the old address |
| Settings.SendCode | controllers/settings.js:94-166 | A refusal writes nothing. Otherwise a request is stored under the token's hash, the mail is addressed to the new email, and the reply follows the mailer outcome |
| Settings.SendCodeForChangingEmailAsWritten | controllers/settings.js:139-143 | The mail's template data never carries the code |
| Settings.SendCodeForChangingEmail | controllers/settings.js:94-166 | Corrected: the mailed code is the stored request's code |
| Settings.DataOfCorrected | controllers/settings.js:139-143 | The corrected template data carries the code |
| Settings.ChangeEmailCodeNeverMailed | controllers/settings.js:139-164 | As written the request succeeds while the user never receives the code |
| Settings.VerifyCodeForChangingEmail | controllers/settings.js:171-205 | Missing session, wrong code and taken email are refused with nothing changed. Success iff the old address still exists, and only that user's email changes |
| Settings.VerifyKeepsEmailsDistinct | controllers/settings.js:190-202 | Email changes keep addresses unique |
| Settings.VerifyTwiceRefused | controllers/settings.js:190-197 | A second verification of the same request is refused as taken |
| Settings.ChangeEmailRoundTrip | controllers/settings.js:94-205 | Sending then verifying with the mailed code changes exactly the caller's email |
| Settings.RequestFoundAtEnd | models/UserChangeEmail.js:32-48 | A new request is the one its token finds |
| Settings.CallerFoundByEmail | controllers/settings.js:200 | With distinct emails, the lookup by email finds the caller |
| Settings.EditEventSetting | controllers/settings.js:234-247 | A non-positive reminder number is refused; otherwise only the caller's settings change |
| Settings.EditEventSettingKeepsRemindersValid | controllers/settings.js:235-242 | Stored reminder numbers stay positive |
| Settings.WithPushToken | controllers/settings.js:287-295 | The saved flag is set; IOS updates only the iOS token and ANDROID only the Android one |
| Settings.UpsertSession | controllers/settings.js:304-308 | The first session of the user on the platform takes the token, or one is added |
| Settings.SavePushNotificationToken | controllers/settings.js:284-313 | The user is updated and a session upserted; a missing user throws |
| Settings.UpsertSessionIdempotent | controllers/settings.js:304-308 | Upserting twice is upserting once |
| Settings.SavePushTokenIdempotent | controllers/settings.js:284-313 | Saving the same token twice is saving it once |
| Misc.UniqueBy | utils/misc.js:13-26 | A subsequence of the input with distinct keys and every input key present |
| Misc.GetUniqueElements | utils/misc.js:13-26 | The loop computes the reference de-duplication |
| Misc.UniqueKeepsFirst | utils/misc.js:17-23 | The first element with each key is kept |
| Misc.UniqueOfDistinct | utils/misc.js:13-26 | A list with distinct keys is unchanged |
| Misc.UniqueIdempotent | utils/misc.js:13-26 | De-duplicating twice is once |
| Misc.KeysOfSnoc | utils/misc.js:17-23 | The keys of a list grow by the key of the appended element |
| Misc.GenerateNewInviteLinkId | utils/misc.js:62-78 | The successor of the previous id, zero-padded to eight characters and unpadded beyond. No event gives "00000001"; a non-numeric id gives "00000NaN" |
| Misc.DrawDigit | utils/misc.js:56 | A draw gives a digit 1-9 |
| Misc.RandomCode | utils/misc.js:53-60 | Exactly max(length, 0) digits 1-9 |
| Misc.RandomNumbers | utils/misc.js:53-60 | The loop yields the code, one digit per draw |
| ErrorCodes.Build | utils/errorCodeMap.js:6-8 | The result is trimmed and opens with the bracketed code |
| ErrorCodes.BuildExact | utils/errorCodeMap.js:6-8 | A message without trailing whitespace comes out verbatim |
| ErrorCodes.BuildEmptyMessage | utils/errorCodeMap.js:6-8 | An empty message gives "[code]" |
| ErrorCodes.BuildDefaults | utils/errorCodeMap.js:6 | The defaults give "[]" |
| ErrorCodes.TableEntriesBuildVerbatim | utils/errorCodeMap.js:2-8 | Every message in the table builds verbatim as `[code] message`: none ends in whitespace that the trim would drop |
| Text.ParseNatToString | utils/misc.js:69-70 | Printing then parsing a natural number is the identity |
| Text.NatToStringInjective | utils/misc.js:70 | Distinct numbers print distinctly |
| Text.ParseLeadingZeros | utils/misc.js:72-77 | Leading zeros do not change a numeral's value |
| Text.Trim | utils/errorCodeMap.js:7 | The result is a slice with whitespace on either side removed and neither end whitespace |
| Text.TrimKeepsTrimmed | utils/errorCodeMap.js:7 | A string without edge whitespace is unchanged |
| Text.TrimKeepsPrefix | utils/errorCodeMap.js:7 | Trimming keeps a prefix that starts and ends in non-whitespace |
| Text.TrimDropsTrailingSpace | utils/errorCodeMap.js:7 | Trailing whitespace is removed |

## Left out

- Persistence: Mongoose queries, transactions, sessions and cascade hooks are
  modelled as pure functions over in-memory sequences. A concurrent duplicate
  delivery racing the ledger check is not modelled.
- Cryptography: X509 parsing, `checkIssued`, `verify`, JWK to PEM, `jwt.verify`,
  SHA-256, bcrypt and `crypto.randomBytes` are uninterpreted parameters.
- Base64 decoding and `JSON.parse` are opaque parameters (`Codec`).
- Calendar arithmetic: timestamps are integers, and `subWeeks`/`subDays` are
  exact multiples of a fixed week and day; `startOfDay`/`endOfDay`, all-day
  events, time zones and `toLocaleString` are not modelled.
- Mail, push, SMS, S3, deep links and the Apple Connect API are external. A
  failing mailer is an input (`mailerFails`); where a handler awaits its mail
  after the commit, that failure makes it raise with the writes kept. Push
  sending is not awaited and catches its own errors, so it never changes an
  answer and is not modelled. The mail text is kept where a property needs it.
- middleware/async.js is not part of this model: an exception inside a
  handler is a `Raised`/`Thrown` outcome.
- The cron jobs' database filters (`handleCustomReminders`, `handleEventRoutines`,
  `handleEventRepeat`, `handleEventReminder`, `getPushNotificationDevices`) are
  orchestration and queries, not modelled; `handleDefaultReminders` is modelled
  over the events its query returns.
- Other handlers of the same files are not modelled, because they are outside
  the modelled core:
  - `deleteEvent`, `toggleInviteLink`, `rejectInvitation`, the invite-link
    handlers, `addTodo`, `editTodo`, `markTodo`, `addRoutine`, `editRoutine`;
  - `deleteAccount`, `changePassword`, `editUserProfile`, `editNotification`,
    `updateIosAppVersion`;
  - `getResetPasswordToken`.
- In-app notification documents created by the event handlers are not stored;
  the counters they update are.
- Count queries (`Event.countDocuments`) are inputs (`ownedCount`).
- Schema setters and validators are not modelled: the lower-casing and trimming
  of emails, the trimming of `Todo.title`, `resourceType`, the `platform`
  validation of login sessions, and the `match` validators of
  models/UserChangeEmail.js:9-13 and 19-23, which make the request's create
  throw before anything is saved when an email is malformed.
- `isInviteLinkActive`, the background cover file deletion, and all-day date
  normalisation are not modelled beyond copying the flag.
- Notifications.PageSize: a negative or non-numeric limit is not modelled,
  because the limit is taken as a natural number.
- Misc.GenerateNewInviteLinkId: only all-digit ids are read as numbers, and any
  other id is treated as `NaN`. JavaScript's `Number` also accepts surrounding
  whitespace, signs, exponents and hexadecimal, and those readings are not modelled.
  Above 2^53 JavaScript's `Number` rounds, and from 1e21 the id prints in
  exponent form; the model's integers are exact.
- Accounts.VerifyEmail: a user is treated as removed exactly 600 seconds after
  `verifyEmailExpire`; the TTL monitor's delay of up to a minute is not modelled.
- Notifications.GetNotifications: the input is the collection already in
  newest-first order, as the query's `sort({ _id: -1 })` returns it; the sort
  itself is not modelled.
- Reminders.GetParticipant: the hours until the event are an input, because
  `differenceInHours` reads the clock.
- Subscription.ActivateFreeTrial: `addDays` adds seven local calendar days,
  which span 167 or 169 hours across a daylight-saving change; the model
  adds exactly seven 24-hour days.
- Events.DeriveReminderTime: the units are fixed lengths of milliseconds, so
  daylight-saving shifts in `subDays` and `subWeeks` are not modelled.
- AppleVerify.VerifyAndGetAppStoreTransactions: the root certificate is an
  input rather than a file read, and the algorithm is passed through unchecked,
  as in the code.

## Findings

| source | as written | input that shows it | evidently intended | confidence | as-written member | corrected member |
|---|---|---|---|---|---|---|
| services/AppleService.js:212 | REFUND uses an unbound `session`, so both branches throw and answer 500 | A REFUND of the user's current monthly subscription | Revoke premium and record the refund (the ledger enum must also admit REFUND) | not executed | AppStoreWebhook.RefundAsWrittenCounterexample | AppStoreWebhook.RefundCorrectedRevokes |
| app.js:91-96 | The verified path never sends a response: the handler only sets `res.status` | Any verified notification | Send the status the handler set | not executed | Routes.VerifiedNotificationUnanswered | Routes.CorrectedAcknowledgesDuplicate |
| controllers/users/verifyResetPasswordCode.js:7 | `crypto` is used without being required, so the step throws | Any token and code | Require `crypto` as resetPassword.js does | not executed | Accounts.VerifyResetPasswordCodeAsWritten | Accounts.ResetFlowSucceeds |
| controllers/webhooks.js:427 | `customReminderTime` is an undeclared identifier, so any due event raises a ReferenceError | One event due for its default reminder | Test `event.customReminderTime` | not executed | Reminders.DefaultReminderNeverSent | Reminders.DispatchSingle |
| controllers/settings.js:139-143 | The change-email mail's template data omits the code | Any accepted change-email request | Pass the code to the template | not executed | Settings.ChangeEmailCodeNeverMailed | Settings.ChangeEmailRoundTrip |
