/** controllers/settings.js: the notification-settings update builder, the
    two-step e-mail change, the event-settings guard and the push-token save.

    SHA-256 is the `sha256Hex` of an `Accounts.Hashing` record; the random
    token and the draws behind the five-digit code are parameters, as is what
    became of the e-mail (`MailOutcome`). The users collection is a sequence
    and `findOne`/`findById` return the first match in it. */
module Settings {
  import opened Wrappers
  import opened Seqs
  import opened Misc
  import opened Users
  import opened ErrorCodes
  import Accounts

  // ---------------------------------------------------------------------------
  // generateEditNotificationUpdates
  // ---------------------------------------------------------------------------

  /** The twelve scenarios the builder reads from its input. */
  const EditableScenarios: set<Scenario> := {
    EventInvite, EventDelete, EventInvitationAcceptance, EventInvitationRejection,
    InviteeRemoved, EventRoleAssigned,
    TodoCompleted, TodoUnmarked, TodoAdded, TodoEdited, TodoDeleted,
    DirectMessaging }

  predicate IsRoutineScenario(s: Scenario) {
    s.RoutineAdded? || s.RoutineEdited? || s.RoutineDeleted? || s.RoutineCompleted?
  }

  /** The editable scenarios are exactly the ones that are not about routines. */
  lemma EditableAreNonRoutine(s: Scenario)
    ensures s in EditableScenarios <==> !IsRoutineScenario(s)
  {
    match s
    case EventInvite => case EventDelete => case EventInvitationAcceptance =>
    case EventInvitationRejection => case InviteeRemoved => case EventRoleAssigned =>
    case TodoCompleted => case TodoUnmarked => case TodoAdded => case TodoEdited =>
    case TodoDeleted => case DirectMessaging =>
    case RoutineAdded => case RoutineEdited => case RoutineDeleted => case RoutineCompleted =>
  }

  /** The `pushNotifX` / `emailNotifX` / `newsLetterX` arguments; a scenario
      missing from a map is an argument left `undefined`. */
  datatype NotificationInput = NotificationInput(
    push: map<Scenario, bool>,
    email: map<Scenario, bool>,
    newsLetterFeaturesAnnouncement: Option<bool>,
    newsLetterAnnouncementAndOffers: Option<bool>)

  /** A settings object of the update: every key it names, holding a flag or
      `undefined`. */
  type FlagUpdates = map<Scenario, Option<bool>>

  datatype NotificationUpdates = NotificationUpdates(
    pushNotifSettings: FlagUpdates,
    emailNotifSettings: FlagUpdates,
    newsletterSettings: NewsletterSettings)

  /** The editable keys of one settings object, each copied from the input. */
  function PickEditable(flags: map<Scenario, bool>): (r: FlagUpdates)
    ensures r.Keys == EditableScenarios
    ensures forall s :: s in r ==> (r[s].None? <==> s !in flags)
    ensures forall s :: s in r && s in flags ==> r[s] == Some(flags[s])
  {
    map s | s in EditableScenarios :: if s in flags then Some(flags[s]) else None
  }

  /** `generateEditNotificationUpdates`. */
  function GenerateEditNotificationUpdates(input: NotificationInput): (r: NotificationUpdates)
    ensures r.pushNotifSettings.Keys == r.emailNotifSettings.Keys == EditableScenarios
    ensures forall s :: s in EditableScenarios ==>
      && (r.pushNotifSettings[s] == Some(true) <==> IsOn(input.push, s))
      && (r.emailNotifSettings[s] == Some(true) <==> IsOn(input.email, s))
    ensures forall s :: s in EditableScenarios ==>
      (r.pushNotifSettings[s].None? <==> s !in input.push) && (r.emailNotifSettings[s].None? <==> s !in input.email)
    ensures r.newsletterSettings.announcementAndOffers == input.newsLetterAnnouncementAndOffers
    ensures r.newsletterSettings.featuresAnnouncement == input.newsLetterFeaturesAnnouncement
  {
    NotificationUpdates(
      PickEditable(input.push),
      PickEditable(input.email),
      NewsletterSettings(input.newsLetterAnnouncementAndOffers, input.newsLetterFeaturesAnnouncement))
  }

  /** The update names every scenario except the four routine ones, whatever
      the input holds for those. */
  lemma RoutineAlertsNotEdited(input: NotificationInput, s: Scenario)
    ensures s in GenerateEditNotificationUpdates(input).pushNotifSettings <==> !IsRoutineScenario(s)
    ensures s in GenerateEditNotificationUpdates(input).emailNotifSettings <==> !IsRoutineScenario(s)
  {
    EditableAreNonRoutine(s);
  }

  // ---------------------------------------------------------------------------
  // sendCodeForChangingEmail / verifyCodeForChangingEmail
  // ---------------------------------------------------------------------------

  /** A document of models/UserChangeEmail.js. */
  datatype ChangeRequest = ChangeRequest(
    oldEmail: string,
    newEmail: string,
    changeEmailCode: string,
    changeEmailToken: string)

  const SameEmail: string := "Old email and new email must not be the same."
  const EmailExists: string := "The email you are trying to change to already exists."
  const SingleSignOn: string := "Email is linked with a single sign on and cannot be changed."
  const OldEmailMismatch: string := "Old email does not match."
  const TryAgain: string := "Failed. Please try again."
  const ChangeSessionExpired: string := "Session expired."
  const IncorrectChangeCode: string := "Incorrect code"
  const VerificationSubject: string := "Your verification code"

  /** Some user already has `email` (`User.findOne({ email })`). */
  predicate EmailInUse(users: seq<User>, email: string) {
    exists j :: 0 <= j < |users| && users[j].email == email
  }

  predicate DistinctEmails(users: seq<User>) {
    forall i, j :: 0 <= i < j < |users| ==> users[i].email != users[j].email
  }

  /** What became of the verification e-mail: sent, not attempted because
      the template came back empty, or `sendEmail` threw. */
  datatype MailOutcome = Delivered | EmptyTemplate | MailerThrew

  /** The object handed to `templateParser`, in key order; the parser
      replaces each `{key}` of the template by its value. */
  type TemplateData = seq<(string, Option<string>)>

  datatype Mail = Mail(to: seq<string>, subject: string, template: string, data: TemplateData)

  /** The template data as written: the host, the user's name and the old
      address. */
  function ChangeEmailDataAsWritten(host: Option<string>, u: User, oldEmail: string): TemplateData {
    [("host", host), ("fullname", u.name), ("previousEmail", Some(oldEmail))]
  }

  /** The template data as the other verification mails build it: with the
      code under `verificationCode`. */
  function ChangeEmailData(host: Option<string>, u: User, oldEmail: string, code: string): TemplateData {
    ChangeEmailDataAsWritten(host, u, oldEmail) + [("verificationCode", Some(code))]
  }

  /** The value the template data holds under `key`, if any. */
  function DataValue(data: TemplateData, key: string): (r: Option<string>)
    ensures (forall i :: 0 <= i < |data| ==> data[i].0 != key) ==> r.None?
    ensures r.Some? ==> exists i :: 0 <= i < |data| && data[i] == (key, r)
  {
    match FindFirst(data, (kv: (string, Option<string>)) => kv.0 == key)
    case None => None
    case Some(i) => data[i].1
  }

  datatype SendResult = SendResult(reply: Outcome<string>, requests: seq<ChangeRequest>, mail: Option<Mail>)

  function FindUser(users: seq<User>, id: string): Option<nat> {
    FindFirst(users, (u: User) => u.id == id)
  }

  /** The guards of `sendCodeForChangingEmail`, in the order they run; `None`
      when the request goes ahead. A missing caller fails on
      `user.registeredWith`; the last two guards `throw` their
      `ErrorResponse` rather than return it. */
  function ChangeEmailRefusal(users: seq<User>, callerId: string, oldEmail: string, newEmail: string)
    : (r: Option<Outcome<string>>)
    ensures r.None? <==>
      && oldEmail != newEmail && !EmailInUse(users, newEmail)
      && FindUser(users, callerId).Some?
      && users[FindUser(users, callerId).value].registeredWith == Email
      && users[FindUser(users, callerId).value].email == oldEmail
    ensures oldEmail == newEmail ==> r == Some(Fail(400, SameEmail))
    ensures oldEmail != newEmail && EmailInUse(users, newEmail) ==> r == Some(Fail(400, EmailExists))
    ensures r.Some? ==> !r.value.Ok?
  {
    if oldEmail == newEmail then Some(Fail(400, SameEmail))
    else if exists j :: 0 <= j < |users| && users[j].email == newEmail then Some(Fail(400, EmailExists))
    else match FindUser(users, callerId)
      case None => Some(Thrown("TypeError: Cannot read properties of null (reading 'registeredWith')"))
      case Some(j) =>
        if users[j].registeredWith != Email then Some(Thrown("ErrorResponse 404: " + SingleSignOn))
        else if users[j].email != oldEmail then Some(Thrown("ErrorResponse 404: " + OldEmailMismatch))
        else None
  }

  /** The handler with the template data chosen by `withCode`. The request is
      saved before the mail is attempted, so it stays even when the reply
      is 500. */
  function SendCode(
    h: Accounts.Hashing, users: seq<User>, requests: seq<ChangeRequest>, callerId: string,
    oldEmail: string, newEmail: string, host: Option<string>, token: string, rand: nat -> real,
    mail: MailOutcome, withCode: bool)
    : (r: SendResult)
    requires forall i: nat :: 0.0 <= rand(i) < 1.0
    ensures ChangeEmailRefusal(users, callerId, oldEmail, newEmail).Some? ==>
      r == SendResult(ChangeEmailRefusal(users, callerId, oldEmail, newEmail).value, requests, None)
    ensures ChangeEmailRefusal(users, callerId, oldEmail, newEmail).None? ==>
      var code := RandomCode(Accounts.CodeLength, rand);
      var u := users[FindUser(users, callerId).value];
      && r.requests == requests + [ChangeRequest(oldEmail, newEmail, code, h.sha256Hex(token))]
      && (mail == Delivered ==> r.reply == Ok(token))
      && (mail == EmptyTemplate ==> r.reply == Fail(500, Build(E1000, TryAgain)) && r.mail.None?)
      && (mail == MailerThrew ==> r.reply == Fail(500, TryAgain))
      && (mail != EmptyTemplate ==>
            && r.mail.Some? && r.mail.value.to == [newEmail]
            && r.mail.value.subject == VerificationSubject
            && r.mail.value.data == (if withCode then ChangeEmailData(host, u, oldEmail, code)
                                     else ChangeEmailDataAsWritten(host, u, oldEmail)))
    ensures r.reply.Ok? ==> r.reply.value == token
  {
    match ChangeEmailRefusal(users, callerId, oldEmail, newEmail)
    case Some(refusal) => SendResult(refusal, requests, None)
    case None =>
      var u := users[FindUser(users, callerId).value];
      var code := RandomCode(Accounts.CodeLength, rand);
      var requests' := requests + [ChangeRequest(oldEmail, newEmail, code, h.sha256Hex(token))];
      var data := if withCode then ChangeEmailData(host, u, oldEmail, code) else ChangeEmailDataAsWritten(host, u, oldEmail);
      var sent := Mail([newEmail], VerificationSubject, "emailChanged.html", data);
      match mail
      case Delivered => SendResult(Ok(token), requests', Some(sent))
      case EmptyTemplate => SendResult(Fail(500, Build(E1000, TryAgain)), requests', None)
      case MailerThrew => SendResult(Fail(500, TryAgain), requests', Some(sent))
  }

  /** `sendCodeForChangingEmail` as written. */
  function SendCodeForChangingEmailAsWritten(
    h: Accounts.Hashing, users: seq<User>, requests: seq<ChangeRequest>, callerId: string,
    oldEmail: string, newEmail: string, host: Option<string>, token: string, rand: nat -> real, mail: MailOutcome)
    : (r: SendResult)
    requires forall i: nat :: 0.0 <= rand(i) < 1.0
    ensures r.mail.Some? ==> forall i :: 0 <= i < |r.mail.value.data| ==> r.mail.value.data[i].0 != "verificationCode"
    ensures r.reply.Ok? ==>
      |r.requests| == |requests| + 1 && r.requests[|requests|].changeEmailToken == h.sha256Hex(token)
  {
    SendCode(h, users, requests, callerId, oldEmail, newEmail, host, token, rand, mail, false)
  }

  /** `sendCodeForChangingEmail` with the code in the template data. */
  function SendCodeForChangingEmail(
    h: Accounts.Hashing, users: seq<User>, requests: seq<ChangeRequest>, callerId: string,
    oldEmail: string, newEmail: string, host: Option<string>, token: string, rand: nat -> real, mail: MailOutcome)
    : (r: SendResult)
    requires forall i: nat :: 0.0 <= rand(i) < 1.0
    ensures r.mail.Some? ==>
      && |r.requests| == |requests| + 1
      && DataValue(r.mail.value.data, "verificationCode") == Some(r.requests[|requests|].changeEmailCode)
    ensures r.reply.Ok? ==>
      |r.requests| == |requests| + 1 && r.requests[|requests|].changeEmailToken == h.sha256Hex(token)
  {
    var r := SendCode(h, users, requests, callerId, oldEmail, newEmail, host, token, rand, mail, true);
    if r.mail.Some? then
      DataOfCorrected(host, users[FindUser(users, callerId).value], oldEmail, RandomCode(Accounts.CodeLength, rand));
      r
    else r
  }

  lemma DataOfCorrected(host: Option<string>, u: User, oldEmail: string, code: string)
    ensures DataValue(ChangeEmailData(host, u, oldEmail, code), "verificationCode") == Some(code)
  {
    var d := ChangeEmailData(host, u, oldEmail, code);
    assert d[3] == ("verificationCode", Some(code));
  }

  /** A reply of 200 that carries a token, but a mail from which the code
      cannot be read: the step that needs the code cannot be completed. */
  lemma ChangeEmailCodeNeverMailed(
    h: Accounts.Hashing, users: seq<User>, requests: seq<ChangeRequest>, callerId: string,
    oldEmail: string, newEmail: string, host: Option<string>, token: string, rand: nat -> real)
    requires forall i: nat :: 0.0 <= rand(i) < 1.0
    requires ChangeEmailRefusal(users, callerId, oldEmail, newEmail).None?
    ensures var r := SendCodeForChangingEmailAsWritten(h, users, requests, callerId, oldEmail, newEmail, host, token, rand, Delivered);
      && r.reply == Ok(token)
      && r.mail.Some?
      && (forall i :: 0 <= i < |r.mail.value.data| ==> r.mail.value.data[i].0 != "verificationCode")
      && DataValue(r.mail.value.data, "verificationCode").None?
  {
  }

  function HashTest(hash: string): ChangeRequest -> bool {
    (q: ChangeRequest) => q.changeEmailToken == hash
  }

  function FindRequest(requests: seq<ChangeRequest>, hash: string): Option<nat> {
    FindFirst(requests, HashTest(hash))
  }

  function FindByEmail(users: seq<User>, email: string): Option<nat> {
    FindFirst(users, (u: User) => u.email == email)
  }

  datatype VerifyResult = VerifyResult(reply: Outcome<User>, users: seq<User>)

  /** `verifyCodeForChangingEmail`: the request is looked up by the token's
      hash, the code compared, the new address checked again, and the user
      holding the old address gets the new one. The request is not removed. */
  function VerifyCodeForChangingEmail(
    h: Accounts.Hashing, users: seq<User>, requests: seq<ChangeRequest>, token: string, code: string)
    : (r: VerifyResult)
    ensures FindRequest(requests, h.sha256Hex(token)).None? ==> r == VerifyResult(Fail(400, ChangeSessionExpired), users)
    ensures FindRequest(requests, h.sha256Hex(token)).Some? ==>
      var q := requests[FindRequest(requests, h.sha256Hex(token)).value];
      && (q.changeEmailCode != code ==> r == VerifyResult(Fail(400, IncorrectChangeCode), users))
      && (q.changeEmailCode == code && EmailInUse(users, q.newEmail) ==> r == VerifyResult(Fail(400, EmailExists), users))
      && (r.reply.Ok? <==> q.changeEmailCode == code && !EmailInUse(users, q.newEmail) && EmailInUse(users, q.oldEmail))
      && (r.reply.Ok? ==>
            var j := FindByEmail(users, q.oldEmail).value;
            && r.users == users[j := users[j].(email := q.newEmail)]
            && r.reply.value == r.users[j])
    ensures !r.reply.Ok? ==> r.users == users
  {
    match FindRequest(requests, h.sha256Hex(token))
    case None => VerifyResult(Fail(400, ChangeSessionExpired), users)
    case Some(k) =>
      var q := requests[k];
      if q.changeEmailCode != code then VerifyResult(Fail(400, IncorrectChangeCode), users)
      else if exists j :: 0 <= j < |users| && users[j].email == q.newEmail then VerifyResult(Fail(400, EmailExists), users)
      else match FindByEmail(users, q.oldEmail)
        case None => VerifyResult(Thrown("TypeError: Cannot set properties of null (setting 'email')"), users)
        case Some(j) =>
          var users' := users[j := users[j].(email := q.newEmail)];
          VerifyResult(Ok(users'[j]), users')
  }

  /** A successful change keeps e-mail addresses unique among users. */
  lemma {:induction false} VerifyKeepsEmailsDistinct(
    h: Accounts.Hashing, users: seq<User>, requests: seq<ChangeRequest>, token: string, code: string)
    requires DistinctEmails(users)
    ensures DistinctEmails(VerifyCodeForChangingEmail(h, users, requests, token, code).users)
  {
    var r := VerifyCodeForChangingEmail(h, users, requests, token, code);
    if r.reply.Ok? {
      var q := requests[FindRequest(requests, h.sha256Hex(token)).value];
      var j := FindByEmail(users, q.oldEmail).value;
      forall a, b | 0 <= a < b < |r.users| ensures r.users[a].email != r.users[b].email {
        if a == j {
          assert users[b].email != q.newEmail;
        } else if b == j {
          assert users[a].email != q.newEmail;
        }
      }
    }
  }

  /** The request survives a successful change, but replaying it is refused:
      its new address is now taken. */
  lemma VerifyTwiceRefused(
    h: Accounts.Hashing, users: seq<User>, requests: seq<ChangeRequest>, token: string, code: string)
    requires VerifyCodeForChangingEmail(h, users, requests, token, code).reply.Ok?
    ensures var r1 := VerifyCodeForChangingEmail(h, users, requests, token, code);
      VerifyCodeForChangingEmail(h, r1.users, requests, token, code).reply == Fail(400, EmailExists)
  {
    var r1 := VerifyCodeForChangingEmail(h, users, requests, token, code);
    var q := requests[FindRequest(requests, h.sha256Hex(token)).value];
    var j := FindByEmail(users, q.oldEmail).value;
    assert r1.users[j].email == q.newEmail;
  }

  /** Sending with the corrected mail and then verifying with the returned
      token and the code read from the mail moves the caller to the new
      address, provided no earlier request holds the same token hash. */
  lemma ChangeEmailRoundTrip(
    h: Accounts.Hashing, users: seq<User>, requests: seq<ChangeRequest>, callerId: string,
    oldEmail: string, newEmail: string, host: Option<string>, token: string, rand: nat -> real)
    requires forall i: nat :: 0.0 <= rand(i) < 1.0
    requires DistinctEmails(users)
    requires FindRequest(requests, h.sha256Hex(token)).None?
    requires SendCodeForChangingEmail(h, users, requests, callerId, oldEmail, newEmail, host, token, rand, Delivered).reply.Ok?
    ensures var s := SendCodeForChangingEmail(h, users, requests, callerId, oldEmail, newEmail, host, token, rand, Delivered);
      var j := FindUser(users, callerId).value;
      && s.mail.Some?
      && DataValue(s.mail.value.data, "verificationCode").Some?
      && var v := VerifyCodeForChangingEmail(h, users, s.requests, s.reply.value,
                                             DataValue(s.mail.value.data, "verificationCode").value);
      && v.reply.Ok?
      && v.users == users[j := users[j].(email := newEmail)]
  {
    var s := SendCodeForChangingEmail(h, users, requests, callerId, oldEmail, newEmail, host, token, rand, Delivered);
    var j := FindUser(users, callerId).value;
    var k := |requests|;
    RequestFoundAtEnd(requests, s.requests[k], h.sha256Hex(token));
    assert s.requests == requests + [s.requests[k]];
    CallerFoundByEmail(users, j, oldEmail);
  }

  lemma RequestFoundAtEnd(requests: seq<ChangeRequest>, q: ChangeRequest, hash: string)
    requires FindRequest(requests, hash).None?
    requires q.changeEmailToken == hash
    ensures FindRequest(requests + [q], hash) == Some(|requests|)
  {
    var all := requests + [q];
    assert forall i :: 0 <= i < |requests| ==> all[i] == requests[i];
    FindFirstAt(all, HashTest(hash), |requests|);
  }

  lemma CallerFoundByEmail(users: seq<User>, j: nat, email: string)
    requires DistinctEmails(users)
    requires j < |users| && users[j].email == email
    ensures FindByEmail(users, email) == Some(j)
  {
  }

  // ---------------------------------------------------------------------------
  // editEventSetting
  // ---------------------------------------------------------------------------

  const ReminderNumberZero: string := "Reminder Interval's unit number must not be 0"

  /** The default reminder, when set, is a positive number of units. */
  predicate ReminderSettingValid(s: EventSettings) {
    s.defaultReminderConfiguration.None? || s.defaultReminderConfiguration.value.number > 0
  }

  datatype SettingResult = SettingResult(reply: Outcome<bool>, users: seq<User>)

  /** `editEventSetting`: a non-positive reminder number is refused; anything
      else replaces the caller's event settings (a missing caller is simply
      not updated). */
  function EditEventSetting(users: seq<User>, callerId: string, settings: EventSettings): (r: SettingResult)
    ensures r.reply.Ok? <==> ReminderSettingValid(settings)
    ensures !ReminderSettingValid(settings) ==> r == SettingResult(Fail(400, ReminderNumberZero), users)
    ensures |r.users| == |users|
    ensures r.reply.Ok? ==> forall i :: 0 <= i < |users| ==>
      r.users[i] == if users[i].id == callerId then users[i].(eventSettings := settings) else users[i]
  {
    if settings.defaultReminderConfiguration.Some? && settings.defaultReminderConfiguration.value.number <= 0 then
      SettingResult(Fail(400, ReminderNumberZero), users)
    else
      SettingResult(Ok(true), Map(users, (u: User) => if u.id == callerId then u.(eventSettings := settings) else u))
  }

  /** No sequence of edits ever stores a non-positive default reminder. */
  lemma EditEventSettingKeepsRemindersValid(users: seq<User>, callerId: string, settings: EventSettings)
    requires forall i :: 0 <= i < |users| ==> ReminderSettingValid(users[i].eventSettings)
    ensures var r := EditEventSetting(users, callerId, settings);
      forall i :: 0 <= i < |r.users| ==> ReminderSettingValid(r.users[i].eventSettings)
  {
  }

  // ---------------------------------------------------------------------------
  // savePushNotificationToken
  // ---------------------------------------------------------------------------

  /** The user update: the saved flag always, and the token of the named
      platform only. */
  function WithPushToken(u: User, platform: string, token: string): (u': User)
    ensures u'.isPushNotifTokenSaved
    ensures u'.iosPushNotifToken == if platform == "IOS" then Some(token) else u.iosPushNotifToken
    ensures u'.androidPushNotifToken == if platform == "ANDROID" then Some(token) else u.androidPushNotifToken
    ensures u' == u.(isPushNotifTokenSaved := true,
                     iosPushNotifToken := u'.iosPushNotifToken,
                     androidPushNotifToken := u'.androidPushNotifToken)
  {
    var u1 := u.(isPushNotifTokenSaved := true);
    var u2 := if platform == "IOS" then u1.(iosPushNotifToken := Some(token)) else u1;
    if platform == "ANDROID" then u2.(androidPushNotifToken := Some(token)) else u2
  }

  function SessionTest(userId: string, platform: string): LoginSession -> bool {
    (s: LoginSession) => s.user == userId && s.platform == platform
  }

  function FindSession(sessions: seq<LoginSession>, userId: string, platform: string): Option<nat> {
    FindFirst(sessions, SessionTest(userId, platform))
  }

  /** `LoginSession.findOneAndUpdate(..., { upsert: true })`: the first
      session of the user on the platform takes the token, or one is added. */
  function UpsertSession(sessions: seq<LoginSession>, userId: string, platform: string, token: string)
    : (r: seq<LoginSession>)
    ensures FindSession(r, userId, platform).Some?
    ensures r[FindSession(r, userId, platform).value].deviceToken == Some(token)
    ensures FindSession(sessions, userId, platform).Some? ==>
      var k := FindSession(sessions, userId, platform).value;
      r == sessions[k := sessions[k].(deviceToken := Some(token))]
    ensures FindSession(sessions, userId, platform).None? ==>
      r == sessions + [LoginSession(userId, platform, Some(token))]
  {
    match FindSession(sessions, userId, platform)
    case Some(k) =>
      var r := sessions[k := sessions[k].(deviceToken := Some(token))];
      assert forall i :: 0 <= i < k ==> r[i] == sessions[i];
      FindFirstAt(r, SessionTest(userId, platform), k);
      r
    case None =>
      var r := sessions + [LoginSession(userId, platform, Some(token))];
      assert forall i :: 0 <= i < |sessions| ==> r[i] == sessions[i];
      FindFirstAt(r, SessionTest(userId, platform), |sessions|);
      r
  }

  datatype TokenResult = TokenResult(reply: Outcome<User>, users: seq<User>, sessions: seq<LoginSession>)

  /** `savePushNotificationToken`. The session is written before the reply
      is built, so a missing caller still leaves a session behind and then
      fails on `user._id`. */
  function SavePushNotificationToken(
    users: seq<User>, sessions: seq<LoginSession>, callerId: string, platform: string, token: string)
    : (r: TokenResult)
    ensures r.sessions == UpsertSession(sessions, callerId, platform, token)
    ensures FindUser(users, callerId).None? ==> r.reply.Thrown? && r.users == users
    ensures FindUser(users, callerId).Some? ==>
      var j := FindUser(users, callerId).value;
      && r.users == users[j := WithPushToken(users[j], platform, token)]
      && r.reply == Ok(r.users[j])
  {
    var sessions' := UpsertSession(sessions, callerId, platform, token);
    match FindUser(users, callerId)
    case None => TokenResult(Thrown("TypeError: Cannot read properties of null (reading '_id')"), users, sessions')
    case Some(j) =>
      var users' := users[j := WithPushToken(users[j], platform, token)];
      TokenResult(Ok(users'[j]), users', sessions')
  }

  lemma UpsertSessionIdempotent(sessions: seq<LoginSession>, userId: string, platform: string, token: string)
    ensures var once := UpsertSession(sessions, userId, platform, token);
      UpsertSession(once, userId, platform, token) == once
  {
    var once := UpsertSession(sessions, userId, platform, token);
    var k := FindSession(once, userId, platform).value;
    assert once[k := once[k].(deviceToken := Some(token))] == once;
  }

  /** Saving the same token twice leaves what saving it once left. */
  lemma SavePushTokenIdempotent(
    users: seq<User>, sessions: seq<LoginSession>, callerId: string, platform: string, token: string)
    ensures var once := SavePushNotificationToken(users, sessions, callerId, platform, token);
      var twice := SavePushNotificationToken(once.users, once.sessions, callerId, platform, token);
      twice.users == once.users && twice.sessions == once.sessions && twice.reply == once.reply
  {
    var once := SavePushNotificationToken(users, sessions, callerId, platform, token);
    UpsertSessionIdempotent(sessions, callerId, platform, token);
    match FindUser(users, callerId)
    case None =>
    case Some(j) =>
      assert forall i :: 0 <= i < |users| ==> once.users[i].id == users[i].id;
      assert FindUser(once.users, callerId) == Some(j);
      assert WithPushToken(once.users[j], platform, token) == once.users[j];
  }
}
