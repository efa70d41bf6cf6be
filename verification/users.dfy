/** The user document of models/User.js, reduced to the fields the modelled
    controllers read or write. */
module Users {
  import opened Wrappers
  import opened Seqs
  import opened Subscription

  /** The `registeredWith` enum. */
  datatype RegisteredWith = Google | Apple | Email

  /** The keys of `pushNotifSettings` and `emailNotifSettings`. */
  datatype Scenario =
    | EventInvite | EventDelete | EventInvitationAcceptance | EventInvitationRejection
    | InviteeRemoved | EventRoleAssigned
    | TodoCompleted | TodoUnmarked | TodoAdded | TodoEdited | TodoDeleted
    | RoutineAdded | RoutineEdited | RoutineDeleted | RoutineCompleted
    | DirectMessaging

  /** A settings object: a scenario that is absent reads as `undefined`. */
  type NotifSettings = map<Scenario, bool>

  /** `eventSettings.defaultReminderConfiguration`; `unit` is kept as the raw
      string because the reminder arithmetic falls back on unknown units. */
  datatype ReminderConfig = ReminderConfig(number: int, unit: string)

  datatype EventSettings = EventSettings(
    defaultReminderConfiguration: Option<ReminderConfig>,
    timeZone: Option<string>)

  datatype NewsletterSettings = NewsletterSettings(
    announcementAndOffers: Option<bool>,
    featuresAnnouncement: Option<bool>)

  datatype User = User(
    id: string,
    email: string,
    name: Option<string>,
    password: Option<string>,
    isEmailVerified: bool,
    isSignupCompleted: bool,
    registeredWith: RegisteredWith,
    newNotifications: int,
    unreadNotifications: int,
    subscriptionInfo: SubscriptionInfo,
    verifyEmailToken: Option<string>,
    verifyEmailExpire: Option<int>,
    verifyEmailCode: Option<string>,
    resetPasswordToken: Option<string>,
    resetPasswordCode: Option<string>,
    resetPasswordExpire: Option<int>,
    isResetPasswordCodeVerified: Option<bool>,
    eventSettings: EventSettings,
    androidPushNotifToken: Option<string>,
    iosPushNotifToken: Option<string>,
    isPushNotifTokenSaved: bool,
    pushNotifSettings: NotifSettings,
    emailNotifSettings: NotifSettings,
    newsletterSettings: NewsletterSettings)

  /** A login session of models/LoginSession.js: the device a user is
      signed in on, with the push token saved for it (`null` by default). */
  datatype LoginSession = LoginSession(user: string, platform: string, deviceToken: Option<string>)

  /** `settings[scenario] === true`: an absent key is `undefined`, not true. */
  predicate IsOn(settings: NotifSettings, s: Scenario) {
    s in settings && settings[s]
  }

  /** `$inc: { newNotifications: 1, unreadNotifications: 1 }`. */
  function Notified(u: User): User {
    u.(newNotifications := u.newNotifications + 1, unreadNotifications := u.unreadNotifications + 1)
  }

  /** `User.updateMany(filter, $inc)` (or `updateOne` on a unique `_id`): every
      user the filter selects gains one new and one unread notification. */
  function NotifyWhere(users: seq<User>, selected: User -> bool): (r: seq<User>)
    ensures |r| == |users|
    ensures forall i :: 0 <= i < |users| ==> r[i] == if selected(users[i]) then Notified(users[i]) else users[i]
  {
    Map(users, (u: User) => if selected(u) then Notified(u) else u)
  }
}
