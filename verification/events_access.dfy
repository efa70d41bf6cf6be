/** The event document of models/Event.js and the access helpers of
    controllers/events/utils.js, with the copies controllers/events/index.js
    keeps of them: participants, permissions and roles, notification
    recipients and the reminder-time arithmetic.

    Ids are strings (every comparison in the source goes through
    `toString()`); timestamps are milliseconds since the epoch. */
module Events {
  import opened Wrappers
  import opened Seqs
  import opened Subscription
  import opened Users

  /** A populated user reference: its `_id` and `email`. */
  datatype Member = Member(id: string, email: string)

  /** The `inviteeRoles.role` enum. */
  datatype Role = Viewer | Editor | Admin

  datatype RoleEntry = RoleEntry(id: string, role: Role)

  datatype Invitation = Invitation(email: string, invitor: string)

  datatype Todo = Todo(id: string, title: string, note: Option<string>, isCompleted: bool)

  /** The `routineType` enum. */
  datatype RoutineType = EmailRoutine | SmsRoutine

  datatype Routine = Routine(id: string, name: Option<string>, routineType: RoutineType)

  /** The fields of an event the modelled handlers read or write. */
  datatype Event = Event(
    id: string,
    title: string,
    owner: Member,
    invitees: seq<Member>,
    inviteeRoles: seq<RoleEntry>,
    invitedEmails: seq<string>,
    invitations: seq<Invitation>,
    todos: seq<Todo>,
    todoCount: int,
    routines: seq<Routine>,
    routineCount: int,
    isInviteLinkActive: bool)

  // ---------------------------------------------------------------------------
  // Permissions
  // ---------------------------------------------------------------------------

  /** The keys of the `permissions` tables. */
  datatype Operation =
    | GetEvent | DeleteEvent | ToggleEventInviteLink | InviteUserToEvent
    | RemoveInviteeFromEvent | AssignEventRole
    | AddTodo | EditTodo | DeleteTodo | MarkTodo | DuplicateTodo
    | AddRoutine | EditRoutine | DeleteRoutine

  predicate IsRoutineOperation(op: Operation) {
    op == AddRoutine || op == EditRoutine || op == DeleteRoutine
  }

  /** The `permissions` table of controllers/events/index.js: the invitee
      roles allowed each operation. */
  function IndexPermissions(op: Operation): set<Role> {
    match op
    case GetEvent => {Admin, Editor, Viewer}
    case DeleteEvent => {}
    case ToggleEventInviteLink => {Admin}
    case AssignEventRole => {Admin}
    case _ => {Admin, Editor}
  }

  /** The `permissions` table of controllers/events/utils.js. It has no routine
      keys: `None` is the missing entry, whose `indexOf` throws. */
  function UtilsPermissions(op: Operation): Option<set<Role>> {
    match op
    case GetEvent => Some({Admin, Editor, Viewer})
    case DeleteEvent => Some({})
    case ToggleEventInviteLink => Some({Admin})
    case AssignEventRole => Some({Admin})
    case AddRoutine => None
    case EditRoutine => None
    case DeleteRoutine => None
    case _ => Some({Admin, Editor})
  }

  function Ids(ms: seq<Member>): (r: seq<string>)
    ensures |r| == |ms|
    ensures forall i :: 0 <= i < |ms| ==> r[i] == ms[i].id
  {
    Map(ms, (m: Member) => m.id)
  }

  /** `isInvitee(id, event)`: some invitee has the id. */
  predicate IsInvitee(id: string, e: Event) {
    exists i :: 0 <= i < |e.invitees| && e.invitees[i].id == id
  }

  /** `event.inviteeRoles.find(r => r.id === id)?.role`. */
  function RoleOf(e: Event, id: string): (r: Option<Role>)
    ensures r.None? <==> forall i :: 0 <= i < |e.inviteeRoles| ==> e.inviteeRoles[i].id != id
    ensures r.Some? ==> exists i :: 0 <= i < |e.inviteeRoles| && e.inviteeRoles[i] == RoleEntry(id, r.value)
  {
    var k := FindFirst(e.inviteeRoles, (x: RoleEntry) => x.id == id);
    if k.None? then None else Some(e.inviteeRoles[k.value].role)
  }

  datatype UserType = OwnerUser | InviteeUser

  /** The object `checkPermission` returns, or the exception it throws. */
  datatype Permission =
    | Granted(userType: UserType, notifHosts: seq<string>, executor: string)
    | Denied
    | Throws

  /** The `notifHosts` of an invitee's action: the other invitees' ids in
      order, then the owner's. */
  function InviteeNotifHosts(e: Event, userId: string): (hosts: seq<string>)
    requires userId != e.owner.id
    ensures |hosts| >= 1 && hosts[|hosts| - 1] == e.owner.id
    ensures userId !in hosts
    ensures forall i :: 0 <= i < |e.invitees| && e.invitees[i].id != userId ==> e.invitees[i].id in hosts
    ensures forall h :: h in hosts ==> h == e.owner.id || h in Ids(e.invitees)
  {
    var others := Filter(e.invitees, (m: Member) => m.id != userId);
    var hosts := Ids(others) + [e.owner.id];
    forall h | h in hosts
      ensures h != userId && (h == e.owner.id || h in Ids(e.invitees))
    {
      if h != e.owner.id {
        var k :| 0 <= k < |others| && hosts[k] == h;
        IdIn(e.invitees, others[k]);
      }
    }
    forall i | 0 <= i < |e.invitees| && e.invitees[i].id != userId
      ensures e.invitees[i].id in hosts
    {
      IdIn(others, e.invitees[i]);
    }
    hosts
  }

  /** A member's id is among the ids of any list holding the member. */
  lemma IdIn(ms: seq<Member>, m: Member)
    requires m in ms
    ensures m.id in Ids(ms)
  {
    var i :| 0 <= i < |ms| && ms[i] == m;
    assert Ids(ms)[i] == m.id;
  }

  /** `checkPermission` against the table entry `allowed` of the operation:
      the owner passes before the table is read; an invitee with a role entry
      passes when its role is allowed; everyone else is refused. */
  function CheckPermissionWith(allowed: Option<set<Role>>, userId: string, e: Event): (p: Permission)
    ensures userId == e.owner.id ==> p.Granted? && p.userType == OwnerUser && p.notifHosts == Ids(e.invitees)
    ensures userId != e.owner.id ==>
      (p.Granted? <==> RoleOf(e, userId).Some? && allowed.Some? && RoleOf(e, userId).value in allowed.value)
    ensures p.Throws? <==> userId != e.owner.id && RoleOf(e, userId).Some? && allowed.None?
    ensures p.Granted? ==> p.executor == userId
    ensures p.Granted? && p.userType == InviteeUser ==> userId != e.owner.id && p.notifHosts == InviteeNotifHosts(e, userId)
  {
    if e.owner.id == userId then Granted(OwnerUser, Ids(e.invitees), userId)
    else
      var role := RoleOf(e, userId);
      if role.None? then Denied
      else if allowed.None? then Throws
      else if role.value in allowed.value then Granted(InviteeUser, InviteeNotifHosts(e, userId), userId)
      else Denied
  }

  /** `checkPermission` of controllers/events/index.js. */
  function CheckPermission(op: Operation, userId: string, e: Event): (p: Permission)
    ensures !p.Throws?
    ensures p.Granted? <==> userId == e.owner.id || (RoleOf(e, userId).Some? && RoleOf(e, userId).value in IndexPermissions(op))
    ensures p.Granted? ==> (p.userType == OwnerUser <==> userId == e.owner.id)
  {
    CheckPermissionWith(Some(IndexPermissions(op)), userId, e)
  }

  /** `checkPermission` of controllers/events/utils.js. */
  function CheckPermissionUtils(op: Operation, userId: string, e: Event): Permission {
    CheckPermissionWith(UtilsPermissions(op), userId, e)
  }

  /** The owner may do anything, whichever table is consulted, and is told
      about it through every invitee. */
  lemma OwnerAlwaysPermitted(op: Operation, e: Event)
    ensures CheckPermission(op, e.owner.id, e) == Granted(OwnerUser, Ids(e.invitees), e.owner.id)
    ensures CheckPermissionUtils(op, e.owner.id, e) == CheckPermission(op, e.owner.id, e)
  {
  }

  /** The two tables decide every operation they share in the same way. */
  lemma TablesAgree(op: Operation, userId: string, e: Event)
    requires !IsRoutineOperation(op)
    ensures CheckPermissionUtils(op, userId, e) == CheckPermission(op, userId, e)
  {
  }

  /** The utils table lacks the routine keys: an invitee asking for a routine
      operation there makes `checkPermission` throw, not refuse. */
  lemma UtilsThrowsOnRoutineOps(op: Operation, userId: string, e: Event)
    requires IsRoutineOperation(op)
    requires userId != e.owner.id && RoleOf(e, userId).Some?
    ensures CheckPermissionUtils(op, userId, e) == Throws
    ensures CheckPermission(op, userId, e).Granted? <==> RoleOf(e, userId).value != Viewer
  {
    assert UtilsPermissions(op).None? && IndexPermissions(op) == {Admin, Editor};
  }

  /** Adding, duplicating and deleting a todo are granted to the same users
      with the same hosts: the table lists the same roles for all three. */
  lemma TodoOpsSamePermission(userId: string, e: Event)
    ensures CheckPermission(DeleteTodo, userId, e) == CheckPermission(DuplicateTodo, userId, e)
    ensures CheckPermission(AddTodo, userId, e) == CheckPermission(DuplicateTodo, userId, e)
  {
    assert IndexPermissions(DeleteTodo) == IndexPermissions(DuplicateTodo) == IndexPermissions(AddTodo);
  }

  /** Permission depends on the owner and the invitees with their roles only:
      editing todos, routines or pending invitations never changes it. */
  lemma PermissionIgnoresContent(op: Operation, userId: string, e: Event, e2: Event)
    requires e2.owner == e.owner && e2.invitees == e.invitees && e2.inviteeRoles == e.inviteeRoles
    ensures CheckPermission(op, userId, e2) == CheckPermission(op, userId, e)
  {
    assert RoleOf(e2, userId) == RoleOf(e, userId);
  }

  /** Deleting an event is the owner's alone. */
  lemma DeleteEventOwnerOnly(userId: string, e: Event)
    ensures CheckPermission(DeleteEvent, userId, e).Granted? <==> userId == e.owner.id
  {
  }

  /** The executor is never among those notified of its own action, unless it
      owns the event and is also listed as an invitee. */
  lemma ExecutorNotNotified(op: Operation, userId: string, e: Event)
    requires CheckPermission(op, userId, e).Granted?
    requires userId !in Ids(e.invitees)
    ensures userId !in CheckPermission(op, userId, e).notifHosts
  {
    var p := CheckPermission(op, userId, e);
    if userId == e.owner.id {
      assert p.notifHosts == Ids(e.invitees);
    }
  }

  /** What `getLoggedInUserRoleInEvent` returns once `transformEvent` has
      attached each invitee's role: a role, the string 'None', or nothing for
      an invitee without a role entry (on whom `transformEvent` throws first). */
  datatype MyRole = RoleName(role: Role) | NoneRole | Unattached

  function GetLoggedInUserRoleInEvent(userId: string, e: Event): (r: MyRole)
    ensures userId == e.owner.id ==> r == RoleName(Admin)
    ensures userId != e.owner.id ==> (r == NoneRole <==> !IsInvitee(userId, e))
    ensures userId != e.owner.id && r.RoleName? ==> RoleOf(e, userId) == Some(r.role)
    ensures userId != e.owner.id && r.Unattached? ==> RoleOf(e, userId).None?
  {
    if userId == e.owner.id then RoleName(Admin)
    else if !IsInvitee(userId, e) then NoneRole
    else match RoleOf(e, userId)
      case Some(role) => RoleName(role)
      case None => Unattached
  }

  /** Every invitee has a role entry. `transformEvent`, which builds the
      replies of the event handlers, reads `doc.role` of each invitee's entry
      and throws on an event without this. */
  predicate RolesCovered(e: Event) {
    forall i :: 0 <= i < |e.invitees| ==> RoleOf(e, e.invitees[i].id).Some?
  }

  /** Every invitee has a role entry and every role entry is an invitee's. */
  predicate RolesConsistent(e: Event) {
    && RolesCovered(e)
    && (forall j :: 0 <= j < |e.inviteeRoles| ==> IsInvitee(e.inviteeRoles[j].id, e))
  }

  /** On a consistent event, the role shown to a user agrees with what
      `checkPermission` lets it do: no role means no operation, and a role
      means exactly the operations whose entry lists it. */
  lemma MyRoleMatchesPermission(op: Operation, userId: string, e: Event)
    requires RolesConsistent(e) && userId != e.owner.id
    ensures GetLoggedInUserRoleInEvent(userId, e) == NoneRole ==> CheckPermission(op, userId, e) == Denied
    ensures GetLoggedInUserRoleInEvent(userId, e).RoleName? ==>
      (CheckPermission(op, userId, e).Granted? <==> GetLoggedInUserRoleInEvent(userId, e).role in IndexPermissions(op))
    ensures !GetLoggedInUserRoleInEvent(userId, e).Unattached?
  {
  }

  // ---------------------------------------------------------------------------
  // Participants and recipients
  // ---------------------------------------------------------------------------

  /** `getEventParticipantEmails`: the owner's email, then the invitees' in order. */
  function ParticipantEmails(e: Event): (r: seq<string>)
    ensures |r| == 1 + |e.invitees|
    ensures r[0] == e.owner.email
    ensures forall i :: 0 <= i < |e.invitees| ==> r[i + 1] == e.invitees[i].email
  {
    [e.owner.email] + Map(e.invitees, (m: Member) => m.email)
  }

  /** A participant is the owner or an invitee, and nobody else. */
  lemma ParticipantIff(e: Event, email: string)
    ensures email in ParticipantEmails(e) <==>
      email == e.owner.email || exists i :: 0 <= i < |e.invitees| && e.invitees[i].email == email
  {
    var r := ParticipantEmails(e);
    if email in r && email != e.owner.email {
      var k :| 0 <= k < |r| && r[k] == email;
      assert r[k] == e.invitees[k - 1].email;
    }
  }

  /** `getUnregisteredEmails`: the invitable emails no registered user owns. */
  function UnregisteredEmails(registered: seq<string>, invitable: seq<string>): (r: seq<string>)
    ensures IsSubsequence(r, invitable)
    ensures forall x :: x in r <==> x in invitable && x !in registered
  {
    Filter(invitable, (x: string) => x !in registered)
  }

  /** Registered and unregistered emails split the invitable list. */
  lemma UnregisteredPartition(registered: seq<string>, invitable: seq<string>)
    ensures |UnregisteredEmails(registered, invitable)|
          + |Filter(invitable, (x: string) => x in registered)| == |invitable|
  {
    var none := (x: string) => false;
    FilterPartition3(invitable, (x: string) => x !in registered, (x: string) => x in registered, none);
    assert |Filter(invitable, none)| == 0;
  }

  predicate WantsEmail(u: User, scenario: Scenario) {
    IsOn(u.emailNotifSettings, scenario)
  }

  /** The filter `user.emailNotifSettings[scenario] === true`. */
  function Wants(scenario: Scenario): User -> bool {
    (u: User) => WantsEmail(u, scenario)
  }

  /** `getNotifiableEmails`: the emails of the users whose email setting for
      the scenario is `true`, in their order. */
  function NotifiableEmails(users: seq<User>, scenario: Scenario): (r: seq<string>)
    ensures |r| <= |users|
    ensures forall i :: 0 <= i < |users| && WantsEmail(users[i], scenario) ==> users[i].email in r
    ensures forall x :: x in r ==> exists i :: 0 <= i < |users| && users[i].email == x && WantsEmail(users[i], scenario)
  {
    var wanted := Filter(users, Wants(scenario));
    var r := EmailsOf(wanted);
    assert forall i :: 0 <= i < |users| && WantsEmail(users[i], scenario) ==> users[i] in wanted;
    assert forall k :: 0 <= k < |wanted| ==> r[k] == wanted[k].email && wanted[k] in users;
    r
  }

  datatype EmailRecipient = EmailRecipient(timeZone: Option<string>, email: string)

  /** `getRecipientsForEmailNotification`: the same users, each with its time zone. */
  function RecipientsForEmailNotification(users: seq<User>, scenario: Scenario): (r: seq<EmailRecipient>)
    ensures forall k :: 0 <= k < |r| ==>
      (exists i :: 0 <= i < |users| && WantsEmail(users[i], scenario)
        && r[k] == EmailRecipient(users[i].eventSettings.timeZone, users[i].email))
  {
    var wanted := Filter(users, Wants(scenario));
    Map(wanted, (u: User) => EmailRecipient(u.eventSettings.timeZone, u.email))
  }

  /** The recipients are the notifiable emails, in the same order. */
  lemma RecipientsAreNotifiable(users: seq<User>, scenario: Scenario)
    ensures Map(RecipientsForEmailNotification(users, scenario), (x: EmailRecipient) => x.email)
         == NotifiableEmails(users, scenario)
  {
  }

  // ---------------------------------------------------------------------------
  // Whether a handler's email goes out
  // ---------------------------------------------------------------------------

  /** The users' emails, in order. */
  function EmailsOf(us: seq<User>): (r: seq<string>)
    ensures |r| == |us|
    ensures forall i :: 0 <= i < |us| ==> r[i] == us[i].email
  {
    Map(us, (u: User) => u.email)
  }

  /** The filter `{ email: emails }`. */
  function ByEmail(emails: seq<string>): User -> bool {
    (u: User) => u.email in emails
  }

  /** `getUsersByEmail`: the users owning one of the emails, in store order. */
  function UsersByEmail(users: seq<User>, emails: seq<string>): seq<User> {
    Filter(users, ByEmail(emails))
  }

  /** Whether an invitation email is sent for the invitable emails: the
      recipients are the unregistered emails together with the registered
      users whose `eventInvite` email setting is on, and the mail goes out
      when that list is not empty. */
  predicate InviteEmailSent(users: seq<User>, invitable: seq<string>) {
    var registered := UsersByEmail(users, invitable);
    |UnregisteredEmails(EmailsOf(registered), invitable)|
      + |RecipientsForEmailNotification(registered, EventInvite)| > 0
  }

  /** The invitation email is sent exactly when some invited email belongs to
      no user, or some user owning an invited email wants invitation emails. */
  lemma InviteEmailSentIff(users: seq<User>, invitable: seq<string>)
    ensures InviteEmailSent(users, invitable) <==>
      || (exists x :: x in invitable && forall i :: 0 <= i < |users| ==> users[i].email != x)
      || (exists i :: 0 <= i < |users| && users[i].email in invitable && WantsEmail(users[i], EventInvite))
  {
    UnregisteredNonEmpty(users, invitable);
    EmailGoesToIff(users, ByEmail(invitable), EventInvite);
    RecipientsAreNotifiable(UsersByEmail(users, invitable), EventInvite);
  }

  /** Some invited email is unregistered exactly when no user owns it. */
  lemma UnregisteredNonEmpty(users: seq<User>, invitable: seq<string>)
    ensures |UnregisteredEmails(EmailsOf(UsersByEmail(users, invitable)), invitable)| > 0 <==>
      exists x :: x in invitable && forall i :: 0 <= i < |users| ==> users[i].email != x
  {
    var emails := EmailsOf(UsersByEmail(users, invitable));
    var unregistered := UnregisteredEmails(emails, invitable);
    if |unregistered| > 0 {
      var x := unregistered[0];
      assert x in invitable && x !in emails;
      assert forall i :: 0 <= i < |users| ==> users[i].email != x;
    }
    if exists x :: x in invitable && forall i :: 0 <= i < |users| ==> users[i].email != x {
      var x :| x in invitable && forall i :: 0 <= i < |users| ==> users[i].email != x;
      assert x !in emails;
      assert x in unregistered;
    }
  }

  /** Whether an email goes out to the users `selected` picks: the mail is
      sent when at least one of them has the scenario's email setting on. */
  predicate EmailGoesTo(users: seq<User>, selected: User -> bool, scenario: Scenario) {
    |NotifiableEmails(Filter(users, selected), scenario)| > 0
  }

  lemma EmailGoesToIff(users: seq<User>, selected: User -> bool, scenario: Scenario)
    ensures EmailGoesTo(users, selected, scenario) <==>
      exists i :: 0 <= i < |users| && selected(users[i]) && WantsEmail(users[i], scenario)
  {
    var both := (u: User) => selected(u) && WantsEmail(u, scenario);
    FilterFilter(users, selected, Wants(scenario), both);
    FilterNonEmpty(users, both);
  }

  /** `User.findById(id)` finds a document. */
  predicate HasUser(users: seq<User>, id: string) {
    exists i :: 0 <= i < |users| && users[i].id == id
  }

  // ---------------------------------------------------------------------------
  // Reminder times
  // ---------------------------------------------------------------------------

  const MinuteMs: int := 60 * 1000
  const HourMs: int := 60 * MinuteMs
  const WeekMs: int := 7 * DayMs

  /** The length of one `reminderUnit`: any unit other than week, day or hour
      counts as minutes. */
  function UnitMs(unit: string): (ms: int)
    ensures ms > 0
    ensures unit != "week" && unit != "day" && unit != "hour" ==> ms == MinuteMs
  {
    if unit == "week" then WeekMs
    else if unit == "day" then DayMs
    else if unit == "hour" then HourMs
    else MinuteMs
  }

  /** `deriveReminderTime`: `number` units before the start. */
  function DeriveReminderTime(start: int, unit: string, number: int): (t: int)
    ensures unit == "week" ==> start - t == number * 604800000
    ensures unit == "day" ==> start - t == number * 86400000
    ensures unit == "hour" ==> start - t == number * 3600000
    ensures unit != "week" && unit != "day" && unit != "hour" ==> start - t == number * 60000
    ensures number >= 0 ==> t <= start
    ensures number > 0 ==> t < start
    ensures (start - t) % UnitMs(unit) == 0
  {
    WholeUnits(number, unit);
    start - number * UnitMs(unit)
  }

  /** A whole number of units is a multiple of the unit's length. */
  lemma WholeUnits(number: int, unit: string)
    ensures (number * UnitMs(unit)) % UnitMs(unit) == 0
  {
    var ms := UnitMs(unit);
    assert ms == 604800000 || ms == 86400000 || ms == 3600000 || ms == 60000;
    if ms == 604800000 {
      assert (number * 604800000) % 604800000 == 0;
    } else if ms == 86400000 {
      assert (number * 86400000) % 86400000 == 0;
    } else if ms == 3600000 {
      assert (number * 3600000) % 3600000 == 0;
    } else {
      assert (number * 60000) % 60000 == 0;
    }
  }

  /** `deriveNextRepetitionDate`: one minute after the end. */
  function DeriveNextRepetitionDate(endDate: int): (t: int)
    ensures t > endDate
  {
    endDate + MinuteMs
  }

  /** A reminder one minute before the next repetition falls on the end date. */
  lemma RepetitionRoundTrip(endDate: int)
    ensures DeriveReminderTime(DeriveNextRepetitionDate(endDate), "minute", 1) == endDate
  {
  }

  /** Moving the start moves the reminder by the same amount, and a larger
      number of units puts the reminder earlier. */
  lemma ReminderTimeShifts(start: int, delta: int, unit: string, m: int, n: int)
    requires m <= n
    ensures DeriveReminderTime(start + delta, unit, m) == DeriveReminderTime(start, unit, m) + delta
    ensures DeriveReminderTime(start, unit, n) <= DeriveReminderTime(start, unit, m)
  {
    assert n * UnitMs(unit) >= m * UnitMs(unit) by {
      assert (n - m) * UnitMs(unit) >= 0;
    }
  }
}
