/** The two form handlers of controllers/events: `createEvent` and
    `editEvent`. Both validate the submitted form, fill in the derived
    counters and record one invitation per newly invited email; the dates,
    reminder times and deep link they also derive are left out.

    `EVENT_EMAIL_ROUTINE_MAX` reaches them through `parseInt`, whose result
    is `None` here when it is `NaN` (unset or not a number): a comparison
    with `NaN` is false, so such a limit never rejects. */
module EventForms {
  import opened Wrappers
  import opened Seqs
  import opened Text
  import opened Subscription
  import opened Users
  import opened Events
  import opened EventOps

  /** The submitted form, reduced to the fields the modelled logic reads.
      `todos` and `routines` are `None` when the form omits them. */
  datatype EventInput = EventInput(
    title: string,
    invitedEmails: seq<string>,
    daysBtwnReminderAndEvent: int,
    todos: Option<seq<Todo>>,
    routines: Option<seq<Routine>>,
    isInviteLinkActive: bool)

  const PlanLimitMessage: string :=
    "You are currently on the free plan and can only create one(1) event. Please upgrade to Pro plan to create more events and unlock more features."
  const ReminderGapMessage: string := "Reminder day and event day must be at least 1 day apart."
  const NotAuthorizedToEdit: string := "You are not authorized to edit this event."

  function RoutineLimitMessage(max: int): string {
    "You cannot add more than " + IntToString(max) + " email routines."
  }

  /** `input?.routines?.length || 0`. */
  function RoutineCountOf(input: EventInput): (n: nat)
    ensures n == 0 <==> input.routines.None? || input.routines.value == []
  {
    if input.routines.Some? then |input.routines.value| else 0
  }

  predicate IsEmailRoutine(r: Routine) {
    r.routineType == EmailRoutine
  }

  /** The routine-limit check: it runs only when the form has routines, and
      rejects when more of them are email routines than the configured
      maximum. */
  function RoutineLimitRefusal(input: EventInput, routineMax: Option<int>): (m: Option<string>)
    ensures m.Some? <==>
      && input.routines.Some? && input.routines.value != [] && routineMax.Some?
      && |Filter(input.routines.value, IsEmailRoutine)| > routineMax.value
    ensures m.Some? ==> m.value == RoutineLimitMessage(routineMax.value)
  {
    if RoutineCountOf(input) != 0 && routineMax.Some?
       && |Filter(input.routines.value, IsEmailRoutine)| > routineMax.value
    then Some(RoutineLimitMessage(routineMax.value))
    else None
  }

  /** A limit that is not a number never rejects, however many email
      routines the form holds. */
  lemma UnsetRoutineMaxAdmitsAll(input: EventInput)
    ensures RoutineLimitRefusal(input, None).None?
  {
  }

  // ---------------------------------------------------------------------------
  // createEvent
  // ---------------------------------------------------------------------------

  /** The result of `createEvent`: the reply, the event created (if any) and
      the users after the notification counters are raised. */
  datatype CreateResult = CreateResult(reply: Reply, created: Option<Event>, users: seq<User>)

  /** The guards of `createEvent`, in order: the plan limit (a creator who
      already owns an event needs the trial or a subscription), the
      self-invite, the reminder gap and the routine limit. */
  function CreateRefusal(creator: User, ownedCount: nat, now: int, input: EventInput, routineMax: Option<int>)
    : (r: Option<(int, string)>)
    ensures ownedCount >= 1 && !IsUserFreeOrPremium(creator.subscriptionInfo, now) ==> r == Some((403, PlanLimitMessage))
    ensures r.None? <==>
      && (ownedCount == 0 || IsUserFreeOrPremium(creator.subscriptionInfo, now))
      && creator.email !in input.invitedEmails
      && input.daysBtwnReminderAndEvent > 0
      && RoutineLimitRefusal(input, routineMax).None?
    ensures r.Some? ==> r.value.0 == 400 || r.value.0 == 403
  {
    if ownedCount >= 1 && !IsUserFreeOrPremium(creator.subscriptionInfo, now) then Some((403, PlanLimitMessage))
    else if creator.email in input.invitedEmails then Some((400, SelfInviteMessage))
    else if input.daysBtwnReminderAndEvent <= 0 then Some((400, ReminderGapMessage))
    else match RoutineLimitRefusal(input, routineMax)
      case Some(m) => Some((400, m))
      case None => None
  }

  /** The document `Event.create` stores: owned by the creator, with no
      invitee yet, one invitation per requested email and the counters
      taken from the lists. Absent lists take the schema's empty default.
      The event schema has no path for `daysBtwnReminderAndEvent`, so the
      validated gap is not part of the document. */
  function NewEvent(creator: User, input: EventInput, eventId: string): (e: Event)
    ensures e.id == eventId && e.title == input.title
    ensures e.owner == Member(creator.id, creator.email)
    ensures e.invitees == [] && e.inviteeRoles == []
    ensures forall x :: x in e.invitedEmails <==> x in input.invitedEmails && x != creator.email
    ensures |e.invitations| == |input.invitedEmails|
    ensures forall i :: 0 <= i < |input.invitedEmails| ==> e.invitations[i] == Invitation(input.invitedEmails[i], creator.id)
    ensures input.todos.Some? ==> e.todos == input.todos.value
    ensures input.routines.Some? ==> e.routines == input.routines.value
    ensures CountsMatch(e)
    ensures e.isInviteLinkActive == input.isInviteLinkActive
  {
    Event(
      eventId, input.title, Member(creator.id, creator.email), [], [],
      Filter(input.invitedEmails, (x: string) => x != creator.email),
      Map(input.invitedEmails, (x: string) => Invitation(x, creator.id)),
      if input.todos.Some? then input.todos.value else [],
      if input.todos.Some? then |input.todos.value| else 0,
      if input.routines.Some? then input.routines.value else [],
      RoutineCountOf(input),
      input.isInviteLinkActive)
  }

  /** `createEvent` by `creator`, who already owns `ownedCount` events; the
      new document gets the id `eventId`. Every registered user whose email
      is invited gains a notification; once the transaction has committed,
      the invitation email goes to the unregistered emails and to the
      registered users whose setting asks for it, and a failing mailer makes
      the handler throw with the event created. */
  function CreateEvent(
    creator: User, ownedCount: nat, now: int, input: EventInput, routineMax: Option<int>,
    eventId: string, users: seq<User>, mailerFails: bool)
    : (r: CreateResult)
    ensures r.reply.Error? <==> CreateRefusal(creator, ownedCount, now, input, routineMax).Some?
    ensures r.reply.Raised? <==>
      && CreateRefusal(creator, ownedCount, now, input, routineMax).None?
      && mailerFails && InviteEmailSent(users, input.invitedEmails)
    ensures r.reply.Error? ==> r.created.None? && r.users == users
    ensures !r.reply.Error? ==> r.created == Some(NewEvent(creator, input, eventId))
    ensures !r.reply.Error? ==> |r.users| == |users|
    ensures !r.reply.Error? ==> forall i :: 0 <= i < |users| ==>
      r.users[i] == if users[i].email in input.invitedEmails then Notified(users[i]) else users[i]
  {
    match CreateRefusal(creator, ownedCount, now, input, routineMax)
    case Some((status, message)) => CreateResult(Error(status, message), None, users)
    case None =>
      var e := NewEvent(creator, input, eventId);
      var notified := NotifyWhere(users, (u: User) => u.email in e.invitedEmails);
      var reply := if mailerFails && InviteEmailSent(users, e.invitedEmails) then Raised(MailerFailure) else Success;
      CreateInvitedAsRequested(creator, input, eventId);
      CreateResult(reply, Some(e), notified)
  }

  /** Once the self-invite is refused, filtering the creator's email out of
      the stored list removes nothing: the stored list is the requested one. */
  lemma CreateInvitedAsRequested(creator: User, input: EventInput, eventId: string)
    requires creator.email !in input.invitedEmails
    ensures NewEvent(creator, input, eventId).invitedEmails == input.invitedEmails
  {
    assert forall i :: 0 <= i < |input.invitedEmails| ==> input.invitedEmails[i] != creator.email;
    FilterAll(input.invitedEmails, (x: string) => x != creator.email);
  }

  /** Every email invited at creation can accept: the new event has room,
      and the invitation is credited to the creator. */
  lemma CreatedInvitationsAcceptable(
    creator: User, input: EventInput, eventId: string, users: seq<User>,
    guest: Member, ownerSub: SubscriptionInfo, now: int, m: bool)
    requires guest.email in input.invitedEmails && guest.email != creator.email
    ensures var e := NewEvent(creator, input, eventId);
      && InvitorOf(e, guest.email) == creator.id
      && MayJoin(EventStore(Some(e), users), guest, ownerSub, now)
  {
    var e := NewEvent(creator, input, eventId);
    var k :| 0 <= k < |input.invitedEmails| && input.invitedEmails[k] == guest.email;
    assert e.invitations[k].email == guest.email;
    assert InvitorOf(e, guest.email) == creator.id;
    AcceptPending(EventStore(Some(e), users), guest, ownerSub, now, m);
  }

  /** An owner without the trial or a subscription can create a first event
      and no second one, whatever the form says. */
  lemma OneEventOnFreePlan(
    creator: User, ownedCount: nat, now: int, input: EventInput, routineMax: Option<int>,
    eventId: string, users: seq<User>, m: bool)
    requires !IsUserFreeOrPremium(creator.subscriptionInfo, now)
    ensures !CreateEvent(creator, ownedCount, now, input, routineMax, eventId, users, m).reply.Error? ==> ownedCount == 0
    ensures ownedCount >= 1 ==>
      CreateEvent(creator, ownedCount, now, input, routineMax, eventId, users, m) == CreateResult(Error(403, PlanLimitMessage), None, users)
  {
  }

  /** The reminder gap only guards: any two positive gaps create the same
      event with the same answer. */
  lemma CreateReminderGapOnlyGuards(
    creator: User, ownedCount: nat, now: int, input: EventInput, routineMax: Option<int>,
    eventId: string, users: seq<User>, m: bool, gap: int)
    requires input.daysBtwnReminderAndEvent > 0 && gap > 0
    ensures CreateEvent(creator, ownedCount, now, input.(daysBtwnReminderAndEvent := gap), routineMax, eventId, users, m)
         == CreateEvent(creator, ownedCount, now, input, routineMax, eventId, users, m)
  {
  }

  // ---------------------------------------------------------------------------
  // editEvent
  // ---------------------------------------------------------------------------

  /** The guards of `editEvent`, in order: the self-invite (checked before the
      event is even loaded), the missing event, the owner check, the reminder
      gap and the classification of the requested emails. */
  function EditRefusal(s: EventStore, caller: Member, input: EventInput): (r: Option<(int, string)>)
    ensures caller.email in input.invitedEmails ==> r == Some((400, SelfInviteMessage))
    ensures caller.email !in input.invitedEmails && s.event.None? ==> r == Some((404, EventNotFound))
    ensures r.None? <==>
      && caller.email !in input.invitedEmails
      && s.event.Some?
      && caller.id == s.event.value.owner.id
      && input.daysBtwnReminderAndEvent > 0
      && forall x :: x in input.invitedEmails ==> x !in s.event.value.invitedEmails && x !in ParticipantEmails(s.event.value)
  {
    if caller.email in input.invitedEmails then Some((400, SelfInviteMessage))
    else if s.event.None? then Some((404, EventNotFound))
    else
      var e := s.event.value;
      if caller.id != e.owner.id then Some((403, NotAuthorizedToEdit))
      else if input.daysBtwnReminderAndEvent <= 0 then Some((400, ReminderGapMessage))
      else match ClassificationError(Classify(e, input.invitedEmails))
        case Some(m) => Some((400, m))
        case None => None
  }

  /** The event as `editEvent` writes it: the title, lists and counters and
      the link flag are replaced, and the (all invitable) requested emails
      are appended to the pending invitations. */
  function Edited(e: Event, caller: Member, input: EventInput, todos: seq<Todo>): (e': Event)
    ensures CountsMatch(e') && e'.todos == todos
    ensures input.routines.Some? ==> e'.routines == input.routines.value
    ensures input.routines.None? ==> e'.routines == []
    ensures e'.title == input.title && e'.isInviteLinkActive == input.isInviteLinkActive
    ensures e'.id == e.id && e'.invitees == e.invitees && e'.inviteeRoles == e.inviteeRoles && e'.owner == e.owner
    ensures e'.invitedEmails == e.invitedEmails + input.invitedEmails
    ensures |e'.invitations| == |e.invitations| + |input.invitedEmails|
    ensures e'.invitations[..|e.invitations|] == e.invitations
    ensures forall i :: 0 <= i < |input.invitedEmails| ==>
      e'.invitations[|e.invitations| + i] == Invitation(input.invitedEmails[i], caller.id)
  {
    WithInvitations(e, input.invitedEmails, caller.id).(
      title := input.title,
      todos := todos,
      todoCount := |todos|,
      routines := if input.routines.Some? then input.routines.value else [],
      routineCount := RoutineCountOf(input),
      isInviteLinkActive := input.isInviteLinkActive)
  }

  /** Every guard of `editEvent` passes and the form carries `todos`: the
      edit is saved. */
  predicate EditGoesAhead(s: EventStore, caller: Member, input: EventInput, routineMax: Option<int>) {
    EditRefusal(s, caller, input).None? && input.todos.Some? && RoutineLimitRefusal(input, routineMax).None?
  }

  /** `editEvent` by `caller`. A form without `todos` throws on
      `input.todos.length` before anything is saved; the routine limit is
      checked after the in-memory edits, which are then discarded. After the
      transaction the invitation email goes out as in `inviteUsers`, and a
      failing mailer makes the handler throw with the edit saved, as does
      `transformEvent` on an event with an invitee lacking a role entry. */
  function EditEvent(s: EventStore, caller: Member, input: EventInput, routineMax: Option<int>, mailerFails: bool)
    : (r: EventResult)
    ensures !EditGoesAhead(s, caller, input, routineMax) ==> r.store == s
    ensures r.reply.Error? <==> !EditGoesAhead(s, caller, input, routineMax) && !(EditRefusal(s, caller, input).None? && input.todos.None?)
    ensures r.reply.Raised? <==>
      || (EditRefusal(s, caller, input).None? && input.todos.None?)
      || (&& EditGoesAhead(s, caller, input, routineMax)
          && ((mailerFails && InviteEmailSent(s.users, input.invitedEmails)) || !RolesCovered(s.event.value)))
    ensures EditGoesAhead(s, caller, input, routineMax) ==>
      && r.store.event == Some(Edited(s.event.value, caller, input, input.todos.value))
      && r.store.users == NotifyWhere(s.users, (u: User) => u.email in input.invitedEmails)
  {
    match EditRefusal(s, caller, input)
    case Some((status, message)) => Refuse(s, status, message)
    case None =>
      if input.todos.None? then EventResult(Raised("input.todos is undefined"), s)
      else match RoutineLimitRefusal(input, routineMax)
        case Some(m) => Refuse(s, 400, m)
        case None =>
          var e := s.event.value;
          AllInvitable(e, input.invitedEmails);
          var e' := Edited(e, caller, input, input.todos.value);
          var committed := EventStore(Some(e'), NotifyWhere(s.users, (u: User) => u.email in input.invitedEmails));
          // The edit leaves the invitees and their roles, all `transformEvent` reads, as they were.
          Transformed(AfterCommit(committed, Success, InviteEmailSent(s.users, input.invitedEmails), mailerFails), e)
  }

  /** The reminder gap only guards: any two positive gaps give the same
      edit with the same answer. */
  lemma EditReminderGapOnlyGuards(
    s: EventStore, caller: Member, input: EventInput, routineMax: Option<int>, m: bool, gap: int)
    requires input.daysBtwnReminderAndEvent > 0 && gap > 0
    ensures EditEvent(s, caller, input.(daysBtwnReminderAndEvent := gap), routineMax, m)
         == EditEvent(s, caller, input, routineMax, m)
  {
  }

  /** Editing records invitations exactly as `inviteUsers` would for the
      same emails, with the same answer for the same mailer, and refuses an
      email `inviteUsers` would refuse with the same message. */
  lemma EditInvitesLikeInviteUsers(s: EventStore, caller: Member, input: EventInput, routineMax: Option<int>, m: bool)
    requires EditGoesAhead(s, caller, input, routineMax)
    ensures var r := InviteUsers(s, caller, input.invitedEmails, m);
      && r.reply == EditEvent(s, caller, input, routineMax, m).reply
      && r.store.event.value.invitations == EditEvent(s, caller, input, routineMax, m).store.event.value.invitations
      && r.store.event.value.invitedEmails == EditEvent(s, caller, input, routineMax, m).store.event.value.invitedEmails
      && r.store.users == EditEvent(s, caller, input, routineMax, m).store.users
  {
    if input.invitedEmails == [] {
      EditInvitingNobody(s, caller, input, routineMax, m);
    } else {
      EditInvitingSome(s, caller, input, routineMax, m);
    }
  }

  /** `EditInvitesLikeInviteUsers` for a form inviting nobody. */
  lemma EditInvitingNobody(s: EventStore, caller: Member, input: EventInput, routineMax: Option<int>, m: bool)
    requires EditGoesAhead(s, caller, input, routineMax) && input.invitedEmails == []
    ensures var r := InviteUsers(s, caller, input.invitedEmails, m);
      && r.reply == EditEvent(s, caller, input, routineMax, m).reply
      && r.store.event.value.invitations == EditEvent(s, caller, input, routineMax, m).store.event.value.invitations
      && r.store.event.value.invitedEmails == EditEvent(s, caller, input, routineMax, m).store.event.value.invitedEmails
      && r.store.users == EditEvent(s, caller, input, routineMax, m).store.users
  {
    var e := s.event.value;
    OwnerAlwaysPermitted(InviteUserToEvent, e);
    assert ClassificationError(Classify(e, [])).None?;
    EditGoesAheadUnfolds(s, caller, input, routineMax, m);
    InvitingUnfolds(s, caller, [], m);
    InviteEmailSentIff(s.users, []);
    assert WithInvitations(e, [], caller.id).invitations == e.invitations;
    assert WithInvitations(e, [], caller.id).invitedEmails == e.invitedEmails;
    assert NotifyWhere(s.users, (u: User) => u.email in input.invitedEmails) == s.users;
  }

  /** `EditInvitesLikeInviteUsers` for a form inviting someone. */
  lemma EditInvitingSome(s: EventStore, caller: Member, input: EventInput, routineMax: Option<int>, m: bool)
    requires EditGoesAhead(s, caller, input, routineMax) && input.invitedEmails != []
    ensures var r := InviteUsers(s, caller, input.invitedEmails, m);
      && r.reply == EditEvent(s, caller, input, routineMax, m).reply
      && r.store.event.value.invitations == EditEvent(s, caller, input, routineMax, m).store.event.value.invitations
      && r.store.event.value.invitedEmails == EditEvent(s, caller, input, routineMax, m).store.event.value.invitedEmails
      && r.store.users == EditEvent(s, caller, input, routineMax, m).store.users
  {
    var e := s.event.value;
    OwnerAlwaysPermitted(InviteUserToEvent, e);
    var emails := input.invitedEmails;
    assert ClassificationError(Classify(e, emails)).None?;
    EditGoesAheadUnfolds(s, caller, input, routineMax, m);
    InvitingUnfolds(s, caller, emails, m);
    EditedInvitesAlike(e, caller, input, input.todos.value);
    CommitsAlike(Edited(e, caller, input, input.todos.value), WithInvitations(e, emails, caller.id),
      NotifyWhere(s.users, (u: User) => u.email in emails), InviteEmailSent(s.users, emails), m, e);
  }

  /** Two commits of events with the same invitations, followed by the same
      mail and the same reply, answer alike and store the same invitations
      and users. */
  lemma CommitsAlike(a: Event, b: Event, users: seq<User>, sent: bool, m: bool, e: Event)
    requires a.invitations == b.invitations && a.invitedEmails == b.invitedEmails
    ensures var x := Transformed(AfterCommit(EventStore(Some(a), users), Success, sent, m), e);
      var y := Transformed(AfterCommit(EventStore(Some(b), users), Success, sent, m), e);
      && x.reply == y.reply
      && x.store.event.value.invitations == y.store.event.value.invitations
      && x.store.event.value.invitedEmails == y.store.event.value.invitedEmails
      && x.store.users == y.store.users
  {
  }

  /** The edited event carries the same invitations as `inviteUsers` would
      record for the form's emails. */
  lemma EditedInvitesAlike(e: Event, caller: Member, input: EventInput, todos: seq<Todo>)
    ensures Edited(e, caller, input, todos).invitations == WithInvitations(e, input.invitedEmails, caller.id).invitations
    ensures Edited(e, caller, input, todos).invitedEmails == WithInvitations(e, input.invitedEmails, caller.id).invitedEmails
  {
  }

  /** An edit that goes ahead saves the edited event, notifies the invited
      users and then mails them and builds the reply. */
  lemma EditGoesAheadUnfolds(s: EventStore, caller: Member, input: EventInput, routineMax: Option<int>, m: bool)
    requires EditGoesAhead(s, caller, input, routineMax)
    ensures EditEvent(s, caller, input, routineMax, m) == Transformed(AfterCommit(
      EventStore(Some(Edited(s.event.value, caller, input, input.todos.value)),
        NotifyWhere(s.users, (u: User) => u.email in input.invitedEmails)),
      Success, InviteEmailSent(s.users, input.invitedEmails), m), s.event.value)
  {
  }

  /** An invitation that passes every check saves the invitations and
      notifications, then mails and builds the reply; with nothing to invite
      it only builds the reply. */
  lemma InvitingUnfolds(s: EventStore, caller: Member, emails: seq<string>, m: bool)
    requires s.event.Some? && CheckPermission(InviteUserToEvent, caller.id, s.event.value).Granted?
    requires caller.email !in emails && ClassificationError(Classify(s.event.value, emails)).None?
    ensures emails == [] ==> InviteUsers(s, caller, emails, m) == Transformed(EventResult(Success, s), s.event.value)
    ensures emails != [] ==> InviteUsers(s, caller, emails, m) == Transformed(AfterCommit(
      EventStore(Some(WithInvitations(s.event.value, emails, caller.id)),
        NotifyWhere(s.users, (u: User) => u.email in emails)),
      Success, InviteEmailSent(s.users, emails), m), s.event.value)
  {
    AllInvitable(s.event.value, emails);
  }

  /** The owner is refused an already invited or already present email by
      both handlers with the same answer. */
  lemma EditRejectsLikeInviteUsers(s: EventStore, caller: Member, input: EventInput, routineMax: Option<int>, m: bool)
    requires s.event.Some? && caller.id == s.event.value.owner.id
    requires caller.email !in input.invitedEmails && input.daysBtwnReminderAndEvent > 0
    requires ClassificationError(Classify(s.event.value, input.invitedEmails)).Some?
    ensures EditEvent(s, caller, input, routineMax, m) == InviteUsers(s, caller, input.invitedEmails, m)
    ensures EditEvent(s, caller, input, routineMax, m).reply.Error?
  {
    OwnerAlwaysPermitted(InviteUserToEvent, s.event.value);
  }

  /** The same edit cannot be submitted twice when it invites anyone: the
      second time the emails are pending and the form is refused, whether or
      not the first one's mail went out. */
  lemma EditTwiceRefused(s: EventStore, caller: Member, input: EventInput, routineMax: Option<int>, m: bool, m2: bool)
    requires EditGoesAhead(s, caller, input, routineMax)
    requires input.invitedEmails != []
    ensures var s' := EditEvent(s, caller, input, routineMax, m).store;
      EditEvent(s', caller, input, routineMax, m2).reply == Error(400, PreInvitedMessage(input.invitedEmails))
  {
    var s' := EditEvent(s, caller, input, routineMax, m).store;
    var e' := s'.event.value;
    assert e'.invitedEmails == s.event.value.invitedEmails + input.invitedEmails;
    AllPending(e', input.invitedEmails);
  }
}
