/** The membership and list handlers of controllers/events/index.js: invite,
    accept, remove an invitee, assign a role, and the todo and routine edits
    with their counters.

    A handler reads one event (`Event.findById`, `None` when there is none) and
    the user collection; its writes, which the source makes inside one
    transaction, are applied all together or not at all. In-app notification
    documents are not stored; the notification counters are. After the
    transaction a handler emails the users whose setting asks for it, and
    that mail can fail (`mailerFails`): the exception then reaches the caller
    while the writes stand. Push notifications are sent without waiting and
    their failures are caught, so they never change the reply. */
module EventOps {
  import opened Wrappers
  import opened Seqs
  import opened Subscription
  import opened Users
  import opened Events

  datatype EventStore = EventStore(event: Option<Event>, users: seq<User>)

  /** What a handler answers: success, an `ErrorResponse`, or an exception. */
  datatype Reply = Success | Error(status: int, message: string) | Raised(reason: string)

  datatype EventResult = EventResult(reply: Reply, store: EventStore)

  const EventNotFound: string := "Event not found."

  /** An error answer: nothing is written. */
  function Refuse(s: EventStore, status: int, message: string): (r: EventResult)
    ensures r.store == s && r.reply.Error?
  {
    EventResult(Error(status, message), s)
  }

  const MailerFailure: string := "the notification email could not be sent"

  /** The answer of a handler whose transaction has committed `committed`,
      once the email it then sends (when `mailed`) has been awaited:
      `sendEmail` posts to the mail API without a catch, so a failing mailer
      turns the reply into an exception and leaves the writes in place. */
  function AfterCommit(committed: EventStore, reply: Reply, mailed: bool, mailerFails: bool): (r: EventResult)
    ensures r.store == committed
    ensures r.reply.Raised? <==> reply.Raised? || (mailed && mailerFails)
    ensures !(mailed && mailerFails) ==> r.reply == reply
  {
    if mailed && mailerFails then EventResult(Raised(MailerFailure), committed)
    else EventResult(reply, committed)
  }

  const RoleEntryMissing: string := "an invitee has no role entry"

  /** The reply after `transformEvent(event)` has run, last of all: reading
      `doc.role` for an invitee without a role entry throws, with the writes
      and any mail already done. A reply that already raised stays as it is. */
  function Transformed(r: EventResult, e: Event): (r': EventResult)
    ensures r'.store == r.store
    ensures r'.reply.Raised? <==> r.reply.Raised? || (r.reply.Success? && !RolesCovered(e))
    ensures RolesCovered(e) || !r.reply.Success? ==> r' == r
  {
    if r.reply.Success? && !RolesCovered(e) then EventResult(Raised(RoleEntryMissing), r.store) else r
  }

  // ---------------------------------------------------------------------------
  // inviteUsers
  // ---------------------------------------------------------------------------

  /** The three lists `inviteUsers` and `editEvent` sort requested emails into. */
  datatype Classified = Classified(preInvited: seq<string>, participants: seq<string>, invitable: seq<string>)

  /** Already invited: the test made first. */
  function PreInvitedTest(e: Event): string -> bool {
    (x: string) => x in e.invitedEmails
  }

  /** Not invited, but the owner's or an invitee's email. */
  function ParticipantTest(e: Event): string -> bool {
    (x: string) => x !in e.invitedEmails && x in ParticipantEmails(e)
  }

  /** Neither invited nor a participant. */
  function InvitableTest(e: Event): string -> bool {
    (x: string) => x !in e.invitedEmails && x !in ParticipantEmails(e)
  }

  /** The classification as three order-preserving filters: every requested
      email lands in exactly one list, pre-invited taking precedence. */
  function Classify(e: Event, emails: seq<string>): (c: Classified)
    ensures |c.preInvited| + |c.participants| + |c.invitable| == |emails|
    ensures IsSubsequence(c.preInvited, emails) && IsSubsequence(c.participants, emails)
    ensures IsSubsequence(c.invitable, emails)
    ensures forall x :: x in c.preInvited <==> x in emails && x in e.invitedEmails
    ensures forall x :: x in c.participants <==> x in emails && x !in e.invitedEmails && x in ParticipantEmails(e)
    ensures forall x :: x in c.invitable <==> x in emails && x !in e.invitedEmails && x !in ParticipantEmails(e)
  {
    FilterPartition3(emails, PreInvitedTest(e), ParticipantTest(e), InvitableTest(e));
    Classified(
      Filter(emails, PreInvitedTest(e)),
      Filter(emails, ParticipantTest(e)),
      Filter(emails, InvitableTest(e)))
  }

  /** One more email extends exactly the list its tests select. */
  lemma ClassifyStep(e: Event, emails: seq<string>, i: nat)
    requires i < |emails|
    ensures var x := emails[i];
      && Filter(emails[..i + 1], PreInvitedTest(e))
         == Filter(emails[..i], PreInvitedTest(e)) + (if x in e.invitedEmails then [x] else [])
      && Filter(emails[..i + 1], ParticipantTest(e))
         == Filter(emails[..i], ParticipantTest(e)) + (if x !in e.invitedEmails && x in ParticipantEmails(e) then [x] else [])
      && Filter(emails[..i + 1], InvitableTest(e))
         == Filter(emails[..i], InvitableTest(e)) + (if x !in e.invitedEmails && x !in ParticipantEmails(e) then [x] else [])
  {
    FilterSnoc(emails, PreInvitedTest(e), i);
    FilterSnoc(emails, ParticipantTest(e), i);
    FilterSnoc(emails, InvitableTest(e), i);
  }

  /** One iteration of the `forEach`: `x` is pushed onto the list its tests pick. */
  function Place(c: Classified, e: Event, x: string): Classified {
    if x in e.invitedEmails then c.(preInvited := c.preInvited + [x])
    else if x in ParticipantEmails(e) then c.(participants := c.participants + [x])
    else c.(invitable := c.invitable + [x])
  }

  /** The lists after the first `n` iterations. */
  function PlacedUpTo(e: Event, emails: seq<string>, n: nat): Classified
    requires n <= |emails|
  {
    if n == 0 then Classified([], [], [])
    else Place(PlacedUpTo(e, emails, n - 1), e, emails[n - 1])
  }

  /** Pushing one email at a time builds the three filters. */
  lemma {:induction false} PlacedUpToIsClassify(e: Event, emails: seq<string>, n: nat)
    requires n <= |emails|
    ensures PlacedUpTo(e, emails, n) == Classified(
      Filter(emails[..n], PreInvitedTest(e)),
      Filter(emails[..n], ParticipantTest(e)),
      Filter(emails[..n], InvitableTest(e)))
  {
    if n > 0 {
      var m := n - 1;
      PlacedUpToIsClassify(e, emails, m);
      ClassifyStep(e, emails, m);
      assert PlacedUpTo(e, emails, n) == Place(PlacedUpTo(e, emails, m), e, emails[m]);
    }
  }

  /** The `forEach` that pushes each requested email onto one of three lists. */
  method ClassifyInvites(e: Event, emails: seq<string>) returns (c: Classified)
    ensures c == Classify(e, emails)
  {
    var participants := ParticipantEmails(e);
    var pre: seq<string> := [];
    var part: seq<string> := [];
    var inv: seq<string> := [];
    var i := 0;
    while i < |emails|
      invariant 0 <= i <= |emails|
      invariant Classified(pre, part, inv) == PlacedUpTo(e, emails, i)
    {
      var x := emails[i];
      if x in e.invitedEmails {
        pre := pre + [x];
      } else if x in participants {
        part := part + [x];
      } else {
        inv := inv + [x];
      }
      i := i + 1;
    }
    PlacedAllIsClassify(e, emails);
    c := Classified(pre, part, inv);
  }

  /** After the last iteration the lists are the classification. */
  lemma PlacedAllIsClassify(e: Event, emails: seq<string>)
    ensures PlacedUpTo(e, emails, |emails|) == Classify(e, emails)
  {
    PlacedUpToIsClassify(e, emails, |emails|);
    assert emails[..|emails|] == emails;
  }

  const NotAuthorizedToInvite: string := "You are not authorized to invite users."
  const SelfInviteMessage: string := "You cannot send email invite to your own email."

  function ParticipantsMessage(xs: seq<string>): string {
    var emails := Join(xs, ", ");
    if |xs| > 1 then "The email owners of '" + emails + "' are already in this event."
    else "The email owner of '" + emails + "' is already in this event."
  }

  function PreInvitedMessage(xs: seq<string>): string {
    var emails := Join(xs, ", ");
    if |xs| > 1 then "The email owners of " + emails + " have already been invited to this event."
    else "The email owner of " + emails + " have already been invited to this event."
  }

  /** The rejection shared by `inviteUsers` and `editEvent` once the requested
      emails are classified: participants first, then pre-invited ones. */
  function ClassificationError(c: Classified): (m: Option<string>)
    ensures m.None? <==> c.participants == [] && c.preInvited == []
  {
    if |c.participants| > 0 then Some(ParticipantsMessage(c.participants))
    else if |c.preInvited| > 0 then Some(PreInvitedMessage(c.preInvited))
    else None
  }

  /** When neither rejecting list is filled, every requested email is invitable. */
  lemma AllInvitable(e: Event, emails: seq<string>)
    requires ClassificationError(Classify(e, emails)).None?
    ensures Classify(e, emails).invitable == emails
  {
    assert forall i :: 0 <= i < |emails| ==> InvitableTest(e)(emails[i]);
    FilterAll(emails, InvitableTest(e));
  }

  /** When every requested email is already pending, all of them are
      reported as pre-invited and none as present. */
  lemma AllPending(e: Event, emails: seq<string>)
    requires emails != []
    requires forall i :: 0 <= i < |emails| ==> emails[i] in e.invitedEmails
    ensures ClassificationError(Classify(e, emails)) == Some(PreInvitedMessage(emails))
  {
    assert forall i :: 0 <= i < |emails| ==> PreInvitedTest(e)(emails[i]);
    FilterAll(emails, PreInvitedTest(e));
  }

  /** The pushes `inviteUsers` makes: one invitation per email, by the inviter,
      and the emails themselves. */
  function WithInvitations(e: Event, emails: seq<string>, invitor: string): (e': Event)
    ensures e'.invitedEmails == e.invitedEmails + emails
    ensures |e'.invitations| == |e.invitations| + |emails|
    ensures e'.invitations[..|e.invitations|] == e.invitations
    ensures forall i :: 0 <= i < |emails| ==> e'.invitations[|e.invitations| + i] == Invitation(emails[i], invitor)
    ensures e'.(invitations := e.invitations, invitedEmails := e.invitedEmails) == e
  {
    e.(invitations := e.invitations + Map(emails, (x: string) => Invitation(x, invitor)),
       invitedEmails := e.invitedEmails + emails)
  }

  /** `inviteUsers` by the signed-in `caller`. Once the invitations are
      saved, the unregistered emails and the registered users who want it
      are sent the invitation email. The reply, even with nothing to invite,
      is built by `transformEvent`, which throws for an invitee without a
      role entry. */
  function InviteUsers(s: EventStore, caller: Member, emails: seq<string>, mailerFails: bool): (r: EventResult)
    ensures r.reply.Error? ==> r.store == s
    ensures s.event.None? ==> r == Refuse(s, 404, EventNotFound)
    ensures !r.reply.Error? <==>
      && s.event.Some?
      && CheckPermission(InviteUserToEvent, caller.id, s.event.value).Granted?
      && caller.email !in emails
      && (forall x :: x in emails ==> x !in s.event.value.invitedEmails && x !in ParticipantEmails(s.event.value))
    ensures r.reply.Raised? <==>
      !r.reply.Error? && ((mailerFails && InviteEmailSent(s.users, emails)) || !RolesCovered(s.event.value))
    ensures !r.reply.Error? && emails == [] ==> r.store == s
    ensures !r.reply.Error? && emails != [] ==>
      && r.store.event == Some(WithInvitations(s.event.value, emails, caller.id))
      && r.store.users == NotifyWhere(s.users, (u: User) => u.email in emails)
  {
    if s.event.None? then Refuse(s, 404, EventNotFound)
    else
      var e := s.event.value;
      if !CheckPermission(InviteUserToEvent, caller.id, e).Granted? then Refuse(s, 403, NotAuthorizedToInvite)
      else if caller.email in emails then Refuse(s, 400, SelfInviteMessage)
      else
        var c := Classify(e, emails);
        match ClassificationError(c)
        case Some(m) => Refuse(s, 400, m)
        case None =>
          AllInvitable(e, emails);
          // Inviting leaves the invitees and their roles, all `transformEvent` reads, as they were.
          if |c.invitable| == 0 then Transformed(EventResult(Success, s), e)
          else
            var committed := EventStore(
              Some(WithInvitations(e, c.invitable, caller.id)),
              NotifyWhere(s.users, (u: User) => u.email in c.invitable));
            Transformed(AfterCommit(committed, Success, InviteEmailSent(s.users, c.invitable), mailerFails), e)
  }

  /** An email invited once cannot be invited again while the invitation is
      pending: the retry is refused as pre-invited. */
  lemma {:induction false} ReinviteRefused(s: EventStore, caller: Member, emails: seq<string>, x: string, m: bool, m2: bool)
    requires !InviteUsers(s, caller, emails, m).reply.Error?
    requires x in emails
    ensures var s' := InviteUsers(s, caller, emails, m).store;
      InviteUsers(s', caller, [x], m2) == Refuse(s', 400, PreInvitedMessage([x]))
  {
    var e := s.event.value;
    var s' := InviteUsers(s, caller, emails, m).store;
    var e' := s'.event.value;
    assert e' == WithInvitations(e, emails, caller.id);
    PermissionIgnoresContent(InviteUserToEvent, caller.id, e, e');
    PendingRefused(s', caller, x, m2);
  }

  /** Inviting an email whose invitation is pending is refused as pre-invited. */
  lemma PendingRefused(s: EventStore, caller: Member, x: string, m: bool)
    requires s.event.Some? && x in s.event.value.invitedEmails && x != caller.email
    requires CheckPermission(InviteUserToEvent, caller.id, s.event.value).Granted?
    ensures InviteUsers(s, caller, [x], m) == Refuse(s, 400, PreInvitedMessage([x]))
  {
    AllPending(s.event.value, [x]);
  }

  // ---------------------------------------------------------------------------
  // acceptInvitation
  // ---------------------------------------------------------------------------

  const NotInvitedMessage: string := "You have not been invited to this event."

  /** The number of invitees an event of an owner on the free plan can hold. */
  const JoinLimit: int := 5

  const JoinLimitMessage: string :=
    "Only 5 people can join this event. Please contact the event owner to increase the join limit."

  /** Who is told of an acceptance: the inviter on the caller's first
      invitation, or the owner when there is none. */
  function InvitorOf(e: Event, email: string): (id: string)
    ensures (forall i :: 0 <= i < |e.invitations| ==> e.invitations[i].email != email) ==> id == e.owner.id
    ensures id == e.owner.id || exists i :: 0 <= i < |e.invitations| && e.invitations[i] == Invitation(email, id)
  {
    match FindFirst(e.invitations, (inv: Invitation) => inv.email == email)
    case Some(k) => e.invitations[k].invitor
    case None => e.owner.id
  }

  /** The accepted event: the caller joins as a Viewer and its email leaves
      both pending lists. */
  function Joined(e: Event, caller: Member): (e': Event)
    ensures e'.invitees == e.invitees + [caller]
    ensures e'.inviteeRoles == e.inviteeRoles + [RoleEntry(caller.id, Viewer)]
    ensures caller.email !in e'.invitedEmails && IsSubsequence(e'.invitedEmails, e.invitedEmails)
    ensures forall x :: x in e.invitedEmails && x != caller.email ==> x in e'.invitedEmails
    ensures forall i :: 0 <= i < |e'.invitations| ==> e'.invitations[i].email != caller.email
    ensures IsSubsequence(e'.invitations, e.invitations)
    ensures forall v :: v in e.invitations && v.email != caller.email ==> v in e'.invitations
    ensures e'.(invitees := e.invitees, inviteeRoles := e.inviteeRoles,
                invitedEmails := e.invitedEmails, invitations := e.invitations) == e
  {
    e.(invitees := e.invitees + [caller],
       inviteeRoles := e.inviteeRoles + [RoleEntry(caller.id, Viewer)],
       invitedEmails := Filter(e.invitedEmails, (x: string) => x != caller.email),
       invitations := Filter(e.invitations, (v: Invitation) => v.email != caller.email))
  }

  /** Selects the user with id `id`. */
  function IdIs(id: string): User -> bool {
    (u: User) => u.id == id
  }

  /** The guards of `acceptInvitation` that decide the caller joins: the event
      exists, the caller's email is pending, and the event is under the join
      limit or its owner is premium or on an active trial. */
  predicate MayJoin(s: EventStore, caller: Member, ownerSub: SubscriptionInfo, now: int) {
    && s.event.Some?
    && caller.email in s.event.value.invitedEmails
    && (|s.event.value.invitees| < JoinLimit || IsUserFreeOrPremium(ownerSub, now))
  }

  /** `acceptInvitation` by `caller`. `ownerSub` is the populated owner's
      `subscriptionInfo`. The mailer is used twice: for the owner's email
      when the join limit refuses the caller, and after the transaction for
      the invitor, when the invitor's setting asks for it. The reply is then
      built by `transformEvent` from the joined event. */
  function AcceptInvitation(s: EventStore, caller: Member, ownerSub: SubscriptionInfo, now: int, mailerFails: bool)
    : (r: EventResult)
    ensures s.event.None? ==> r == Refuse(s, 404, EventNotFound)
    ensures s.event.Some? && caller.email !in s.event.value.invitedEmails ==> r == Refuse(s, 403, NotInvitedMessage)
    ensures !MayJoin(s, caller, ownerSub, now) ==> r.store == s
    ensures MayJoin(s, caller, ownerSub, now) ==>
      && r.store.event == Some(Joined(s.event.value, caller))
      && r.store.users == NotifyWhere(s.users, IdIs(InvitorOf(s.event.value, caller.email)))
    ensures r.reply.Success? <==>
      && MayJoin(s, caller, ownerSub, now)
      && !(mailerFails && EmailGoesTo(s.users, IdIs(InvitorOf(s.event.value, caller.email)), EventInvitationAcceptance))
      && RolesCovered(Joined(s.event.value, caller))
    ensures r.reply.Raised? <==>
      || (mailerFails && s.event.Some? && caller.email in s.event.value.invitedEmails && !MayJoin(s, caller, ownerSub, now))
      || (&& MayJoin(s, caller, ownerSub, now)
          && ((mailerFails && EmailGoesTo(s.users, IdIs(InvitorOf(s.event.value, caller.email)), EventInvitationAcceptance))
              || !RolesCovered(Joined(s.event.value, caller))))
  {
    if s.event.None? then Refuse(s, 404, EventNotFound)
    else
      var e := s.event.value;
      if caller.email !in e.invitedEmails then Refuse(s, 403, NotInvitedMessage)
      else if |e.invitees| >= JoinLimit && !IsUserFreeOrPremium(ownerSub, now) then
        if mailerFails then EventResult(Raised(MailerFailure), s)
        else Refuse(s, 403, JoinLimitMessage)
      else
        var invitor := IdIs(InvitorOf(e, caller.email));
        var committed := EventStore(Some(Joined(e, caller)), NotifyWhere(s.users, invitor));
        Transformed(AfterCommit(committed, Success, EmailGoesTo(s.users, invitor, EventInvitationAcceptance), mailerFails),
                    Joined(e, caller))
  }

  /** An owner who is neither premium nor on a trial never gets more than five
      invitees through acceptances. */
  lemma JoinLimitKept(s: EventStore, caller: Member, ownerSub: SubscriptionInfo, now: int, m: bool)
    requires s.event.Some? && |s.event.value.invitees| <= JoinLimit
    requires !IsUserFreeOrPremium(ownerSub, now)
    ensures var r := AcceptInvitation(s, caller, ownerSub, now, m);
      r.store.event.Some? && |r.store.event.value.invitees| <= JoinLimit
  {
  }

  /** An invitation is used up by its acceptance, whether or not the mail
      after it went out: accepting again is refused. */
  lemma AcceptOnce(s: EventStore, caller: Member, ownerSub: SubscriptionInfo, now: int, m: bool, m2: bool)
    requires MayJoin(s, caller, ownerSub, now)
    ensures var s' := AcceptInvitation(s, caller, ownerSub, now, m).store;
      AcceptInvitation(s', caller, ownerSub, now, m2) == Refuse(s', 403, NotInvitedMessage)
  {
  }

  /** Accepting keeps every invitee covered by a role entry, and gives the
      newcomer one: on such an event the reply is built without throwing. */
  lemma JoinedKeepsRolesCovered(e: Event, caller: Member)
    requires RolesCovered(e)
    ensures RolesCovered(Joined(e, caller))
  {
    var e' := Joined(e, caller);
    forall i | 0 <= i < |e'.invitees| ensures RoleOf(e', e'.invitees[i].id).Some? {
      if i < |e.invitees| {
        var id := e.invitees[i].id;
        assert e'.invitees[i].id == id;
        var j :| 0 <= j < |e.inviteeRoles| && e.inviteeRoles[j] == RoleEntry(id, RoleOf(e, id).value);
        assert e'.inviteeRoles[j].id == id;
      } else {
        assert e'.inviteeRoles[|e.inviteeRoles|].id == caller.id;
      }
    }
  }

  /** Invite then accept: the invited user ends up an invitee with the Viewer
      role and nothing pending, and the inviter is the one notified. */
  lemma InviteThenAccept(s: EventStore, inviter: Member, guest: Member, ownerSub: SubscriptionInfo, now: int, m1: bool, m: bool)
    requires !InviteUsers(s, inviter, [guest.email], m1).reply.Error?
    requires |s.event.value.invitees| < JoinLimit
    requires forall i :: 0 <= i < |s.event.value.invitations| ==> s.event.value.invitations[i].email != guest.email
    ensures var s1 := InviteUsers(s, inviter, [guest.email], m1).store;
      var r := AcceptInvitation(s1, guest, ownerSub, now, m);
      && MayJoin(s1, guest, ownerSub, now)
      && IsInvitee(guest.id, r.store.event.value)
      && guest.email !in r.store.event.value.invitedEmails
      && InvitorOf(s1.event.value, guest.email) == inviter.id
  {
    var e := s.event.value;
    var s1 := InviteUsers(s, inviter, [guest.email], m1).store;
    assert s1.event == Some(WithInvitations(e, [guest.email], inviter.id));
    InvitorOfNewInvitation(e, guest.email, inviter.id);
    AcceptPending(s1, guest, ownerSub, now, m);
  }

  /** A pending invitee under the join limit is admitted. */
  lemma AcceptPending(s: EventStore, guest: Member, ownerSub: SubscriptionInfo, now: int, m: bool)
    requires s.event.Some? && guest.email in s.event.value.invitedEmails
    requires |s.event.value.invitees| < JoinLimit
    ensures var r := AcceptInvitation(s, guest, ownerSub, now, m);
      && MayJoin(s, guest, ownerSub, now)
      && IsInvitee(guest.id, r.store.event.value)
      && guest.email !in r.store.event.value.invitedEmails
  {
    var joined := Joined(s.event.value, guest);
    assert joined.invitees[|joined.invitees| - 1] == guest;
  }

  /** The invitor recorded for an email invited for the first time is the one
      who invited it. */
  lemma InvitorOfNewInvitation(e: Event, email: string, invitor: string)
    requires forall i :: 0 <= i < |e.invitations| ==> e.invitations[i].email != email
    ensures InvitorOf(WithInvitations(e, [email], invitor), email) == invitor
  {
    var e1 := WithInvitations(e, [email], invitor);
    assert e1.invitations[|e.invitations|] == Invitation(email, invitor);
    assert forall j :: 0 <= j < |e.invitations| ==> e1.invitations[j] == e.invitations[j];
    var k := FindFirst(e1.invitations, (inv: Invitation) => inv.email == email);
    assert k.Some?;
    assert k.value == |e.invitations|;
  }

  // ---------------------------------------------------------------------------
  // removeInvitee and assignRoleToInvitee
  // ---------------------------------------------------------------------------

  /** Seniority of a role; no role entry at all ranks lowest. */
  function Rank(r: Option<Role>): nat {
    match r
    case None => 0
    case Some(Viewer) => 1
    case Some(Editor) => 2
    case Some(Admin) => 3
  }

  const OnlyViewers: string := "You can only remove users who are Viewers"
  const OnlyEditorsOrViewers: string := "You can only remove users who are Editors or Viewers"

  /** The three role checks `removeInvitee` makes when the executor is an invitee. */
  function RemovalRoleCheck(executor: Option<Role>, executee: Option<Role>): (m: Option<string>)
    ensures executor == Some(Admin) || executor == Some(Editor) ==> (m.None? <==> Rank(executee) < Rank(executor))
  {
    if executor == Some(Editor) && executee == Some(Admin) then Some(OnlyViewers)
    else if executor == Some(Admin) && executee == Some(Admin) then Some(OnlyEditorsOrViewers)
    else if executor == Some(Editor) && executee == Some(Editor) then Some(OnlyViewers)
    else None
  }

  function InviteeMismatch(id: string): string {
    "InviteeId: " + id + " does not match any invitee"
  }

  /** The event without the invitee: gone from `invitees` and `inviteeRoles`. */
  function Without(e: Event, id: string): (e': Event)
    ensures !IsInvitee(id, e') && RoleOf(e', id).None?
    ensures IsSubsequence(e'.invitees, e.invitees) && IsSubsequence(e'.inviteeRoles, e.inviteeRoles)
    ensures forall i :: 0 <= i < |e.invitees| && e.invitees[i].id != id ==> e.invitees[i] in e'.invitees
    ensures forall j :: 0 <= j < |e.inviteeRoles| && e.inviteeRoles[j].id != id ==> e.inviteeRoles[j] in e'.inviteeRoles
    ensures e'.(invitees := e.invitees, inviteeRoles := e.inviteeRoles) == e
  {
    e.(invitees := Filter(e.invitees, (m: Member) => m.id != id),
       inviteeRoles := Filter(e.inviteeRoles, (x: RoleEntry) => x.id != id))
  }

  /** The guards of `removeInvitee`, in order, on an event that exists: the
      refusal, or `None` when the removal goes ahead. */
  function RemovalRefusal(e: Event, callerId: string, inviteeId: string): (m: Option<Reply>)
    ensures m.Some? ==> m.value.Error?
    ensures m.None? <==>
      && CheckPermission(RemoveInviteeFromEvent, callerId, e).Granted?
      && inviteeId != callerId
      && IsInvitee(inviteeId, e)
      && (callerId != e.owner.id ==> Rank(RoleOf(e, inviteeId)) < Rank(RoleOf(e, callerId)))
  {
    var p := CheckPermission(RemoveInviteeFromEvent, callerId, e);
    if !p.Granted? then Some(Error(403, "You are not authorized to remove users."))
    else if inviteeId == callerId then Some(Error(403, "You cannot remove yourself."))
    else if !IsInvitee(inviteeId, e) then Some(Error(400, InviteeMismatch(inviteeId)))
    else if p.userType == OwnerUser then None
    else RemovalRankRefusal(e, callerId, inviteeId)
  }

  /** The role checks `removeInvitee` makes for an invitee executor: an Editor
      removes only Viewers, an Admin only Editors and Viewers. */
  function RemovalRankRefusal(e: Event, callerId: string, inviteeId: string): (m: Option<Reply>)
    requires CheckPermission(RemoveInviteeFromEvent, callerId, e).Granted? && callerId != e.owner.id
    ensures m.Some? ==> m.value.Error?
    ensures m.None? <==> Rank(RoleOf(e, inviteeId)) < Rank(RoleOf(e, callerId))
  {
    // `permission.executor` is the caller
    RemoverIsAdminOrEditor(e, callerId);
    var check := RemovalRoleCheck(RoleOf(e, callerId), RoleOf(e, inviteeId));
    if check.Some? then Some(Error(403, check.value)) else None
  }

  /** Only Admin and Editor invitees are granted removal. */
  lemma RemoverIsAdminOrEditor(e: Event, callerId: string)
    requires CheckPermission(RemoveInviteeFromEvent, callerId, e).Granted? && callerId != e.owner.id
    ensures RoleOf(e, callerId) == Some(Admin) || RoleOf(e, callerId) == Some(Editor)
  {
    assert IndexPermissions(RemoveInviteeFromEvent) == {Admin, Editor};
  }

  /** The guards of `removeInvitee` and `assignRoleToInvitee` that decide
      the write: the event exists, `op` is granted, the invitee is not the
      caller and is an invitee, and an invitee caller outranks it. */
  predicate InviteeChangeAllowed(s: EventStore, op: Operation, callerId: string, inviteeId: string) {
    && s.event.Some?
    && CheckPermission(op, callerId, s.event.value).Granted?
    && inviteeId != callerId
    && IsInvitee(inviteeId, s.event.value)
    && (callerId != s.event.value.owner.id ==>
          Rank(RoleOf(s.event.value, inviteeId)) < Rank(RoleOf(s.event.value, callerId)))
  }

  /** `removeInvitee` by `callerId` of the invitee `inviteeId`. After the
      transaction the invitee's user document is read and emailed when its
      setting asks for it: a missing document throws there, as does the
      mailer. The response then reads the removed invitee's role entry,
      which throws when there was none. Each of these leaves the removal
      written. */
  function RemoveInvitee(s: EventStore, callerId: string, inviteeId: string, mailerFails: bool): (r: EventResult)
    ensures r.reply.Error? ==> r.store == s
    ensures s.event.None? ==> r == Refuse(s, 404, EventNotFound)
    ensures !r.reply.Error? <==> InviteeChangeAllowed(s, RemoveInviteeFromEvent, callerId, inviteeId)
    ensures !r.reply.Error? ==>
      && r.store.event == Some(Without(s.event.value, inviteeId))
      && r.store.users == NotifyWhere(s.users, IdIs(inviteeId))
    ensures r.reply.Raised? <==>
      && !r.reply.Error?
      && (|| !HasUser(s.users, inviteeId)
          || (mailerFails && EmailGoesTo(s.users, IdIs(inviteeId), InviteeRemoved))
          || RoleOf(s.event.value, inviteeId).None?)
  {
    if s.event.None? then Refuse(s, 404, EventNotFound)
    else
      var e := s.event.value;
      match RemovalRefusal(e, callerId, inviteeId)
      case Some(refusal) => EventResult(refusal, s)
      case None =>
        var committed := EventStore(Some(Without(e, inviteeId)), NotifyWhere(s.users, IdIs(inviteeId)));
        if !HasUser(s.users, inviteeId) then EventResult(Raised(MissingInviteeUser), committed)
        else
          var reply := if RoleOf(e, inviteeId).None? then Raised("the removed invitee has no role entry") else Success;
          AfterCommit(committed, reply, EmailGoesTo(s.users, IdIs(inviteeId), InviteeRemoved), mailerFails)
  }

  /** The reason `getNotifiableEmails([null])` throws. */
  const MissingInviteeUser: string := "the invitee's user document is null"

  /** Removing an invitee keeps every remaining invitee covered by a role entry. */
  lemma WithoutKeepsRolesCovered(e: Event, id: string)
    requires RolesCovered(e)
    ensures RolesCovered(Without(e, id))
  {
    var e' := Without(e, id);
    forall i | 0 <= i < |e'.invitees| ensures RoleOf(e', e'.invitees[i].id).Some? {
      var who := e'.invitees[i];
      assert who in e.invitees && who.id != id;
      var k :| 0 <= k < |e.invitees| && e.invitees[k] == who;
      var j :| 0 <= j < |e.inviteeRoles| && e.inviteeRoles[j] == RoleEntry(who.id, RoleOf(e, who.id).value);
      assert e.inviteeRoles[j] in e'.inviteeRoles;
    }
  }

  /** A removed invitee can be neither removed again nor given a role: both
      are refused and change nothing. */
  lemma RemovedIsGone(s: EventStore, callerId: string, inviteeId: string, role: Role, m: bool, m2: bool)
    requires !RemoveInvitee(s, callerId, inviteeId, m).reply.Error?
    ensures var s' := RemoveInvitee(s, callerId, inviteeId, m).store;
      && RemoveInvitee(s', callerId, inviteeId, m2).reply.Error?
      && AssignRoleToInvitee(s', callerId, inviteeId, role, m2).reply.Error?
  {
  }

  const OnlyEditorsAndViewers: string := "You can only assign role to event Editors and Viewers"

  /** The event with every role entry of the invitee set to `role`. */
  function Reroled(e: Event, id: string, role: Role): (e': Event)
    ensures |e'.inviteeRoles| == |e.inviteeRoles|
    ensures forall j :: 0 <= j < |e.inviteeRoles| ==>
      e'.inviteeRoles[j].id == e.inviteeRoles[j].id
      && (e'.inviteeRoles[j].role == if e.inviteeRoles[j].id == id then role else e.inviteeRoles[j].role)
    ensures e'.(inviteeRoles := e.inviteeRoles) == e
  {
    e.(inviteeRoles := Map(e.inviteeRoles, (x: RoleEntry) => if x.id == id then RoleEntry(x.id, role) else x))
  }

  /** Re-roling keeps every invitee covered by a role entry. */
  lemma ReroledKeepsRolesCovered(e: Event, id: string, role: Role)
    requires RolesCovered(e)
    ensures RolesCovered(Reroled(e, id, role))
  {
    var e' := Reroled(e, id, role);
    forall i | 0 <= i < |e'.invitees| ensures RoleOf(e', e'.invitees[i].id).Some? {
      var who := e.invitees[i];
      var j :| 0 <= j < |e.inviteeRoles| && e.inviteeRoles[j] == RoleEntry(who.id, RoleOf(e, who.id).value);
      assert e'.inviteeRoles[j].id == who.id;
    }
  }

  /** The guards of `assignRoleToInvitee`, in order, on an event that exists. */
  function AssignmentRefusal(e: Event, callerId: string, inviteeId: string): (m: Option<Reply>)
    ensures m.Some? ==> m.value.Error?
    ensures m.None? <==>
      && CheckPermission(AssignEventRole, callerId, e).Granted?
      && inviteeId != callerId
      && IsInvitee(inviteeId, e)
      && (callerId != e.owner.id ==> Rank(RoleOf(e, inviteeId)) < Rank(RoleOf(e, callerId)))
  {
    var p := CheckPermission(AssignEventRole, callerId, e);
    if !p.Granted? then Some(Error(403, "You cannot assign roles."))
    else if inviteeId == callerId then Some(Error(403, "You cannot assign role to yourself."))
    else if !IsInvitee(inviteeId, e) then Some(Error(400, InviteeMismatch(inviteeId)))
    else if p.userType == OwnerUser then None
    else AssignmentRankRefusal(e, callerId, inviteeId)
  }

  /** The role check `assignRoleToInvitee` makes for an invitee executor, who
      can only be an Admin: another Admin is out of reach. */
  function AssignmentRankRefusal(e: Event, callerId: string, inviteeId: string): (m: Option<Reply>)
    requires CheckPermission(AssignEventRole, callerId, e).Granted? && callerId != e.owner.id
    ensures m.Some? ==> m.value.Error?
    ensures m.None? <==> Rank(RoleOf(e, inviteeId)) < Rank(RoleOf(e, callerId))
  {
    // `permission.executor` is the caller
    AssignerIsAdmin(e, callerId);
    var check := AssignmentRoleCheck(RoleOf(e, callerId), RoleOf(e, inviteeId));
    if check.Some? then Some(Error(403, check.value)) else None
  }

  /** The role check `assignRoleToInvitee` makes: an Admin executor cannot
      reassign another Admin. */
  function AssignmentRoleCheck(executor: Option<Role>, executee: Option<Role>): (m: Option<string>)
    ensures executor == Some(Admin) ==> (m.None? <==> Rank(executee) < Rank(executor))
  {
    if executor == Some(Admin) && executee == Some(Admin) then Some(OnlyEditorsAndViewers) else None
  }

  /** Only an Admin invitee is granted role assignment. */
  lemma AssignerIsAdmin(e: Event, callerId: string)
    requires CheckPermission(AssignEventRole, callerId, e).Granted? && callerId != e.owner.id
    ensures RoleOf(e, callerId) == Some(Admin)
  {
    assert IndexPermissions(AssignEventRole) == {Admin};
  }

  /** `assignRoleToInvitee` by `callerId`, giving `inviteeId` the role
      `role`. After the transaction the invitee's user document is read and
      emailed when its setting asks for it; a missing document or a failing
      mailer throws with the new role written. */
  function AssignRoleToInvitee(s: EventStore, callerId: string, inviteeId: string, role: Role, mailerFails: bool)
    : (r: EventResult)
    ensures r.reply.Error? ==> r.store == s
    ensures s.event.None? ==> r == Refuse(s, 404, EventNotFound)
    ensures !r.reply.Error? <==> InviteeChangeAllowed(s, AssignEventRole, callerId, inviteeId)
    ensures !r.reply.Error? ==>
      && r.store.event == Some(Reroled(s.event.value, inviteeId, role))
      && r.store.users == NotifyWhere(s.users, IdIs(inviteeId))
    ensures r.reply.Raised? <==>
      && !r.reply.Error?
      && (!HasUser(s.users, inviteeId) || (mailerFails && EmailGoesTo(s.users, IdIs(inviteeId), EventRoleAssigned)))
  {
    if s.event.None? then Refuse(s, 404, EventNotFound)
    else
      var e := s.event.value;
      match AssignmentRefusal(e, callerId, inviteeId)
      case Some(refusal) => EventResult(refusal, s)
      case None =>
        var committed := EventStore(Some(Reroled(e, inviteeId, role)), NotifyWhere(s.users, IdIs(inviteeId)));
        if !HasUser(s.users, inviteeId) then EventResult(Raised(MissingInviteeUser), committed)
        else AfterCommit(committed, Success, EmailGoesTo(s.users, IdIs(inviteeId), EventRoleAssigned), mailerFails)
  }

  /** Once an assignment is written the invitee holds the assigned role, and
      every other user's role is what it was. */
  lemma AssignedRoleHolds(s: EventStore, callerId: string, inviteeId: string, role: Role, other: string, m: bool)
    requires !AssignRoleToInvitee(s, callerId, inviteeId, role, m).reply.Error?
    requires RoleOf(s.event.value, inviteeId).Some?
    requires other != inviteeId
    ensures var e' := AssignRoleToInvitee(s, callerId, inviteeId, role, m).store.event.value;
      RoleOf(e', inviteeId) == Some(role) && RoleOf(e', other) == RoleOf(s.event.value, other)
  {
    var e := s.event.value;
    var e' := Reroled(e, inviteeId, role);
    RoleOfReroled(e, inviteeId, role, inviteeId);
    RoleOfReroled(e, inviteeId, role, other);
  }

  lemma {:induction false} RoleOfReroled(e: Event, id: string, role: Role, x: string)
    ensures RoleOf(Reroled(e, id, role), x) ==
      if x == id && RoleOf(e, x).Some? then Some(role) else RoleOf(e, x)
  {
    var e' := Reroled(e, id, role);
    var k := FindFirst(e.inviteeRoles, (y: RoleEntry) => y.id == x);
    var k' := FindFirst(e'.inviteeRoles, (y: RoleEntry) => y.id == x);
    if k.Some? {
      assert k'.Some? && k'.value == k.value;
    } else {
      assert k'.None?;
    }
  }

  // ---------------------------------------------------------------------------
  // Todos and routines
  // ---------------------------------------------------------------------------

  const TodoMissing: string := "Todo does not exist."

  /** Ids of a list are distinct, as subdocument ids are. */
  predicate DistinctTodoIds(todos: seq<Todo>) {
    forall i, j :: 0 <= i < j < |todos| ==> todos[i].id != todos[j].id
  }

  /** The counters agree with the lists. */
  predicate CountsMatch(e: Event) {
    e.todoCount == |e.todos| && e.routineCount == |e.routines|
  }

  /** Selects the users whose id is in `ids`. */
  function IdIn(ids: seq<string>): User -> bool {
    (u: User) => u.id in ids
  }

  /** `deleteTodo` by `callerId` of the todo `todoId`. After the transaction
      the `notifHosts` whose setting asks for it are emailed; a failing
      mailer throws with the deletion written. */
  function DeleteTodo(s: EventStore, callerId: string, todoId: string, mailerFails: bool): (r: EventResult)
    ensures r.reply.Error? ==> r.store == s
    ensures s.event.None? ==> r == Refuse(s, 404, EventNotFound)
    ensures !r.reply.Error? <==>
      && s.event.Some?
      && CheckPermission(Operation.DeleteTodo, callerId, s.event.value).Granted?
      && exists i :: 0 <= i < |s.event.value.todos| && s.event.value.todos[i].id == todoId
    ensures r.reply.Raised? <==>
      && !r.reply.Error?
      && CheckPermission(Operation.DeleteTodo, callerId, s.event.value).Granted?
      && mailerFails
      && EmailGoesTo(s.users, IdIn(CheckPermission(Operation.DeleteTodo, callerId, s.event.value).notifHosts), TodoDeleted)
    ensures !r.reply.Error? ==>
      && var e := s.event.value;
      && r.store.event.Some?
      && var e' := r.store.event.value;
      && e'.todoCount == e.todoCount - 1
      && (forall i :: 0 <= i < |e'.todos| ==> e'.todos[i].id != todoId)
      && IsSubsequence(e'.todos, e.todos)
      && (forall i :: 0 <= i < |e.todos| && e.todos[i].id != todoId ==> e.todos[i] in e'.todos)
      && e'.(todos := e.todos, todoCount := e.todoCount) == e
      && r.store.users == NotifyWhere(s.users, IdIn(CheckPermission(Operation.DeleteTodo, callerId, e).notifHosts))
  {
    if s.event.None? then Refuse(s, 404, EventNotFound)
    else
      var e := s.event.value;
      var p := CheckPermission(Operation.DeleteTodo, callerId, e);
      if !p.Granted? then Refuse(s, 403, "You are not authorized to remove todos.")
      else match FindFirst(e.todos, (t: Todo) => t.id == todoId)
        case None => Refuse(s, 404, TodoMissing)
        case Some(k) =>
          var e' := e.(todos := Filter(e.todos, (t: Todo) => t.id != todoId), todoCount := e.todoCount - 1);
          var committed := EventStore(Some(e'), NotifyWhere(s.users, IdIn(p.notifHosts)));
          AfterCommit(committed, Success, EmailGoesTo(s.users, IdIn(p.notifHosts), TodoDeleted), mailerFails)
  }

  /** With distinct ids, deleting a todo removes exactly the one at its index,
      so the counter stays equal to the list's length. */
  lemma {:induction false} DeleteTodoIsSplice(todos: seq<Todo>, k: int, todoId: string)
    requires 0 <= k < |todos| && DistinctTodoIds(todos) && todos[k].id == todoId
    ensures Filter(todos, (t: Todo) => t.id != todoId) == todos[..k] + todos[k + 1..]
  {
    var p := (t: Todo) => t.id != todoId;
    assert todos == todos[..k] + [todos[k]] + todos[k + 1..];
    FilterAppend(todos[..k] + [todos[k]], todos[k + 1..], p);
    FilterAppend(todos[..k], [todos[k]], p);
    FilterAll(todos[..k], p);
    FilterAll(todos[k + 1..], p);
    assert Filter([todos[k]], p) == [];
  }

  lemma DeleteTodoKeepsCounts(s: EventStore, callerId: string, todoId: string, m: bool)
    requires !DeleteTodo(s, callerId, todoId, m).reply.Error?
    requires CountsMatch(s.event.value) && DistinctTodoIds(s.event.value.todos)
    ensures CountsMatch(DeleteTodo(s, callerId, todoId, m).store.event.value)
  {
    var e := s.event.value;
    var k := FindFirst(e.todos, (t: Todo) => t.id == todoId).value;
    DeleteTodoIsSplice(e.todos, k, todoId);
  }

  /** The list with a copy of `todos[k]`, under a fresh id, right after it. */
  function WithCopyAfter(todos: seq<Todo>, k: int, freshId: string): (r: seq<Todo>)
    requires 0 <= k < |todos|
    ensures |r| == |todos| + 1
    ensures r[..k + 1] == todos[..k + 1] && r[k + 2..] == todos[k + 1..]
    ensures r[k + 1] == todos[k].(id := freshId)
  {
    todos[..k + 1] + [todos[k].(id := freshId)] + todos[k + 1..]
  }

  /** `e2` is `e` with a copy, under the id `freshId`, of the first todo whose
      id is `todoId` inserted right after it, and the todo counter one higher. */
  predicate TodoDuplicated(e: Event, e2: Event, todoId: string, freshId: string) {
    && FindFirst(e.todos, (t: Todo) => t.id == todoId).Some?
    && var k := FindFirst(e.todos, (t: Todo) => t.id == todoId).value;
    && e2.todoCount == e.todoCount + 1
    && e2.todos == WithCopyAfter(e.todos, k, freshId)
    && e2.(todos := e.todos, todoCount := e.todoCount) == e
  }

  /** `duplicateTodo` by `callerId` of the todo `todoId`; the copy receives the
      id `freshId` its new subdocument is given. The permission checked is that
      of `addTodo`, which the tables grant to the same roles. After the
      transaction the `notifHosts` whose setting asks for it are emailed as
      for an added todo; a failing mailer throws with the copy written. */
  function DuplicateTodo(s: EventStore, callerId: string, todoId: string, freshId: string, mailerFails: bool)
    : (r: EventResult)
    ensures r.reply.Error? ==> r.store == s
    ensures s.event.None? ==> r == Refuse(s, 404, EventNotFound)
    ensures !r.reply.Error? <==>
      && s.event.Some?
      && CheckPermission(Operation.DuplicateTodo, callerId, s.event.value).Granted?
      && exists i :: 0 <= i < |s.event.value.todos| && s.event.value.todos[i].id == todoId
    ensures r.reply.Raised? <==>
      && !r.reply.Error?
      && CheckPermission(AddTodo, callerId, s.event.value).Granted?
      && mailerFails
      && EmailGoesTo(s.users, IdIn(CheckPermission(AddTodo, callerId, s.event.value).notifHosts), TodoAdded)
    ensures !r.reply.Error? ==>
      && r.store.event.Some? && TodoDuplicated(s.event.value, r.store.event.value, todoId, freshId)
      && r.store.users == NotifyWhere(s.users, IdIn(CheckPermission(AddTodo, callerId, s.event.value).notifHosts))
  {
    if s.event.None? then Refuse(s, 404, EventNotFound)
    else
      var e := s.event.value;
      var p := CheckPermission(AddTodo, callerId, e);
      TodoOpsSamePermission(callerId, e);
      if !p.Granted? then Refuse(s, 403, "You are not authorized to duplicate todos.")
      else match FindFirst(e.todos, (t: Todo) => t.id == todoId)
        case None => Refuse(s, 404, TodoMissing)
        case Some(k) =>
          var e' := e.(todos := WithCopyAfter(e.todos, k, freshId), todoCount := e.todoCount + 1);
          var committed := EventStore(Some(e'), NotifyWhere(s.users, IdIn(p.notifHosts)));
          AfterCommit(committed, Success, EmailGoesTo(s.users, IdIn(p.notifHosts), TodoAdded), mailerFails)
  }

  /** Duplicating a todo and then deleting the copy restores the todo list and
      its counter. */
  lemma DuplicateThenDelete(s: EventStore, callerId: string, todoId: string, freshId: string, m: bool, m2: bool)
    requires !DuplicateTodo(s, callerId, todoId, freshId, m).reply.Error?
    requires DistinctTodoIds(s.event.value.todos)
    requires forall i :: 0 <= i < |s.event.value.todos| ==> s.event.value.todos[i].id != freshId
    ensures var s1 := DuplicateTodo(s, callerId, todoId, freshId, m).store;
      var r := DeleteTodo(s1, callerId, freshId, m2);
      && !r.reply.Error?
      && r.store.event.value.todos == s.event.value.todos
      && r.store.event.value.todoCount == s.event.value.todoCount
  {
    var e := s.event.value;
    var k := FindFirst(e.todos, (t: Todo) => t.id == todoId).value;
    var s1 := DuplicateTodo(s, callerId, todoId, freshId, m).store;
    DuplicateKeepsDeletePermission(s, callerId, todoId, freshId, m);
    DeleteCopyFromStore(s1, callerId, e.todos, k, freshId, m2);
  }

  /** Whoever could duplicate a todo may delete the copy. */
  lemma DuplicateKeepsDeletePermission(s: EventStore, callerId: string, todoId: string, freshId: string, m: bool)
    requires !DuplicateTodo(s, callerId, todoId, freshId, m).reply.Error?
    ensures var s1 := DuplicateTodo(s, callerId, todoId, freshId, m).store;
      s1.event.Some? && CheckPermission(Operation.DeleteTodo, callerId, s1.event.value).Granted?
  {
    var e := s.event.value;
    var e1 := DuplicateTodo(s, callerId, todoId, freshId, m).store.event.value;
    assert TodoDuplicated(e, e1, todoId, freshId);
    assert e1.owner == e.owner && e1.invitees == e.invitees && e1.inviteeRoles == e.inviteeRoles by {
      assert e1.(todos := e.todos, todoCount := e.todoCount) == e;
    }
    PermissionIgnoresContent(Operation.DeleteTodo, callerId, e, e1);
    TodoOpsSamePermission(callerId, e);
  }

  /** `deleteTodo` of the copy, on a store whose todo list holds it. */
  lemma DeleteCopyFromStore(s1: EventStore, callerId: string, todos: seq<Todo>, k: int, freshId: string, m: bool)
    requires s1.event.Some? && 0 <= k < |todos| && DistinctTodoIds(todos)
    requires forall i :: 0 <= i < |todos| ==> todos[i].id != freshId
    requires s1.event.value.todos == WithCopyAfter(todos, k, freshId)
    requires CheckPermission(Operation.DeleteTodo, callerId, s1.event.value).Granted?
    ensures var r := DeleteTodo(s1, callerId, freshId, m);
      && !r.reply.Error?
      && r.store.event.value.todos == todos
      && r.store.event.value.todoCount == s1.event.value.todoCount - 1
  {
    assert s1.event.value.todos[k + 1].id == freshId;
    DeleteCopy(todos, k, freshId);
  }

  /** Deleting the copy made by `WithCopyAfter` gives back the original list. */
  lemma DeleteCopy(todos: seq<Todo>, k: int, freshId: string)
    requires 0 <= k < |todos| && DistinctTodoIds(todos)
    requires forall i :: 0 <= i < |todos| ==> todos[i].id != freshId
    ensures Filter(WithCopyAfter(todos, k, freshId), (t: Todo) => t.id != freshId) == todos
  {
    var todos1 := WithCopyAfter(todos, k, freshId);
    CopyKeepsIdsDistinct(todos, k, freshId);
    assert todos1[k + 1].id == freshId;
    DeleteTodoIsSplice(todos1, k + 1, freshId);
    assert todos[..k + 1] + todos[k + 1..] == todos;
  }

  /** A copy under an id no todo has keeps the ids distinct. */
  lemma {:induction false} CopyKeepsIdsDistinct(todos: seq<Todo>, k: int, freshId: string)
    requires 0 <= k < |todos| && DistinctTodoIds(todos)
    requires forall i :: 0 <= i < |todos| ==> todos[i].id != freshId
    ensures DistinctTodoIds(WithCopyAfter(todos, k, freshId))
  {
    var c := WithCopyAfter(todos, k, freshId);
    forall i, j | 0 <= i < j < |c| ensures c[i].id != c[j].id {
      var i' := if i <= k then i else i - 1;
      var j' := if j <= k then j else j - 1;
      if i == k + 1 || j == k + 1 {
        assert c[k + 1].id == freshId;
        if i == k + 1 { assert c[j] == todos[j']; } else { assert c[i] == todos[i']; }
      } else {
        assert c[i] == todos[i'] && c[j] == todos[j'];
      }
    }
  }

  /** `deleteRoutine` by `callerId` of the routine `routineId`: the first
      routine with that id is spliced out. */
  function DeleteRoutine(s: EventStore, callerId: string, routineId: string): (r: EventResult)
    ensures !r.reply.Raised?
    ensures r.reply.Error? ==> r.store == s
    ensures s.event.None? ==> r == Refuse(s, 404, EventNotFound)
    ensures r.reply.Success? <==>
      && s.event.Some?
      && CheckPermission(Operation.DeleteRoutine, callerId, s.event.value).Granted?
      && exists i :: 0 <= i < |s.event.value.routines| && s.event.value.routines[i].id == routineId
    ensures r.reply.Success? ==>
      && var e := s.event.value;
      && r.store.event.Some?
      && var e' := r.store.event.value;
      && (exists k ::
            && 0 <= k < |e.routines| && e.routines[k].id == routineId
            && (forall j :: 0 <= j < k ==> e.routines[j].id != routineId)
            && e'.routines == e.routines[..k] + e.routines[k + 1..])
      && e'.routineCount == e.routineCount - 1
      && e'.(routines := e.routines, routineCount := e.routineCount) == e
      && r.store.users == s.users
  {
    if s.event.None? then Refuse(s, 404, EventNotFound)
    else
      var e := s.event.value;
      if !CheckPermission(Operation.DeleteRoutine, callerId, e).Granted? then
        Refuse(s, 403, "You are not authorized to remove routines.")
      else match FindFirst(e.routines, (x: Routine) => x.id == routineId)
        case None => Refuse(s, 404, "Routine does not exist.")
        case Some(k) =>
          var e' := e.(routines := e.routines[..k] + e.routines[k + 1..], routineCount := e.routineCount - 1);
          EventResult(Success, EventStore(Some(e'), s.users))
  }

  /** Deleting a routine keeps the counters equal to the lists. */
  lemma DeleteRoutineKeepsCounts(s: EventStore, callerId: string, routineId: string)
    requires DeleteRoutine(s, callerId, routineId).reply.Success?
    requires CountsMatch(s.event.value)
    ensures CountsMatch(DeleteRoutine(s, callerId, routineId).store.event.value)
  {
  }

  /** Duplicating keeps the counters equal to the lists. */
  lemma DuplicateTodoKeepsCounts(s: EventStore, callerId: string, todoId: string, freshId: string, m: bool)
    requires !DuplicateTodo(s, callerId, todoId, freshId, m).reply.Error?
    requires CountsMatch(s.event.value)
    ensures CountsMatch(DuplicateTodo(s, callerId, todoId, freshId, m).store.event.value)
  {
  }
}
