/** controllers/webhooks.js: the reminder texts, the participant records a
    reminder fans out to, the in-app notifications and push recipients built
    from them, and the default-reminder job. */
module Reminders {
  import opened Wrappers
  import opened Seqs
  import opened Text
  import opened Misc
  import opened Users

  /** A populated `owner` or `invitee` of an event (`_id` and `email`). */
  datatype Member = Member(id: string, email: string)

  /** A reminder configuration of the event schema. It is a nested path, so
      a loaded event always has the object, even when the event never set
      it; its `number` and `unit` are `undefined` (`None`) when unset. */
  datatype ConfigPath = ConfigPath(number: Option<int>, unit: Option<string>)

  /** The fields of an event document the reminder code reads. Times are
      opaque timestamps. */
  datatype ReminderEvent = ReminderEvent(
    id: string,
    title: string,
    owner: Member,
    invitees: seq<Member>,
    defaultReminderConfiguration: ConfigPath,
    customReminderConfiguration: ConfigPath,
    customReminderTime: Option<int>)

  /** The `notifType` string. For the event-day reminder the whole number of
      hours left, `Math.abs(differenceInHours(...))` against the clock, is
      carried along since the clock is not part of the model. */
  datatype NotifType =
    | CustomReminder
    | DefaultReminder
    | EventDayReminder(hoursTillEvent: nat)
    | OtherNotifType(name: string)
  {
    /** The kinds whose text comes from a reminder configuration. */
    predicate IsConfigured() { CustomReminder? || DefaultReminder? }
  }

  /** What `getParticipant` returns: the full record, or `{}` for a
      `notifType` it does not know. */
  datatype Participant =
    | Recipient(
        id: string,
        email: string,
        resourceId: string,
        resourceOwnerId: string,
        emailTitle: string,
        emailBody: string,
        pushTitle: string,
        pushBody: string,
        inAppType: string,
        inAppMessage: string)
    | NoParticipant

  // ---------------------------------------------------------------------------
  // Reminder texts
  // ---------------------------------------------------------------------------

  /** The hours part of the event-day texts: "less than 1 hour", "1 hour",
      or the count followed by "hours". */
  function HoursPhrase(hours: nat): (r: string)
    ensures hours == 0 ==> r == "less than 1 hour"
    ensures hours == 1 ==> r == "1 hour"
    ensures hours >= 2 ==> r == NatToString(hours) + " hours"
  {
    (if hours < 1 then "less than 1" else NatToString(hours)) + " " + (if hours <= 1 then "hour" else "hours")
  }

  /** Different hour counts never produce the same text. */
  lemma HoursPhraseInjective(h1: nat, h2: nat)
    ensures HoursPhrase(h1) == HoursPhrase(h2) <==> h1 == h2
  {
    if h1 >= 2 && h2 >= 2 {
      var a, b := NatToString(h1), NatToString(h2);
      if HoursPhrase(h1) == HoursPhrase(h2) {
        assert a == HoursPhrase(h1)[..|a|];
        assert b == HoursPhrase(h2)[..|b|];
        NatToStringInjective(h1, h2);
      }
    } else if h1 >= 2 || h2 >= 2 {
      var big := if h1 >= 2 then h1 else h2;
      assert IsDigit(HoursPhrase(big)[0]);
    }
  }

  /** `generateEventDayReminderEmailBodyText`. */
  function DayReminderEmailText(eventName: string, hours: nat): (r: string)
    ensures hours == 0 ==> r == eventName + " Happens in less than 1 hour."
    ensures hours == 1 ==> r == eventName + " Happens in 1 hour."
    ensures hours >= 2 ==> r == eventName + " Happens in " + NatToString(hours) + " hours."
  {
    eventName + " Happens in " + HoursPhrase(hours) + "."
  }

  /** `generateEventDayReminderPushNotificationBodyText`. */
  function DayReminderPushText(hours: nat): (r: string)
    ensures hours == 0 ==> r == "Happens in less than 1 hour."
    ensures hours == 1 ==> r == "Happens in 1 hour."
    ensures hours >= 2 ==> r == "Happens in " + NatToString(hours) + " hours."
  {
    "Happens in " + HoursPhrase(hours) + "."
  }

  /** The event-day e-mail says what the push says, after the event's name. */
  lemma DayEmailExtendsPush(eventName: string, hours: nat)
    ensures DayReminderEmailText(eventName, hours) == eventName + " " + DayReminderPushText(hours)
  {
  }

  /** A configuration field as a template literal prints it: `undefined`
      when it is unset. */
  function NumberText(n: Option<int>): string {
    if n.Some? then IntToString(n.value) else "undefined"
  }

  function UnitText(u: Option<string>): string {
    if u.Some? then u.value else "undefined"
  }

  /** The period of a custom or default reminder: the number, a space and the
      unit, with an "s" added exactly when the number is above one (an unset
      number compares false). */
  function PeriodPhrase(c: ConfigPath): (r: string)
    ensures var bare := NumberText(c.number) + " " + UnitText(c.unit);
      && |bare| <= |r| <= |bare| + 1
      && r[..|bare|] == bare
      && (|r| > |bare| <==> c.number.Some? && c.number.value > 1)
      && (|r| > |bare| ==> r[|bare|] == 's')
  {
    NumberText(c.number) + " " + UnitText(c.unit) + (if c.number.Some? && c.number.value > 1 then "s" else "")
  }

  /** An unset configuration is phrased "undefined undefined", without an "s". */
  lemma UnsetPeriodPhrase()
    ensures PeriodPhrase(ConfigPath(None, None)) == "undefined undefined"
  {
  }

  // ---------------------------------------------------------------------------
  // getParticipant / getParticipants
  // ---------------------------------------------------------------------------

  function ConfigFor(e: ReminderEvent, kind: NotifType): ConfigPath
    requires kind.IsConfigured()
  {
    if kind.CustomReminder? then e.customReminderConfiguration else e.defaultReminderConfiguration
  }

  /** `getParticipant`: the texts a reminder of the given kind sends to one
      user. Nothing here throws: the configuration object is always there. */
  function GetParticipant(e: ReminderEvent, user: Member, kind: NotifType): (r: Participant)
    ensures r.NoParticipant? <==> kind.OtherNotifType?
    ensures r.Recipient? ==>
      && r.id == user.id && r.email == user.email
      && r.resourceId == e.id && r.resourceOwnerId == e.owner.id
      && r.pushTitle == e.title && r.inAppMessage == r.emailBody
    ensures kind.IsConfigured() ==>
      && r.emailTitle == "Event reminder" && r.inAppType == "Event Reminder Day Alert"
      && r.emailBody == e.title + " is coming up in " + PeriodPhrase(ConfigFor(e, kind))
      && r.pushBody == "Happens in " + PeriodPhrase(ConfigFor(e, kind))
    ensures kind.EventDayReminder? ==>
      && r.emailTitle == "Today's event reminder" && r.inAppType == "Event Day Alert"
      && r.emailBody == e.title + " " + r.pushBody
      && r.pushBody == "Happens in " + HoursPhrase(kind.hoursTillEvent) + "."
  {
    match kind
    case OtherNotifType(_) => NoParticipant
    case EventDayReminder(hours) =>
      var body := DayReminderEmailText(e.title, hours);
      DayEmailExtendsPush(e.title, hours);
      Recipient(user.id, user.email, e.id, e.owner.id, "Today's event reminder", body,
                e.title, DayReminderPushText(hours), "Event Day Alert", body)
    case _ =>
      var period := PeriodPhrase(ConfigFor(e, kind));
      var body := e.title + " is coming up in " + period;
      Recipient(user.id, user.email, e.id, e.owner.id, "Event reminder", body,
                e.title, "Happens in " + period, "Event Reminder Day Alert", body)
  }

  /** An event whose configuration was never set is still reminded: the
      texts read "undefined undefined" where the period would be. */
  lemma UnsetConfigText(e: ReminderEvent, user: Member, kind: NotifType)
    requires kind.IsConfigured() && ConfigFor(e, kind) == ConfigPath(None, None)
    ensures GetParticipant(e, user, kind).emailBody == e.title + " is coming up in undefined undefined"
    ensures GetParticipant(e, user, kind).pushBody == "Happens in undefined undefined"
  {
    UnsetPeriodPhrase();
  }

  /** `getParticipants`: the owner first, then every invitee in order. */
  function GetParticipants(e: ReminderEvent, kind: NotifType): (r: seq<Participant>)
    ensures |r| == 1 + |e.invitees|
    ensures r[0] == GetParticipant(e, e.owner, kind)
    ensures forall i :: 0 <= i < |e.invitees| ==> r[i + 1] == GetParticipant(e, e.invitees[i], kind)
  {
    var rest := seq(|e.invitees|, i requires 0 <= i < |e.invitees| => GetParticipant(e, e.invitees[i], kind));
    [GetParticipant(e, e.owner, kind)] + rest
  }

  /** Every participant of a reminder is addressed to a member of the event,
      each exactly where the event lists it. */
  lemma ParticipantsAreMembers(e: ReminderEvent, kind: NotifType, i: nat)
    requires kind.IsConfigured() && i < |GetParticipants(e, kind)|
    ensures var p := GetParticipants(e, kind)[i];
      && p.Recipient?
      && (if i == 0 then p.id == e.owner.id && p.email == e.owner.email
          else p.id == e.invitees[i - 1].id && p.email == e.invitees[i - 1].email)
  {
  }

  // ---------------------------------------------------------------------------
  // saveInAppNotification
  // ---------------------------------------------------------------------------

  /** `participant.id`, which `{}` lacks. */
  function IdOf(p: Participant): Option<string> {
    if p.Recipient? then Some(p.id) else None
  }

  /** One `Notification.create` payload; every field is read off a participant
      and is absent for `{}`. */
  datatype NotificationDraft = NotificationDraft(
    owner: Option<string>,
    initiator: Option<string>,
    kind: Option<string>,
    message: Option<string>,
    resourceId: Option<string>,
    isActionRequired: bool)

  function Draft(p: Participant): NotificationDraft {
    match p
    case NoParticipant => NotificationDraft(None, None, None, None, None, false)
    case Recipient(id, _, resourceId, ownerId, _, _, _, _, inAppType, message) =>
      NotificationDraft(Some(id), Some(ownerId), Some(inAppType), Some(message), Some(resourceId), false)
  }

  datatype InAppResult = InAppResult(drafts: seq<NotificationDraft>, users: seq<User>)

  /** `saveInAppNotification`: a notification for every participant, listed
      twice or not, but one counter increment per user, taken over the ids
      `getUniqueElements` keeps. */
  function SaveInAppNotification(participants: seq<Participant>, users: seq<User>): (r: InAppResult)
    ensures |r.drafts| == |participants|
    ensures forall i :: 0 <= i < |participants| ==>
      r.drafts[i].owner == IdOf(participants[i]) && !r.drafts[i].isActionRequired
    ensures |r.users| == |users|
    ensures forall i :: 0 <= i < |users| ==>
      r.users[i] == if Some(users[i].id) in KeysOf(participants, IdOf) then Notified(users[i]) else users[i]
  {
    var unique := UniqueBy(participants, IdOf);
    var ids := Map(unique, IdOf);
    assert forall k :: k in ids <==> k in KeysOf(unique, IdOf) by {
      forall k | k in KeysOf(unique, IdOf) ensures k in ids {
        var i :| 0 <= i < |unique| && IdOf(unique[i]) == k;
        assert ids[i] == k;
      }
    }
    InAppResult(Map(participants, Draft), NotifyWhere(users, (u: User) => Some(u.id) in ids))
  }

  /** A user who is both owner and invitee gets two notifications but one
      increment of each counter. */
  lemma ListedTwiceCountedOnce(participants: seq<Participant>, users: seq<User>, a: nat, b: nat, k: nat)
    requires a < b < |participants| && k < |users|
    requires IdOf(participants[a]) == IdOf(participants[b]) == Some(users[k].id)
    ensures var r := SaveInAppNotification(participants, users);
      && r.drafts[a].owner == r.drafts[b].owner == Some(users[k].id)
      && r.users[k].unreadNotifications == users[k].unreadNotifications + 1
      && r.users[k].newNotifications == users[k].newNotifications + 1
  {
    assert IdOf(participants[a]) in KeysOf(participants, IdOf);
  }

  // ---------------------------------------------------------------------------
  // getPushNotificationRecipients
  // ---------------------------------------------------------------------------

  datatype PushRecipient = PushRecipient(resourceId: string, pushTitle: string, pushBody: string, deviceToken: Option<string>)

  function OwnedBy(userId: string): LoginSession -> bool {
    (d: LoginSession) => d.user == userId
  }

  function Payload(p: Participant, d: LoginSession): PushRecipient
    requires p.Recipient?
  {
    PushRecipient(p.resourceId, p.pushTitle, p.pushBody, d.deviceToken)
  }

  function Payloads(p: Participant, ds: seq<LoginSession>): seq<PushRecipient>
    requires p.Recipient?
  {
    Map(ds, (d: LoginSession) => Payload(p, d))
  }

  /** The recipients one participant contributes: one per device of theirs,
      in device order. `{}` contributes nothing (its lookup throws when there
      is any device to compare with). */
  function DevicePayloads(devices: seq<LoginSession>, p: Participant): seq<PushRecipient>
    decreases |devices|
  {
    if p.NoParticipant? || |devices| == 0 then []
    else
      var d := devices[|devices| - 1];
      DevicePayloads(devices[..|devices| - 1], p) + (if d.user == p.id then [Payload(p, d)] else [])
  }

  /** The per-device definition agrees with filtering the devices first and
      mapping the payload over what is left, which is how the code does it. */
  lemma {:induction false} DevicePayloadsOfFiltered(devices: seq<LoginSession>, p: Participant)
    requires p.Recipient?
    ensures DevicePayloads(devices, p) == Payloads(p, Filter(devices, OwnedBy(p.id)))
    decreases |devices|
  {
    if |devices| > 0 {
      var init, d := devices[..|devices| - 1], devices[|devices| - 1];
      DevicePayloadsOfFiltered(init, p);
      var f := Filter(init, OwnedBy(p.id));
      assert DevicePayloads(devices, p) == DevicePayloads(init, p) + (if d.user == p.id then [Payload(p, d)] else []);
      if d.user == p.id {
        assert Filter(devices, OwnedBy(p.id)) == f + [d];
        assert Payloads(p, f + [d]) == Payloads(p, f) + [Payload(p, d)];
      } else {
        assert Filter(devices, OwnedBy(p.id)) == f;
      }
    }
  }

  /** The reference list: participant by participant, device by device. */
  function RecipientsOf(devices: seq<LoginSession>, ps: seq<Participant>): seq<PushRecipient> {
    FlatMap(ps, (p: Participant) => DevicePayloads(devices, p))
  }

  lemma RecipientsOfSnoc(devices: seq<LoginSession>, ps: seq<Participant>, i: nat)
    requires i < |ps|
    ensures RecipientsOf(devices, ps[..i + 1]) == RecipientsOf(devices, ps[..i]) + DevicePayloads(devices, ps[i])
  {
    assert ps[..i + 1][..i] == ps[..i];
  }

  /** `devices.filter(...)` for one participant: their devices, in order. */
  method DevicesOf(devices: seq<LoginSession>, userId: string) returns (own: seq<LoginSession>)
    ensures own == Filter(devices, OwnedBy(userId))
  {
    own := [];
    var j := 0;
    while j < |devices|
      invariant 0 <= j <= |devices|
      invariant own == Filter(devices[..j], OwnedBy(userId))
    {
      FilterSnoc(devices, OwnedBy(userId), j);
      if devices[j].user == userId {
        own := own + [devices[j]];
      }
      j := j + 1;
    }
    assert devices[..j] == devices;
  }

  /** The inner `forEach`: one recipient pushed per device. */
  method PushPayloads(recipients: seq<PushRecipient>, p: Participant, own: seq<LoginSession>)
    returns (r: seq<PushRecipient>)
    requires p.Recipient?
    ensures r == recipients + Payloads(p, own)
  {
    r := recipients;
    var k := 0;
    while k < |own|
      invariant 0 <= k <= |own|
      invariant r == recipients + Payloads(p, own[..k])
    {
      assert own[..k + 1] == own[..k] + [own[k]];
      r := r + [PushRecipient(p.resourceId, p.pushTitle, p.pushBody, own[k].deviceToken)];
      k := k + 1;
    }
    assert own[..k] == own;
  }

  /** One participant's turn of the outer `forEach`. */
  method AddParticipantRecipients(recipients: seq<PushRecipient>, devices: seq<LoginSession>, p: Participant)
    returns (r: seq<PushRecipient>)
    requires p.Recipient?
    ensures r == recipients + DevicePayloads(devices, p)
  {
    var own := DevicesOf(devices, p.id);
    r := PushPayloads(recipients, p, own);
    DevicePayloadsOfFiltered(devices, p);
  }

  /** `getPushNotificationRecipients`: participant by participant, the
      participant's devices are looked up and one recipient is pushed for
      each. The filter callback reads `participant.id.toString()`, so `{}`
      throws as soon as there is one device to compare it with. */
  method GetPushNotificationRecipients(devices: seq<LoginSession>, participants: seq<Participant>)
    returns (r: Outcome<seq<PushRecipient>>)
    ensures r.Thrown? <==> |devices| > 0 && exists i :: 0 <= i < |participants| && participants[i].NoParticipant?
    ensures r.Ok? ==> r.value == RecipientsOf(devices, participants)
  {
    var recipients: seq<PushRecipient> := [];
    var i := 0;
    while i < |participants|
      invariant 0 <= i <= |participants|
      invariant recipients == RecipientsOf(devices, participants[..i])
      invariant forall k :: 0 <= k < i ==> participants[k].Recipient? || |devices| == 0
    {
      var p := participants[i];
      RecipientsOfSnoc(devices, participants, i);
      if p.NoParticipant? {
        if |devices| > 0 {
          return Thrown("TypeError: Cannot read properties of undefined (reading 'toString')");
        }
      } else {
        recipients := AddParticipantRecipients(recipients, devices, p);
      }
      i := i + 1;
    }
    assert participants[..i] == participants;
    r := Ok(recipients);
  }

  // ---------------------------------------------------------------------------
  // handleDefaultReminders
  // ---------------------------------------------------------------------------

  /** What a reminder job leaves behind: the participant lists it dispatched
      (or the exception that ended it) and the ids of the events it marked as
      handled. */
  datatype ReminderRun = ReminderRun(reply: Outcome<seq<seq<Participant>>>, marked: seq<string>)

  const UndeclaredCustomTime := "ReferenceError: customReminderTime is not defined"

  /** The job as written: the loop body tests an identifier that is not in
      scope, so the first event due throws and `updateMany` is never reached. */
  function HandleDefaultRemindersAsWritten(events: seq<ReminderEvent>): (r: ReminderRun)
    ensures r.marked == []
    ensures r.reply.Ok? <==> |events| == 0
  {
    if |events| == 0 then ReminderRun(Ok([]), [])
    else ReminderRun(Thrown(UndeclaredCustomTime), [])
  }

  function NoCustomTime(): ReminderEvent -> bool {
    (e: ReminderEvent) => e.customReminderTime.None?
  }

  /** Each dispatched list is the participant list of the matching due event. */
  predicate DispatchedFor(due: seq<ReminderEvent>, sent: seq<seq<Participant>>) {
    && |sent| == |due|
    && forall i :: 0 <= i < |due| ==> GetParticipants(due[i], DefaultReminder) == sent[i]
  }

  lemma DispatchedForSnoc(due: seq<ReminderEvent>, sent: seq<seq<Participant>>, e: ReminderEvent)
    requires DispatchedFor(due, sent)
    ensures DispatchedFor(due + [e], sent + [GetParticipants(e, DefaultReminder)])
  {
  }

  /** The default reminders sent for `events`, in order: one participant list
      per event without a custom reminder time. */
  function DispatchDefault(events: seq<ReminderEvent>): (r: seq<seq<Participant>>)
    ensures DispatchedFor(Filter(events, NoCustomTime()), r)
    decreases |events|
  {
    if |events| == 0 then []
    else
      var init := events[..|events| - 1];
      var last := events[|events| - 1];
      var earlier := DispatchDefault(init);
      if last.customReminderTime.Some? then earlier
      else
        DispatchedForSnoc(Filter(init, NoCustomTime()), earlier, last);
        earlier + [GetParticipants(last, DefaultReminder)]
  }

  /** The job as evidently intended: every event without its own custom
      reminder time gets the default reminder, and every event found is
      marked as handled once they have all been sent. */
  function HandleDefaultReminders(events: seq<ReminderEvent>): (r: ReminderRun)
    ensures r.reply.Ok? && DispatchedFor(Filter(events, NoCustomTime()), r.reply.value)
    ensures |r.marked| == |events| && forall i :: 0 <= i < |events| ==> r.marked[i] == events[i].id
  {
    ReminderRun(Ok(DispatchDefault(events)), Map(events, (e: ReminderEvent) => e.id))
  }

  /** A lone event due for its default reminder is dispatched once. */
  lemma DispatchSingle(e: ReminderEvent)
    requires e.customReminderTime.None?
    ensures HandleDefaultReminders([e]) == ReminderRun(Ok([GetParticipants(e, DefaultReminder)]), [e.id])
  {
    DispatchOne(e);
    assert Map([e], (e: ReminderEvent) => e.id) == [e.id];
  }

  lemma DispatchOne(e: ReminderEvent)
    requires e.customReminderTime.None?
    ensures DispatchDefault([e]) == [GetParticipants(e, DefaultReminder)]
  {
    var one := [e];
    assert one[..|one| - 1] == [] && one[|one| - 1] == e;
    assert DispatchDefault([]) == [];
    assert DispatchDefault(one) == [] + [GetParticipants(e, DefaultReminder)];
  }

  /** An event due for its default reminder whose configuration was never
      set is reminded like any other, with "undefined undefined" texts. */
  lemma UnsetDefaultStillReminded(e: ReminderEvent)
    requires e.customReminderTime.None? && e.defaultReminderConfiguration == ConfigPath(None, None)
    ensures HandleDefaultReminders([e]).reply == Ok([GetParticipants(e, DefaultReminder)])
    ensures GetParticipants(e, DefaultReminder)[0].emailBody == e.title + " is coming up in undefined undefined"
  {
    DispatchSingle(e);
    UnsetConfigText(e, e.owner, DefaultReminder);
  }

  /** An event due for its default reminder in two days, owned by "u1". */
  const DueOwner := Member("u1", "owner@example.com")
  const DueEvent := ReminderEvent("e1", "Launch", DueOwner, [], ConfigPath(Some(2), Some("day")), ConfigPath(None, None), None)

  /** What the intended job sends the owner of `DueEvent`. */
  lemma DueEventText()
    ensures GetParticipant(DueEvent, DueOwner, DefaultReminder).emailBody == "Launch is coming up in 2 days"
  {
    TwoDays();
    assert "Launch" + " is coming up in " + "2 days" == "Launch is coming up in 2 days";
  }

  lemma TwoDays()
    ensures PeriodPhrase(ConfigPath(Some(2), Some("day"))) == "2 days"
  {
    assert NatToString(2) == "2";
  }

  /** One event due for its default reminder: the job as written throws and
      leaves it unmarked, so the next run finds it again; the intended job
      reminds its owner (see `DueEventText`) and marks it. */
  lemma DefaultReminderNeverSent()
    ensures HandleDefaultRemindersAsWritten([DueEvent]) == ReminderRun(Thrown(UndeclaredCustomTime), [])
    ensures HandleDefaultReminders([DueEvent])
         == ReminderRun(Ok([[GetParticipant(DueEvent, DueOwner, DefaultReminder)]]), ["e1"])
  {
    var p := GetParticipant(DueEvent, DueOwner, DefaultReminder);
    var gp := GetParticipants(DueEvent, DefaultReminder);
    assert |gp| == 1 && gp[0] == p;
    assert gp == [p];
    DispatchSingle(DueEvent);
  }
}
