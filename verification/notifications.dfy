/** controllers/notifications.js: the cursor-paginated notification feed and
    the two handlers that mark a notification read, with the user counters
    they keep.

    The collection is held newest first, the order `sort({ _id: -1 })`
    returns it in; an ObjectId is represented by a natural number that grows
    with creation time. */
module Notifications {
  import opened Wrappers
  import opened Seqs
  import opened Users

  /** A document of models/Notification.js. */
  datatype Notification = Notification(
    id: nat,
    owner: string,
    initiator: string,
    kind: string,
    message: string,
    resourceId: string,
    isActionRequired: bool,
    actionTaken: bool,
    clicked: bool)

  /** Strictly decreasing ids: the collection as the feed query sorts it. */
  predicate NewestFirst(notes: seq<Notification>) {
    forall i, j :: 0 <= i < j < |notes| ==> notes[i].id > notes[j].id
  }

  // ---------------------------------------------------------------------------
  // getNotifications
  // ---------------------------------------------------------------------------

  const DefaultPageSize: nat := 10

  /** `args.pagination?.limit ? Math.floor(parseInt(limit, 10)) : 10`: an
      absent limit and a limit of 0 both fall back on ten. */
  function PageSize(limit: Option<nat>): (n: nat)
    ensures n > 0
    ensures limit.None? || limit.value == 0 ==> n == DefaultPageSize
    ensures limit.Some? && limit.value > 0 ==> n == limit.value
  {
    if limit.Some? && limit.value != 0 then limit.value else DefaultPageSize
  }

  /** The feed query: the caller's notifications, older than the cursor when
      one is given. */
  function MatchTest(userId: string, cursor: Option<nat>): Notification -> bool {
    (n: Notification) => n.owner == userId && (cursor.None? || n.id < cursor.value)
  }

  function OwnedTest(userId: string): Notification -> bool {
    (n: Notification) => n.owner == userId
  }

  datatype PageInfo = PageInfo(nextCursor: Option<nat>, totalDocs: nat, docsRetrieved: nat, hasNextPage: bool)

  datatype Feed = Feed(data: seq<Notification>, pagination: PageInfo, users: seq<User>)

  /** `findByIdAndUpdate(userId, { newNotifications: 0 })`. */
  function NewCountCleared(users: seq<User>, userId: string): (r: seq<User>)
    ensures |r| == |users|
    ensures forall i :: 0 <= i < |users| ==>
      r[i] == if users[i].id == userId then users[i].(newNotifications := 0) else users[i]
  {
    Map(users, (u: User) => if u.id == userId then u.(newNotifications := 0) else u)
  }

  /** `getNotifications`: one more item than the page size is fetched, which
      tells whether another page follows; the extra item is then dropped.
      `notes` is the collection in the order `sort({ _id: -1 })` returns it. */
  function GetNotifications(
    notes: seq<Notification>, users: seq<User>, userId: string, limit: Option<nat>, cursor: Option<nat>)
    : (r: Feed)
    requires NewestFirst(notes)
    ensures var size := PageSize(limit);
      var matching := Filter(notes, MatchTest(userId, cursor));
      && (r.pagination.hasNextPage <==> |matching| > size)
      && r.data == (if |matching| > size then matching[..size] else matching)
      && r.pagination.docsRetrieved == |r.data| <= size
      && (r.pagination.nextCursor.Some? <==> r.pagination.hasNextPage)
      && (r.pagination.hasNextPage ==> r.pagination.nextCursor.value == r.data[|r.data| - 1].id)
      && r.pagination.totalDocs == |Filter(notes, OwnedTest(userId))|
    ensures forall i :: 0 <= i < |r.data| ==> r.data[i].owner == userId
    ensures r.users == NewCountCleared(users, userId)
  {
    var size := PageSize(limit);
    var (page, hasNextPage) := FirstPage(Filter(notes, MatchTest(userId, cursor)), size);
    var nextCursor := if hasNextPage then Some(page[|page| - 1].id) else None;
    Feed(page, PageInfo(nextCursor, |Filter(notes, OwnedTest(userId))|, |page|, hasNextPage), NewCountCleared(users, userId))
  }

  /** The `limit(size + 1)` fetch cut back to `size` items: the page, and
      whether the extra item was there. */
  function FirstPage(matching: seq<Notification>, size: nat): (r: (seq<Notification>, bool))
    ensures r.1 <==> |matching| > size
    ensures r.0 == if r.1 then matching[..size] else matching
  {
    var fetched := if |matching| > size + 1 then matching[..size + 1] else matching;
    var hasNextPage := |fetched| > size;
    (if hasNextPage then fetched[..size] else fetched, hasNextPage)
  }

  /** A sub-list of a newest-first list is newest first. */
  lemma {:induction false} FilterNewestFirst(notes: seq<Notification>, p: Notification -> bool)
    requires NewestFirst(notes)
    ensures NewestFirst(Filter(notes, p))
    decreases |notes|
  {
    if |notes| > 0 {
      var init := notes[..|notes| - 1];
      var last := notes[|notes| - 1];
      assert forall i :: 0 <= i < |init| ==> init[i] == notes[i];
      FilterNewestFirst(init, p);
      var f := Filter(init, p);
      forall i | 0 <= i < |f| ensures f[i].id > last.id {
        assert f[i] in init;
      }
    }
  }

  /** In a newest-first list, the items older than item `k` are the ones after it. */
  lemma OlderThanPivot(m: seq<Notification>, k: nat)
    requires NewestFirst(m) && k < |m|
    ensures Filter(m, (n: Notification) => n.id < m[k].id) == m[k + 1..]
  {
    var c := m[k].id;
    var q := (n: Notification) => n.id < c;
    var front, back := m[..k + 1], m[k + 1..];
    assert m == front + back;
    forall i | 0 <= i < |front| ensures !q(front[i]) {
      assert front[i] == m[i];
    }
    forall i | 0 <= i < |back| ensures q(back[i]) {
      assert back[i] == m[k + 1 + i];
    }
    FilterAppend(front, back, q);
    FilterNone(front, q);
    FilterAll(back, q);
  }

  /** Following `nextcursor` neither skips nor repeats anything: the next
      request matches exactly the items after the page just served. */
  lemma NextPageContinues(
    notes: seq<Notification>, users: seq<User>, userId: string, limit: Option<nat>, cursor: Option<nat>)
    requires NewestFirst(notes)
    requires GetNotifications(notes, users, userId, limit, cursor).pagination.hasNextPage
    ensures var r := GetNotifications(notes, users, userId, limit, cursor);
      Filter(notes, MatchTest(userId, r.pagination.nextCursor))
        == Filter(notes, MatchTest(userId, cursor))[|r.data|..]
  {
    var r := GetNotifications(notes, users, userId, limit, cursor);
    var m := Filter(notes, MatchTest(userId, cursor));
    var k := |r.data| - 1;
    var c := m[k].id;
    assert r.pagination.nextCursor == Some(c);
    assert MatchTest(userId, cursor)(m[k]);
    var q := (n: Notification) => n.id < c;
    FilterFilter(notes, MatchTest(userId, cursor), q, MatchTest(userId, Some(c)));
    FilterNewestFirst(notes, MatchTest(userId, cursor));
    OlderThanPivot(m, k);
  }

  /** A first page that says there is no next page holds every notification
      of the caller. */
  lemma LastPageHoldsRest(notes: seq<Notification>, users: seq<User>, userId: string, limit: Option<nat>)
    requires NewestFirst(notes)
    requires !GetNotifications(notes, users, userId, limit, None).pagination.hasNextPage
    ensures GetNotifications(notes, users, userId, limit, None).data == Filter(notes, OwnedTest(userId))
    ensures GetNotifications(notes, users, userId, limit, None).pagination.docsRetrieved
         == GetNotifications(notes, users, userId, limit, None).pagination.totalDocs
  {
    assert forall i :: 0 <= i < |notes| ==> MatchTest(userId, None)(notes[i]) == OwnedTest(userId)(notes[i]);
    FilterFilter(notes, MatchTest(userId, None), MatchTest(userId, None), OwnedTest(userId));
    FilterAll(Filter(notes, MatchTest(userId, None)), MatchTest(userId, None));
  }

  // ---------------------------------------------------------------------------
  // markNotificationAsClicked / markNotificationAction
  // ---------------------------------------------------------------------------

  /** The counter update both mark handlers make on the caller: one unread
      notification fewer, never below zero, and nothing new. */
  function MarkedRead(u: User): (u': User)
    ensures u'.newNotifications == 0
    ensures u.unreadNotifications > 0 ==> u'.unreadNotifications == u.unreadNotifications - 1
    ensures u.unreadNotifications <= 0 ==> u'.unreadNotifications == u.unreadNotifications
    ensures u'.(newNotifications := u.newNotifications, unreadNotifications := u.unreadNotifications) == u
  {
    u.(unreadNotifications := if u.unreadNotifications > 0 then u.unreadNotifications - 1 else u.unreadNotifications,
       newNotifications := 0)
  }

  /** Reading never drives the unread counter negative. */
  lemma MarkedReadKeepsCountNonNegative(u: User)
    requires u.unreadNotifications >= 0
    ensures 0 <= MarkedRead(u).unreadNotifications <= u.unreadNotifications
  {
  }

  /** Reading undoes the unread increment a new notification makes. */
  lemma ReadAfterNotified(u: User)
    requires u.unreadNotifications >= 0
    ensures MarkedRead(Notified(u)).unreadNotifications == u.unreadNotifications
    ensures MarkedRead(Notified(u)).newNotifications == 0
  {
  }

  datatype MarkResult = MarkResult(reply: Outcome<Notification>, notes: seq<Notification>, users: seq<User>)

  /** The write both handlers share: the notification (if found) is changed
      by `edit` and saved, then the caller (if found) is marked as having
      read one. The notification's owner is never compared with the caller. */
  function MarkWith(
    notes: seq<Notification>, users: seq<User>, userId: string, notificationId: nat,
    edit: Notification -> Notification)
    : (r: MarkResult)
    ensures FindFirst(notes, (n: Notification) => n.id == notificationId).None? ==>
      r == MarkResult(Thrown("notification is null"), notes, users)
    ensures r.reply.Ok? <==>
      && (exists i :: 0 <= i < |notes| && notes[i].id == notificationId)
      && (exists j :: 0 <= j < |users| && users[j].id == userId)
    ensures |r.notes| == |notes| && |r.users| == |users|
    ensures r.reply.Ok? ==>
      && var k := FindFirst(notes, (n: Notification) => n.id == notificationId).value;
      && var j := FindFirst(users, (u: User) => u.id == userId).value;
      && r.reply.value == edit(notes[k])
      && r.notes == notes[k := edit(notes[k])]
      && r.users == users[j := MarkedRead(users[j])]
  {
    match FindFirst(notes, (n: Notification) => n.id == notificationId)
    case None => MarkResult(Thrown("notification is null"), notes, users)
    case Some(k) =>
      var n' := edit(notes[k]);
      var notes' := notes[k := n'];
      match FindFirst(users, (u: User) => u.id == userId)
      case None => MarkResult(Thrown("user is null"), notes', users)
      case Some(j) => MarkResult(Ok(n'), notes', users[j := MarkedRead(users[j])])
  }

  /** `markNotificationAsClicked`: `clicked` is set to the argument. */
  function MarkNotificationAsClicked(
    notes: seq<Notification>, users: seq<User>, userId: string, notificationId: nat, clicked: bool)
    : (r: MarkResult)
    ensures r.reply.Ok? ==> r.reply.value.clicked == clicked && r.reply.value.id == notificationId
  {
    MarkWith(notes, users, userId, notificationId, (n: Notification) => n.(clicked := clicked))
  }

  /** `markNotificationAction`: `actionTaken` is set to the argument and the
      notification counts as clicked. */
  function MarkNotificationAction(
    notes: seq<Notification>, users: seq<User>, userId: string, notificationId: nat, actionTaken: bool)
    : (r: MarkResult)
    ensures r.reply.Ok? ==>
      r.reply.value.clicked && r.reply.value.actionTaken == actionTaken && r.reply.value.id == notificationId
  {
    MarkWith(notes, users, userId, notificationId, (n: Notification) => n.(actionTaken := actionTaken, clicked := true))
  }

  /** The unread counter follows the clicks, not the notifications: marking
      the same notification twice takes two off the caller's count. */
  lemma MarkTwiceCountsTwice(
    notes: seq<Notification>, users: seq<User>, userId: string, notificationId: nat, j: nat)
    requires MarkNotificationAsClicked(notes, users, userId, notificationId, true).reply.Ok?
    requires j == FindFirst(users, (u: User) => u.id == userId).value
    requires users[j].unreadNotifications >= 2
    ensures var r1 := MarkNotificationAsClicked(notes, users, userId, notificationId, true);
      var r2 := MarkNotificationAsClicked(r1.notes, r1.users, userId, notificationId, true);
      && r2.reply.Ok?
      && r2.users[j].unreadNotifications == users[j].unreadNotifications - 2
  {
    var r1 := MarkNotificationAsClicked(notes, users, userId, notificationId, true);
    var k := FindFirst(notes, (n: Notification) => n.id == notificationId).value;
    assert r1.notes[k].id == notificationId;
    assert r1.users[j].id == userId;
    var j1 := FindFirst(r1.users, (u: User) => u.id == userId).value;
    assert j1 == j by {
      assert forall i :: 0 <= i < |users| && i != j ==> r1.users[i] == users[i];
    }
  }
}
