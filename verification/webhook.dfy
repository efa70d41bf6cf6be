/** `handleVerifiedAppStoreNotification` of services/AppleService.js: the state
    machine that applies a verified App Store Server Notification to the user
    whose `appStoreUserUUID` equals the transaction's `appAccountToken`, and
    records ledgered notifications so a redelivery is ignored.

    The database is a `Store` value. A Mongo transaction either applies both
    its writes or neither; a write outside a transaction stays applied when a
    later step throws. Sending the billing email is a parameter: `mailerFails`
    says whether `sendSingleEmail` throws. */
module AppStoreWebhook {
  import opened Wrappers
  import opened Subscription
  import opened Users
  import opened Ledger
  import opened AppleVerify

  datatype Store = Store(users: seq<User>, ledger: Ledger)

  /** The fields of the decoded notification payload the handler reads. */
  datatype Notification = Notification(
    notificationType: Option<string>,
    subtype: Option<string>,
    notificationUUID: Option<string>)

  datatype OutgoingEmail = OutgoingEmail(to: string, subject: string, message: string)

  /** What the handler leaves behind: the database, the emails it sent, and
      the status it set on the response (`None` when no branch set one). */
  datatype HandlerResult = HandlerResult(store: Store, emails: seq<OutgoingEmail>, status: Option<int>)

  const MonthlyProductId: string := "Monthly123"
  const BillingSubject: string := "Subscription Deactivated"
  const BillingMessage: string :=
    "Your subscription failed to renew. This could be an issue with your billing method. Please check your billing method to confirm."

  /** The notification types whose handling writes a ledger record. */
  const LedgeredTypes: set<string> := {"SUBSCRIBED", "DID_RENEW", "EXPIRED"}

  /** Any product other than the monthly one is taken to be yearly. */
  function ProductTypeOf(tx: TransactionInfo): ProductType {
    if tx.productId == Some(MonthlyProductId) then Monthly else Yearly
  }

  /** Only an explicit `autoRenewStatus` of 0 means "not renewable". */
  function IsRenewable(rn: RenewalInfo): bool {
    rn.autoRenewStatus != Some(0)
  }

  /** The types for which some branch of the handler sets a status. */
  predicate Handles(n: Notification) {
    || n.notificationType == Some("SUBSCRIBED")
    || n.notificationType == Some("DID_RENEW")
    || n.notificationType == Some("DID_CHANGE_RENEWAL_STATUS")
    || (n.notificationType == Some("DID_FAIL_TO_RENEW") && n.subtype.None?)
    || n.notificationType == Some("EXPIRED")
    || n.notificationType == Some("GRACE_PERIOD_EXPIRED")
    || n.notificationType == Some("REFUND")
  }

  predicate IsLedgered(n: Notification) {
    n.notificationType.Some? && n.notificationType.value in LedgeredTypes
  }

  /** The look-up by `notificationUUID`. Every stored record carries its
      required id, so a notification without one matches nothing. */
  predicate AlreadyProcessed(l: Ledger, uuid: Option<string>) {
    uuid.Some? && HasProcessed(l, uuid.value)
  }

  /** `User.findOne({ 'subscriptionInfo.appStoreUserUUID': token })`: the first
      user in store order whose id equals the token. An absent token matches a
      user without one, as a query for `undefined` matches a missing field. */
  function FindUser(users: seq<User>, token: Option<string>): (r: Option<nat>)
    ensures r.Some? ==> r.value < |users| && users[r.value].subscriptionInfo.appStoreUserUUID == token
    ensures r.Some? ==> forall j :: 0 <= j < r.value ==> users[j].subscriptionInfo.appStoreUserUUID != token
    ensures r.None? <==> forall j :: 0 <= j < |users| ==> users[j].subscriptionInfo.appStoreUserUUID != token
    decreases |users|
  {
    if |users| == 0 then None
    else if users[0].subscriptionInfo.appStoreUserUUID == token then Some(0)
    else
      var rest := FindUser(users[1..], token);
      assert forall j :: 1 <= j < |users| ==> users[1..][j - 1] == users[j];
      if rest.None? then None else Some(rest.value + 1)
  }

  function SetSubscription(users: seq<User>, i: nat, si: SubscriptionInfo): (r: seq<User>)
    requires i < |users|
    ensures |r| == |users| && r[i] == users[i].(subscriptionInfo := si)
    ensures forall j :: 0 <= j < |users| && j != i ==> r[j] == users[j]
  {
    users[i := users[i].(subscriptionInfo := si)]
  }

  /** The record `{ user, transactionId, originalTransactionId, notificationUUID, type }`;
      a missing id becomes the empty string, which the schema rejects as it
      rejects `undefined`. */
  function LedgerEntry(u: User, n: Notification, tx: TransactionInfo): (rec: LedgerRecord)
    ensures rec.user == u.id && rec.txType == n.notificationType
    ensures Some(rec.notificationUUID) == n.notificationUUID || rec.notificationUUID == ""
  {
    LedgerRecord(u.id, n.notificationType, tx.transactionId.GetOr(""),
                 n.notificationUUID.GetOr(""), tx.originalTransactionId.GetOr(""))
  }

  /** The `$set` of SUBSCRIBED and DID_RENEW. `None` is the cast error that an
      invalid `new Date(undefined)` raises. */
  function Subscribed(si: SubscriptionInfo, tx: TransactionInfo, rn: RenewalInfo): (r: Option<SubscriptionInfo>)
    ensures r.Some? <==> tx.purchaseDate.Some? && tx.expiresDate.Some?
    ensures r.Some? ==> r.value.isPremiumActive && r.value.platform == Some(AppStore)
    ensures r.Some? ==> r.value.expiryDate == tx.expiresDate && r.value.appStore.expiryDate == tx.expiresDate
    ensures r.Some? ==> r.value.startDate == tx.purchaseDate && r.value.appStore.startDate == tx.purchaseDate
    ensures r.Some? ==> r.value.appStore.productType == Some(ProductTypeOf(tx))
    ensures r.Some? ==> r.value.appStore.isRenewable == IsRenewable(rn)
    ensures r.Some? ==> r.value.appStore.transactionId == tx.transactionId
    ensures r.Some? ==> r.value.appStore.originalTransactionId == tx.originalTransactionId
    ensures r.Some? ==> TrialFieldsKept(si, r.value)
  {
    if tx.purchaseDate.None? || tx.expiresDate.None? then None
    else Some(si.(
      isPremiumActive := true,
      platform := Some(AppStore),
      expiryDate := tx.expiresDate,
      startDate := tx.purchaseDate,
      appStore := AppStoreInfo(
        tx.originalTransactionId, tx.transactionId, Some(ProductTypeOf(tx)),
        tx.purchaseDate, tx.expiresDate, IsRenewable(rn))))
  }

  /** The free-trial state and the App Store account id, which no
      notification touches. */
  predicate TrialFieldsKept(a: SubscriptionInfo, b: SubscriptionInfo) {
    && b.appStoreUserUUID == a.appStoreUserUUID
    && b.hasUsedFreeTrial == a.hasUsedFreeTrial
    && b.isFreeTrialActive == a.isFreeTrialActive
    && b.freeTrialExpiryDate == a.freeTrialExpiryDate
  }

  /** What a handler may do to the user it found, `i`, and to nobody else:
      only that user's subscription changes, never its free-trial state, and
      the ledger grows by at most the notification's own record. */
  predicate ConfinedTo(s: Store, r: HandlerResult, i: nat, n: Notification, tx: TransactionInfo, types: set<string>)
    requires i < |s.users|
  {
    && |r.store.users| == |s.users|
    && (forall j :: 0 <= j < |s.users| && j != i ==> r.store.users[j] == s.users[j])
    && r.store.users[i] == s.users[i].(subscriptionInfo := r.store.users[i].subscriptionInfo)
    && TrialFieldsKept(s.users[i].subscriptionInfo, r.store.users[i].subscriptionInfo)
    && (r.store.ledger == s.ledger
        || (r.store.ledger == s.ledger + [LedgerEntry(s.users[i], n, tx)]
            && ValidAgainst(LedgerEntry(s.users[i], n, tx), types)
            && r.status == Some(200)))
  }

  /** A Mongo transaction that sets user `i`'s subscription to `si` and
      inserts the notification's ledger record: both writes, or on a cast or
      validation error neither, and status 500. */
  function Transact(s: Store, i: nat, si: Option<SubscriptionInfo>, n: Notification, tx: TransactionInfo, types: set<string>): (r: HandlerResult)
    requires i < |s.users|
    requires si.Some? ==> TrialFieldsKept(s.users[i].subscriptionInfo, si.value)
    ensures ConfinedTo(s, r, i, n, tx, types)
    ensures r.emails == []
    ensures r.status == Some(200) || r.status == Some(500)
    ensures r.status == Some(500) ==> r.store == s
    ensures r.status == Some(200) <==> si.Some? && ValidAgainst(LedgerEntry(s.users[i], n, tx), types)
    ensures r.status == Some(200) ==>
      r.store == Store(SetSubscription(s.users, i, si.value), s.ledger + [LedgerEntry(s.users[i], n, tx)])
  {
    var rec := LedgerEntry(s.users[i], n, tx);
    if si.None? then HandlerResult(s, [], Some(500))
    else match InsertAgainst(s.ledger, rec, types)
      case None => HandlerResult(s, [], Some(500))
      case Some(l) => HandlerResult(Store(SetSubscription(s.users, i, si.value), l), [], Some(200))
  }

  /** DID_CHANGE_RENEWAL_STATUS: only the renewability flag is set. */
  function ChangeRenewalStatus(s: Store, i: nat, n: Notification, tx: TransactionInfo, rn: RenewalInfo): (r: HandlerResult)
    requires i < |s.users|
    ensures ConfinedTo(s, r, i, n, tx, SchemaTypes)
    ensures r.store.ledger == s.ledger && r.emails == [] && r.status == Some(200)
    ensures var si := s.users[i].subscriptionInfo;
      r.store.users[i].subscriptionInfo == si.(appStore := si.appStore.(isRenewable := IsRenewable(rn)))
  {
    var si := s.users[i].subscriptionInfo;
    HandlerResult(Store(SetSubscription(s.users, i, si.(appStore := si.appStore.(isRenewable := IsRenewable(rn)))), s.ledger), [], Some(200))
  }

  /** DID_FAIL_TO_RENEW and GRACE_PERIOD_EXPIRED: premium is switched off
      (outside any transaction, so it stays off if the mailer then throws) and
      the billing-failure email goes to the user. */
  function Deactivate(s: Store, i: nat, n: Notification, tx: TransactionInfo, mailerFails: bool): (r: HandlerResult)
    requires i < |s.users|
    ensures ConfinedTo(s, r, i, n, tx, SchemaTypes)
    ensures r.store.ledger == s.ledger
    ensures r.store.users == SetSubscription(s.users, i, s.users[i].subscriptionInfo.(isPremiumActive := false))
    ensures r.status == (if mailerFails then Some(500) else Some(200))
    ensures r.emails == if mailerFails then [] else [OutgoingEmail(s.users[i].email, BillingSubject, BillingMessage)]
  {
    var users := SetSubscription(s.users, i, s.users[i].subscriptionInfo.(isPremiumActive := false));
    if mailerFails then HandlerResult(Store(users, s.ledger), [], Some(500))
    else HandlerResult(Store(users, s.ledger), [OutgoingEmail(s.users[i].email, BillingSubject, BillingMessage)], Some(200))
  }

  /** The branches of the handler once the user is known. */
  function Dispatch(s: Store, i: nat, n: Notification, tx: TransactionInfo, rn: RenewalInfo, mailerFails: bool): (r: HandlerResult)
    requires i < |s.users|
    ensures ConfinedTo(s, r, i, n, tx, SchemaTypes)
    ensures r.status.None? <==> !Handles(n)
    ensures r.status.Some? ==> r.status == Some(200) || r.status == Some(500)
    ensures r.store.ledger != s.ledger ==> IsLedgered(n)
    ensures IsLedgered(n) && r.status != Some(200) ==> r.store == s
    ensures r.emails != [] ==>
      && !mailerFails && r.status == Some(200)
      && r.emails == [OutgoingEmail(s.users[i].email, BillingSubject, BillingMessage)]
      && !r.store.users[i].subscriptionInfo.isPremiumActive
    ensures n.notificationType == Some("REFUND") ==> r == HandlerResult(s, [], Some(500))
  {
    var t := n.notificationType;
    var si := s.users[i].subscriptionInfo;
    if t == Some("SUBSCRIBED") || t == Some("DID_RENEW") then
      Transact(s, i, Subscribed(si, tx, rn), n, tx, SchemaTypes)
    else if t == Some("DID_CHANGE_RENEWAL_STATUS") then
      ChangeRenewalStatus(s, i, n, tx, rn)
    else if t == Some("DID_FAIL_TO_RENEW") && n.subtype.None? then
      Deactivate(s, i, n, tx, mailerFails)
    else if t == Some("EXPIRED") then
      Transact(s, i, Some(si.(isPremiumActive := false)), n, tx, SchemaTypes)
    else if t == Some("GRACE_PERIOD_EXPIRED") then
      Deactivate(s, i, n, tx, mailerFails)
    else if t == Some("REFUND") then
      // Both REFUND paths name a `session` that is not in scope: the
      // ReferenceError is caught before any write.
      HandlerResult(s, [], Some(500))
    else
      HandlerResult(s, [], None)
  }

  /** `handleVerifiedAppStoreNotification` as written: a notification already
      in the ledger, or one for no known user, is acknowledged with 200 and
      changes nothing; otherwise the branch for its type runs. */
  function HandleVerifiedAppStoreNotification(
    s: Store, n: Notification, tx: TransactionInfo, rn: RenewalInfo, mailerFails: bool): (r: HandlerResult)
    ensures AlreadyProcessed(s.ledger, n.notificationUUID) ==> r == HandlerResult(s, [], Some(200))
    ensures (forall j :: 0 <= j < |s.users| ==> s.users[j].subscriptionInfo.appStoreUserUUID != tx.appAccountToken)
      ==> r == HandlerResult(s, [], Some(200))
    ensures |r.store.users| == |s.users|
    ensures forall j :: 0 <= j < |s.users| ==>
      (s.users[j].subscriptionInfo.appStoreUserUUID != tx.appAccountToken ==> r.store.users[j] == s.users[j])
    ensures forall j :: 0 <= j < |s.users| ==> TrialFieldsKept(s.users[j].subscriptionInfo, r.store.users[j].subscriptionInfo)
    ensures r.store.ledger == s.ledger || (
      && IsLedgered(n) && r.status == Some(200)
      && n.notificationUUID.Some? && !HasProcessed(s.ledger, n.notificationUUID.value)
      && |r.store.ledger| == |s.ledger| + 1 && r.store.ledger[..|s.ledger|] == s.ledger
      && r.store.ledger[|s.ledger|].notificationUUID == n.notificationUUID.value
      && r.store.ledger[|s.ledger|].txType == n.notificationType
      && Valid(r.store.ledger[|s.ledger|]))
    ensures r.status.None? ==> !Handles(n)
    ensures r.status.Some? ==> r.status == Some(200) || r.status == Some(500)
    ensures IsLedgered(n) && r.status == Some(500) ==> r.store == s
  {
    if AlreadyProcessed(s.ledger, n.notificationUUID) then HandlerResult(s, [], Some(200))
    else
      match FindUser(s.users, tx.appAccountToken)
      case None => HandlerResult(s, [], Some(200))
      case Some(i) =>
        DispatchForFoundUser(s, i, n, tx, rn, mailerFails);
        Dispatch(s, i, n, tx, rn, mailerFails)
  }

  /** The branch run for the user a new notification names touches that user
      only, and adds at most the notification's own valid ledger record. */
  lemma DispatchForFoundUser(s: Store, i: nat, n: Notification, tx: TransactionInfo, rn: RenewalInfo, m: bool)
    requires FindUser(s.users, tx.appAccountToken) == Some(i)
    requires !AlreadyProcessed(s.ledger, n.notificationUUID)
    ensures var r := Dispatch(s, i, n, tx, rn, m);
      && |r.store.users| == |s.users|
      && (forall j :: 0 <= j < |s.users| ==>
            (s.users[j].subscriptionInfo.appStoreUserUUID != tx.appAccountToken ==> r.store.users[j] == s.users[j]))
      && (forall j :: 0 <= j < |s.users| ==> TrialFieldsKept(s.users[j].subscriptionInfo, r.store.users[j].subscriptionInfo))
      && (r.store.ledger == s.ledger || (
            && IsLedgered(n) && r.status == Some(200)
            && n.notificationUUID.Some? && !HasProcessed(s.ledger, n.notificationUUID.value)
            && |r.store.ledger| == |s.ledger| + 1 && r.store.ledger[..|s.ledger|] == s.ledger
            && r.store.ledger[|s.ledger|].notificationUUID == n.notificationUUID.value
            && r.store.ledger[|s.ledger|].txType == n.notificationType
            && Valid(r.store.ledger[|s.ledger|])))
  {
    var r := Dispatch(s, i, n, tx, rn, m);
    var rec := LedgerEntry(s.users[i], n, tx);
    assert r.store.ledger != s.ledger ==> RequiredPresent(rec.notificationUUID);
    assert (s.ledger + [rec])[..|s.ledger|] == s.ledger;
  }

  // ---------------------------------------------------------------------------
  // Properties of the handler
  // ---------------------------------------------------------------------------

  /** A ledgered notification is handled at most once: delivering it again,
      after whatever the first delivery did, changes nothing and sends nothing. */
  lemma LedgeredRedeliveryIsNoOp(s: Store, n: Notification, tx: TransactionInfo, rn: RenewalInfo, m1: bool, m2: bool)
    requires IsLedgered(n)
    ensures var r1 := HandleVerifiedAppStoreNotification(s, n, tx, rn, m1);
      HandleVerifiedAppStoreNotification(r1.store, n, tx, rn, m2) == HandlerResult(r1.store, [], r1.status)
  {
    var r1 := HandleVerifiedAppStoreNotification(s, n, tx, rn, m1);
    if r1.store.ledger != s.ledger {
      RecordedIsProcessed(s, n, tx, rn, m1);
    } else {
      UnrecordedChangesNothing(s, n, tx, rn, m1, m2);
    }
  }

  /** A delivery that wrote the ledger has recorded the notification's id. */
  lemma RecordedIsProcessed(s: Store, n: Notification, tx: TransactionInfo, rn: RenewalInfo, m: bool)
    requires HandleVerifiedAppStoreNotification(s, n, tx, rn, m).store.ledger != s.ledger
    ensures var r := HandleVerifiedAppStoreNotification(s, n, tx, rn, m);
      AlreadyProcessed(r.store.ledger, n.notificationUUID) && r.status == Some(200)
  {
    var r := HandleVerifiedAppStoreNotification(s, n, tx, rn, m);
    assert r.store.ledger[|s.ledger|].notificationUUID == n.notificationUUID.value;
  }

  /** A ledgered notification that wrote no ledger record changed nothing at
      all, and a second delivery ends the same way whatever the mailer does. */
  lemma UnrecordedChangesNothing(s: Store, n: Notification, tx: TransactionInfo, rn: RenewalInfo, m1: bool, m2: bool)
    requires IsLedgered(n)
    requires HandleVerifiedAppStoreNotification(s, n, tx, rn, m1).store.ledger == s.ledger
    ensures var r1 := HandleVerifiedAppStoreNotification(s, n, tx, rn, m1);
      r1.store == s && HandleVerifiedAppStoreNotification(s, n, tx, rn, m2) == HandlerResult(s, [], r1.status)
  {
    if !AlreadyProcessed(s.ledger, n.notificationUUID) && FindUser(s.users, tx.appAccountToken).Some? {
      var i := FindUser(s.users, tx.appAccountToken).value;
      assert Dispatch(s, i, n, tx, rn, m1) == Dispatch(s, i, n, tx, rn, m2);
    }
  }

  /** Billing notifications are not ledgered: each delivery of the same
      notification switches premium off again and sends the email again. */
  lemma BillingRedeliveryResendsEmail(s: Store, n: Notification, tx: TransactionInfo, rn: RenewalInfo)
    requires n.notificationType == Some("GRACE_PERIOD_EXPIRED")
      || (n.notificationType == Some("DID_FAIL_TO_RENEW") && n.subtype.None?)
    requires !AlreadyProcessed(s.ledger, n.notificationUUID)
    requires FindUser(s.users, tx.appAccountToken).Some?
    ensures var r1 := HandleVerifiedAppStoreNotification(s, n, tx, rn, false);
      var r2 := HandleVerifiedAppStoreNotification(r1.store, n, tx, rn, false);
      && |r1.emails| == 1 && r2.emails == r1.emails
      && r2.store == r1.store && r2.status == Some(200)
  {
    var i := FindUser(s.users, tx.appAccountToken).value;
    var r1 := HandleVerifiedAppStoreNotification(s, n, tx, rn, false);
    assert r1 == Dispatch(s, i, n, tx, rn, false);
    DispatchBilling(s, i, n, tx, rn, false);
    var s1 := r1.store;
    assert s1.ledger == s.ledger;
    assert FindUser(s1.users, tx.appAccountToken) == Some(i) by {
      FindUserStable(s.users, s1.users, tx.appAccountToken);
    }
    var r2 := HandleVerifiedAppStoreNotification(s1, n, tx, rn, false);
    assert r2 == Dispatch(s1, i, n, tx, rn, false);
    DispatchBilling(s1, i, n, tx, rn, false);
    assert s1.users[i].email == s.users[i].email;
    assert s1.users[i].subscriptionInfo == s1.users[i].subscriptionInfo.(isPremiumActive := false);
    assert s1.users[i := s1.users[i]] == s1.users;
  }

  lemma DispatchBilling(s: Store, i: nat, n: Notification, tx: TransactionInfo, rn: RenewalInfo, m: bool)
    requires i < |s.users|
    requires n.notificationType == Some("GRACE_PERIOD_EXPIRED")
      || (n.notificationType == Some("DID_FAIL_TO_RENEW") && n.subtype.None?)
    ensures Dispatch(s, i, n, tx, rn, m) == Deactivate(s, i, n, tx, m)
  {
  }

  /** The user look-up only depends on the users' App Store ids. */
  lemma {:induction false} FindUserStable(a: seq<User>, b: seq<User>, token: Option<string>)
    requires |a| == |b|
    requires forall j :: 0 <= j < |a| ==> a[j].subscriptionInfo.appStoreUserUUID == b[j].subscriptionInfo.appStoreUserUUID
    ensures FindUser(a, token) == FindUser(b, token)
    decreases |a|
  {
    if |a| > 0 && a[0].subscriptionInfo.appStoreUserUUID != token {
      FindUserStable(a[1..], b[1..], token);
    }
  }

  /** The handler keeps notification ids in the ledger unique. */
  lemma LedgerStaysUnique(s: Store, n: Notification, tx: TransactionInfo, rn: RenewalInfo, m: bool)
    requires UniqueUUIDs(s.ledger)
    ensures UniqueUUIDs(HandleVerifiedAppStoreNotification(s, n, tx, rn, m).store.ledger)
  {
    var r := HandleVerifiedAppStoreNotification(s, n, tx, rn, m);
    if r.store.ledger != s.ledger {
      var rec := r.store.ledger[|s.ledger|];
      assert r.store.ledger == s.ledger + [rec];
      InsertFreshKeepsUnique(s.ledger, rec, SchemaTypes);
    }
  }

  /** A SUBSCRIBED or DID_RENEW notification that is acknowledged with 200 and
      not ignored leaves the user premium on the App Store, at every instant,
      with the transaction's dates and product. */
  lemma SubscribedGrantsPremium(s: Store, n: Notification, tx: TransactionInfo, rn: RenewalInfo, m: bool, now: int)
    requires n.notificationType == Some("SUBSCRIBED") || n.notificationType == Some("DID_RENEW")
    requires !AlreadyProcessed(s.ledger, n.notificationUUID)
    requires FindUser(s.users, tx.appAccountToken).Some?
    requires HandleVerifiedAppStoreNotification(s, n, tx, rn, m).status == Some(200)
    ensures var i := FindUser(s.users, tx.appAccountToken).value;
      var si := HandleVerifiedAppStoreNotification(s, n, tx, rn, m).store.users[i].subscriptionInfo;
      && IsUserFreeOrPremium(si, now)
      && si.platform == Some(AppStore)
      && si.expiryDate == tx.expiresDate
      && si.appStore.productType == Some(ProductTypeOf(tx))
      && si.appStore.isRenewable == IsRenewable(rn)
  {
  }

  /** An EXPIRED notification that is acknowledged with 200 and not ignored
      switches premium off, so the user stays entitled only through a running
      free trial. */
  lemma ExpiredRevokesPremium(s: Store, n: Notification, tx: TransactionInfo, rn: RenewalInfo, m: bool, now: int)
    requires n.notificationType == Some("EXPIRED")
    requires !AlreadyProcessed(s.ledger, n.notificationUUID)
    requires FindUser(s.users, tx.appAccountToken).Some?
    requires HandleVerifiedAppStoreNotification(s, n, tx, rn, m).status == Some(200)
    ensures var i := FindUser(s.users, tx.appAccountToken).value;
      var si := HandleVerifiedAppStoreNotification(s, n, tx, rn, m).store.users[i].subscriptionInfo;
      var old_ := s.users[i].subscriptionInfo;
      && !si.isPremiumActive
      && (IsUserFreeOrPremium(si, now) <==>
          old_.isFreeTrialActive && old_.freeTrialExpiryDate.GetOr(0) > now)
  {
  }

  // ---------------------------------------------------------------------------
  // REFUND
  // ---------------------------------------------------------------------------

  /** As written, a REFUND for a known user is never applied: no premium is
      revoked and nothing is ledgered. */
  lemma RefundAsWrittenIsLost(s: Store, n: Notification, tx: TransactionInfo, rn: RenewalInfo, m: bool)
    requires n.notificationType == Some("REFUND")
    requires !AlreadyProcessed(s.ledger, n.notificationUUID)
    requires FindUser(s.users, tx.appAccountToken).Some?
    ensures HandleVerifiedAppStoreNotification(s, n, tx, rn, m) == HandlerResult(s, [], Some(500))
  {
  }

  function SampleUser(): User {
    User("u1", "buyer@example.com", None, None, true, true, Email, 0, 0,
      SubscriptionInfo(Some("token-1"), true, false, None, true, Some(AppStore), Some(0), Some(1000),
        AppStoreInfo(Some("orig-1"), Some("tx-1"), Some(Monthly), Some(0), Some(1000), true)),
      None, None, None, None, None, None, None,
      EventSettings(None, None), None, None, false, map[], map[],
      NewsletterSettings(None, None))
  }

  /** A concrete refund of the user's current monthly subscription: the user
      keeps premium and the refund is not recorded. */
  lemma RefundAsWrittenCounterexample()
    ensures var s := Store([SampleUser()], []);
      var n := Notification(Some("REFUND"), None, Some("n-1"));
      var tx := TransactionInfo(Some("token-1"), Some("tx-1"), Some("orig-1"), Some(1000), Some(0), Some(MonthlyProductId));
      var r := HandleVerifiedAppStoreNotification(s, n, tx, RenewalInfo(None), false);
      && r.status == Some(500)
      && r.store.users[0].subscriptionInfo.isPremiumActive
      && r.store.ledger == []
  {
    var s := Store([SampleUser()], []);
    var tx := TransactionInfo(Some("token-1"), Some("tx-1"), Some("orig-1"), Some(1000), Some(0), Some(MonthlyProductId));
    assert FindUser(s.users, tx.appAccountToken) == Some(0);
  }

  /** The refund branch as intended: the refund is ledgered (with REFUND in the
      schema's enum); when it refunds the user's most recent transaction and
      product, premium is revoked in the same transaction. */
  function RefundCorrected(s: Store, i: nat, n: Notification, tx: TransactionInfo): (r: HandlerResult)
    requires i < |s.users|
    ensures ConfinedTo(s, r, i, n, tx, SchemaTypesWithRefund)
    ensures r.emails == []
    ensures r.status == Some(200) || r.status == Some(500)
    ensures r.status == Some(500) ==> r.store == s
    ensures r.status == Some(200) <==> ValidAgainst(LedgerEntry(s.users[i], n, tx), SchemaTypesWithRefund)
    ensures r.status == Some(200) ==> r.store.ledger == s.ledger + [LedgerEntry(s.users[i], n, tx)]
    ensures var si := s.users[i].subscriptionInfo;
      r.status == Some(200) ==>
        (r.store.users[i].subscriptionInfo.isPremiumActive <==>
          (si.isPremiumActive
           && !(si.appStore.originalTransactionId == tx.originalTransactionId
                && si.appStore.productType == Some(ProductTypeOf(tx)))))
  {
    var si := s.users[i].subscriptionInfo;
    if si.appStore.originalTransactionId == tx.originalTransactionId && si.appStore.productType == Some(ProductTypeOf(tx)) then
      var r := Transact(s, i, Some(si.(isPremiumActive := false)), n, tx, SchemaTypesWithRefund);
      assert r.status == Some(200) ==> !r.store.users[i].subscriptionInfo.isPremiumActive;
      r
    else RecordOnly(s, i, n, tx, SchemaTypesWithRefund)
  }

  /** A transaction that only inserts the notification's ledger record. */
  function RecordOnly(s: Store, i: nat, n: Notification, tx: TransactionInfo, types: set<string>): (r: HandlerResult)
    requires i < |s.users|
    ensures ConfinedTo(s, r, i, n, tx, types)
    ensures r.emails == [] && r.store.users == s.users
    ensures r.status == Some(200) || r.status == Some(500)
    ensures r.status == Some(500) ==> r.store == s
    ensures r.status == Some(200) <==> ValidAgainst(LedgerEntry(s.users[i], n, tx), types)
    ensures r.status == Some(200) ==> r.store.ledger == s.ledger + [LedgerEntry(s.users[i], n, tx)]
  {
    match InsertAgainst(s.ledger, LedgerEntry(s.users[i], n, tx), types)
    case None => HandlerResult(s, [], Some(500))
    case Some(l) =>
      assert s.users == s.users[i := s.users[i].(subscriptionInfo := s.users[i].subscriptionInfo)];
      HandlerResult(Store(s.users, l), [], Some(200))
  }

  /** The handler with the corrected refund branch; every other type is
      handled exactly as written. */
  function HandleVerifiedAppStoreNotificationCorrected(
    s: Store, n: Notification, tx: TransactionInfo, rn: RenewalInfo, mailerFails: bool): (r: HandlerResult)
    ensures n.notificationType != Some("REFUND") ==> r == HandleVerifiedAppStoreNotification(s, n, tx, rn, mailerFails)
    ensures AlreadyProcessed(s.ledger, n.notificationUUID) ==> r == HandlerResult(s, [], Some(200))
    ensures r.status.None? ==> !Handles(n)
    ensures r.status.Some? ==> r.status == Some(200) || r.status == Some(500)
    ensures |r.store.users| == |s.users|
    ensures forall j :: 0 <= j < |s.users| ==> TrialFieldsKept(s.users[j].subscriptionInfo, r.store.users[j].subscriptionInfo)
    ensures r.store.ledger == s.ledger || (
      && n.notificationUUID.Some? && !HasProcessed(s.ledger, n.notificationUUID.value)
      && |r.store.ledger| == |s.ledger| + 1 && r.store.ledger[..|s.ledger|] == s.ledger
      && r.store.ledger[|s.ledger|].notificationUUID == n.notificationUUID.value)
  {
    if n.notificationType == Some("REFUND") && !AlreadyProcessed(s.ledger, n.notificationUUID)
       && FindUser(s.users, tx.appAccountToken).Some?
    then
      var i := FindUser(s.users, tx.appAccountToken).value;
      RefundForFoundUser(s, i, n, tx);
      RefundCorrected(s, i, n, tx)
    else HandleVerifiedAppStoreNotification(s, n, tx, rn, mailerFails)
  }

  /** The corrected refund of a new notification keeps every free-trial state
      and adds at most the refund's own ledger record. */
  lemma RefundForFoundUser(s: Store, i: nat, n: Notification, tx: TransactionInfo)
    requires FindUser(s.users, tx.appAccountToken) == Some(i)
    requires !AlreadyProcessed(s.ledger, n.notificationUUID)
    ensures var r := RefundCorrected(s, i, n, tx);
      && |r.store.users| == |s.users|
      && (forall j :: 0 <= j < |s.users| ==> TrialFieldsKept(s.users[j].subscriptionInfo, r.store.users[j].subscriptionInfo))
      && (r.store.ledger == s.ledger || (
            && n.notificationUUID.Some? && !HasProcessed(s.ledger, n.notificationUUID.value)
            && |r.store.ledger| == |s.ledger| + 1 && r.store.ledger[..|s.ledger|] == s.ledger
            && r.store.ledger[|s.ledger|].notificationUUID == n.notificationUUID.value))
  {
    var r := RefundCorrected(s, i, n, tx);
    var rec := LedgerEntry(s.users[i], n, tx);
    assert r.store.ledger != s.ledger ==> RequiredPresent(rec.notificationUUID);
    assert (s.ledger + [rec])[..|s.ledger|] == s.ledger;
  }

  /** With the corrected branch, the concrete refund revokes premium and is
      ledgered, and a redelivery of it is ignored. */
  lemma RefundCorrectedRevokes()
    ensures var s := Store([SampleUser()], []);
      var n := Notification(Some("REFUND"), None, Some("n-1"));
      var tx := TransactionInfo(Some("token-1"), Some("tx-1"), Some("orig-1"), Some(1000), Some(0), Some(MonthlyProductId));
      var r := HandleVerifiedAppStoreNotificationCorrected(s, n, tx, RenewalInfo(None), false);
      && r.status == Some(200)
      && !r.store.users[0].subscriptionInfo.isPremiumActive
      && |r.store.ledger| == 1 && r.store.ledger[0].txType == Some("REFUND")
      && HandleVerifiedAppStoreNotificationCorrected(r.store, n, tx, RenewalInfo(None), false)
         == HandlerResult(r.store, [], Some(200))
  {
    var s := Store([SampleUser()], []);
    var n := Notification(Some("REFUND"), None, Some("n-1"));
    var tx := TransactionInfo(Some("token-1"), Some("tx-1"), Some("orig-1"), Some(1000), Some(0), Some(MonthlyProductId));
    assert FindUser(s.users, tx.appAccountToken) == Some(0);
    var r := HandleVerifiedAppStoreNotificationCorrected(s, n, tx, RenewalInfo(None), false);
    assert r.store.ledger[0].notificationUUID == "n-1";
    assert AlreadyProcessed(r.store.ledger, n.notificationUUID);
  }

  /** The corrected handler also keeps ledger notification ids unique. */
  lemma CorrectedLedgerStaysUnique(s: Store, n: Notification, tx: TransactionInfo, rn: RenewalInfo, m: bool)
    requires UniqueUUIDs(s.ledger)
    ensures UniqueUUIDs(HandleVerifiedAppStoreNotificationCorrected(s, n, tx, rn, m).store.ledger)
  {
    var r := HandleVerifiedAppStoreNotificationCorrected(s, n, tx, rn, m);
    if r.store.ledger != s.ledger {
      var rec := r.store.ledger[|s.ledger|];
      assert r.store.ledger == s.ledger + [rec];
      InsertFreshKeepsUnique(s.ledger, rec, {rec.txType.GetOr("")});
    }
  }
}
