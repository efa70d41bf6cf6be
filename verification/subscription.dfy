/** A user's `subscriptionInfo` record (models/User.js), the entitlement test
    `isUserFreeOrPremium` (controllers/events/utils.js) and free-trial activation
    (controllers/subscriptions.js). Timestamps are milliseconds since the epoch. */
module Subscription {
  import opened Wrappers

  /** The `platform` enum. */
  datatype Platform = PlayStore | AppStore

  /** The `appStore.productType` enum. */
  datatype ProductType = Monthly | Yearly

  datatype AppStoreInfo = AppStoreInfo(
    originalTransactionId: Option<string>,
    transactionId: Option<string>,
    productType: Option<ProductType>,
    startDate: Option<int>,
    expiryDate: Option<int>,
    isRenewable: bool)

  datatype SubscriptionInfo = SubscriptionInfo(
    appStoreUserUUID: Option<string>,
    hasUsedFreeTrial: bool,
    isFreeTrialActive: bool,
    freeTrialExpiryDate: Option<int>,
    isPremiumActive: bool,
    platform: Option<Platform>,
    startDate: Option<int>,
    expiryDate: Option<int>,
    appStore: AppStoreInfo)

  const DayMs: int := 24 * 60 * 60 * 1000
  const FreeTrialDays: int := 7

  /** `checkIfPremiumIsActive || checkIfFreeTrialIsActive`. `new Date(null)` is
      the epoch, so a missing trial expiry compares as 0. */
  predicate IsUserFreeOrPremium(s: SubscriptionInfo, now: int)
    ensures s.isPremiumActive ==> IsUserFreeOrPremium(s, now)
    ensures !s.isPremiumActive && !s.isFreeTrialActive ==> !IsUserFreeOrPremium(s, now)
    ensures !s.isPremiumActive && s.isFreeTrialActive && s.freeTrialExpiryDate.Some? ==>
      (IsUserFreeOrPremium(s, now) <==> now < s.freeTrialExpiryDate.value)
    ensures !s.isPremiumActive && s.freeTrialExpiryDate.None? ==> (IsUserFreeOrPremium(s, now) <==> s.isFreeTrialActive && now < 0)
  {
    s.isPremiumActive || (s.isFreeTrialActive && s.freeTrialExpiryDate.GetOr(0) > now)
  }

  /** Entitlement only ever lapses as time moves forward: whoever is entitled
      now was entitled at every earlier instant. */
  lemma EntitlementMonotone(s: SubscriptionInfo, now: int, earlier: int)
    requires earlier <= now
    ensures IsUserFreeOrPremium(s, now) ==> IsUserFreeOrPremium(s, earlier)
  {
  }

  /** The `subscriptionInfo` a new user document receives from the schema defaults. */
  function NewSubscriptionInfo(appStoreUserUUID: Option<string>): (s: SubscriptionInfo)
    ensures forall now :: !IsUserFreeOrPremium(s, now)
    ensures !s.hasUsedFreeTrial && !s.appStore.isRenewable
    ensures s.freeTrialExpiryDate == None && s.startDate == None && s.expiryDate == None
    ensures s.platform == None && s.appStore.productType == None
  {
    SubscriptionInfo(
      appStoreUserUUID, false, false, None, false, None, None, None,
      AppStoreInfo(None, None, None, None, None, false))
  }

  const FreeTrialUsedMessage: string := "You have already used your free trial"

  const MissingUserReason: string := "Cannot read properties of null (reading 'subscriptionInfo')"

  /** `activateFreeTrial`: `found` is the `subscriptionInfo` of the document
      `User.findById` returns for the caller, or `None` when it returns
      `null`, whose `subscriptionInfo` read throws. Refused once the trial
      has been used; otherwise marks it used and active until seven days
      from `now`. */
  function ActivateFreeTrial(found: Option<SubscriptionInfo>, now: int): (r: Outcome<SubscriptionInfo>)
    ensures r.Thrown? <==> found.None?
    ensures found.Some? ==> (r.Fail? <==> found.value.hasUsedFreeTrial)
    ensures r.Fail? ==> r == Fail(400, FreeTrialUsedMessage)
    ensures r.Ok? ==>
      && r.value.hasUsedFreeTrial && r.value.isFreeTrialActive
      && r.value.freeTrialExpiryDate == Some(now + FreeTrialDays * DayMs)
    ensures r.Ok? ==>
      var s := found.value;
      && r.value.isPremiumActive == s.isPremiumActive
      && r.value.appStore == s.appStore
      && r.value.platform == s.platform
      && r.value.appStoreUserUUID == s.appStoreUserUUID
      && r.value.startDate == s.startDate && r.value.expiryDate == s.expiryDate
    ensures r.Ok? ==> forall t :: t < now + FreeTrialDays * DayMs ==> IsUserFreeOrPremium(r.value, t)
  {
    match found
    case None => Thrown(MissingUserReason)
    case Some(s) =>
      if s.hasUsedFreeTrial then Fail(400, FreeTrialUsedMessage)
      else Ok(s.(hasUsedFreeTrial := true, isFreeTrialActive := true,
                 freeTrialExpiryDate := Some(now + FreeTrialDays * DayMs)))
  }

  /** At most one activation per user ever succeeds: after a successful one,
      every later attempt is refused, whenever it happens. */
  lemma FreeTrialAtMostOnce(s: SubscriptionInfo, now: int, later: int)
    requires ActivateFreeTrial(Some(s), now).Ok?
    ensures ActivateFreeTrial(Some(ActivateFreeTrial(Some(s), now).value), later).Fail?
  {
  }
}
