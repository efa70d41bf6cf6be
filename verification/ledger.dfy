/** The App Store transaction ledger of models/AppStoreSubscriptionTransaction.js:
    one record per ledgered notification, validated by the schema on insert.
    The collection is a sequence in insertion order. */
module Ledger {
  import opened Wrappers

  datatype LedgerRecord = LedgerRecord(
    user: string,
    txType: Option<string>,  // the schema path `type`
    transactionId: string,
    notificationUUID: string,
    originalTransactionId: string)

  type Ledger = seq<LedgerRecord>

  /** The schema's `type` enum. */
  const SchemaTypes: set<string> := {"SUBSCRIBED", "DID_RENEW", "EXPIRED"}

  /** The same enum with REFUND admitted, as the refund handling needs it. */
  const SchemaTypesWithRefund: set<string> := SchemaTypes + {"REFUND"}

  /** A `required: true` string passes validation only when present and non-empty. */
  predicate RequiredPresent(s: string) { |s| > 0 }

  /** Schema validation against the enum `types`: the four required paths are
      set, and `type`, which is optional, is either absent or in the enum. */
  predicate ValidAgainst(r: LedgerRecord, types: set<string>) {
    && RequiredPresent(r.user)
    && RequiredPresent(r.transactionId)
    && RequiredPresent(r.notificationUUID)
    && RequiredPresent(r.originalTransactionId)
    && (r.txType.None? || r.txType.value in types)
  }

  predicate Valid(r: LedgerRecord) { ValidAgainst(r, SchemaTypes) }

  /** `AppStoreSubscriptionTransaction.findOne({ notificationUUID })` finds a record. */
  predicate HasProcessed(l: Ledger, uuid: string) {
    exists i :: 0 <= i < |l| && l[i].notificationUUID == uuid
  }

  /** No two records share a notification id. */
  predicate UniqueUUIDs(l: Ledger) {
    forall i, j :: 0 <= i < j < |l| ==> l[i].notificationUUID != l[j].notificationUUID
  }

  /** `AppStoreSubscriptionTransaction.create([r])` against the enum `types`:
      `None` is the validation error it throws. No unique index exists, so a
      record is appended whether or not its notification id is already present. */
  function InsertAgainst(l: Ledger, r: LedgerRecord, types: set<string>): (res: Option<Ledger>)
    ensures res.Some? <==> ValidAgainst(r, types)
    ensures res.Some? ==> |res.value| == |l| + 1 && res.value[..|l|] == l && res.value[|l|] == r
  {
    if ValidAgainst(r, types) then Some(l + [r]) else None
  }

  function Insert(l: Ledger, r: LedgerRecord): Option<Ledger> {
    InsertAgainst(l, r, SchemaTypes)
  }

  /** A REFUND record fails schema validation. */
  lemma RefundRecordRejected(r: LedgerRecord)
    requires r.txType == Some("REFUND")
    ensures !Valid(r)
    ensures Insert([], r).None?
  {
  }

  /** `type` is optional: a record without it is valid once the required paths are set. */
  lemma TypeIsOptional(r: LedgerRecord)
    requires r.txType.None?
    requires |r.user| > 0 && |r.transactionId| > 0
    requires |r.notificationUUID| > 0 && |r.originalTransactionId| > 0
    ensures Valid(r)
  {
  }

  /** Each of the four required paths is enforced on its own. */
  lemma RequiredPathsEnforced(r: LedgerRecord)
    requires r.user == "" || r.transactionId == "" || r.notificationUUID == "" || r.originalTransactionId == ""
    ensures !ValidAgainst(r, SchemaTypesWithRefund)
  {
  }

  /** The store does not keep notification ids unique: inserting a valid record
      whose id is already ledgered succeeds and breaks uniqueness. Uniqueness
      therefore rests on the handler's own look-up before it inserts. */
  lemma InsertAllowsDuplicate(l: Ledger, r: LedgerRecord)
    requires Valid(r) && HasProcessed(l, r.notificationUUID)
    ensures Insert(l, r).Some?
    ensures !UniqueUUIDs(Insert(l, r).value)
  {
    var i :| 0 <= i < |l| && l[i].notificationUUID == r.notificationUUID;
    var l' := Insert(l, r).value;
    assert l'[i] == l[i] && l'[|l|] == r;
  }

  /** Inserting a record whose id is not yet ledgered keeps the ids unique. */
  lemma InsertFreshKeepsUnique(l: Ledger, r: LedgerRecord, types: set<string>)
    requires UniqueUUIDs(l) && !HasProcessed(l, r.notificationUUID)
    requires ValidAgainst(r, types)
    ensures UniqueUUIDs(InsertAgainst(l, r, types).value)
    ensures HasProcessed(InsertAgainst(l, r, types).value, r.notificationUUID)
  {
    var l' := InsertAgainst(l, r, types).value;
    assert l'[|l|] == r;
    forall i, j | 0 <= i < j < |l'| ensures l'[i].notificationUUID != l'[j].notificationUUID {
      if j < |l| {
        assert l'[i] == l[i] && l'[j] == l[j];
      } else {
        assert l'[i] == l[i];
      }
    }
  }
}
