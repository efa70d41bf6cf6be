/** The HTTP entry points of app.js that guard the core: the App Store
    notification webhook, which decodes, verifies and hands a notification to
    the handler, and the three job routes gated by a shared secret header.

    Base64 decoding and JSON parsing are the functions of a `Codec` record. */
module Routes {
  import opened Wrappers
  import opened Seqs
  import opened AppleVerify
  import opened AppStoreWebhook

  /** The outcome of `JSON.parse`: a syntax error, the literal `null`, or a value. */
  datatype Parsed<T> = NotJson | JsonNull | JsonValue(value: T)

  /** A decoded notification payload: what verification reads (`data`) and
      what the handler reads. A payload that is not an object reads as
      having neither. */
  datatype PayloadObject = PayloadObject(data: Option<PayloadData>, notification: Notification)

  datatype Codec = Codec(
    decode: string -> string,
    parseHeader: string -> Parsed<Header>,
    parsePayload: string -> Parsed<PayloadObject>)

  /** What reaches the client: a status, or nothing at all. */
  datatype Response = Sent(code: int) | NoResponse

  datatype RouteResult = RouteResult(response: Response, store: Store, emails: seq<OutgoingEmail>)

  /** The steps before the handler runs: `None` is the exception (status 500)
      raised by a missing `signedPayload`, a missing second segment, a JSON
      syntax error or a `null` header; otherwise the verification outcome and
      the notification. */
  function Prepare(codec: Codec, crypto: Crypto, root: Cert, signedPayload: Option<string>)
    : (r: Option<(Verification, Notification)>)
    ensures r.Some? ==> signedPayload.Some? && |Split(signedPayload.value, '.')| >= 2
  {
    if signedPayload.None? then None
    else
      var parts := Split(signedPayload.value, '.');
      if |parts| < 2 then None
      else
        var header := codec.parseHeader(codec.decode(parts[0]));
        var payload := codec.parsePayload(codec.decode(parts[1]));
        if header.NotJson? || payload.NotJson? || header.JsonNull? then None
        else
          var data := if payload.JsonValue? then payload.value.data else None;
          var n := if payload.JsonValue? then payload.value.notification else Notification(None, None, None);
          Some((Verify(crypto, root, header.value, data), n))
  }

  /** POST /api/apple-in-app-purchase-notification as written. A verified
      notification is handed to the handler, whose `res.status(...)` is never
      followed by a send: the client receives no response. */
  function AppleNotificationRoute(
    codec: Codec, crypto: Crypto, root: Cert, s: Store, signedPayload: Option<string>, mailerFails: bool)
    : (r: RouteResult)
    ensures signedPayload.None? ==> r == RouteResult(Sent(500), s, [])
    ensures r.response == Sent(500) || r.response == Sent(403) || r.response == NoResponse
    ensures r.response != NoResponse ==> r.store == s && r.emails == []
    ensures r.response == NoResponse <==>
      Prepare(codec, crypto, root, signedPayload).Some? && Prepare(codec, crypto, root, signedPayload).value.0.Passed?
  {
    match Prepare(codec, crypto, root, signedPayload)
    case None => RouteResult(Sent(500), s, [])
    case Some((v, n)) =>
      if v.NotPassed? then RouteResult(Sent(403), s, [])
      else
        var h := HandleVerifiedAppStoreNotification(s, n, v.transactionInfo, v.renewalInfo, mailerFails);
        RouteResult(NoResponse, h.store, h.emails)
  }

  /** Only a notification whose certificate chain and signatures verified can
      change the store or send email. */
  lemma UnverifiedChangesNothing(
    codec: Codec, crypto: Crypto, root: Cert, s: Store, signedPayload: Option<string>, m: bool)
    requires Prepare(codec, crypto, root, signedPayload).None?
      || Prepare(codec, crypto, root, signedPayload).value.0.NotPassed?
    ensures AppleNotificationRoute(codec, crypto, root, s, signedPayload, m).store == s
    ensures AppleNotificationRoute(codec, crypto, root, s, signedPayload, m).emails == []
  {
  }

  /** Only the first two dot-separated segments are read: the JWS signature
      segment, and anything after it, has no effect. */
  lemma ThirdSegmentIgnored(
    codec: Codec, crypto: Crypto, root: Cert, s: Store, h: string, p: string, rest: string, m: bool)
    requires '.' !in h && '.' !in p
    ensures AppleNotificationRoute(codec, crypto, root, s, Some(h + "." + p + "." + rest), m)
         == AppleNotificationRoute(codec, crypto, root, s, Some(h + "." + p), m)
  {
    var long, short := h + "." + p + "." + rest, h + "." + p;
    SegmentsOfSignedPayload(h, p, rest);
    SameSegmentsSamePreparation(codec, crypto, root, long, short);
  }

  /** The first two segments of `h.p.rest` and of `h.p` are `h` and `p`. */
  lemma SegmentsOfSignedPayload(h: string, p: string, rest: string)
    requires '.' !in h && '.' !in p
    ensures var a, b := Split(h + "." + p + "." + rest, '.'), Split(h + "." + p, '.');
      |a| >= 2 && |b| >= 2 && a[0] == b[0] == h && a[1] == b[1] == p
  {
    SplitPrefix(h, '.', p + "." + rest);
    SplitPrefix(p, '.', rest);
    assert h + "." + p + "." + rest == h + ['.'] + (p + ['.'] + rest);
    assert p + "." + rest == p + ['.'] + rest;
    SplitPrefix(h, '.', p);
    assert h + "." + p == h + ['.'] + p;
    SplitWithout(p, '.');
  }

  /** Preparation reads the first two segments only. */
  lemma SameSegmentsSamePreparation(codec: Codec, crypto: Crypto, root: Cert, a: string, b: string)
    requires |Split(a, '.')| >= 2 && |Split(b, '.')| >= 2
    requires Split(a, '.')[0] == Split(b, '.')[0] && Split(a, '.')[1] == Split(b, '.')[1]
    ensures Prepare(codec, crypto, root, Some(a)) == Prepare(codec, crypto, root, Some(b))
  {
  }

  /** The webhook never answers a verified notification, so App Store keeps
      redelivering it; the handler's 200 for a duplicate is lost as well. */
  lemma VerifiedNotificationUnanswered(
    codec: Codec, crypto: Crypto, root: Cert, s: Store, signedPayload: Option<string>, m: bool)
    requires Prepare(codec, crypto, root, signedPayload).Some?
    requires Prepare(codec, crypto, root, signedPayload).value.0.Passed?
    ensures AppleNotificationRoute(codec, crypto, root, s, signedPayload, m).response == NoResponse
  {
  }

  /** The webhook as intended: the status the (corrected) handler sets is sent. */
  function AppleNotificationRouteCorrected(
    codec: Codec, crypto: Crypto, root: Cert, s: Store, signedPayload: Option<string>, mailerFails: bool)
    : (r: RouteResult)
    ensures signedPayload.None? ==> r == RouteResult(Sent(500), s, [])
    ensures r.response != NoResponse ==> r.response == Sent(200) || r.response == Sent(403) || r.response == Sent(500)
    ensures (r.response == Sent(403) || r.response == Sent(500)) && r.store != s ==>
      Prepare(codec, crypto, root, signedPayload).Some? && Prepare(codec, crypto, root, signedPayload).value.0.Passed?
    ensures r.response.NoResponse? ==>
      && Prepare(codec, crypto, root, signedPayload).Some?
      && Prepare(codec, crypto, root, signedPayload).value.0.Passed?
      && !Handles(Prepare(codec, crypto, root, signedPayload).value.1)
  {
    match Prepare(codec, crypto, root, signedPayload)
    case None => RouteResult(Sent(500), s, [])
    case Some((v, n)) =>
      if v.NotPassed? then RouteResult(Sent(403), s, [])
      else
        var h := HandleVerifiedAppStoreNotificationCorrected(s, n, v.transactionInfo, v.renewalInfo, mailerFails);
        RouteResult(if h.status.Some? then Sent(h.status.value) else NoResponse, h.store, h.emails)
  }

  /** With the response sent, a redelivered notification that is already in
      the ledger is acknowledged with 200 and changes nothing. */
  lemma CorrectedAcknowledgesDuplicate(
    codec: Codec, crypto: Crypto, root: Cert, s: Store, signedPayload: Option<string>, m: bool)
    requires Prepare(codec, crypto, root, signedPayload).Some?
    requires Prepare(codec, crypto, root, signedPayload).value.0.Passed?
    requires AlreadyProcessed(s.ledger, Prepare(codec, crypto, root, signedPayload).value.1.notificationUUID)
    ensures AppleNotificationRouteCorrected(codec, crypto, root, s, signedPayload, m) == RouteResult(Sent(200), s, [])
  {
  }

  // ---------------------------------------------------------------------------
  // Job routes
  // ---------------------------------------------------------------------------

  /** The outcome of a job route: the status sent and whether the job ran. */
  datatype JobOutcome = JobOutcome(status: int, jobRan: bool)

  /** The `aws-secret-key` check: strict equality of the header with the
      configured secret, where either may be absent. */
  predicate SecretMatches(header: Option<string>, configured: Option<string>) {
    header == configured
  }

  /** /api/handle-event-reminders and /api/handle-event-repeat: the job is
      awaited, so its failure is reported as 500. */
  function AwaitedJobRoute(header: Option<string>, configured: Option<string>, jobFails: bool): (r: JobOutcome)
    ensures r.jobRan <==> SecretMatches(header, configured)
    ensures r.status == 403 <==> !r.jobRan
    ensures r.jobRan ==> (r.status == 500 <==> jobFails)
  {
    if SecretMatches(header, configured) then JobOutcome(if jobFails then 500 else 200, true)
    else JobOutcome(403, false)
  }

  /** /api/send-routine-messages-and-emails-on-event-day: the job is started
      and not awaited, so 200 is sent whatever becomes of it. */
  function DetachedJobRoute(header: Option<string>, configured: Option<string>): (r: JobOutcome)
    ensures r.jobRan <==> SecretMatches(header, configured)
    ensures r.status == (if r.jobRan then 200 else 403)
  {
    if SecretMatches(header, configured) then JobOutcome(200, true) else JobOutcome(403, false)
  }

  /** The three job routes admit exactly the same requests. */
  lemma JobRoutesAgreeOnAccess(header: Option<string>, configured: Option<string>, jobFails: bool)
    ensures AwaitedJobRoute(header, configured, jobFails).jobRan == DetachedJobRoute(header, configured).jobRan
  {
  }

  /** When no secret is configured, a request that omits the header runs
      every job: absent equals absent. */
  lemma UnsetSecretOpensJobRoutes(jobFails: bool)
    ensures AwaitedJobRoute(None, None, jobFails).jobRan
    ensures DetachedJobRoute(None, None) == JobOutcome(200, true)
  {
  }
}
