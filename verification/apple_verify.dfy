/** `verifyAndGetAppStoreTransactions` of services/AppleService.js: the x5c
    certificate chain of an App Store Server Notification must lead to the
    configured Apple root, and the leaf's key must verify both signed claims.

    X.509 parsing, signature checks, key export and JWT verification are not
    modelled: they are the functions of a `Crypto` record, and every property
    below holds for whatever those functions compute. */
module AppleVerify {
  import opened Wrappers

  /** A parsed certificate (`new X509Certificate(...)`). */
  datatype Cert = Cert(der: string)

  /** A certificate's public key. */
  datatype Key = Key(material: string)

  /** The claims of `signedTransactionInfo` the handler reads. Dates are
      milliseconds since the epoch. */
  datatype TransactionInfo = TransactionInfo(
    appAccountToken: Option<string>,
    transactionId: Option<string>,
    originalTransactionId: Option<string>,
    expiresDate: Option<int>,
    purchaseDate: Option<int>,
    productId: Option<string>)

  /** The claim of `signedRenewalInfo` the handler reads. */
  datatype RenewalInfo = RenewalInfo(autoRenewStatus: Option<int>)

  /** The JWS header: `alg` and `x5c` (absent, or not an array, is `None`). */
  datatype Header = Header(alg: Option<string>, x5c: Option<seq<string>>)

  /** `payload.data` of the decoded notification. */
  datatype PayloadData = PayloadData(
    signedTransactionInfo: Option<string>,
    signedRenewalInfo: Option<string>)

  /** The cryptographic primitives, each total; a `None` is the exception the
      primitive throws. */
  datatype Crypto = Crypto(
    parseCert: string -> Option<Cert>,
    checkIssued: (Cert, Cert) -> bool,
    verifySignature: (Cert, Key) -> bool,
    publicKey: Cert -> Key,
    jwkToPem: Key -> Option<string>,
    verifyTransaction: (string, string, Option<string>) -> Option<TransactionInfo>,
    verifyRenewal: (string, string, Option<string>) -> Option<RenewalInfo>)

  datatype Verification =
    | Passed(transactionInfo: TransactionInfo, renewalInfo: RenewalInfo)
    | NotPassed

  /** Decodes every x5c entry; one that does not parse makes the whole map throw. */
  function ParseAll(parse: string -> Option<Cert>, xs: seq<string>): (r: Option<seq<Cert>>)
    ensures r.Some? <==> forall i :: 0 <= i < |xs| ==> parse(xs[i]).Some?
    ensures r.Some? ==> |r.value| == |xs| && forall i :: 0 <= i < |xs| ==> r.value[i] == parse(xs[i]).value
    decreases |xs|
  {
    if |xs| == 0 then Some([])
    else
      var init := ParseAll(parse, xs[..|xs| - 1]);
      var last := parse(xs[|xs| - 1]);
      if init.None? then
        assert forall i :: 0 <= i < |xs| - 1 ==> xs[..|xs| - 1][i] == xs[i];
        None
      else if last.None? then None
      else
        assert forall i :: 0 <= i < |xs| - 1 ==> xs[..|xs| - 1][i] == xs[i];
        Some(init.value + [last.value])
  }

  /** The certificate whose key must verify `certs[i]`: the next one in the
      chain, and the root for the last. */
  function Issuer(certs: seq<Cert>, root: Cert, i: int): Cert
    requires 0 <= i < |certs|
  {
    if i + 1 < |certs| then certs[i + 1] else root
  }

  /** The chain of trust: non-empty, its last certificate issued by the root,
      and every certificate signed by the key of its issuer. */
  predicate ChainValid(c: Crypto, root: Cert, certs: seq<Cert>) {
    && |certs| >= 1
    && c.checkIssued(root, certs[|certs| - 1])
    && forall i :: 0 <= i < |certs| ==> c.verifySignature(certs[i], c.publicKey(Issuer(certs, root, i)))
  }

  /** The reference outcome of verification: the chain parses and is valid,
      the leaf's key exports to PEM, and both signed claims verify under it
      with the header's `alg`. Every other case is `NotPassed`. */
  function Verify(c: Crypto, root: Cert, header: Header, data: Option<PayloadData>): Verification {
    if header.x5c.None? then NotPassed
    else
      var certs := ParseAll(c.parseCert, header.x5c.value);
      if certs.None? || !ChainValid(c, root, certs.value) then NotPassed
      else
        var pem := c.jwkToPem(c.publicKey(certs.value[0]));
        if pem.None? || data.None? then NotPassed
        else if data.value.signedTransactionInfo.None? || data.value.signedRenewalInfo.None? then NotPassed
        else
          var tx := c.verifyTransaction(data.value.signedTransactionInfo.value, pem.value, header.alg);
          var rn := c.verifyRenewal(data.value.signedRenewalInfo.value, pem.value, header.alg);
          if tx.None? || rn.None? then NotPassed else Passed(tx.value, rn.value)
  }

  /** `verifyAndGetAppStoreTransactions` step by step: parse the certificates,
      check the root issued the last one, append the root, compute a status
      per certificate against its successor's key, reject on any `false`, then
      verify the two signed claims with the leaf's key. */
  method VerifyAndGetAppStoreTransactions(c: Crypto, root: Cert, header: Header, data: Option<PayloadData>)
    returns (v: Verification)
    ensures v == Verify(c, root, header, data)
    ensures v.Passed? ==> header.x5c.Some? && ParseAll(c.parseCert, header.x5c.value).Some?
    ensures v.Passed? ==> ChainValid(c, root, ParseAll(c.parseCert, header.x5c.value).value)
  {
    if header.x5c.None? {
      return NotPassed;
    }
    var x5c := header.x5c.value;
    var certs: seq<Cert> := [];
    var i := 0;
    while i < |x5c|
      invariant 0 <= i <= |x5c|
      invariant ParseAll(c.parseCert, x5c[..i]) == Some(certs)
    {
      var p := c.parseCert(x5c[i]);
      if p.None? {
        return NotPassed;
      }
      assert x5c[..i + 1][..i] == x5c[..i];
      certs := certs + [p.value];
      i := i + 1;
    }
    assert x5c[..|x5c|] == x5c;
    if |certs| == 0 {
      // checkIssued(undefined) throws
      return NotPassed;
    }
    if !c.checkIssued(root, certs[|certs| - 1]) {
      return NotPassed;
    }
    var chain := certs + [root];
    var statuses: seq<bool> := [];
    var j := 0;
    while j < |chain|
      invariant 0 <= j <= |chain|
      invariant |statuses| == j
      invariant forall k :: 0 <= k < j && k < |certs| ==>
        (statuses[k] <==> c.verifySignature(certs[k], c.publicKey(Issuer(certs, root, k))))
      invariant forall k :: |certs| <= k < j ==> statuses[k]
    {
      var status := if j >= |chain| - 1 then true else c.verifySignature(chain[j], c.publicKey(chain[j + 1]));
      statuses := statuses + [status];
      j := j + 1;
    }
    if false in statuses {
      return NotPassed;
    }
    assert forall k :: 0 <= k < |certs| ==> statuses[k];
    var pem := c.jwkToPem(c.publicKey(chain[0]));
    if pem.None? || data.None? {
      return NotPassed;
    }
    if data.value.signedTransactionInfo.None? || data.value.signedRenewalInfo.None? {
      return NotPassed;
    }
    var tx := c.verifyTransaction(data.value.signedTransactionInfo.value, pem.value, header.alg);
    if tx.None? {
      return NotPassed;
    }
    var rn := c.verifyRenewal(data.value.signedRenewalInfo.value, pem.value, header.alg);
    if rn.None? {
      return NotPassed;
    }
    v := Passed(tx.value, rn.value);
  }

  /** The two claims that pass, transaction and renewal, are exactly the ones
      the leaf certificate's key verified under the header's algorithm. */
  lemma ClaimsBoundToLeaf(c: Crypto, root: Cert, header: Header, data: Option<PayloadData>)
    requires Verify(c, root, header, data).Passed?
    ensures header.x5c.Some? && |header.x5c.value| >= 1
    ensures var leaf := c.parseCert(header.x5c.value[0]);
      && leaf.Some?
      && c.jwkToPem(c.publicKey(leaf.value)).Some?
      && data.Some? && data.value.signedTransactionInfo.Some? && data.value.signedRenewalInfo.Some?
      && Verify(c, root, header, data).transactionInfo
         == c.verifyTransaction(data.value.signedTransactionInfo.value,
                                c.jwkToPem(c.publicKey(leaf.value)).value, header.alg).value
      && Verify(c, root, header, data).renewalInfo
         == c.verifyRenewal(data.value.signedRenewalInfo.value,
                            c.jwkToPem(c.publicKey(leaf.value)).value, header.alg).value
  {
  }

  /** A certificate that its issuer's key does not verify sinks the notification,
      whatever its payload. */
  lemma BrokenLinkRejected(c: Crypto, root: Cert, header: Header, data: Option<PayloadData>, i: int)
    requires header.x5c.Some? && 0 <= i < |header.x5c.value|
    requires ParseAll(c.parseCert, header.x5c.value).Some?
    requires var certs := ParseAll(c.parseCert, header.x5c.value).value;
      !c.verifySignature(certs[i], c.publicKey(Issuer(certs, root, i)))
    ensures Verify(c, root, header, data) == NotPassed
  {
  }

  /** A chain the root did not issue is rejected, whatever its payload. */
  lemma ForeignRootRejected(c: Crypto, root: Cert, header: Header, data: Option<PayloadData>)
    requires header.x5c.Some? && |header.x5c.value| >= 1
    requires ParseAll(c.parseCert, header.x5c.value).Some?
    requires var certs := ParseAll(c.parseCert, header.x5c.value).value;
      !c.checkIssued(root, certs[|certs| - 1])
    ensures Verify(c, root, header, data) == NotPassed
  {
  }

  /** A header without certificates, or with an empty list, is rejected. */
  lemma NoCertificatesRejected(c: Crypto, root: Cert, header: Header, data: Option<PayloadData>)
    requires header.x5c.None? || header.x5c == Some([])
    ensures Verify(c, root, header, data) == NotPassed
  {
  }

  /** Trust is inherited upwards: dropping the leaf from a valid chain leaves
      a valid chain, so every certificate of an accepted chain leads to the root. */
  lemma {:induction false} ChainSuffixValid(c: Crypto, root: Cert, certs: seq<Cert>)
    requires ChainValid(c, root, certs) && |certs| >= 2
    ensures ChainValid(c, root, certs[1..])
  {
    var tail := certs[1..];
    assert tail[|tail| - 1] == certs[|certs| - 1];
    forall i | 0 <= i < |tail|
      ensures c.verifySignature(tail[i], c.publicKey(Issuer(tail, root, i)))
    {
      assert tail[i] == certs[i + 1];
      assert Issuer(tail, root, i) == Issuer(certs, root, i + 1);
    }
  }
}
