/** The password-reset and email-verification flag machines: the token and
    code issuing methods of models/User.js and the steps of
    controllers/users/verifyResetPasswordCode.js, resetPassword.js and
    verifyEmail.js.

    SHA-256 and bcrypt are the functions of a `Hashing` record; the random
    token and the draws behind the five-digit code are parameters; `now` is
    the current time in milliseconds. The users collection is a sequence and
    `findOne` returns the first match in it. */
module Accounts {
  import opened Wrappers
  import opened Seqs
  import opened Misc
  import opened Users

  datatype Hashing = Hashing(
    sha256Hex: string -> string,
    bcryptHash: string -> string,
    bcryptCompare: (string, string) -> bool)

  /** Ten minutes, the lifetime of a reset or verification session. */
  const SessionMs: int := 10 * 60 * 1000

  /** Length of the numeric code sent by email. */
  const CodeLength: int := 5

  /** `comfirmPassword`: bcrypt comparison against the stored hash, or against
      the empty string when the user has none. */
  function ComfirmPassword(h: Hashing, u: User, password: string): (ok: bool)
    ensures u.password.None? ==> ok == h.bcryptCompare(password, "")
    ensures u.password.Some? ==> ok == h.bcryptCompare(password, u.password.value)
  {
    h.bcryptCompare(password, if u.password.Some? then u.password.value else "")
  }

  /** A token and code handed to the user, and the user document that keeps
      their traces. */
  datatype Issued = Issued(user: User, token: string, code: string)

  /** `handleResetPassword`: store the hash of a fresh token and a fresh code,
      expiring ten minutes from `now`, and clear the verified flag. */
  function HandleResetPassword(h: Hashing, u: User, token: string, rand: nat -> real, now: int): (r: Issued)
    requires forall i: nat :: 0.0 <= rand(i) < 1.0
    ensures r.token == token
    ensures r.user.resetPasswordToken == Some(h.sha256Hex(r.token))
    ensures r.user.resetPasswordCode == Some(r.code)
    ensures |r.code| == CodeLength && forall i :: 0 <= i < |r.code| ==> '1' <= r.code[i] <= '9'
    ensures r.user.resetPasswordExpire == Some(now + SessionMs)
    ensures r.user.isResetPasswordCodeVerified == Some(false)
    ensures r.user == u.(resetPasswordToken := r.user.resetPasswordToken,
                         resetPasswordCode := r.user.resetPasswordCode,
                         resetPasswordExpire := r.user.resetPasswordExpire,
                         isResetPasswordCodeVerified := r.user.isResetPasswordCodeVerified)
  {
    var code := RandomCode(CodeLength, rand);
    Issued(u.(resetPasswordToken := Some(h.sha256Hex(token)),
              resetPasswordExpire := Some(now + SessionMs),
              resetPasswordCode := Some(code),
              isResetPasswordCodeVerified := Some(false)),
           token, code)
  }

  /** `handleEmailVerification`: store the hash of a fresh token and a fresh
      code, expiring ten minutes from `now`. */
  function HandleEmailVerification(h: Hashing, u: User, token: string, rand: nat -> real, now: int): (r: Issued)
    requires forall i: nat :: 0.0 <= rand(i) < 1.0
    ensures r.token == token
    ensures r.user.verifyEmailToken == Some(h.sha256Hex(r.token))
    ensures r.user.verifyEmailCode == Some(r.code)
    ensures |r.code| == CodeLength && forall i :: 0 <= i < |r.code| ==> '1' <= r.code[i] <= '9'
    ensures r.user.verifyEmailExpire == Some(now + SessionMs)
    ensures r.user == u.(verifyEmailToken := r.user.verifyEmailToken,
                         verifyEmailCode := r.user.verifyEmailCode,
                         verifyEmailExpire := r.user.verifyEmailExpire)
  {
    var code := RandomCode(CodeLength, rand);
    Issued(u.(verifyEmailToken := Some(h.sha256Hex(token)),
              verifyEmailExpire := Some(now + SessionMs),
              verifyEmailCode := Some(code)),
           token, code)
  }

  /** The users collection after a handler, and the token it echoes back. */
  datatype Reply = Reply(users: seq<User>, token: Option<string>)

  /** `{ resetPasswordToken: hash, resetPasswordExpire: { $gt: now } }`. */
  predicate ResetSessionOpen(u: User, hash: string, now: int) {
    && u.resetPasswordToken == Some(hash)
    && u.resetPasswordExpire.Some? && u.resetPasswordExpire.value > now
  }

  function FindResetSession(users: seq<User>, hash: string, now: int): Option<nat> {
    FindFirst(users, (u: User) => ResetSessionOpen(u, hash, now))
  }

  const InvalidToken: string := "Invalid token"
  const IncorrectCode: string := "Incorrect code"
  const CodeNotVerified: string := "Reset password code not yet verified"

  /** verifyResetPasswordCode.js as written: the module never obtains a
      `crypto` with `createHash`, so hashing the token throws before any
      look-up, whatever the arguments. */
  function VerifyResetPasswordCodeAsWritten(users: seq<User>, token: string, code: string, now: int): (r: Outcome<Reply>)
    ensures r.Thrown?
  {
    Thrown("crypto.createHash is not a function")
  }

  /** verifyResetPasswordCode.js with the hash available: the open session
      for the token's hash must hold the given code; the code is then marked
      verified and the token echoed back. */
  function VerifyResetPasswordCode(h: Hashing, users: seq<User>, token: string, code: string, now: int): (r: Outcome<Reply>)
    ensures FindResetSession(users, h.sha256Hex(token), now).None? ==> r == Fail(400, InvalidToken)
    ensures r.Ok? <==>
      && FindResetSession(users, h.sha256Hex(token), now).Some?
      && users[FindResetSession(users, h.sha256Hex(token), now).value].resetPasswordCode == Some(code)
    ensures r.Ok? ==>
      var i := FindResetSession(users, h.sha256Hex(token), now).value;
      && r.value.token == Some(token)
      && r.value.users == users[i := users[i].(isResetPasswordCodeVerified := Some(true))]
    ensures !r.Thrown?
    ensures r.Fail? ==> r.status == 400 && (r.message == InvalidToken || r.message == IncorrectCode)
  {
    match FindResetSession(users, h.sha256Hex(token), now)
    case None => Fail(400, InvalidToken)
    case Some(i) =>
      if users[i].resetPasswordCode != Some(code) then Fail(400, IncorrectCode)
      else Ok(Reply(users[i := users[i].(isResetPasswordCodeVerified := Some(true))], Some(token)))
  }

  /** resetPassword.js: the open session for the token's hash must have its
      code verified; the new password's hash is stored and the whole session
      (token, expiry, code, flag) is cleared. */
  function ResetPassword(h: Hashing, users: seq<User>, token: string, password: string, now: int): (r: Outcome<Reply>)
    ensures FindResetSession(users, h.sha256Hex(token), now).None? ==> r == Fail(400, InvalidToken)
    ensures r.Ok? <==>
      && FindResetSession(users, h.sha256Hex(token), now).Some?
      && users[FindResetSession(users, h.sha256Hex(token), now).value].isResetPasswordCodeVerified == Some(true)
    ensures r.Ok? ==>
      var i := FindResetSession(users, h.sha256Hex(token), now).value;
      && |r.value.users| == |users|
      && r.value.users[i].password == Some(h.bcryptHash(password))
      && r.value.users[i].resetPasswordToken.None? && r.value.users[i].resetPasswordExpire.None?
      && r.value.users[i].resetPasswordCode.None? && r.value.users[i].isResetPasswordCodeVerified.None?
      && (forall j :: 0 <= j < |users| && j != i ==> r.value.users[j] == users[j])
    ensures !r.Thrown?
    ensures r.Fail? ==> r.status == 400 && (r.message == InvalidToken || r.message == CodeNotVerified)
  {
    match FindResetSession(users, h.sha256Hex(token), now)
    case None => Fail(400, InvalidToken)
    case Some(i) =>
      if users[i].isResetPasswordCodeVerified != Some(true) then Fail(400, CodeNotVerified)
      else
        var u := users[i].(password := Some(h.bcryptHash(password)),
                           resetPasswordToken := None, resetPasswordExpire := None,
                           resetPasswordCode := None, isResetPasswordCodeVerified := None);
        Ok(Reply(users[i := u], None))
  }

  /** After a successful reset the user's session is gone: no token, at any
      later time, opens it again. */
  lemma ResetSessionClosed(h: Hashing, users: seq<User>, token: string, password: string, now: int, anyHash: string, later: int)
    requires ResetPassword(h, users, token, password, now).Ok?
    ensures var i := FindResetSession(users, h.sha256Hex(token), now).value;
      var users' := ResetPassword(h, users, token, password, now).value.users;
      && !ResetSessionOpen(users'[i], anyHash, later)
      && FindResetSession(users', anyHash, later) != Some(i)
  {
  }

  /** A freshly issued reset session cannot be used to reset the password
      before its code has been verified. */
  lemma FreshSessionNeedsCode(h: Hashing, users: seq<User>, i: nat, token: string, rand: nat -> real,
                              issuedAt: int, now: int, password: string)
    requires forall k: nat :: 0.0 <= rand(k) < 1.0
    requires i < |users| && issuedAt <= now < issuedAt + SessionMs
    requires forall j :: 0 <= j < i ==> !ResetSessionOpen(users[j], h.sha256Hex(token), now)
    ensures var users' := users[i := HandleResetPassword(h, users[i], token, rand, issuedAt).user];
      ResetPassword(h, users', token, password, now) == Fail(400, CodeNotVerified)
  {
    var users' := users[i := HandleResetPassword(h, users[i], token, rand, issuedAt).user];
    assert ResetSessionOpen(users'[i], h.sha256Hex(token), now);
    assert FindResetSession(users', h.sha256Hex(token), now) == Some(i) by {
      forall j | 0 <= j < i ensures !ResetSessionOpen(users'[j], h.sha256Hex(token), now) {
        assert users'[j] == users[j];
      }
    }
  }

  /** The whole flow inside the ten minutes: issue a token and code, verify
      the code, then reset; the new password is stored and the session is
      cleared. */
  lemma ResetFlowSucceeds(h: Hashing, users: seq<User>, i: nat, token: string, rand: nat -> real,
                          issuedAt: int, verifiedAt: int, resetAt: int, password: string)
    requires forall k: nat :: 0.0 <= rand(k) < 1.0
    requires i < |users| && issuedAt <= verifiedAt <= resetAt < issuedAt + SessionMs
    requires forall j :: 0 <= j < i ==> users[j].resetPasswordToken != Some(h.sha256Hex(token))
    ensures var issued := HandleResetPassword(h, users[i], token, rand, issuedAt);
      var v := VerifyResetPasswordCode(h, users[i := issued.user], token, issued.code, verifiedAt);
      && v.Ok?
      && ResetPassword(h, v.value.users, token, password, resetAt).Ok?
      && ResetPassword(h, v.value.users, token, password, resetAt).value.users[i].password == Some(h.bcryptHash(password))
  {
    var issued := HandleResetPassword(h, users[i], token, rand, issuedAt);
    var s1 := users[i := issued.user];
    var hash := h.sha256Hex(token);
    assert FindResetSession(s1, hash, verifiedAt) == Some(i) by {
      assert ResetSessionOpen(s1[i], hash, verifiedAt);
      forall j | 0 <= j < i ensures !ResetSessionOpen(s1[j], hash, verifiedAt) {
        assert s1[j] == users[j];
      }
    }
    var v := VerifyResetPasswordCode(h, s1, token, issued.code, verifiedAt);
    var s2 := v.value.users;
    assert FindResetSession(s2, hash, resetAt) == Some(i) by {
      assert ResetSessionOpen(s2[i], hash, resetAt);
      forall j | 0 <= j < i ensures !ResetSessionOpen(s2[j], hash, resetAt) {
        assert s2[j] == users[j];
      }
    }
  }

  // ---------------------------------------------------------------------------
  // verifyEmail
  // ---------------------------------------------------------------------------

  const SessionExpired: string := "Registeration session expired."
  const EmailTaken: string := "Email taken."
  const IncorrectEmailCode: string := "Incorrect code."

  function FindVerification(users: seq<User>, hash: string): Option<nat> {
    FindFirst(users, (u: User) => u.verifyEmailToken == Some(hash))
  }

  /** Some user (possibly the one verifying) has completed signup with `email`. */
  predicate EmailTakenBy(users: seq<User>, email: string) {
    exists j :: 0 <= j < |users| && users[j].email == email && users[j].isSignupCompleted
  }

  /** The TTL index on `verifyEmailExpire` (600 seconds): MongoDB deletes a
      user document once that long has passed since the stored date. */
  const VerifyTtlMs: int := 600 * 1000

  predicate TtlExpired(u: User, now: int) {
    u.verifyEmailExpire.Some? && now >= u.verifyEmailExpire.value + VerifyTtlMs
  }

  function Unexpired(now: int): User -> bool {
    (u: User) => !TtlExpired(u, now)
  }

  /** The users collection as it stands at `now`: the documents the TTL index
      has removed are gone, the others keep their order. */
  function Live(users: seq<User>, now: int): (r: seq<User>)
    ensures forall u :: u in r <==> u in users && !TtlExpired(u, now)
    ensures IsSubsequence(r, users)
  {
    Filter(users, Unexpired(now))
  }

  /** verifyEmail.js at time `now`: the user holding the token's hash must not
      have an email already used by a completed signup, and must hold the
      given code; then only `isEmailVerified` is set. The handler itself does
      not consult the expiry, but a user whose expiry is ten minutes past is
      no longer in the collection. */
  function VerifyEmail(h: Hashing, users: seq<User>, token: string, code: string, now: int): (r: Outcome<Reply>)
    ensures var live := Live(users, now);
      && (FindVerification(live, h.sha256Hex(token)).None? ==> r == Fail(400, SessionExpired))
      && (FindVerification(live, h.sha256Hex(token)).Some? ==>
            var i := FindVerification(live, h.sha256Hex(token)).value;
            && (EmailTakenBy(live, live[i].email) ==> r == Fail(400, EmailTaken))
            && (!EmailTakenBy(live, live[i].email) && live[i].verifyEmailCode != Some(code) ==> r == Fail(400, IncorrectEmailCode))
            && (r.Ok? <==> !EmailTakenBy(live, live[i].email) && live[i].verifyEmailCode == Some(code))
            && (r.Ok? ==> r.value == Reply(live[i := live[i].(isEmailVerified := true)], Some(token))))
    ensures !r.Thrown?
  {
    var live := Live(users, now);
    match FindVerification(live, h.sha256Hex(token))
    case None => Fail(400, SessionExpired)
    case Some(i) =>
      if EmailTakenBy(live, live[i].email) then Fail(400, EmailTaken)
      else if live[i].verifyEmailCode != Some(code) then Fail(400, IncorrectEmailCode)
      else Ok(Reply(live[i := live[i].(isEmailVerified := true)], Some(token)))
  }

  /** Ten minutes after its expiry date a verification can no longer be
      completed: when every holder of the token's hash is that old, the
      session is reported expired. */
  lemma ExpiredVerificationRefused(h: Hashing, users: seq<User>, token: string, code: string, now: int)
    requires forall j :: 0 <= j < |users| && users[j].verifyEmailToken == Some(h.sha256Hex(token)) ==> TtlExpired(users[j], now)
    ensures VerifyEmail(h, users, token, code, now) == Fail(400, SessionExpired)
  {
  }

  /** Issuing a verification and answering it with its code before the TTL
      removes the user verifies the email, when nobody else holds the hash
      or has completed signup with the email. */
  lemma IssueThenVerify(
    h: Hashing, users: seq<User>, i: nat, token: string, rand: nat -> real, issuedAt: int, now: int)
    requires forall k: nat :: 0.0 <= rand(k) < 1.0
    requires i < |users| && issuedAt <= now < issuedAt + SessionMs + VerifyTtlMs
    requires forall j :: 0 <= j < |users| && j != i ==> users[j].verifyEmailToken != Some(h.sha256Hex(token))
    requires !EmailTakenBy(users, users[i].email)
    ensures var issued := HandleEmailVerification(h, users[i], token, rand, issuedAt);
      var r := VerifyEmail(h, users[i := issued.user], token, issued.code, now);
      r.Ok? && issued.user.(isEmailVerified := true) in r.value.users
  {
    var issued := HandleEmailVerification(h, users[i], token, rand, issuedAt);
    var s1 := users[i := issued.user];
    var live := Live(s1, now);
    var hash := h.sha256Hex(token);
    assert issued.user in live by { assert s1[i] == issued.user; }
    var k := FindVerification(live, hash);
    var j :| 0 <= j < |live| && live[j] == issued.user;
    assert k.Some?;
    assert live[k.value] == issued.user by {
      assert live[k.value] in s1;
    }
    assert live[k.value := issued.user.(isEmailVerified := true)][k.value] == issued.user.(isEmailVerified := true);
  }

  /** A user who has already completed signup can never pass email
      verification: they take their own email. */
  lemma CompletedSignupCannotReverify(h: Hashing, users: seq<User>, token: string, code: string, now: int)
    requires FindVerification(Live(users, now), h.sha256Hex(token)).Some?
    requires Live(users, now)[FindVerification(Live(users, now), h.sha256Hex(token)).value].isSignupCompleted
    ensures VerifyEmail(h, users, token, code, now) == Fail(400, EmailTaken)
  {
    var live := Live(users, now);
    var i := FindVerification(live, h.sha256Hex(token)).value;
    assert live[i].email == live[i].email && live[i].isSignupCompleted;
  }
}
