/** Properties of the handlers taken together: what a sequence of requests
    can and cannot do to the users collection, and how a session issued by
    the controller meets the session gate. */
module AuthProperties {
  import opened Wrappers
  import opened Otp
  import opened Users
  import opened AuthController
  import opened UserAuth

  /** A request to one of the handlers that change the collection, with the
      time, random draw and mail outcome it meets. */
  datatype Request =
    | RegisterRequest(name: Option<string>, email: Option<string>, password: Option<string>,
                      newId: UserId, now: int, draw: int, smtpReady: bool)
    | SendVerifyOtpRequest(userId: UserId, now: int, draw: int, mail: Delivery)
    | VerifyEmailRequest(userId: UserId, otp: Option<string>, now: int)
    | SendResetOtpRequest(email: Option<string>, now: int, draw: int, mail: Delivery)
    | ResetPasswordRequest(email: Option<string>, otp: Option<string>, newPassword: Option<string>, now: int)

  /** What the environment guarantees a request: a draw in range, and a
      fresh non-empty id for a new user. */
  predicate Admissible(users: Store, req: Request) {
    match req
    case RegisterRequest(_, _, _, newId, _, draw, _) => 0 <= draw < Span && newId != "" && IdFree(users, newId)
    case SendVerifyOtpRequest(_, _, draw, _) => 0 <= draw < Span
    case SendResetOtpRequest(_, _, draw, _) => 0 <= draw < Span
    case _ => true
  }

  /** One request handled. */
  function Step(users: Store, defaults: SchemaDefaults, hash: string -> string, req: Request): (o: Outcome)
    requires WellFormed(users) && Admissible(users, req)
    ensures WellFormed(o.users)
  {
    match req
    case RegisterRequest(name, email, password, newId, now, draw, smtpReady) =>
      RegisterOutcome(users, defaults, name, email, password, hash, newId, now, draw, smtpReady)
    case SendVerifyOtpRequest(userId, now, draw, mail) => SendVerifyOtpOutcome(users, userId, now, draw, mail)
    case VerifyEmailRequest(userId, otp, now) => VerifyEmailOutcome(users, userId, otp, now)
    case SendResetOtpRequest(email, now, draw, mail) => SendResetOtpOutcome(users, email, now, draw, mail)
    case ResetPasswordRequest(email, otp, newPassword, now) =>
      ResetPasswordOutcome(users, email, otp, newPassword, hash, now)
  }

  /** Every request of the sequence is admissible when it arrives. */
  predicate AdmissibleRun(users: Store, defaults: SchemaDefaults, hash: string -> string, reqs: seq<Request>)
    requires WellFormed(users)
    decreases |reqs|
  {
    reqs == [] ||
    (Admissible(users, reqs[0]) && AdmissibleRun(Step(users, defaults, hash, reqs[0]).users, defaults, hash, reqs[1..]))
  }

  /** The collection after handling a sequence of requests one after another. */
  function Run(users: Store, defaults: SchemaDefaults, hash: string -> string, reqs: seq<Request>): Store
    requires WellFormed(users) && AdmissibleRun(users, defaults, hash, reqs)
    decreases |reqs|
  {
    if reqs == [] then users
    else Run(Step(users, defaults, hash, reqs[0]).users, defaults, hash, reqs[1..])
  }

  // ---------------------------------------------------------------------------
  // The shape of stored codes

  /** A code and its expiry are either both cleared (`""` and 0) or hold a
      pending six-digit code. */
  predicate CodeSlot(code: string, expireAt: int) {
    if code == "" then expireAt == 0 else IsCode(code)
  }

  /** Every stored verification and reset code pair is cleared or pending. */
  predicate CodesWellShaped(users: Store) {
    forall e | e in users ::
      CodeSlot(users[e].verifyOtp, users[e].verifyOtpExpireAt) && CodeSlot(users[e].resetOtp, users[e].resetOtpExpireAt)
  }

  /** The schema's default code pairs are cleared or pending. */
  predicate DefaultsWellShaped(d: SchemaDefaults) {
    CodeSlot(d.verifyOtp, d.verifyOtpExpireAt) && CodeSlot(d.resetOtp, d.resetOtpExpireAt)
  }

  /** One request keeps every stored code pair cleared or pending, provided
      the schema's own defaults are. */
  lemma StepKeepsCodesWellShaped(users: Store, defaults: SchemaDefaults, hash: string -> string, req: Request)
    requires WellFormed(users) && Admissible(users, req)
    requires DefaultsWellShaped(defaults)
    requires CodesWellShaped(users)
    ensures CodesWellShaped(Step(users, defaults, hash, req).users)
  {
  }

  /** Any sequence of requests keeps every stored code pair cleared or pending. */
  lemma {:induction false} RunKeepsCodesWellShaped(users: Store, defaults: SchemaDefaults, hash: string -> string,
                                                   reqs: seq<Request>)
    requires WellFormed(users) && AdmissibleRun(users, defaults, hash, reqs)
    requires DefaultsWellShaped(defaults)
    requires CodesWellShaped(users)
    ensures CodesWellShaped(Run(users, defaults, hash, reqs))
    decreases |reqs|
  {
    if reqs != [] {
      StepKeepsCodesWellShaped(users, defaults, hash, reqs[0]);
      RunKeepsCodesWellShaped(Step(users, defaults, hash, reqs[0]).users, defaults, hash, reqs[1..]);
    }
  }

  // ---------------------------------------------------------------------------
  // Accounts are never lost and verification is never undone

  /** Every user of `before` is still in `after`, under the same id, and an
      account verified in `before` is verified in `after`. */
  predicate KeepsAccounts(before: Store, after: Store) {
    forall e | e in before ::
      && e in after && after[e].id == before[e].id
      && (before[e].isAccountVerified ==> after[e].isAccountVerified)
  }

  /** Replacing one record by one with the same id that does not un-verify
      the account keeps every account. */
  lemma UpdateKeepsAccounts(before: Store, k: string, u: User)
    requires k in before && u.id == before[k].id
    requires before[k].isAccountVerified ==> u.isAccountVerified
    ensures KeepsAccounts(before, before[k := u])
  {
  }

  /** After one request every user is still stored, under the same id, and a
      verified account stays verified. */
  lemma StepKeepsAccounts(users: Store, defaults: SchemaDefaults, hash: string -> string, req: Request)
    requires WellFormed(users) && Admissible(users, req)
    ensures KeepsAccounts(users, Step(users, defaults, hash, req).users)
  {
    match req
    case RegisterRequest(name, email, password, newId, now, draw, smtpReady) =>
      var o := RegisterOutcome(users, defaults, name, email, password, hash, newId, now, draw, smtpReady);
      assert forall e | e in users :: e in o.users && o.users[e] == users[e];
    case SendVerifyOtpRequest(userId, now, draw, mail) =>
      var found := EmailWithId(users, userId);
      if found.Some? && !users[found.value].isAccountVerified {
        UpdateKeepsAccounts(users, found.value, IssueVerifyOtp(users[found.value], now, draw));
      }
    case VerifyEmailRequest(userId, otp, now) =>
      var found := EmailWithId(users, userId);
      if found.Some? {
        UpdateKeepsAccounts(users, found.value, ConsumeVerifyOtp(users[found.value]));
      }
    case SendResetOtpRequest(email, now, draw, mail) =>
      if Truthy(email) && email.value in users {
        UpdateKeepsAccounts(users, email.value, IssueResetOtp(users[email.value], now, draw));
      }
    case ResetPasswordRequest(email, otp, newPassword, now) =>
      if Truthy(email) && Truthy(newPassword) && email.value in users {
        UpdateKeepsAccounts(users, email.value, ConsumeResetOtp(users[email.value], hash(newPassword.value)));
      }
  }

  /** Over any sequence of requests every user is still stored, under the
      same id, and a verified account stays verified. */
  lemma {:induction false} RunKeepsAccounts(users: Store, defaults: SchemaDefaults, hash: string -> string,
                                            reqs: seq<Request>)
    requires WellFormed(users) && AdmissibleRun(users, defaults, hash, reqs)
    ensures KeepsAccounts(users, Run(users, defaults, hash, reqs))
    decreases |reqs|
  {
    if reqs != [] {
      var next := Step(users, defaults, hash, reqs[0]).users;
      StepKeepsAccounts(users, defaults, hash, reqs[0]);
      RunKeepsAccounts(next, defaults, hash, reqs[1..]);
    }
  }

  /** The only request that turns a stored, unverified account into a
      verified one is a verification carrying that account's current code
      before it expires. */
  lemma VerificationNeedsLiveCode(users: Store, defaults: SchemaDefaults, hash: string -> string, req: Request, e: string)
    requires WellFormed(users) && Admissible(users, req)
    requires e in users && !users[e].isAccountVerified
    requires Step(users, defaults, hash, req).users[e].isAccountVerified
    ensures req.VerifyEmailRequest? && req.userId == users[e].id
    ensures users[e].verifyOtp != "" && req.otp == Some(users[e].verifyOtp)
    ensures req.now <= users[e].verifyOtpExpireAt
  {
  }

  /** The only request that changes a stored password hash is a reset
      carrying that account's current reset code before it expires, and the
      new hash is that of the new password. */
  lemma PasswordChangeNeedsLiveCode(users: Store, defaults: SchemaDefaults, hash: string -> string, req: Request, e: string)
    requires WellFormed(users) && Admissible(users, req)
    requires e in users
    requires Step(users, defaults, hash, req).users[e].password != users[e].password
    ensures req.ResetPasswordRequest? && req.email == Some(e)
    ensures users[e].resetOtp != "" && req.otp == Some(users[e].resetOtp)
    ensures req.now <= users[e].resetOtpExpireAt
    ensures req.newPassword.Some? && Step(users, defaults, hash, req).users[e].password == hash(req.newPassword.value)
  {
  }

  // ---------------------------------------------------------------------------
  // One-time codes

  /** A verification code works once: replaying the request that consumed it
      is answered "Invalid OTP" and changes nothing. */
  lemma VerifyEmailReplayRejected(users: Store, userId: UserId, otp: Option<string>, now: int, later: int)
    requires WellFormed(users)
    requires VerifyEmailOutcome(users, userId, otp, now).reply.success
    ensures var after := VerifyEmailOutcome(users, userId, otp, now).users;
            VerifyEmailOutcome(after, userId, otp, later) == Outcome(Failure(InvalidOtp), after)
  {
  }

  /** A reset code works once: replaying the reset is answered "Invalid OTP"
      and leaves the new password in place. */
  lemma ResetPasswordReplayRejected(users: Store, email: Option<string>, otp: Option<string>,
                                    newPassword: Option<string>, hash: string -> string, now: int,
                                    otherPassword: Option<string>, later: int)
    requires WellFormed(users)
    requires ResetPasswordOutcome(users, email, otp, newPassword, hash, now).reply.success
    requires Truthy(otherPassword)
    ensures var after := ResetPasswordOutcome(users, email, otp, newPassword, hash, now).users;
            ResetPasswordOutcome(after, email, otp, otherPassword, hash, later) == Outcome(Failure(InvalidOtp), after)
  {
  }

  /** Only the latest verification code is live: after a second code is
      issued, the first one (when the draws differ) is rejected as invalid. */
  lemma ReissuedVerifyOtpSupersedes(users: Store, userId: UserId, t1: int, n1: int, m1: Delivery,
                                    t2: int, n2: int, m2: Delivery, now: int)
    requires WellFormed(users)
    requires 0 <= n1 < Span && 0 <= n2 < Span && n1 != n2
    requires !IdFree(users, userId) && !users[EmailWithId(users, userId).value].isAccountVerified
    ensures var first := SendVerifyOtpOutcome(users, userId, t1, n1, m1).users;
            var second := SendVerifyOtpOutcome(first, userId, t2, n2, m2).users;
            VerifyEmailOutcome(second, userId, Some(OtpCode(n1)), now).reply == Failure(InvalidOtp)
  {
  }

  /** A code whose expiry equals the current time is still accepted, by
      both flows. */
  lemma ExpiryIsStrict(users: Store, e: string, hash: string -> string, newPassword: string)
    requires WellFormed(users) && e in users && newPassword != ""
    ensures var u := users[e];
            u.verifyOtp != "" ==>
              VerifyEmailOutcome(users, u.id, Some(u.verifyOtp), u.verifyOtpExpireAt).reply.success
    ensures var u := users[e];
            u.resetOtp != "" ==>
              ResetPasswordOutcome(users, Some(e), Some(u.resetOtp), Some(newPassword), hash, u.resetOtpExpireAt).reply.success
  {
  }

  /** A freshly issued code verifies the account right up to its expiry,
      five minutes after it was issued, and is "OTP Expired" one
      millisecond later. */
  lemma IssuedVerifyOtpLifetime(users: Store, userId: UserId, t: int, n: int, mail: Delivery)
    requires WellFormed(users)
    requires 0 <= n < Span
    requires !IdFree(users, userId) && !users[EmailWithId(users, userId).value].isAccountVerified
    ensures var issued := SendVerifyOtpOutcome(users, userId, t, n, mail).users;
            && VerifyEmailOutcome(issued, userId, Some(OtpCode(n)), t + VerifyOtpTtl).reply.success
            && VerifyEmailOutcome(issued, userId, Some(OtpCode(n)), t + VerifyOtpTtl + 1).reply == Failure(OtpExpired)
  {
  }

  // ---------------------------------------------------------------------------
  // Sessions

  /** After a successful reset, a login to that account succeeds exactly when
      the hash comparison accepts the attempt against the new hash; otherwise
      it fails with "Invalid password". No property of `hash` or `compare` is
      assumed. */
  lemma ResetThenLogin(users: Store, email: Option<string>, otp: Option<string>,
                       newPassword: Option<string>, hash: string -> string,
                       compare: (string, string) -> bool, now: int, attempt: string)
    requires WellFormed(users)
    requires ResetPasswordOutcome(users, email, otp, newPassword, hash, now).reply.success
    requires attempt != ""
    ensures var after := ResetPasswordOutcome(users, email, otp, newPassword, hash, now).users;
            LoginReply(after, email, Some(attempt), compare)
            == if compare(attempt, hash(newPassword.value)) then Reply(true, LoginSuccessful, Some(users[email.value].id))
               else Failure(InvalidPassword)
  {
  }

  /** The same, for a comparison that accepts exactly the hashed password
      (an idealised hash): only the new password logs in, and any other,
      the old one included, fails with "Invalid password". */
  lemma ResetInvalidatesOldPassword(users: Store, email: Option<string>, otp: Option<string>,
                                    newPassword: Option<string>, hash: string -> string,
                                    compare: (string, string) -> bool, now: int, attempt: string)
    requires WellFormed(users)
    requires forall p, q :: compare(p, hash(q)) <==> p == q
    requires ResetPasswordOutcome(users, email, otp, newPassword, hash, now).reply.success
    requires attempt != ""
    ensures var after := ResetPasswordOutcome(users, email, otp, newPassword, hash, now).users;
            LoginReply(after, email, Some(attempt), compare).success <==> attempt == newPassword.value
    ensures var after := ResetPasswordOutcome(users, email, otp, newPassword, hash, now).users;
            attempt != newPassword.value ==> LoginReply(after, email, Some(attempt), compare) == Failure(InvalidPassword)
  {
  }

  /** A session issued by a successful login names the user who logged in,
      and the token signed over it passes the session gate with that id. */
  lemma LoginSessionPasses(users: Store, email: Option<string>, password: Option<string>,
                           compare: (string, string) -> bool, sign: Claims -> string, verify: string -> Verification)
    requires WellFormed(users)
    requires LoginReply(users, email, password, compare).success
    requires forall c :: sign(c) != "" && verify(sign(c)) == Decoded(c)
    ensures var id := LoginReply(users, email, password, compare).session.value;
            && id == users[email.value].id
            && Authenticate(Some(sign(Claims(Some(id)))), verify) == Pass(id)
  {
  }

  /** A successful registration stores the account under the new id and
      issues a session for it; logging in with the same password then
      succeeds with that id, provided the comparison accepts the hash of the
      password. */
  lemma RegisterThenLogin(users: Store, defaults: SchemaDefaults, name: Option<string>, email: Option<string>,
                          password: Option<string>, hash: string -> string, compare: (string, string) -> bool,
                          newId: UserId, now: int, draw: int, smtpReady: bool)
    requires WellFormed(users) && 0 <= draw < Span && newId != "" && IdFree(users, newId)
    requires forall p :: compare(p, hash(p))
    requires RegisterOutcome(users, defaults, name, email, password, hash, newId, now, draw, smtpReady).reply.success
    ensures var after := RegisterOutcome(users, defaults, name, email, password, hash, newId, now, draw, smtpReady).users;
            && EmailWithId(after, newId) == email
            && LoginReply(after, email, password, compare) == Reply(true, LoginSuccessful, Some(newId))
  {
  }
}
