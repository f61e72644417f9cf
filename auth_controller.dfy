/** The request handlers of the authentication controller: registration,
    login, and the two one-time-code flows (email verification and password
    reset). Each handler looks a user up, checks a fixed sequence of guards
    and then assigns a few fields of that user's record.

    The functions `*Outcome` state what a handler does to the collection and
    what it replies; the class `Controller` holds the collection and runs the
    handlers step by step, and each of its methods is proved to agree with the
    corresponding function. The current time, the random draw behind a code,
    password hashing and comparison, and the outcome of sending mail are
    parameters. */
module AuthController {
  import opened Wrappers
  import opened Otp
  import opened Users

  /** Lifetime of a verification code: five minutes, in milliseconds. */
  const VerifyOtpTtl: int := 5 * 60 * 1000
  /** Lifetime of a reset code: fifteen minutes, in milliseconds. */
  const ResetOtpTtl: int := 15 * 60 * 1000

  const MissingDetails := "Missing Details"
  const UserAlreadyExists := "User already exists"
  const Registered := "User registered successfully. OTP sent to email."
  const CredentialsRequired := "Email and password are required"
  const InvalidEmail := "Invalid email"
  const InvalidPassword := "Invalid password"
  const LoginSuccessful := "Login successful"
  const UserNotFound := "User not found"
  const AlreadyVerified := "Account already verified"
  const VerifyOtpSent := "Verification OTP sent to email"
  const OtpRequired := "OTP is required"
  const InvalidOtp := "Invalid OTP"
  const OtpExpired := "OTP Expired"
  const EmailVerified := "Email verified successfully"
  const EmailRequired := "Email is required"
  const ResetOtpSent := "OTP sent to your email"
  const ResetFieldsRequired := "Email, OTP, and new password are required"
  const PasswordWasReset := "Password has been reset successfully"

  /** The JSON reply `{ success, message }`; `session` is the `id` claim of the
      session token the reply sets as a cookie, if it sets one. */
  datatype Reply = Reply(success: bool, message: string, session: Option<UserId>)

  function Failure(message: string): Reply {
    Reply(false, message, None)
  }

  /** What `transporter.sendMail` did: delivered, or threw with this message. */
  datatype Delivery = Delivered | Undelivered(error: string)

  /** The reply of a handler and the collection after it. */
  datatype Outcome = Outcome(reply: Reply, users: Store)

  /** The record after a verification code is issued: only the code and its expiry change. */
  function IssueVerifyOtp(u: User, now: int, draw: int): (r: User)
    requires 0 <= draw < Span
    ensures IsCode(r.verifyOtp) && DecimalValue(r.verifyOtp) == Base + draw
    ensures r.verifyOtpExpireAt == now + VerifyOtpTtl
    ensures r == u.(verifyOtp := r.verifyOtp, verifyOtpExpireAt := r.verifyOtpExpireAt)
  {
    u.(verifyOtp := OtpCode(draw), verifyOtpExpireAt := now + VerifyOtpTtl)
  }

  /** The record after its verification code is consumed. */
  function ConsumeVerifyOtp(u: User): (r: User)
    ensures r.isAccountVerified && r.verifyOtp == "" && r.verifyOtpExpireAt == 0
    ensures r == u.(isAccountVerified := true, verifyOtp := r.verifyOtp, verifyOtpExpireAt := r.verifyOtpExpireAt)
  {
    u.(isAccountVerified := true, verifyOtp := "", verifyOtpExpireAt := 0)
  }

  /** The record after a reset code is issued: only the code and its expiry change. */
  function IssueResetOtp(u: User, now: int, draw: int): (r: User)
    requires 0 <= draw < Span
    ensures IsCode(r.resetOtp) && DecimalValue(r.resetOtp) == Base + draw
    ensures r.resetOtpExpireAt == now + ResetOtpTtl
    ensures r == u.(resetOtp := r.resetOtp, resetOtpExpireAt := r.resetOtpExpireAt)
  {
    u.(resetOtp := OtpCode(draw), resetOtpExpireAt := now + ResetOtpTtl)
  }

  /** The record after its reset code is consumed to set a new password hash. */
  function ConsumeResetOtp(u: User, hashed: string): (r: User)
    ensures r.password == hashed && r.resetOtp == "" && r.resetOtpExpireAt == 0
    ensures r == u.(password := hashed, resetOtp := r.resetOtp, resetOtpExpireAt := r.resetOtpExpireAt)
  {
    u.(password := hashed, resetOtp := "", resetOtpExpireAt := 0)
  }

  /** The reply a mail-sending handler gives once the record is saved. */
  function MailReply(mail: Delivery, sent: string): (r: Reply)
    ensures r.success <==> mail.Delivered?
    ensures r.session.None?
    ensures mail.Delivered? ==> r.message == sent
    ensures mail.Undelivered? ==> r.message == mail.error
  {
    if mail.Delivered? then Reply(true, sent, None) else Failure(mail.error)
  }

  /** `register`, followed by the store effect of `sendOtpAfterRegistration`,
      which issues a verification code only when the mail transport is ready
      and whose failures never reach the reply. */
  function RegisterOutcome(users: Store, defaults: SchemaDefaults,
                           name: Option<string>, email: Option<string>, password: Option<string>,
                           hash: string -> string, newId: UserId, now: int, draw: int, smtpReady: bool): (o: Outcome)
    requires WellFormed(users)
    requires 0 <= draw < Span
    requires newId != "" && IdFree(users, newId)
    ensures WellFormed(o.users)
    ensures o.reply.success <==> Truthy(name) && Truthy(email) && Truthy(password) && email.value !in users
    ensures !(Truthy(name) && Truthy(email) && Truthy(password)) ==> o == Outcome(Failure(MissingDetails), users)
    ensures Truthy(name) && Truthy(email) && Truthy(password) && email.value in users ==>
              o == Outcome(Failure(UserAlreadyExists), users)
    ensures o.reply.success ==>
              && o.reply == Reply(true, Registered, Some(newId))
              && o.users.Keys == users.Keys + {email.value}
              && (forall e | e in users :: o.users[e] == users[e])
              && var u := o.users[email.value];
                 && u.id == newId && u.name == name.value && u.email == email.value
                 && u.password == hash(password.value)
                 && u.isAccountVerified == defaults.isAccountVerified
                 && u.resetOtp == defaults.resetOtp && u.resetOtpExpireAt == defaults.resetOtpExpireAt
                 && (smtpReady ==> u.verifyOtp == OtpCode(draw) && u.verifyOtpExpireAt == now + VerifyOtpTtl)
                 && (!smtpReady ==> u.verifyOtp == defaults.verifyOtp && u.verifyOtpExpireAt == defaults.verifyOtpExpireAt)
  {
    if !(Truthy(name) && Truthy(email) && Truthy(password)) then
      Outcome(Failure(MissingDetails), users)
    else if email.value in users then
      Outcome(Failure(UserAlreadyExists), users)
    else
      var created := NewUser(newId, name.value, email.value, hash(password.value), defaults);
      var saved := if smtpReady then IssueVerifyOtp(created, now, draw) else created;
      Outcome(Reply(true, Registered, Some(newId)), users[email.value := saved])
  }

  /** `login`: the reply only; the collection is never changed. `compare`
      stands for `bcrypt.compare(plain, hash)`. */
  function LoginReply(users: Store, email: Option<string>, password: Option<string>,
                      compare: (string, string) -> bool): (r: Reply)
    ensures r.success <==>
              Truthy(email) && Truthy(password) && email.value in users
              && compare(password.value, users[email.value].password)
    ensures r.success ==> r == Reply(true, LoginSuccessful, Some(users[email.value].id))
    ensures !(Truthy(email) && Truthy(password)) ==> r == Failure(CredentialsRequired)
    ensures Truthy(email) && Truthy(password) && email.value !in users ==> r == Failure(InvalidEmail)
    ensures (Truthy(email) && Truthy(password) && email.value in users
             && !compare(password.value, users[email.value].password)) ==> r == Failure(InvalidPassword)
  {
    if !(Truthy(email) && Truthy(password)) then Failure(CredentialsRequired)
    else if email.value !in users then Failure(InvalidEmail)
    else if !compare(password.value, users[email.value].password) then Failure(InvalidPassword)
    else Reply(true, LoginSuccessful, Some(users[email.value].id))
  }

  /** `sendVerifyOtp`: an unverified user gets a fresh verification code that
      replaces any earlier one. The record is saved before the mail is sent,
      so a mail failure still leaves the new code in place. */
  function SendVerifyOtpOutcome(users: Store, userId: UserId, now: int, draw: int, mail: Delivery): (o: Outcome)
    requires WellFormed(users)
    requires 0 <= draw < Span
    ensures WellFormed(o.users)
    ensures o.reply.session.None?
    ensures IdFree(users, userId) ==> o == Outcome(Failure(UserNotFound), users)
    ensures forall e | e in users && users[e].id == userId ::
              if users[e].isAccountVerified then
                o == Outcome(Failure(AlreadyVerified), users)
              else
                && o.users == users[e := users[e].(verifyOtp := OtpCode(draw), verifyOtpExpireAt := now + VerifyOtpTtl)]
                && o.reply.success == mail.Delivered?
                && (mail.Delivered? ==> o.reply.message == VerifyOtpSent)
                && (mail.Undelivered? ==> o.reply.message == mail.error)
  {
    match EmailWithId(users, userId)
    case None => Outcome(Failure(UserNotFound), users)
    case Some(e) =>
      if users[e].isAccountVerified then Outcome(Failure(AlreadyVerified), users)
      else Outcome(MailReply(mail, VerifyOtpSent), users[e := IssueVerifyOtp(users[e], now, draw)])
  }

  /** `verifyEmail`: the guards run in the order code present, user found,
      code matches, code not expired; a wrong code is reported as such even
      when the stored code has also expired. Expiry is strict: a code whose
      expiry equals `now` is still accepted. */
  function VerifyEmailOutcome(users: Store, userId: UserId, otp: Option<string>, now: int): (o: Outcome)
    requires WellFormed(users)
    ensures WellFormed(o.users)
    ensures o.reply.session.None?
    ensures o.reply.success <==>
              Truthy(otp) && exists e | e in users && users[e].id == userId ::
                users[e].verifyOtp == otp.value && now <= users[e].verifyOtpExpireAt
    ensures !o.reply.success ==> o.users == users
    ensures !Truthy(otp) ==> o.reply.message == OtpRequired
    ensures Truthy(otp) && IdFree(users, userId) ==> o.reply.message == UserNotFound
    ensures Truthy(otp) ==> forall e | e in users && users[e].id == userId ::
              && (users[e].verifyOtp != otp.value ==> o.reply.message == InvalidOtp)
              && (users[e].verifyOtp == otp.value && users[e].verifyOtpExpireAt < now ==> o.reply.message == OtpExpired)
              && (o.reply.success ==>
                    && o.reply.message == EmailVerified
                    && o.users == users[e := users[e].(isAccountVerified := true, verifyOtp := "", verifyOtpExpireAt := 0)])
  {
    if !Truthy(otp) then Outcome(Failure(OtpRequired), users)
    else match EmailWithId(users, userId)
      case None => Outcome(Failure(UserNotFound), users)
      case Some(e) =>
        var u := users[e];
        if u.verifyOtp == "" || u.verifyOtp != otp.value then Outcome(Failure(InvalidOtp), users)
        else if u.verifyOtpExpireAt < now then Outcome(Failure(OtpExpired), users)
        else Outcome(Reply(true, EmailVerified, None), users[e := ConsumeVerifyOtp(u)])
  }

  /** `sendResetOtp`: a known email gets a fresh reset code; nothing but the
      reset code and its expiry changes. */
  function SendResetOtpOutcome(users: Store, email: Option<string>, now: int, draw: int, mail: Delivery): (o: Outcome)
    requires WellFormed(users)
    requires 0 <= draw < Span
    ensures WellFormed(o.users)
    ensures o.reply.session.None?
    ensures !Truthy(email) ==> o == Outcome(Failure(EmailRequired), users)
    ensures Truthy(email) && email.value !in users ==> o == Outcome(Failure(UserNotFound), users)
    ensures Truthy(email) && email.value in users ==>
              && o.users == users[email.value := users[email.value].(resetOtp := OtpCode(draw), resetOtpExpireAt := now + ResetOtpTtl)]
              && o.reply.success == mail.Delivered?
              && (mail.Delivered? ==> o.reply.message == ResetOtpSent)
              && (mail.Undelivered? ==> o.reply.message == mail.error)
  {
    if !Truthy(email) then Outcome(Failure(EmailRequired), users)
    else if email.value !in users then Outcome(Failure(UserNotFound), users)
    else Outcome(MailReply(mail, ResetOtpSent), users[email.value := IssueResetOtp(users[email.value], now, draw)])
  }

  /** `resetPassword`: with a matching, unexpired reset code the password
      hash is replaced and the code cleared; every failure leaves the
      collection, and so the password, as it was. */
  function ResetPasswordOutcome(users: Store, email: Option<string>, otp: Option<string>, newPassword: Option<string>,
                                hash: string -> string, now: int): (o: Outcome)
    requires WellFormed(users)
    ensures WellFormed(o.users)
    ensures o.reply.session.None?
    ensures o.reply.success <==>
              && Truthy(email) && Truthy(otp) && Truthy(newPassword) && email.value in users
              && users[email.value].resetOtp == otp.value && now <= users[email.value].resetOtpExpireAt
    ensures !o.reply.success ==> o.users == users
    ensures !(Truthy(email) && Truthy(otp) && Truthy(newPassword)) ==> o.reply.message == ResetFieldsRequired
    ensures Truthy(email) && Truthy(otp) && Truthy(newPassword) ==>
              && (email.value !in users ==> o.reply.message == UserNotFound)
              && (email.value in users && users[email.value].resetOtp != otp.value ==> o.reply.message == InvalidOtp)
              && ((email.value in users && users[email.value].resetOtp == otp.value
                   && users[email.value].resetOtpExpireAt < now) ==> o.reply.message == OtpExpired)
    ensures o.reply.success ==>
              && o.reply.message == PasswordWasReset
              && o.users == users[email.value := users[email.value].(password := hash(newPassword.value), resetOtp := "", resetOtpExpireAt := 0)]
  {
    if !(Truthy(email) && Truthy(otp) && Truthy(newPassword)) then Outcome(Failure(ResetFieldsRequired), users)
    else if email.value !in users then Outcome(Failure(UserNotFound), users)
    else
      var u := users[email.value];
      if u.resetOtp == "" || u.resetOtp != otp.value then Outcome(Failure(InvalidOtp), users)
      else if u.resetOtpExpireAt < now then Outcome(Failure(OtpExpired), users)
      else Outcome(Reply(true, PasswordWasReset, None), users[email.value := ConsumeResetOtp(u, hash(newPassword.value))])
  }

  /** The controller over the users collection. Handlers load a document,
      assign its fields and save it, as the server does. */
  class Controller {
    var users: Store
    const defaults: SchemaDefaults

    ghost predicate Valid()
      reads this
    {
      WellFormed(users)
    }

    constructor (defaults: SchemaDefaults)
      ensures Valid() && users == map[] && this.defaults == defaults
    {
      users := map[];
      this.defaults := defaults;
    }

    /** `userModel.findOne({ email })`. */
    method FindOne(email: string) returns (doc: UserDocument?)
      ensures doc == null <==> email !in users
      ensures doc != null ==> fresh(doc) && doc.Value() == users[email]
    {
      if email in users {
        doc := new UserDocument(users[email]);
      } else {
        doc := null;
      }
    }

    /** `userModel.findById(id)`. */
    method FindById(id: UserId) returns (doc: UserDocument?)
      requires Valid()
      ensures doc == null <==> IdFree(users, id)
      ensures doc != null ==> fresh(doc) && EmailWithId(users, id) == Some(doc.email) && doc.Value() == users[doc.email]
    {
      match EmailWithId(users, id)
      case None => doc := null;
      case Some(e) => doc := new UserDocument(users[e]);
    }

    /** `user.save()` of a document loaded from the collection. */
    method Save(doc: UserDocument)
      requires Valid() && doc.email in users && users[doc.email].id == doc.id
      modifies this
      ensures Valid() && users == old(users)[doc.email := doc.Value()]
    {
      users := users[doc.email := doc.Value()];
    }

    /** `user.save()` of a newly created document. */
    method Insert(doc: UserDocument)
      requires Valid() && doc.email !in users && doc.email != "" && doc.id != "" && IdFree(users, doc.id)
      modifies this
      ensures Valid() && users == old(users)[doc.email := doc.Value()]
    {
      users := users[doc.email := doc.Value()];
    }

    /** The store effect of `sendOtpAfterRegistration`: when the mail transport
        is ready a verification code is issued and saved; a failure to send it
        afterwards is swallowed. */
    method SendOtpAfterRegistration(user: UserDocument, now: int, draw: int, smtpReady: bool)
      requires Valid() && user.email in users && users[user.email] == user.Value()
      requires 0 <= draw < Span
      modifies this, user
      ensures Valid() && user.email in users && user.Value() == users[user.email]
      ensures users == if smtpReady then old(users)[user.email := IssueVerifyOtp(old(user.Value()), now, draw)]
                       else old(users)
    {
      if smtpReady {
        user.verifyOtp := OtpCode(draw);
        user.verifyOtpExpireAt := now + VerifyOtpTtl;
        Save(user);
      }
    }

    method Register(name: Option<string>, email: Option<string>, password: Option<string>,
                    hash: string -> string, newId: UserId, now: int, draw: int, smtpReady: bool)
      returns (reply: Reply)
      requires Valid()
      requires 0 <= draw < Span
      requires newId != "" && IdFree(users, newId)
      modifies this
      ensures Valid()
      ensures Outcome(reply, users)
              == RegisterOutcome(old(users), defaults, name, email, password, hash, newId, now, draw, smtpReady)
    {
      if !Truthy(name) || !Truthy(email) || !Truthy(password) {
        return Failure(MissingDetails);
      }
      var existing := FindOne(email.value);
      if existing != null {
        return Failure(UserAlreadyExists);
      }
      var user := new UserDocument(NewUser(newId, name.value, email.value, hash(password.value), defaults));
      Insert(user);
      SendOtpAfterRegistration(user, now, draw, smtpReady);
      reply := Reply(true, Registered, Some(user.id));
    }

    method Login(email: Option<string>, password: Option<string>, compare: (string, string) -> bool)
      returns (reply: Reply)
      ensures reply == LoginReply(users, email, password, compare)
    {
      if !Truthy(email) || !Truthy(password) {
        return Failure(CredentialsRequired);
      }
      var user := FindOne(email.value);
      if user == null {
        return Failure(InvalidEmail);
      }
      var isMatch := compare(password.value, user.password);
      if !isMatch {
        return Failure(InvalidPassword);
      }
      reply := Reply(true, LoginSuccessful, Some(user.id));
    }

    method SendVerifyOtp(userId: UserId, now: int, draw: int, mail: Delivery) returns (reply: Reply)
      requires Valid()
      requires 0 <= draw < Span
      modifies this
      ensures Valid()
      ensures Outcome(reply, users) == SendVerifyOtpOutcome(old(users), userId, now, draw, mail)
    {
      var user := FindById(userId);
      if user == null {
        return Failure(UserNotFound);
      }
      if user.isAccountVerified {
        return Failure(AlreadyVerified);
      }
      user.verifyOtp := OtpCode(draw);
      user.verifyOtpExpireAt := now + VerifyOtpTtl;
      Save(user);
      if mail.Undelivered? {
        return Failure(mail.error);
      }
      reply := Reply(true, VerifyOtpSent, None);
    }

    method VerifyEmail(userId: UserId, otp: Option<string>, now: int) returns (reply: Reply)
      requires Valid()
      modifies this
      ensures Valid()
      ensures Outcome(reply, users) == VerifyEmailOutcome(old(users), userId, otp, now)
    {
      if !Truthy(otp) {
        return Failure(OtpRequired);
      }
      var user := FindById(userId);
      if user == null {
        return Failure(UserNotFound);
      }
      if user.verifyOtp == "" || user.verifyOtp != otp.value {
        return Failure(InvalidOtp);
      }
      if user.verifyOtpExpireAt < now {
        return Failure(OtpExpired);
      }
      user.isAccountVerified := true;
      user.verifyOtp := "";
      user.verifyOtpExpireAt := 0;
      Save(user);
      reply := Reply(true, EmailVerified, None);
    }

    method SendResetOtp(email: Option<string>, now: int, draw: int, mail: Delivery) returns (reply: Reply)
      requires Valid()
      requires 0 <= draw < Span
      modifies this
      ensures Valid()
      ensures Outcome(reply, users) == SendResetOtpOutcome(old(users), email, now, draw, mail)
    {
      if !Truthy(email) {
        return Failure(EmailRequired);
      }
      var user := FindOne(email.value);
      if user == null {
        return Failure(UserNotFound);
      }
      user.resetOtp := OtpCode(draw);
      user.resetOtpExpireAt := now + ResetOtpTtl;
      Save(user);
      if mail.Undelivered? {
        return Failure(mail.error);
      }
      reply := Reply(true, ResetOtpSent, None);
    }

    method ResetPassword(email: Option<string>, otp: Option<string>, newPassword: Option<string>,
                         hash: string -> string, now: int) returns (reply: Reply)
      requires Valid()
      modifies this
      ensures Valid()
      ensures Outcome(reply, users) == ResetPasswordOutcome(old(users), email, otp, newPassword, hash, now)
    {
      if !Truthy(email) || !Truthy(otp) || !Truthy(newPassword) {
        return Failure(ResetFieldsRequired);
      }
      var user := FindOne(email.value);
      if user == null {
        return Failure(UserNotFound);
      }
      if user.resetOtp == "" || user.resetOtp != otp.value {
        return Failure(InvalidOtp);
      }
      if user.resetOtpExpireAt < now {
        return Failure(OtpExpired);
      }
      var hashedPassword := hash(newPassword.value);
      user.password := hashedPassword;
      user.resetOtp := "";
      user.resetOtpExpireAt := 0;
      Save(user);
      reply := Reply(true, PasswordWasReset, None);
    }
  }
}
