# Verified model of the MERN authentication server's account state machine

This project models the decision logic of an email/password authentication
server in Dafny:

- The request handlers of `server/controllers/authController.js`: registration,
  login, issuing and consuming the email-verification code, and issuing and
  consuming the password-reset code. Each handler looks up a user record, checks
  a fixed sequence of guards and assigns a few fields of the record before saving it.
- The session gate of `server/middleware/userAuth.js`. It decides whether a request
  with a token cookie reaches the protected handler, and with which user id.

Layout:

- `wrappers.dfy` (module `Wrappers`): `Option`, and the JavaScript truthiness of an
  optional string (absent or `""` is falsy).
- `otp.dfy` (module `Otp`): the six-digit codes. `String(Math.floor(100000 + Math.random() * 900000))`
  becomes `OtpCode(n)` for an integer draw `0 <= n < 900000`. For any random double `r` in `[0, 1)`,
  the floored value lies in 100000..999999, so it is `100000 + n` for some such `n`.
  Floating-point rounding decides which `n` a given `r` yields, but not the range of `n`,
  so the draw is a parameter. The module proves that the codes
  are exactly the six-digit strings with no leading zero, and that there is one per draw.
- `users.dfy` (module `Users`): the `User` record, the users collection as a
  map from email to record, the lookup by id, and `UserDocument`. A `UserDocument`
  is a loaded document whose fields a handler assigns in place before saving it.
- `auth_controller.dfy` (module `AuthController`): the reply messages, code lifetimes
  (5 and 15 minutes in milliseconds) and one function per handler. Each function
  (`RegisterOutcome`, `LoginReply`, ...) states the reply and the collection after the
  handler runs. The class `Controller` holds the collection. Its methods run the
  handlers step by step, like the server: look up, guard, assign document fields, save.
  Each method is proved equal to its function.
- `user_auth.dfy` (module `UserAuth`): the session gate as a total function from the token
  cookie and the outcome of token verification to `Reject401(message)` or `Pass(userId)`.
- `auth_properties.dfy` (module `AuthProperties`): properties across requests. These are:
  invariants over any sequence of requests, replay rejection, strict expiry, a
  re-issued code replacing the old one, a reset invalidating the old password, and
  login sessions passing the gate.

Parameters that stand for what the model does not compute:

- the current time `now`, for `Date.now()`;
- the random draw `n`, for `Math.random()`;
- `hash`, for `bcrypt.hash`;
- `compare`, for `bcrypt.compare`;
- `verify` and `sign`, for `jwt.verify` and `jwt.sign`;
- `Delivery`, the outcome of `transporter.sendMail`;
- `smtpReady`, the outcome of `transporter.verify()` when registration issues its first code;
- `newId`, the database id of a new user;
- `SchemaDefaults`, the defaults of the user schema. The schema file is not part of
  this model, so nothing is assumed about them.

`verifyEmail` and `resetPassword` check the code before the expiry, so a wrong code
gets "Invalid OTP" even when the stored code has expired
(server/controllers/authController.js:190-194 and :264-268).
`AuthController.VerifyEmailOutcome` and `AuthController.ResetPasswordOutcome` state this order.

A related observation: `otp` is checked for truthiness first, so the handlers' test
`user.verifyOtp === ""` can never decide the outcome on its own. An empty stored code
never equals a non-empty submitted one. The contracts therefore state "Invalid OTP"
simply as "stored code differs from the submitted one".

## Model

| member | source | states |
|---|---|---|
| Otp.DecimalString | server/controllers/authController.js:74 | `String(k)` of a non-negative integer is a non-empty digit string whose first digit is `0` exactly when `k` is zero |
| Otp.DecimalRoundTrip | server/controllers/authController.js:74 | reading back the decimal string of `k` gives `k` |
| Otp.DecimalLength | server/controllers/authController.js:74 | a number with `d + 1` decimal digits prints as `d + 1` characters |
| Otp.DecimalStringOfValue | server/controllers/authController.js:74 | a digit string with no leading zero is the decimal string of the number it denotes |
| Otp.OtpCode | server/controllers/authController.js:74 | the code for draw `n` in `[0, 900000)` is six digits, has no leading zero and denotes `100000 + n`, so it lies in 100000..999999 |
| Otp.OtpCodeInjective | server/controllers/authController.js:152 | two draws give the same code exactly when they are equal |
| Otp.CodeOfDraw | server/controllers/authController.js:225 | every six-digit string with no leading zero is the code of the draw `value - 100000` |
| Users.NewUser | server/controllers/authController.js:24 | the new document has the given id, name, email and password hash, and every other field takes the schema default |
| Users.UserDocument.constructor | server/controllers/authController.js:18 | a loaded document holds exactly the stored record it was loaded from |
| Users.UserDocument.Value | server/controllers/authController.js:25 | the record a document is saved as keeps its id and email and carries its current name, password, flag and code fields |
| Users.EmailWithId | server/controllers/authController.js:146 | `findById` finds the one user with that id, or reports that no user has it |
| AuthController.IssueVerifyOtp | server/controllers/authController.js:152-154 | issuing a verification code stores a six-digit code for the draw and an expiry of `now + 300000`, and changes no other field |
| AuthController.ConsumeVerifyOtp | server/controllers/authController.js:196-198 | consuming the verification code sets the verified flag, clears the code to `""` and the expiry to 0, and changes no other field |
| AuthController.IssueResetOtp | server/controllers/authController.js:225-227 | issuing a reset code stores a six-digit code for the draw and an expiry of `now + 900000`, and changes no other field |
| AuthController.ConsumeResetOtp | server/controllers/authController.js:270-273 | consuming the reset code stores the new hash, clears the code to `""` and the expiry to 0, and changes no other field |
| AuthController.MailReply | server/controllers/authController.js:168-174 | after the record is saved, the reply is a success exactly when the mail was delivered; otherwise its message is the mail error. It never sets a session |
| AuthController.RegisterOutcome | server/controllers/authController.js:11-95 | missing name, email or password gives "Missing Details"; a known email gives "User already exists"; in both cases nothing changes. Otherwise only the new email is added. Its record has the new id, name, hashed password and schema defaults, plus a fresh verification code expiring at `now + 300000` when the transport is ready. The reply is a success with a session for the new id |
| AuthController.LoginReply | server/controllers/authController.js:98-126 | success exactly when both fields are present, the email is known and the password compares equal to the stored hash, and then the session names that user. Otherwise the reply is "Email and password are required", "Invalid email" or "Invalid password", in that order |
| AuthController.SendVerifyOtpOutcome | server/controllers/authController.js:143-176 | an unknown id gives "User not found" and a verified account gives "Account already verified", with nothing changed. Otherwise only `verifyOtp` and `verifyOtpExpireAt = now + 300000` are overwritten, and they stay overwritten even when the mail fails, whose error becomes the reply |
| AuthController.VerifyEmailOutcome | server/controllers/authController.js:179-205 | success exactly when the code is present and equals the user's stored code, and `now <= verifyOtpExpireAt`. The guards run in the order "OTP is required", "User not found", "Invalid OTP" (even when expired), "OTP Expired". A failure changes nothing. A success sets only the verified flag and clears the code to `""` and the expiry to 0 |
| AuthController.SendResetOtpOutcome | server/controllers/authController.js:217-249 | a missing email gives "Email is required" and an unknown email gives "User not found", with nothing changed. Otherwise only `resetOtp` and `resetOtpExpireAt = now + 900000` change, and the password and verification fields are untouched |
| AuthController.ResetPasswordOutcome | server/controllers/authController.js:252-283 | success exactly when all three fields are present, the email is known, the reset code matches and `now <= resetOtpExpireAt`. The failures are, in order, "Email, OTP, and new password are required", "User not found", "Invalid OTP" and "OTP Expired", and each leaves the collection and the password unchanged. A success sets the password to `hash(newPassword)` and clears the reset code and expiry |
| AuthController.Controller.FindOne | server/controllers/authController.js:222 | a fresh document copying the record stored under the email, or null when there is none |
| AuthController.Controller.FindById | server/controllers/authController.js:187 | a fresh document copying the record with that id, or null when no user has it |
| AuthController.Controller.Save | server/controllers/authController.js:199 | the document's values replace its record, and nothing else changes |
| AuthController.Controller.Insert | server/controllers/authController.js:24-25 | the new document is added under its email and the collection stays well formed |
| AuthController.Controller.SendOtpAfterRegistration | server/controllers/authController.js:68-95 | when the transport is ready, the new user's record gets a fresh code expiring at `now + 300000`; otherwise nothing changes. Either way the document equals the stored record afterwards |
| AuthController.Controller.Register | server/controllers/authController.js:11-65 | the step-by-step handler gives exactly the reply and collection of `RegisterOutcome` |
| AuthController.Controller.Login | server/controllers/authController.js:98-126 | the step-by-step handler gives exactly the reply of `LoginReply` and changes nothing |
| AuthController.Controller.SendVerifyOtp | server/controllers/authController.js:143-176 | the step-by-step handler gives exactly the reply and collection of `SendVerifyOtpOutcome` |
| AuthController.Controller.VerifyEmail | server/controllers/authController.js:179-205 | the step-by-step handler gives exactly the reply and collection of `VerifyEmailOutcome` |
| AuthController.Controller.SendResetOtp | server/controllers/authController.js:217-249 | the step-by-step handler gives exactly the reply and collection of `SendResetOtpOutcome` |
| AuthController.Controller.ResetPassword | server/controllers/authController.js:252-283 | the step-by-step handler gives exactly the reply and collection of `ResetPasswordOutcome` |
| UserAuth.Authenticate | server/middleware/userAuth.js:3-21 | `next` is reached exactly when a token is present, verifies and carries an `id`, and then `req.user.id` is that id. No token, or claims without an id, give 401 "Not Authorized. Login Again"; a verification that throws gives 401 "Invalid or Expired Token. Login Again" |
| AuthProperties.StepKeepsCodesWellShaped | server/controllers/authController.js:152-154 | one request leaves every stored code pair either cleared (`""` with expiry 0) or holding a six-digit code, if every stored code pair is already of that form and the schema's default code pairs are too |
| AuthProperties.RunKeepsCodesWellShaped | server/controllers/authController.js:225-227 | if every stored code pair and the schema's default code pairs start out cleared (`""` with expiry 0) or holding a six-digit code, any sequence of requests keeps every stored code pair that way |
| AuthProperties.StepKeepsAccounts | server/controllers/authController.js:196 | one request removes no user, changes no id and never un-verifies an account |
| AuthProperties.RunKeepsAccounts | server/controllers/authController.js:196-199 | over any sequence of requests no user is removed, no id changes and verification is never undone |
| AuthProperties.VerificationNeedsLiveCode | server/controllers/authController.js:184-198 | the only request that verifies an unverified account is `verifyEmail` with that user's id and current non-empty code, before the code expires |
| AuthProperties.PasswordChangeNeedsLiveCode | server/controllers/authController.js:254-274 | the only request that changes a stored password is `resetPassword` for that email with its current non-empty reset code, before it expires, and the new value is the hash of the new password |
| AuthProperties.VerifyEmailReplayRejected | server/controllers/authController.js:190-198 | replaying a successful verification is answered "Invalid OTP" and changes nothing |
| AuthProperties.ResetPasswordReplayRejected | server/controllers/authController.js:264-273 | replaying a successful reset, with any non-empty new password, is answered "Invalid OTP" and changes nothing |
| AuthProperties.ReissuedVerifyOtpSupersedes | server/controllers/authController.js:152-154 | after a second code is issued, the first one, when different, is rejected as "Invalid OTP" |
| AuthProperties.ExpiryIsStrict | server/controllers/authController.js:193 | a matching code whose expiry equals the current time is accepted, for verification and for reset |
| AuthProperties.IssuedVerifyOtpLifetime | server/controllers/authController.js:154 | a newly issued verification code is accepted at `now + 300000` and is "OTP Expired" one millisecond later |
| AuthProperties.ResetThenLogin | server/controllers/authController.js:270-271 | after a successful reset, with no assumption on `hash` or `compare`: a login to that account with any non-empty attempt succeeds, with a session for its id, exactly when `compare` accepts the attempt against the new hash; otherwise it gives "Invalid password" |
| AuthProperties.ResetInvalidatesOldPassword | server/controllers/authController.js:270-271 | if `compare(p, hash(q))` holds exactly when `p == q` (an idealised hash), then after a successful reset only the new password logs in, and any other non-empty attempt gives "Invalid password" |
| AuthProperties.LoginSessionPasses | server/middleware/userAuth.js:10-17 | the session from a successful login names the logged-in user, and, if every signed token is non-empty and verifies back to the claims it was signed over, the token signed over it passes the gate with that id |
| AuthProperties.RegisterThenLogin | server/controllers/authController.js:23-29 | after a successful registration the new id finds the new email, and, if `compare` accepts the hash of the same password, logging in with the same password succeeds with a session for that id |

## Left out

- `logout` (server/controllers/authController.js:129-140) and `isAuthenticated` (server/controllers/authController.js:208-214): neither reads nor changes a user record, and their replies are constant.
- Exceptions from the database and from bcrypt, which the handlers catch and turn into `{ success: false, message: error.message }`. The collection operations of the model cannot fail.
- AuthController.RegisterOutcome: does not model `jwt.sign` throwing (for example with the signing secret unset). It runs after `user.save()` (server/controllers/authController.js:25-27), so `register` would then reply `{ success: false, message }` with the new user already stored. The model's "success exactly when the inputs are present and the email is new" assumes signing succeeds.
- `hash` is a function, but `bcrypt.hash` salts every call, so hashing the same password twice gives different strings. No proof depends on two hashes of one password being equal.
- AuthProperties.ResetInvalidatesOldPassword: its premise, that `compare` accepts exactly the hashed password, is an idealisation. bcryptjs uses only the first 72 bytes of a password, so a password sharing those bytes with the new one also logs in. `AuthProperties.ResetThenLogin` states the result without that premise.
- Email delivery: the mail contents, templates and the welcome mail are I/O. Only the outcome of `sendMail` is a parameter, and only where it reaches the reply.
- Password hashing and hash comparison are parameters (`hash`, `compare`). The handlers record only the `id` claim of the session token they set (`Reply.session`). Token signing is not computed by them, and the gate takes the outcome of token verification as a parameter. Token expiry (7 days) and the cookie options are configuration handled by those libraries.
- AuthController.LoginReply: assumes `jwt.sign` (server/controllers/authController.js:111) succeeds. If it throws, for example with the signing secret unset, the catch at :123-124 replies `{ success: false, message: error.message }` where the contract promises success. The collection is unchanged either way.
- Request bodies are modelled as optional strings. Non-string JSON values (numbers, objects) for `otp` or the other fields are not modelled.
- The wiring of the user id: `sendVerifyOtp` and `verifyEmail` read `req.body.userId`, while the gate sets `req.user.id`. The model takes the id as an explicit parameter.
- UserAuth.Authenticate: `next()` is called inside the gate's `try` block, so an exception thrown synchronously by the next handler would also produce the 401 "Invalid or Expired Token" reply. The downstream handlers are not part of this model.
- Two concurrent consumptions of the same code: the handlers are modelled as atomic, one request at a time.
- The user schema (`userModel`) is not part of this model. Its defaults are the `SchemaDefaults` parameter, so "a fresh account is unverified" holds only when the default verified flag is false.
- The client pages, the server bootstrap and the database connection contain no account logic.
