# mern-auth: account and one-time-code state machine

A Dafny model of the authentication core of the mern-auth server. It covers
the handlers in `server/controllers/authController.js` (register, login,
logout, is-auth, send-verify-otp, verify-account, send-reset-otp,
reset-password) and the `userAuth` gate in `server/middleware/userAuth.js`.
The handlers work on a store of account records. Each record has two
independent one-time-code slots: one for email verification, which lives
24 hours, and one for password reset, which lives 15 minutes. A correct,
unexpired code is accepted once and then cleared to `""`/`0`. The gate fails
closed and writes the token's account id into the request body.

Modules:

- `Http` (http.dfy): the request body as a string map, JavaScript truthiness
  (`undefined` and `""` are falsy), and the `{ success, message }` reply.
- `Hasher` (hasher.dfy): an idealised bcrypt. `Hash(p, salt)` is accepted by
  `Compare(q, _)` exactly when `q` and `p` agree on their first 72 units.
- `OtpCode` (otp_code.dfy): `String(n)` for the integer draw `n`, with its
  round trip. The codes are exactly the six-digit strings with no leading
  zero.
- `Accounts` (accounts.dfy): the record, the code slots by purpose, and the
  record-level steps (issue a code, confirm the email, apply a reset). Also
  the store invariant: the email index agrees with the records, so emails
  are unique, and every slot is either cleared or holds a generated code.
- `AuthController` (auth_controller.dfy): class `AuthService` holds the
  records (`users`) and the email index (`byEmail`). It has one method per
  handler.
- `Middleware` (middleware.dfy): the gate's decision as a function, the body
  injection, and the `UserAuth` method on a mutable `Request`.
- `AuthRoutes` (auth_routes.dfy): the routes, which of them are protected,
  and `Dispatch`, which runs the gate before a protected handler.
- `Scenarios` (scenarios.dfy): whole request sequences on a fresh store.

Inputs that stand for the outside world:

- the clock `now`, in milliseconds;
- the random draw `draw`, in 100000..999999, which is what
  `Math.floor(100000 + Math.random() * 900000)` yields;
- the bcrypt salt `salt`;
- the id `newId` the store gives a new record;
- the mail outcome `mailSent`;
- `jwt.verify`, as a function from the token to decoded claims or a thrown message.

Behaviour of the program worth knowing:

- Codes run from `"100000"` to `"999999"`. `String(n)` of the draw never has
  a leading zero, so `"000000"` to `"099999"` never occur
  (`OtpCode.GenerateCovers`).
- A mail that fails after the save is reported as a plain failure, and the
  change saved just before it stays.
- `resetPassword` answers an unknown email with "Invalid or Expired OTP",
  the same reply as a wrong or expired code.
- Nothing serialises the read, change and save steps of concurrent requests.
  The model runs one request at a time.

`server/models/userModel.js` is not part of this model. The field defaults
of a new record are taken to be `false`, `""` and `0`, the values the
controller clears the slots to.

## Model

| member | source | states |
|---|---|---|
| `Hasher.Hash` | server/controllers/authController.js:24 | the digest of a password accepts that password (`compare(p, hash(p))`) and records the salt drawn for it |
| `Hasher.CompareHash` | server/controllers/authController.js:66 | `compare(q, hash(p))` holds exactly when `q` and `p` agree on the part bcrypt reads; for passwords of at most 72 units, exactly when they are equal |
| `Hasher.Compare` | server/controllers/authController.js:66 | `bcrypt.compare` looks only at the first 72 units of a password: a longer password is accepted exactly when its 72-unit prefix is |
| `OtpCode.DecimalString` | server/controllers/authController.js:122 | `String(n)` yields a non-empty string of decimal digits |
| `OtpCode.DecimalRoundTrip` | server/controllers/authController.js:122 | reading back the decimal string of `n` gives `n` |
| `OtpCode.DecimalLength` | server/controllers/authController.js:122 | a number with `k + 1` digits has a decimal string of length `k + 1` |
| `OtpCode.DecimalLeadingDigit` | server/controllers/authController.js:122 | the decimal string of a positive number does not start with `'0'` |
| `OtpCode.DecimalValueInverse` | server/controllers/authController.js:122 | a digit string with no leading zero is the decimal string of its value, and the value lies within the powers of ten its length allows |
| `OtpCode.Generate` | server/controllers/authController.js:122 | the code for any draw in 100000..999999 has six decimal digits and no leading zero, and it reads back to the draw |
| `OtpCode.GenerateInjective` | server/controllers/authController.js:173 | two draws give the same code exactly when they are equal |
| `OtpCode.GenerateCovers` | server/controllers/authController.js:173 | every six-digit string without a leading zero is the code of the draw it denotes, and no other string is ever produced |
| `Accounts.NewAccount` | server/controllers/authController.js:25 | a new record keeps the given name, email and digest, is not verified, and has both code slots cleared to `""`/`0` (the assumed schema defaults), so it is valid |
| `Accounts.Accepts` | server/controllers/authController.js:150 | the negated guard of verifyEmail (and of resetPassword at line 200): a missing code, a code different from the stored one, and an expiry before `now` are each refused |
| `Accounts.WithSlot` | server/controllers/authController.js:123-124 | writing one purpose's slot sets that slot and leaves the other slot, the name, the email, the password and the verified flag unchanged |
| `Accounts.Issue` | server/controllers/authController.js:122-124 | issuing stores a generated six-digit code that expires at `now` plus the purpose's lifetime (86400000 ms or 900000 ms); the other slot and the profile stay |
| `Accounts.ConfirmEmail` | server/controllers/authController.js:154-156 | a confirmed account is verified and its verify slot is cleared to `""`/`0`; the reset slot, name, email and password stay |
| `Accounts.ApplyReset` | server/controllers/authController.js:204-206 | a reset installs the new digest and clears the reset slot to `""`/`0`; the verify slot, name, email and verified flag stay |
| `Accounts.IssuedCodeWindow` | server/controllers/authController.js:150 | a freshly issued code is accepted at instant `t` if and only if `t` is at most its expiry |
| `Accounts.IssueSupersedes` | server/controllers/authController.js:173-175 | after a second code is issued for a purpose, the first code is refused at every instant, unless the two draws coincide |
| `Accounts.SlotsIndependent` | server/controllers/authController.js:174-175 | issuing a code, confirming the email or resetting the password leaves what the other purpose's slot accepts unchanged |
| `Accounts.SpentCodeRejected` | server/controllers/authController.js:150-156 | once a code is spent, its slot accepts nothing at any positive instant, because the expiry was reset to 0 |
| `Accounts.OnlyIssuedCodesAccepted` | server/controllers/authController.js:200 | in a valid record at a positive instant, only a submitted six-digit generated code can be accepted; a missing or empty code never is |
| `Accounts.StepsKeepAccountValid` | server/controllers/authController.js:154-156 | issuing, confirming and resetting keep each slot either cleared or holding a generated code |
| `Accounts.EmailsUnique` | server/controllers/authController.js:19-22 | in a valid store, two accounts with the same email are the same account |
| `Accounts.InsertKeepsStoreValid` | server/controllers/authController.js:25-26 | adding a record under a fresh id and a fresh email keeps the index consistent; no existing record changes |
| `Accounts.UpdateKeepsStoreValid` | server/controllers/authController.js:125 | saving a record whose email did not change keeps the store valid |
| `AuthController.RegisterFieldsPresent` | server/controllers/authController.js:14 | the missing-details guard fails exactly when all three keys are present and non-empty |
| `AuthController.LoginFieldsPresent` | server/controllers/authController.js:56 | the missing-credentials guard fails exactly when both keys are present and non-empty |
| `Http.AfterMail` | server/controllers/authController.js:39-49 | the reply after a save followed by `sendMail` (also lines 127-140 and 178-191): it succeeds exactly when the mail went out, keeps the cookie action already taken, and a rejected mail becomes the caught error |
| `AuthController.AuthService.constructor` | server/controllers/authController.js:19 | a new store is empty and valid |
| `AuthController.AuthService.Register` | server/controllers/authController.js:11-50 | missing fields give "Missing details" and a known email gives "User already exists", both with no change. Otherwise one unverified record is added with the password's digest and indexed by its email, and the token cookie is set for it. A failed mail turns the reply into a failure but keeps the record |
| `AuthController.AuthService.Login` | server/controllers/authController.js:53-86 | succeeds, and sets the cookie for the account, if and only if both fields are present, the email is known and bcrypt accepts the password. Otherwise it answers "Email and Password are required", "Invalid Email" or "Invalid Password"; no record changes |
| `AuthController.AuthService.Logout` | server/controllers/authController.js:89-101 | always succeeds with "Logged Out", clears the cookie and changes no record |
| `AuthController.AuthService.IsAuthenticated` | server/controllers/authController.js:104-110 | always succeeds and changes no record |
| `AuthController.AuthService.SendVerifyOtp` | server/controllers/authController.js:113-141 | an unknown id fails with no change, and a verified account gets "Account already verified" with no change. Otherwise the account's verify slot is overwritten with a fresh code expiring in 24 h; a failed mail turns the reply into a failure but keeps the code |
| `AuthController.AuthService.VerifyEmail` | server/controllers/authController.js:144-163 | succeeds if and only if the account exists, the submitted code is strictly equal to the stored one and the expiry is not before `now`. Success marks the account verified and clears the slot; any failure leaves the store unchanged |
| `AuthController.AuthService.SendResetOtp` | server/controllers/authController.js:166-192 | an unknown email gives "User not found" with no change. Otherwise only the reset slot is overwritten, with a code expiring in 15 min; a failed mail turns the reply into a failure but keeps the code |
| `AuthController.AuthService.ResetPassword` | server/controllers/authController.js:195-213 | an unknown email, a wrong code or an expired code gives "Invalid or Expired OTP" with the password unchanged. A missing new password makes the hash throw, with no change. Otherwise the password becomes the new digest and the reset slot is cleared |
| `Middleware.Decide` | server/middleware/userAuth.js:4-29 | lets a request through if and only if there is a token, `jwt.verify` decodes it and the claims carry an id, and then only for that id. Otherwise it rejects with "Not Authorized. Logged In Again" or with the verifier's message |
| `Middleware.Inject` | server/middleware/userAuth.js:23-24 | the handler's body has `userId` equal to the token's id and every other key of the caller's body unchanged; an absent body counts as `{}` |
| `Middleware.Request.constructor` | server/middleware/userAuth.js:4 | a request carries the cookies and body it was built with |
| `Middleware.UserAuth` | server/middleware/userAuth.js:3-30 | on rejection `next` is not called and the body is untouched. On acceptance `next` is called exactly once and the body becomes the injected one |
| `Middleware.CallerUserIdOverwritten` | server/middleware/userAuth.js:24 | a `userId` chosen by the caller is always replaced by the token's id |
| `AuthRoutes.ServeProtected` | server/routes/authRoutes.js:20-27 | a protected handler changes no email index entry and no set of ids, and no account other than the one `body.userId` names |
| `AuthRoutes.ServePublic` | server/routes/authRoutes.js:18-19 | an unprotected handler keeps the store valid and never removes, re-addresses or un-verifies an account |
| `AuthRoutes.Dispatch` | server/routes/authRoutes.js:18-31 | a rejected protected request changes nothing and gets the gate's reply. An accepted protected request changes at most the token's own account and no email index entry. Every request keeps the store valid and never un-verifies an account |
| `Scenarios.EmailVerificationScenario` | server/controllers/authController.js:144-163 | after registering and requesting a code through the gate, the code verifies the account once, and replaying it fails with "Invalid or Expired OTP" |
| `Scenarios.MissingTokenScenario` | server/middleware/userAuth.js:6-11 | a request whose token cookie is missing or empty is rejected with "Not Authorized. Logged In Again", `next` is never called and the body stays as it came, whatever the body names and whatever the verifier would say |
| `Scenarios.PasswordResetScenario` | server/controllers/authController.js:195-213 | a reset code used 16 minutes after issue is refused and the old password still logs in. After a fresh code is used in time, the old password is refused and the new one logs in |
| `Scenarios.EmptyPasswordResetScenario` | server/controllers/authController.js:56-58 | a reset to the empty password succeeds, after which login refuses both the empty password, as missing, and the old one |

## Left out

- bcrypt internals: the salt's effect on the digest, the cost factor 10 and
  one-wayness are not modelled. `Hasher` keeps only which passwords a digest
  accepts. bcrypt reads the first 72 bytes of the UTF-8 encoding; the model
  reads the first 72 characters, so the two agree only on ASCII passwords.
- JWT signing, the secret and the 7-day expiry belong to `jsonwebtoken`.
  Verification is the parameter `verify`. Minting a token is recorded only
  as `SetToken(id)` in the reply.
- Cookie options (`httpOnly`, `secure`, `sameSite`, `maxAge`) are HTTP details.
- nodemailer and the email templates are I/O. The model keeps only the
  boolean send outcome, which comes after the save.
- `Math.random` is floating point. It is replaced by the integer draw.
- Mongoose persistence, `async`/`await` and races between concurrent
  requests are not modelled; requests run one at a time. A `findById` that
  finds nothing, or that is given a malformed id, becomes the error
  `AccountMissing`. The text of a caught `error.message` is given as a
  `Fault` kind, not as a library string.
- `findOne({ email: undefined })`, from a body without `email`, is taken as
  a lookup miss. A driver that drops the undefined filter key would match
  some record instead; that case is not modelled.
- Request bodies hold only string values. JSON numbers, booleans and
  objects are not modelled, so a non-string `otp` always compares unequal.
- The unprotected handlers read `req.body` before their `try`, and Express's
  JSON body parser is not part of this model. `AuthRoutes.Dispatch`
  therefore requires that an unprotected request carries a body.
- Express route wiring shows up only as the `Route` datatype and the
  `Protected` set.
- AuthRoutes.Dispatch: for an accepted protected request it states only
  which accounts may change, not the exact outcome. The outcome is stated
  by the handler methods it calls.
