/** The handlers of server/controllers/authController.js over a store of
    account records. Each handler reads one record, checks its guards,
    changes fields and saves; the clock, the random draw, the bcrypt salt,
    the id the store assigns and the mail outcome are inputs. */
module AuthController {
  import opened Http
  import opened Hasher
  import OtpCode
  import opened Accounts

  const MissingDetails := "Missing details"
  const UserExists := "User already exists"
  const CredentialsRequired := "Email and Password are required"
  const InvalidEmail := "Invalid Email"
  const InvalidPassword := "Invalid Password"
  const LoggedOut := "Logged Out"
  const AlreadyVerified := "Account already verified"
  const VerifyOtpSent := "Verification OTP sent"
  const InvalidOtp := "Invalid or Expired OTP"
  const EmailVerified := "Email verified"
  const UserNotFound := "User not found"
  const ResetOtpSent := "Reset OTP sent"
  const PasswordResetDone := "Password reset successful"

  /** `!name || !email || !password` is false. */
  predicate RegisterFieldsPresent(body: Body)
    ensures RegisterFieldsPresent(body) <==>
              && "name" in body && body["name"] != ""
              && "email" in body && body["email"] != ""
              && "password" in body && body["password"] != ""
  {
    Truthy(Field(body, "name")) && Truthy(Field(body, "email")) && Truthy(Field(body, "password"))
  }

  /** `!email || !password` is false. */
  predicate LoginFieldsPresent(body: Body)
    ensures LoginFieldsPresent(body) <==>
              "email" in body && body["email"] != "" && "password" in body && body["password"] != ""
  {
    Truthy(Field(body, "email")) && Truthy(Field(body, "password"))
  }

  /** The guard of resetPassword passes: `body.email` names an account whose reset slot
      accepts `body.otp` at `now`. */
  ghost predicate ResetCodeAccepted(users: map<AccountId, Account>, byEmail: map<string, AccountId>, body: Body, now: int)
  {
    "email" in body && body["email"] in byEmail && byEmail[body["email"]] in users
    && Accepts(users[byEmail[body["email"]]], PasswordReset, Field(body, "otp"), now)
  }

  class AuthService {
    /** The collection of account records, by id. */
    var users: map<AccountId, Account>
    /** The lookup `findOne({ email })`. */
    var byEmail: map<string, AccountId>

    ghost predicate Valid()
      reads this
    {
      StoreValid(users, byEmail)
    }

    constructor ()
      ensures Valid() && users == map[] && byEmail == map[]
    {
      users := map[];
      byEmail := map[];
    }

    /** `POST /register`. `newId` is the id the store gives the new record. */
    method Register(body: Body, newId: AccountId, salt: nat, mailSent: bool) returns (reply: Reply)
      requires Valid()
      modifies this
      ensures Valid() && Evolves(old(users), users)
      ensures !RegisterFieldsPresent(body) ==> reply == Failed(MissingDetails) && unchanged(this)
      ensures RegisterFieldsPresent(body) && body["email"] in old(byEmail) ==>
                reply == Failed(UserExists) && unchanged(this)
      ensures RegisterFieldsPresent(body) && body["email"] !in old(byEmail) && newId in old(users) ==>
                reply == Reply(false, Thrown(DuplicateId), KeepCookie) && unchanged(this)
      ensures RegisterFieldsPresent(body) && body["email"] !in old(byEmail) && newId !in old(users) ==>
                && users == old(users)[newId := NewAccount(body["name"], body["email"], Hash(body["password"], salt))]
                && byEmail == old(byEmail)[body["email"] := newId]
                && reply == AfterMail(mailSent, NoMessage, SetToken(newId))
    {
      var name, email, password := Field(body, "name"), Field(body, "email"), Field(body, "password");
      if !Truthy(name) || !Truthy(email) || !Truthy(password) {
        return Failed(MissingDetails);
      }
      if email.value in byEmail {
        return Failed(UserExists);
      }
      var hashed := Hash(password.value, salt);
      var user := NewAccount(name.value, email.value, hashed);
      if newId in users {
        return Reply(false, Thrown(DuplicateId), KeepCookie);
      }
      InsertKeepsStoreValid(users, byEmail, newId, user);
      users := users[newId := user];
      byEmail := byEmail[email.value := newId];
      // jwt.sign({ id: user._id }) and res.cookie("token", ...) happen before the welcome mail
      reply := AfterMail(mailSent, NoMessage, SetToken(newId));
    }

    /** `POST /login`: changes nothing; succeeds exactly when the email is known and
        bcrypt accepts the password against the stored digest. */
    method Login(body: Body) returns (reply: Reply)
      requires Valid()
      ensures reply.success <==>
                LoginFieldsPresent(body) && body["email"] in byEmail
                && Compare(body["password"], users[byEmail[body["email"]]].password)
      ensures reply.success ==> reply == Reply(true, NoMessage, SetToken(byEmail[body["email"]]))
      ensures !LoginFieldsPresent(body) ==> reply == Failed(CredentialsRequired)
      ensures LoginFieldsPresent(body) && body["email"] !in byEmail ==> reply == Failed(InvalidEmail)
      ensures LoginFieldsPresent(body) && body["email"] in byEmail
              && !Compare(body["password"], users[byEmail[body["email"]]].password) ==>
                reply == Failed(InvalidPassword)
    {
      var email, password := Field(body, "email"), Field(body, "password");
      if !Truthy(email) || !Truthy(password) {
        return Failed(CredentialsRequired);
      }
      if email.value !in byEmail {
        return Failed(InvalidEmail);
      }
      var id := byEmail[email.value];
      var user := users[id];
      if !Compare(password.value, user.password) {
        return Failed(InvalidPassword);
      }
      reply := Reply(true, NoMessage, SetToken(id));
    }

    /** `POST /logout`: tells the client to drop its token; no record changes. */
    method Logout() returns (reply: Reply)
      ensures reply.success && reply.cookie == ClearToken && reply.message == Text(LoggedOut)
    {
      reply := Reply(true, Text(LoggedOut), ClearToken);
    }

    /** `GET /is-auth`: reached only through the gate, it always succeeds. */
    method IsAuthenticated() returns (reply: Reply)
      ensures reply.success && reply.cookie == KeepCookie
    {
      reply := Reply(true, NoMessage, KeepCookie);
    }

    /** `POST /send-verify-otp` for the account `body.userId`. */
    method SendVerifyOtp(body: Body, draw: nat, now: int, mailSent: bool) returns (reply: Reply)
      requires Valid()
      requires OtpCode.Lowest <= draw <= OtpCode.Highest
      modifies this
      ensures Valid() && Evolves(old(users), users) && byEmail == old(byEmail)
      ensures ("userId" !in body || body["userId"] !in old(users)) ==>
                reply == Reply(false, Thrown(AccountMissing), KeepCookie) && users == old(users)
      ensures "userId" in body && body["userId"] in old(users) && old(users)[body["userId"]].isAccountVerified ==>
                reply == Failed(AlreadyVerified) && users == old(users)
      ensures "userId" in body && body["userId"] in old(users) && !old(users)[body["userId"]].isAccountVerified ==>
                && users == old(users)[body["userId"] := Issue(old(users)[body["userId"]], EmailVerification, draw, now)]
                && reply == AfterMail(mailSent, Text(VerifyOtpSent), KeepCookie)
    {
      var userId := Field(body, "userId");
      if userId.None? || userId.value !in users {
        return Reply(false, Thrown(AccountMissing), KeepCookie);
      }
      var user := users[userId.value];
      if user.isAccountVerified {
        return Failed(AlreadyVerified);
      }
      user := Issue(user, EmailVerification, draw, now);
      assert AccountValid(old(users)[userId.value]);
      StepsKeepAccountValid(old(users)[userId.value], EmailVerification, draw, now, user.password);
      UpdateKeepsStoreValid(users, byEmail, userId.value, user);
      users := users[userId.value := user];
      reply := AfterMail(mailSent, Text(VerifyOtpSent), KeepCookie);
    }

    /** `POST /verify-account` for the account `body.userId` with the code `body.otp`. */
    method VerifyEmail(body: Body, now: int) returns (reply: Reply)
      requires Valid()
      modifies this
      ensures Valid() && Evolves(old(users), users) && byEmail == old(byEmail)
      ensures ("userId" !in body || body["userId"] !in old(users)) ==>
                reply == Reply(false, Thrown(AccountMissing), KeepCookie) && users == old(users)
      ensures "userId" in body && body["userId"] in old(users)
              && !Accepts(old(users)[body["userId"]], EmailVerification, Field(body, "otp"), now) ==>
                reply == Failed(InvalidOtp) && users == old(users)
      ensures "userId" in body && body["userId"] in old(users)
              && Accepts(old(users)[body["userId"]], EmailVerification, Field(body, "otp"), now) ==>
                && users == old(users)[body["userId"] := ConfirmEmail(old(users)[body["userId"]])]
                && reply == Reply(true, Text(EmailVerified), KeepCookie)
    {
      var userId, otp := Field(body, "userId"), Field(body, "otp");
      if userId.None? || userId.value !in users {
        return Reply(false, Thrown(AccountMissing), KeepCookie);
      }
      var user := users[userId.value];
      if otp != Some(user.verifyOtp) || user.verifyOtpExpireAt < now {
        return Failed(InvalidOtp);
      }
      StepsKeepAccountValid(user, EmailVerification, OtpCode.Lowest, now, user.password);
      user := ConfirmEmail(user);
      UpdateKeepsStoreValid(users, byEmail, userId.value, user);
      users := users[userId.value := user];
      reply := Reply(true, Text(EmailVerified), KeepCookie);
    }

    /** `POST /send-reset-otp` for the account registered under `body.email`. */
    method SendResetOtp(body: Body, draw: nat, now: int, mailSent: bool) returns (reply: Reply)
      requires Valid()
      requires OtpCode.Lowest <= draw <= OtpCode.Highest
      modifies this
      ensures Valid() && Evolves(old(users), users) && byEmail == old(byEmail)
      ensures ("email" !in body || body["email"] !in byEmail) ==>
                reply == Failed(UserNotFound) && users == old(users)
      ensures "email" in body && body["email"] in byEmail ==>
                && users == old(users)[byEmail[body["email"]] := Issue(old(users)[byEmail[body["email"]]], PasswordReset, draw, now)]
                && reply == AfterMail(mailSent, Text(ResetOtpSent), KeepCookie)
    {
      var email := Field(body, "email");
      if email.None? || email.value !in byEmail {
        return Failed(UserNotFound);
      }
      var id := byEmail[email.value];
      var user := users[id];
      StepsKeepAccountValid(user, PasswordReset, draw, now, user.password);
      user := Issue(user, PasswordReset, draw, now);
      UpdateKeepsStoreValid(users, byEmail, id, user);
      users := users[id := user];
      reply := AfterMail(mailSent, Text(ResetOtpSent), KeepCookie);
    }

    /** `POST /reset-password` with `body.email`, `body.otp` and `body.newPassword`. */
    method ResetPassword(body: Body, now: int, salt: nat) returns (reply: Reply)
      requires Valid()
      modifies this
      ensures Valid() && Evolves(old(users), users) && byEmail == old(byEmail)
      ensures !ResetCodeAccepted(old(users), byEmail, body, now) ==>
                reply == Failed(InvalidOtp) && users == old(users)
      ensures ResetCodeAccepted(old(users), byEmail, body, now) && "newPassword" !in body ==>
                reply == Reply(false, Thrown(HashArgument), KeepCookie) && users == old(users)
      ensures ResetCodeAccepted(old(users), byEmail, body, now) && "newPassword" in body ==>
                && users == old(users)[byEmail[body["email"]] := ApplyReset(old(users)[byEmail[body["email"]]], Hash(body["newPassword"], salt))]
                && reply == Reply(true, Text(PasswordResetDone), KeepCookie)
    {
      var email, otp, newPassword := Field(body, "email"), Field(body, "otp"), Field(body, "newPassword");
      if email.None? || email.value !in byEmail {
        return Failed(InvalidOtp);
      }
      var id := byEmail[email.value];
      var user := users[id];
      if otp != Some(user.resetOtp) || user.resetOtpExpireAt < now {
        return Failed(InvalidOtp);
      }
      if newPassword.None? {
        return Reply(false, Thrown(HashArgument), KeepCookie);
      }
      var digest := Hash(newPassword.value, salt);
      StepsKeepAccountValid(user, PasswordReset, OtpCode.Lowest, now, digest);
      user := ApplyReset(user, digest);
      UpdateKeepsStoreValid(users, byEmail, id, user);
      users := users[id := user];
      reply := Reply(true, Text(PasswordResetDone), KeepCookie);
    }
  }
}
