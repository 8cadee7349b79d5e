/** Whole request sequences on a store holding the one account `"u1"`:
    email verification with a replayed code, and the outcomes of a password reset. */
module Scenarios {
  import opened Http
  import Hasher
  import OtpCode
  import opened Accounts
  import opened AuthController
  import opened Middleware

  const AnaId := "u1"
  const AnaEmail := "ana@x.com"

  function Ana(): Account
  {
    NewAccount("Ana", AnaEmail, Hasher.Hash("Secret1", 7))
  }

  /** A `jwt.verify` that accepts exactly the token `"t1"`, issued for Ana. */
  function VerifyT1(token: string): Verified
  {
    if token == "t1" then Decoded(Claims(Some(AnaId))) else Threw("invalid signature")
  }

  /** The store holds Ana's account, in state `a`, and nothing else. */
  ghost predicate OnlyAna(svc: AuthService, a: Account)
    reads svc
  {
    svc.Valid() && svc.users == map[AnaId := a] && svc.byEmail == map[AnaEmail := AnaId]
  }

  // ---------------------------------------------------------------------------
  // One request each.

  /** A fresh store after Ana registers; the reply sets her token cookie. */
  method RegisterAna() returns (svc: AuthService)
    ensures fresh(svc) && OnlyAna(svc, Ana())
  {
    svc := new AuthService();
    var registered := svc.Register(map["name" := "Ana", "email" := AnaEmail, "password" := "Secret1"], AnaId, 7, true);
    assert registered == Reply(true, NoMessage, SetToken(AnaId));
  }

  /** `POST /send-verify-otp` with Ana's token cookie. */
  method GatedSendVerifyOtp(svc: AuthService, ghost a: Account, draw: nat, now: int) returns (reply: Reply)
    requires OnlyAna(svc, a) && !a.isAccountVerified
    requires OtpCode.Lowest <= draw <= OtpCode.Highest
    modifies svc
    ensures OnlyAna(svc, Issue(a, EmailVerification, draw, now))
    ensures reply == Reply(true, Text(VerifyOtpSent), KeepCookie)
  {
    var req := new Request(map["token" := "t1"], None);
    var nextCalls, denied := UserAuth(req, VerifyT1);
    assert req.body == Some(map["userId" := AnaId]);
    reply := svc.SendVerifyOtp(req.body.value, draw, now, true);
  }

  /** `POST /verify-account` with Ana's token cookie and the code `code`. */
  method GatedVerifyEmail(svc: AuthService, ghost a: Account, code: string, now: int) returns (reply: Reply)
    requires OnlyAna(svc, a)
    modifies svc
    ensures Accepts(a, EmailVerification, Some(code), now) ==>
              OnlyAna(svc, ConfirmEmail(a)) && reply == Reply(true, Text(EmailVerified), KeepCookie)
    ensures !Accepts(a, EmailVerification, Some(code), now) ==>
              OnlyAna(svc, a) && reply == Failed(InvalidOtp)
  {
    var req := new Request(map["token" := "t1"], Some(map["otp" := code]));
    var nextCalls, denied := UserAuth(req, VerifyT1);
    assert req.body.value["userId"] == AnaId && Field(req.body.value, "otp") == Some(code);
    reply := svc.VerifyEmail(req.body.value, now);
  }

  /** `POST /send-reset-otp` for Ana's email. */
  method SendAnaResetOtp(svc: AuthService, ghost a: Account, draw: nat, now: int) returns (reply: Reply)
    requires OnlyAna(svc, a)
    requires OtpCode.Lowest <= draw <= OtpCode.Highest
    modifies svc
    ensures OnlyAna(svc, Issue(a, PasswordReset, draw, now))
    ensures reply == Reply(true, Text(ResetOtpSent), KeepCookie)
  {
    reply := svc.SendResetOtp(map["email" := AnaEmail], draw, now, true);
  }

  /** `POST /reset-password` for Ana's email with `code` and `newPassword`. */
  method ResetAnaPassword(svc: AuthService, ghost a: Account, code: string, newPassword: string, now: int, salt: nat)
    returns (reply: Reply)
    requires OnlyAna(svc, a)
    modifies svc
    ensures Accepts(a, PasswordReset, Some(code), now) ==>
              OnlyAna(svc, ApplyReset(a, Hasher.Hash(newPassword, salt)))
              && reply == Reply(true, Text(PasswordResetDone), KeepCookie)
    ensures !Accepts(a, PasswordReset, Some(code), now) ==>
              OnlyAna(svc, a) && reply == Failed(InvalidOtp)
  {
    var body := map["email" := AnaEmail, "otp" := code, "newPassword" := newPassword];
    assert Field(body, "otp") == Some(code) && body["email"] == AnaEmail && body["newPassword"] == newPassword;
    reply := svc.ResetPassword(body, now, salt);
  }

  /** `POST /login` with Ana's email and `password`. */
  method LoginAna(svc: AuthService, ghost a: Account, password: string) returns (reply: Reply)
    requires OnlyAna(svc, a)
    ensures password != "" && Hasher.Compare(password, a.password) ==> reply == Reply(true, NoMessage, SetToken(AnaId))
    ensures password != "" && !Hasher.Compare(password, a.password) ==> reply == Failed(InvalidPassword)
    ensures password == "" ==> reply == Failed(CredentialsRequired)
  {
    var body := map["email" := AnaEmail, "password" := password];
    assert Field(body, "password") == Some(password) && body["email"] == AnaEmail;
    reply := svc.Login(body);
  }

  // ---------------------------------------------------------------------------
  // Sequences.

  /** Register Ana, request a verification code through the gate, verify with it a minute
      later (accepted), then replay it (refused): the code was spent. */
  method EmailVerificationScenario(draw: nat, now: int) returns (first: Reply, replay: Reply, verified: bool)
    requires OtpCode.Lowest <= draw <= OtpCode.Highest
    requires now > 0
    ensures first == Reply(true, Text(EmailVerified), KeepCookie)
    ensures replay == Failed(InvalidOtp)
    ensures verified
  {
    var svc := RegisterAna();
    var sent := GatedSendVerifyOtp(svc, Ana(), draw, now);
    ghost var issued := Issue(Ana(), EmailVerification, draw, now);
    var code := OtpCode.Generate(draw);
    IssuedCodeWindow(Ana(), EmailVerification, draw, now, now + 60000);
    first := GatedVerifyEmail(svc, issued, code, now + 60000);
    SpentCodeRejected(issued, Ana().password, Some(code), now + 120000);
    replay := GatedVerifyEmail(svc, ConfirmEmail(issued), code, now + 120000);
    verified := svc.users[AnaId].isAccountVerified;
  }

  /** A request whose `token` cookie is missing or empty never reaches the handler,
      whatever its body names and whatever the verifier would say: it is refused,
      `next` is not called and the body is left as it came. */
  method MissingTokenScenario(body: Option<Body>, cookies: Body, verify: string -> Verified)
    returns (reply: Reply, nextCalls: nat, seen: Option<Body>)
    requires !Truthy(Field(cookies, "token"))
    ensures reply == Failed(NotAuthorized) && nextCalls == 0
    ensures seen == body
  {
    var req := new Request(cookies, body);
    var denied;
    nextCalls, denied := UserAuth(req, verify);
    reply := denied.value;
    seen := req.body;
  }

  /** A reset code used sixteen minutes after issue is refused and the password stays;
      a fresh code used in time replaces it, after which only the new password logs in. */
  method PasswordResetScenario(draw: nat, draw2: nat, now: int)
    returns (late: Reply, oldAfterLate: Reply, inTime: Reply, oldAfter: Reply, newAfter: Reply)
    requires OtpCode.Lowest <= draw <= OtpCode.Highest && OtpCode.Lowest <= draw2 <= OtpCode.Highest
    ensures late == Failed(InvalidOtp)
    ensures oldAfterLate == Reply(true, NoMessage, SetToken(AnaId))
    ensures inTime == Reply(true, Text(PasswordResetDone), KeepCookie)
    ensures oldAfter == Failed(InvalidPassword)
    ensures newAfter == Reply(true, NoMessage, SetToken(AnaId))
  {
    var svc := RegisterAna();
    var sent := SendAnaResetOtp(svc, Ana(), draw, now);
    ghost var issued := Issue(Ana(), PasswordReset, draw, now);
    IssuedCodeWindow(Ana(), PasswordReset, draw, now, now + 960000);
    late := ResetAnaPassword(svc, issued, OtpCode.Generate(draw), "New1", now + 960000, 8);
    oldAfterLate := LoginAna(svc, issued, "Secret1");

    sent := SendAnaResetOtp(svc, issued, draw2, now + 960000);
    ghost var reissued := Issue(issued, PasswordReset, draw2, now + 960000);
    IssuedCodeWindow(issued, PasswordReset, draw2, now + 960000, now + 1000000);
    inTime := ResetAnaPassword(svc, reissued, OtpCode.Generate(draw2), "New1", now + 1000000, 9);
    ghost var reset := ApplyReset(reissued, Hasher.Hash("New1", 9));
    Hasher.CompareHash("New1", "Secret1", 9);
    oldAfter := LoginAna(svc, reset, "Secret1");
    newAfter := LoginAna(svc, reset, "New1");
  }

  /** resetPassword accepts an empty `newPassword` (bcrypt hashes `""`), but login treats
      an empty password as missing: after such a reset neither password logs in. */
  method EmptyPasswordResetScenario(draw: nat, now: int) returns (reset: Reply, withEmpty: Reply, withOld: Reply)
    requires OtpCode.Lowest <= draw <= OtpCode.Highest
    ensures reset == Reply(true, Text(PasswordResetDone), KeepCookie)
    ensures withEmpty == Failed(CredentialsRequired)
    ensures withOld == Failed(InvalidPassword)
  {
    var svc := RegisterAna();
    var sent := SendAnaResetOtp(svc, Ana(), draw, now);
    ghost var issued := Issue(Ana(), PasswordReset, draw, now);
    IssuedCodeWindow(Ana(), PasswordReset, draw, now, now);
    reset := ResetAnaPassword(svc, issued, OtpCode.Generate(draw), "", now, 8);
    ghost var emptied := ApplyReset(issued, Hasher.Hash("", 8));
    Hasher.CompareHash("", "Secret1", 8);
    withEmpty := LoginAna(svc, emptied, "");
    withOld := LoginAna(svc, emptied, "Secret1");
  }
}
