/** server/routes/authRoutes.js: which handler each path reaches, and which
    paths sit behind the gate. */
module AuthRoutes {
  import opened Http
  import OtpCode
  import opened Accounts
  import opened AuthController
  import opened Middleware

  datatype Route =
    | RegisterRoute | LoginRoute | LogoutRoute | IsAuthRoute
    | SendVerifyOtpRoute | VerifyAccountRoute | SendResetOtpRoute | ResetPasswordRoute

  /** The routes mounted with `userAuth` in front of the handler. */
  const Protected: set<Route> := {LogoutRoute, IsAuthRoute, SendVerifyOtpRoute, VerifyAccountRoute}

  /** What the outside world supplies to one request: the clock, the random draw,
      the bcrypt salt, the id the store would give a new record, and whether mail went out. */
  datatype Inputs = Inputs(now: int, draw: nat, salt: nat, newId: AccountId, mailSent: bool)

  predicate InputsValid(env: Inputs)
  {
    OtpCode.Lowest <= env.draw <= OtpCode.Highest
  }

  /** Run the handler of a protected route on the body the gate produced:
      only the account `body.userId` may change. */
  method ServeProtected(svc: AuthService, route: Route, body: Body, env: Inputs) returns (reply: Reply)
    requires svc.Valid() && InputsValid(env)
    requires route in Protected
    modifies svc
    ensures svc.Valid() && Evolves(old(svc.users), svc.users)
    ensures svc.byEmail == old(svc.byEmail) && svc.users.Keys == old(svc.users.Keys)
    ensures forall id | id in old(svc.users) && Field(body, "userId") != Some(id) :: svc.users[id] == old(svc.users[id])
  {
    match route {
      case LogoutRoute => reply := svc.Logout();
      case IsAuthRoute => reply := svc.IsAuthenticated();
      case SendVerifyOtpRoute => reply := svc.SendVerifyOtp(body, env.draw, env.now, env.mailSent);
      case VerifyAccountRoute => reply := svc.VerifyEmail(body, env.now);
    }
  }

  /** Run the handler of a route without the gate. */
  method ServePublic(svc: AuthService, route: Route, body: Body, env: Inputs) returns (reply: Reply)
    requires svc.Valid() && InputsValid(env)
    requires route !in Protected
    modifies svc
    ensures svc.Valid() && Evolves(old(svc.users), svc.users)
  {
    match route {
      case RegisterRoute => reply := svc.Register(body, env.newId, env.salt, env.mailSent);
      case LoginRoute => reply := svc.Login(body);
      case SendResetOtpRoute => reply := svc.SendResetOtp(body, env.draw, env.now, env.mailSent);
      case ResetPasswordRoute => reply := svc.ResetPassword(body, env.now, env.salt);
    }
  }

  /** Serve one request on `route`. A protected route runs the gate first; its handler
      runs only when the gate calls `next()`, and then acts on the token's account alone. */
  method Dispatch(svc: AuthService, route: Route, req: Request, verify: string -> Verified, env: Inputs)
    returns (reply: Reply)
    requires svc.Valid() && InputsValid(env)
    requires route !in Protected ==> req.body.Some?
    modifies svc, req`body
    ensures svc.Valid() && Evolves(old(svc.users), svc.users)
    ensures route !in Protected ==> req.body == old(req.body)
    ensures var d := Decide(Field(req.cookies, "token"), verify);
      route in Protected && d.Deny? ==>
        reply == d.reply && unchanged(svc) && req.body == old(req.body)
    ensures var d := Decide(Field(req.cookies, "token"), verify);
      route in Protected && d.Allow? ==>
        && svc.byEmail == old(svc.byEmail)
        && svc.users.Keys == old(svc.users.Keys)
        && (forall id | id in old(svc.users) && id != d.userId :: svc.users[id] == old(svc.users[id]))
  {
    if route in Protected {
      var nextCalls, denied := UserAuth(req, verify);
      if nextCalls == 0 {
        return denied.value;
      }
      reply := ServeProtected(svc, route, req.body.value, env);
    } else {
      reply := ServePublic(svc, route, req.body.value, env);
    }
  }
}
