/** server/middleware/userAuth.js: the fail-closed gate in front of the
    protected routes. `jwt.verify` is a parameter: it either throws with a
    message (bad signature, expired, malformed) or returns the decoded claims. */
module Middleware {
  import opened Http

  /** The decoded payload; `id` is `undefined` when the token carries none. */
  datatype Claims = Claims(id: Option<string>)

  /** The outcome of `jwt.verify(token, secret)`. */
  datatype Verified = Decoded(claims: Claims) | Threw(message: string)

  const NotAuthorized := "Not Authorized. Logged In Again"

  /** Either the gate answers the request itself, or it lets it through for `userId`. */
  datatype Decision = Deny(reply: Reply) | Allow(userId: string)

  /** The guard chain: no token, a token `jwt.verify` rejects, claims without an id. */
  function Decide(token: Option<string>, verify: string -> Verified): (d: Decision)
    ensures d.Allow? <==>
              Truthy(token) && verify(token.value).Decoded? && Truthy(verify(token.value).claims.id)
    ensures d.Allow? ==> verify(token.value).claims.id == Some(d.userId)
    ensures !Truthy(token) ==> d == Deny(Failed(NotAuthorized))
    ensures Truthy(token) && verify(token.value).Threw? ==>
              d == Deny(Failed(verify(token.value).message))
    ensures Truthy(token) && verify(token.value).Decoded? && !Truthy(verify(token.value).claims.id) ==>
              d == Deny(Failed(NotAuthorized))
  {
    if !Truthy(token) then Deny(Failed(NotAuthorized))
    else match verify(token.value)
      case Threw(message) => Deny(Failed(message))
      case Decoded(claims) =>
        if !Truthy(claims.id) then Deny(Failed(NotAuthorized)) else Allow(claims.id.value)
  }

  /** `req.body = req.body || {}; req.body.userId = decoded.id`: the body the handler sees.
      Whatever `userId` the caller sent is replaced; every other key is kept. */
  function Inject(body: Option<Body>, userId: string): (b: Body)
    ensures "userId" in b && b["userId"] == userId
    ensures forall k :: k != "userId" ==> (k in b <==> body.Some? && k in body.value)
    ensures forall k | k in b && k != "userId" :: b[k] == body.value[k]
    ensures body.None? ==> b == map["userId" := userId]
  {
    var base := if body.Some? then body.value else map[];
    base["userId" := userId]
  }

  /** The parts of an Express request the gate and the handlers use. */
  class Request {
    var cookies: Body
    var body: Option<Body>

    constructor (cookies: Body, body: Option<Body>)
      ensures this.cookies == cookies && this.body == body
    {
      this.cookies := cookies;
      this.body := body;
    }
  }

  /** `userAuth(req, res, next)`. `nextCalls` counts the calls of `next()`;
      `reply` is what the gate sent itself, if anything. */
  method UserAuth(req: Request, verify: string -> Verified) returns (nextCalls: nat, reply: Option<Reply>)
    modifies req`body
    ensures var d := Decide(Field(req.cookies, "token"), verify);
      && (d.Deny? ==> nextCalls == 0 && reply == Some(d.reply) && req.body == old(req.body))
      && (d.Allow? ==> nextCalls == 1 && reply == None && req.body == Some(Inject(old(req.body), d.userId)))
  {
    nextCalls := 0;
    var token := Field(req.cookies, "token");
    if !Truthy(token) {
      return 0, Some(Failed(NotAuthorized));
    }
    var decoded := verify(token.value);
    if decoded.Threw? {
      return 0, Some(Failed(decoded.message));
    }
    if !Truthy(decoded.claims.id) {
      return 0, Some(Failed(NotAuthorized));
    }
    if req.body.None? {
      req.body := Some(map[]);
    }
    req.body := Some(req.body.value["userId" := decoded.claims.id.value]);
    nextCalls := nextCalls + 1;
    reply := None;
  }

  /** A caller cannot choose the account a protected handler acts on:
      whatever `userId` the body carried, the handler sees the token's. */
  lemma CallerUserIdOverwritten(body: Body, token: string, verify: string -> Verified)
    requires "userId" in body
    requires Decide(Some(token), verify).Allow?
    ensures Inject(Some(body), Decide(Some(token), verify).userId)["userId"]
            == verify(token).claims.id.value
  {
  }
}
