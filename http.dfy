/** Request bodies, the JSON reply envelope `{ success, message }` and the
    JavaScript truthiness the handlers test their inputs with. */
module Http {

  datatype Option<T> = None | Some(value: T)

  /** A parsed JSON request body (or the cookie jar), restricted to string values. */
  type Body = map<string, string>

  /** `body.key`: `None` stands for `undefined`. */
  function Field(body: Body, key: string): Option<string>
  {
    if key in body then Some(body[key]) else None
  }

  /** `!!v` for a string that may be `undefined`: `undefined` and `""` are falsy. */
  predicate Truthy(v: Option<string>)
  {
    v.Some? && v.value != ""
  }

  /** The exceptions the handlers catch and report as `error.message`. */
  datatype Fault =
    | AccountMissing   // findById found no record, so reading a field of `null` throws
    | DuplicateId      // save() of a new record whose id is already taken
    | MailRejected     // transporter.sendMail rejected
    | HashArgument     // bcrypt.hash called with `undefined`

  datatype Message = NoMessage | Text(text: string) | Thrown(fault: Fault)

  /** What the handler did with the `token` cookie. */
  datatype CookieAction = KeepCookie | SetToken(accountId: string) | ClearToken

  datatype Reply = Reply(success: bool, message: Message, cookie: CookieAction)

  /** `res.json({ success: false, message: text })`. */
  function Failed(text: string): Reply
  {
    Reply(false, Text(text), KeepCookie)
  }

  /** The reply of a handler that saved its change and then sent mail:
      a rejected mail turns the reply into a failure, the saved change stays. */
  function AfterMail(mailSent: bool, text: Message, cookie: CookieAction): (r: Reply)
    ensures r.success == mailSent && r.cookie == cookie
    ensures !mailSent ==> r.message == Thrown(MailRejected)
  {
    if mailSent then Reply(true, text, cookie) else Reply(false, Thrown(MailRejected), cookie)
  }
}
