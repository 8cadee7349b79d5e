/** The account record the handlers read and save, its two one-time-code
    slots, and the invariants of the store that holds the records. */
module Accounts {
  import opened Http
  import opened Hasher
  import OtpCode

  type AccountId = string

  /** `24 * 60 * 60 * 1000` and `15 * 60 * 1000` milliseconds. */
  const VerifyOtpLifetime: int := 86400000
  const ResetOtpLifetime: int := 900000

  datatype Account = Account(
    name: string,
    email: string,
    password: Digest,
    isAccountVerified: bool,
    verifyOtp: string,
    verifyOtpExpireAt: int,
    resetOtp: string,
    resetOtpExpireAt: int)

  /** A record as `new userModel({ name, email, password })` creates it:
      not verified, both code slots empty. */
  function NewAccount(name: string, email: string, password: Digest): (a: Account)
    ensures a.name == name && a.email == email && a.password == password
    ensures !a.isAccountVerified
    ensures SlotOf(a, EmailVerification) == Cleared && SlotOf(a, PasswordReset) == Cleared
    ensures AccountValid(a)
  {
    Account(name, email, password, false, "", 0, "", 0)
  }

  /** The two reasons a code is issued; each has its own slot in the record. */
  datatype Purpose = EmailVerification | PasswordReset

  function Other(p: Purpose): Purpose
  {
    match p
    case EmailVerification => PasswordReset
    case PasswordReset => EmailVerification
  }

  function Lifetime(p: Purpose): int
  {
    match p
    case EmailVerification => VerifyOtpLifetime
    case PasswordReset => ResetOtpLifetime
  }

  /** A code slot: the stored code and the instant (in milliseconds) it expires. */
  datatype Slot = Slot(code: string, expireAt: int)

  /** What a consumed slot is cleared to. */
  const Cleared := Slot("", 0)

  function SlotOf(a: Account, p: Purpose): Slot
  {
    match p
    case EmailVerification => Slot(a.verifyOtp, a.verifyOtpExpireAt)
    case PasswordReset => Slot(a.resetOtp, a.resetOtpExpireAt)
  }

  /** The fields other than the two code slots. */
  predicate SameProfile(a: Account, b: Account)
  {
    a.name == b.name && a.email == b.email && a.password == b.password
    && a.isAccountVerified == b.isAccountVerified
  }

  /** Overwrite the slot of purpose `p`; the other slot and the profile are kept. */
  function WithSlot(a: Account, p: Purpose, s: Slot): (r: Account)
    ensures SlotOf(r, p) == s
    ensures SlotOf(r, Other(p)) == SlotOf(a, Other(p))
    ensures SameProfile(r, a)
  {
    match p
    case EmailVerification => a.(verifyOtp := s.code, verifyOtpExpireAt := s.expireAt)
    case PasswordReset => a.(resetOtp := s.code, resetOtpExpireAt := s.expireAt)
  }

  /** Lines `user.verifyOtp = otp; user.verifyOtpExpireAt = Date.now() + ...`
      (and the reset counterparts): bind a fresh code to the purpose, replacing any earlier one. */
  function Issue(a: Account, p: Purpose, draw: nat, now: int): (r: Account)
    requires OtpCode.Lowest <= draw <= OtpCode.Highest
    ensures OtpCode.IsGenerated(SlotOf(r, p).code)
    ensures SlotOf(r, p).expireAt == now + Lifetime(p)
    ensures SlotOf(r, Other(p)) == SlotOf(a, Other(p))
    ensures SameProfile(r, a)
  {
    WithSlot(a, p, Slot(OtpCode.Generate(draw), now + Lifetime(p)))
  }

  /** The guard `user.verifyOtp !== otp || user.verifyOtpExpireAt < Date.now()`, negated:
      the submitted code is strictly equal to the stored one and has not expired. */
  predicate Accepts(a: Account, p: Purpose, submitted: Option<string>, now: int)
    ensures submitted.None? ==> !Accepts(a, p, submitted, now)
    ensures now > SlotOf(a, p).expireAt ==> !Accepts(a, p, submitted, now)
    ensures submitted.Some? && submitted.value != SlotOf(a, p).code ==> !Accepts(a, p, submitted, now)
  {
    submitted == Some(SlotOf(a, p).code) && now <= SlotOf(a, p).expireAt
  }

  /** The success branch of verifyEmail: the account is verified and its verify code is spent. */
  function ConfirmEmail(a: Account): (r: Account)
    ensures r.isAccountVerified
    ensures SlotOf(r, EmailVerification) == Cleared
    ensures SlotOf(r, PasswordReset) == SlotOf(a, PasswordReset)
    ensures r.name == a.name && r.email == a.email && r.password == a.password
  {
    WithSlot(a, EmailVerification, Cleared).(isAccountVerified := true)
  }

  /** The success branch of resetPassword: the new digest replaces the password
      and the reset code is spent. */
  function ApplyReset(a: Account, digest: Digest): (r: Account)
    ensures r.password == digest
    ensures SlotOf(r, PasswordReset) == Cleared
    ensures SlotOf(r, EmailVerification) == SlotOf(a, EmailVerification)
    ensures r.name == a.name && r.email == a.email && r.isAccountVerified == a.isAccountVerified
  {
    WithSlot(a, PasswordReset, Cleared).(password := digest)
  }

  /** A slot is either empty and expired at 0, or holds a generated code. */
  predicate SlotValid(s: Slot)
  {
    if s.code == "" then s.expireAt == 0 else OtpCode.IsGenerated(s.code)
  }

  predicate AccountValid(a: Account)
  {
    SlotValid(SlotOf(a, EmailVerification)) && SlotValid(SlotOf(a, PasswordReset))
  }

  /** The store: accounts by id, and the email index `findOne({ email })` uses.
      The index and the records agree, so no two accounts share an email. */
  ghost predicate StoreValid(users: map<AccountId, Account>, byEmail: map<string, AccountId>)
  {
    && (forall e | e in byEmail :: byEmail[e] in users && users[byEmail[e]].email == e)
    && (forall id | id in users :: users[id].email in byEmail && byEmail[users[id].email] == id)
    && (forall id | id in users :: AccountValid(users[id]))
  }

  /** What every handler keeps from one store to the next: no account disappears,
      none changes its email, none goes back from verified to unverified. */
  ghost predicate Evolves(before: map<AccountId, Account>, after: map<AccountId, Account>)
  {
    forall id | id in before ::
      id in after && after[id].email == before[id].email
      && (before[id].isAccountVerified ==> after[id].isAccountVerified)
  }

  // ---------------------------------------------------------------------------
  // Properties of the code slots.

  /** A fresh code is accepted up to and including its expiry instant, and not after. */
  lemma IssuedCodeWindow(a: Account, p: Purpose, draw: nat, now: int, t: int)
    requires OtpCode.Lowest <= draw <= OtpCode.Highest
    ensures Accepts(Issue(a, p, draw, now), p, Some(OtpCode.Generate(draw)), t) <==> t <= now + Lifetime(p)
  {
  }

  /** Issuing a new code for a purpose invalidates the previous one, unexpired or not
      (unless the draw happens to repeat). */
  lemma IssueSupersedes(a: Account, p: Purpose, first: nat, t1: int, second: nat, t2: int, t: int)
    requires OtpCode.Lowest <= first <= OtpCode.Highest && OtpCode.Lowest <= second <= OtpCode.Highest
    requires first != second
    ensures !Accepts(Issue(Issue(a, p, first, t1), p, second, t2), p, Some(OtpCode.Generate(first)), t)
  {
  }

  /** The two slots are independent: issuing or spending a code of one purpose does not
      change what the other purpose accepts. */
  lemma SlotsIndependent(a: Account, p: Purpose, draw: nat, now: int, digest: Digest, s: Option<string>, t: int)
    requires OtpCode.Lowest <= draw <= OtpCode.Highest
    ensures Accepts(Issue(a, p, draw, now), Other(p), s, t) <==> Accepts(a, Other(p), s, t)
    ensures Accepts(ConfirmEmail(a), PasswordReset, s, t) <==> Accepts(a, PasswordReset, s, t)
    ensures Accepts(ApplyReset(a, digest), EmailVerification, s, t) <==> Accepts(a, EmailVerification, s, t)
  {
  }

  /** Single use: once a code is spent its slot accepts nothing at any positive instant,
      the spent code included, because the expiry was reset to 0. */
  lemma SpentCodeRejected(a: Account, digest: Digest, s: Option<string>, t: int)
    requires t > 0
    ensures !Accepts(ConfirmEmail(a), EmailVerification, s, t)
    ensures !Accepts(ApplyReset(a, digest), PasswordReset, s, t)
  {
  }

  /** In a valid record, at a positive instant, only an issued six-digit code is ever accepted. */
  lemma OnlyIssuedCodesAccepted(a: Account, p: Purpose, s: Option<string>, t: int)
    requires AccountValid(a) && t > 0
    requires Accepts(a, p, s, t)
    ensures s.Some? && OtpCode.IsGenerated(s.value)
  {
  }

  /** Every step on a record keeps its slots valid. */
  lemma StepsKeepAccountValid(a: Account, p: Purpose, draw: nat, now: int, digest: Digest)
    requires AccountValid(a)
    requires OtpCode.Lowest <= draw <= OtpCode.Highest
    ensures AccountValid(Issue(a, p, draw, now))
    ensures AccountValid(ConfirmEmail(a))
    ensures AccountValid(ApplyReset(a, digest))
  {
  }

  // ---------------------------------------------------------------------------
  // Properties of the store.

  /** The index makes emails unique. */
  lemma EmailsUnique(users: map<AccountId, Account>, byEmail: map<string, AccountId>, i: AccountId, j: AccountId)
    requires StoreValid(users, byEmail)
    requires i in users && j in users && users[i].email == users[j].email
    ensures i == j
  {
  }

  /** Adding a record under a fresh id and a fresh email keeps the store valid. */
  lemma InsertKeepsStoreValid(users: map<AccountId, Account>, byEmail: map<string, AccountId>, id: AccountId, a: Account)
    requires StoreValid(users, byEmail) && AccountValid(a)
    requires id !in users && a.email !in byEmail
    ensures StoreValid(users[id := a], byEmail[a.email := id])
    ensures Evolves(users, users[id := a])
  {
  }

  /** Replacing a record by one with the same email keeps the store valid. */
  lemma UpdateKeepsStoreValid(users: map<AccountId, Account>, byEmail: map<string, AccountId>, id: AccountId, a: Account)
    requires StoreValid(users, byEmail) && AccountValid(a)
    requires id in users && a.email == users[id].email
    ensures StoreValid(users[id := a], byEmail)
  {
  }
}
