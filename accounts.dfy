/**
 * The account lifecycle of the user controller, as pure functions over a value
 * of the whole store: the accounts collection and the two token collections.
 * Each handler maps the store before a request to its reply and the store after it.
 * Hashing is transparent: a stored password or OTP is compared by equality.
 */
module Accounts {
  import Text

  /** A document id (a Mongo ObjectId in the source); the source reads it from the request as text. */
  type Id = string

  datatype Option<T> = None | Some(value: T)

  /** An account document; `verified` is false when the account is created. */
  datatype Account = Account(name: string, email: string, password: string, verified: bool)

  /**
   * The three collections. A verification token and a reset token are each
   * looked up by their owner's id, so each collection maps an owner to the token it holds.
   */
  datatype Db = Db(
    accounts: map<Id, Account>,
    verificationTokens: map<Id, string>,
    resetTokens: map<Id, string>)

  /** The signed bearer token, recorded as what it asserts: the account id and its lifetime. */
  datatype Session = Session(userId: Id, expiresIn: string)

  /** What each handler sends on success. */
  datatype Response =
    | Created(id: Id, user: Account)
    | SignedIn(name: string, email: string, id: Id, token: Session)
    | Verified(message: string, name: string, email: string, id: Id)
    | ResetLinkSent(message: string, link: string)
    | PasswordReset(message: string)

  /** A handler's answer: its success response, or the error message it sends. */
  datatype Result = Ok(response: Response) | Err(message: string)

  /** A handler's answer together with the store it leaves behind. */
  datatype Reply = Reply(result: Result, next: Db)

  const SessionLifetime := "1d"
  const MinPasswordLength := 8
  const MaxPasswordLength := 20
  const ResetUrlPrefix := "http://localhost:3000/reset-password?token="
  const ResetUrlIdParam := "&id="

  const EmailExists := "This email already exists!"
  const MissingCredentials := "Email/Password is missing"
  /** "User not found!" with a mark, as sign-in and password reset send it. */
  const UserNotFoundExclaimed := "User not found!"
  const IncorrectPassword := "Incorrect Password!"
  const MissingParameters := "Invalid request, missing parameters!!"
  const InvalidUserId := "Invalid user id!"
  /** "User not found" without a mark, as email verification and the reset request send it. */
  const UserNotFound := "User not found"
  const AlreadyVerified := "This email is already verified"
  const TokenNotFound := "Verification token not found"
  const InvalidOtp := "Please provide a valid OTP"
  const InvalidEmail := "Please provide a valid email!"
  const ResetPending := "Only after one hour you can request for another token"
  const SamePassword := "New password cannot be same as old password!!"
  const BadPasswordLength := "Password must be 8 to 20 characters long"

  const EmailVerifiedMessage := "Your email is verified."
  const ResetLinkMessage := "Password reset link is sent to your email."
  const PasswordResetMessage := "Password reset successfully"

  /** Some account is registered under `email`. */
  predicate EmailTaken(accounts: map<Id, Account>, email: string) {
    exists id :: id in accounts && accounts[id].email == email
  }

  /** No two accounts share an email. */
  ghost predicate EmailsUnique(accounts: map<Id, Account>) {
    forall a, b :: a in accounts && b in accounts && accounts[a].email == accounts[b].email ==> a == b
  }

  /**
   * The store invariant: every token belongs to an existing account, emails are
   * unique, and a verified account holds no verification token.
   */
  ghost predicate Valid(db: Db) {
    && db.verificationTokens.Keys <= db.accounts.Keys
    && db.resetTokens.Keys <= db.accounts.Keys
    && EmailsUnique(db.accounts)
    && forall id :: id in db.verificationTokens ==> !db.accounts[id].verified
  }

  /**
   * How the store may change from `db` to `db'` under any handler: accounts are
   * never removed, never change name or email, never lose their verified flag,
   * and a reset token, once issued, is never removed or replaced.
   */
  ghost predicate Evolves(db: Db, db': Db) {
    && (forall id :: id in db.accounts ==>
          && id in db'.accounts
          && db'.accounts[id].name == db.accounts[id].name
          && db'.accounts[id].email == db.accounts[id].email
          && (db.accounts[id].verified ==> db'.accounts[id].verified))
    && (forall id :: id in db.resetTokens ==> id in db'.resetTokens && db'.resetTokens[id] == db.resetTokens[id])
  }

  /** `User.findOne({ email })`: the id of the account registered under `email`, if any. */
  function FindByEmail(accounts: map<Id, Account>, email: string): (r: Option<Id>)
    requires EmailsUnique(accounts)
    ensures r.Some? <==> EmailTaken(accounts, email)
    ensures r.Some? ==> r.value in accounts && accounts[r.value].email == email
  {
    if EmailTaken(accounts, email) then
      var id :| id in accounts && accounts[id].email == email; Some(id)
    else
      None
  }

  /** The link mailed by a reset request. */
  function ResetLink(token: string, id: Id): (url: string)
    ensures |url| == |ResetUrlPrefix| + |token| + |ResetUrlIdParam| + |id|
    ensures url[..|ResetUrlPrefix|] == ResetUrlPrefix
    ensures url[|ResetUrlPrefix|..|ResetUrlPrefix| + |token|] == token
    ensures url[|ResetUrlPrefix| + |token|..|url| - |id|] == ResetUrlIdParam
    ensures url[|url| - |id|..] == id
  {
    ResetUrlPrefix + token + ResetUrlIdParam + id
  }

  /** A token without '&' cannot run into the id parameter, so the link determines both token and id. */
  lemma ResetLinkInjective(t1: string, id1: Id, t2: string, id2: Id)
    requires '&' !in t1 && '&' !in t2
    requires ResetLink(t1, id1) == ResetLink(t2, id2)
    ensures t1 == t2 && id1 == id2
  {
    // the first '&' after the prefix is where each token ends
    FirstAmpersand(t1, id1);
    FirstAmpersand(t2, id2);
    assert |t1| == |t2|;
  }

  /** In the link, the characters after the prefix up to the first '&' are the token's. */
  lemma FirstAmpersand(token: string, id: Id)
    requires '&' !in token
    ensures ResetLink(token, id)[|ResetUrlPrefix| + |token|] == '&'
    ensures forall k :: |ResetUrlPrefix| <= k < |ResetUrlPrefix| + |token| ==> ResetLink(token, id)[k] != '&'
  {
  }

  /** `createUser`: register an account under the fresh id `newId`, with the generated `otp` as its verification token. */
  function CreateUser(db: Db, newId: Id, name: string, email: string, password: string, otp: string): (r: Reply)
    requires newId !in db.accounts
    ensures r.result.Err? <==> EmailTaken(db.accounts, email)
    ensures r.result.Err? ==> r.result.message == EmailExists && r.next == db
    ensures r.result.Ok? ==>
      && r.result.response == Created(newId, Account(name, email, password, false))
      && r.next.accounts == db.accounts[newId := Account(name, email, password, false)]
      && r.next.verificationTokens == db.verificationTokens[newId := otp]
      && r.next.resetTokens == db.resetTokens
    ensures Valid(db) ==> Valid(r.next)
    ensures Evolves(db, r.next)
  {
    if EmailTaken(db.accounts, email) then
      Reply(Err(EmailExists), db)
    else
      var user := Account(name, email, password, false);
      Reply(Ok(Created(newId, user)),
            db.(accounts := db.accounts[newId := user],
                verificationTokens := db.verificationTokens[newId := otp]))
  }

  /** `signin`: authenticate; it reads the store and never changes it. */
  function Signin(db: Db, email: string, password: string): (r: Result)
    requires EmailsUnique(db.accounts)
    ensures Text.Trim(email) == "" || Text.Trim(password) == "" ==> r == Err(MissingCredentials)
    ensures Text.Trim(email) != "" && Text.Trim(password) != "" && !EmailTaken(db.accounts, email) ==>
      r == Err(UserNotFoundExclaimed)
    ensures r.Err? ==> r.message in {MissingCredentials, UserNotFoundExclaimed, IncorrectPassword}
    // an existing account with a different password is told the password is wrong
    ensures Text.Trim(email) != "" && Text.Trim(password) != "" && EmailTaken(db.accounts, email) && r.Err? ==>
      r == Err(IncorrectPassword)
    // success exactly when some account has this email and this password
    ensures r.Ok? <==>
      && Text.Trim(email) != "" && Text.Trim(password) != ""
      && exists id :: id in db.accounts && db.accounts[id].email == email && db.accounts[id].password == password
    // and then the token asserts that account's id for one day
    ensures r.Ok? ==>
      && r.response.SignedIn?
      && var id := r.response.id;
      && id in db.accounts && db.accounts[id].email == email && db.accounts[id].password == password
      && r.response == SignedIn(db.accounts[id].name, email, id, Session(id, SessionLifetime))
  {
    if Text.Trim(email) == "" || Text.Trim(password) == "" then
      Err(MissingCredentials)
    else
      match FindByEmail(db.accounts, email)
      case None => Err(UserNotFoundExclaimed)
      case Some(id) =>
        var user := db.accounts[id];
        if user.password != password then Err(IncorrectPassword)
        else Ok(SignedIn(user.name, user.email, id, Session(id, SessionLifetime)))
  }

  /**
   * `verifyemail`: consume the OTP. `isObjectId` stands for `isValidObjectId`.
   * The verified check comes before the token lookup.
   */
  function VerifyEmail(db: Db, userId: Id, otp: string, isObjectId: Id -> bool): (r: Reply)
    ensures r.result.Err? ==> r.next == db
    // the guards, in the order they are tried
    ensures userId == "" || Text.Trim(otp) == "" ==> r.result == Err(MissingParameters)
    ensures userId != "" && Text.Trim(otp) != "" ==>
      && (!isObjectId(userId) ==> r.result == Err(InvalidUserId))
      && (isObjectId(userId) && userId !in db.accounts ==> r.result == Err(UserNotFound))
      && (isObjectId(userId) && userId in db.accounts && db.accounts[userId].verified ==>
            r.result == Err(AlreadyVerified))
      && ((isObjectId(userId) && userId in db.accounts && !db.accounts[userId].verified
            && userId !in db.verificationTokens) ==> r.result == Err(TokenNotFound))
      && ((isObjectId(userId) && userId in db.accounts && !db.accounts[userId].verified
            && userId in db.verificationTokens && db.verificationTokens[userId] != otp) ==>
            r.result == Err(InvalidOtp))
    // success exactly when an unverified account's token matches the OTP
    ensures r.result.Ok? <==>
      && userId != "" && Text.Trim(otp) != "" && isObjectId(userId)
      && userId in db.accounts && !db.accounts[userId].verified
      && userId in db.verificationTokens && db.verificationTokens[userId] == otp
    // and then the account is verified and its token is gone; nothing else changes
    ensures r.result.Ok? ==>
      && var user := db.accounts[userId];
      && r.result.response == Verified(EmailVerifiedMessage, user.name, user.email, userId)
      && r.next == db.(accounts := db.accounts[userId := user.(verified := true)],
                       verificationTokens := db.verificationTokens - {userId})
    ensures Valid(db) ==> Valid(r.next)
    ensures Evolves(db, r.next)
  {
    if userId == "" || Text.Trim(otp) == "" then
      Reply(Err(MissingParameters), db)
    else if !isObjectId(userId) then
      Reply(Err(InvalidUserId), db)
    else if userId !in db.accounts then
      Reply(Err(UserNotFound), db)
    else
      var user := db.accounts[userId];
      if user.verified then
        Reply(Err(AlreadyVerified), db)
      else if userId !in db.verificationTokens then
        Reply(Err(TokenNotFound), db)
      else if db.verificationTokens[userId] != otp then
        Reply(Err(InvalidOtp), db)
      else
        Reply(Ok(Verified(EmailVerifiedMessage, user.name, user.email, userId)),
              db.(accounts := db.accounts[userId := user.(verified := true)],
                  verificationTokens := db.verificationTokens - {userId}))
  }

  /** `forgotPassword`: issue a reset token holding `resetBytes`, unless one is already live. */
  function ForgotPassword(db: Db, email: string, resetBytes: string): (r: Reply)
    requires EmailsUnique(db.accounts)
    ensures r.result.Err? ==> r.next == db
    ensures email == "" ==> r.result == Err(InvalidEmail)
    ensures email != "" && !EmailTaken(db.accounts, email) ==> r.result == Err(UserNotFound)
    ensures email != "" && EmailTaken(db.accounts, email) && FindByEmail(db.accounts, email).value in db.resetTokens ==>
      r.result == Err(ResetPending)
    // success exactly when the account with this email holds no reset token
    ensures r.result.Ok? <==>
      email != "" && exists id :: id in db.accounts && db.accounts[id].email == email && id !in db.resetTokens
    // and then exactly one reset token is added, for that account, and the link names it
    ensures r.result.Ok? ==>
      && var id := FindByEmail(db.accounts, email).value;
      && id !in db.resetTokens
      && r.next == db.(resetTokens := db.resetTokens[id := resetBytes])
      && r.result.response == ResetLinkSent(ResetLinkMessage, ResetLink(resetBytes, id))
    ensures Valid(db) ==> Valid(r.next)
    ensures Evolves(db, r.next)
  {
    if email == "" then
      Reply(Err(InvalidEmail), db)
    else
      match FindByEmail(db.accounts, email)
      case None => Reply(Err(UserNotFound), db)
      case Some(id) =>
        if id in db.resetTokens then
          Reply(Err(ResetPending), db)
        else
          Reply(Ok(ResetLinkSent(ResetLinkMessage, ResetLink(resetBytes, id))),
                db.(resetTokens := db.resetTokens[id := resetBytes]))
  }

  /**
   * `resetPassword` for the authenticated caller `callerId`. The sameness check
   * compares the input as given; the length check and the stored value use it trimmed.
   */
  function ResetPassword(db: Db, callerId: Id, password: string): (r: Reply)
    ensures r.result.Err? ==> r.next == db
    ensures callerId !in db.accounts ==> r.result == Err(UserNotFoundExclaimed)
    ensures callerId in db.accounts && password == db.accounts[callerId].password ==> r.result == Err(SamePassword)
    ensures callerId in db.accounts && password != db.accounts[callerId].password
            && !(MinPasswordLength <= |Text.Trim(password)| <= MaxPasswordLength) ==>
      r.result == Err(BadPasswordLength)
    ensures r.result.Ok? <==>
      && callerId in db.accounts && password != db.accounts[callerId].password
      && MinPasswordLength <= |Text.Trim(password)| <= MaxPasswordLength
    // and then only the caller's password changes: tokens and the verified flag stay
    ensures r.result.Ok? ==>
      && r.result.response == PasswordReset(PasswordResetMessage)
      && r.next == db.(accounts := db.accounts[callerId := db.accounts[callerId].(password := Text.Trim(password))])
    ensures Valid(db) ==> Valid(r.next)
    ensures Evolves(db, r.next)
  {
    if callerId !in db.accounts then
      Reply(Err(UserNotFoundExclaimed), db)
    else
      var user := db.accounts[callerId];
      if password == user.password then
        Reply(Err(SamePassword), db)
      else if |Text.Trim(password)| < MinPasswordLength || |Text.Trim(password)| > MaxPasswordLength then
        Reply(Err(BadPasswordLength), db)
      else
        Reply(Ok(PasswordReset(PasswordResetMessage)),
              db.(accounts := db.accounts[callerId := user.(password := Text.Trim(password))]))
  }
}
