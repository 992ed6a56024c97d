/**
 * The user controller as an object over the three collections it updates in
 * place. Each state-changing handler is a method that tries its guards in the
 * source's order and returns at the first that fails; its contract ties the
 * reply and the new collections to the matching function of module Accounts.
 * `signin` changes nothing and is `Accounts.Signin(store.State(), ...)`.
 */
module Store {
  import opened Accounts
  import Text

  class AccountStore {
    var accounts: map<Id, Account>
    var verificationTokens: map<Id, string>
    var resetTokens: map<Id, string>

    /** The collections as one value. */
    function State(): Db
      reads this
    {
      Db(accounts, verificationTokens, resetTokens)
    }

    ghost predicate Valid()
      reads this
    {
      Accounts.Valid(State())
    }

    /** An empty store. */
    constructor ()
      ensures Valid()
      ensures accounts == map[] && verificationTokens == map[] && resetTokens == map[]
    {
      accounts, verificationTokens, resetTokens := map[], map[], map[];
    }

    /** `createUser`; `newId` is the id Mongo gives the new document, `otp` what generateOtp returned. */
    method CreateUser(newId: Id, name: string, email: string, password: string, otp: string) returns (r: Result)
      requires Valid()
      requires newId !in accounts
      modifies this
      ensures Valid()
      ensures Reply(r, State()) == Accounts.CreateUser(old(State()), newId, name, email, password, otp)
      ensures r.Err? ==> unchanged(this)
    {
      if EmailTaken(accounts, email) {
        return Err(EmailExists);
      }
      var user := Account(name, email, password, false);
      // the token and the account are saved together
      verificationTokens := verificationTokens[newId := otp];
      accounts := accounts[newId := user];
      r := Ok(Created(newId, user));
    }

    /** `verifyemail`; `isObjectId` stands for mongoose's isValidObjectId. */
    method VerifyEmail(userId: Id, otp: string, isObjectId: Id -> bool) returns (r: Result)
      requires Valid()
      modifies this
      ensures Valid()
      ensures Reply(r, State()) == Accounts.VerifyEmail(old(State()), userId, otp, isObjectId)
      ensures r.Err? ==> unchanged(this)
    {
      if userId == "" || Text.Trim(otp) == "" {
        return Err(MissingParameters);
      }
      if !isObjectId(userId) {
        return Err(InvalidUserId);
      }
      if userId !in accounts {
        return Err(UserNotFound);
      }
      var user := accounts[userId];
      if user.verified {
        return Err(AlreadyVerified);
      }
      if userId !in verificationTokens {
        return Err(TokenNotFound);
      }
      if verificationTokens[userId] != otp {
        return Err(InvalidOtp);
      }
      accounts := accounts[userId := user.(verified := true)];
      verificationTokens := verificationTokens - {userId};
      r := Ok(Verified(EmailVerifiedMessage, user.name, user.email, userId));
    }

    /** `forgotPassword`; `resetBytes` is what createRandomBytes returned. */
    method ForgotPassword(email: string, resetBytes: string) returns (r: Result)
      requires Valid()
      modifies this
      ensures Valid()
      ensures Reply(r, State()) == Accounts.ForgotPassword(old(State()), email, resetBytes)
      ensures r.Err? ==> unchanged(this)
    {
      if email == "" {
        return Err(InvalidEmail);
      }
      var found := FindByEmail(accounts, email);
      if found.None? {
        return Err(UserNotFound);
      }
      var id := found.value;
      if id in resetTokens {
        return Err(ResetPending);
      }
      resetTokens := resetTokens[id := resetBytes];
      r := Ok(ResetLinkSent(ResetLinkMessage, ResetLink(resetBytes, id)));
    }

    /** `resetPassword` for the authenticated caller `callerId` (the source's `req.user._id`). */
    method ResetPassword(callerId: Id, password: string) returns (r: Result)
      requires Valid()
      modifies this
      ensures Valid()
      ensures Reply(r, State()) == Accounts.ResetPassword(old(State()), callerId, password)
      ensures r.Err? ==> unchanged(this)
      ensures verificationTokens == old(verificationTokens) && resetTokens == old(resetTokens)
    {
      if callerId !in accounts {
        return Err(UserNotFoundExclaimed);
      }
      var user := accounts[callerId];
      if password == user.password {
        return Err(SamePassword);
      }
      var trimmed := Text.Trim(password);
      if |trimmed| < MinPasswordLength || |trimmed| > MaxPasswordLength {
        return Err(BadPasswordLength);
      }
      accounts := accounts[callerId := user.(password := trimmed)];
      // the reset token lookup that follows in the source is discarded, so no token changes
      r := Ok(PasswordReset(PasswordResetMessage));
    }
  }
}
