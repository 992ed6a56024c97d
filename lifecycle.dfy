/**
 * Requests to the user controller in sequence, and what holds across them:
 * the store invariant, verified never reverting, an OTP being usable once and
 * a reset token blocking every further reset request for its account.
 */
module Lifecycle {
  import A = Accounts
  import Text

  /** One request to one of the five handlers, with the values the handler would generate or receive. */
  datatype Request =
    | CreateUser(newId: A.Id, name: string, email: string, password: string, otp: string)
    | Signin(email: string, password: string)
    | VerifyEmail(userId: A.Id, otp: string)
    | ForgotPassword(email: string, resetBytes: string)
    | ResetPassword(callerId: A.Id, password: string)

  /** The ids a request may add to the accounts. */
  function NewIds(req: Request): set<A.Id> {
    if req.CreateUser? then {req.newId} else {}
  }

  /** Dispatch one request; `isObjectId` stands for isValidObjectId. */
  function Handle(db: A.Db, req: Request, isObjectId: A.Id -> bool): (r: A.Reply)
    requires A.Valid(db)
    requires req.CreateUser? ==> req.newId !in db.accounts
    ensures A.Valid(r.next) && A.Evolves(db, r.next)
    ensures r.next.accounts.Keys <= db.accounts.Keys + NewIds(req)
    ensures req.Signin? ==> r.next == db
  {
    match req
    case CreateUser(newId, name, email, password, otp) => A.CreateUser(db, newId, name, email, password, otp)
    case Signin(email, password) => A.Reply(A.Signin(db, email, password), db)
    case VerifyEmail(userId, otp) => A.VerifyEmail(db, userId, otp, isObjectId)
    case ForgotPassword(email, resetBytes) => A.ForgotPassword(db, email, resetBytes)
    case ResetPassword(callerId, password) => A.ResetPassword(db, callerId, password)
  }

  /** Every registration in `reqs` comes with its own id, unused in `db`. */
  ghost predicate FreshIds(db: A.Db, reqs: seq<Request>) {
    && (forall i :: 0 <= i < |reqs| && reqs[i].CreateUser? ==> reqs[i].newId !in db.accounts)
    && (forall i, j :: 0 <= i < j < |reqs| && reqs[i].CreateUser? && reqs[j].CreateUser? ==>
          reqs[i].newId != reqs[j].newId)
  }

  /** The replies to a sequence of requests and the store they leave. */
  datatype Log = Log(results: seq<A.Result>, final: A.Db)

  function Run(db: A.Db, reqs: seq<Request>, isObjectId: A.Id -> bool): (log: Log)
    requires A.Valid(db) && FreshIds(db, reqs)
    ensures |log.results| == |reqs|
    ensures A.Valid(log.final) && A.Evolves(db, log.final)
    decreases |reqs|
  {
    if reqs == [] then
      Log([], db)
    else
      var step := Handle(db, reqs[0], isObjectId);
      var rest := Run(step.next, reqs[1..], isObjectId);
      Log([step.result] + rest.results, rest.final)
  }

  /** Once an account is verified, no later verification request for it succeeds. */
  lemma {:induction false} VerificationIsFinal(db: A.Db, reqs: seq<Request>, isObjectId: A.Id -> bool, id: A.Id)
    requires A.Valid(db) && FreshIds(db, reqs)
    requires id in db.accounts && db.accounts[id].verified
    ensures forall i :: 0 <= i < |reqs| && reqs[i].VerifyEmail? && reqs[i].userId == id ==>
      Run(db, reqs, isObjectId).results[i].Err?
    decreases |reqs|
  {
    if reqs != [] {
      var step := Handle(db, reqs[0], isObjectId);
      VerificationIsFinal(step.next, reqs[1..], isObjectId, id);
      var log := Run(db, reqs, isObjectId);
      forall i | 0 <= i < |reqs| && reqs[i].VerifyEmail? && reqs[i].userId == id
        ensures log.results[i].Err?
      {
        if i > 0 {
          assert reqs[1..][i - 1] == reqs[i];
        }
      }
    }
  }

  /** An OTP is single-use: after a successful verification, every later one for that account fails. */
  lemma OtpIsSingleUse(db: A.Db, reqs: seq<Request>, isObjectId: A.Id -> bool, id: A.Id, otp: string)
    requires A.Valid(db) && FreshIds(db, reqs)
    requires reqs != [] && reqs[0] == VerifyEmail(id, otp)
    requires A.VerifyEmail(db, id, otp, isObjectId).result.Ok?
    ensures forall i :: 1 <= i < |reqs| && reqs[i].VerifyEmail? && reqs[i].userId == id ==>
      Run(db, reqs, isObjectId).results[i].Err?
  {
    var next := Handle(db, reqs[0], isObjectId).next;
    VerificationIsFinal(next, reqs[1..], isObjectId, id);
    forall i | 1 <= i < |reqs| && reqs[i].VerifyEmail? && reqs[i].userId == id
      ensures Run(db, reqs, isObjectId).results[i].Err?
    {
      assert reqs[1..][i - 1] == reqs[i];
    }
  }

  /**
   * While an account holds a reset token every reset request for its email is
   * refused; and since no handler removes a reset token, that lasts for the whole run.
   */
  lemma {:induction false} ResetRequestIsOnce(db: A.Db, reqs: seq<Request>, isObjectId: A.Id -> bool, id: A.Id)
    requires A.Valid(db) && FreshIds(db, reqs)
    requires id in db.resetTokens
    ensures forall i :: 0 <= i < |reqs| && reqs[i].ForgotPassword? && reqs[i].email == db.accounts[id].email ==>
      Run(db, reqs, isObjectId).results[i].Err?
    decreases |reqs|
  {
    if reqs != [] {
      var step := Handle(db, reqs[0], isObjectId);
      ResetRequestIsOnce(step.next, reqs[1..], isObjectId, id);
      var log := Run(db, reqs, isObjectId);
      forall i | 0 <= i < |reqs| && reqs[i].ForgotPassword? && reqs[i].email == db.accounts[id].email
        ensures log.results[i].Err?
      {
        if i > 0 {
          assert reqs[1..][i - 1] == reqs[i];
        } else {
          assert A.FindByEmail(db.accounts, reqs[0].email).value == id;
        }
      }
    }
  }

  /** Registering an email that is already registered fails and changes nothing. */
  lemma DuplicateRegistrationRejected(db: A.Db, id1: A.Id, id2: A.Id, name1: string, name2: string,
                                      email: string, pw1: string, pw2: string, otp1: string, otp2: string)
    requires id1 !in db.accounts
    requires id2 !in db.accounts && id2 != id1
    ensures var first := A.CreateUser(db, id1, name1, email, pw1, otp1);
      var second := A.CreateUser(first.next, id2, name2, email, pw2, otp2);
      second == A.Reply(A.Err(A.EmailExists), first.next)
  {
    var first := A.CreateUser(db, id1, name1, email, pw1, otp1);
    if first.result.Ok? {
      // the first registration holds the email, and id2 is still unused
      assert first.next.accounts[id1].email == email;
      assert first.next.accounts.Keys == db.accounts.Keys + {id1};
    }
  }

  /** A new account can sign in with its credentials at once: sign-in does not ask for verification. */
  lemma SigninAfterRegistration(db: A.Db, id: A.Id, name: string, email: string, password: string, otp: string)
    requires A.Valid(db) && id !in db.accounts
    requires !A.EmailTaken(db.accounts, email)
    requires Text.Trim(email) != "" && Text.Trim(password) != ""
    ensures var next := A.CreateUser(db, id, name, email, password, otp).next;
      && !next.accounts[id].verified
      && A.Signin(next, email, password) == A.Ok(A.SignedIn(name, email, id, A.Session(id, A.SessionLifetime)))
  {
  }

  /** A second verification of a verified account reports it as verified, whatever OTP it carries. */
  lemma VerifyReplayHitsVerifiedGuard(db: A.Db, id: A.Id, otp: string, otp2: string, isObjectId: A.Id -> bool)
    requires A.VerifyEmail(db, id, otp, isObjectId).result.Ok?
    requires Text.Trim(otp2) != ""
    ensures var next := A.VerifyEmail(db, id, otp, isObjectId).next;
      A.VerifyEmail(next, id, otp2, isObjectId) == A.Reply(A.Err(A.AlreadyVerified), next)
  {
  }

  /** Two reset requests in a row: the first issues a token, the second is refused. */
  lemma SecondResetRequestRefused(db: A.Db, email: string, bytes1: string, bytes2: string)
    requires A.Valid(db)
    requires A.ForgotPassword(db, email, bytes1).result.Ok?
    ensures var next := A.ForgotPassword(db, email, bytes1).next;
      A.Valid(next) && A.ForgotPassword(next, email, bytes2) == A.Reply(A.Err(A.ResetPending), next)
  {
  }

  /** After a reset the trimmed new password signs in, and the old one does not unless they coincide. */
  lemma SigninAfterReset(db: A.Db, id: A.Id, password: string, oldPassword: string)
    requires A.Valid(db)
    requires A.ResetPassword(db, id, password).result.Ok?
    requires Text.Trim(db.accounts[id].email) != "" && Text.Trim(oldPassword) != ""
    requires oldPassword == db.accounts[id].password
    ensures var next := A.ResetPassword(db, id, password).next;
      var email := db.accounts[id].email;
      && A.Signin(next, email, Text.Trim(password)).Ok?
      && A.Signin(next, email, Text.Trim(password)).response.id == id
      && (oldPassword != Text.Trim(password) ==> A.Signin(next, email, oldPassword) == A.Err(A.IncorrectPassword))
  {
  }

  /**
   * The sameness check compares the input before trimming, so every reset whose
   * input is the stored (already trimmed, valid-length) password with whitespace
   * in front succeeds and leaves the store exactly as it was.
   */
  lemma ResetCanKeepOldPassword(db: A.Db, id: A.Id, pad: string)
    requires id in db.accounts
    requires Text.Trim(db.accounts[id].password) == db.accounts[id].password
    requires A.MinPasswordLength <= |db.accounts[id].password| <= A.MaxPasswordLength
    requires pad != [] && forall k :: 0 <= k < |pad| ==> Text.IsWhiteSpace(pad[k])
    ensures var r := A.ResetPassword(db, id, pad + db.accounts[id].password);
      r.result.Ok? && r.next == db
  {
    var p := db.accounts[id].password;
    Text.TrimAfterPad(pad, p);
    assert pad + p != p by {
      assert |pad + p| != |p|;
    }
    assert db.accounts[id := db.accounts[id].(password := p)] == db.accounts;
  }
}
