# Account lifecycle of the user controller, in Dafny

This project models the five request handlers of `controllers/user.js`:

- `createUser` registers an account.
- `signin` authenticates an account and issues a bearer token.
- `verifyemail` consumes the one-time code (OTP) sent at registration.
- `forgotPassword` issues a password-reset token and mails a reset link.
- `resetPassword` replaces the authenticated caller's password.

The handlers work over a store of three collections:

- accounts: name, email, password, verified flag; keyed by document id;
- verification tokens: one OTP per owner id;
- reset tokens: one token per owner id.

Files:

- `text.dfy` (module `Text`): JavaScript's `String.prototype.trim`. It removes the ECMAScript WhiteSpace and LineTerminator characters at both ends.
- `accounts.dfy` (module `Accounts`): the store as a value `Db`, the exact error messages, and each handler as a function. Each function maps the store before a request to a `Reply`: the success response or the error message, together with the store afterwards. These functions are the specification. Their contracts give:
  - the guards in the source's order;
  - that every failure leaves the store unchanged;
  - the exact effect of a success;
  - that the store invariant `Valid` is kept;
  - that the `Evolves` relation holds between the old and the new store.
- `store.dfy` (module `Store`): class `AccountStore`. Its three map fields are changed in place by the four state-changing handlers. Each method tries the source's guards in order, returns at the first that fails, and is proved equal to the matching `Accounts` function. `signin` only reads, so it is the function `Accounts.Signin` applied to `store.State()`.
- `lifecycle.dfy` (module `Lifecycle`): sequences of requests (`Run`) and the properties that span several calls. These are: an OTP is single-use, a live reset token blocks every further reset request for its account, and a replayed verification hits the "already verified" guard.

The store invariant (`Accounts.Valid`) says:

- every token is owned by an existing account;
- no two accounts share an email;
- a verified account holds no verification token.

`Accounts.Evolves` says that, under every handler:

- accounts are never removed;
- an account's name and email never change;
- `verified` never goes back to false;
- a reset token, once issued, is never removed or replaced.

Collaborators become parameters:

- the generated OTP (`otp`);
- the random reset bytes (`resetBytes`);
- the new document id (`newId`, required to be unused);
- the authenticated caller (`callerId`, the source's `req.user._id`);
- mongoose's `isValidObjectId` (a total function `isObjectId: Id -> bool`, otherwise unconstrained).

Hashing is transparent: `comparePassword` and `compareToken` are string equality with the stored value. The bearer token is recorded as what it asserts: `Session(userId, "1d")`. A newly created account has `verified` false; that default lives in the account schema, which is not part of this model. The two saves in `createUser` are one atomic step.

Repeating a successful verification fails with "This email is already verified", not with "Verification token not found". The reason is that the `verified` check (`controllers/user.js:92-94`) comes before the token lookup. `Lifecycle.VerifyReplayHitsVerifiedGuard` states this.

The sameness check in `resetPassword` compares the input as given. The length check and the stored value use the input trimmed. So when the stored password is already trimmed and 8 to 20 characters long, a reset whose input is that password with whitespace in front (`" Secret123"` against `"Secret123"`) succeeds and stores the same password again. `Lifecycle.ResetCanKeepOldPassword` proves this for every such stored password and every such padding. `createUser` stores a password as given, so stored passwords outside these conditions can occur; for them the padded input is rejected by the length check or stores a different, trimmed password.

## Model

| member | source | states |
|---|---|---|
| Text.Trim | controllers/user.js:169-172 | `trim` returns the slice of the input between its leading and trailing whitespace. Nothing more could be removed. The result is empty exactly when the input is all whitespace. |
| Accounts.FindByEmail | controllers/user.js:54-55 | `findOne({ email })` finds an account exactly when one has that email, and the id it returns has that email (emails are unique). |
| Accounts.ResetLink | controllers/user.js:147 | The reset link is the fixed prefix, then the token, then `&id=`, then the id. Each segment sits at its stated offset. |
| Accounts.ResetLinkInjective | controllers/user.js:147 | When the tokens contain no `&`, two equal links have equal tokens and equal ids. |
| Accounts.CreateUser | controllers/user.js:11-41 | Fails with "This email already exists!" exactly when the email is registered, and then leaves the store unchanged. Otherwise it adds exactly one unverified account with the given name, email and password under the fresh id, and one verification token for that id holding the OTP. Nothing else changes. It keeps `Valid` and `Evolves`. |
| Accounts.Signin | controllers/user.js:49-72 | Returns "Email/Password is missing" if either trimmed input is empty, then "User not found!", then "Incorrect Password!". For an existing email with non-blank inputs, every failure is "Incorrect Password!". It succeeds exactly when both inputs are non-blank and an account has that email and that password. The token it issues then names that account's id with lifetime "1d". It returns no store, so it cannot change one. |
| Accounts.VerifyEmail | controllers/user.js:75-126 | Tries the guards in order: missing parameters, invalid id, "User not found", "This email is already verified", "Verification token not found", "Please provide a valid OTP". Every failure, a wrong OTP included, leaves the store and the token unchanged. Success happens exactly when an unverified account's token equals the OTP. It then sets that account's `verified`, deletes just its token, and changes nothing else. |
| Accounts.ForgotPassword | controllers/user.js:133-158 | Fails with "Please provide a valid email!", then "User not found", then "Only after one hour you can request for another token" when the account already holds a reset token. Every failure leaves the store unchanged. Success happens exactly when the account with that email holds no reset token. It then adds exactly that one reset token, and the mailed link names it and the account. |
| Accounts.ResetPassword | controllers/user.js:161-175 | Fails with "User not found!", then, when the untrimmed input equals the current password, the same-password message, then the length message when the trimmed length is outside [8, 20]. Each failure leaves the store unchanged. On success only the caller's password changes, to the trimmed input. Tokens and `verified` stay as they were. |
| Store.AccountStore.CreateUser | controllers/user.js:11-42 | The in-place registration returns what `Accounts.CreateUser` returns and leaves the fields as it does. It keeps the store invariant and changes nothing on failure. |
| Store.AccountStore.VerifyEmail | controllers/user.js:75-110 | The in-place verification matches `Accounts.VerifyEmail`: it sets `verified` and removes the token, and changes nothing on failure. |
| Store.AccountStore.ForgotPassword | controllers/user.js:133-147 | The in-place reset request matches `Accounts.ForgotPassword` and changes nothing on failure. |
| Store.AccountStore.ResetPassword | controllers/user.js:161-175 | The in-place password reset matches `Accounts.ResetPassword`. It never touches either token collection and changes nothing on failure. |
| Lifecycle.Handle | controllers/user.js:11-187 | Every handler keeps the store invariant and `Evolves`, only `createUser` adds an account id, and `signin` leaves the store as it was. |
| Lifecycle.Run | controllers/user.js:11-187 | Over any sequence of requests with fresh registration ids, the store at the end satisfies the store invariant and is related to the first store by `Evolves`. So no account is removed or renamed, `verified` never reverts, and no reset token is removed or replaced. Applied to a prefix of the sequence, this gives the same for every intermediate store. |
| Lifecycle.VerificationIsFinal | controllers/user.js:92-94 | Once an account is verified, every later verification request for it fails. |
| Lifecycle.OtpIsSingleUse | controllers/user.js:106-109 | After a successful verification, no later verification request for that account succeeds. |
| Lifecycle.ResetRequestIsOnce | controllers/user.js:140-141 | While an account holds a reset token, every reset request for its email in any later sequence of requests fails. |
| Lifecycle.DuplicateRegistrationRejected | controllers/user.js:15-19 | Registering the same email twice: the second attempt returns "This email already exists!" and changes nothing. |
| Lifecycle.SigninAfterRegistration | controllers/user.js:54-62 | A freshly registered, still unverified account signs in with its own credentials. The token names its id. |
| Lifecycle.VerifyReplayHitsVerifiedGuard | controllers/user.js:92-99 | After a successful verification, a second one with any non-blank OTP returns "This email is already verified" and changes nothing. |
| Lifecycle.SecondResetRequestRefused | controllers/user.js:140-145 | A successful reset request followed by another for the same email: the second returns the one-hour message and changes nothing. |
| Lifecycle.SigninAfterReset | controllers/user.js:172 | After a reset, the trimmed new password signs in to the same account. The old password, if different, gets "Incorrect Password!". |
| Lifecycle.ResetCanKeepOldPassword | controllers/user.js:166-172 | For any account whose stored password is already trimmed and 8 to 20 characters long, a reset whose input is that password after one or more whitespace characters succeeds and leaves the store exactly as it was. |

## Left out

- Mail sending (`mailTransport().sendMail` in every handler but `signin`): fire-and-forget output with no effect on the store or the reply. The reset link that `forgotPassword` mails is returned in its success value, so that its shape can be stated.
- JWT signing with the secret from the environment: a foreign library. The issued token is recorded as its account id and its "1d" lifetime.
- bcrypt hashing and comparison: treated as storing and comparing the plain text. bcrypt's own limits, such as ignoring bytes past the 72nd, are not modelled.
- `generateOtp`, `createRandomBytes` and `isValidObjectId`: library calls, passed in as parameters. New document ids are passed in and required to be unused, as generated ObjectIds are.
- Reset-token expiry after one hour: the expiry lives in the reset-token schema, which is not part of this model. The code only tests whether a token is present, so in the model a reset token, once issued, is permanent.
- Storage failures, the mapping of thrown errors to the 500 reply in `createUser` and `verifyemail`, the handlers' lack of such a mapping elsewhere, and races between concurrent requests. Each handler is one atomic step.
- Crashes on absent fields (`email.trim()` or `otp.trim()` on an undefined field): inputs are strings, and a missing field is the empty string where the code tests `!x`.
- HTTP status codes and response shaping beyond the success values and error messages, and the unused `require("../routes/user")`.
- Text.Trim: JavaScript's `length` counts UTF-16 code units, while the model counts Unicode scalar values. The [8, 20] length check therefore differs from the source for characters outside the Basic Multilingual Plane.
- Ids are compared as exact text. `User.findById` first casts its argument to an ObjectId, which accepts upper-case hex and 12-character strings as raw bytes, so in the source different texts can reach the same document. The model does not capture this cast: a request naming an account by a different spelling of its id gets "User not found" (or "User not found!") in the model, where the source would find the account.
- `db.js`: the database connection and environment loading, which is I/O.
