# natours authentication core in Dafny

This project models the authentication and access-control layer of the natours tour-booking API, together with the user-record rules and the error-to-response mapping that layer relies on:

- **AuthController** (`controllers/authController.js`):
  - reading the bearer token and the `protect` pipeline;
  - the `restrictTo` role gate;
  - `login` and `signUp`;
  - `createSendToken`;
  - the password lifecycle: `forgotPassword`, `resetPassword` and `updatePassword`.
- **UserModel** (`models/userModel.js`):
  - the schema validators for name, email, password and passwordConfirm;
  - the `pre('save')` hashing hook;
  - `document.save()` over the users collection, with its unique indexes on `_id` and `email`.
- **ErrorController** (`controllers/errorController.js`):
  - the cast, duplicate-key and validation handlers;
  - the development and production senders;
  - the exported dispatcher.
- **Crypto**: SHA-256, bcrypt and the JWT claims, as symbolic terms. A digest or hash is a free term over its input, so equal digests mean equal inputs.
- **Text**: `startsWith`, `split`, `join` and `toLowerCase`, plus the last path segment of a URL.
- **AuthProperties**: lemmas that relate several calls. They cover:
  - who can log in;
  - what a password change does to tokens already issued;
  - the reset round trip and its single use;
  - what clients see in production;
  - the discrepancies listed under "Findings".

The users collection is a `seq<User>` in natural order. `findOne` returns the first record that matches. A user document is the class `UserModel.UserDoc`. Its methods change the record's paths in place, and it tracks whether the document is new and whether its password path was modified. `UserModel.UserStore.Save` performs `document.save()` in this order:

1. validation, unless it is switched off;
2. the hook;
3. the index checks;
4. the write.

Each controller flow is two members:

- a function from the collection and the request to the new collection and the reply (`LoginSpec`, `SignUpSpec`, `ForgotPasswordSpec`, `ResetPasswordSpec`, `UpdatePasswordSpec`);
- a method that performs the flow step by step on documents and is proved equal to that function.

These flow functions and methods, and `Saved` and `UserStore.Save` under them, are the corrected versions of the five discrepancies listed under "Findings":

- `Saved` runs the corrected hook `PreSaveHook`, which records `passwordChangedAt`. The hook as written is `PreSaveHookAsWritten`.
- `ForgotPasswordSpec` and `ForgotPassword` mail `ResetUrl`, the link without the stray '}'. The link as written is `ResetUrlAsWritten`.
- `ResetPasswordSpec` and `ResetPassword` stop after the 400 for a missed lookup. The lookup as written is `ResetLookupAsWritten`.
- `LoginSpec` and `Login` answer missing credentials with `AppError(…, 400)`. The error as written is `MissingCredentialsAsWritten`.
- `SignUpSpec` and `SignUp` ignore the body's role. The record as written is `SignUpFieldsAsWritten`.

The four flow methods that write (`SignUp`, `ForgotPassword`, `ResetPassword` and `UpdatePassword`) keep the collection's invariant (`StoreInvariant`). `UserStore.Save` and `SendResetLink` on their own do not promise it, because it depends on the record being saved. The invariant is:

- unique ids and emails;
- lower-case, valid emails;
- hashed passwords;
- no stored confirmation;
- the two reset paths set together or not at all.

Time is the `now` argument, `Date.now()` in milliseconds. A token's `iat` is `now / 1000`. Email delivery is the boolean `delivered`. The random reset token and the new user's id are arguments too. `jwt.verify` is an argument of type `string -> Verified`, because the secret, the signature and the expiry all live inside the library.

Three helpers are called by the controller but not defined in `models/userModel.js`: `correctPassword`, `changedPasswordAfter` and `createPasswordResetToken`. They are modelled with the usual definitions:

- `correctPassword` is `bcrypt.compare` against the stored hash.
- `changedPasswordAfter(iat)` holds when `passwordChangedAt` is set and `iat < passwordChangedAt / 1000`.
- `createPasswordResetToken` stores the SHA-256 of the token and an expiry `10 * 60 * 1000` ms ahead.

The schema in `models/userModel.js` declares only `name`, `email`, `photo`, `password` and `passwordConfirm`. The controller also reads and writes `role`, `passwordChangedAt`, `passwordResetToken` and `passwordResetExpires`. The model assumes that the schema declares these four paths as well, so that `User.create` and `save()` store them, and that `role` defaults to "user". Under Mongoose's default strict mode, paths the schema does not declare would be dropped.

`utils/AppError.js` is not part of this model. `AppError` is taken to keep its message and status code, to set `status` to "fail" for a 4xx code and "error" otherwise, and to mark the error operational.

The model follows the code where it departs from common REST conventions:

- A token that `jwt.verify` rejects (bad signature or expired) has no handler of its own. It reaches the client as the generic 500, not as a 401 (`AuthProperties.BadTokenAnswers500`).
- Signing up with an email already taken is a 400 from the duplicate-key handler, not a 409 (`AuthProperties.DuplicateEmailSignUp`).
- A reset token is accepted only while its expiry is strictly greater than now.
- `protect` reads the token only from the `Authorization` header, never from the `jwt` cookie.
- The code contains no logout.

## Model

| member | source | states |
|---|---|---|
| Text.Split | controllers/authController.js:84 | `split(' ')` gives at least one piece, no piece holds the separator, and joining the pieces with it gives back the string |
| Text.Lower | models/userModel.js:16 | lower-casing keeps the length, turns each upper-case letter into its lower-case letter (32 code points on) and keeps every other character |
| Text.LastSegment | controllers/authController.js:139-141 | the text after the last '/' holds no '/', is a suffix, and is preceded by a '/' when it is shorter than the whole |
| Text.LastSegmentAfterSlash | controllers/authController.js:139-141 | a URL ending in "/" + t, with t free of '/', has t as its last segment |
| Crypto.Bcrypt | models/userModel.js:46 | a bcrypt hash accepts exactly the plaintext it was made from |
| Crypto.Sha256Injective | controllers/authController.js:169-177 | equal SHA-256 digests come from equal tokens |
| Crypto.IssuedAt | controllers/authController.js:11-15 | the `iat` claim jsonwebtoken puts in a token signed at a millisecond clock value is that time in whole seconds, rounded down |
| ErrorController.LeadingDigit | controllers/errorController.js:7 | the first decimal digit of a two- or three-digit status code, which is the digit the assumed AppError (not part of this model) tests with `${statusCode}.startsWith('4')` to choose its status |
| ErrorController.AppError | controllers/errorController.js:7 | an operational error keeping message and code, with status "fail" for 4xx and "error" for 5xx or no code |
| ErrorController.LibraryError | controllers/errorController.js:44-53 | an error thrown by a library is not operational and has no status code |
| ErrorController.HandleCastErrorDB | controllers/errorController.js:5-8 | a CastError becomes an operational 400 "Invalid path: value" |
| ErrorController.HandleDuplicateFieldsDB | controllers/errorController.js:10-16 | a duplicate key becomes an operational 400 naming the field and value twice |
| ErrorController.HandleValidationError | controllers/errorController.js:18-23 | a ValidationError becomes an operational 400 "Invalid input data. " followed by the field messages joined with ". " |
| ErrorController.WithDefaults | controllers/errorController.js:58-59 | a missing or zero status code becomes 500 and a missing or empty status "error"; a non-zero code and a non-empty status are kept; nothing else changes |
| ErrorController.SendErrorDev | controllers/errorController.js:26-36 | the development response echoes status code, status, message, stack and the error |
| ErrorController.SendErrorProd | controllers/errorController.js:37-54 | production answers an operational error with its own code, status and message, and anything else with 500 and the generic message, never with a stack |
| ErrorController.ProductionError | controllers/errorController.js:66-68 | production replaces a CastError by its handler's error, and leaves an operational result either coded or unchanged |
| ErrorController.ErrorResponse | controllers/errorController.js:56-71 | no response exactly when NODE_ENV is neither development nor production; development echoes the defaulted code, message and stack; production never sends a stack or the error |
| ErrorController.HandleError | controllers/errorController.js:56-71 | the dispatcher, reassigning the error step by step, writes exactly the response ErrorResponse describes |
| ErrorController.ProductionCastError | controllers/errorController.js:66 | in production a CastError is answered 400 "fail" with "Invalid path: value" |
| ErrorController.ProductionDuplicateKey | controllers/errorController.js:67 | in production a duplicate key on one field is answered 400 "fail" naming field and value |
| ErrorController.ProductionValidationError | controllers/errorController.js:68 | in production a ValidationError is answered 400 "fail" with every field message |
| ErrorController.ProductionOtherError | controllers/errorController.js:39-53 | in production any other operational error keeps its defaulted code and message, and a non-operational one becomes the generic 500 |
| UserModel.NameError | models/userModel.js:6-11 | a name passes exactly when present with 10 to 40 characters; a missing or empty name gets the required message, then a longer one the maxlength message, then a shorter one the minlength message |
| UserModel.EmailError | models/userModel.js:12-19 | an email passes exactly when present and in email form; a missing one gets the required message and a malformed one the validator's message |
| UserModel.PasswordError | models/userModel.js:23-27 | a password passes exactly when present with at least 8 characters; a missing one gets the required message and a shorter one the minlength message |
| UserModel.PasswordConfirmError | models/userModel.js:28-39 | the confirmation passes exactly when present and equal to the password; a missing or empty one gets the required message "Please confirm your password", and a present, different one "Passwords are not the same" |
| UserModel.Messages | models/userModel.js:5-40 | at most one message per check, and none exactly when every check passed |
| UserModel.MessagesReportFailures | models/userModel.js:5-40 | a message is reported exactly when some check failed with it |
| UserModel.MessagesInOrder | models/userModel.js:5-40 | the messages keep the order of the checks: earlier checks report first |
| UserModel.ValidationMessages | models/userModel.js:5-40 | validation reports nothing exactly when the record is acceptable, and reports the message of every failing path |
| UserModel.ValidationMessagesInSchemaOrder | models/userModel.js:5-40 | the reported messages are exactly each failing path's message, in the order name, email, password, passwordConfirm |
| UserModel.PreSaveHookAsWritten | models/userModel.js:42-50 | an unmodified password leaves the record unchanged; a modified one is replaced by its bcrypt hash, which accepts exactly the old plaintext, and passwordConfirm is dropped; no other path changes |
| UserModel.PreSaveHook | models/userModel.js:42-50 | the hook as above, also recording the time of a password change on an existing document in passwordChangedAt |
| UserModel.FindIndex | controllers/authController.js:63 | findOne's position is the first record satisfying the filter, or none satisfies it |
| UserModel.WriteError | models/userModel.js:15 | a write passes exactly when an insert brings a free id (an update an existing one) and no other record holds the email; a taken id on insert or a taken email is a duplicate-key error (code 11000), the email one naming the email; an update of a missing record is a non-operational error without a code |
| UserModel.FindOne | controllers/authController.js:130 | findOne returns a record of the collection that satisfies the filter, or none does |
| UserModel.Saved | controllers/authController.js:137 | save: failed validation leaves the document and collection untouched; a failed write leaves the collection; a success stores the hooked, validated record |
| UserModel.SavePreservesInvariant | models/userModel.js:15 | a save whose hooked record is storable keeps ids and emails unique and every record storable |
| UserModel.ValidatedHookIsStored | models/userModel.js:42-50 | a validated record with a lower-case email is storable once hooked |
| UserModel.UnmodifiedSaveKeepsRecord | models/userModel.js:44 | saving without a modified password never re-hashes |
| UserModel.UserDoc.New | controllers/authController.js:40-47 | User.create's document is new, with the password path modified when a password is given |
| UserModel.UserDoc.Loaded | controllers/authController.js:199 | a loaded document is neither new nor modified |
| UserModel.UserDoc.SetPassword | controllers/authController.js:206-207 | assigning password and confirmation changes only those paths and marks the password modified when its value changes |
| UserModel.UserDoc.CreatePasswordResetToken | controllers/authController.js:136 | the document stores the token's SHA-256 and an expiry ten minutes ahead, and returns the token |
| UserModel.UserDoc.ClearPasswordResetToken | controllers/authController.js:186-187 | assigning undefined to both reset paths clears them and nothing else |
| UserModel.UserDoc.RunPreSaveHook | models/userModel.js:42-50 | the hook run in place leaves the document as PreSaveHook describes |
| UserModel.UserStore.constructor | models/userModel.js:52 | an empty collection satisfies the invariant |
| UserModel.UserStore.Save | controllers/authController.js:188 | the collection, the document and the error are exactly what Saved describes, and a successful save clears the new and modified flags |
| AuthController.BearerToken | controllers/authController.js:80-85 | a token is taken only from a header starting with "Bearer", and is a non-empty piece without spaces |
| AuthController.BearerTokenIsSecondPiece | controllers/authController.js:80-85 | for a header whose first space-separated piece starts with "Bearer", a non-empty second piece is the token, whatever pieces follow it |
| AuthController.BearerWithoutTokenIsNone | controllers/authController.js:80-90 | a header without a space, or whose second piece is empty, yields no token, which protect answers with 401 |
| AuthController.BearerRoundTrip | controllers/authController.js:80-85 | a header "Bearer " + t yields t |
| AuthController.BearerSchemeIsLoose | controllers/authController.js:82 | a header made of any scheme starting with the six letters "Bearer", one space and a token yields that token, which is looser than section 2.1 of RFC 6750 |
| AuthController.ChangedPasswordAfterOrdersTimes | controllers/authController.js:105 | the assumed changedPasswordAfter: a user who never changed the password has no stale token; a token signed at or after the change is not stale; one signed a whole second or more before it is |
| AuthController.CorrectPasswordAcceptsOnlyItsPlaintext | controllers/authController.js:68 | the assumed correctPassword accepts a candidate against a hash made from a password exactly when the two are equal, and accepts nothing against a missing or plaintext password |
| AuthController.Authenticate | controllers/authController.js:77-114 | without a token the answer is a 401 whatever the verifier and the collection; a token jwt.verify rejects is a non-operational error; a decoded token whose user is gone, or whose user changed the password after it was issued, is a 401; otherwise the token's user passes; a pass always names a stored user with the token's id and an unchanged password |
| AuthController.Protect | controllers/authController.js:77-114 | req.user becomes the loaded user exactly when every check passes, and is left alone otherwise |
| AuthController.RestrictTo | controllers/authController.js:116-126 | next() with no error exactly when the user's role is one of the roles; otherwise a 403 for a user with another role |
| AuthController.TokenReply | controllers/authController.js:17-37 | the reply carries the status code, a token for the user issued now, the httpOnly `jwt` cookie (secure exactly in production), and the user with nothing but the password removed |
| AuthController.CreateSendToken | controllers/authController.js:17-37 | the document loses its password in place, and the reply is TokenReply of the document as it was |
| AuthController.MissingCredentialsAsWritten | controllers/authController.js:59 | the error for missing credentials as written has no status code |
| AuthController.LoginSpec | controllers/authController.js:55-75 | missing credentials give the 400 before any lookup; an unknown email and a wrong password give the same 401; a token is issued only to a stored user whose hash accepts the password |
| AuthController.Login | controllers/authController.js:55-75 | login changes nothing and answers exactly as LoginSpec |
| AuthController.SignUpFieldsAsWritten | controllers/authController.js:40-47 | the new record as written takes its role from the body |
| AuthController.SignUpFields | controllers/authController.js:47-48 | the new record with the body's role ignored: role "user", no reset paths, email in lower case |
| AuthController.SignUpSpec | controllers/authController.js:39-53 | a refused sign-up leaves the collection; an accepted one appends the hooked record of a valid body and answers 201 with a token for the new id and no password |
| AuthController.SignUpAcceptedIff | controllers/authController.js:39-53 | signUp answers with a token exactly when the body passes validation, the new id is free and no record holds the lower-cased email |
| AuthController.SignUpPreservesInvariant | controllers/authController.js:39-53 | signUp keeps the collection's invariant |
| AuthController.SignUp | controllers/authController.js:39-53 | signUp performed on a new document yields SignUpSpec's collection and reply, and keeps the invariant |
| AuthController.ResetUrlAsWritten | controllers/authController.js:139-141 | the reset link as written ends in the token followed by '}', so its last segment is the token + "}" |
| AuthController.ResetUrl | controllers/authController.js:139-141 | the reset link without the stray '}' ends in the token |
| AuthController.ForgotPasswordSpec | controllers/authController.js:128-165 | an unknown email is a 404 with nothing changed and no mail; "Token sent to email" only after delivery; the mail goes to that email address and carries the reset link |
| AuthController.MailResetLink | controllers/authController.js:145-164 | the mail is always attempted; a delivery answers 200 "Token sent to email" with the collection as it was; a failure is handed to next |
| AuthController.MailResetLinkPreservesInvariant | controllers/authController.js:155-159 | clearing the reset paths after a failed delivery keeps the collection's invariant |
| AuthController.SendResetLink | controllers/authController.js:145-164 | the delivery step performed on the saved document yields MailResetLink's collection and reply |
| AuthController.UpdateInPlace | controllers/authController.js:137 | rewriting a stored record with its own id and email passes the indexes and replaces it in place |
| AuthController.ForgotPreservesInvariant | controllers/authController.js:128-165 | forgotPassword keeps the collection's invariant |
| AuthController.ForgotPassword | controllers/authController.js:128-165 | forgotPassword performed on a loaded document yields ForgotPasswordSpec's collection, reply and mail, and keeps the invariant |
| AuthController.ResetMatchIff | controllers/authController.js:174-177 | a record with a pending reset matches the lookup exactly when the client's token is the stored one and the stored expiry is strictly after now |
| AuthController.ResetMatchNeedsPendingReset | controllers/authController.js:174-177 | a record without both reset paths never matches |
| AuthController.ResetHolder | controllers/authController.js:174-177 | the lookup returns a stored record holding the digest with an expiry strictly after now, and returns none exactly when no record matches |
| AuthController.ResetLookupAsWritten | controllers/authController.js:181-184 | as written, a missed lookup hands two errors to next, and a match hands none |
| AuthController.ResetPasswordSpec | controllers/authController.js:167-195 | with no holder of sha256(token) whose expiry is ahead, a single 400 and nothing changed; a success names such a holder, answers 200 with a token and a user without password or reset paths; any failure leaves the collection |
| AuthController.PasswordChangeIsStored | controllers/authController.js:184-188 | a validated password change of a stored record is storable once hooked |
| AuthController.ResetPreservesInvariant | controllers/authController.js:167-195 | resetPassword keeps the collection's invariant |
| AuthController.ResetPassword | controllers/authController.js:167-195 | resetPassword performed on a loaded document yields ResetPasswordSpec's collection and reply, and keeps the invariant |
| AuthController.UpdatePasswordSpec | controllers/authController.js:197-215 | a wrong current password is a 401 with nothing changed; a token is issued only after the current password matched the stored hash; any failure leaves the collection |
| AuthProperties.UpdatePasswordSucceeds | controllers/authController.js:197-214 | a logged-in user with the right current password and a confirmed new password of 8 or more characters gets 200 and a token; that record alone is replaced by one whose hash accepts the new password and which records the change time |
| AuthController.UpdatePreservesInvariant | controllers/authController.js:197-215 | updatePassword keeps the collection's invariant |
| AuthController.UpdatePassword | controllers/authController.js:197-215 | updatePassword performed on a loaded document yields UpdatePasswordSpec's collection and reply, and keeps the invariant |
| AuthProperties.OnlyHolder | models/userModel.js:15 | under the invariant no other record shares a record's id or email |
| AuthProperties.FindByIdUnique | controllers/authController.js:98 | findById returns the one record with that id |
| AuthProperties.FindByEmailUnique | controllers/authController.js:63 | findOne by email returns the one record with that email |
| AuthProperties.LoginSucceedsIff | controllers/authController.js:58-74 | login issues a token exactly when both credentials are given and a stored user with that email has a hash accepting the password |
| AuthProperties.EmailIsPresent | models/userModel.js:17 | an email the schema accepts is not empty |
| AuthProperties.SignUpThenLogin | controllers/authController.js:39-75 | whoever signs up can log in at once with the stored email and the same password, and gets a token for the new account |
| AuthProperties.PasswordSavedInPlace | controllers/authController.js:184-188 | a successful password save replaces the record in place, stamps the change time, and is what findById returns |
| AuthProperties.UpdatePasswordRevokesOlderTokens | controllers/authController.js:105-110 | after updatePassword, protect accepts a token for that user exactly when it was issued in the second of the change or later, so the new token works and every older one is refused |
| AuthProperties.ResetPasswordRevokesOlderTokens | controllers/authController.js:190-191 | the same after resetPassword |
| AuthProperties.StaleTokenSurvivesAsWritten | models/userModel.js:42-50 | with the hook as written, a token issued before a password change still passes protect |
| AuthProperties.ForgotStoresToken | controllers/authController.js:136-154 | forgotPassword with delivery stores the token's hash and expiry on that user alone, answers 200 and mails the link |
| AuthProperties.ForgotRollsBackWhenMailFails | controllers/authController.js:155-164 | when sending fails, both reset paths are cleared on that user alone and the answer is a 500 |
| AuthProperties.ResetFindsOnlyHolder | controllers/authController.js:174-177 | the lookup finds the only record holding the hash while its expiry is ahead |
| AuthProperties.ResetSoleHolder | controllers/authController.js:184-194 | a reset on the only holder changes that record alone, sets a password its hash accepts, clears the reset paths and logs the user in |
| AuthProperties.ForgotThenReset | controllers/authController.js:128-195 | the token read from the mailed link, used within ten minutes with a valid new password, resets exactly the requesting user's password and logs them in |
| AuthProperties.ResetTokenExpires | controllers/authController.js:176 | ten minutes or more after forgotPassword the token is refused with 400 and nothing changes |
| AuthProperties.ResetIsSingleUse | controllers/authController.js:186-187 | after a successful reset the same token is refused with 400 and nothing changes |
| AuthProperties.ResetLinkAsWrittenNeverMatches | controllers/authController.js:139-141 | the link as written ends in the token plus '}', and a reset with that token is refused |
| AuthProperties.ResetMissCallsNextTwiceAsWritten | controllers/authController.js:181-184 | as written, a missed lookup hands next the 400 the client receives, then a second error, a TypeError, after that response was sent; the corrected flow hands over the 400 alone |
| AuthProperties.SignUpRoleAsWrittenGrantsAdmin | controllers/authController.js:46-48 | as written a sign-up asking for "admin" passes restrictTo('admin'); with the role ignored it gets 403 |
| AuthProperties.SignUpGivesUserRole | controllers/authController.js:47-48 | every account signUp creates has role "user" |
| AuthProperties.RestrictedRouteAnswers403 | controllers/authController.js:119-122 | a user whose role is not listed gets 403 "fail" with the permission message in production |
| AuthProperties.MissingCredentialsAnswer500AsWritten | controllers/authController.js:58-60 | as written, missing credentials reach the client as a 500 with the login message; corrected, as a 400 |
| AuthProperties.BadTokenAnswers500 | controllers/authController.js:93 | a token jwt.verify rejects reaches the client as the generic 500 |
| AuthProperties.SignUpRefusedByEmailIndex | models/userModel.js:15 | the unique email index refuses a valid sign-up whose email is already stored, naming the email |
| AuthProperties.DuplicateEmailSignUp | controllers/authController.js:40-47 | a valid sign-up with a taken email changes nothing and is answered 400 "Duplicate email: …, Please use another email" |

## Left out

- Cryptography is symbolic. The bcrypt salt and running time, the JWT signature, the secret and `JWT_EXPIRES_IN` are not modelled. Expiry and signature checks are whatever the `verify` argument answers.
- The cookie's `expires` date (`authController.js:20-22`) is wall-clock arithmetic on `Date` and is left out.
- Email delivery is the boolean `delivered`. The transport, the network and `utils/email.js` are not part of this model.
- Random bytes: the reset token and new ids are arguments.
- Text.IsEmail: checks only that there is exactly one '@', something before it, and a '.' after it. `validator.isEmail`'s full grammar is not modelled.
- Text.Lower: lowers only the ASCII letters A to Z. JavaScript's Unicode case mapping is not modelled.
- Login and forgotPassword look up the email exactly as given (`authController.js:63` and `:130`). Mongoose's lower-casing of query values is not modelled.
- UserModel.NameError: counts characters as Unicode scalar values. JavaScript's `length` counts UTF-16 code units, so a name of six emoji has length 12 in the source and passes minlength 10, while the model refuses it.
- UserModel.PasswordError: counts characters the same way, so the minlength 8 check differs from the source on characters outside the Basic Multilingual Plane.
- Crypto.Bcrypt: a hash accepts exactly its own plaintext. bcryptjs uses only the first 72 bytes of the password, so the real compare also accepts any candidate sharing them.
- AuthController.SignUpFieldsAsWritten: assumes a schema path `role` with default "user". The shown schema does not declare it, and under strict mode the body's role would not be stored at all.
- AuthProperties.SignUpRoleAsWrittenGrantsAdmin: rests on the same assumed `role` path. Without it, sign-up cannot grant a role, and `restrictTo` reads an undefined role.
- UserModel.ValidationMessages: fixes the order of the messages to the schema's path order. The key order of Mongoose's own `err.errors` object is not modelled.
- Stack traces keep only the "Name: message" line. Stack frames are not modelled.
- Console logging in the error senders is left out.
- AuthController.UpdatePasswordSpec: takes `passwordCurrent` as a string. `bcrypt.compare` throwing on a missing body field is not modelled.
- Concurrency and interleaving of requests are not modelled. Each flow runs alone against the collection.
- `photo` is carried in the record but never validated, because the schema sets no rule for it.
- `catchAsync`, `promisify` and the Express `next` chaining are replaced by returned replies.
- Routing, `app.js`, `server.js`, the booking, views and browser code are not part of this model.

## Findings

| source | as written | input that shows it | evidently intended | confidence | as-written member | corrected member |
|---|---|---|---|---|---|---|
| controllers/authController.js:181-183 | no `return` after `next(...)` when no user matches, so execution continues on `null` | a reset with an unknown or expired token | stop after handing the 400 to next | high, not executed | AuthProperties.ResetMissCallsNextTwiceAsWritten | AuthController.ResetPasswordSpec |
| controllers/authController.js:139-141 | the reset link ends in the token followed by a stray `}` | any reset token t: the link's last segment is t + "}" | the link ends in the token | high, not executed | AuthProperties.ResetLinkAsWrittenNeverMatches | AuthController.ResetUrl |
| models/userModel.js:42-50 | the hook never sets `passwordChangedAt`, although the controller's comments at authController.js:190-191 and 208 rely on it | change the password, then use a token issued before the change | tokens issued before a password change are refused | high, not executed | AuthProperties.StaleTokenSurvivesAsWritten | AuthProperties.UpdatePasswordRevokesOlderTokens |
| controllers/authController.js:46-48 | `role` is copied from the body, although the comment says role admin is not accepted | sign up with `role: "admin"` | every new account gets the default role | medium, not executed; holds only if the schema declares the assumed `role` path | AuthProperties.SignUpRoleAsWrittenGrantsAdmin | AuthController.SignUpFields |
| controllers/authController.js:59 | `400` is passed to `next` instead of to `AppError` | log in without a password | a 400 response | high, not executed | AuthProperties.MissingCredentialsAnswer500AsWritten | AuthController.LoginSpec |
