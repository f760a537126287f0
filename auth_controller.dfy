/** The authentication controller: reading the bearer token, the protect pipeline, the role
    gate, and the login, sign-up and password flows over the users collection. Each flow is
    a function from the collection (and the request) to the new collection and the reply,
    and a method that performs it step by step on user documents and is proved equal to it. */
module AuthController {
  import opened Wrappers
  import opened Text
  import opened Crypto
  import opened ErrorController
  import opened UserModel

  const NotLoggedIn := "You're not logged in! Please login to get access"
  const UserGone := "The user no longer exists"
  const PasswordChanged := "User recently changed password, Please login again"
  const NoPermission := "You do not have permission to perform this action"
  const ProvideCredentials := "Please provide email and password"
  const IncorrectLogin := "Incorrect email or password"
  const NoUserWithEmail := "There is no user with that email address"
  const TokenSent := "Token sent to email"
  const EmailFailed := "There was an error sending the email, Try again later"
  const TokenInvalid := "Token is invalid or has expired"
  const WrongCurrentPassword := "Your current password is wrong!"
  const ResetPath := "/api/v1/users/resetPassword/"

  /** The `jwt` cookie set with every token: the signed claims and its two flags. */
  datatype Cookie = Cookie(name: string, token: Claims, httpOnly: bool, secure: bool)

  /** What a handler does with the request: answer with a token, answer with a message,
      or hand an error to next(). */
  datatype Reply =
    | SentToken(statusCode: nat, token: Claims, cookie: Cookie, user: User)
    | SentMessage(statusCode: nat, message: string)
    | Failed(err: Error)

  /** What a middleware does: call next() or next(err). */
  datatype Gate = Pass | Fail(err: Error)

  /** The outcome of the protect pipeline. */
  datatype Authn = Authenticated(user: User) | Rejected(err: Error)

  /** A flow's effect: the collection afterwards and the reply. */
  datatype Step = Step(docs: seq<User>, reply: Reply)

  /** The reset email forgotPassword sends: its recipient and the link it carries. */
  datatype Email = ResetEmail(to: Option<string>, link: string)
  {
    /** The subject line sendEmail receives. */
    function Subject(): string {
      "Your password reset token (valid 10min)"
    }

    /** The text sendEmail receives: the instructions, the link, and a note for anyone who
        did not ask for it. */
    function Message(): string {
      "Forgot your password? Submit a PATCH request with your new password and passwordConfirm to: "
      + link + "\n  If you didn't forget your password, please ignore this email!"
    }
  }

  /** forgotPassword's effect also records the email it tried to send. */
  datatype ForgotStep = ForgotStep(docs: seq<User>, reply: Reply, mail: Option<Email>)

  /** The body fields signUp reads. */
  datatype SignUpBody = SignUpBody(
    name: Option<string>, email: Option<string>, password: Option<string>,
    passwordConfirm: Option<string>, passwordChangedAt: Option<nat>, role: Option<string>)

  /** The request object: its Authorization header and the user protect attaches. */
  class Request {
    var authorization: Option<string>
    var user: Option<User>

    constructor (authorization: Option<string>)
      ensures this.authorization == authorization && user.None?
    {
      this.authorization := authorization;
      user := None;
    }
  }

  function TypeError(message: string): Error {
    LibraryError("TypeError", message)
  }

  /** The token of an `Authorization: Bearer <token>` header: the header must start with
      "Bearer" and the token is its second space-separated piece, which must be non-empty. */
  function BearerToken(authorization: Option<string>): (token: Option<string>)
    ensures token.Some? ==>
      authorization.Some? && StartsWith(authorization.value, "Bearer") && token.value != "" && ' ' !in token.value
  {
    if authorization.Some? && StartsWith(authorization.value, "Bearer") then
      var pieces := Split(authorization.value, ' ');
      if |pieces| > 1 && pieces[1] != "" then Some(pieces[1]) else None
    else None
  }

  /** A header in the form of section 2.1 of RFC 6750 yields its token. */
  lemma BearerRoundTrip(token: string)
    requires token != "" && ' ' !in token
    ensures BearerToken(Some("Bearer " + token)) == Some(token)
  {
    assert "Bearer " + token == "Bearer" + [' '] + token;
    SplitAfterPiece("Bearer", ' ', token);
    SplitNoSeparator(token, ' ');
  }

  /** The check is looser than RFC 6750: any header starting with "Bearer" is accepted,
      whatever follows those six letters before the first space. */
  lemma BearerSchemeIsLoose(scheme: string, token: string)
    requires ' ' !in scheme && token != "" && ' ' !in token
    ensures BearerToken(Some("Bearer" + scheme + " " + token)) == Some(token)
  {
    assert "Bearer" + scheme + " " + token == ("Bearer" + scheme) + [' '] + token;
    assert ("Bearer" + scheme + " " + token)[..6] == "Bearer";
    SplitAfterPiece("Bearer" + scheme, ' ', token);
    SplitNoSeparator(token, ' ');
  }

  /** The token is exactly the second space-separated piece: for a header `h + " " + t + rest`
      whose first piece `h` starts with "Bearer", a non-empty space-free `t` is the token,
      whatever further pieces `rest` holds. */
  lemma BearerTokenIsSecondPiece(h: string, t: string, rest: string)
    requires StartsWith(h, "Bearer") && ' ' !in h
    requires t != "" && ' ' !in t
    requires rest == "" || rest[0] == ' '
    ensures BearerToken(Some(h + " " + t + rest)) == Some(t)
  {
    var header := h + " " + t + rest;
    assert header == h + [' '] + (t + rest);
    assert header[..6] == h[..6];
    SplitAfterPiece(h, ' ', t + rest);
    if rest == "" {
      assert t + rest == t;
      SplitNoSeparator(t, ' ');
    } else {
      assert t + rest == t + [' '] + rest[1..];
      SplitAfterPiece(t, ' ', rest[1..]);
    }
  }

  /** A "Bearer…" header without a space, or whose second piece is empty, carries no
      token, so protect answers 401 before verifying anything. */
  lemma BearerWithoutTokenIsNone(h: string, rest: string)
    requires ' ' !in h
    requires rest == "" || rest[0] == ' '
    ensures BearerToken(Some(h)) == None
    ensures BearerToken(Some(h + " " + rest)) == None
  {
    SplitNoSeparator(h, ' ');
    assert h + " " + rest == h + [' '] + rest;
    SplitAfterPiece(h, ' ', rest);
    if rest == "" {
      SplitNoSeparator(rest, ' ');
    } else {
      assert rest == "" + [' '] + rest[1..];
      SplitAfterPiece("", ' ', rest[1..]);
    }
  }

  /** changedPasswordAfter (not shown in the model file), as usually written: the password
      changed in a later second than the token's `iat`. */
  predicate ChangedPasswordAfter(u: User, iat: nat) {
    u.passwordChangedAt.Some? && iat < u.passwordChangedAt.value / 1000
  }

  /** A token signed at or after the change (in milliseconds) is not stale; one signed a whole
      second or more before it is; a user who never changed the password has no stale token. */
  lemma ChangedPasswordAfterOrdersTimes(u: User, signedMs: nat)
    ensures u.passwordChangedAt.None? ==> !ChangedPasswordAfter(u, IssuedAt(signedMs))
    ensures u.passwordChangedAt.Some? && signedMs >= u.passwordChangedAt.value ==>
      !ChangedPasswordAfter(u, IssuedAt(signedMs))
    ensures u.passwordChangedAt.Some? && signedMs + 1000 <= u.passwordChangedAt.value ==>
      ChangedPasswordAfter(u, IssuedAt(signedMs))
  {
  }

  /** correctPassword (not shown in the model file): bcrypt.compare against the stored hash. */
  predicate CorrectPassword(candidate: string, stored: Option<Password>) {
    stored.Some? && stored.value.Hashed? && BcryptCompare(candidate, stored.value.hash)
  }

  /** A hash made from `plain` accepts exactly `plain`; a missing or still-plaintext password
      accepts nothing. */
  lemma CorrectPasswordAcceptsOnlyItsPlaintext(candidate: string, plain: string, cost: nat)
    ensures CorrectPassword(candidate, Some(Hashed(Bcrypt(plain, cost)))) <==> candidate == plain
    ensures !CorrectPassword(candidate, None) && !CorrectPassword(candidate, Some(Plain(plain)))
  {
  }

  /** protect: no token, a token jwt.verify throws on, a vanished user or a password changed
      after the token was issued each stop the request; otherwise the user is the one the
      token names. Without a token the answer depends neither on the verifier nor on the
      collection. */
  function Authenticate(docs: seq<User>, authorization: Option<string>, verify: string -> Verified): (a: Authn)
    ensures BearerToken(authorization).None? ==> a == Rejected(AppError(NotLoggedIn, Some(401)))
    ensures a.Authenticated? ==>
      && BearerToken(authorization).Some?
      && verify(BearerToken(authorization).value).Decoded?
      && var claims := verify(BearerToken(authorization).value).claims;
         a.user in docs && a.user.id == claims.id && !ChangedPasswordAfter(a.user, claims.iat)
    ensures a.Rejected? && a.err.isOperational ==> a.err.statusCode == Some(401)
    ensures BearerToken(authorization).Some? && !verify(BearerToken(authorization).value).Decoded? ==>
      a.Rejected? && !a.err.isOperational
    ensures BearerToken(authorization).Some? && verify(BearerToken(authorization).value).Decoded? ==>
      var claims := verify(BearerToken(authorization).value).claims;
      var found := FindById(docs, claims.id);
      && (found.None? ==> a == Rejected(AppError(UserGone, Some(401))))
      && (found.Some? && ChangedPasswordAfter(found.value, claims.iat) ==> a == Rejected(AppError(PasswordChanged, Some(401))))
      && (found.Some? && !ChangedPasswordAfter(found.value, claims.iat) ==> a == Authenticated(found.value))
  {
    match BearerToken(authorization)
    case None => Rejected(AppError(NotLoggedIn, Some(401)))
    case Some(token) =>
      match verify(token)
      case BadToken => Rejected(LibraryError("JsonWebTokenError", "invalid signature"))
      case ExpiredToken => Rejected(LibraryError("TokenExpiredError", "jwt expired"))
      case Decoded(claims) =>
        match FindById(docs, claims.id)
        case None => Rejected(AppError(UserGone, Some(401)))
        case Some(u) =>
          if ChangedPasswordAfter(u, claims.iat) then Rejected(AppError(PasswordChanged, Some(401)))
          else Authenticated(u)
  }

  /** protect, step by step: req.user is set to the loaded user exactly when every check
      passes, and is left alone otherwise. */
  method Protect(store: UserStore, req: Request, verify: string -> Verified) returns (g: Gate)
    modifies req
    ensures var a := Authenticate(store.docs, old(req.authorization), verify);
      && g == (if a.Authenticated? then Pass else Fail(a.err))
      && req.user == (if a.Authenticated? then Some(a.user) else old(req.user))
    ensures req.authorization == old(req.authorization)
  {
    var token := BearerToken(req.authorization);
    if token.None? {
      return Fail(AppError(NotLoggedIn, Some(401)));
    }
    var decoded := verify(token.value);
    if decoded.BadToken? {
      return Fail(LibraryError("JsonWebTokenError", "invalid signature"));
    } else if decoded.ExpiredToken? {
      return Fail(LibraryError("TokenExpiredError", "jwt expired"));
    }
    var currentUser := FindById(store.docs, decoded.claims.id);
    if currentUser.None? {
      return Fail(AppError(UserGone, Some(401)));
    }
    if ChangedPasswordAfter(currentUser.value, decoded.claims.iat) {
      return Fail(AppError(PasswordChanged, Some(401)));
    }
    req.user := currentUser;
    g := Pass;
  }

  /** restrictTo(...roles): next() exactly when the request's user has one of the roles;
      a user with another role gets 403, and no user at all is a TypeError. */
  function RestrictTo(roles: seq<string>, reqUser: Option<User>): (g: Gate)
    ensures g == Pass <==> reqUser.Some? && reqUser.value.role in roles
    ensures reqUser.Some? && g.Fail? ==> g.err == AppError(NoPermission, Some(403))
  {
    if reqUser.None? then Fail(TypeError("Cannot read property 'role' of undefined"))
    else if reqUser.value.role !in roles then Fail(AppError(NoPermission, Some(403)))
    else Pass
  }

  /** createSendToken's answer: a token for the user issued now, the `jwt` cookie (always
      httpOnly, secure only in production), and the user without its password. */
  function TokenReply(statusCode: nat, u: User, now: nat, nodeEnv: string): (r: Reply)
    ensures r.SentToken? && r.statusCode == statusCode && r.token == Claims(u.id, IssuedAt(now))
    ensures r.cookie.name == "jwt" && r.cookie.token == r.token && r.cookie.httpOnly
    ensures r.cookie.secure <==> nodeEnv == "production"
    ensures r.user.password.None? && r.user.(password := u.password) == u
  {
    var token := Claims(u.id, IssuedAt(now));
    SentToken(statusCode, token, Cookie("jwt", token, true, nodeEnv == "production"), u.(password := None))
  }

  /** createSendToken: signs the token and sets `user.password = undefined` on the document
      before sending it. */
  method CreateSendToken(doc: UserDoc, statusCode: nat, now: nat, nodeEnv: string) returns (r: Reply)
    modifies doc
    ensures doc.fields == old(doc.fields).(password := None)
    ensures doc.isNew == old(doc.isNew) && doc.passwordModified == old(doc.passwordModified)
    ensures r == TokenReply(statusCode, old(doc.fields), now, nodeEnv)
  {
    var token := Claims(doc.fields.id, IssuedAt(now));
    var cookie := Cookie("jwt", token, true, false);
    if nodeEnv == "production" {
      cookie := cookie.(secure := true);
    }
    doc.fields := doc.fields.(password := None);
    r := SentToken(statusCode, token, cookie, doc.fields);
  }

  // ---------------------------------------------------------------- login

  /** login's error for missing credentials as written: the 400 is passed to next as a second
      argument instead of to AppError, so the error carries no status code. */
  function MissingCredentialsAsWritten(): (e: Error)
    ensures e.isOperational && e.message == ProvideCredentials && e.statusCode.None?
  {
    AppError(ProvideCredentials, None)
  }

  /** login, with the 400 given to AppError: missing credentials stop before any lookup; an unknown email and a wrong password
      get the same 401 error; a match is answered with 200 and a token. */
  function LoginSpec(docs: seq<User>, email: Option<string>, password: Option<string>, now: nat, nodeEnv: string): (r: Reply)
    ensures !Present(email) || !Present(password) ==> r == Failed(AppError(ProvideCredentials, Some(400)))
    ensures Present(email) && Present(password) && r.Failed? ==> r == Failed(AppError(IncorrectLogin, Some(401)))
    ensures r.SentToken? ==>
      r.statusCode == 200 && r.user.password.None? && r.user.email == email
      && exists i :: 0 <= i < |docs| && docs[i].id == r.token.id && CorrectPassword(password.value, docs[i].password)
  {
    if !Present(email) || !Present(password) then Failed(AppError(ProvideCredentials, Some(400)))
    else match FindByEmail(docs, email)
      case None => Failed(AppError(IncorrectLogin, Some(401)))
      case Some(u) =>
        if !CorrectPassword(password.value, u.password) then Failed(AppError(IncorrectLogin, Some(401)))
        else TokenReply(200, u, now, nodeEnv)
  }

  method Login(store: UserStore, email: Option<string>, password: Option<string>, now: nat, nodeEnv: string) returns (r: Reply)
    ensures r == LoginSpec(store.docs, email, password, now, nodeEnv)
  {
    if !Present(email) || !Present(password) {
      return Failed(AppError(ProvideCredentials, Some(400)));
    }
    var found := FindByEmail(store.docs, email);
    if found.None? || !CorrectPassword(password.value, found.value.password) {
      return Failed(AppError(IncorrectLogin, Some(401)));
    }
    var user := new UserDoc.Loaded(found.value);
    r := CreateSendToken(user, 200, now, nodeEnv);
  }

  // ---------------------------------------------------------------- signUp

  function LowerEmail(email: Option<string>): Option<string> {
    if email.Some? then Some(Lower(email.value)) else None
  }

  /** The record User.create receives from signUp as written: the role comes from the body. */
  function SignUpFieldsAsWritten(body: SignUpBody, id: UserId): (u: User)
    ensures body.role.Some? ==> u.role == body.role.value
  {
    User(id, body.name, LowerEmail(body.email), None, PasswordInput(body.password), body.passwordConfirm,
         if body.role.Some? then body.role.value else "user",
         body.passwordChangedAt, None, None)
  }

  /** The record User.create receives from signUp with the body's role ignored, as the
      comment beside it intends: every new account gets the default role. */
  function SignUpFields(body: SignUpBody, id: UserId): (u: User)
    ensures u == SignUpFieldsAsWritten(body, id).(role := "user")
    ensures u.role == "user" && u.passwordResetToken.None? && u.passwordResetExpires.None?
    ensures u.email.Some? ==> IsLower(u.email.value)
  {
    User(id, body.name, LowerEmail(body.email), None, PasswordInput(body.password), body.passwordConfirm,
         "user", body.passwordChangedAt, None, None)
  }

  /** signUp: the new record is validated, hashed and inserted, then answered with 201 and a
      token; a failed save leaves the collection as it was. */
  function SignUpSpec(docs: seq<User>, body: SignUpBody, newId: UserId, now: nat, nodeEnv: string): (s: Step)
    ensures s.reply.Failed? ==> s.docs == docs
    ensures s.reply.SentToken? || s.reply.Failed?
    ensures s.reply.SentToken? ==>
      && Acceptable(SignUpFields(body, newId))
      && s.reply.statusCode == 201 && s.reply.token.id == newId && s.reply.user.password.None?
      && s.docs == docs + [PreSaveHook(SignUpFields(body, newId), true, true, now)]
  {
    var out := Saved(docs, SignUpFields(body, newId), body.password.Some?, true, true, now);
    if out.err.Some? then Step(docs, Failed(out.err.value))
    else Step(out.docs, TokenReply(201, out.doc, now, nodeEnv))
  }

  /** signUp succeeds exactly when the body passes validation, the new _id is free and no
      record holds the email (in lower case); the account is then appended and answered 201. */
  lemma SignUpAcceptedIff(docs: seq<User>, body: SignUpBody, newId: UserId, now: nat, nodeEnv: string)
    ensures var s := SignUpSpec(docs, body, newId, now, nodeEnv);
      s.reply.SentToken? <==>
        && Acceptable(SignUpFields(body, newId))
        && !IdTaken(docs, newId)
        && forall i :: 0 <= i < |docs| ==> docs[i].email != LowerEmail(body.email)
  {
    var u := SignUpFields(body, newId);
    var h := PreSaveHook(u, body.password.Some?, true, now);
    assert h.id == newId && h.email == LowerEmail(body.email);
    if !IdTaken(docs, newId) {
      assert EmailTakenByOther(docs, h) <==> h.email.Some? && exists i :: 0 <= i < |docs| && docs[i].email == h.email;
    }
  }

  lemma SignUpPreservesInvariant(docs: seq<User>, body: SignUpBody, newId: UserId, now: nat, nodeEnv: string)
    requires StoreInvariant(docs)
    ensures StoreInvariant(SignUpSpec(docs, body, newId, now, nodeEnv).docs)
  {
    var u := SignUpFields(body, newId);
    var out := Saved(docs, u, body.password.Some?, true, true, now);
    if out.err.None? {
      ValidatedHookIsStored(u, true, now);
      SavePreservesInvariant(docs, u, body.password.Some?, true, true, now);
    }
  }

  method SignUp(store: UserStore, body: SignUpBody, newId: UserId, now: nat, nodeEnv: string) returns (r: Reply)
    requires store.Valid()
    modifies store
    ensures store.Valid()
    ensures var s := SignUpSpec(old(store.docs), body, newId, now, nodeEnv); store.docs == s.docs && r == s.reply
  {
    SignUpPreservesInvariant(store.docs, body, newId, now, nodeEnv);
    var newUser := new UserDoc.New(SignUpFields(body, newId));
    var err := store.Save(newUser, true, now);
    if err.Some? {
      return Failed(err.value);
    }
    r := CreateSendToken(newUser, 201, now, nodeEnv);
  }

  // ---------------------------------------------------------------- forgotPassword

  /** The reset link as written: the template literal ends with a stray '}'. */
  function ResetUrlAsWritten(protocol: string, host: string, resetToken: string): (url: string)
    ensures '/' !in resetToken ==> LastSegment(url) == resetToken + "}"
  {
    var url := protocol + "://" + host + ResetPath + resetToken + "}";
    assert url == (protocol + "://" + host + "/api/v1/users/resetPassword") + "/" + (resetToken + "}");
    if '/' !in resetToken then LastSegmentAfterSlash(protocol + "://" + host + "/api/v1/users/resetPassword", resetToken + "}"); url
    else url
  }

  /** The reset link without the stray '}': its last path segment is the token. */
  function ResetUrl(protocol: string, host: string, resetToken: string): (url: string)
    ensures '/' !in resetToken ==> LastSegment(url) == resetToken
  {
    var url := protocol + "://" + host + ResetPath + resetToken;
    assert url == (protocol + "://" + host + "/api/v1/users/resetPassword") + "/" + resetToken;
    if '/' !in resetToken then LastSegmentAfterSlash(protocol + "://" + host + "/api/v1/users/resetPassword", resetToken); url
    else url
  }

  /** forgotPassword: an unknown email is a 404 with nothing changed; otherwise the token's
      hash and expiry are saved before the email is sent, and if sending fails they are
      cleared and saved again and the answer is a 500. */
  function ForgotPasswordSpec(docs: seq<User>, email: Option<string>, protocol: string, host: string,
                              resetToken: string, delivered: bool, now: nat): (s: ForgotStep)
    ensures (forall i :: 0 <= i < |docs| ==> docs[i].email != email) ==>
      s == ForgotStep(docs, Failed(AppError(NoUserWithEmail, Some(404))), None)
    ensures s.reply.SentMessage? ==> s.reply == SentMessage(200, TokenSent) && delivered && s.mail.Some?
    ensures s.mail.Some? ==> s.mail.value == ResetEmail(email, ResetUrl(protocol, host, resetToken))
  {
    match FindByEmail(docs, email)
    case None => ForgotStep(docs, Failed(AppError(NoUserWithEmail, Some(404))), None)
    case Some(u) =>
      var first := Saved(docs, WithResetToken(u, resetToken, now), false, false, false, now);
      if first.err.Some? then ForgotStep(docs, Failed(first.err.value), None)
      else MailResetLink(first.docs, first.doc, ResetEmail(u.email, ResetUrl(protocol, host, resetToken)), delivered, now)
  }

  /** The delivery step of forgotPassword: the mail is always attempted; after a delivery the
      answer is 200, and after a failure the reset paths are cleared and saved again before the
      500. */
  function MailResetLink(docs: seq<User>, u: User, mail: Email, delivered: bool, now: nat): (s: ForgotStep)
    ensures s.mail == Some(mail)
    ensures delivered ==> s == ForgotStep(docs, SentMessage(200, TokenSent), Some(mail))
    ensures !delivered ==> s.reply.Failed?
  {
    if delivered then ForgotStep(docs, SentMessage(200, TokenSent), Some(mail))
    else
      var second := Saved(docs, WithoutResetToken(u), false, false, false, now);
      if second.err.Some? then ForgotStep(docs, Failed(second.err.value), Some(mail))
      else ForgotStep(second.docs, Failed(AppError(EmailFailed, Some(500))), Some(mail))
  }

  /** An existing record rewritten with its own _id and email is stored in its place. */
  lemma UpdateInPlace(docs: seq<User>, k: nat, v: User)
    requires StoreInvariant(docs) && k < |docs|
    requires v.id == docs[k].id && v.email == docs[k].email
    ensures WriteError(docs, v, false).None?
    ensures Put(docs, v) == docs[k := v]
  {
    assert IdTaken(docs, v.id);
  }

  /** The record findOne returns sits at some position of the collection. */
  lemma FoundAt(docs: seq<User>, u: User) returns (k: nat)
    requires u in docs
    ensures k < |docs| && docs[k] == u
  {
    k :| 0 <= k < |docs| && docs[k] == u;
  }

  /** The delivery step keeps the invariant: a rollback only clears the reset paths of a
      storable record. */
  lemma MailResetLinkPreservesInvariant(docs: seq<User>, u: User, mail: Email, delivered: bool, now: nat)
    requires StoreInvariant(docs) && Stored(u)
    ensures StoreInvariant(MailResetLink(docs, u, mail, delivered, now).docs)
  {
    if !delivered {
      UnmodifiedSaveKeepsRecord(WithoutResetToken(u), false, now);
      SavePreservesInvariant(docs, WithoutResetToken(u), false, false, false, now);
    }
  }

  lemma ForgotPreservesInvariant(docs: seq<User>, email: Option<string>, protocol: string, host: string,
                                 resetToken: string, delivered: bool, now: nat)
    requires StoreInvariant(docs)
    ensures StoreInvariant(ForgotPasswordSpec(docs, email, protocol, host, resetToken, delivered, now).docs)
  {
    var found := FindByEmail(docs, email);
    if found.Some? {
      var u := found.value;
      var k := FoundAt(docs, u);
      var withToken := WithResetToken(u, resetToken, now);
      assert Stored(docs[k]);
      UnmodifiedSaveKeepsRecord(withToken, false, now);
      SavePreservesInvariant(docs, withToken, false, false, false, now);
      var first := Saved(docs, withToken, false, false, false, now);
      if first.err.None? {
        MailResetLinkPreservesInvariant(first.docs, first.doc, ResetEmail(u.email, ResetUrl(protocol, host, resetToken)), delivered, now);
      }
    }
  }

  method ForgotPassword(store: UserStore, email: Option<string>, protocol: string, host: string,
                        resetToken: string, delivered: bool, now: nat) returns (r: Reply, mail: Option<Email>)
    requires store.Valid()
    modifies store
    ensures store.Valid()
    ensures var s := ForgotPasswordSpec(old(store.docs), email, protocol, host, resetToken, delivered, now);
      store.docs == s.docs && r == s.reply && mail == s.mail
  {
    ForgotPreservesInvariant(store.docs, email, protocol, host, resetToken, delivered, now);
    var found := FindByEmail(store.docs, email);
    if found.None? {
      return Failed(AppError(NoUserWithEmail, Some(404))), None;
    }
    var user := new UserDoc.Loaded(found.value);
    var token := user.CreatePasswordResetToken(resetToken, now);
    var err := store.Save(user, false, now);
    if err.Some? {
      // The record exists and keeps its email, so the write cannot fail (UpdateInPlace).
      assert false;
    }
    var resetURL := ResetUrl(protocol, host, token);
    mail := Some(ResetEmail(user.fields.email, resetURL));
    r := SendResetLink(store, user, mail.value, delivered, now);
  }

  /** The delivery step on the saved document; see MailResetLink. */
  method SendResetLink(store: UserStore, user: UserDoc, mail: Email, delivered: bool, now: nat) returns (r: Reply)
    requires !user.isNew && !user.passwordModified
    modifies store, user
    ensures var s := MailResetLink(old(store.docs), old(user.fields), mail, delivered, now);
      store.docs == s.docs && r == s.reply
  {
    if delivered {
      return SentMessage(200, TokenSent);
    }
    user.ClearPasswordResetToken();
    var err := store.Save(user, false, now);
    if err.Some? {
      return Failed(err.value);
    }
    r := Failed(AppError(EmailFailed, Some(500)));
  }

  // ---------------------------------------------------------------- resetPassword

  /** The findOne filter of resetPassword: the stored hash equals the given one and the expiry
      is strictly later than now. */
  predicate ResetMatch(u: User, hashed: Digest, now: nat) {
    u.passwordResetToken == Some(hashed) && u.passwordResetExpires.Some? && u.passwordResetExpires.value > now
  }

  /** The reset lookup matches a record exactly when the client's token is the one whose
      digest the record stores and the stored expiry lies strictly after now. */
  lemma ResetMatchIff(u: User, stored: string, expires: nat, urlToken: string, now: nat)
    requires u.passwordResetToken == Some(Sha256(stored)) && u.passwordResetExpires == Some(expires)
    ensures ResetMatch(u, Sha256(urlToken), now) <==> urlToken == stored && now < expires
  {
    Sha256Injective(urlToken, stored);
  }

  /** A record with no pending reset never matches. */
  lemma ResetMatchNeedsPendingReset(u: User, hashed: Digest, now: nat)
    requires u.passwordResetToken.None? || u.passwordResetExpires.None?
    ensures !ResetMatch(u, hashed, now)
  {
  }

  /** User.findOne({ passwordResetToken: hashed, passwordResetExpires: { $gt: now } }). */
  function ResetHolder(docs: seq<User>, hashed: Digest, now: nat): (r: Option<User>)
    ensures r.Some? ==>
      r.value in docs && r.value.passwordResetToken == Some(hashed)
      && r.value.passwordResetExpires.Some? && r.value.passwordResetExpires.value > now
    ensures r.None? <==> forall i :: 0 <= i < |docs| ==> !ResetMatch(docs[i], hashed, now)
  {
    FindOne(docs, (u: User) => ResetMatch(u, hashed, now))
  }

  /** The lookup step of resetPassword as written: with no match, next receives the 400 error
      but execution goes on, so `user.password = ...` on null throws a TypeError that is handed
      to next a second time. With a match, nothing reaches next at this step. */
  function ResetLookupAsWritten(found: Option<User>): (nextCalls: seq<Error>)
    ensures found.None? ==> |nextCalls| == 2
    ensures found.Some? ==> nextCalls == []
  {
    if found.None? then [AppError(TokenInvalid, Some(400)), TypeError("Cannot set property 'password' of null")]
    else []
  }

  /** resetPassword, with the lookup stopping the request when nothing matches: only a user
      holding sha256(token) with an unexpired expiry is changed, and the new password and the
      cleared reset paths are saved together before a token is issued. */
  function ResetPasswordSpec(docs: seq<User>, urlToken: string, password: Option<string>,
                             passwordConfirm: Option<string>, now: nat, nodeEnv: string): (s: Step)
    ensures (forall i :: 0 <= i < |docs| ==> !ResetMatch(docs[i], Sha256(urlToken), now)) ==>
      s == Step(docs, Failed(AppError(TokenInvalid, Some(400))))
    ensures s.reply.Failed? ==> s.docs == docs
    ensures s.reply.SentToken? || s.reply.Failed?
    ensures s.reply.SentToken? ==>
      && (exists i :: 0 <= i < |docs| && ResetMatch(docs[i], Sha256(urlToken), now) && docs[i].id == s.reply.token.id)
      && s.reply.statusCode == 200 && s.reply.user.password.None?
      && s.reply.user.passwordResetToken.None? && s.reply.user.passwordResetExpires.None?
  {
    match ResetHolder(docs, Sha256(urlToken), now)
    case None => Step(docs, Failed(AppError(TokenInvalid, Some(400))))
    case Some(u) =>
      var changed := WithoutResetToken(u.(password := PasswordInput(password), passwordConfirm := passwordConfirm));
      var out := Saved(docs, changed, PasswordInput(password) != u.password, false, true, now);
      if out.err.Some? then Step(docs, Failed(out.err.value))
      else Step(out.docs, TokenReply(200, out.doc, now, nodeEnv))
  }

  /** A validated password change of a stored record yields a record the collection may hold. */
  lemma PasswordChangeIsStored(u: User, changed: User, modified: bool, now: nat)
    requires Stored(u) && Acceptable(changed)
    requires changed.email == u.email
    requires changed.passwordResetToken.Some? <==> changed.passwordResetExpires.Some?
    requires modified
    ensures Stored(PreSaveHook(changed, modified, false, now))
  {
    ValidatedHookIsStored(changed, false, now);
  }

  lemma ResetPreservesInvariant(docs: seq<User>, urlToken: string, password: Option<string>,
                                passwordConfirm: Option<string>, now: nat, nodeEnv: string)
    requires StoreInvariant(docs)
    ensures StoreInvariant(ResetPasswordSpec(docs, urlToken, password, passwordConfirm, now, nodeEnv).docs)
  {
    var found := ResetHolder(docs, Sha256(urlToken), now);
    if found.Some? {
      var u := found.value;
      var k := FoundAt(docs, u);
      assert Stored(u);
      var changed := WithoutResetToken(u.(password := PasswordInput(password), passwordConfirm := passwordConfirm));
      var modified := PasswordInput(password) != u.password;
      var out := Saved(docs, changed, modified, false, true, now);
      if out.err.None? {
        PasswordChangeIsStored(u, changed, modified, now);
        SavePreservesInvariant(docs, changed, modified, false, true, now);
      }
    }
  }

  method ResetPassword(store: UserStore, urlToken: string, password: Option<string>,
                       passwordConfirm: Option<string>, now: nat, nodeEnv: string) returns (r: Reply)
    requires store.Valid()
    modifies store
    ensures store.Valid()
    ensures var s := ResetPasswordSpec(old(store.docs), urlToken, password, passwordConfirm, now, nodeEnv);
      store.docs == s.docs && r == s.reply
  {
    ResetPreservesInvariant(store.docs, urlToken, password, passwordConfirm, now, nodeEnv);
    var hashedToken := Sha256(urlToken);
    var found := ResetHolder(store.docs, hashedToken, now);
    if found.None? {
      return Failed(AppError(TokenInvalid, Some(400)));
    }
    var user := new UserDoc.Loaded(found.value);
    user.SetPassword(password, passwordConfirm);
    user.ClearPasswordResetToken();
    var err := store.Save(user, true, now);
    if err.Some? {
      return Failed(err.value);
    }
    r := CreateSendToken(user, 200, now, nodeEnv);
  }

  // ---------------------------------------------------------------- updatePassword

  /** updatePassword: the current password is checked against the stored hash first, and a
      wrong one is a 401 with nothing changed; otherwise the new password is validated, hashed
      and saved and a token is issued. */
  function UpdatePasswordSpec(docs: seq<User>, reqUser: Option<User>, passwordCurrent: string,
                              password: Option<string>, passwordConfirm: Option<string>,
                              now: nat, nodeEnv: string): (s: Step)
    ensures s.reply.Failed? ==> s.docs == docs
    ensures s.reply.SentToken? || s.reply.Failed?
    ensures reqUser.Some? && FindById(docs, reqUser.value.id).Some?
            && !CorrectPassword(passwordCurrent, FindById(docs, reqUser.value.id).value.password) ==>
      s == Step(docs, Failed(AppError(WrongCurrentPassword, Some(401))))
    ensures s.reply.SentToken? ==>
      && reqUser.Some? && s.reply.token.id == reqUser.value.id
      && FindById(docs, reqUser.value.id).Some?
      && CorrectPassword(passwordCurrent, FindById(docs, reqUser.value.id).value.password)
      && s.reply.statusCode == 200 && s.reply.user.password.None?
  {
    if reqUser.None? then Step(docs, Failed(TypeError("Cannot read property 'id' of undefined")))
    else match FindById(docs, reqUser.value.id)
      case None => Step(docs, Failed(TypeError("Cannot read property 'correctPassword' of null")))
      case Some(u) =>
        if !CorrectPassword(passwordCurrent, u.password) then Step(docs, Failed(AppError(WrongCurrentPassword, Some(401))))
        else
          var changed := u.(password := PasswordInput(password), passwordConfirm := passwordConfirm);
          var out := Saved(docs, changed, PasswordInput(password) != u.password, false, true, now);
          if out.err.Some? then Step(docs, Failed(out.err.value))
          else Step(out.docs, TokenReply(200, out.doc, now, nodeEnv))
  }

  lemma UpdatePreservesInvariant(docs: seq<User>, reqUser: Option<User>, passwordCurrent: string,
                                 password: Option<string>, passwordConfirm: Option<string>, now: nat, nodeEnv: string)
    requires StoreInvariant(docs)
    ensures StoreInvariant(UpdatePasswordSpec(docs, reqUser, passwordCurrent, password, passwordConfirm, now, nodeEnv).docs)
  {
    if reqUser.Some? {
      var found := FindById(docs, reqUser.value.id);
      if found.Some? && CorrectPassword(passwordCurrent, found.value.password) {
        var u := found.value;
        var k := FoundAt(docs, u);
        assert Stored(u);
        var changed := u.(password := PasswordInput(password), passwordConfirm := passwordConfirm);
        var modified := PasswordInput(password) != u.password;
        var out := Saved(docs, changed, modified, false, true, now);
        if out.err.None? {
          PasswordChangeIsStored(u, changed, modified, now);
          SavePreservesInvariant(docs, changed, modified, false, true, now);
        }
      }
    }
  }

  method UpdatePassword(store: UserStore, req: Request, passwordCurrent: string,
                        password: Option<string>, passwordConfirm: Option<string>,
                        now: nat, nodeEnv: string) returns (r: Reply)
    requires store.Valid()
    modifies store
    ensures store.Valid()
    ensures var s := UpdatePasswordSpec(old(store.docs), req.user, passwordCurrent, password, passwordConfirm, now, nodeEnv);
      store.docs == s.docs && r == s.reply
  {
    UpdatePreservesInvariant(store.docs, req.user, passwordCurrent, password, passwordConfirm, now, nodeEnv);
    if req.user.None? {
      return Failed(TypeError("Cannot read property 'id' of undefined"));
    }
    var found := FindById(store.docs, req.user.value.id);
    if found.None? {
      return Failed(TypeError("Cannot read property 'correctPassword' of null"));
    }
    var user := new UserDoc.Loaded(found.value);
    if !CorrectPassword(passwordCurrent, user.fields.password) {
      return Failed(AppError(WrongCurrentPassword, Some(401)));
    }
    user.SetPassword(password, passwordConfirm);
    var err := store.Save(user, true, now);
    if err.Some? {
      return Failed(err.value);
    }
    r := CreateSendToken(user, 200, now, nodeEnv);
  }
}
