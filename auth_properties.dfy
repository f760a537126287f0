/** Properties that relate several calls of the authentication flows: who can log in, what a
    password change does to tokens already issued, the reset round trip and its single use,
    the responses clients see in production, and the discrepancies between the code as
    written and what the code evidently intends. */
module AuthProperties {
  import opened Wrappers
  import opened Text
  import opened Crypto
  import opened ErrorController
  import opened UserModel
  import opened AuthController

  // ---------------------------------------------------------------- lookups

  /** Under the collection's invariant no other record shares the record's _id or email. */
  lemma OnlyHolder(docs: seq<User>, k: nat)
    requires StoreInvariant(docs) && k < |docs|
    ensures forall i :: 0 <= i < |docs| && docs[i].id == docs[k].id ==> i == k
    ensures forall i :: 0 <= i < |docs| && docs[i].email == docs[k].email ==> i == k
  {
    forall i | 0 <= i < |docs| && (docs[i].id == docs[k].id || docs[i].email == docs[k].email)
      ensures i == k
    {
    }
  }

  /** findById returns the one record with that _id. */
  lemma FindByIdUnique(docs: seq<User>, k: nat)
    requires k < |docs|
    requires forall i :: 0 <= i < |docs| && docs[i].id == docs[k].id ==> i == k
    ensures FindById(docs, docs[k].id) == Some(docs[k])
  {
    var p := (u: User) => u.id == docs[k].id;
    assert p(docs[k]);
    var j := FoundAt(docs, FindById(docs, docs[k].id).value);
  }

  /** findOne({ email }) returns the one record with that email. */
  lemma FindByEmailUnique(docs: seq<User>, k: nat)
    requires k < |docs|
    requires forall i :: 0 <= i < |docs| && docs[i].email == docs[k].email ==> i == k
    ensures FindByEmail(docs, docs[k].email) == Some(docs[k])
  {
    var p := (u: User) => u.email == docs[k].email;
    assert p(docs[k]);
    var j := FoundAt(docs, FindByEmail(docs, docs[k].email).value);
  }

  // ---------------------------------------------------------------- login and signUp

  /** login answers with a token exactly when both credentials are given, a stored user has
      that email, and the password matches that user's hash. */
  lemma LoginSucceedsIff(docs: seq<User>, email: Option<string>, password: Option<string>, now: nat, nodeEnv: string)
    requires StoreInvariant(docs)
    ensures LoginSpec(docs, email, password, now, nodeEnv).SentToken? <==>
      && Present(email) && Present(password)
      && exists i :: 0 <= i < |docs| && docs[i].email == email && CorrectPassword(password.value, docs[i].password)
  {
    if Present(email) && Present(password) {
      if i :| 0 <= i < |docs| && docs[i].email == email && CorrectPassword(password.value, docs[i].password) {
        OnlyHolder(docs, i);
        FindByEmailUnique(docs, i);
      }
    }
  }

  /** An email the schema accepts is not empty, so login sees it as given. */
  lemma EmailIsPresent(s: string)
    requires IsEmail(s)
    ensures s != ""
  {
    var parts := Split(s, '@');
    assert Join(parts, "@") == parts[0] + "@" + Join(parts[1..], "@");
  }

  /** Whoever signs up can log in straight away with the email (as stored, in lower case) and
      the password they signed up with, and gets a token for the new account. */
  lemma SignUpThenLogin(docs: seq<User>, body: SignUpBody, newId: UserId, now: nat, later: nat, nodeEnv: string)
    requires StoreInvariant(docs)
    requires SignUpSpec(docs, body, newId, now, nodeEnv).reply.SentToken?
    ensures var s := SignUpSpec(docs, body, newId, now, nodeEnv);
      && |s.docs| == |docs| + 1 && s.docs[|docs|].id == newId
      && LoginSpec(s.docs, LowerEmail(body.email), body.password, later, nodeEnv) == TokenReply(200, s.docs[|docs|], later, nodeEnv)
  {
    var s := SignUpSpec(docs, body, newId, now, nodeEnv);
    SignUpPreservesInvariant(docs, body, newId, now, nodeEnv);
    var u := SignUpFields(body, newId);
    assert Acceptable(u);
    EmailIsPresent(u.email.value);
    var h := s.docs[|docs|];
    assert h == PreSaveHook(u, true, true, now);
    assert CorrectPassword(body.password.value, h.password);
    OnlyHolder(s.docs, |docs|);
    FindByEmailUnique(s.docs, |docs|);
  }

  // ---------------------------------------------------------------- password changes and tokens

  /** A password save that passes validation on a stored record: the hooked record takes the
      record's place, carries the time of the change, and is the one findById returns. */
  lemma PasswordSavedInPlace(docs: seq<User>, k: nat, changed: User, now: nat)
    requires StoreInvariant(docs) && k < |docs|
    requires changed.id == docs[k].id && changed.email == docs[k].email
    requires changed.passwordResetToken.Some? <==> changed.passwordResetExpires.Some?
    requires Saved(docs, changed, true, false, true, now).err.None?
    ensures var out := Saved(docs, changed, true, false, true, now);
      && out.docs == docs[k := out.doc] && out.doc.id == docs[k].id
      && out.doc.passwordChangedAt == Some(now)
      && StoreInvariant(out.docs)
      && FindById(out.docs, docs[k].id) == Some(out.doc)
  {
    var out := Saved(docs, changed, true, false, true, now);
    assert Stored(docs[k]);
    PasswordChangeIsStored(docs[k], changed, true, now);
    UpdateInPlace(docs, k, out.doc);
    SavePreservesInvariant(docs, changed, true, false, true, now);
    OnlyHolder(out.docs, k);
    FindByIdUnique(out.docs, k);
  }

  /** updatePassword succeeds for a logged-in user who gives the right current password and a
      confirmed new one of at least 8 characters: that record alone is replaced by one whose
      hash accepts the new password and which records the change time, and a token is issued. */
  lemma UpdatePasswordSucceeds(docs: seq<User>, reqUser: Option<User>, passwordCurrent: string,
                               password: string, now: nat, nodeEnv: string)
    requires StoreInvariant(docs)
    requires reqUser.Some? && FindById(docs, reqUser.value.id).Some?
    requires CorrectPassword(passwordCurrent, FindById(docs, reqUser.value.id).value.password)
    requires |password| >= 8
    ensures var s := UpdatePasswordSpec(docs, reqUser, passwordCurrent, Some(password), Some(password), now, nodeEnv);
      && s.reply.SentToken? && s.reply.statusCode == 200
      && exists k :: 0 <= k < |docs| && docs[k].id == reqUser.value.id
           && s.docs == docs[k := s.docs[k]]
           && CorrectPassword(password, s.docs[k].password)
           && s.docs[k].passwordChangedAt == Some(now)
  {
    var u := FindById(docs, reqUser.value.id).value;
    var k := FoundAt(docs, u);
    assert Stored(u);
    var changed := u.(password := PasswordInput(Some(password)), passwordConfirm := Some(password));
    assert Acceptable(changed);
    assert PasswordInput(Some(password)) != u.password;
    PasswordSavedInPlace(docs, k, changed, now);
  }

  /** After updatePassword succeeds at time `now`, protect accepts a token for that user
      exactly when it was issued in the second of the change or later: every token issued
      before is refused, and the token the reply carries is accepted. */
  lemma UpdatePasswordRevokesOlderTokens(docs: seq<User>, reqUser: Option<User>, passwordCurrent: string,
                                         password: Option<string>, passwordConfirm: Option<string>,
                                         now: nat, nodeEnv: string, header: Option<string>, verify: string -> Verified)
    requires StoreInvariant(docs)
    requires UpdatePasswordSpec(docs, reqUser, passwordCurrent, password, passwordConfirm, now, nodeEnv).reply.SentToken?
    requires BearerToken(header).Some? && verify(BearerToken(header).value).Decoded?
    requires reqUser.Some? && verify(BearerToken(header).value).claims.id == reqUser.value.id
    ensures var s := UpdatePasswordSpec(docs, reqUser, passwordCurrent, password, passwordConfirm, now, nodeEnv);
      var a := Authenticate(s.docs, header, verify);
      && (a.Authenticated? <==> verify(BearerToken(header).value).claims.iat >= now / 1000)
      && (a.Rejected? ==> a.err == AppError(PasswordChanged, Some(401)))
      && s.reply.token.iat == now / 1000
  {
    var u := FindById(docs, reqUser.value.id).value;
    var k := FoundAt(docs, u);
    var changed := u.(password := PasswordInput(password), passwordConfirm := passwordConfirm);
    assert Stored(u);
    assert PasswordInput(password) != u.password;
    PasswordSavedInPlace(docs, k, changed, now);
  }

  /** The same holds after resetPassword: the reset revokes every token issued before it. */
  lemma ResetPasswordRevokesOlderTokens(docs: seq<User>, urlToken: string, password: Option<string>,
                                        passwordConfirm: Option<string>, now: nat, nodeEnv: string,
                                        header: Option<string>, verify: string -> Verified)
    requires StoreInvariant(docs)
    requires ResetPasswordSpec(docs, urlToken, password, passwordConfirm, now, nodeEnv).reply.SentToken?
    requires BearerToken(header).Some? && verify(BearerToken(header).value).Decoded?
    requires verify(BearerToken(header).value).claims.id
             == ResetPasswordSpec(docs, urlToken, password, passwordConfirm, now, nodeEnv).reply.token.id
    ensures var s := ResetPasswordSpec(docs, urlToken, password, passwordConfirm, now, nodeEnv);
      var a := Authenticate(s.docs, header, verify);
      && (a.Authenticated? <==> verify(BearerToken(header).value).claims.iat >= now / 1000)
      && (a.Rejected? ==> a.err == AppError(PasswordChanged, Some(401)))
      && s.reply.token.iat == now / 1000
  {
    var u := ResetHolder(docs, Sha256(urlToken), now).value;
    var k := FoundAt(docs, u);
    var changed := WithoutResetToken(u.(password := PasswordInput(password), passwordConfirm := passwordConfirm));
    assert Stored(u);
    assert PasswordInput(password) != u.password;
    PasswordSavedInPlace(docs, k, changed, now);
  }

  /** With the hook as written, a password change leaves passwordChangedAt as it was, so a
      token issued before the change to a user who never changed a password still passes
      protect afterwards. */
  lemma StaleTokenSurvivesAsWritten(docs: seq<User>, k: nat, password: string, header: Option<string>, verify: string -> Verified)
    requires StoreInvariant(docs) && k < |docs| && docs[k].passwordChangedAt.None?
    requires BearerToken(header).Some? && verify(BearerToken(header).value).Decoded?
    requires verify(BearerToken(header).value).claims.id == docs[k].id
    ensures var h := PreSaveHookAsWritten(docs[k].(password := Some(Plain(password)), passwordConfirm := Some(password)), true);
      Authenticate(docs[k := h], header, verify) == Authenticated(h)
  {
    var h := PreSaveHookAsWritten(docs[k].(password := Some(Plain(password)), passwordConfirm := Some(password)), true);
    OnlyHolder(docs, k);
    var d := docs[k := h];
    assert forall i :: 0 <= i < |d| && d[i].id == d[k].id ==> i == k by {
      forall i | 0 <= i < |d| && d[i].id == d[k].id ensures i == k {
      }
    }
    FindByIdUnique(d, k);
  }

  // ---------------------------------------------------------------- password reset

  /** forgotPassword with the email delivered stores sha256(token) and an expiry ten minutes
      ahead on the user with that email, and nothing else; the link it mails ends in the token. */
  lemma ForgotStoresToken(docs: seq<User>, protocol: string, host: string, resetToken: string, now: nat, k: nat)
    requires StoreInvariant(docs) && k < |docs|
    ensures var s := ForgotPasswordSpec(docs, docs[k].email, protocol, host, resetToken, true, now);
      && s.docs == docs[k := WithResetToken(docs[k], resetToken, now)]
      && s.reply == SentMessage(200, TokenSent)
      && s.mail == Some(ResetEmail(docs[k].email, ResetUrl(protocol, host, resetToken)))
  {
    OnlyHolder(docs, k);
    FindByEmailUnique(docs, k);
    UnmodifiedSaveKeepsRecord(WithResetToken(docs[k], resetToken, now), false, now);
    UpdateInPlace(docs, k, WithResetToken(docs[k], resetToken, now));
  }

  /** When the email cannot be sent, forgotPassword clears both reset paths again and answers 500. */
  lemma ForgotRollsBackWhenMailFails(docs: seq<User>, protocol: string, host: string, resetToken: string, now: nat, k: nat)
    requires StoreInvariant(docs) && k < |docs|
    ensures var s := ForgotPasswordSpec(docs, docs[k].email, protocol, host, resetToken, false, now);
      && s.docs == docs[k := WithoutResetToken(docs[k])]
      && s.reply == Failed(AppError(EmailFailed, Some(500)))
  {
    var u := docs[k];
    var withToken := WithResetToken(u, resetToken, now);
    OnlyHolder(docs, k);
    FindByEmailUnique(docs, k);
    UnmodifiedSaveKeepsRecord(withToken, false, now);
    UpdateInPlace(docs, k, withToken);
    assert Stored(u);
    SavePreservesInvariant(docs, withToken, false, false, false, now);
    var d1 := docs[k := withToken];
    UnmodifiedSaveKeepsRecord(WithoutResetToken(withToken), false, now);
    UpdateInPlace(d1, k, WithoutResetToken(withToken));
    assert d1[k := WithoutResetToken(withToken)] == docs[k := WithoutResetToken(u)];
  }

  /** resetPassword's lookup finds the record at k when it is the only one holding the hash
      and its expiry is still ahead. */
  lemma ResetFindsOnlyHolder(docs: seq<User>, k: nat, hashed: Digest, now: nat)
    requires k < |docs| && ResetMatch(docs[k], hashed, now)
    requires forall i :: 0 <= i < |docs| && i != k ==> docs[i].passwordResetToken != Some(hashed)
    ensures ResetHolder(docs, hashed, now) == Some(docs[k])
  {
    var found := ResetHolder(docs, hashed, now);
    var j := FoundAt(docs, found.value);
  }

  /** resetPassword on the only record holding an unexpired hash of the token, with a new
      password of eight or more characters confirmed: that record alone gets the new password
      and loses its reset paths, and its user gets a token. */
  lemma ResetSoleHolder(d: seq<User>, k: nat, resetToken: string, later: nat, password: string, nodeEnv: string)
    requires StoreInvariant(d) && k < |d| && ResetMatch(d[k], Sha256(resetToken), later)
    requires forall i :: 0 <= i < |d| && i != k ==> d[i].passwordResetToken != Some(Sha256(resetToken))
    requires |password| >= 8
    ensures var s := ResetPasswordSpec(d, resetToken, Some(password), Some(password), later, nodeEnv);
      && s.reply.SentToken? && s.reply.token.id == d[k].id
      && |s.docs| == |d| && (forall i :: 0 <= i < |d| && i != k ==> s.docs[i] == d[i])
      && CorrectPassword(password, s.docs[k].password)
      && s.docs[k].passwordResetToken.None? && s.docs[k].passwordResetExpires.None?
  {
    ResetFindsOnlyHolder(d, k, Sha256(resetToken), later);
    var u := d[k];
    var changed := WithoutResetToken(u.(password := Some(Plain(password)), passwordConfirm := Some(password)));
    assert Stored(u);
    assert Acceptable(changed);
    PasswordSavedInPlace(d, k, changed, later);
  }

  /** The reset round trip: the token read back from the mailed link, sent within ten minutes
      with a new password of eight or more characters and the same confirmation, resets the
      password of the user who asked, clears the reset paths and logs that user in. No other
      record may already hold the same hash (a fresh random token). */
  lemma ForgotThenReset(docs: seq<User>, protocol: string, host: string, resetToken: string, now: nat,
                        later: nat, k: nat, password: string, nodeEnv: string)
    requires StoreInvariant(docs) && k < |docs| && '/' !in resetToken
    requires forall i :: 0 <= i < |docs| ==> docs[i].passwordResetToken != Some(Sha256(resetToken))
    requires now <= later < now + ResetWindowMs
    requires |password| >= 8
    ensures var s1 := ForgotPasswordSpec(docs, docs[k].email, protocol, host, resetToken, true, now);
      var s2 := ResetPasswordSpec(s1.docs, LastSegment(ResetUrl(protocol, host, resetToken)),
                                  Some(password), Some(password), later, nodeEnv);
      && s2.reply.SentToken? && s2.reply.token.id == docs[k].id
      && |s2.docs| == |docs| && (forall i :: 0 <= i < |docs| && i != k ==> s2.docs[i] == docs[i])
      && CorrectPassword(password, s2.docs[k].password)
      && s2.docs[k].passwordResetToken.None? && s2.docs[k].passwordResetExpires.None?
  {
    ForgotStoresToken(docs, protocol, host, resetToken, now, k);
    var d1 := docs[k := WithResetToken(docs[k], resetToken, now)];
    assert LastSegment(ResetUrl(protocol, host, resetToken)) == resetToken;
    ForgotPreservesInvariant(docs, docs[k].email, protocol, host, resetToken, true, now);
    ResetSoleHolder(d1, k, resetToken, later, password, nodeEnv);
  }

  /** Ten minutes after forgotPassword the token no longer resets anything. */
  lemma ResetTokenExpires(docs: seq<User>, protocol: string, host: string, resetToken: string, now: nat,
                          later: nat, k: nat, password: Option<string>, passwordConfirm: Option<string>, nodeEnv: string)
    requires StoreInvariant(docs) && k < |docs|
    requires forall i :: 0 <= i < |docs| ==> docs[i].passwordResetToken != Some(Sha256(resetToken))
    requires later >= now + ResetWindowMs
    ensures var s1 := ForgotPasswordSpec(docs, docs[k].email, protocol, host, resetToken, true, now);
      ResetPasswordSpec(s1.docs, resetToken, password, passwordConfirm, later, nodeEnv)
      == Step(s1.docs, Failed(AppError(TokenInvalid, Some(400))))
  {
    ForgotStoresToken(docs, protocol, host, resetToken, now, k);
    var d1 := docs[k := WithResetToken(docs[k], resetToken, now)];
    forall i | 0 <= i < |d1| ensures !ResetMatch(d1[i], Sha256(resetToken), later) {
      if i != k {
        assert d1[i] == docs[i];
      }
    }
  }

  /** A reset token works once: when only one record holds its hash, a second request with
      the same token after a successful reset is refused with 400 and changes nothing. */
  lemma ResetIsSingleUse(docs: seq<User>, urlToken: string, password: Option<string>, passwordConfirm: Option<string>,
                         now: nat, later: nat, password2: Option<string>, passwordConfirm2: Option<string>, nodeEnv: string)
    requires StoreInvariant(docs)
    requires forall i, j ::
      (0 <= i < |docs| && 0 <= j < |docs| && docs[i].passwordResetToken == Some(Sha256(urlToken))
       && docs[j].passwordResetToken == Some(Sha256(urlToken))) ==> i == j
    requires ResetPasswordSpec(docs, urlToken, password, passwordConfirm, now, nodeEnv).reply.SentToken?
    ensures var s := ResetPasswordSpec(docs, urlToken, password, passwordConfirm, now, nodeEnv);
      ResetPasswordSpec(s.docs, urlToken, password2, passwordConfirm2, later, nodeEnv)
      == Step(s.docs, Failed(AppError(TokenInvalid, Some(400))))
  {
    var u := ResetHolder(docs, Sha256(urlToken), now).value;
    var k := FoundAt(docs, u);
    var changed := WithoutResetToken(u.(password := PasswordInput(password), passwordConfirm := passwordConfirm));
    assert Stored(u);
    assert PasswordInput(password) != u.password;
    PasswordSavedInPlace(docs, k, changed, now);
    var s := ResetPasswordSpec(docs, urlToken, password, passwordConfirm, now, nodeEnv);
    forall i | 0 <= i < |s.docs| ensures !ResetMatch(s.docs[i], Sha256(urlToken), later) {
      if i != k {
        assert s.docs[i] == docs[i];
      }
    }
  }

  /** Finding: the link as written ends in the token followed by '}', so the token a user
      reads from it hashes to something no record holds and the reset is refused. */
  lemma ResetLinkAsWrittenNeverMatches(docs: seq<User>, protocol: string, host: string, resetToken: string, now: nat,
                                       later: nat, k: nat, password: Option<string>, passwordConfirm: Option<string>, nodeEnv: string)
    requires StoreInvariant(docs) && k < |docs| && '/' !in resetToken
    requires forall i :: 0 <= i < |docs| ==> docs[i].passwordResetToken != Some(Sha256(resetToken + "}"))
    ensures LastSegment(ResetUrlAsWritten(protocol, host, resetToken)) == resetToken + "}"
    ensures var s1 := ForgotPasswordSpec(docs, docs[k].email, protocol, host, resetToken, true, now);
      ResetPasswordSpec(s1.docs, LastSegment(ResetUrlAsWritten(protocol, host, resetToken)), password, passwordConfirm, later, nodeEnv)
      == Step(s1.docs, Failed(AppError(TokenInvalid, Some(400))))
  {
    assert resetToken + "}" != resetToken by {
      assert |resetToken + "}"| != |resetToken|;
    }
    ForgotStoresToken(docs, protocol, host, resetToken, now, k);
    var d1 := docs[k := WithResetToken(docs[k], resetToken, now)];
    forall i | 0 <= i < |d1| ensures !ResetMatch(d1[i], Sha256(resetToken + "}"), later) {
      if i != k {
        assert d1[i] == docs[i];
      }
    }
    assert ResetHolder(d1, Sha256(resetToken + "}"), later).None?;
  }

  /** Finding: with no matching record, resetPassword as written hands two errors to next.
      The first is the 400 the client receives; the second, a TypeError raised because
      execution goes on with `null`, reaches next after that response was sent, so it can no
      longer be answered. The corrected flow hands over the 400 alone. */
  lemma ResetMissCallsNextTwiceAsWritten(docs: seq<User>, urlToken: string, password: Option<string>,
                                         passwordConfirm: Option<string>, now: nat, nodeEnv: string)
    requires forall i :: 0 <= i < |docs| ==> !ResetMatch(docs[i], Sha256(urlToken), now)
    ensures var calls := ResetLookupAsWritten(ResetHolder(docs, Sha256(urlToken), now));
      && |calls| == 2
      && ErrorResponse("production", calls[0]) == Json(400, "fail", TokenInvalid, None, None)
      && calls[1].className == "TypeError" && !calls[1].isOperational
    ensures var s := ResetPasswordSpec(docs, urlToken, password, passwordConfirm, now, nodeEnv);
      s.reply.Failed? && ErrorResponse("production", s.reply.err) == Json(400, "fail", TokenInvalid, None, None)
  {
    var calls := ResetLookupAsWritten(ResetHolder(docs, Sha256(urlToken), now));
    ProductionOtherError(calls[0]);
  }

  // ---------------------------------------------------------------- roles

  /** Finding: signUp as written copies `role` from the body, so anyone can create an admin
      account that restrictTo('admin') lets through; with the role ignored the new account is
      refused with 403. */
  lemma SignUpRoleAsWrittenGrantsAdmin(body: SignUpBody, id: UserId, now: nat)
    requires body.role == Some("admin")
    ensures RestrictTo(["admin"], Some(PreSaveHookAsWritten(SignUpFieldsAsWritten(body, id), true))) == Pass
    ensures RestrictTo(["admin"], Some(PreSaveHook(SignUpFields(body, id), true, true, now)))
         == Fail(AppError(NoPermission, Some(403)))
  {
  }

  /** Every account signUp creates has the default role. */
  lemma SignUpGivesUserRole(docs: seq<User>, body: SignUpBody, newId: UserId, now: nat, nodeEnv: string)
    requires SignUpSpec(docs, body, newId, now, nodeEnv).reply.SentToken?
    ensures SignUpSpec(docs, body, newId, now, nodeEnv).reply.user.role == "user"
    ensures SignUpSpec(docs, body, newId, now, nodeEnv).docs[|docs|].role == "user"
  {
  }

  /** A route restricted to some roles answers 403 in production to a logged-in user whose
      role is not among them. */
  lemma RestrictedRouteAnswers403(roles: seq<string>, u: User)
    requires u.role !in roles
    ensures ErrorResponse("production", RestrictTo(roles, Some(u)).err) == Json(403, "fail", NoPermission, None, None)
  {
    ProductionOtherError(AppError(NoPermission, Some(403)));
  }

  // ---------------------------------------------------------------- responses in production

  /** Finding: as written, missing credentials reach the client as a 500 carrying the login
      message, because the error has no status code; with the 400 given to AppError the
      client gets the intended 400. */
  lemma MissingCredentialsAnswer500AsWritten(docs: seq<User>, email: Option<string>, password: Option<string>, now: nat, nodeEnv: string)
    requires !Present(email) || !Present(password)
    ensures ErrorResponse("production", MissingCredentialsAsWritten()) == Json(500, "error", ProvideCredentials, None, None)
    ensures ErrorResponse("production", LoginSpec(docs, email, password, now, nodeEnv).err)
         == Json(400, "fail", ProvideCredentials, None, None)
  {
    ProductionOtherError(MissingCredentialsAsWritten());
    ProductionOtherError(AppError(ProvideCredentials, Some(400)));
  }

  /** A token jwt.verify rejects has no handler of its own and reaches the client as the
      generic 500. */
  lemma BadTokenAnswers500(docs: seq<User>, header: Option<string>, verify: string -> Verified)
    requires BearerToken(header).Some? && !verify(BearerToken(header).value).Decoded?
    ensures Authenticate(docs, header, verify).Rejected?
    ensures ErrorResponse("production", Authenticate(docs, header, verify).err)
         == Json(500, "error", GenericMessage, None, None)
  {
    ProductionOtherError(Authenticate(docs, header, verify).err);
  }

  /** The email index refuses a valid sign-up whose email a stored record already has. */
  lemma SignUpRefusedByEmailIndex(docs: seq<User>, body: SignUpBody, newId: UserId, now: nat, k: nat)
    requires k < |docs|
    requires docs[k].email == LowerEmail(body.email) && docs[k].id != newId
    requires Acceptable(SignUpFields(body, newId)) && !IdTaken(docs, newId)
    ensures Saved(docs, SignUpFields(body, newId), true, true, true, now).err
         == Some(DuplicateKeyError([(EmailPath, docs[k].email.value)]))
  {
    var u := SignUpFields(body, newId);
    var h := PreSaveHook(u, true, true, now);
    assert h.email == docs[k].email && h.id == newId;
    assert EmailTakenByOther(docs, h) by {
      assert docs[k].id != h.id && docs[k].email == h.email;
    }
  }

  /** Signing up with an email already taken is refused by the unique index and reaches the
      client as a 400 naming the email. */
  lemma DuplicateEmailSignUp(docs: seq<User>, body: SignUpBody, newId: UserId, now: nat, nodeEnv: string, k: nat)
    requires k < |docs|
    requires docs[k].email == LowerEmail(body.email) && docs[k].id != newId
    requires Acceptable(SignUpFields(body, newId)) && !IdTaken(docs, newId)
    ensures var s := SignUpSpec(docs, body, newId, now, nodeEnv);
      && s == Step(docs, Failed(DuplicateKeyError([(EmailPath, docs[k].email.value)])))
      && ErrorResponse("production", s.reply.err)
         == Json(400, "fail", "Duplicate " + EmailPath + ": " + docs[k].email.value + ", Please use another " + EmailPath, None, None)
  {
    var v := docs[k].email.value;
    SignUpRefusedByEmailIndex(docs, body, newId, now, k);
    ProductionDuplicateKey(DuplicateKeyError([(EmailPath, v)]), EmailPath, v);
  }
}
