/** The user schema: the record, the validators Mongoose runs before a save, the pre-save
    hook that hashes a modified password, the user document that controllers change in
    place, and the users collection with its unique indexes on _id and email. */
module UserModel {
  import opened Wrappers
  import opened Text
  import opened Crypto
  import opened ErrorController

  type UserId = string

  const BcryptCost: nat := 12
  /** Length of the text of a bcrypt hash. */
  const BcryptHashLength: nat := 60
  /** A reset token is valid for ten minutes of Date.now() milliseconds. */
  const ResetWindowMs: nat := 10 * 60 * 1000

  /** The password path holds the plaintext until the pre-save hook replaces it by its hash. */
  datatype Password = Plain(text: string) | Hashed(hash: BcryptHash)

  datatype User = User(
    id: UserId,
    name: Option<string>,
    email: Option<string>,
    photo: Option<string>,
    password: Option<Password>,
    passwordConfirm: Option<string>,
    role: string,
    passwordChangedAt: Option<nat>,         // Date.now() milliseconds
    passwordResetToken: Option<Digest>,
    passwordResetExpires: Option<nat>)      // Date.now() milliseconds

  /** Mongoose's `required` for a string path: present and not empty. */
  predicate Present(s: Option<string>) {
    s.Some? && s.value != ""
  }

  /** A password as a request body gives it: the plaintext, or undefined. */
  function PasswordInput(p: Option<string>): Option<Password> {
    if p.Some? then Some(Plain(p.value)) else None
  }

  function PasswordLength(p: Password): nat {
    match p
    case Plain(t) => |t|
    case Hashed(_) => BcryptHashLength
  }

  // The validators, one per path: `required` first, then the other validators in the order
  // the schema declares them; a path reports only its first failure.

  function NameError(name: Option<string>): (msg: Option<string>)
    ensures msg.None? <==> name.Some? && 10 <= |name.value| <= 40
    ensures !Present(name) ==> msg == Some("Please tell us your name")
    ensures Present(name) && |name.value| > 40 ==> msg == Some("Your name must have less than 40 characters")
    ensures Present(name) && |name.value| < 10 ==> msg == Some("Your name must have more than 10 characters")
  {
    if !Present(name) then Some("Please tell us your name")
    else if |name.value| > 40 then Some("Your name must have less than 40 characters")
    else if |name.value| < 10 then Some("Your name must have more than 10 characters")
    else None
  }

  function EmailError(email: Option<string>): (msg: Option<string>)
    ensures msg.None? <==> email.Some? && IsEmail(email.value)
    ensures !Present(email) ==> msg == Some("Please provide us your email")
    ensures Present(email) && !IsEmail(email.value) ==> msg == Some("Please fill a valid email address")
  {
    if !Present(email) then Some("Please provide us your email")
    else if !IsEmail(email.value) then Some("Please fill a valid email address")
    else None
  }

  function PasswordError(password: Option<Password>): (msg: Option<string>)
    ensures msg.None? <==> password.Some? && PasswordLength(password.value) >= 8
    ensures password.None? || password == Some(Plain("")) ==> msg == Some("Required password")
    ensures password.Some? && password != Some(Plain("")) && PasswordLength(password.value) < 8 ==>
      msg == Some("Your password must have more than 8 chars")
  {
    if password.None? || password.value == Plain("") then Some("Required password")
    else if PasswordLength(password.value) < 8 then Some("Your password must have more than 8 chars")
    else None
  }

  function PasswordConfirmError(confirm: Option<string>, password: Option<Password>): (msg: Option<string>)
    ensures msg.None? <==> Present(confirm) && password == Some(Plain(confirm.value))
    ensures !Present(confirm) ==> msg == Some("Please confirm your password")
    ensures Present(confirm) && password != Some(Plain(confirm.value)) ==> msg == Some("Passwords are not the same")
  {
    if !Present(confirm) then Some("Please confirm your password")
    else if password != Some(Plain(confirm.value)) then Some("Passwords are not the same")
    else None
  }

  /** What the schema accepts, stated path by path. */
  predicate Acceptable(u: User) {
    && u.name.Some? && 10 <= |u.name.value| <= 40
    && u.email.Some? && IsEmail(u.email.value)
    && u.password.Some? && PasswordLength(u.password.value) >= 8
    && Present(u.passwordConfirm) && u.password == Some(Plain(u.passwordConfirm.value))
  }

  /** The message a check contributes: its own when it failed, none when it passed. */
  function Reported(result: Option<string>): seq<string> {
    if result.Some? then [result.value] else []
  }

  /** The messages of the failed checks, one per failed check: none exactly when every
      check passed. */
  function Messages(results: seq<Option<string>>): (msgs: seq<string>)
    ensures |msgs| <= |results|
    ensures msgs == [] <==> forall i :: 0 <= i < |results| ==> results[i].None?
    decreases |results|
  {
    if |results| == 0 then []
    else
      var rest := Messages(results[1..]);
      assert forall i :: 1 <= i < |results| ==> results[i] == results[1..][i - 1];
      Reported(results[0]) + rest
  }

  /** A message is reported exactly when some check failed with it. */
  lemma {:induction false} MessagesReportFailures(results: seq<Option<string>>)
    ensures forall m :: m in Messages(results) <==> exists i :: 0 <= i < |results| && results[i] == Some(m)
    decreases |results|
  {
    if |results| > 0 {
      MessagesReportFailures(results[1..]);
      forall m ensures m in Messages(results) <==> exists i :: 0 <= i < |results| && results[i] == Some(m) {
        if j :| 0 <= j < |results[1..]| && results[1..][j] == Some(m) {
          assert results[j + 1] == Some(m);
        }
        if i :| 0 <= i < |results| && results[i] == Some(m) {
          if i > 0 {
            assert results[1..][i - 1] == Some(m);
          }
        }
      }
    }
  }

  /** The messages keep the order of the checks: the checks of `a` report before those of `b`. */
  lemma {:induction false} MessagesInOrder(a: seq<Option<string>>, b: seq<Option<string>>)
    ensures Messages(a + b) == Messages(a) + Messages(b)
    decreases |a|
  {
    if |a| == 0 {
      assert a + b == b;
    } else {
      assert (a + b)[0] == a[0];
      assert (a + b)[1..] == a[1..] + b;
      MessagesInOrder(a[1..], b);
      assert Messages(a + b) == Reported(a[0]) + (Messages(a[1..]) + Messages(b));
    }
  }

  /** A single check reports its own message or none. */
  lemma MessagesOfOne(x: Option<string>)
    ensures Messages([x]) == Reported(x)
  {
    assert [x][1..] == [];
  }

  /** Four checks report their messages one after the other. */
  lemma MessagesOfFour(a: Option<string>, b: Option<string>, c: Option<string>, d: Option<string>)
    ensures Messages([a, b, c, d]) == Reported(a) + Reported(b) + Reported(c) + Reported(d)
  {
    MessagesOfOne(a);
    MessagesOfOne(b);
    MessagesOfOne(c);
    MessagesOfOne(d);
    MessagesInOrder([c], [d]);
    assert [c] + [d] == [c, d];
    MessagesInOrder([b], [c, d]);
    assert [b] + [c, d] == [b, c, d];
    MessagesInOrder([a], [b, c, d]);
    assert [a] + [b, c, d] == [a, b, c, d];
  }

  function ValidationResults(u: User): seq<Option<string>> {
    [NameError(u.name), EmailError(u.email), PasswordError(u.password),
     PasswordConfirmError(u.passwordConfirm, u.password)]
  }

  /** The messages of a ValidationError for `u`, one per failing path: none exactly when the
      schema accepts the record, and the message of every path that fails. */
  function ValidationMessages(u: User): (msgs: seq<string>)
    ensures msgs == [] <==> Acceptable(u)
    ensures NameError(u.name).Some? ==> NameError(u.name).value in msgs
    ensures EmailError(u.email).Some? ==> EmailError(u.email).value in msgs
    ensures PasswordError(u.password).Some? ==> PasswordError(u.password).value in msgs
    ensures PasswordConfirmError(u.passwordConfirm, u.password).Some? ==>
      PasswordConfirmError(u.passwordConfirm, u.password).value in msgs
  {
    var results := ValidationResults(u);
    assert (forall i :: 0 <= i < |results| ==> results[i].None?)
       <==> results[0].None? && results[1].None? && results[2].None? && results[3].None?;
    assert results[0] == NameError(u.name) && results[1] == EmailError(u.email);
    assert results[2] == PasswordError(u.password);
    assert results[3] == PasswordConfirmError(u.passwordConfirm, u.password);
    MessagesReportFailures(results);
    Messages(results)
  }

  /** Each path reports its first failure, in schema order: name, email, password,
      passwordConfirm. */
  lemma ValidationMessagesInSchemaOrder(u: User)
    ensures ValidationMessages(u) == Reported(NameError(u.name)) + Reported(EmailError(u.email))
                                     + Reported(PasswordError(u.password))
                                     + Reported(PasswordConfirmError(u.passwordConfirm, u.password))
  {
    MessagesOfFour(NameError(u.name), EmailError(u.email), PasswordError(u.password),
                   PasswordConfirmError(u.passwordConfirm, u.password));
  }

  /** The pre('save') hook as written: nothing happens unless the password was modified;
      then the plaintext is replaced by its bcrypt hash and passwordConfirm is dropped.
      No other path is touched. */
  function PreSaveHookAsWritten(u: User, passwordModified: bool): (r: User)
    ensures r.(password := u.password, passwordConfirm := u.passwordConfirm) == u
    ensures !passwordModified ==> r == u
    ensures passwordModified ==> r.passwordConfirm.None?
    ensures passwordModified && u.password.Some? && u.password.value.Plain? ==>
      r.password.Some? && r.password.value.Hashed?
      && forall c :: BcryptCompare(c, r.password.value.hash) <==> c == u.password.value.text
  {
    if !passwordModified then u
    else
      var password := match u.password
        case Some(Plain(p)) => Some(Hashed(Bcrypt(p, BcryptCost)))
        case other => other;
      u.(password := password, passwordConfirm := None)
  }

  /** The pre('save') hook as the controllers rely on it: in addition, a password change
      on a document that already exists records its time in passwordChangedAt. */
  function PreSaveHook(u: User, passwordModified: bool, isNew: bool, now: nat): (r: User)
    ensures r.(passwordChangedAt := u.passwordChangedAt) == PreSaveHookAsWritten(u, passwordModified)
    ensures passwordModified && !isNew ==> r.passwordChangedAt == Some(now)
    ensures !(passwordModified && !isNew) ==> r == PreSaveHookAsWritten(u, passwordModified)
  {
    var hashed := PreSaveHookAsWritten(u, passwordModified);
    if passwordModified && !isNew then hashed.(passwordChangedAt := Some(now)) else hashed
  }

  /** createPasswordResetToken: store the SHA-256 of the token and an expiry ten minutes out. */
  function WithResetToken(u: User, resetToken: string, now: nat): User {
    u.(passwordResetToken := Some(Sha256(resetToken)), passwordResetExpires := Some(now + ResetWindowMs))
  }

  function WithoutResetToken(u: User): User {
    u.(passwordResetToken := None, passwordResetExpires := None)
  }

  /** A record as the collection keeps it: valid name and lower-case email, a hashed password,
      no confirmation, and the two reset paths set together or not at all. */
  predicate Stored(u: User) {
    && NameError(u.name).None?
    && u.email.Some? && IsEmail(u.email.value) && IsLower(u.email.value)
    && u.password.Some? && u.password.value.Hashed?
    && u.passwordConfirm.None?
    && (u.passwordResetToken.Some? <==> u.passwordResetExpires.Some?)
  }

  /** The collection's invariant: unique _id, unique email, every record Stored. */
  predicate StoreInvariant(docs: seq<User>) {
    && (forall i, j :: 0 <= i < j < |docs| ==> docs[i].id != docs[j].id && docs[i].email != docs[j].email)
    && (forall i :: 0 <= i < |docs| ==> Stored(docs[i]))
  }

  /** The position of the first record satisfying p, as findOne scans the collection. */
  function FindIndex(docs: seq<User>, p: User -> bool): (r: Option<nat>)
    ensures r.Some? ==> r.value < |docs| && p(docs[r.value]) && forall i :: 0 <= i < r.value ==> !p(docs[i])
    ensures r.None? ==> forall i :: 0 <= i < |docs| ==> !p(docs[i])
  {
    if |docs| == 0 then None
    else if p(docs[0]) then Some(0)
    else match FindIndex(docs[1..], p)
      case None => None
      case Some(k) => Some(k + 1)
  }

  function FindOne(docs: seq<User>, p: User -> bool): (r: Option<User>)
    ensures r.Some? ==> r.value in docs && p(r.value)
    ensures r.None? ==> forall i :: 0 <= i < |docs| ==> !p(docs[i])
  {
    match FindIndex(docs, p)
    case None => None
    case Some(k) => Some(docs[k])
  }

  function FindById(docs: seq<User>, id: UserId): Option<User> {
    FindOne(docs, (u: User) => u.id == id)
  }

  function FindByEmail(docs: seq<User>, email: Option<string>): Option<User> {
    FindOne(docs, (u: User) => u.email == email)
  }

  /** The path the unique email index reports in a duplicate-key error. */
  const EmailPath := "email"

  predicate IdTaken(docs: seq<User>, id: UserId) {
    exists i :: 0 <= i < |docs| && docs[i].id == id
  }

  predicate EmailTakenByOther(docs: seq<User>, u: User) {
    u.email.Some? && exists i :: 0 <= i < |docs| && docs[i].id != u.id && docs[i].email == u.email
  }

  /** What the unique indexes and the update make of writing `u`: an insert clashes on _id
      or email; an update needs the record to exist and clashes on email. */
  function WriteError(docs: seq<User>, u: User, isNew: bool): (r: Option<Error>)
    ensures r.None? <==> (isNew <==> !IdTaken(docs, u.id)) && !EmailTakenByOther(docs, u)
    ensures isNew && IdTaken(docs, u.id) ==> r.Some? && r.value.code == Some(DuplicateKeyCode)
    ensures (isNew <==> !IdTaken(docs, u.id)) && EmailTakenByOther(docs, u) ==>
      r == Some(DuplicateKeyError([(EmailPath, u.email.value)])) && r.value.code == Some(DuplicateKeyCode)
    ensures !isNew && !IdTaken(docs, u.id) ==> r.Some? && !r.value.isOperational && r.value.code.None?
  {
    if isNew && IdTaken(docs, u.id) then Some(DuplicateKeyError([("_id", u.id)]))
    else if !isNew && !IdTaken(docs, u.id) then Some(LibraryError("DocumentNotFoundError", "No document found for query \"{ _id: " + u.id + " }\""))
    else if EmailTakenByOther(docs, u) then Some(DuplicateKeyError([(EmailPath, u.email.value)]))
    else None
  }

  /** The record replaced by `u` wherever its _id is u's. */
  function Put(docs: seq<User>, u: User): seq<User> {
    seq(|docs|, i requires 0 <= i < |docs| => if docs[i].id == u.id then u else docs[i])
  }

  function Written(docs: seq<User>, u: User, isNew: bool): seq<User> {
    if isNew then docs + [u] else Put(docs, u)
  }

  datatype SaveOutcome = SaveOutcome(docs: seq<User>, doc: User, err: Option<Error>)

  /** document.save(): validation (unless switched off) runs before the hook and stops the
      save with the document untouched; the hook then runs on the document, and the write
      either fails on an index, leaving the collection as it was, or stores the hooked record. */
  function Saved(docs: seq<User>, u: User, passwordModified: bool, isNew: bool, validate: bool, now: nat): (out: SaveOutcome)
    ensures validate && !Acceptable(u) ==> out == SaveOutcome(docs, u, Some(ValidationError(ValidationMessages(u))))
    ensures out.err.Some? ==> out.docs == docs
    ensures out.err.None? ==>
      (validate ==> Acceptable(u)) && out.doc == PreSaveHook(u, passwordModified, isNew, now)
      && out.docs == Written(docs, out.doc, isNew)
  {
    if validate && ValidationMessages(u) != [] then
      SaveOutcome(docs, u, Some(ValidationError(ValidationMessages(u))))
    else
      var hooked := PreSaveHook(u, passwordModified, isNew, now);
      var err := WriteError(docs, hooked, isNew);
      if err.Some? then SaveOutcome(docs, hooked, err)
      else SaveOutcome(Written(docs, hooked, isNew), hooked, None)
  }

  /** A save that succeeds keeps the collection's invariant whenever the hooked record is one
      the collection may hold. */
  lemma SavePreservesInvariant(docs: seq<User>, u: User, passwordModified: bool, isNew: bool, validate: bool, now: nat)
    requires StoreInvariant(docs)
    requires Stored(PreSaveHook(u, passwordModified, isNew, now))
    ensures StoreInvariant(Saved(docs, u, passwordModified, isNew, validate, now).docs)
  {
    var out := Saved(docs, u, passwordModified, isNew, validate, now);
    if out.err.None? {
      var h := out.doc;
      assert !EmailTakenByOther(docs, h);
      if isNew {
        assert !IdTaken(docs, h.id);
        var r := docs + [h];
        assert out.docs == r;
        forall i, j | 0 <= i < j < |r| ensures r[i].id != r[j].id && r[i].email != r[j].email {
          if j == |docs| {
            assert r[i] == docs[i];
          }
        }
      } else {
        var r := Put(docs, h);
        assert out.docs == r;
        forall i, j | 0 <= i < j < |r| ensures r[i].id != r[j].id && r[i].email != r[j].email {
          if docs[i].id == h.id {
            assert docs[j].id != h.id;
          } else if docs[j].id == h.id {
            assert docs[i].id != h.id;
          }
        }
      }
    }
  }

  /** A validated save of a modified password yields a record the collection may hold,
      provided the email is lower-case and the reset paths agree. */
  lemma ValidatedHookIsStored(u: User, isNew: bool, now: nat)
    requires Acceptable(u) && IsLower(u.email.value)
    requires u.passwordResetToken.Some? <==> u.passwordResetExpires.Some?
    ensures Stored(PreSaveHook(u, true, isNew, now))
  {
  }

  /** An unmodified password leaves the hook with nothing to do, so saving again never re-hashes. */
  lemma UnmodifiedSaveKeepsRecord(u: User, isNew: bool, now: nat)
    ensures PreSaveHook(u, false, isNew, now) == u
  {
  }

  /** A user document: the record's paths, whether it is new, and whether its password path
      was modified since it was loaded or last saved. Controllers change its paths in place. */
  class UserDoc {
    var fields: User
    var isNew: bool
    var passwordModified: bool

    /** User.create builds a new document on which every given path counts as modified. */
    constructor New(u: User)
      ensures fields == u && isNew && passwordModified == u.password.Some?
    {
      fields := u;
      isNew := true;
      passwordModified := u.password.Some?;
    }

    /** A document as findOne / findById return it. */
    constructor Loaded(u: User)
      ensures fields == u && !isNew && !passwordModified
    {
      fields := u;
      isNew := false;
      passwordModified := false;
    }

    /** `user.password = ...; user.passwordConfirm = ...`: the password path becomes modified
      when its value changes. */
    method SetPassword(password: Option<string>, passwordConfirm: Option<string>)
      modifies this
      ensures fields == old(fields).(password := PasswordInput(password), passwordConfirm := passwordConfirm)
      ensures passwordModified == (old(passwordModified) || PasswordInput(password) != old(fields).password)
      ensures isNew == old(isNew)
    {
      var p := PasswordInput(password);
      if p != fields.password {
        passwordModified := true;
      }
      fields := fields.(password := p, passwordConfirm := passwordConfirm);
    }

    /** createPasswordResetToken: stores the hash and expiry of the (random) token and returns
      the token itself. */
    method CreatePasswordResetToken(resetToken: string, now: nat) returns (token: string)
      modifies this
      ensures fields == WithResetToken(old(fields), resetToken, now) && token == resetToken
      ensures isNew == old(isNew) && passwordModified == old(passwordModified)
    {
      fields := fields.(passwordResetToken := Some(Sha256(resetToken)));
      fields := fields.(passwordResetExpires := Some(now + ResetWindowMs));
      token := resetToken;
    }

    /** `user.passwordResetToken = undefined; user.passwordResetExpires = undefined` */
    method ClearPasswordResetToken()
      modifies this
      ensures fields == WithoutResetToken(old(fields))
      ensures isNew == old(isNew) && passwordModified == old(passwordModified)
    {
      fields := fields.(passwordResetToken := None);
      fields := fields.(passwordResetExpires := None);
    }

    /** The pre('save') hook, run on the document in place. */
    method RunPreSaveHook(now: nat)
      modifies this
      ensures fields == PreSaveHook(old(fields), old(passwordModified), old(isNew), now)
      ensures isNew == old(isNew) && passwordModified == old(passwordModified)
    {
      if !passwordModified {
        return;
      }
      match fields.password {
        case Some(Plain(p)) =>
          fields := fields.(password := Some(Hashed(Bcrypt(p, BcryptCost))));
        case _ =>
      }
      fields := fields.(passwordConfirm := None);
      if !isNew {
        fields := fields.(passwordChangedAt := Some(now));
      }
    }
  }

  /** The users collection. */
  class UserStore {
    var docs: seq<User>

    ghost predicate Valid()
      reads this
    {
      StoreInvariant(docs)
    }

    constructor ()
      ensures docs == [] && Valid()
    {
      docs := [];
    }

    /** document.save({ validateBeforeSave: validate }) */
    method Save(doc: UserDoc, validate: bool, now: nat) returns (err: Option<Error>)
      modifies this, doc
      ensures var out := Saved(old(docs), old(doc.fields), old(doc.passwordModified), old(doc.isNew), validate, now);
        docs == out.docs && doc.fields == out.doc && err == out.err
      ensures doc.isNew == (old(doc.isNew) && err.Some?)
      ensures doc.passwordModified == (old(doc.passwordModified) && err.Some?)
    {
      if validate {
        var msgs := ValidationMessages(doc.fields);
        if msgs != [] {
          return Some(ValidationError(msgs));
        }
      }
      doc.RunPreSaveHook(now);
      err := WriteError(docs, doc.fields, doc.isNew);
      if err.None? {
        docs := Written(docs, doc.fields, doc.isNew);
        doc.isNew := false;
        doc.passwordModified := false;
      }
    }
  }
}
