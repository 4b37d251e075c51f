/** The server's account handlers: registration, login, e-mail
    verification and the password-reset pair, on a store under the
    server's schema. A handler either responds or passes an error on with
    `next`; the error page that renders it is not part of this model. The
    mail service is the `send` parameter (false when it rejects), random
    bytes are `random`, SHA-256 in hex is `digest`, and the lifetime of the
    tokens the record issues is `lifetime`. Only login loads a record with
    its password; the other lookups leave it out, and the pre-save hook,
    which hashes only a modified password, keeps the stored hash. */
module ServerAuthController {
  import opened Common
  import opened Accounts
  import opened Store
  import opened Effects
  import opened Updates
  import opened FieldRules
  import Server = ServerUserModel

  /** What the handlers pass to `next`. */
  datatype Raised =
    | Raised(code: int, message: string)   // `createError(code, message)`
    | SaveFailed(error: SaveError)         // a create or save that threw
    | MailFailed                           // the mail service threw

  /** `data.user` of a session reply. */
  datatype Profile = Profile(id: nat, email: string, displayName: string, isEmailVerified: bool)

  /** A session reply carries a token signed for `userId`. */
  datatype Body = Session(userId: nat, profile: Option<Profile>) | Note(message: string)

  datatype Answer = Respond(code: int, body: Body) | Next(error: Raised)

  function ProfileOf(a: Account): Profile {
    Profile(a.id, a.regularEmail, a.displayName, a.isEmailVerified)
  }

  /** The token a record issues: hex of fresh random bytes; the record
      keeps its digest. */
  function IssuedToken(random: seq<byte>): string {
    ToHex(random)
  }

  // ---------------------------------------------------------------- register

  /** `User.create({ email, password, displayName })`. */
  function SignUpDocument(email: string, password: string, displayName: string): Account {
    NewDocument(displayName, "", email, "", Plain(password))
  }

  /** The duplicate check, the insert, the issued verification token saved,
      the mail, then 201 with a session. */
  function RegisterOutcome(users: seq<Account>, nextId: nat, email: string, password: string, displayName: string,
                           random: seq<byte>, digest: string -> string, lifetime: Millis, send: Mail -> bool,
                           now: Millis): (Answer, seq<Account>, seq<Effect>)
  {
    if FindFirst(users, ByEmail(email)).Some? then (Next(Raised(400, "Email already in use")), users, [])
    else match CreateOutcome(ServerSchema, users, nextId, SignUpDocument(email, password, displayName), now)
      case Rejected(e) => (Next(SaveFailed(e)), users, [])
      case Saved(p) =>
        var created := users + [p];
        var token := IssuedToken(random);
        match SaveOutcome(ServerSchema, created, Apply(IssueVerification(digest(token), Some(now + lifetime)), p), now)
        case Rejected(e) => (Next(SaveFailed(e)), created, [])
        case Saved(q) =>
          var mail := VerificationMail(q.regularEmail, token);
          var after := Replace(created, q);
          if send(mail) then (Respond(201, Session(q.id, Some(ProfileOf(q)))), after, [Sent(mail)])
          else (Next(MailFailed), after, [Sent(mail)])
  }

  method Register(store: UserStore, email: string, password: string, displayName: string, random: seq<byte>,
                  digest: string -> string, lifetime: Millis, send: Mail -> bool, now: Millis)
    returns (answer: Answer, effects: seq<Effect>)
    requires store.Valid() && store.schema == ServerSchema
    modifies store
    ensures store.Valid()
    ensures (answer, store.users, effects) ==
      RegisterOutcome(old(store.users), old(store.nextId), email, password, displayName, random, digest, lifetime, send, now)
  {
    var existing := FindFirst(store.users, ByEmail(email));
    if existing.Some? {
      return Next(Raised(400, "Email already in use")), [];
    }
    var created := store.Create(SignUpDocument(email, password, displayName), now);
    if created.Rejected? {
      return Next(SaveFailed(created.error)), [];
    }
    var user := created.record;
    var token := IssuedToken(random);
    var saved := store.Save(Apply(IssueVerification(digest(token), Some(now + lifetime)), user), now);
    if saved.Rejected? {
      return Next(SaveFailed(saved.error)), [];
    }
    var mail := VerificationMail(saved.record.regularEmail, token);
    effects := [Sent(mail)];
    if !send(mail) {
      return Next(MailFailed), effects;
    }
    answer := Respond(201, Session(saved.record.id, Some(ProfileOf(saved.record))));
  }

  /** The document the handler creates has no handle and no SIM number,
      both of which the schema requires, so the insert always throws a
      validation error. */
  lemma SignUpAlwaysInvalid(users: seq<Account>, nextId: nat, email: string, password: string,
                            displayName: string, now: Millis)
    ensures CreateOutcome(ServerSchema, users, nextId, SignUpDocument(email, password, displayName), now).Rejected?
    ensures CreateOutcome(ServerSchema, users, nextId, SignUpDocument(email, password, displayName), now).error.Invalid?
  {
    var d := Server.Cast(SignUpDocument(email, password, displayName)).(id := nextId);
    assert d.csmclName == "";
    Server.ErrorsEmptyIff(d);
  }

  /** A used address is refused with 400; any other request is passed on
      as the validation error of the insert. Either way no record changes
      and no mail is sent. */
  lemma RegisterAnswers(users: seq<Account>, nextId: nat, email: string, password: string, displayName: string,
                        random: seq<byte>, digest: string -> string, lifetime: Millis, send: Mail -> bool, now: Millis)
    ensures var (answer, after, effects) :=
        RegisterOutcome(users, nextId, email, password, displayName, random, digest, lifetime, send, now);
      after == users && effects == [] &&
      (answer == Next(Raised(400, "Email already in use")) <==>
         exists k :: 0 <= k < |users| && users[k].regularEmail == email) &&
      (answer != Next(Raised(400, "Email already in use")) ==> (answer.Next? && answer.error.SaveFailed? &&
         answer.error.error.Invalid?))
  {
    if FindFirst(users, ByEmail(email)).None? {
      RegisterPassesOnInvalid(users, nextId, email, password, displayName, random, digest, lifetime, send, now);
    }
  }

  lemma RegisterPassesOnInvalid(users: seq<Account>, nextId: nat, email: string, password: string, displayName: string,
                                random: seq<byte>, digest: string -> string, lifetime: Millis, send: Mail -> bool,
                                now: Millis)
    requires FindFirst(users, ByEmail(email)).None?
    ensures var (answer, after, effects) :=
        RegisterOutcome(users, nextId, email, password, displayName, random, digest, lifetime, send, now);
      after == users && effects == [] && answer.Next? && answer.error.SaveFailed? && answer.error.error.Invalid?
  {
    SignUpAlwaysInvalid(users, nextId, email, password, displayName, now);
    var c := CreateOutcome(ServerSchema, users, nextId, SignUpDocument(email, password, displayName), now);
    assert RegisterOutcome(users, nextId, email, password, displayName, random, digest, lifetime, send, now) ==
      (Next(SaveFailed(c.error)), users, []);
  }

  // ---------------------------------------------------------------- login

  /** `login`: both fields first, then one answer for an unknown address
      and a wrong password. The store is read only. */
  function LoginOutcome(users: seq<Account>, email: string, password: string): Answer {
    if email == "" || password == "" then Next(Raised(400, "Please provide email and password"))
    else match FindFirst(users, ByEmail(email))
      case None => Next(Raised(401, "Incorrect email or password"))
      case Some(k) =>
        if !BcryptCompare(password, users[k].password) then Next(Raised(401, "Incorrect email or password"))
        else Respond(200, Session(users[k].id, Some(ProfileOf(users[k]))))
  }

  /** A session is given exactly for both fields present and the password
      of the first record with the address; a missing field answers 400
      before any lookup, and every other failure answers the same 401. */
  lemma LoginAnswers(users: seq<Account>, email: string, password: string)
    ensures var answer := LoginOutcome(users, email, password);
      var f := FindFirst(users, ByEmail(email));
      (answer == Next(Raised(400, "Please provide email and password")) <==> email == "" || password == "") &&
      (answer.Respond? <==> email != "" && password != "" && f.Some? && BcryptCompare(password, users[f.value].password)) &&
      (answer.Respond? ==> answer == Respond(200, Session(users[f.value].id, Some(ProfileOf(users[f.value]))))) &&
      (!answer.Respond? && email != "" && password != "" ==> answer == Next(Raised(401, "Incorrect email or password")))
  {
  }

  /** The verification flag plays no part in logging in. */
  lemma LoginIgnoresVerification(users: seq<Account>, email: string, password: string, k: nat, flag: bool)
    requires k < |users|
    ensures LoginOutcome(users[k := users[k].(isEmailVerified := flag)], email, password).Respond? ==
            LoginOutcome(users, email, password).Respond?
  {
    var others := users[k := users[k].(isEmailVerified := flag)];
    SameAddressesFindAlike(users, others, email);
  }

  /** Two stores whose records agree on the address at every position
      find the same first record for it. */
  lemma SameAddressesFindAlike(users: seq<Account>, others: seq<Account>, email: string)
    requires |users| == |others|
    requires forall j :: 0 <= j < |users| ==>
      users[j].regularEmail == others[j].regularEmail && users[j].password == others[j].password
    ensures FindFirst(users, ByEmail(email)) == FindFirst(others, ByEmail(email))
  {
    var q := ByEmail(email);
    assert forall j :: 0 <= j < |users| ==> (Matches(q, users[j]) <==> Matches(q, others[j]));
    FindFirstAlike(users, others, q);
  }

  // ---------------------------------------------------------------- verifyEmail

  /** `verifyEmail`: the first record holding the digest of the token with
      an expiry after now is confirmed and saved, then welcomed. */
  function VerifyEmailOutcome(users: seq<Account>, token: string, digest: string -> string, send: Mail -> bool,
                              now: Millis): (Answer, seq<Account>, seq<Effect>)
  {
    match FindFirst(users, ByLiveToken(digest(token), now))
    case None => (Next(Raised(400, "Token is invalid or has expired")), users, [])
    case Some(k) =>
      match SaveOutcome(ServerSchema, users, Apply(ConfirmEmail, WithoutPassword(users[k])), now)
      case Rejected(e) => (Next(SaveFailed(e)), users, [])
      case Saved(p) =>
        var mail := WelcomeMail(p.regularEmail, p.displayName);
        if send(mail) then (Respond(200, Note("Email verified successfully")), Replace(users, p), [Sent(mail)])
        else (Next(MailFailed), Replace(users, p), [Sent(mail)])
  }

  method VerifyEmail(store: UserStore, token: string, digest: string -> string, send: Mail -> bool, now: Millis)
    returns (answer: Answer, effects: seq<Effect>)
    requires store.Valid() && store.schema == ServerSchema
    modifies store
    ensures store.Valid()
    ensures (answer, store.users, effects) == VerifyEmailOutcome(old(store.users), token, digest, send, now)
  {
    var k := FindFirst(store.users, ByLiveToken(digest(token), now));
    if k.None? {
      return Next(Raised(400, "Token is invalid or has expired")), [];
    }
    var r := store.Save(Apply(ConfirmEmail, WithoutPassword(store.users[k.value])), now);
    if r.Rejected? {
      return Next(SaveFailed(r.error)), [];
    }
    var mail := WelcomeMail(r.record.regularEmail, r.record.displayName);
    effects := [Sent(mail)];
    if !send(mail) {
      return Next(MailFailed), effects;
    }
    answer := Respond(200, Note("Email verified successfully"));
  }

  /** A token without a live holder is refused with 400 and changes
      nothing. A live one confirms its first holder: the flag set, the
      token and its expiry gone, the update time stamped and nothing else
      changed (the password is not re-hashed); every other record stays,
      and the welcome mail goes to that record. */
  lemma VerifyEmailConfirms(users: seq<Account>, nextId: nat, token: string, digest: string -> string,
                            send: Mail -> bool, now: Millis)
    requires Consistent(ServerSchema, users, nextId)
    ensures var (answer, after, effects) := VerifyEmailOutcome(users, token, digest, send, now);
      var f := FindFirst(users, ByLiveToken(digest(token), now));
      (f.None? ==> answer == Next(Raised(400, "Token is invalid or has expired")) && after == users && effects == []) &&
      (f.Some? ==>
         var a := users[f.value];
         OthersKept(users, after, f.value) &&
         after[f.value] == a.(isEmailVerified := true, verificationToken := None, verificationExpires := None,
                              updatedAt := now) &&
         effects == [Sent(WelcomeMail(a.regularEmail, a.displayName))] &&
         (answer == Respond(200, Note("Email verified successfully")) <==> send(WelcomeMail(a.regularEmail, a.displayName))))
  {
    var f := FindFirst(users, ByLiveToken(digest(token), now));
    if f.Some? {
      var k := f.value;
      var a := users[k];
      var p := Hooks(ServerSchema, Apply(ConfirmEmail, a), Some(a), now);
      assert p == a.(isEmailVerified := true, verificationToken := None, verificationExpires := None, updatedAt := now);
      UnloadedUpdateAt(users, nextId, k, ConfirmEmail, now);
    }
  }

  // ---------------------------------------------------------------- forgotPassword

  /** `forgotPassword`: the first record with the address issues a reset
      token, is saved, and the token is mailed to it. */
  function ForgotPasswordOutcome(users: seq<Account>, email: string, random: seq<byte>, digest: string -> string,
                                 lifetime: Millis, send: Mail -> bool, now: Millis): (Answer, seq<Account>, seq<Effect>)
  {
    match FindFirst(users, ByEmail(email))
    case None => (Next(Raised(404, "No user found with that email")), users, [])
    case Some(k) =>
      var token := IssuedToken(random);
      match SaveOutcome(ServerSchema, users, Apply(IssueReset(digest(token), now + lifetime), WithoutPassword(users[k])), now)
      case Rejected(e) => (Next(SaveFailed(e)), users, [])
      case Saved(p) =>
        var mail := PasswordResetMail(p.regularEmail, token);
        if send(mail) then (Respond(200, Note("Password reset token sent to email")), Replace(users, p), [Sent(mail)])
        else (Next(MailFailed), Replace(users, p), [Sent(mail)])
  }

  method ForgotPassword(store: UserStore, email: string, random: seq<byte>, digest: string -> string,
                        lifetime: Millis, send: Mail -> bool, now: Millis)
    returns (answer: Answer, effects: seq<Effect>)
    requires store.Valid() && store.schema == ServerSchema
    modifies store
    ensures store.Valid()
    ensures (answer, store.users, effects) ==
      ForgotPasswordOutcome(old(store.users), email, random, digest, lifetime, send, now)
  {
    var k := FindFirst(store.users, ByEmail(email));
    if k.None? {
      return Next(Raised(404, "No user found with that email")), [];
    }
    var token := IssuedToken(random);
    var r := store.Save(Apply(IssueReset(digest(token), now + lifetime), WithoutPassword(store.users[k.value])), now);
    if r.Rejected? {
      return Next(SaveFailed(r.error)), [];
    }
    var mail := PasswordResetMail(r.record.regularEmail, token);
    effects := [Sent(mail)];
    if !send(mail) {
      return Next(MailFailed), effects;
    }
    answer := Respond(200, Note("Password reset token sent to email"));
  }

  /** An unknown address answers 404 and changes nothing. */
  lemma ForgotPasswordUnknown(users: seq<Account>, email: string, random: seq<byte>,
                              digest: string -> string, lifetime: Millis, send: Mail -> bool, now: Millis)
    ensures var (answer, after, effects) := ForgotPasswordOutcome(users, email, random, digest, lifetime, send, now);
      (answer == Next(Raised(404, "No user found with that email")) <==> FindFirst(users, ByEmail(email)).None?) &&
      (FindFirst(users, ByEmail(email)).None? ==> after == users && effects == [])
  {
  }

  /** A known address gets the digest of the mailed token as its reset
      token, live for `lifetime`; nothing else changes but the update
      time, and no other record changes. */
  lemma ForgotPasswordIssues(users: seq<Account>, nextId: nat, email: string, random: seq<byte>,
                             digest: string -> string, lifetime: Millis, send: Mail -> bool, now: Millis)
    requires Consistent(ServerSchema, users, nextId)
    ensures var (answer, after, effects) := ForgotPasswordOutcome(users, email, random, digest, lifetime, send, now);
      var f := FindFirst(users, ByEmail(email));
      f.Some? ==>
        var a := users[f.value];
        OthersKept(users, after, f.value) &&
        after[f.value] == a.(passwordResetToken := Some(digest(IssuedToken(random))),
                             passwordResetExpires := Some(now + lifetime), updatedAt := now) &&
        effects == [Sent(PasswordResetMail(a.regularEmail, IssuedToken(random)))] &&
        (answer == Respond(200, Note("Password reset token sent to email")) <==>
         send(PasswordResetMail(a.regularEmail, IssuedToken(random))))
  {
    var f := FindFirst(users, ByEmail(email));
    if f.Some? {
      var k := f.value;
      var a := users[k];
      var t := digest(IssuedToken(random));
      var p := Hooks(ServerSchema, Apply(IssueReset(t, now + lifetime), a), Some(a), now);
      ResetIssued(a, t, now + lifetime, now);
      assert p == a.(passwordResetToken := Some(t), passwordResetExpires := Some(now + lifetime), updatedAt := now);
      UnloadedUpdateAt(users, nextId, k, IssueReset(t, now + lifetime), now);
    }
  }

  /** The save of an issued reset token changes the record only there and
      in its update time. */
  lemma ResetIssued(a: Account, token: string, expires: Millis, now: Millis)
    ensures Hooks(ServerSchema, Apply(IssueReset(token, expires), a), Some(a), now) ==
      a.(passwordResetToken := Some(token), passwordResetExpires := Some(expires), updatedAt := now)
  {
  }

  // ---------------------------------------------------------------- resetPassword

  /** `resetPassword`: the first record holding the digest of the token
      with an expiry after now takes the new password in plain text (the
      pre-save hook hashes it), loses the reset token, and a new session
      is issued. */
  function ResetPasswordOutcome(users: seq<Account>, token: string, password: string, digest: string -> string,
                                now: Millis): (Answer, seq<Account>)
  {
    match FindFirst(users, ByLiveResetToken(digest(token), now))
    case None => (Next(Raised(400, "Token is invalid or has expired")), users)
    case Some(k) =>
      match SaveOutcome(ServerSchema, users, Apply(ReplacePassword(password), WithoutPassword(users[k])), now)
      case Rejected(e) => (Next(SaveFailed(e)), users)
      case Saved(p) => (Respond(200, Session(p.id, None)), Replace(users, p))
  }

  method ResetPassword(store: UserStore, token: string, password: string, digest: string -> string, now: Millis)
    returns (answer: Answer)
    requires store.Valid() && store.schema == ServerSchema
    modifies store
    ensures store.Valid()
    ensures (answer, store.users) == ResetPasswordOutcome(old(store.users), token, password, digest, now)
  {
    var k := FindFirst(store.users, ByLiveResetToken(digest(token), now));
    if k.None? {
      return Next(Raised(400, "Token is invalid or has expired"));
    }
    var r := store.Save(Apply(ReplacePassword(password), WithoutPassword(store.users[k.value])), now);
    if r.Rejected? {
      return Next(SaveFailed(r.error));
    }
    answer := Respond(200, Session(r.record.id, None));
  }

  /** The server's validation of a password assigned in plain text: the
      record stays valid exactly when the schema accepts the password. */
  lemma NewPasswordValid(u: Account, password: string)
    requires Server.Errors(u) == []
    ensures Server.Errors(Apply(ReplacePassword(password), u)) == [] <==>
      Server.PasswordAcceptable(Plain(password), u.isTest)
  {
    var v := Apply(ReplacePassword(password), u);
    Server.ErrorsByPath(u);
    Server.ErrorsByPath(v);
    assert ValueAt(Password, v) == Text(password);
    Server.PasswordRule(Plain(password), u.isTest);
  }

  /** A live reset token and an acceptable password: the record then holds
      one hash of the new password and no reset token, the new password
      compares equal, and a session for that record is issued. The password
      the lookup left out does not matter, as it is assigned anew. */
  lemma ResetPasswordSucceeds(users: seq<Account>, nextId: nat, token: string, password: string,
                              digest: string -> string, now: Millis, k: nat)
    requires Consistent(ServerSchema, users, nextId)
    requires FindFirst(users, ByLiveResetToken(digest(token), now)) == Some(k)
    requires users[k].password.Hashed? && Server.PasswordAcceptable(Plain(password), users[k].isTest)
    ensures var p := Hooks(ServerSchema, Apply(ReplacePassword(password), users[k]), Some(users[k]), now);
      ResetPasswordOutcome(users, token, password, digest, now) == (Respond(200, Session(users[k].id, None)), Replace(users, p)) &&
      OthersKept(users, Replace(users, p), k) && Replace(users, p)[k] == p &&
      p == users[k].(password := Hashed(Plain(password)), passwordResetToken := None, passwordResetExpires := None,
                     updatedAt := now) &&
      BcryptCompare(password, p.password)
  {
    var p := Hooks(ServerSchema, Apply(ReplacePassword(password), users[k]), Some(users[k]), now);
    ApplyUnloaded(ReplacePassword(password), users[k]);
    ResetRecord(users[k], password, now);
    ResetSaves(users, nextId, k, password, now);
    ReplaceOnly(users, p, k, ServerSchema);
  }

  /** The record a reset writes: the new password hashed once, no reset
      token, the save time. */
  lemma ResetRecord(u: Account, password: string, now: Millis)
    requires u.password.Hashed?
    ensures Hooks(ServerSchema, Apply(ReplacePassword(password), u), Some(u), now) ==
      u.(password := Hashed(Plain(password)), passwordResetToken := None, passwordResetExpires := None, updatedAt := now)
  {
  }

  /** A reset with an acceptable password saves. */
  lemma ResetSaves(users: seq<Account>, nextId: nat, k: nat, password: string, now: Millis)
    requires Consistent(ServerSchema, users, nextId) && k < |users|
    requires Server.PasswordAcceptable(Plain(password), users[k].isTest)
    ensures var doc := Apply(ReplacePassword(password), users[k]);
      SaveOutcome(ServerSchema, users, doc, now) == Saved(Hooks(ServerSchema, doc, Some(users[k]), now))
  {
    var doc := Apply(ReplacePassword(password), users[k]);
    assert Errors(ServerSchema, users[k]) == [];
    NewPasswordValid(users[k], password);
    SaveOfSameKeys(ServerSchema, users, nextId, k, doc, now);
  }

  /** An unknown or lapsed token answers 400; a password the schema
      refuses is passed on as the validation error; either way nothing
      changes. */
  lemma ResetPasswordAnswers(users: seq<Account>, nextId: nat, token: string, password: string,
                             digest: string -> string, now: Millis)
    requires Consistent(ServerSchema, users, nextId)
    ensures var (answer, after) := ResetPasswordOutcome(users, token, password, digest, now);
      var f := FindFirst(users, ByLiveResetToken(digest(token), now));
      (answer == Next(Raised(400, "Token is invalid or has expired")) <==> f.None?) &&
      (f.Some? && !Server.PasswordAcceptable(Plain(password), users[f.value].isTest) ==>
         answer.Next? && answer.error.SaveFailed? && answer.error.error.Invalid?) &&
      (!answer.Respond? ==> after == users)
  {
    var f := FindFirst(users, ByLiveResetToken(digest(token), now));
    if f.Some? {
      var k := f.value;
      var doc := Apply(ReplacePassword(password), users[k]);
      ApplyUnloaded(ReplacePassword(password), users[k]);
      assert Errors(ServerSchema, users[k]) == [];
      NewPasswordValid(users[k], password);
      SaveOfSameKeys(ServerSchema, users, nextId, k, doc, now);
    }
  }
}
