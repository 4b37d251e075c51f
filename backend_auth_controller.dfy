/** The backend's account handlers: registration, e-mail and phone
    verification, login, the password-reset pair, resending the
    verification mail and the provisioning status. Each handler is a method
    on the backend's store proved equal to an outcome function (the reply,
    the records afterwards and the effects attempted); the lemmas state what
    the outcomes mean. An absent request field is the empty string, except
    where the handler calls a method on it (the login identifier, the reset
    token): there it is `None`. Every lookup but the login's loads the
    record without its password, which the backend's pre-save hook then
    fails to hash. The mail service is the `send` parameter (false when it
    throws), random bytes are the `random` parameter. */
module BackendAuthController {
  import opened Common
  import opened Accounts
  import opened Store
  import opened Effects
  import opened Updates
  import opened Cleanup
  import opened UserSystem
  import Backend = BackendUserModel

  // ---------------------------------------------------------------- register

  datatype RegisterBody = RegisterBody(displayName: string, csmclName: string, regularEmail: string,
                                       simNumber: string, password: string)

  predicate AnyMissing(b: RegisterBody) {
    b.displayName == "" || b.csmclName == "" || b.regularEmail == "" || b.simNumber == "" || b.password == ""
  }

  /** The document `register` builds: the password already hashed by the
      handler, the address lower-cased, a hex token of the random bytes and
      no token expiry. */
  function RegistrationDocument(b: RegisterBody, random: seq<byte>): Account {
    NewDocument(b.displayName, b.csmclName, ToLower(b.regularEmail), b.simNumber, Hashed(Plain(b.password)))
      .(verificationToken := Some(ToHex(random)))
  }

  function RegisterOutcome(users: seq<Account>, nextId: nat, b: RegisterBody, random: seq<byte>,
                           send: Mail -> bool, now: Millis): (Reply, seq<Account>, seq<Effect>)
  {
    if AnyMissing(b) then (Failure(400, "All fields are required"), users, [])
    else Registration(users, CreateOutcome(BackendSchema, users, nextId, RegistrationDocument(b, random), now),
                      random, send)
  }

  /** What `register` answers once the insert has settled with `c`. */
  function Registration(users: seq<Account>, c: SaveResult, random: seq<byte>, send: Mail -> bool)
    : (Reply, seq<Account>, seq<Effect>)
  {
    match c
    case Rejected(Invalid(_)) => (Failure(400, "Validation failed"), users, [])
    case Rejected(_) => (Failure(500, "An error occurred while registering"), users, [])
    case Saved(p) =>
      var mail := VerificationMail(p.regularEmail, ToHex(random));
      (if send(mail) then Success(201, "Registration successful. Please check your email for verification.")
       else Failure(500, "An error occurred while registering"), users + [p], [Sent(mail)])
  }

  /** `register`. A mail that fails after the insert answers 500 and
      leaves the new record in place. */
  method Register(store: UserStore, b: RegisterBody, random: seq<byte>, send: Mail -> bool, now: Millis)
    returns (reply: Reply, effects: seq<Effect>)
    requires store.Valid() && store.schema == BackendSchema
    modifies store
    ensures store.Valid()
    ensures (reply, store.users, effects) == RegisterOutcome(old(store.users), old(store.nextId), b, random, send, now)
  {
    if AnyMissing(b) {
      return Failure(400, "All fields are required"), [];
    }
    var r := store.Create(RegistrationDocument(b, random), now);
    if r.Rejected? {
      if r.error.Invalid? {
        return Failure(400, "Validation failed"), [];
      }
      return Failure(500, "An error occurred while registering"), [];
    }
    var mail := VerificationMail(r.record.regularEmail, ToHex(random));
    effects := [Sent(mail)];
    if !send(mail) {
      return Failure(500, "An error occurred while registering"), effects;
    }
    reply := Success(201, "Registration successful. Please check your email for verification.");
  }

  // ---------------------------------------------------------------- verifyEmail

  /** The first record holding the token unexpired is checked against its
      registration period, then confirmed. */
  function VerifyEmailOutcome(users: seq<Account>, token: string, now: Millis): (Reply, seq<Account>, seq<Effect>) {
    match FindFirst(users, ByLiveToken(token, now))
    case None => (Failure(400, "Invalid or expired verification token"), users, [])
    case Some(k) =>
      var user := WithoutPassword(users[k]);
      var (answer, checked, mails) := ExpiryCheck(BackendSchema, users, user.id, now);
      if answer.Threw? then (Failure(500, "An error occurred while verifying email"), checked, mails)
      else if answer.expired then
        (Failure(400, "Registration period has expired. Please register again."), checked, mails)
      else match SaveOutcome(BackendSchema, checked, Apply(ConfirmEmail, user), now)
        case Rejected(_) => (Failure(500, "An error occurred while verifying email"), checked, mails)
        case Saved(p) => (Success(200, "Email verified successfully"), Replace(checked, p), mails)
  }

  method VerifyEmail(store: UserStore, token: string, now: Millis) returns (reply: Reply, effects: seq<Effect>)
    requires store.Valid() && store.schema == BackendSchema
    modifies store
    ensures store.Valid()
    ensures (reply, store.users, effects) == VerifyEmailOutcome(old(store.users), token, now)
  {
    var k := FindFirst(store.users, ByLiveToken(token, now));
    if k.None? {
      return Failure(400, "Invalid or expired verification token"), [];
    }
    var user := WithoutPassword(store.users[k.value]);
    var answer;
    answer, effects := IsUserExpired(store, user.id, now);
    if answer.Threw? {
      return Failure(500, "An error occurred while verifying email"), effects;
    }
    if answer.expired {
      return Failure(400, "Registration period has expired. Please register again."), effects;
    }
    var r := store.Save(Apply(ConfirmEmail, user), now);
    if r.Rejected? {
      return Failure(500, "An error occurred while verifying email"), effects;
    }
    reply := Success(200, "Email verified successfully");
  }

  // ---------------------------------------------------------------- login

  /** `user.validatePassword(password)`: the method the handler calls. The
      backend schema defines no such method, so by default the call throws
      (`None`); `Some(b)` is what a defined validator would answer. */
  type Validator = (Account, string) -> Option<bool>

  /** The login filter: the lower-cased identifier as the contact address
      (`regularEmail` is no path of the schema, so the value is compared as
      given) or as the handle, where the `csmclName` setters also trim it. */
  function LoginFilter(email: string): Query {
    var id := ToLower(email);
    HandleOrEmail(Backend.CastKey(id), id)
  }

  /** The identifier is matched, lower-cased, against the contact address
      and the handle; an absent one makes `toLowerCase` throw. The record
      is loaded with its password. */
  function LoginOutcome(users: seq<Account>, email: Option<string>, password: string, validate: Validator,
                        now: Millis): (Reply, seq<Account>)
  {
    if email.None? then (Failure(500, "An error occurred while logging in"), users)
    else
      match FindFirst(users, LoginFilter(email.value))
      case None => (Failure(401, "Invalid credentials"), users)
      case Some(k) =>
        if !users[k].isEmailVerified then (Failure(401, "Please verify your email before logging in"), users)
        else match validate(users[k], password)
          case None => (Failure(500, "An error occurred while logging in"), users)
          case Some(false) => (Failure(401, "Invalid credentials"), users)
          case Some(true) =>
            match SaveOutcome(BackendSchema, users, Apply(StampLogin(now), users[k]), now)
            case Rejected(_) => (Failure(500, "An error occurred while logging in"), users)
            case Saved(p) => (Success(200, "Login successful"), Replace(users, p))
  }

  method Login(store: UserStore, email: Option<string>, password: string, validate: Validator, now: Millis)
    returns (reply: Reply)
    requires store.Valid() && store.schema == BackendSchema
    modifies store
    ensures store.Valid()
    ensures (reply, store.users) == LoginOutcome(old(store.users), email, password, validate, now)
  {
    if email.None? {
      return Failure(500, "An error occurred while logging in");
    }
    var k := FindFirst(store.users, LoginFilter(email.value));
    if k.None? {
      return Failure(401, "Invalid credentials");
    }
    var user := store.users[k.value];
    if !user.isEmailVerified {
      return Failure(401, "Please verify your email before logging in");
    }
    var valid := validate(user, password);
    if valid.None? {
      return Failure(500, "An error occurred while logging in");
    }
    if !valid.value {
      return Failure(401, "Invalid credentials");
    }
    var r := store.Save(Apply(StampLogin(now), user), now);
    if r.Rejected? {
      return Failure(500, "An error occurred while logging in");
    }
    reply := Success(200, "Login successful");
  }

  // ---------------------------------------------------------------- verifyPhone

  function VerifyPhoneOutcome(users: seq<Account>, simNumber: string, code: string, now: Millis): (Reply, seq<Account>) {
    match FindFirst(users, ByLiveCode(simNumber, code, now))
    case None => (Failure(400, "Invalid or expired verification code"), users)
    case Some(k) =>
      match SaveOutcome(BackendSchema, users, Apply(ConfirmSim, WithoutPassword(users[k])), now)
      case Rejected(_) => (Failure(500, "An error occurred while verifying phone number"), users)
      case Saved(p) => (Success(200, "Phone number verified successfully"), Replace(users, p))
  }

  method VerifyPhone(store: UserStore, simNumber: string, code: string, now: Millis) returns (reply: Reply)
    requires store.Valid() && store.schema == BackendSchema
    modifies store
    ensures store.Valid()
    ensures (reply, store.users) == VerifyPhoneOutcome(old(store.users), simNumber, code, now)
  {
    var k := FindFirst(store.users, ByLiveCode(simNumber, code, now));
    if k.None? {
      return Failure(400, "Invalid or expired verification code");
    }
    var r := store.Save(Apply(ConfirmSim, WithoutPassword(store.users[k.value])), now);
    if r.Rejected? {
      return Failure(500, "An error occurred while verifying phone number");
    }
    reply := Success(200, "Phone number verified successfully");
  }

  // ---------------------------------------------------------------- forgotPassword

  /** The message of the `TypeError` the handler throws: the schema defines
      no `generatePasswordResetToken`. */
  const MissingResetGenerator: string := "user.generatePasswordResetToken is not a function"

  /** `forgotPassword`: the lookup by the schema's `email` path, whose
      setters trim and lower-case the address asked for, then the call of
      the undefined token generator, which throws before anything is saved
      or mailed. */
  function ForgotPasswordOutcome(users: seq<Account>, email: string): (r: Reply)
    ensures r == Failure(404, "No account found with that email") <==>
      forall k :: 0 <= k < |users| ==> users[k].regularEmail != Backend.CastKey(email)
    ensures r != Failure(404, "No account found with that email") ==> r == Failure(500, MissingResetGenerator)
  {
    match FindFirst(users, ByEmail(Backend.CastKey(email)))
    case None => Failure(404, "No account found with that email")
    case Some(_) => Failure(500, MissingResetGenerator)
  }

  // ---------------------------------------------------------------- resetPassword

  /** The message of the `TypeError` Node's `hash.update` throws for an
      absent argument. */
  const UndefinedHashInput: string :=
    "The \"data\" argument must be of type string or an instance of Buffer, TypedArray, or DataView. Received undefined"

  /** The token in the request is compared through its SHA-256 digest
      (`digest`); an absent token makes the digest throw. The new password
      is assigned in plain text and hashed by the pre-save hook. A failing
      save answers 500 with its message. */
  function ResetPasswordOutcome(users: seq<Account>, token: Option<string>, password: string, digest: string -> string,
                                now: Millis): (Reply, seq<Account>)
  {
    if token.None? then (Failure(500, UndefinedHashInput), users)
    else match FindFirst(users, ByLiveResetToken(digest(token.value), now))
      case None => (Failure(400, "Token is invalid or has expired"), users)
      case Some(k) =>
        match SaveOutcome(BackendSchema, users, Apply(ReplacePassword(password), WithoutPassword(users[k])), now)
        case Rejected(e) => (Failure(500, SaveErrorMessage(e)), users)
        case Saved(p) => (Success(200, "Password reset successful"), Replace(users, p))
  }

  method ResetPassword(store: UserStore, token: Option<string>, password: string, digest: string -> string, now: Millis)
    returns (reply: Reply)
    requires store.Valid() && store.schema == BackendSchema
    modifies store
    ensures store.Valid()
    ensures (reply, store.users) == ResetPasswordOutcome(old(store.users), token, password, digest, now)
  {
    if token.None? {
      return Failure(500, UndefinedHashInput);
    }
    var k := FindFirst(store.users, ByLiveResetToken(digest(token.value), now));
    if k.None? {
      return Failure(400, "Token is invalid or has expired");
    }
    var r := store.Save(Apply(ReplacePassword(password), WithoutPassword(store.users[k.value])), now);
    if r.Rejected? {
      return Failure(500, SaveErrorMessage(r.error));
    }
    reply := Success(200, "Password reset successful");
  }

  // ---------------------------------------------------------------- resendVerificationEmail

  /** The address of the signed-in user when it is non-empty, else the one
      in the body. */
  function ResendAddress(sessionEmail: Option<string>, bodyEmail: string): string {
    if sessionEmail.Some? && sessionEmail.value != "" then sessionEmail.value else bodyEmail
  }

  /** A fresh token, valid for 24 hours, replaces the old one; the mail
      follows the save. */
  function ResendOutcome(users: seq<Account>, sessionEmail: Option<string>, bodyEmail: string, random: seq<byte>,
                         send: Mail -> bool, now: Millis): (Reply, seq<Account>, seq<Effect>)
  {
    var email := ResendAddress(sessionEmail, bodyEmail);
    if email == "" then (Failure(400, "Email is required"), users, [])
    else match FindFirst(users, ByEmail(email))
      case None => (Failure(404, "User not found"), users, [])
      case Some(k) =>
        if users[k].isEmailVerified then (Failure(400, "Email is already verified"), users, [])
        else
          var token := ToHex(random);
          match SaveOutcome(BackendSchema, users, Apply(IssueVerification(token, Some(now + DayMs)), WithoutPassword(users[k])), now)
          case Rejected(_) => (Failure(500, "Failed to resend verification email"), users, [])
          case Saved(p) =>
            var mail := VerificationMail(users[k].regularEmail, token);
            (if send(mail) then Success(200, "Verification email sent successfully")
             else Failure(500, "Failed to resend verification email"), Replace(users, p), [Sent(mail)])
  }

  method ResendVerificationEmail(store: UserStore, sessionEmail: Option<string>, bodyEmail: string,
                                 random: seq<byte>, send: Mail -> bool, now: Millis)
    returns (reply: Reply, effects: seq<Effect>)
    requires store.Valid() && store.schema == BackendSchema
    modifies store
    ensures store.Valid()
    ensures (reply, store.users, effects) == ResendOutcome(old(store.users), sessionEmail, bodyEmail, random, send, now)
  {
    var email := ResendAddress(sessionEmail, bodyEmail);
    if email == "" {
      return Failure(400, "Email is required"), [];
    }
    var k := FindFirst(store.users, ByEmail(email));
    if k.None? {
      return Failure(404, "User not found"), [];
    }
    var user := WithoutPassword(store.users[k.value]);
    if user.isEmailVerified {
      return Failure(400, "Email is already verified"), [];
    }
    var token := ToHex(random);
    var r := store.Save(Apply(IssueVerification(token, Some(now + DayMs)), user), now);
    if r.Rejected? {
      return Failure(500, "Failed to resend verification email"), [];
    }
    var mail := VerificationMail(user.regularEmail, token);
    effects := [Sent(mail)];
    if !send(mail) {
      return Failure(500, "Failed to resend verification email"), effects;
    }
    reply := Success(200, "Verification email sent successfully");
  }

  // ---------------------------------------------------------------- checkUserStatus

  /** `checkUserStatus`: an unknown handle is 404; otherwise the answer says
      whether the system user exists yet. The lookup casts the handle; the
      `id` command gets it as given. */
  function CheckUserStatus(users: seq<Account>, username: string, exec: string -> ExecResult): (r: Reply)
    ensures r == Failure(404, "User not found") <==>
      forall k :: 0 <= k < |users| ==> users[k].csmclName != Backend.CastKey(username)
    ensures r != Failure(404, "User not found") ==>
      r.Json? && r.code == 200 && (r.status == "completed" || r.status == "pending") &&
      (r.status == "completed" <==> exec(Shell(Id(username))).Done?)
  {
    match FindFirst(users, ByHandle(Backend.CastKey(username)))
    case None => Failure(404, "User not found")
    case Some(_) =>
      if CheckSystemUser(username, exec) then Json(200, "completed", "User creation completed")
      else Json(200, "pending", "User creation in progress")
  }

  // ---------------------------------------------------------------- what the outcomes mean

  /** Registration stops at a missing field; otherwise the store either
      keeps its records and nothing is sent, or gains one record at the end
      and the verification mail is attempted. Only then can the reply be
      201. */
  lemma RegisterReplies(users: seq<Account>, nextId: nat, b: RegisterBody, random: seq<byte>,
                        send: Mail -> bool, now: Millis)
    ensures var (reply, after, effects) := RegisterOutcome(users, nextId, b, random, send, now);
      (AnyMissing(b) ==> reply == Failure(400, "All fields are required") && after == users && effects == []) &&
      ((after == users && effects == []) || (|after| == |users| + 1 && after[..|users|] == users && |effects| == 1)) &&
      (reply == Success(201, "Registration successful. Please check your email for verification.") ==>
         |after| == |users| + 1)
  {
    if !AnyMissing(b) {
      RegistrationShape(users, CreateOutcome(BackendSchema, users, nextId, RegistrationDocument(b, random), now),
                        random, send);
    }
  }

  /** Whatever the insert's result, the store keeps its records or gains
      one at the end, with one mail attempted exactly in the second case. */
  lemma RegistrationShape(users: seq<Account>, c: SaveResult, random: seq<byte>, send: Mail -> bool)
    ensures var (reply, after, effects) := Registration(users, c, random, send);
      ((after == users && effects == []) || (|after| == |users| + 1 && after[..|users|] == users && |effects| == 1)) &&
      (reply == Success(201, "Registration successful. Please check your email for verification.") ==>
         |after| == |users| + 1)
  {
    var (reply, after, effects) := Registration(users, c, random, send);
    if |after| != |users| {
      assert after[..|users|] == users;
    }
  }

  /** A registration with an invalid document is refused as such. */
  lemma RegisterInvalid(users: seq<Account>, nextId: nat, b: RegisterBody, random: seq<byte>,
                        send: Mail -> bool, now: Millis)
    requires !AnyMissing(b)
    requires Errors(BackendSchema, Cast(BackendSchema, RegistrationDocument(b, random)).(id := nextId)) != []
    ensures RegisterOutcome(users, nextId, b, random, send, now) == (Failure(400, "Validation failed"), users, [])
  {
  }

  /** `register` as written: what is inserted is the document strict mode
      keeps, without the schema's `email`. */
  function RegisterAsWritten(users: seq<Account>, nextId: nat, b: RegisterBody, random: seq<byte>,
                             send: Mail -> bool, now: Millis): (Reply, seq<Account>, seq<Effect>)
  {
    if AnyMissing(b) then (Failure(400, "All fields are required"), users, [])
    else Registration(users, CreateOutcome(BackendSchema, users, nextId, Backend.Strict(RegistrationDocument(b, random)), now),
                      random, send)
  }

  /** As written, no registration goes through: a missing field is refused
      as such and every other body by the `email` rule, with nothing stored
      and nothing sent. */
  lemma RegisterAsWrittenRefused(users: seq<Account>, nextId: nat, b: RegisterBody, random: seq<byte>,
                                 send: Mail -> bool, now: Millis)
    ensures RegisterAsWritten(users, nextId, b, random, send, now) ==
      (if AnyMissing(b) then Failure(400, "All fields are required") else Failure(400, "Validation failed"), users, [])
  {
    Backend.StrictRegistrationInvalid(RegistrationDocument(b, random), nextId);
  }

  /** The record an accepted registration inserts. */
  function Registered(b: RegisterBody, random: seq<byte>, nextId: nat, now: Millis): Account {
    Hooks(BackendSchema, Cast(BackendSchema, RegistrationDocument(b, random)).(id := nextId), None, now)
  }

  /** When the insert succeeds, that record is appended, the mail to its
      address carries the token, and the reply is 201 exactly when the mail
      goes out. */
  lemma RegisterInserts(users: seq<Account>, nextId: nat, b: RegisterBody, random: seq<byte>,
                        send: Mail -> bool, now: Millis)
    requires !AnyMissing(b) && CreateOutcome(BackendSchema, users, nextId, RegistrationDocument(b, random), now).Saved?
    ensures var p := Registered(b, random, nextId, now);
      var mail := VerificationMail(p.regularEmail, ToHex(random));
      var (reply, after, effects) := RegisterOutcome(users, nextId, b, random, send, now);
      after == users + [p] && effects == [Sent(mail)] &&
      (reply == Success(201, "Registration successful. Please check your email for verification.") <==> send(mail))
  {
    CreatedIs(BackendSchema, users, nextId, RegistrationDocument(b, random), now);
  }

  /** The inserted record: the normalised fields under the next id,
      unverified, with the hex token and no token expiry. */
  lemma RegisteredRecord(b: RegisterBody, random: seq<byte>, nextId: nat, now: Millis)
    ensures var p := Registered(b, random, nextId, now);
      p.id == nextId && p.displayName == Trim(b.displayName) && p.csmclName == Backend.CastKey(b.csmclName) &&
      p.regularEmail == Backend.CastKey(ToLower(b.regularEmail)) && p.simNumber == b.simNumber &&
      (p.csmclName != "" ==> p.cosmicalEmail == Some(p.csmclName + "@cosmical.me")) &&
      !p.isEmailVerified && !p.isSimVerified && p.verificationToken == Some(ToHex(random)) &&
      p.verificationExpires.None?
  {
    var d := Cast(BackendSchema, RegistrationDocument(b, random)).(id := nextId);
    Backend.PreSaveEffect(d, true, now);
  }

  /** So the registration token never opens `verifyEmail`, whose filter
      needs an expiry in the future. */
  lemma RegistrationTokenIsStuck(b: RegisterBody, random: seq<byte>, nextId: nat, now: Millis, t: Millis)
    ensures !Matches(ByLiveToken(ToHex(random), t), Registered(b, random, nextId, now))
  {
    assert Registered(b, random, nextId, now).verificationExpires == None;
    NoExpiryNoLiveToken(Registered(b, random, nextId, now), ToHex(random), t);
  }

  /** And the password, hashed by the handler and again by the hook, never
      compares equal to any text. */
  lemma RegisteredPasswordIsStuck(b: RegisterBody, random: seq<byte>, nextId: nat, now: Millis, c: string)
    ensures !BcryptCompare(c, Registered(b, random, nextId, now).password)
  {
    var d := Cast(BackendSchema, RegistrationDocument(b, random)).(id := nextId);
    assert Registered(b, random, nextId, now).password == Backend.PreSave(d, true, now).password;
    Backend.PreHashedNeverVerifies(d, b.password, now);
  }

  /** The token is 64 lower-case hex digits of the 32 random bytes, and
      distinct bytes give distinct tokens. */
  lemma RegistrationToken(random: seq<byte>, other: seq<byte>)
    requires |random| == 32
    ensures |ToHex(random)| == 64 && IsLowerHex(ToHex(random))
    ensures ToHex(random) == ToHex(other) ==> random == other
  {
    if ToHex(random) == ToHex(other) {
      HexInjective(random, other);
    }
  }

  /** A live token of an account that has not lapsed reaches the
      confirming save, which the hashing hook refuses: the reply is a server
      error and nothing changes or is mailed. */
  lemma VerifyEmailFails(users: seq<Account>, nextId: nat, token: string, now: Millis, k: nat)
    requires Consistent(BackendSchema, users, nextId)
    requires FindFirst(users, ByLiveToken(token, now)) == Some(k) && !Lapsed(users[k], now)
    ensures VerifyEmailOutcome(users, token, now) == (Failure(500, "An error occurred while verifying email"), users, [])
  {
    ExpiryCheckKeeps(BackendSchema, users, nextId, k, now);
    SaveOfUnloadedUpdate(BackendSchema, users, nextId, k, ConfirmEmail, now);
  }

  /** A live token of a lapsed account: one marked already is refused as
      expired; for one not yet marked, the check's own save is refused by
      the hashing hook and the reply is a server error. Nothing changes and
      nothing is mailed. */
  lemma VerifyEmailLapsed(users: seq<Account>, nextId: nat, token: string, now: Millis, k: nat)
    requires Consistent(BackendSchema, users, nextId)
    requires FindFirst(users, ByLiveToken(token, now)) == Some(k) && Lapsed(users[k], now)
    ensures VerifyEmailOutcome(users, token, now) ==
      (if users[k].isExpired then Failure(400, "Registration period has expired. Please register again.")
       else Failure(500, "An error occurred while verifying email"), users, [])
  {
    ExpiryCheckLapsedOnBackend(users, nextId, k, now);
  }

  /** On a consistent store `verifyEmail` never confirms an address. An
      unknown token is refused as such, a record already marked expired is
      refused as expired, and every other live token ends in a server error;
      the store and the mailbox are always left alone. */
  lemma VerifyEmailAnswers(users: seq<Account>, nextId: nat, token: string, now: Millis)
    requires Consistent(BackendSchema, users, nextId)
    ensures var (reply, after, mails) := VerifyEmailOutcome(users, token, now);
      var f := FindFirst(users, ByLiveToken(token, now));
      (reply == Failure(400, "Invalid or expired verification token") <==> f.None?) &&
      (reply == Failure(400, "Registration period has expired. Please register again.") <==>
         f.Some? && users[f.value].isExpired) &&
      (reply == Failure(500, "An error occurred while verifying email") <==> f.Some? && !users[f.value].isExpired) &&
      after == users && mails == []
  {
    var f := FindFirst(users, ByLiveToken(token, now));
    if f.Some? {
      if Lapsed(users[f.value], now) {
        VerifyEmailLapsed(users, nextId, token, now, f.value);
      } else {
        VerifyEmailFails(users, nextId, token, now, f.value);
      }
    }
  }

  /** A verified account with the right password logs in: `lastLogin` is
      stamped on that record only, and the save hashes the stored password
      once more. */
  lemma LoginSucceeds(users: seq<Account>, nextId: nat, email: string, password: string, validate: Validator,
                      now: Millis, k: nat)
    requires Consistent(BackendSchema, users, nextId)
    requires FindFirst(users, LoginFilter(email)) == Some(k)
    requires users[k].isEmailVerified && validate(users[k], password) == Some(true)
    ensures var p := Hooks(BackendSchema, Apply(StampLogin(now), users[k]), Some(users[k]), now);
      LoginOutcome(users, Some(email), password, validate, now) == (Success(200, "Login successful"), Replace(users, p)) &&
      OthersKept(users, Replace(users, p), k) && Replace(users, p)[k] == p &&
      p.lastLogin == Some(now) && p.password == Hashed(users[k].password)
  {
    var p := Hooks(BackendSchema, Apply(StampLogin(now), users[k]), Some(users[k]), now);
    StampedRecord(users[k], now);
    UpdateAt(BackendSchema, users, nextId, k, StampLogin(now), now);
    assert SaveOutcome(BackendSchema, users, Apply(StampLogin(now), users[k]), now) == Saved(p);
  }

  /** The record a login saves: the stamp, one more hash, the new `updatedAt`. */
  lemma StampedRecord(u: Account, now: Millis)
    ensures Hooks(BackendSchema, Apply(StampLogin(now), u), Some(u), now) ==
      u.(lastLogin := Some(now), password := Hashed(u.password), updatedAt := now)
  {
  }

  /** An absent identifier is a server error. Otherwise an unknown
      identifier and a wrong password get the same reply; an unverified
      account is told so; a verified one with the right password logs in; a
      validator that throws shows as a server error. Only a successful login
      writes. */
  lemma LoginAnswers(users: seq<Account>, nextId: nat, email: Option<string>, password: string, validate: Validator,
                     now: Millis)
    requires Consistent(BackendSchema, users, nextId)
    ensures var (reply, after) := LoginOutcome(users, email, password, validate, now);
      (email.None? ==> reply == Failure(500, "An error occurred while logging in")) &&
      (email.Some? ==>
        var f := FindFirst(users, LoginFilter(email.value));
        (reply == Failure(401, "Invalid credentials") <==>
           f.None? || (users[f.value].isEmailVerified && validate(users[f.value], password) == Some(false))) &&
        (reply == Failure(401, "Please verify your email before logging in") <==>
           f.Some? && !users[f.value].isEmailVerified) &&
        (reply == Success(200, "Login successful") <==>
           f.Some? && users[f.value].isEmailVerified && validate(users[f.value], password) == Some(true))) &&
      (reply != Success(200, "Login successful") ==> after == users)
  {
    if email.Some? {
      var f := FindFirst(users, LoginFilter(email.value));
      if f.Some? && users[f.value].isEmailVerified && validate(users[f.value], password) == Some(true) {
        LoginSucceeds(users, nextId, email.value, password, validate, now, f.value);
      }
    }
  }

  /** With the validator missing, as in the backend schema, nobody logs in. */
  lemma LoginWithoutValidator(users: seq<Account>, email: Option<string>, password: string, validate: Validator,
                              now: Millis)
    requires forall a, t :: validate(a, t).None?
    ensures LoginOutcome(users, email, password, validate, now).0 != Success(200, "Login successful")
    ensures LoginOutcome(users, email, password, validate, now).1 == users
  {
  }

  /** Because of the rehash, a password that compared equal before a
      successful login no longer does afterwards. */
  lemma LoginBreaksNextCompare(users: seq<Account>, nextId: nat, email: string, password: string, validate: Validator,
                               now: Millis, k: nat)
    requires Consistent(BackendSchema, users, nextId)
    requires FindFirst(users, LoginFilter(email)) == Some(k)
    requires users[k].isEmailVerified && validate(users[k], password) == Some(true)
    requires BcryptCompare(password, users[k].password)
    ensures !BcryptCompare(password, LoginOutcome(users, Some(email), password, validate, now).1[k].password)
  {
    LoginSucceeds(users, nextId, email, password, validate, now, k);
    Backend.ResaveBreaksLogin(Apply(StampLogin(now), users[k]), password, now);
  }

  /** A live code reaches the confirming save, which the hashing hook
      refuses: the reply is a server error and nothing changes. */
  lemma VerifyPhoneFails(users: seq<Account>, nextId: nat, simNumber: string, code: string, now: Millis, k: nat)
    requires Consistent(BackendSchema, users, nextId)
    requires FindFirst(users, ByLiveCode(simNumber, code, now)) == Some(k)
    ensures VerifyPhoneOutcome(users, simNumber, code, now) ==
      (Failure(500, "An error occurred while verifying phone number"), users)
  {
    SaveOfUnloadedUpdate(BackendSchema, users, nextId, k, ConfirmSim, now);
  }

  /** `verifyPhone` never confirms a phone: a code that is not live for
      that SIM number is refused as such, a live one ends in a server error,
      and the store is always left alone. */
  lemma VerifyPhoneAnswers(users: seq<Account>, nextId: nat, simNumber: string, code: string, now: Millis)
    requires Consistent(BackendSchema, users, nextId)
    ensures var (reply, after) := VerifyPhoneOutcome(users, simNumber, code, now);
      var f := FindFirst(users, ByLiveCode(simNumber, code, now));
      (reply == Failure(400, "Invalid or expired verification code") <==> f.None?) &&
      (reply == Failure(500, "An error occurred while verifying phone number") <==> f.Some?) &&
      after == users
  {
    var f := FindFirst(users, ByLiveCode(simNumber, code, now));
    if f.Some? {
      VerifyPhoneFails(users, nextId, simNumber, code, now, f.value);
    }
  }

  /** The backend's validation of a password assigned in plain text: the
      record stays valid exactly when it has at least 8 characters. */
  lemma NewPasswordValid(u: Account, password: string)
    requires Backend.Errors(u) == []
    ensures Backend.Errors(Apply(ReplacePassword(password), u)) == [] <==> |password| >= 8
  {
    Backend.ErrorsEmptyIff(u);
    Backend.ErrorsEmptyIff(Apply(ReplacePassword(password), u));
  }

  /** A live reset token and an acceptable password: the record then holds
      one hash of the new password, which compares equal to it, and no
      reset token; nothing else changes. The password the lookup left out
      does not matter, as it is assigned anew. */
  lemma ResetPasswordSucceeds(users: seq<Account>, nextId: nat, token: string, password: string,
                              digest: string -> string, now: Millis, k: nat)
    requires Consistent(BackendSchema, users, nextId)
    requires FindFirst(users, ByLiveResetToken(digest(token), now)) == Some(k) && |password| >= 8
    ensures var p := Hooks(BackendSchema, Apply(ReplacePassword(password), users[k]), Some(users[k]), now);
      ResetPasswordOutcome(users, Some(token), password, digest, now) ==
        (Success(200, "Password reset successful"), Replace(users, p)) &&
      OthersKept(users, Replace(users, p), k) && Replace(users, p)[k] == p &&
      p.password == Hashed(Plain(password)) && BcryptCompare(password, p.password) &&
      p.passwordResetToken.None? && p.passwordResetExpires.None?
  {
    var doc := Apply(ReplacePassword(password), users[k]);
    ApplyUnloaded(ReplacePassword(password), users[k]);
    assert Errors(BackendSchema, users[k]) == [];
    NewPasswordValid(users[k], password);
    SaveOfSameKeys(BackendSchema, users, nextId, k, doc, now);
    var p := Hooks(BackendSchema, doc, Some(users[k]), now);
    assert p.id == users[k].id;
    ReplaceOnly(users, p, k, BackendSchema);
  }

  /** A password the schema refuses surfaces as a server error carrying
      the validation message, and nothing changes. */
  lemma ResetPasswordTooShort(users: seq<Account>, nextId: nat, token: string, password: string,
                              digest: string -> string, now: Millis, k: nat)
    requires Consistent(BackendSchema, users, nextId)
    requires FindFirst(users, ByLiveResetToken(digest(token), now)) == Some(k) && |password| < 8
    ensures var doc := Apply(ReplacePassword(password), users[k]);
      ResetPasswordOutcome(users, Some(token), password, digest, now) ==
        (Failure(500, SaveErrorMessage(Invalid(Errors(BackendSchema, doc)))), users)
  {
    var doc := Apply(ReplacePassword(password), users[k]);
    ApplyUnloaded(ReplacePassword(password), users[k]);
    assert Errors(BackendSchema, users[k]) == [];
    NewPasswordValid(users[k], password);
    SaveOfSameKeys(BackendSchema, users, nextId, k, doc, now);
  }

  /** An absent token makes the digest throw before any lookup. Otherwise
      `resetPassword` succeeds exactly for a live reset token and a new
      password of at least 8 characters. */
  lemma ResetPasswordAnswers(users: seq<Account>, nextId: nat, token: Option<string>, password: string,
                             digest: string -> string, now: Millis)
    requires Consistent(BackendSchema, users, nextId)
    ensures var (reply, after) := ResetPasswordOutcome(users, token, password, digest, now);
      (token.None? ==> reply == Failure(500, UndefinedHashInput)) &&
      (token.Some? ==>
        var f := FindFirst(users, ByLiveResetToken(digest(token.value), now));
        (reply == Failure(400, "Token is invalid or has expired") <==> f.None?) &&
        (reply == Success(200, "Password reset successful") <==> f.Some? && |password| >= 8)) &&
      (reply != Success(200, "Password reset successful") ==> after == users)
  {
    if token.Some? {
      var f := FindFirst(users, ByLiveResetToken(digest(token.value), now));
      if f.Some? {
        if |password| >= 8 {
          ResetPasswordSucceeds(users, nextId, token.value, password, digest, now, f.value);
        } else {
          ResetPasswordTooShort(users, nextId, token.value, password, digest, now, f.value);
        }
      }
    }
  }

  /** The guards of `resendVerificationEmail`, in order; each refusal leaves
      the store alone and sends nothing. */
  lemma ResendGuards(users: seq<Account>, sessionEmail: Option<string>, bodyEmail: string, random: seq<byte>,
                     send: Mail -> bool, now: Millis)
    ensures var (reply, after, effects) := ResendOutcome(users, sessionEmail, bodyEmail, random, send, now);
      var email := ResendAddress(sessionEmail, bodyEmail);
      var f := FindFirst(users, ByEmail(email));
      (email == "" ==> reply == Failure(400, "Email is required")) &&
      (email != "" && f.None? ==> reply == Failure(404, "User not found")) &&
      (email != "" && f.Some? && users[f.value].isEmailVerified ==> reply == Failure(400, "Email is already verified")) &&
      (email == "" || f.None? || users[f.value].isEmailVerified ==> after == users && effects == [])
  {
  }

  /** For an unverified account the save of the new token is refused by
      the hashing hook: the reply is a server error, the old token stays and
      no mail is attempted. */
  lemma ResendFails(users: seq<Account>, nextId: nat, sessionEmail: Option<string>, bodyEmail: string,
                    random: seq<byte>, send: Mail -> bool, now: Millis, k: nat)
    requires Consistent(BackendSchema, users, nextId) && ResendAddress(sessionEmail, bodyEmail) != ""
    requires FindFirst(users, ByEmail(ResendAddress(sessionEmail, bodyEmail))) == Some(k)
    requires !users[k].isEmailVerified
    ensures ResendOutcome(users, sessionEmail, bodyEmail, random, send, now) ==
      (Failure(500, "Failed to resend verification email"), users, [])
  {
    SaveOfUnloadedUpdate(BackendSchema, users, nextId, k, IssueVerification(ToHex(random), Some(now + DayMs)), now);
  }

  /** So a resend never succeeds: each guard answers as stated, an
      unverified account gets the server error, and the store and the
      mailbox are always left alone. */
  lemma ResendAnswers(users: seq<Account>, nextId: nat, sessionEmail: Option<string>, bodyEmail: string,
                      random: seq<byte>, send: Mail -> bool, now: Millis)
    requires Consistent(BackendSchema, users, nextId)
    ensures var (reply, after, effects) := ResendOutcome(users, sessionEmail, bodyEmail, random, send, now);
      var email := ResendAddress(sessionEmail, bodyEmail);
      var f := FindFirst(users, ByEmail(email));
      (reply == Failure(500, "Failed to resend verification email") <==>
         email != "" && f.Some? && !users[f.value].isEmailVerified) &&
      after == users && effects == []
  {
    var email := ResendAddress(sessionEmail, bodyEmail);
    var f := FindFirst(users, ByEmail(email));
    if email != "" && f.Some? && !users[f.value].isEmailVerified {
      ResendFails(users, nextId, sessionEmail, bodyEmail, random, send, now, f.value);
    }
  }
}
