/** The account routes the backend mounts beside the controller: its own
    registration, the two verify-email endpoints (a pasted token and a
    link), resending the token, the provisioning status and the removal of
    an account. As in the controller, each handler is a method on the
    backend's store proved equal to an outcome function, and the lemmas say
    what the outcomes mean. The lookups load records without their
    password, so every save but the registration's insert is refused by
    the backend's hashing hook. The registration hands the whole record to
    `sendVerificationEmail`, which expects an address and a token, so the
    mail it attempts never carries the token. */
module BackendAuthRoutes {
  import opened Common
  import opened Accounts
  import opened Store
  import opened Effects
  import opened Updates
  import Backend = BackendUserModel

  // ---------------------------------------------------------------- register

  datatype RouteRegisterBody = RouteRegisterBody(displayName: string, csmclName: string, simNumber: string,
                                                 password: string, regularEmail: string)

  predicate AnyMissing(b: RouteRegisterBody) {
    b.displayName == "" || b.csmclName == "" || b.simNumber == "" || b.password == "" || b.regularEmail == ""
  }

  /** The document the route builds: the password hashed by the handler, the
      address lower-cased, a hex token of the random bytes valid for 24
      hours. */
  function RouteDocument(b: RouteRegisterBody, random: seq<byte>, now: Millis): Account {
    NewDocument(b.displayName, b.csmclName, ToLower(b.regularEmail), b.simNumber, Hashed(Plain(b.password)))
      .(verificationToken := Some(ToHex(random)), verificationExpires := Some(now + DayMs))
  }

  const Pending := Json(201, "pending", "Registration started. User creation in progress.")

  /** The duplicate check's filter: the handle goes through the `csmclName`
      setters (trim, lowercase) as Mongoose casts it; `regularEmail` is no
      path of the schema, so the address is compared as sent. */
  function DuplicateFilter(b: RouteRegisterBody): Query {
    HandleOrEmail(Backend.CastKey(b.csmclName), b.regularEmail)
  }

  /** The duplicate check looks for the cast handle or the address as sent;
      the mail outcome does not change the answer. */
  function RegisterOutcome(users: seq<Account>, nextId: nat, b: RouteRegisterBody, random: seq<byte>, now: Millis)
    : (Reply, seq<Account>, seq<Effect>)
  {
    if AnyMissing(b) then (Failure(400, "All fields are required"), users, [])
    else if FindFirst(users, DuplicateFilter(b)).Some? then
      (Failure(400, "User already exists"), users, [])
    else match CreateOutcome(BackendSchema, users, nextId, RouteDocument(b, random, now), now)
      case Rejected(_) => (Failure(500, "An error occurred during registration"), users, [])
      case Saved(p) => (Pending, users + [p], [Sent(VerificationMailToRecord(p))])
  }

  /** `POST /register`. */
  method Register(store: UserStore, b: RouteRegisterBody, random: seq<byte>, now: Millis)
    returns (reply: Reply, effects: seq<Effect>)
    requires store.Valid() && store.schema == BackendSchema
    modifies store
    ensures store.Valid()
    ensures (reply, store.users, effects) == RegisterOutcome(old(store.users), old(store.nextId), b, random, now)
  {
    if AnyMissing(b) {
      return Failure(400, "All fields are required"), [];
    }
    var existing := store.FindOne(DuplicateFilter(b));
    if existing.Some? {
      return Failure(400, "User already exists"), [];
    }
    var r := store.Create(RouteDocument(b, random, now), now);
    if r.Rejected? {
      return Failure(500, "An error occurred during registration"), [];
    }
    effects := [Sent(VerificationMailToRecord(r.record))];
    reply := Pending;
  }

  /** The record a registration inserts. */
  function RouteRegistered(b: RouteRegisterBody, random: seq<byte>, nextId: nat, now: Millis): Account {
    Hooks(BackendSchema, Cast(BackendSchema, RouteDocument(b, random, now)).(id := nextId), None, now)
  }

  /** The route answers 201 exactly when no field is missing, no record has
      the cast handle or the address as sent, and the insert goes through; then
      the record is appended and a mail is attempted. Otherwise nothing
      changes and nothing is sent. */
  lemma RegisterReplies(users: seq<Account>, nextId: nat, b: RouteRegisterBody, random: seq<byte>, now: Millis)
    ensures var (reply, after, effects) := RegisterOutcome(users, nextId, b, random, now);
      var ok := !AnyMissing(b) && FindFirst(users, DuplicateFilter(b)).None? &&
                CreateOutcome(BackendSchema, users, nextId, RouteDocument(b, random, now), now).Saved?;
      (reply == Pending <==> ok) &&
      (ok ==> after == users + [RouteRegistered(b, random, nextId, now)] &&
              effects == [Sent(VerificationMailToRecord(RouteRegistered(b, random, nextId, now)))]) &&
      (!ok ==> after == users && effects == [])
  {
    if !AnyMissing(b) && FindFirst(users, DuplicateFilter(b)).None? {
      var d := RouteDocument(b, random, now);
      if CreateOutcome(BackendSchema, users, nextId, d, now).Saved? {
        CreatedIs(BackendSchema, users, nextId, d, now);
      }
    }
  }

  /** The duplicate check casts the handle as the store does: a handle that
      differs from a stored one only in case or surrounding spaces is found,
      and the route answers 400 "User already exists" with nothing changed
      or sent. */
  lemma RegisterCaseDuplicate(users: seq<Account>, nextId: nat, b: RouteRegisterBody, random: seq<byte>,
                              now: Millis, k: nat)
    requires !AnyMissing(b)
    requires k < |users| && users[k].csmclName == Backend.CastKey(b.csmclName)
    ensures RegisterOutcome(users, nextId, b, random, now) == (Failure(400, "User already exists"), users, [])
  {
    assert Matches(DuplicateFilter(b), users[k]);
  }

  /** `POST /register` as written: what is inserted is the document strict
      mode keeps, without the schema's `email`. */
  function RegisterAsWritten(users: seq<Account>, nextId: nat, b: RouteRegisterBody, random: seq<byte>, now: Millis)
    : (Reply, seq<Account>, seq<Effect>)
  {
    if AnyMissing(b) then (Failure(400, "All fields are required"), users, [])
    else if FindFirst(users, DuplicateFilter(b)).Some? then (Failure(400, "User already exists"), users, [])
    else match CreateOutcome(BackendSchema, users, nextId, Backend.Strict(RouteDocument(b, random, now)), now)
      case Rejected(_) => (Failure(500, "An error occurred during registration"), users, [])
      case Saved(p) => (Pending, users + [p], [Sent(VerificationMailToRecord(p))])
  }

  /** As written, no registration goes through: past the missing-field and
      duplicate checks the `email` rule refuses the insert, which answers
      500; nothing is stored or sent. */
  lemma RegisterAsWrittenRefused(users: seq<Account>, nextId: nat, b: RouteRegisterBody, random: seq<byte>,
                                 now: Millis)
    ensures var (reply, after, effects) := RegisterAsWritten(users, nextId, b, random, now);
      after == users && effects == [] &&
      reply == (if AnyMissing(b) then Failure(400, "All fields are required")
                else if FindFirst(users, DuplicateFilter(b)).Some? then Failure(400, "User already exists")
                else Failure(500, "An error occurred during registration"))
  {
    Backend.StrictRegistrationInvalid(RouteDocument(b, random, now), nextId);
  }

  /** Past the duplicate check, a refused insert answers 500 and changes
      nothing. */
  lemma RegisterRefusedInsert(users: seq<Account>, nextId: nat, b: RouteRegisterBody, random: seq<byte>, now: Millis)
    requires !AnyMissing(b) && FindFirst(users, DuplicateFilter(b)).None?
    requires CreateOutcome(BackendSchema, users, nextId, RouteDocument(b, random, now), now).Rejected?
    ensures RegisterOutcome(users, nextId, b, random, now) ==
      (Failure(500, "An error occurred during registration"), users, [])
  {
  }

  /** The normalised handle of the new record clashes with the one at `k`. */
  lemma RouteCreateClashes(users: seq<Account>, nextId: nat, b: RouteRegisterBody, random: seq<byte>,
                           now: Millis, k: nat)
    requires k < |users| && users[k].id != nextId && users[k].csmclName == Backend.CastKey(b.csmclName)
    requires Errors(BackendSchema, Cast(BackendSchema, RouteDocument(b, random, now)).(id := nextId)) == []
    ensures CreateOutcome(BackendSchema, users, nextId, RouteDocument(b, random, now), now).Rejected?
  {
    var doc := RouteDocument(b, random, now);
    var d := Cast(BackendSchema, doc).(id := nextId);
    assert d.csmclName == Backend.CastKey(b.csmclName);
    HooksKeepKeys(BackendSchema, d, None, now);
    CreateRefusedOnClash(BackendSchema, users, nextId, doc, now, k);
  }

  /** The inserted record: unverified, with the hex token valid for the
      next 24 hours. */
  lemma RouteRegisteredRecord(b: RouteRegisterBody, random: seq<byte>, nextId: nat, now: Millis)
    ensures var p := RouteRegistered(b, random, nextId, now);
      p.id == nextId && !p.isEmailVerified && !p.isSimVerified &&
      p.verificationToken == Some(ToHex(random)) && p.verificationExpires == Some(now + DayMs) &&
      p.regularEmail == Backend.CastKey(ToLower(b.regularEmail)) && p.csmclName == Backend.CastKey(b.csmclName)
  {
  }

  // ---------------------------------------------------------------- verify-email

  /** What the verify-email endpoints decide about the first record holding
      the token, in the order they check it. */
  datatype TokenDecision = Unknown | AlreadyVerified | Expired | Verify(k: nat)

  /** The expiry refuses only a set date strictly before now. */
  function Lookup(users: seq<Account>, token: string, now: Millis): (d: TokenDecision)
    ensures d.Verify? ==> d.k < |users|
  {
    match FindFirst(users, ByToken(token))
    case None => Unknown
    case Some(k) =>
      if users[k].isEmailVerified then AlreadyVerified
      else if Before(users[k].verificationExpires, now) then Expired
      else Verify(k)
  }

  /** `POST /verify-email`. */
  function PostVerifyOutcome(users: seq<Account>, token: string, now: Millis): (Reply, seq<Account>) {
    if token == "" then (Failure(400, "Verification token is required"), users)
    else match Lookup(users, token, now)
      case Unknown => (Failure(404, "Invalid verification token"), users)
      case AlreadyVerified => (Failure(400, "Email is already verified"), users)
      case Expired => (Failure(400, "Verification token has expired. Please request a new one."), users)
      case Verify(k) =>
        match SaveOutcome(BackendSchema, users, Apply(ConfirmEmail, WithoutPassword(users[k])), now)
        case Rejected(_) => (Failure(500, "An error occurred during email verification"), users)
        case Saved(p) => (Success(200, "Email verified successfully"), Replace(users, p))
  }

  method PostVerifyEmail(store: UserStore, token: string, now: Millis) returns (reply: Reply)
    requires store.Valid() && store.schema == BackendSchema
    modifies store
    ensures store.Valid()
    ensures (reply, store.users) == PostVerifyOutcome(old(store.users), token, now)
  {
    if token == "" {
      return Failure(400, "Verification token is required");
    }
    var k := FindFirst(store.users, ByToken(token));
    if k.None? {
      assert Lookup(store.users, token, now) == Unknown;
      return Failure(404, "Invalid verification token");
    }
    var user := WithoutPassword(store.users[k.value]);
    if user.isEmailVerified {
      assert Lookup(store.users, token, now) == AlreadyVerified;
      return Failure(400, "Email is already verified");
    }
    if Before(user.verificationExpires, now) {
      assert Lookup(store.users, token, now) == Expired;
      return Failure(400, "Verification token has expired. Please request a new one.");
    }
    assert Lookup(store.users, token, now) == Verify(k.value);
    var r := store.Save(Apply(ConfirmEmail, user), now);
    if r.Rejected? {
      return Failure(500, "An error occurred during email verification");
    }
    reply := Success(200, "Email verified successfully");
  }

  /** `GET /verify-email/:token`: the same decisions, as redirects. */
  function GetVerifyOutcome(users: seq<Account>, token: string, now: Millis): (Reply, seq<Account>) {
    match Lookup(users, token, now)
    case Unknown => (Redirect("/verify-email?error=invalid-token"), users)
    case AlreadyVerified => (Redirect("/verify-email?error=already-verified"), users)
    case Expired => (Redirect("/verify-email?error=token-expired"), users)
    case Verify(k) =>
      match SaveOutcome(BackendSchema, users, Apply(ConfirmEmail, WithoutPassword(users[k])), now)
      case Rejected(_) => (Redirect("/verify-email?error=server-error"), users)
      case Saved(p) => (Redirect("/verify-email?status=success"), Replace(users, p))
  }

  method GetVerifyEmail(store: UserStore, token: string, now: Millis) returns (reply: Reply)
    requires store.Valid() && store.schema == BackendSchema
    modifies store
    ensures store.Valid()
    ensures (reply, store.users) == GetVerifyOutcome(old(store.users), token, now)
  {
    var k := FindFirst(store.users, ByToken(token));
    if k.None? {
      assert Lookup(store.users, token, now) == Unknown;
      return Redirect("/verify-email?error=invalid-token");
    }
    var user := WithoutPassword(store.users[k.value]);
    if user.isEmailVerified {
      assert Lookup(store.users, token, now) == AlreadyVerified;
      return Redirect("/verify-email?error=already-verified");
    }
    if Before(user.verificationExpires, now) {
      assert Lookup(store.users, token, now) == Expired;
      return Redirect("/verify-email?error=token-expired");
    }
    assert Lookup(store.users, token, now) == Verify(k.value);
    var r := store.Save(Apply(ConfirmEmail, user), now);
    if r.Rejected? {
      return Redirect("/verify-email?error=server-error");
    }
    reply := Redirect("/verify-email?status=success");
  }

  /** The order of the checks: an unknown token before a verified account,
      a verified account before an expired token, and only a set expiry
      strictly before now is expired. */
  lemma LookupOrder(users: seq<Account>, token: string, now: Millis)
    ensures var f := FindFirst(users, ByToken(token));
      (Lookup(users, token, now) == Unknown <==> TokenHolders(users, token) == {}) &&
      (Lookup(users, token, now) == AlreadyVerified <==> f.Some? && users[f.value].isEmailVerified) &&
      (Lookup(users, token, now) == Expired <==>
         f.Some? && !users[f.value].isEmailVerified && Before(users[f.value].verificationExpires, now)) &&
      (Lookup(users, token, now).Verify? <==>
         f.Some? && !users[f.value].isEmailVerified && !Before(users[f.value].verificationExpires, now))
  {
    var f := FindFirst(users, ByToken(token));
    if f.Some? {
      assert f.value in TokenHolders(users, token);
    } else {
      assert forall j :: 0 <= j < |users| ==> users[j].verificationToken != Some(token);
    }
  }

  /** A record without an expiry date never has an expired token here. */
  lemma NoExpiryNeverExpires(users: seq<Account>, token: string, now: Millis)
    requires var f := FindFirst(users, ByToken(token)); f.Some? && users[f.value].verificationExpires.None?
    ensures Lookup(users, token, now) != Expired
  {
  }

  /** A refused request changes nothing, whichever endpoint receives it. */
  lemma VerifyRefusalsKeepStore(users: seq<Account>, token: string, now: Millis)
    requires !Lookup(users, token, now).Verify?
    ensures PostVerifyOutcome(users, token, now).1 == users && GetVerifyOutcome(users, token, now).1 == users
  {
  }

  /** A token that passes every check reaches the confirming save, which
      the hashing hook refuses: a server error, and nothing changes. */
  lemma PostVerifyFails(users: seq<Account>, nextId: nat, token: string, now: Millis, k: nat)
    requires Consistent(BackendSchema, users, nextId) && token != "" && Lookup(users, token, now) == Verify(k)
    ensures PostVerifyOutcome(users, token, now) == (Failure(500, "An error occurred during email verification"), users)
  {
    SaveOfUnloadedUpdate(BackendSchema, users, nextId, k, ConfirmEmail, now);
  }

  /** The same through the link: the server-error redirect. */
  lemma GetVerifyFails(users: seq<Account>, nextId: nat, token: string, now: Millis, k: nat)
    requires Consistent(BackendSchema, users, nextId) && Lookup(users, token, now) == Verify(k)
    ensures GetVerifyOutcome(users, token, now) == (Redirect("/verify-email?error=server-error"), users)
  {
    SaveOfUnloadedUpdate(BackendSchema, users, nextId, k, ConfirmEmail, now);
  }

  /** So on a consistent store neither endpoint ever confirms an address or
      changes a record. */
  lemma VerifyNeverConfirms(users: seq<Account>, nextId: nat, token: string, now: Millis)
    requires Consistent(BackendSchema, users, nextId)
    ensures PostVerifyOutcome(users, token, now).0 != Success(200, "Email verified successfully")
    ensures GetVerifyOutcome(users, token, now).0 != Redirect("/verify-email?status=success")
    ensures PostVerifyOutcome(users, token, now).1 == users && GetVerifyOutcome(users, token, now).1 == users
  {
    var d := Lookup(users, token, now);
    if d.Verify? {
      GetVerifyFails(users, nextId, token, now, d.k);
      if token != "" {
        PostVerifyFails(users, nextId, token, now, d.k);
      }
    }
  }

  /** The reply of the pasted-token endpoint and the redirect of the link
      that stand for the same decision. */
  predicate Mirrored(post: Reply, get: Reply) {
    (post == Failure(404, "Invalid verification token") && get == Redirect("/verify-email?error=invalid-token")) ||
    (post == Failure(400, "Email is already verified") && get == Redirect("/verify-email?error=already-verified")) ||
    (post == Failure(400, "Verification token has expired. Please request a new one.") &&
     get == Redirect("/verify-email?error=token-expired")) ||
    (post == Failure(500, "An error occurred during email verification") &&
     get == Redirect("/verify-email?error=server-error")) ||
    (post == Success(200, "Email verified successfully") && get == Redirect("/verify-email?status=success"))
  }

  /** The link and the pasted token answer alike: the same records
      afterwards, and the redirect that stands for the reply. */
  lemma GetMirrorsPost(users: seq<Account>, token: string, now: Millis)
    requires token != ""
    ensures PostVerifyOutcome(users, token, now).1 == GetVerifyOutcome(users, token, now).1
    ensures Mirrored(PostVerifyOutcome(users, token, now).0, GetVerifyOutcome(users, token, now).0)
  {
  }

  /** The token a registration stores passes the checks of the
      verify-email endpoints within its 24 hours, when no earlier record
      holds it. */
  lemma RegisterThenVerify(users: seq<Account>, nextId: nat, b: RouteRegisterBody, random: seq<byte>,
                           now: Millis, later: Millis)
    requires RegisterOutcome(users, nextId, b, random, now).0 == Pending
    requires TokenHolders(users, ToHex(random)) == {} && later <= now + DayMs
    ensures Lookup(RegisterOutcome(users, nextId, b, random, now).1, ToHex(random), later) == Verify(|users|)
  {
    RegisterReplies(users, nextId, b, random, now);
    RouteRegisteredRecord(b, random, nextId, now);
    var p := RouteRegistered(b, random, nextId, now);
    var after := users + [p];
    LookupOrder(users, ToHex(random), later);
    assert FindFirst(after, ByToken(ToHex(random))) == Some(|users|) by {
      FindAfterMisses(users, p, ByToken(ToHex(random)));
    }
  }

  /** Appending to records none of which matches finds the appended one
      when it matches. */
  lemma FindAfterMisses(users: seq<Account>, p: Account, q: Query)
    requires FindFirst(users, q).None? && Matches(q, p)
    ensures FindFirst(users + [p], q) == Some(|users|)
  {
    var after := users + [p];
    assert after[|users|] == p;
    forall i | 0 <= i < |users| ensures !Matches(q, after[i]) {
      assert after[i] == users[i];
    }
  }

  // ---------------------------------------------------------------- resend-verification

  /** `POST /resend-verification`: the address is looked up lower-cased,
      and a new token valid for 24 hours replaces the old one. */
  function ResendOutcome(users: seq<Account>, email: string, random: seq<byte>, send: Mail -> bool, now: Millis)
    : (Reply, seq<Account>, seq<Effect>)
  {
    if email == "" then (Failure(400, "Email is required"), users, [])
    else match FindFirst(users, ByEmail(ToLower(email)))
      case None => (Failure(404, "User not found"), users, [])
      case Some(k) =>
        if users[k].isEmailVerified then (Failure(400, "Email is already verified"), users, [])
        else
          var u := IssueVerification(ToHex(random), Some(now + DayMs));
          match SaveOutcome(BackendSchema, users, Apply(u, WithoutPassword(users[k])), now)
          case Rejected(_) => (Failure(500, "An error occurred while resending verification email"), users, [])
          case Saved(p) =>
            var mail := VerificationMailToRecord(p);
            (if send(mail) then Success(200, "Verification email sent successfully")
             else Failure(500, "Error sending verification email"), Replace(users, p), [Sent(mail)])
  }

  method ResendVerification(store: UserStore, email: string, random: seq<byte>, send: Mail -> bool, now: Millis)
    returns (reply: Reply, effects: seq<Effect>)
    requires store.Valid() && store.schema == BackendSchema
    modifies store
    ensures store.Valid()
    ensures (reply, store.users, effects) == ResendOutcome(old(store.users), email, random, send, now)
  {
    if email == "" {
      return Failure(400, "Email is required"), [];
    }
    var k := FindFirst(store.users, ByEmail(ToLower(email)));
    if k.None? {
      return Failure(404, "User not found"), [];
    }
    var user := WithoutPassword(store.users[k.value]);
    if user.isEmailVerified {
      return Failure(400, "Email is already verified"), [];
    }
    var r := store.Save(Apply(IssueVerification(ToHex(random), Some(now + DayMs)), user), now);
    if r.Rejected? {
      return Failure(500, "An error occurred while resending verification email"), [];
    }
    var mail := VerificationMailToRecord(r.record);
    effects := [Sent(mail)];
    if send(mail) {
      reply := Success(200, "Verification email sent successfully");
    } else {
      reply := Failure(500, "Error sending verification email");
    }
  }

  /** The guards, in order, each leaving the store as it was. */
  lemma ResendRouteGuards(users: seq<Account>, email: string, random: seq<byte>, send: Mail -> bool, now: Millis)
    ensures var (reply, after, effects) := ResendOutcome(users, email, random, send, now);
      var f := FindFirst(users, ByEmail(ToLower(email)));
      (email == "" ==> reply == Failure(400, "Email is required")) &&
      (email != "" && f.None? ==> reply == Failure(404, "User not found")) &&
      (email != "" && f.Some? && users[f.value].isEmailVerified ==> reply == Failure(400, "Email is already verified")) &&
      (email == "" || f.None? || users[f.value].isEmailVerified ==> after == users && effects == [])
  {
  }

  /** For an unverified account the save of the new token is refused by
      the hashing hook: a server error, the old token stays and no mail is
      attempted. */
  lemma ResendRouteFails(users: seq<Account>, nextId: nat, email: string, random: seq<byte>, send: Mail -> bool,
                         now: Millis, k: nat)
    requires Consistent(BackendSchema, users, nextId) && email != ""
    requires FindFirst(users, ByEmail(ToLower(email))) == Some(k) && !users[k].isEmailVerified
    ensures ResendOutcome(users, email, random, send, now) ==
      (Failure(500, "An error occurred while resending verification email"), users, [])
  {
    SaveOfUnloadedUpdate(BackendSchema, users, nextId, k, IssueVerification(ToHex(random), Some(now + DayMs)), now);
  }

  // ---------------------------------------------------------------- status

  /** `GET /status/:username`. `checkAccount` is the mail server's account
      check: `None` when it throws. */
  function StatusOutcome(users: seq<Account>, username: string, checkAccount: string -> Option<bool>): (r: Reply)
    ensures r == Failure(404, "User not found") <==>
      forall k :: 0 <= k < |users| ==> users[k].csmclName != Backend.CastKey(username)
    ensures r == Json(200, "completed", "User creation completed") <==>
      FindFirst(users, ByHandle(Backend.CastKey(username))).Some? && checkAccount(username) == Some(true)
    ensures r == Failure(500, "Failed to check user status") <==>
      FindFirst(users, ByHandle(Backend.CastKey(username))).Some? && checkAccount(username).None?
  {
    match FindFirst(users, ByHandle(Backend.CastKey(username)))
    case None => Failure(404, "User not found")
    case Some(_) =>
      match checkAccount(username)
      case None => Failure(500, "Failed to check user status")
      case Some(true) => Json(200, "completed", "User creation completed")
      case Some(false) => Json(200, "pending", "User creation in progress")
  }

  // ---------------------------------------------------------------- delete

  /** `DELETE /user/:csmclName`. The record is deleted first; then the
      handler fetches `exec` with `require`, which an ES module does not
      define (`hasRequire` false): that throws after the deletion and
      answers 500. Where `require` exists, `userdel -r` runs and its failure
      is ignored. */
  function DeleteOutcome(users: seq<Account>, csmclName: string, hasRequire: bool): (Reply, seq<Account>, seq<Effect>) {
    match FindFirst(users, ByHandle(Backend.CastKey(csmclName)))
    case None => (Failure(404, "User not found"), users, [])
    case Some(_) =>
      var after := DeleteOneOutcome(users, ByHandle(Backend.CastKey(csmclName)));
      if hasRequire then (Success(200, "User deleted successfully"), after, [Ran(UserDel(csmclName))])
      else (Failure(500, "Failed to delete user"), after, [])
  }

  method DeleteUser(store: UserStore, csmclName: string, hasRequire: bool) returns (reply: Reply, effects: seq<Effect>)
    requires store.Valid()
    modifies store
    ensures store.Valid()
    ensures (reply, store.users, effects) == DeleteOutcome(old(store.users), csmclName, hasRequire)
  {
    var found := store.FindOne(ByHandle(Backend.CastKey(csmclName)));
    if found.None? {
      return Failure(404, "User not found"), [];
    }
    var removed := store.DeleteOne(ByHandle(Backend.CastKey(csmclName)));
    if !hasRequire {
      return Failure(500, "Failed to delete user"), [];
    }
    effects := [Ran(UserDel(csmclName))];
    reply := Success(200, "User deleted successfully");
  }

  /** An unknown handle changes nothing; otherwise the first record with the
      handle is gone whatever happens next, every other record is kept in
      order, and the reply does not depend on the shell. */
  lemma DeleteRemovesFirst(users: seq<Account>, csmclName: string, hasRequire: bool)
    ensures var (reply, after, effects) := DeleteOutcome(users, csmclName, hasRequire);
      var f := FindFirst(users, ByHandle(Backend.CastKey(csmclName)));
      (f.None? <==> reply == Failure(404, "User not found")) &&
      (f.None? ==> after == users && effects == []) &&
      (f.Some? ==>
         after == users[..f.value] + users[f.value + 1..] &&
         (reply == Success(200, "User deleted successfully") <==> hasRequire) &&
         (effects == if hasRequire then [Ran(UserDel(csmclName))] else []))
  {
  }
}
