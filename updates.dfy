/** The in-place assignments the handlers make to a loaded record before
    they save it, and what such a save writes. */
module Updates {
  import opened Common
  import opened Accounts
  import opened Store

  datatype Update =
    | ConfirmEmail                                     // isEmailVerified = true; token and expiry cleared
    | ConfirmSim                                       // isSimVerified = true; code and expiry cleared
    | StampLogin(at: Millis)                           // lastLogin = now
    | ReplacePassword(password: string)                // password = it; reset token and expiry cleared
    | IssueVerification(token: string, expires: Option<Millis>)
    | IssueReset(resetToken: string, resetExpires: Millis)

  function Apply(u: Update, a: Account): Account {
    match u
    case ConfirmEmail => a.(isEmailVerified := true, verificationToken := None, verificationExpires := None)
    case ConfirmSim => a.(isSimVerified := true, simVerificationCode := None, simVerificationExpires := None)
    case StampLogin(t) => a.(lastLogin := Some(t))
    case ReplacePassword(p) => a.(password := Plain(p), passwordResetToken := None, passwordResetExpires := None)
    case IssueVerification(t, e) => a.(verificationToken := Some(t), verificationExpires := e)
    case IssueReset(t, e) => a.(passwordResetToken := Some(t), passwordResetExpires := Some(e))
  }

  /** Every update but a new password leaves the validated and indexed
      paths alone. */
  lemma ApplyKeepsGuarded(u: Update, a: Account)
    requires !u.ReplacePassword?
    ensures SameGuardedPaths(Apply(u, a), a) && Apply(u, a).id == a.id
  {
  }

  /** Saving a record loaded with its password after an update that leaves
      the guarded paths alone is never refused on a consistent store; it
      writes the updated record, stamped. */
  lemma SaveOfUpdate(schema: Schema, users: seq<Account>, nextId: nat, k: nat, u: Update, now: Millis)
    requires Consistent(schema, users, nextId) && k < |users| && !u.ReplacePassword?
    ensures SaveOutcome(schema, users, Apply(u, users[k]), now).Saved?
    ensures Stamped(SaveOutcome(schema, users, Apply(u, users[k]), now).record, Apply(u, users[k]), now)
  {
    var doc := Apply(u, users[k]);
    ApplyKeepsGuarded(u, users[k]);
    assert doc.password == users[k].password && users[k].password.Hashed?;
    assert !HookRejects(schema, doc);
    SaveOfUntouchedRules(schema, users, nextId, k, doc, now);
    HooksOfLoaded(schema, doc, users[k], now);
  }

  /** Updating a record loaded without its password leaves the password
      unselected, unless the update assigns a new one. */
  lemma ApplyUnloaded(u: Update, a: Account)
    ensures Apply(u, WithoutPassword(a)) == if u.ReplacePassword? then Apply(u, a) else WithoutPassword(Apply(u, a))
  {
  }

  /** The save of such an update, on a consistent store: the backend's hook
      refuses it whatever the update, and the server's save writes what the
      save of the loaded record would. */
  lemma SaveOfUnloadedUpdate(schema: Schema, users: seq<Account>, nextId: nat, k: nat, u: Update, now: Millis)
    requires Consistent(schema, users, nextId) && k < |users| && !u.ReplacePassword?
    ensures SaveOutcome(schema, users, Apply(u, WithoutPassword(users[k])), now) ==
      if schema == BackendSchema then Rejected(HashFailed)
      else Saved(Hooks(schema, Apply(u, users[k]), Some(users[k]), now))
  {
    var doc := Apply(u, WithoutPassword(users[k]));
    ApplyUnloaded(u, users[k]);
    ApplyKeepsGuarded(u, users[k]);
    assert doc.(password := users[k].password) == Apply(u, users[k]);
    SaveOfUnloaded(schema, users, nextId, k, doc, now);
  }

  /** Writing back a record of the given id changes that record only. */
  lemma ReplaceOnly(users: seq<Account>, p: Account, k: nat, schema: Schema)
    requires Distinct(schema, users) && k < |users| && users[k].id == p.id
    ensures |Replace(users, p)| == |users| && Replace(users, p)[k] == p
    ensures forall j :: 0 <= j < |users| && j != k ==> Replace(users, p)[j] == users[j]
  {
  }

  /** A record whose indexed keys are unchanged and whose password is set
      is written exactly when it passes validation; otherwise the validation
      error is thrown. */
  lemma SaveOfSameKeys(schema: Schema, users: seq<Account>, nextId: nat, k: nat, doc: Account, now: Millis)
    requires Consistent(schema, users, nextId) && k < |users| && doc.id == users[k].id
    requires doc.csmclName == users[k].csmclName && doc.regularEmail == users[k].regularEmail
    requires doc.simNumber == users[k].simNumber && doc.cosmicalEmail == users[k].cosmicalEmail
    requires !doc.password.Unloaded?
    ensures Errors(schema, doc) == [] ==> SaveOutcome(schema, users, doc, now) == Saved(Hooks(schema, doc, Some(users[k]), now))
    ensures Errors(schema, doc) != [] ==> SaveOutcome(schema, users, doc, now) == Rejected(Invalid(Errors(schema, doc)))
  {
    FindsById(schema, users, k);
    if Errors(schema, doc) == [] {
      HooksKeepKeys(schema, doc, Some(users[k]), now);
      SameKeysClashWithNone(schema, users, k, Hooks(schema, doc, Some(users[k]), now));
      SaveOutcomeOfFound(schema, users, k, doc, now);
    } else {
      SaveInvalidFirst(schema, users, k, doc, now);
    }
  }

  /** `after` has the records of `users`, except perhaps the one at `k`. */
  predicate OthersKept(users: seq<Account>, after: seq<Account>, k: nat) {
    |after| == |users| && forall j :: 0 <= j < |users| && j != k ==> after[j] == users[j]
  }

  /** The state such a save leaves: the stamped update at `k`, every other
      record as it was. */
  lemma UpdateRecord(schema: Schema, users: seq<Account>, k: nat, u: Update, now: Millis)
    requires Distinct(schema, users) && k < |users|
    ensures var p := Hooks(schema, Apply(u, users[k]), Some(users[k]), now);
      OthersKept(users, Replace(users, p), k) && Replace(users, p)[k] == p
  {
    var p := Hooks(schema, Apply(u, users[k]), Some(users[k]), now);
    HooksOfLoaded(schema, Apply(u, users[k]), users[k], now);
    assert p.id == users[k].id;
    ReplaceOnly(users, p, k, schema);
  }

  /** The save itself: it writes that stamped record. */
  lemma UpdateAt(schema: Schema, users: seq<Account>, nextId: nat, k: nat, u: Update, now: Millis)
    requires Consistent(schema, users, nextId) && k < |users| && !u.ReplacePassword?
    ensures var p := Hooks(schema, Apply(u, users[k]), Some(users[k]), now);
      SaveOutcome(schema, users, Apply(u, users[k]), now) == Saved(p) &&
      OthersKept(users, Replace(users, p), k) && Replace(users, p)[k] == p
  {
    UpdateSaves(schema, users, nextId, k, u, now);
    UpdateRecord(schema, users, k, u, now);
  }

  /** The save of such an update goes through the hooks. */
  lemma UpdateSaves(schema: Schema, users: seq<Account>, nextId: nat, k: nat, u: Update, now: Millis)
    requires Consistent(schema, users, nextId) && k < |users| && !u.ReplacePassword?
    ensures SaveOutcome(schema, users, Apply(u, users[k]), now) == Saved(Hooks(schema, Apply(u, users[k]), Some(users[k]), now))
  {
    var doc := Apply(u, users[k]);
    ApplyKeepsGuarded(u, users[k]);
    assert doc.password == users[k].password && users[k].password.Hashed?;
    assert !HookRejects(schema, doc);
    SaveOfUntouchedRules(schema, users, nextId, k, doc, now);
  }

  /** On the server, the same for a record loaded without its password. */
  lemma UnloadedUpdateAt(users: seq<Account>, nextId: nat, k: nat, u: Update, now: Millis)
    requires Consistent(ServerSchema, users, nextId) && k < |users| && !u.ReplacePassword?
    ensures var p := Hooks(ServerSchema, Apply(u, users[k]), Some(users[k]), now);
      SaveOutcome(ServerSchema, users, Apply(u, WithoutPassword(users[k])), now) == Saved(p) &&
      OthersKept(users, Replace(users, p), k) && Replace(users, p)[k] == p
  {
    SaveOfUnloadedUpdate(ServerSchema, users, nextId, k, u, now);
    UpdateRecord(ServerSchema, users, k, u, now);
  }
}
