/** The `users` collection behind a Mongoose model. `save()` on a new
    document applies the setters, runs validation, runs the model's pre-save
    hooks and inserts; on a loaded document it validates, runs the hooks and
    writes it back. The unique indexes refuse a write that would duplicate a
    key. Records are kept in natural order, which `findOne` follows. */
module Store {
  import opened Common
  import opened Accounts
  import opened FieldRules
  import Server = ServerUserModel
  import Backend = BackendUserModel

  /** Which of the two user models (server or backend) a collection is bound to. */
  datatype Schema = ServerSchema | BackendSchema

  function Cast(schema: Schema, a: Account): Account {
    match schema
    case ServerSchema => Server.Cast(a)
    case BackendSchema => Backend.Cast(a)
  }

  function Errors(schema: Schema, a: Account): seq<FieldError> {
    match schema
    case ServerSchema => Server.Errors(a)
    case BackendSchema => Backend.Errors(a)
  }

  lemma CastKeepsPassword(schema: Schema, a: Account)
    ensures Cast(schema, a).password == a.password
  {
    match schema
    case ServerSchema =>
    case BackendSchema =>
  }

  /** The model's pre-save hooks; `stored` is absent for a new document. */
  function Hooks(schema: Schema, doc: Account, stored: Option<Account>, now: Millis): Account {
    match schema
    case ServerSchema => Server.PreSave(doc, stored, now)
    case BackendSchema => Backend.PreSave(doc, stored.None?, now)
  }

  /** Two records that the model's unique indexes forbid side by side: the
      handle, the contact address, the derived address (a sparse index, so
      only when present) and, on the server, the SIM number. */
  predicate Clash(schema: Schema, a: Account, b: Account) {
    a.csmclName == b.csmclName || a.regularEmail == b.regularEmail ||
    (a.cosmicalEmail.Some? && a.cosmicalEmail == b.cosmicalEmail) ||
    (schema == ServerSchema && a.simNumber == b.simNumber)
  }

  /** What the collection always satisfies: ids are distinct and below the
      next id, every record passed validation and holds a hashed password,
      no two records clash. */
  predicate Consistent(schema: Schema, users: seq<Account>, nextId: nat) {
    IdsBelow(users, nextId) && AllValid(schema, users) && AllHashed(users) && Distinct(schema, users)
  }

  predicate AllHashed(users: seq<Account>) {
    forall i :: 0 <= i < |users| ==> users[i].password.Hashed?
  }

  predicate IdsBelow(users: seq<Account>, nextId: nat) {
    forall i :: 0 <= i < |users| ==> users[i].id < nextId
  }

  predicate AllValid(schema: Schema, users: seq<Account>) {
    forall i {:trigger Errors(schema, users[i])} :: 0 <= i < |users| ==> Errors(schema, users[i]) == []
  }

  /** No two records share an id or a unique key. */
  predicate Distinct(schema: Schema, users: seq<Account>) {
    forall i, j :: 0 <= i < j < |users| ==> users[i].id != users[j].id && !Clash(schema, users[i], users[j])
  }

  /** Why a `save()` was rejected. */
  datatype SaveError =
    | Invalid(errors: seq<FieldError>)   // a `ValidationError`
    | DuplicateKey                       // a `MongoServerError` with code 11000
    | NotFound                           // a `DocumentNotFoundError`: the record is gone
    | HashFailed                         // a pre-save hook rejected: bcrypt had no password to hash

  datatype SaveResult = Saved(record: Account) | Rejected(error: SaveError)

  /** Some record other than `p`'s own clashes with it. */
  predicate ClashesWithOther(schema: Schema, users: seq<Account>, p: Account) {
    exists i :: 0 <= i < |users| && users[i].id != p.id && Clash(schema, users[i], p)
  }

  /** The model's pre-save hooks reject the document: the backend hashes
      whatever the password path holds, and an unselected one cannot be
      hashed. The server's hook skips an unmodified password. */
  predicate HookRejects(schema: Schema, doc: Account) {
    schema == BackendSchema && Backend.HashRejects(doc)
  }

  /** `save()` of a document already in the collection: validation first,
      then the hooks, then the write, which the indexes may refuse. The
      missing record is checked here before validation, while Mongoose finds
      it missing only at the write; the two orders differ only when a record
      goes between its lookup and its save, which takes concurrent requests. */
  function SaveOutcome(schema: Schema, users: seq<Account>, doc: Account, now: Millis): SaveResult {
    match FindFirst(users, ById(doc.id))
    case None => Rejected(NotFound)
    case Some(k) =>
      var errs := Errors(schema, doc);
      if errs != [] then Rejected(Invalid(errs))
      else if HookRejects(schema, doc) then Rejected(HashFailed)
      else
        var p := Hooks(schema, doc, Some(users[k]), now);
        if ClashesWithOther(schema, users, p) then Rejected(DuplicateKey) else Saved(p)
  }

  /** `new User(fields).save()`: the setters run when the document is built,
      the new record takes the next id. */
  function CreateOutcome(schema: Schema, users: seq<Account>, nextId: nat, doc: Account, now: Millis): SaveResult {
    var d := Cast(schema, doc).(id := nextId);
    var errs := Errors(schema, d);
    if errs != [] then Rejected(Invalid(errs))
    else if HookRejects(schema, d) then Rejected(HashFailed)
    else
      var p := Hooks(schema, d, None, now);
      if ClashesWithOther(schema, users, p) then Rejected(DuplicateKey) else Saved(p)
  }

  /** `deleteOne(filter)`: the first matching record goes. */
  function DeleteOneOutcome(users: seq<Account>, q: Query): seq<Account> {
    match FindFirst(users, q)
    case None => users
    case Some(k) => RemoveAt(users, k)
  }

  /** `ValidationError.message`: the model name, then each path with its message. */
  function ValidationMessage(errors: seq<FieldError>): string {
    "User validation failed: " + Join(PathMessages(errors), ", ")
  }

  function PathMessages(errors: seq<FieldError>): (r: seq<string>)
    ensures |r| == |errors|
  {
    if errors == [] then [] else [errors[0].path + ": " + errors[0].message] + PathMessages(errors[1..])
  }

  /** The `message` of the error a rejected save throws. */
  function SaveErrorMessage(e: SaveError): string {
    match e
    case Invalid(errors) => ValidationMessage(errors)
    case DuplicateKey => "E11000 duplicate key error"
    case NotFound => "No document found for query"
    case HashFailed => Backend.HashError
  }

  /** The paths a handler must leave alone for its save to pass validation
      and the indexes: everything validated or indexed. The password may
      also be unselected. */
  predicate SameGuardedPaths(doc: Account, u: Account) {
    doc.displayName == u.displayName && doc.csmclName == u.csmclName &&
    doc.regularEmail == u.regularEmail && doc.simNumber == u.simNumber &&
    (doc.password == u.password || doc.password.Unloaded?) &&
    doc.isTest == u.isTest && doc.cosmicalEmail == u.cosmicalEmail
  }

  lemma ErrorsOfGuarded(schema: Schema, doc: Account, u: Account)
    requires SameGuardedPaths(doc, u) && u.password.Hashed?
    ensures Errors(schema, doc) == Errors(schema, u)
  {
    match schema
    case ServerSchema => Server.ErrorsOnlyReadValidatedPaths(doc, u);
    case BackendSchema => Backend.ErrorsOnlyReadValidatedPaths(doc, u);
  }

  /** The hooks leave the id and the indexed keys alone, except that a new
      record gains its derived address, and stamp the time of the save. */
  lemma HooksKeepKeys(schema: Schema, doc: Account, stored: Option<Account>, now: Millis)
    ensures var p := Hooks(schema, doc, stored, now);
      p.id == doc.id && p.csmclName == doc.csmclName && p.regularEmail == doc.regularEmail &&
      p.simNumber == doc.simNumber && (stored.Some? ==> p.cosmicalEmail == doc.cosmicalEmail) &&
      p.isExpired == doc.isExpired && p.updatedAt == now
  {
    match schema
    case ServerSchema => Server.PreSaveEffect(doc, stored, now);
    case BackendSchema => Backend.PreSaveEffect(doc, stored.None?, now);
  }

  /** What the hooks do to a loaded document: at most the password changes
      (a new hash), and `updatedAt` becomes the time of the save. */
  predicate Stamped(p: Account, doc: Account, now: Millis) {
    p.(password := doc.password, updatedAt := doc.updatedAt) == doc && p.updatedAt == now
  }

  lemma HooksOfLoaded(schema: Schema, doc: Account, stored: Account, now: Millis)
    ensures Stamped(Hooks(schema, doc, Some(stored), now), doc, now)
  {
    match schema
    case ServerSchema =>
    case BackendSchema =>
  }

  /** The hooks keep a valid record valid, and what they write holds a
      hashed password when the stored one was hashed. */
  lemma HooksKeepValid(schema: Schema, doc: Account, stored: Option<Account>, now: Millis)
    requires Errors(schema, doc) == [] && (stored.Some? ==> stored.value.password.Hashed?)
    ensures Errors(schema, Hooks(schema, doc, stored, now)) == []
    ensures Hooks(schema, doc, stored, now).password.Hashed?
  {
    match schema
    case ServerSchema => Server.PreSaveKeepsValid(doc, stored, now);
    case BackendSchema => Backend.PreSaveKeepsValid(doc, stored.None?, now);
  }

  lemma HooksKeepRecord(schema: Schema, doc: Account, stored: Option<Account>, now: Millis)
    requires Errors(schema, doc) == [] && (stored.Some? ==> stored.value.password.Hashed?)
    ensures Errors(schema, Hooks(schema, doc, stored, now)) == [] && Hooks(schema, doc, stored, now).password.Hashed?
    ensures var p := Hooks(schema, doc, stored, now);
      p.id == doc.id && p.csmclName == doc.csmclName && p.regularEmail == doc.regularEmail &&
      p.simNumber == doc.simNumber && (stored.Some? ==> p.cosmicalEmail == doc.cosmicalEmail) &&
      p.isExpired == doc.isExpired && p.updatedAt == now
  {
    HooksKeepKeys(schema, doc, stored, now);
    HooksKeepValid(schema, doc, stored, now);
  }

  /** A save that leaves every validated and indexed path of the stored
      record alone passes validation and the indexes: it writes the hooked
      document unless the hooks reject it. */
  lemma SaveOfUntouchedRules(schema: Schema, users: seq<Account>, nextId: nat, k: nat,
                             doc: Account, now: Millis)
    requires Consistent(schema, users, nextId)
    requires k < |users| && doc.id == users[k].id && SameGuardedPaths(doc, users[k])
    ensures SaveOutcome(schema, users, doc, now) ==
      if HookRejects(schema, doc) then Rejected(HashFailed) else Saved(Hooks(schema, doc, Some(users[k]), now))
  {
    FindsById(schema, users, k);
    ErrorsOfGuarded(schema, doc, users[k]);
    var p := Hooks(schema, doc, Some(users[k]), now);
    HooksKeepKeys(schema, doc, Some(users[k]), now);
    SameKeysClashWithNone(schema, users, k, p);
    SaveOutcomeOfFound(schema, users, k, doc, now);
  }

  /** The save of a record loaded without its password, its guarded paths
      left alone: the backend's hook always rejects it, and the server writes
      what the save of the loaded record would, keeping the stored hash. */
  lemma SaveOfUnloaded(schema: Schema, users: seq<Account>, nextId: nat, k: nat, doc: Account, now: Millis)
    requires Consistent(schema, users, nextId)
    requires k < |users| && doc.id == users[k].id && SameGuardedPaths(doc, users[k]) && doc.password.Unloaded?
    ensures SaveOutcome(schema, users, doc, now) ==
      if schema == BackendSchema then Rejected(HashFailed)
      else Saved(Hooks(schema, doc.(password := users[k].password), Some(users[k]), now))
  {
    SaveOfUntouchedRules(schema, users, nextId, k, doc, now);
    if schema == ServerSchema {
      Server.UnloadedAsLoaded(doc.(password := users[k].password), users[k], now);
      assert doc.(password := users[k].password).(password := Unloaded) == doc;
    }
  }

  /** With distinct ids, looking a stored record up by its id finds it. */
  lemma FindsById(schema: Schema, users: seq<Account>, k: nat)
    requires Distinct(schema, users) && k < |users|
    ensures FindFirst(users, ById(users[k].id)) == Some(k)
  {
    var f := FindFirst(users, ById(users[k].id));
    assert Matches(ById(users[k].id), users[k]);
    IdsPin(schema, users, f.value, k);
  }

  /** The outcome of a save whose record was found at `k` and that
      validation passed. */
  lemma SaveOutcomeOfFound(schema: Schema, users: seq<Account>, k: nat, doc: Account, now: Millis)
    requires FindFirst(users, ById(doc.id)) == Some(k) && Errors(schema, doc) == []
    ensures SaveOutcome(schema, users, doc, now) ==
      var p := Hooks(schema, doc, Some(users[k]), now);
      if HookRejects(schema, doc) then Rejected(HashFailed)
      else if ClashesWithOther(schema, users, p) then Rejected(DuplicateKey) else Saved(p)
  {
  }

  /** A record with the id and the keys of the stored record at `k`
      clashes with no other record. */
  lemma SameKeysClashWithNone(schema: Schema, users: seq<Account>, k: nat, p: Account)
    requires Distinct(schema, users) && k < |users| && p.id == users[k].id
    requires p.csmclName == users[k].csmclName && p.regularEmail == users[k].regularEmail
    requires p.simNumber == users[k].simNumber && p.cosmicalEmail == users[k].cosmicalEmail
    ensures !ClashesWithOther(schema, users, p)
  {
    forall i | 0 <= i < |users| && users[i].id != p.id ensures !Clash(schema, users[i], p) {
      if i < k {
        assert !Clash(schema, users[i], users[k]);
      } else {
        assert !Clash(schema, users[k], users[i]);
      }
    }
  }

  lemma IdsPin(schema: Schema, users: seq<Account>, i: nat, k: nat)
    requires Distinct(schema, users) && i < |users| && k < |users|
    requires users[i].id == users[k].id
    ensures i == k
  {
  }

  /** A written-back record keeps the collection consistent. */
  lemma SaveKeepsConsistent(schema: Schema, users: seq<Account>, nextId: nat, doc: Account, now: Millis)
    requires Consistent(schema, users, nextId)
    requires SaveOutcome(schema, users, doc, now).Saved?
    ensures Consistent(schema, Replace(users, SaveOutcome(schema, users, doc, now).record), nextId)
  {
    var k := FindFirst(users, ById(doc.id)).value;
    var p := SaveOutcome(schema, users, doc, now).record;
    HooksKeepRecord(schema, doc, Some(users[k]), now);
    assert p.id == users[k].id;
    forall i | 0 <= i < |users| && users[i].id == p.id ensures i == k {
      IdsPin(schema, users, i, k);
    }
    ReplaceKeepsDistinct(schema, users, k, p);
    var r := Replace(users, p);
    assert forall i :: 0 <= i < |r| ==> r[i] == if i == k then p else users[i];
    assert p.password.Hashed?;
  }

  /** Replacing the record at `k` by one with its id and no clash with the
      other records keeps the records distinct. */
  lemma ReplaceKeepsDistinct(schema: Schema, users: seq<Account>, k: nat, p: Account)
    requires Distinct(schema, users) && k < |users| && p.id == users[k].id
    requires forall i :: 0 <= i < |users| && users[i].id == p.id ==> i == k
    requires !ClashesWithOther(schema, users, p)
    ensures Distinct(schema, Replace(users, p))
  {
    var r := Replace(users, p);
    assert forall i :: 0 <= i < |r| ==> r[i] == if i == k then p else users[i];
    forall i, j | 0 <= i < j < |r| ensures r[i].id != r[j].id && !Clash(schema, r[i], r[j]) {
      if i == k {
        assert !Clash(schema, users[j], p);
      } else if j == k {
        assert !Clash(schema, users[i], p);
      }
    }
  }

  /** What a successful insert writes: a valid record under the next id that
      clashes with no stored record. */
  lemma CreatedRecord(schema: Schema, users: seq<Account>, nextId: nat, doc: Account, now: Millis)
    requires CreateOutcome(schema, users, nextId, doc, now).Saved?
    ensures var p := CreateOutcome(schema, users, nextId, doc, now).record;
      p.id == nextId && Errors(schema, p) == [] && p.password.Hashed? && !ClashesWithOther(schema, users, p)
  {
    var d := Cast(schema, doc).(id := nextId);
    var p := Hooks(schema, d, None, now);
    assert Errors(schema, d) == [] && !ClashesWithOther(schema, users, p);
    assert CreateOutcome(schema, users, nextId, doc, now).record == p;
    HooksKeepRecord(schema, d, None, now);
  }

  /** The record an insert writes: the cast document under the next id,
      through the hooks of a new document. */
  lemma CreatedIs(schema: Schema, users: seq<Account>, nextId: nat, doc: Account, now: Millis)
    requires CreateOutcome(schema, users, nextId, doc, now).Saved?
    ensures CreateOutcome(schema, users, nextId, doc, now).record == Hooks(schema, Cast(schema, doc).(id := nextId), None, now)
  {
  }

  /** A valid new document with a password whose record would share a key
      with a stored one is refused by the unique index. */
  lemma CreateRefusedOnClash(schema: Schema, users: seq<Account>, nextId: nat, doc: Account, now: Millis, k: nat)
    requires Errors(schema, Cast(schema, doc).(id := nextId)) == [] && !doc.password.Unloaded?
    requires k < |users| && users[k].id != nextId
    requires Clash(schema, users[k], Hooks(schema, Cast(schema, doc).(id := nextId), None, now))
    ensures CreateOutcome(schema, users, nextId, doc, now) == Rejected(DuplicateKey)
  {
    var d := Cast(schema, doc).(id := nextId);
    var p := Hooks(schema, d, None, now);
    CastKeepsPassword(schema, doc);
    HooksKeepKeys(schema, d, None, now);
    assert ClashesWithOther(schema, users, p);
    CreateOutcomeOfValid(schema, users, nextId, doc, now);
  }

  lemma CreateOutcomeOfValid(schema: Schema, users: seq<Account>, nextId: nat, doc: Account, now: Millis)
    requires Errors(schema, Cast(schema, doc).(id := nextId)) == [] && !HookRejects(schema, Cast(schema, doc).(id := nextId))
    ensures CreateOutcome(schema, users, nextId, doc, now) ==
      var p := Hooks(schema, Cast(schema, doc).(id := nextId), None, now);
      if ClashesWithOther(schema, users, p) then Rejected(DuplicateKey) else Saved(p)
  {
  }

  /** An inserted record keeps the collection consistent. */
  lemma CreateKeepsConsistent(schema: Schema, users: seq<Account>, nextId: nat, p: Account)
    requires Consistent(schema, users, nextId)
    requires p.id == nextId && Errors(schema, p) == [] && p.password.Hashed? && !ClashesWithOther(schema, users, p)
    ensures Consistent(schema, users + [p], nextId + 1)
  {
    AppendKeepsDistinct(schema, users, nextId, p);
    var r := users + [p];
    assert forall i :: 0 <= i < |users| ==> r[i] == users[i];
  }

  lemma AppendKeepsDistinct(schema: Schema, users: seq<Account>, nextId: nat, p: Account)
    requires Distinct(schema, users) && IdsBelow(users, nextId) && p.id == nextId
    requires !ClashesWithOther(schema, users, p)
    ensures Distinct(schema, users + [p])
  {
    var r := users + [p];
    forall i, j | 0 <= i < j < |r| ensures r[i].id != r[j].id && !Clash(schema, r[i], r[j]) {
      if j == |users| {
        assert r[i] == users[i] && r[j] == p;
        assert !Clash(schema, users[i], p);
      } else {
        assert r[i] == users[i] && r[j] == users[j];
      }
    }
  }

  /** Removing records never breaks consistency: what `find` selects and
      what `deleteMany` leaves are subsequences. */
  lemma SelectKeepsConsistent(schema: Schema, users: seq<Account>, nextId: nat, q: Query)
    requires Consistent(schema, users, nextId)
    ensures Consistent(schema, Select(users, q), nextId)
  {
    SelectKeepsDistinct(schema, users, q);
    var r := Select(users, q);
    forall i | 0 <= i < |r| ensures r[i].id < nextId && Errors(schema, r[i]) == [] && r[i].password.Hashed? {
      assert r[i] in users;
    }
  }

  lemma {:induction false} SelectKeepsDistinct(schema: Schema, users: seq<Account>, q: Query)
    requires Distinct(schema, users)
    ensures Distinct(schema, Select(users, q))
  {
    if users != [] {
      assert Distinct(schema, users[1..]) by {
        assert forall i :: 0 <= i < |users[1..]| ==> users[1..][i] == users[i + 1];
      }
      SelectKeepsDistinct(schema, users[1..], q);
      if Matches(q, users[0]) {
        var rest := Select(users[1..], q);
        var r := [users[0]] + rest;
        assert Select(users, q) == r;
        forall i, j | 0 <= i < j < |r| ensures r[i].id != r[j].id && !Clash(schema, r[i], r[j]) {
          if i == 0 {
            assert r[j] == rest[j - 1] && rest[j - 1] in users[1..];
            var m :| 0 <= m < |users[1..]| && users[1..][m] == r[j];
            assert users[m + 1] == r[j];
          } else {
            assert r[i] == rest[i - 1] && r[j] == rest[j - 1];
          }
        }
      }
    }
  }

  lemma RemoveAtKeepsConsistent(schema: Schema, users: seq<Account>, nextId: nat, k: nat)
    requires Consistent(schema, users, nextId) && k < |users|
    ensures Consistent(schema, RemoveAt(users, k), nextId)
  {
    var r := RemoveAt(users, k);
    forall i | 0 <= i < |r| ensures r[i].id < nextId && Errors(schema, r[i]) == [] && r[i].password.Hashed? {
      var i' := if i < k then i else i + 1;
      assert r[i] == users[i'];
    }
    forall i, j | 0 <= i < j < |r| ensures r[i].id != r[j].id && !Clash(schema, r[i], r[j]) {
      var i' := if i < k then i else i + 1;
      var j' := if j < k then j else j + 1;
      assert r[i] == users[i'] && r[j] == users[j'];
    }
  }

  /** A save is refused as missing exactly when no record has the
      document's id. */
  lemma SaveNotFoundIff(schema: Schema, users: seq<Account>, doc: Account, now: Millis)
    ensures SaveOutcome(schema, users, doc, now) == Rejected(NotFound) <==>
      forall i :: 0 <= i < |users| ==> users[i].id != doc.id
  {
    if exists i :: 0 <= i < |users| && users[i].id == doc.id {
      var i :| 0 <= i < |users| && users[i].id == doc.id;
      assert Matches(ById(doc.id), users[i]);
    }
  }

  /** Validation is decided before the indexes: a stored document that fails
      validation is refused with its own errors. */
  lemma SaveInvalidFirst(schema: Schema, users: seq<Account>, k: nat, doc: Account, now: Millis)
    requires k < |users| && users[k].id == doc.id && Errors(schema, doc) != []
    ensures SaveOutcome(schema, users, doc, now) == Rejected(Invalid(Errors(schema, doc)))
  {
    assert Matches(ById(doc.id), users[k]);
  }

  /** What a successful save writes: a valid record with the document's id
      and a hashed password, stamped with the time of the save. */
  lemma SavedRecord(schema: Schema, users: seq<Account>, doc: Account, now: Millis)
    requires AllHashed(users) && SaveOutcome(schema, users, doc, now).Saved?
    ensures var p := SaveOutcome(schema, users, doc, now).record;
      Errors(schema, p) == [] && p.password.Hashed? && p.id == doc.id && p.updatedAt == now
  {
    var k := FindFirst(users, ById(doc.id)).value;
    HooksKeepRecord(schema, doc, Some(users[k]), now);
    assert SaveOutcome(schema, users, doc, now).record == Hooks(schema, doc, Some(users[k]), now);
  }

  class UserStore {
    const schema: Schema
    var users: seq<Account>
    var nextId: nat

    ghost predicate Valid()
      reads this
    {
      Consistent(schema, users, nextId)
    }

    constructor (schema: Schema)
      ensures this.schema == schema && users == [] && nextId == 0 && Valid()
    {
      this.schema := schema;
      users := [];
      nextId := 0;
    }

    /** `findOne(filter)`. */
    function FindOne(q: Query): (r: Option<Account>)
      reads this
      ensures r.Some? ==> r.value in users && Matches(q, r.value)
      ensures r.None? <==> forall k :: 0 <= k < |users| ==> !Matches(q, users[k])
    {
      match FindFirst(users, q)
      case None => None
      case Some(k) => Some(users[k])
    }

    /** `new User(doc).save()`. */
    method Create(doc: Account, now: Millis) returns (r: SaveResult)
      requires Valid()
      modifies this
      ensures Valid()
      ensures r == CreateOutcome(schema, old(users), old(nextId), doc, now)
      ensures users == (if r.Saved? then old(users) + [r.record] else old(users))
      ensures nextId == (if r.Saved? then old(nextId) + 1 else old(nextId))
    {
      r := CreateOutcome(schema, users, nextId, doc, now);
      if r.Saved? {
        CreatedRecord(schema, users, nextId, doc, now);
        CreateKeepsConsistent(schema, users, nextId, r.record);
        users := users + [r.record];
        nextId := nextId + 1;
      }
    }

    /** `doc.save()` of a loaded document. */
    method Save(doc: Account, now: Millis) returns (r: SaveResult)
      requires Valid()
      modifies this
      ensures Valid()
      ensures r == SaveOutcome(schema, old(users), doc, now)
      ensures users == (if r.Saved? then Replace(old(users), r.record) else old(users))
      ensures nextId == old(nextId)
    {
      r := SaveOutcome(schema, users, doc, now);
      if r.Saved? {
        SaveKeepsConsistent(schema, users, nextId, doc, now);
        users := Replace(users, r.record);
      }
    }

    /** `deleteOne(filter)`, answering `deletedCount`. */
    method DeleteOne(q: Query) returns (deletedCount: nat)
      requires Valid()
      modifies this
      ensures Valid()
      ensures users == DeleteOneOutcome(old(users), q) && nextId == old(nextId)
      ensures deletedCount == |old(users)| - |users| && deletedCount <= 1
    {
      var k := FindFirst(users, q);
      if k.Some? {
        RemoveAtKeepsConsistent(schema, users, nextId, k.value);
        users := RemoveAt(users, k.value);
        deletedCount := 1;
      } else {
        deletedCount := 0;
      }
    }

    /** `deleteMany(filter)`, answering `deletedCount`. */
    method DeleteMany(q: Query) returns (deletedCount: nat)
      requires Valid()
      modifies this
      ensures Valid()
      ensures users == Select(old(users), Not(q)) && nextId == old(nextId)
      ensures deletedCount == |old(users)| - |users|
    {
      SelectKeepsConsistent(schema, users, nextId, Not(q));
      var kept := Select(users, Not(q));
      deletedCount := |users| - |kept|;
      users := kept;
    }
  }
}
