/** The backend's user schema: the same setters and validators as the server's
    for the paths it declares (no word count, no SIM number, no password
    pattern), and two pre-save hooks: one that hashes the password on EVERY
    save, and the cosmical-address hook. `timestamps` stamps `updatedAt`. */
module BackendUserModel {
  import opened Common
  import opened Validators
  import opened Accounts
  import opened FieldRules

  /** The `trim` and `lowercase` setters of `csmclName`, `email` and
      `cosmicalEmail`. Mongoose runs a query filter on one of these paths
      through the same setters, so a lookup compares `CastKey` of the value
      asked for with the stored value. */
  function CastKey(s: string): string {
    ToLower(Trim(s))
  }

  /** A cast key is already trimmed and lower-case: a stored handle or
      address is found by itself, and any value with the same cast finds
      the same records. */
  lemma CastKeyFixed(s: string)
    ensures CastKey(CastKey(s)) == CastKey(s)
  {
    TrimProperties(s);
    LowerKeepsTrimmed(Trim(s));
    TrimmedIsFixed(ToLower(Trim(s)));
    ToLowerIdempotent(Trim(s));
  }

  /** The setters of `displayName` (trim), `csmclName`, `email` and
      `cosmicalEmail` (trim and lowercase). */
  function Cast(a: Account): Account {
    a.(displayName := Trim(a.displayName),
       csmclName := CastKey(a.csmclName),
       regularEmail := CastKey(a.regularEmail),
       cosmicalEmail := if a.cosmicalEmail.Some? then Some(CastKey(a.cosmicalEmail.value)) else None)
  }

  /** The validated paths of the schema, in declaration order; the contact
      address is the schema's `email` path. */
  const Paths: seq<PathSpec> := [
    PathSpec("displayName", DisplayName, DisplayNameRules),
    PathSpec("csmclName", CsmclName, CsmclNameRules),
    PathSpec("email", RegularEmail, EmailRules),
    PathSpec("password", Password, PasswordLengthRules)]

  /** The `ValidationError` entries of a document, in path order. */
  function Errors(a: Account): seq<FieldError> {
    Validate(Paths, a)
  }

  /** What a document must satisfy to be saved: no word count, no SIM rule,
      and only the length of a plain password matters. */
  predicate Acceptable(a: Account) {
    2 <= |a.displayName| <= 50 &&
    ValidHandle(a.csmclName) &&
    EmailShape(a.regularEmail) &&
    (a.password.Plain? ==> |a.password.text| >= 8)
  }

  lemma ErrorsEmptyIff(a: Account)
    ensures Errors(a) == [] <==> Acceptable(a)
  {
    ValidateMeaning(Paths, a);
    assert Errors(a) == [] <==>
      PathPasses(Paths[0], a) && PathPasses(Paths[1], a) && PathPasses(Paths[2], a) &&
      PathPasses(Paths[3], a);
    DisplayNameLengthRule(a.displayName, a.isTest);
    CsmclNameRule(a.csmclName, a.isTest);
    EmailRule(a.regularEmail, a.isTest);
    if a.password.Plain? {
      PasswordLengthRule(a.password.text, a.isTest);
    }
  }

  /** What the schema's strict mode keeps of a document the backend's
      registrations build: they set `regularEmail`, which is not a path of
      the schema and is dropped, and leave the schema's own `email` path
      unset. The model keeps that path in `regularEmail`, so it is empty. */
  function Strict(d: Account): Account {
    d.(regularEmail := "")
  }

  /** A document without its `email` fails that path's `required` rule,
      whatever else it holds. */
  lemma MissingEmailRefused(a: Account)
    requires a.regularEmail == ""
    ensures FieldError("email", "Email is required") in Errors(a)
  {
    var tail := Paths[2..];
    assert tail[0] == PathSpec("email", RegularEmail, EmailRules);
    assert FirstFailure(EmailRules, Text(""), a.isTest) == Some("Email is required");
    assert FieldError("email", "Email is required") in Validate(tail, a);
    assert Paths[1..][1..] == tail;
    assert FieldError("email", "Email is required") in Validate(Paths[1..], a);
  }

  /** So a registration's document, cast and numbered, is always invalid. */
  lemma StrictRegistrationInvalid(d: Account, id: nat)
    ensures FieldError("email", "Email is required") in Errors(Cast(Strict(d)).(id := id))
  {
    assert Trim("") == "";
    MissingEmailRefused(Cast(Strict(d)).(id := id));
  }

  predicate SameValidatedPaths(a: Account, b: Account) {
    a.displayName == b.displayName && a.csmclName == b.csmclName &&
    a.regularEmail == b.regularEmail && ValueAt(Password, a) == ValueAt(Password, b) && a.isTest == b.isTest
  }

  /** Validation looks at nothing but the validated paths. */
  lemma ErrorsOnlyReadValidatedPaths(a: Account, b: Account)
    requires SameValidatedPaths(a, b)
    ensures Errors(a) == Errors(b)
  {
    ValidateReadsValues(Paths, a, b);
  }

  /** The backend accepts every display name whose length is right, however
      many words it has, and every SIM number. */
  lemma NoWordOrSimRule(a: Account, name: string, sim: string)
    requires Errors(a) == [] && 2 <= |name| <= 50
    ensures Errors(a.(displayName := name, simNumber := sim)) == []
  {
    ErrorsEmptyIff(a);
    ErrorsEmptyIff(a.(displayName := name, simNumber := sim));
  }

  /** The first hook awaits `bcrypt.hash` of the password whatever its
      state; on a document loaded without `+password` the path is undefined,
      and the call rejects with this message, failing the save. */
  const HashError: string := "data and salt arguments required"

  predicate HashRejects(doc: Account) {
    doc.password.Unloaded?
  }

  /** The two hooks plus `timestamps`, when the hash does not reject. The
      password is hashed whatever its state, and the address is derived
      only for a new document. */
  function PreSave(doc: Account, isNew: bool, now: Millis): Account {
    doc.(password := Hashed(doc.password),
         cosmicalEmail := if isNew && doc.csmclName != "" then Some(doc.csmclName + "@cosmical.me") else doc.cosmicalEmail,
         createdAt := if isNew then now else doc.createdAt,
         updatedAt := now)
  }

  /** Every save wraps the stored value in one more hash; nothing else but
      the address (when new) and the timestamps changes. */
  lemma PreSaveEffect(doc: Account, isNew: bool, now: Millis)
    ensures HashDepth(PreSave(doc, isNew, now).password) == HashDepth(doc.password) + 1
    ensures PreSave(doc, isNew, now).updatedAt == now
    ensures !isNew ==> PreSave(doc, isNew, now).cosmicalEmail == doc.cosmicalEmail
    ensures isNew && doc.csmclName != "" ==>
      PreSave(doc, isNew, now).cosmicalEmail == Some(doc.csmclName + "@cosmical.me")
    ensures PreSave(doc, isNew, now).(password := doc.password, cosmicalEmail := doc.cosmicalEmail,
                                      createdAt := doc.createdAt, updatedAt := doc.updatedAt) == doc
  {
  }

  lemma PreSaveKeepsValid(doc: Account, isNew: bool, now: Millis)
    requires Errors(doc) == []
    ensures Errors(PreSave(doc, isNew, now)) == []
  {
    HashKeepsValid(Paths, doc, PreSave(doc, isNew, now));
  }

  /** `n` saves wrapped around a document. */
  function SavedTimes(doc: Account, n: nat, now: Millis): Account
    decreases n
  {
    if n == 0 then doc else PreSave(SavedTimes(doc, n - 1, now), false, now)
  }

  /** Each save transforms the stored password again: after `n` saves it is
      `n` hashes deeper. */
  lemma {:induction false} RehashDepth(doc: Account, n: nat, now: Millis)
    ensures HashDepth(SavedTimes(doc, n, now).password) == HashDepth(doc.password) + n
    decreases n
  {
    if n > 0 {
      RehashDepth(doc, n - 1, now);
    }
  }

  /** So a login that worked stops working at the next save of the record. */
  lemma ResaveBreaksLogin(stored: Account, text: string, now: Millis)
    requires BcryptCompare(text, stored.password)
    ensures !BcryptCompare(text, PreSave(stored, false, now).password)
  {
    CompareNeedsDepthOne(text, stored.password);
    if BcryptCompare(text, PreSave(stored, false, now).password) {
      CompareNeedsDepthOne(text, PreSave(stored, false, now).password);
    }
  }

  /** A password the handler hashed before building the document is hashed
      twice when the new record is saved, and never compares equal. */
  lemma PreHashedNeverVerifies(doc: Account, text: string, now: Millis)
    requires doc.password == Hashed(Plain(text))
    ensures HashDepth(PreSave(doc, true, now).password) == 2
    ensures forall c :: !BcryptCompare(c, PreSave(doc, true, now).password)
  {
    var stored := PreSave(doc, true, now).password;
    assert stored == Hashed(Hashed(Plain(text)));
    assert HashDepth(Plain(text)) == 0;
    forall c ensures !BcryptCompare(c, stored) {
      if BcryptCompare(c, stored) {
        CompareNeedsDepthOne(c, stored);
      }
    }
  }
}
