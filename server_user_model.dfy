/** The server's user schema: the setters applied when a document is built,
    the validators of each path, and the three pre-save hooks (hash the
    password when it changed, derive the cosmical address once, stamp
    `updatedAt`). */
module ServerUserModel {
  import opened Common
  import opened Validators
  import opened Accounts
  import opened FieldRules

  /** The `trim` and `lowercase` setters of the schema's string paths. */
  function Cast(a: Account): Account {
    a.(displayName := Trim(a.displayName),
       csmclName := ToLower(Trim(a.csmclName)),
       regularEmail := ToLower(Trim(a.regularEmail)),
       simNumber := Trim(a.simNumber),
       cosmicalEmail := if a.cosmicalEmail.Some? then Some(ToLower(Trim(a.cosmicalEmail.value))) else None)
  }

  /** `displayName`: the shared length chain, then the word-count validator:
      the trimmed value split on runs of whitespace has 1 to 3 pieces. */
  const WordCount := Custom(OneToThreeWords, "Display name must be between 1 and 3 words")
  const DisplayNameChain: seq<Rule> := DisplayNameRules + [WordCount]

  /** `simNumber`: required, `/^\d{10}$/`, then the international pattern. */
  const SimNumberChain: seq<Rule> := [
    Required("SIM number is required"),
    Match(TenDigits, "Please enter a valid 10-digit SIM number"),
    Custom(International, "Please enter a valid phone number")]

  /** `password`: the shared length chain, then the complexity pattern, which
      a test account skips. */
  const PasswordChain: seq<Rule> := PasswordLengthRules + [
    Custom(StrongPassword, "Password must contain at least one uppercase letter, one lowercase letter, one number, and one special character")]

  /** The validated paths of the schema, in declaration order. */
  const Paths: seq<PathSpec> := [
    PathSpec("displayName", DisplayName, DisplayNameChain),
    PathSpec("csmclName", CsmclName, CsmclNameRules),
    PathSpec("regularEmail", RegularEmail, EmailRules),
    PathSpec("simNumber", SimNumber, SimNumberChain),
    PathSpec("password", Password, PasswordChain)]

  /** The `ValidationError` entries of a document, in path order. */
  function Errors(a: Account): seq<FieldError> {
    Validate(Paths, a)
  }

  /** A plain password the schema accepts: eight or more characters and, for
      a real account, only allowed characters with one of each class. */
  predicate PasswordAcceptable(p: Secret, isTest: bool) {
    match p
    case Hashed(_) => true
    case Unloaded => true
    case Plain(t) =>
      |t| >= 8 &&
      (isTest || ((forall i :: 0 <= i < |t| ==> IsPasswordChar(t[i])) &&
                  HasChar(t, IsLower) && HasChar(t, IsUpper) && HasChar(t, IsDigit) &&
                  HasChar(t, IsPasswordSpecial)))
  }

  /** What a document must satisfy to be saved, stated without regular
      expressions. */
  predicate Acceptable(a: Account) {
    2 <= |a.displayName| <= 50 && 1 <= |SplitSpaces(Trim(a.displayName))| <= 3 &&
    ValidHandle(a.csmclName) &&
    EmailShape(a.regularEmail) &&
    |a.simNumber| == 10 && AllDigits(a.simNumber) && a.simNumber[0] != '0' &&
    PasswordAcceptable(a.password, a.isTest)
  }

  lemma DisplayNameRule(v: string, t: bool)
    ensures AllPass(DisplayNameChain, Text(v), t) <==> 2 <= |v| <= 50 && 1 <= |SplitSpaces(Trim(v))| <= 3
  {
    AllPassAppend(DisplayNameRules, [WordCount], Text(v), t);
    DisplayNameLengthRule(v, t);
    AllPassOne(WordCount, Text(v), t);
    assert Passes(WordCount, Text(v), t) <==> 1 <= |SplitSpaces(Trim(v))| <= 3;
  }

  /** Both SIM-number checks together accept exactly ten digits that do not
      start with zero. */
  lemma SimNumberRule(v: string, t: bool)
    ensures AllPass(SimNumberChain, Text(v), t) <==> |v| == 10 && AllDigits(v) && v[0] != '0'
  {
    assert AllPass(SimNumberChain, Text(v), t) <==>
      Passes(SimNumberChain[0], Text(v), t) && Passes(SimNumberChain[1], Text(v), t) &&
      Passes(SimNumberChain[2], Text(v), t);
    SimPatterns(v);
  }

  lemma PasswordRule(p: Secret, t: bool)
    ensures AllPass(PasswordChain, if p.Plain? then Text(p.text) else Digest, t) <==> PasswordAcceptable(p, t)
  {
    if p.Plain? {
      AllPassAppend(PasswordLengthRules, [PasswordChain[2]], Text(p.text), t);
      PasswordLengthRule(p.text, t);
      PasswordPatternPlain(p.text);
    }
  }

  lemma ErrorsByPath(a: Account)
    ensures Errors(a) == [] <==>
      AllPass(DisplayNameChain, Text(a.displayName), a.isTest) &&
      AllPass(CsmclNameRules, Text(a.csmclName), a.isTest) &&
      AllPass(EmailRules, Text(a.regularEmail), a.isTest) &&
      AllPass(SimNumberChain, Text(a.simNumber), a.isTest) &&
      AllPass(PasswordChain, ValueAt(Password, a), a.isTest)
  {
    ValidateMeaning(Paths, a);
    assert Errors(a) == [] <==>
      PathPasses(Paths[0], a) && PathPasses(Paths[1], a) && PathPasses(Paths[2], a) &&
      PathPasses(Paths[3], a) && PathPasses(Paths[4], a);
  }

  /** Validation passes exactly for the acceptable documents. */
  lemma ErrorsEmptyIff(a: Account)
    ensures Errors(a) == [] <==> Acceptable(a)
  {
    ErrorsByPath(a);
    DisplayNameRule(a.displayName, a.isTest);
    CsmclNameRule(a.csmclName, a.isTest);
    EmailRule(a.regularEmail, a.isTest);
    SimNumberRule(a.simNumber, a.isTest);
    assert ValueAt(Password, a) == if a.password.Plain? then Text(a.password.text) else Digest;
    PasswordRule(a.password, a.isTest);
  }

  /** The validated paths of two documents agree. */
  predicate SameValidatedPaths(a: Account, b: Account) {
    a.displayName == b.displayName && a.csmclName == b.csmclName &&
    a.regularEmail == b.regularEmail && a.simNumber == b.simNumber &&
    ValueAt(Password, a) == ValueAt(Password, b) && a.isTest == b.isTest
  }

  /** Validation looks at nothing but the validated paths. */
  lemma ErrorsOnlyReadValidatedPaths(a: Account, b: Account)
    requires SameValidatedPaths(a, b)
    ensures Errors(a) == Errors(b)
  {
    ValidateReadsValues(Paths, a, b);
  }

  /** Casting trims every string path, leaves no upper-case letter in the
      handle or the address, and casting again changes nothing: the setters
      that run again on a reassigned value are harmless. */
  lemma CastProperties(a: Account)
    ensures IsTrimmed(Cast(a).displayName) && IsTrimmed(Cast(a).csmclName)
    ensures IsTrimmed(Cast(a).regularEmail) && IsTrimmed(Cast(a).simNumber)
    ensures forall i :: 0 <= i < |Cast(a).csmclName| ==> !IsUpper(Cast(a).csmclName[i])
    ensures Cast(Cast(a)) == Cast(a)
  {
    TrimFixed(a.displayName);
    TrimFixed(a.simNumber);
    LowerTrimFixed(a.csmclName);
    LowerTrimFixed(a.regularEmail);
    CastIdempotent(a);
  }

  lemma CastIdempotent(a: Account)
    ensures Cast(Cast(a)) == Cast(a)
  {
    var c := Cast(a);
    TrimFixed(a.displayName);
    TrimFixed(a.simNumber);
    LowerTrimFixed(a.csmclName);
    LowerTrimFixed(a.regularEmail);
    if a.cosmicalEmail.Some? {
      LowerTrimFixed(a.cosmicalEmail.value);
    }
    var d := Cast(c);
    assert d.displayName == c.displayName;
    assert d.csmclName == c.csmclName;
    assert d.regularEmail == c.regularEmail;
    assert d.simNumber == c.simNumber;
    assert d.cosmicalEmail == c.cosmicalEmail;
  }

  lemma TrimFixed(s: string)
    ensures IsTrimmed(Trim(s)) && Trim(Trim(s)) == Trim(s)
  {
    TrimProperties(s);
  }

  /** Lower-casing keeps a trimmed string trimmed, so trim-then-lowercase is
      a fixed point of itself. */
  lemma LowerTrimFixed(s: string)
    ensures IsTrimmed(ToLower(Trim(s)))
    ensures ToLower(Trim(ToLower(Trim(s)))) == ToLower(Trim(s))
  {
    TrimProperties(s);
    LowerKeepsTrimmed(Trim(s));
    TrimmedIsFixed(ToLower(Trim(s)));
    ToLowerIdempotent(Trim(s));
  }

  /** The three pre-save hooks, in registration order. `stored` is the
      record as the store holds it, absent for a new document. The password
      counts as modified when the document is new or a value was assigned
      that differs from the stored one; an unselected path is not modified.
      Only modified paths are written back, so an unmodified password stays
      as stored. */
  function PreSave(doc: Account, stored: Option<Account>, now: Millis): Account {
    var isNew := stored.None?;
    var modified := isNew || (!doc.password.Unloaded? && stored.value.password != doc.password);
    doc.(password := if modified then Hashed(doc.password) else stored.value.password,
         cosmicalEmail := if isNew && doc.csmclName != "" then Some(doc.csmclName + "@cosmical.me") else doc.cosmicalEmail,
         createdAt := if isNew then now else doc.createdAt,
         updatedAt := now)
  }

  /** What the hooks change, and that they change nothing else. */
  lemma PreSaveEffect(doc: Account, stored: Option<Account>, now: Millis)
    ensures PreSave(doc, stored, now).updatedAt == now
    ensures stored.Some? && (doc.password.Unloaded? || stored.value.password == doc.password) ==>
      PreSave(doc, stored, now).password == stored.value.password
    ensures (stored.None? || (!doc.password.Unloaded? && stored.value.password != doc.password)) ==>
      PreSave(doc, stored, now).password == Hashed(doc.password)
    ensures stored.Some? ==> PreSave(doc, stored, now).cosmicalEmail == doc.cosmicalEmail
    ensures stored.None? && doc.csmclName != "" ==>
      PreSave(doc, stored, now).cosmicalEmail == Some(doc.csmclName + "@cosmical.me")
    ensures PreSave(doc, stored, now).(password := doc.password, cosmicalEmail := doc.cosmicalEmail,
                                       createdAt := doc.createdAt, updatedAt := doc.updatedAt) == doc
  {
  }

  /** The hooks keep a valid document valid: the only validated path they
      touch is the password, which becomes a hash or the stored hash. */
  lemma PreSaveKeepsValid(doc: Account, stored: Option<Account>, now: Millis)
    requires Errors(doc) == []
    requires stored.Some? ==> stored.value.password.Hashed?
    ensures Errors(PreSave(doc, stored, now)) == []
  {
    PreSaveEffect(doc, stored, now);
    HashKeepsValid(Paths, doc, PreSave(doc, stored, now));
  }

  /** Whether the password was loaded or not, a save that does not assign
      it writes the same record. */
  lemma UnloadedAsLoaded(doc: Account, stored: Account, now: Millis)
    requires doc.password == stored.password
    ensures PreSave(doc.(password := Unloaded), Some(stored), now) == PreSave(doc, Some(stored), now)
  {
  }

  /** A password given in plain text logs in after the first save. */
  lemma NewPasswordVerifies(doc: Account, text: string, now: Millis)
    requires doc.password == Plain(text)
    ensures BcryptCompare(text, PreSave(doc, None, now).password)
  {
  }

  /** Re-saving a record whose password was not touched keeps every login
      that worked, however often it is saved. */
  lemma ResaveKeepsLogin(stored: Account, text: string, now: Millis)
    requires BcryptCompare(text, stored.password)
    ensures BcryptCompare(text, PreSave(stored, Some(stored), now).password)
  {
  }

  /** A password replaced in plain text is what logs in afterwards. */
  lemma ChangedPasswordVerifies(doc: Account, stored: Account, text: string, now: Millis)
    requires doc.password == Plain(text) && stored.password != doc.password
    ensures BcryptCompare(text, PreSave(doc, Some(stored), now).password)
  {
  }
}
