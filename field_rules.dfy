/** Mongoose validation as both schemas declare it: each path carries a chain
    of validators, run in declaration order with `required` first, and the
    path reports the message of the first one that fails; a path that passes
    contributes nothing to the `ValidationError`. */
module FieldRules {
  import opened Common
  import opened Validators
  import opened Accounts

  /** One entry of a Mongoose `ValidationError`: a path and its message. */
  datatype FieldError = FieldError(path: string, message: string)

  /** The validated paths of the account record. */
  datatype Path = DisplayName | CsmclName | RegularEmail | SimNumber | Password

  /** What a validator sees at a path: a string, or nothing it checks: a
      stored bcrypt hash, or a password path the query did not select, which
      Mongoose leaves out of validation. */
  datatype Value = Text(s: string) | Digest

  function ValueAt(p: Path, a: Account): Value {
    match p
    case DisplayName => Text(a.displayName)
    case CsmclName => Text(a.csmclName)
    case RegularEmail => Text(a.regularEmail)
    case SimNumber => Text(a.simNumber)
    case Password => if a.password.Plain? then Text(a.password.text) else Digest
  }

  /** The tests behind the schemas' `match` and `validate` options. */
  datatype Pattern = HandleChars | Address | TenDigits | International | OneToThreeWords | StrongPassword

  predicate PatternHolds(p: Pattern, s: string, isTest: bool) {
    match p
    case HandleChars => HandlePattern(s)
    case Address => EmailPattern(s)
    case TenDigits => TenDigitPattern(s)
    case International => InternationalPattern(s)
    case OneToThreeWords => 1 <= |SplitSpaces(Trim(s))| <= 3
    case StrongPassword => isTest || PasswordPattern(s)
  }

  datatype Rule =
    | Required(message: string)
    | MinLength(n: nat, message: string)
    | MaxLength(n: nat, message: string)
    | Match(pattern: Pattern, message: string)    // `match`: an empty string always passes
    | Custom(pattern: Pattern, message: string)   // `validate: { validator, message }`

  /** A string is present for `required` when it is not empty. A stored hash
      (60 characters of the bcrypt alphabet) is taken to pass every rule. */
  predicate Passes(r: Rule, v: Value, isTest: bool) {
    match v
    case Digest => true
    case Text(s) =>
      match r
      case Required(_) => s != ""
      case MinLength(n, _) => |s| >= n
      case MaxLength(n, _) => |s| <= n
      case Match(p, _) => s == "" || PatternHolds(p, s, isTest)
      case Custom(p, _) => PatternHolds(p, s, isTest)
  }

  predicate AllPass(rules: seq<Rule>, v: Value, isTest: bool) {
    forall k :: 0 <= k < |rules| ==> Passes(rules[k], v, isTest)
  }

  /** Rule `k` is the first of the chain to fail. */
  predicate FailsFirstAt(rules: seq<Rule>, v: Value, isTest: bool, k: int) {
    0 <= k < |rules| && !Passes(rules[k], v, isTest) &&
    forall j :: 0 <= j < k ==> Passes(rules[j], v, isTest)
  }

  /** The message of the first rule of the chain that fails. */
  function FirstFailure(rules: seq<Rule>, v: Value, isTest: bool): Option<string> {
    if rules == [] then None
    else if !Passes(rules[0], v, isTest) then Some(rules[0].message)
    else FirstFailure(rules[1..], v, isTest)
  }

  /** A chain reports nothing exactly when every rule passes, and otherwise
      the message of the first rule that fails. */
  lemma {:induction false} FirstFailureMeaning(rules: seq<Rule>, v: Value, isTest: bool)
    ensures FirstFailure(rules, v, isTest).None? <==> AllPass(rules, v, isTest)
    ensures FirstFailure(rules, v, isTest).Some? ==> exists k ::
      FailsFirstAt(rules, v, isTest, k) && FirstFailure(rules, v, isTest).value == rules[k].message
  {
    if rules != [] {
      FirstFailureMeaning(rules[1..], v, isTest);
      assert forall j :: 0 < j < |rules| ==> rules[j] == rules[1..][j - 1];
      if !Passes(rules[0], v, isTest) {
        assert FailsFirstAt(rules, v, isTest, 0);
      } else if FirstFailure(rules[1..], v, isTest).Some? {
        var k :| FailsFirstAt(rules[1..], v, isTest, k) &&
          FirstFailure(rules[1..], v, isTest).value == rules[1..][k].message;
        assert FailsFirstAt(rules, v, isTest, k + 1);
      }
    }
  }

  /** A path of a schema: its name in error reports, what it reads, its chain. */
  datatype PathSpec = PathSpec(name: string, path: Path, rules: seq<Rule>)

  predicate PathPasses(spec: PathSpec, a: Account) {
    AllPass(spec.rules, ValueAt(spec.path, a), a.isTest)
  }

  /** The entries of the `ValidationError` of a document, in path order. */
  function Validate(spec: seq<PathSpec>, a: Account): seq<FieldError> {
    if spec == [] then []
    else
      var e := FirstFailure(spec[0].rules, ValueAt(spec[0].path, a), a.isTest);
      (if e.Some? then [FieldError(spec[0].name, e.value)] else []) + Validate(spec[1..], a)
  }

  /** At most one entry per path, each naming a path of the schema, and
      none exactly when every path passes. */
  lemma {:induction false} ValidateMeaning(spec: seq<PathSpec>, a: Account)
    ensures |Validate(spec, a)| <= |spec|
    ensures Validate(spec, a) == [] <==> forall k :: 0 <= k < |spec| ==> PathPasses(spec[k], a)
    ensures forall e :: e in Validate(spec, a) ==> exists k :: 0 <= k < |spec| && spec[k].name == e.path
  {
    if spec != [] {
      ValidateMeaning(spec[1..], a);
      FirstFailureMeaning(spec[0].rules, ValueAt(spec[0].path, a), a.isTest);
      assert forall k :: 0 < k < |spec| ==> spec[k] == spec[1..][k - 1];
    }
  }

  /** Validation reads nothing but the values at the paths and the test flag. */
  lemma {:induction false} ValidateReadsValues(spec: seq<PathSpec>, a: Account, b: Account)
    requires forall k :: 0 <= k < |spec| ==> ValueAt(spec[k].path, a) == ValueAt(spec[k].path, b)
    requires a.isTest == b.isTest
    ensures Validate(spec, a) == Validate(spec, b)
  {
    if spec != [] {
      assert forall k :: 0 < k < |spec| ==> spec[k] == spec[1..][k - 1];
      ValidateReadsValues(spec[1..], a, b);
    }
  }

  /** A valid document stays valid when every path but the password keeps
      its value and the password is kept, replaced by a hash or unselected. */
  lemma HashKeepsValid(spec: seq<PathSpec>, a: Account, b: Account)
    requires Validate(spec, a) == [] && a.isTest == b.isTest
    requires a.displayName == b.displayName && a.csmclName == b.csmclName
    requires a.regularEmail == b.regularEmail && a.simNumber == b.simNumber
    requires b.password == a.password || !b.password.Plain?
    ensures Validate(spec, b) == []
  {
    ValidateMeaning(spec, a);
    ValidateMeaning(spec, b);
    forall k | 0 <= k < |spec| ensures PathPasses(spec[k], b) {
      assert PathPasses(spec[k], a);
      if spec[k].path != Password || b.password == a.password {
        assert ValueAt(spec[k].path, b) == ValueAt(spec[k].path, a);
      }
    }
  }

  // ---------------------------------------------------------------- the shared chains

  /** `displayName`: required, minlength 2, maxlength 50. */
  const DisplayNameRules: seq<Rule> := [
    Required("Display name is required"),
    MinLength(2, "Display name must be at least 2 characters long"),
    MaxLength(50, "Display name cannot exceed 50 characters")]

  /** `csmclName`: required, the handle pattern, minlength 3, maxlength 30. */
  const CsmclNameRules: seq<Rule> := [
    Required("CSMCL name is required"),
    Match(HandleChars, "CSMCL name can only contain lowercase letters, numbers, and hyphens"),
    MinLength(3, "CSMCL name must be at least 3 characters long"),
    MaxLength(30, "CSMCL name cannot exceed 30 characters")]

  /** The contact address: required, the address pattern. */
  const EmailRules: seq<Rule> := [
    Required("Email is required"),
    Match(Address, "Please enter a valid email address")]

  /** `password`: required, minlength 8. */
  const PasswordLengthRules: seq<Rule> := [
    Required("Password is required"),
    MinLength(8, "Password must be at least 8 characters long")]

  lemma DisplayNameLengthRule(v: string, t: bool)
    ensures AllPass(DisplayNameRules, Text(v), t) <==> 2 <= |v| <= 50
  {
    assert AllPass(DisplayNameRules, Text(v), t) <==>
      Passes(DisplayNameRules[0], Text(v), t) && Passes(DisplayNameRules[1], Text(v), t) &&
      Passes(DisplayNameRules[2], Text(v), t);
  }

  /** A string passes the handle chain exactly when it is a valid handle. */
  lemma CsmclNameRule(v: string, t: bool)
    ensures AllPass(CsmclNameRules, Text(v), t) <==> ValidHandle(v)
  {
    assert AllPass(CsmclNameRules, Text(v), t) <==>
      Passes(CsmclNameRules[0], Text(v), t) && Passes(CsmclNameRules[1], Text(v), t) &&
      Passes(CsmclNameRules[2], Text(v), t) && Passes(CsmclNameRules[3], Text(v), t);
  }

  /** An address passes its chain exactly when it has the plain shape of
      `EmailShape`: no space, one `@` that is not first, a dot strictly inside
      the domain. */
  lemma EmailRule(v: string, t: bool)
    ensures AllPass(EmailRules, Text(v), t) <==> EmailShape(v)
  {
    assert AllPass(EmailRules, Text(v), t) <==>
      Passes(EmailRules[0], Text(v), t) && Passes(EmailRules[1], Text(v), t);
    EmailPatternShape(v);
  }

  lemma PasswordLengthRule(v: string, t: bool)
    ensures AllPass(PasswordLengthRules, Text(v), t) <==> |v| >= 8
  {
    assert AllPass(PasswordLengthRules, Text(v), t) <==>
      Passes(PasswordLengthRules[0], Text(v), t) && Passes(PasswordLengthRules[1], Text(v), t);
  }

  /** A chain extended at the end passes exactly when both parts pass. */
  lemma AllPassOne(r: Rule, v: Value, t: bool)
    ensures AllPass([r], v, t) <==> Passes(r, v, t)
  {
    assert [r][0] == r;
  }

  lemma AllPassAppend(a: seq<Rule>, b: seq<Rule>, v: Value, t: bool)
    ensures AllPass(a + b, v, t) <==> AllPass(a, v, t) && AllPass(b, v, t)
  {
    assert forall k :: 0 <= k < |a| ==> (a + b)[k] == a[k];
    assert forall k :: 0 <= k < |b| ==> (a + b)[|a| + k] == b[k];
  }
}
