/** The field patterns of the two user schemas, each stated the way its
    regular expression reads, with a lemma giving the plain characterisation
    the pattern amounts to. */
module Validators {
  import opened Common

  // ---------------------------------------------------------------- handle

  predicate IsHandleChar(c: char) { IsLower(c) || IsDigit(c) || c == '-' }

  /** `/^[a-z0-9-]+$/` */
  predicate HandlePattern(v: string) {
    |v| >= 1 && forall i :: 0 <= i < |v| ==> IsHandleChar(v[i])
  }

  /** A handle accepted by either schema: the pattern and 3 to 30 characters. */
  predicate ValidHandle(v: string) {
    HandlePattern(v) && 3 <= |v| <= 30
  }

  /** After the schema's lower-casing setter, an upper-case letter can no
      longer be the reason a handle is refused, and lower-casing again
      changes nothing. */
  lemma HandleAfterLowercase(v: string)
    requires forall i :: 0 <= i < |v| ==> IsHandleChar(v[i]) || IsUpper(v[i])
    requires 3 <= |v| <= 30
    ensures ValidHandle(ToLower(v))
    ensures ToLower(ToLower(v)) == ToLower(v)
  {
  }

  // ---------------------------------------------------------------- email

  predicate IsAddressChar(c: char) { !IsSpace(c) && c != '@' }

  predicate AddressRun(s: string) { forall i :: 0 <= i < |s| ==> IsAddressChar(s[i]) }

  /** `/^[^\s@]+@[^\s@]+\.[^\s@]+$/`: a non-empty run, `@`, a non-empty run,
      a dot, a non-empty run, no run holding a space or an `@`. The dot may be
      any dot of the part after `@`, as the regular expression backtracks. */
  predicate EmailPattern(v: string) {
    exists i, j :: 0 < i && i + 1 < j < |v| - 1 && v[i] == '@' && v[j] == '.' &&
      AddressRun(v[..i]) && AddressRun(v[i + 1..j]) && AddressRun(v[j + 1..])
  }

  function CountChar(s: string, c: char): nat {
    if s == [] then 0 else (if s[0] == c then 1 else 0) + CountChar(s[1..], c)
  }

  /** The same set of addresses described without backtracking: no spaces,
      exactly one `@`, not first, and a dot strictly inside the domain part. */
  predicate EmailShape(v: string) {
    NoSpace(v) && CountChar(v, '@') == 1 &&
    exists i :: 0 < i < |v| && v[i] == '@' &&
      exists j :: i + 1 < j < |v| - 1 && v[j] == '.'
  }

  lemma {:induction false} CountCharSplit(s: string, c: char, i: nat)
    requires i <= |s|
    ensures CountChar(s, c) == CountChar(s[..i], c) + CountChar(s[i..], c)
    decreases i
  {
    if i > 0 {
      CountCharSplit(s[1..], c, i - 1);
      assert s[1..][..i - 1] == s[..i][1..];
      assert s[1..][i - 1..] == s[i..];
    }
  }

  lemma {:induction false} CountCharZero(s: string, c: char)
    ensures CountChar(s, c) == 0 <==> forall k :: 0 <= k < |s| ==> s[k] != c
  {
    if s != [] {
      CountCharZero(s[1..], c);
      assert forall k :: 1 <= k < |s| ==> s[k] == s[1..][k - 1];
    }
  }

  /** The `@`s of `v` split at position `i`, which holds one. */
  lemma CountAround(v: string, i: nat)
    requires i < |v| && v[i] == '@'
    ensures CountChar(v, '@') == CountChar(v[..i], '@') + 1 + CountChar(v[i + 1..], '@')
  {
    CountCharSplit(v, '@', i);
    CountCharSplit(v[i..], '@', 1);
    assert v[i..][1..] == v[i + 1..];
    assert v[i..][..1] == [v[i]];
  }

  lemma RunOfSlice(v: string, a: nat, b: nat)
    requires a <= b <= |v|
    ensures AddressRun(v[a..b]) <==> forall k :: a <= k < b ==> IsAddressChar(v[k])
  {
    assert forall k :: a <= k < b ==> v[a..b][k - a] == v[k];
  }

  lemma NoAtOfSlice(v: string, a: nat)
    requires a <= |v|
    ensures CountChar(v[a..], '@') == 0 <==> forall k :: a <= k < |v| ==> v[k] != '@'
  {
    CountCharZero(v[a..], '@');
    assert forall k :: a <= k < |v| ==> v[a..][k - a] == v[k];
  }

  lemma NoAtOfPrefix(v: string, b: nat)
    requires b <= |v|
    ensures CountChar(v[..b], '@') == 0 <==> forall k :: 0 <= k < b ==> v[k] != '@'
  {
    CountCharZero(v[..b], '@');
    assert forall k :: 0 <= k < b ==> v[..b][k] == v[k];
  }

  /** Three address runs around an `@` at `i` and a dot at `j` leave no
      character other than that `@` outside the address alphabet. */
  lemma RunsCover(v: string, i: nat, j: nat)
    requires 0 < i && i + 1 < j < |v| - 1 && v[j] == '.'
    requires AddressRun(v[..i]) && AddressRun(v[i + 1..j]) && AddressRun(v[j + 1..])
    ensures forall k :: 0 <= k < |v| && k != i ==> IsAddressChar(v[k])
  {
    assert v[..i] == v[0..i];
    assert v[j + 1..] == v[j + 1..|v|];
    RunOfSlice(v, 0, i);
    RunOfSlice(v, i + 1, j);
    RunOfSlice(v, j + 1, |v|);
  }

  lemma EmailPatternGivesShape(v: string)
    requires EmailPattern(v)
    ensures EmailShape(v)
  {
    var i, j :| 0 < i && i + 1 < j < |v| - 1 && v[i] == '@' && v[j] == '.' &&
      AddressRun(v[..i]) && AddressRun(v[i + 1..j]) && AddressRun(v[j + 1..]);
    RunsCover(v, i, j);
    assert NoSpace(v);
    CountAround(v, i);
    NoAtOfPrefix(v, i);
    NoAtOfSlice(v, i + 1);
    assert CountChar(v, '@') == 1;
  }

  /** Conversely the three runs are address runs when every character
      other than the `@` is in the address alphabet. */
  lemma RunsOf(v: string, i: nat, j: nat)
    requires 0 < i && i + 1 < j < |v| - 1
    requires forall k :: 0 <= k < |v| && k != i ==> IsAddressChar(v[k])
    ensures AddressRun(v[..i]) && AddressRun(v[i + 1..j]) && AddressRun(v[j + 1..])
  {
    assert v[..i] == v[0..i];
    assert v[j + 1..] == v[j + 1..|v|];
    RunOfSlice(v, 0, i);
    RunOfSlice(v, i + 1, j);
    RunOfSlice(v, j + 1, |v|);
  }

  lemma EmailShapeGivesPattern(v: string)
    requires EmailShape(v)
    ensures EmailPattern(v)
  {
    var i :| 0 < i < |v| && v[i] == '@' && exists j :: i + 1 < j < |v| - 1 && v[j] == '.';
    var j :| i + 1 < j < |v| - 1 && v[j] == '.';
    CountAround(v, i);
    NoAtOfPrefix(v, i);
    NoAtOfSlice(v, i + 1);
    assert forall k :: 0 <= k < |v| && k != i ==> IsAddressChar(v[k]);
    RunsOf(v, i, j);
  }

  /** The address pattern of both schemas holds exactly of the strings with
      no space, one `@` that is not first, and a dot strictly inside what
      follows it. */
  lemma EmailPatternShape(v: string)
    ensures EmailPattern(v) <==> EmailShape(v)
  {
    if EmailPattern(v) { EmailPatternGivesShape(v); }
    if EmailShape(v) { EmailShapeGivesPattern(v); }
  }

  // ---------------------------------------------------------------- SIM number

  predicate AllDigits(s: string) { forall i :: 0 <= i < |s| ==> IsDigit(s[i]) }

  /** `/^\d{10}$/` */
  predicate TenDigitPattern(v: string) { |v| == 10 && AllDigits(v) }

  /** `/^\+?[1-9]\d{1,14}$/` */
  predicate InternationalPattern(v: string) {
    var r := if |v| > 0 && v[0] == '+' then v[1..] else v;
    2 <= |r| <= 15 && '1' <= r[0] <= '9' && AllDigits(r[1..])
  }

  /** The two SIM-number checks together accept exactly ten digits whose
      first digit is not zero. */
  lemma SimPatterns(v: string)
    ensures TenDigitPattern(v) && InternationalPattern(v) <==>
            |v| == 10 && AllDigits(v) && v[0] != '0'
  {
    if |v| == 10 && AllDigits(v) {
      assert v[0] != '+';
      assert AllDigits(v[1..]) by {
        forall k | 0 <= k < 9 ensures IsDigit(v[1..][k]) { assert v[1..][k] == v[k + 1]; }
      }
    }
  }

  // ---------------------------------------------------------------- password

  predicate IsPasswordSpecial(c: char) {
    c in "!@#$%^&*()_+-=[]{};:'\",.<>/?"
  }

  predicate IsPasswordChar(c: char) {
    IsLower(c) || IsUpper(c) || IsDigit(c) || IsPasswordSpecial(c)
  }

  /** The characters the regular expression's `.` does not match. */
  predicate IsLineTerminator(c: char) {
    c == '\n' || c == '\r' || c as int == 0x2028 || c as int == 0x2029
  }

  /** `(?=.*X)`: some character in class `X` is preceded only by characters
      that `.` matches. */
  predicate Lookahead(v: string, x: char -> bool) {
    exists i :: 0 <= i < |v| && x(v[i]) && forall k :: 0 <= k < i ==> !IsLineTerminator(v[k])
  }

  /** The server schema's password expression, read literally: four
      lookaheads (lower, upper, digit, special) and a body of at least eight
      allowed characters. */
  predicate PasswordPattern(v: string) {
    Lookahead(v, IsLower) && Lookahead(v, IsUpper) && Lookahead(v, IsDigit) &&
    Lookahead(v, IsPasswordSpecial) &&
    |v| >= 8 && forall i :: 0 <= i < |v| ==> IsPasswordChar(v[i])
  }

  predicate HasChar(v: string, x: char -> bool) {
    exists i :: 0 <= i < |v| && x(v[i])
  }

  /** At least eight allowed characters including a lower-case letter, an
      upper-case letter, a digit and a special: the body's character class
      leaves out line terminators, so the lookaheads' restriction never bites. */
  lemma PasswordPatternPlain(v: string)
    ensures PasswordPattern(v) <==>
      |v| >= 8 && (forall i :: 0 <= i < |v| ==> IsPasswordChar(v[i])) &&
      HasChar(v, IsLower) && HasChar(v, IsUpper) && HasChar(v, IsDigit) && HasChar(v, IsPasswordSpecial)
  {
    if (forall i :: 0 <= i < |v| ==> IsPasswordChar(v[i])) {
      assert forall k :: 0 <= k < |v| ==> !IsLineTerminator(v[k]) by {
        forall k | 0 <= k < |v| ensures !IsLineTerminator(v[k]) {
          assert IsPasswordChar(v[k]);
        }
      }
    }
  }
}
