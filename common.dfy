/** Shared vocabulary of the model: optional values, time in milliseconds, and
    the ASCII string operations the JavaScript code relies on (`toLowerCase`,
    `trim`, `split`, `join`, `includes`, `parseInt`, hex encoding). Only the
    ASCII part of JavaScript's character classes is modelled. */
module Common {

  datatype Option<T> = None | Some(value: T)

  /** Instants and durations in milliseconds, as `Date.now()` gives them. */
  type Millis = int

  const HourMs: int := 60 * 60 * 1000
  const DayMs: int := 24 * HourMs

  /** `x || d` on a number: `d` when `x` is absent or 0. */
  function CodeOr(x: Option<int>, d: int): (r: int)
    ensures r == d || (x.Some? && r == x.value && r != 0)
    ensures r == d <== (x.None? || x.value == 0)
  {
    if x.Some? && x.value != 0 then x.value else d
  }

  /** `s || d` on a string: `d` when `s` is absent or empty. */
  function TextOr(s: Option<string>, d: string): (r: string)
    ensures r == d || (s.Some? && r == s.value && r != "")
    ensures r == d <== (s.None? || s.value == "")
  {
    if s.Some? && s.value != "" then s.value else d
  }

  /** What `execAsync(command)` settles to: the command's standard output,
      or the message of the error it was rejected with. */
  datatype ExecResult = Done(stdout: string) | Failed(message: string)

  predicate IsDigit(c: char) { '0' <= c <= '9' }
  predicate IsLower(c: char) { 'a' <= c <= 'z' }
  predicate IsUpper(c: char) { 'A' <= c <= 'Z' }

  /** The ASCII members of the regular-expression class `\s`. */
  predicate IsSpace(c: char) {
    c == ' ' || c == '\t' || c == '\n' || c == '\r' || c as int == 11 || c as int == 12
  }

  predicate NoSpace(s: string) { forall i :: 0 <= i < |s| ==> !IsSpace(s[i]) }

  // ---------------------------------------------------------------- case

  function ToLowerChar(c: char): (r: char)
    ensures !IsUpper(r)
    ensures IsUpper(c) ==> r as int == c as int + 32
    ensures !IsUpper(c) ==> r == c
  {
    if IsUpper(c) then (c as int + 32) as char else c
  }

  /** `String.prototype.toLowerCase` on ASCII letters. */
  function ToLower(s: string): (r: string)
    ensures |r| == |s|
    ensures forall i :: 0 <= i < |s| ==> r[i] == ToLowerChar(s[i])
  {
    seq(|s|, i requires 0 <= i < |s| => ToLowerChar(s[i]))
  }

  lemma ToLowerIdempotent(s: string)
    ensures ToLower(ToLower(s)) == ToLower(s)
  {
  }

  // ---------------------------------------------------------------- trim

  function TrimStart(s: string): (r: string)
    ensures |r| <= |s|
    ensures r == [] || !IsSpace(r[0])
    ensures |s| > 0 && IsSpace(s[0]) ==> |r| < |s|
    ensures forall i :: 0 <= i < |s| - |r| ==> IsSpace(s[i])
    decreases |s|
  {
    if |s| > 0 && IsSpace(s[0]) then
      var r := TrimStart(s[1..]);
      assert forall i :: 1 <= i < |s| - |r| ==> s[i] == s[1..][i - 1];
      r
    else s
  }

  function TrimEnd(s: string): (r: string)
    ensures |r| <= |s|
    ensures r == [] || !IsSpace(r[|r| - 1])
    ensures forall i :: |r| <= i < |s| ==> IsSpace(s[i])
    decreases |s|
  {
    if |s| > 0 && IsSpace(s[|s| - 1]) then TrimEnd(s[..|s| - 1]) else s
  }

  /** What `TrimStart` leaves is a suffix of its input. */
  lemma {:induction false} TrimStartSuffix(s: string)
    ensures TrimStart(s) == s[|s| - |TrimStart(s)|..]
    decreases |s|
  {
    if |s| > 0 && IsSpace(s[0]) {
      TrimStartSuffix(s[1..]);
      assert s[1..][|s| - 1 - |TrimStart(s)|..] == s[|s| - |TrimStart(s)|..];
    }
  }

  /** What `TrimEnd` leaves is a prefix of its input. */
  lemma {:induction false} TrimEndPrefix(s: string)
    ensures TrimEnd(s) == s[..|TrimEnd(s)|]
    decreases |s|
  {
    if |s| > 0 && IsSpace(s[|s| - 1]) {
      TrimEndPrefix(s[..|s| - 1]);
      assert s[..|s| - 1][..|TrimEnd(s)|] == s[..|TrimEnd(s)|];
    }
  }

  /** `String.prototype.trim`: the longest infix with no surrounding spaces. */
  function Trim(s: string): (r: string)
  {
    TrimEnd(TrimStart(s))
  }

  /** A string is trimmed when it neither starts nor ends with a space. */
  predicate IsTrimmed(s: string) {
    s == [] || (!IsSpace(s[0]) && !IsSpace(s[|s| - 1]))
  }

  /** Trimming removes only spaces, from both ends, and leaves a trimmed
      infix of the input; trimming again changes nothing. */
  lemma TrimProperties(s: string)
    ensures IsTrimmed(Trim(s))
    ensures exists i :: OccursAt(s, Trim(s), i)
    ensures Trim(Trim(s)) == Trim(s)
  {
    var a := TrimStart(s);
    var r := TrimEnd(a);
    var i := |s| - |a|;
    TrimStartSuffix(s);
    TrimEndPrefix(a);
    assert r == s[i..i + |r|];
    assert OccursAt(s, r, i);
    if r != [] {
      assert r[0] == a[0];
    }
    TrimmedIsFixed(r);
  }

  /** Lower-casing changes no space and no non-space into one. */
  lemma LowerKeepsTrimmed(t: string)
    requires IsTrimmed(t)
    ensures IsTrimmed(ToLower(t))
  {
    if t != [] {
      assert ToLower(t)[0] == ToLowerChar(t[0]);
      assert ToLower(t)[|t| - 1] == ToLowerChar(t[|t| - 1]);
    }
  }

  lemma TrimmedIsFixed(s: string)
    requires IsTrimmed(s)
    ensures Trim(s) == s
  {
  }

  // ---------------------------------------------------------------- split on whitespace runs

  /** `s.split(/\s+/)`: the pieces between maximal runs of spaces, including
      an empty first (last) piece when `s` starts (ends) with a space. */
  function SplitSpaces(s: string): (r: seq<string>)
    ensures |r| >= 1
    decreases |s|
  {
    if s == [] then [""]
    else if IsSpace(s[0]) then [""] + SplitSpaces(TrimStart(s))
    else
      var rest := SplitSpaces(s[1..]);
      [[s[0]] + rest[0]] + rest[1..]
  }

  function Concat(xs: seq<string>): string {
    if xs == [] then "" else xs[0] + Concat(xs[1..])
  }

  /** `s` with every space removed. */
  function WithoutSpaces(s: string): (r: string)
    ensures NoSpace(r)
  {
    if s == [] then "" else if IsSpace(s[0]) then WithoutSpaces(s[1..]) else [s[0]] + WithoutSpaces(s[1..])
  }

  lemma WithoutSpacesSkipsPrefix(s: string, n: nat)
    requires n <= |s|
    requires forall i :: 0 <= i < n ==> IsSpace(s[i])
    ensures WithoutSpaces(s) == WithoutSpaces(s[n..])
    decreases n
  {
    if n > 0 {
      assert s[1..][n - 1..] == s[n..];
      WithoutSpacesSkipsPrefix(s[1..], n - 1);
    }
  }

  /** No piece contains a space. */
  lemma {:induction false} SplitSpacesNoSpace(s: string)
    ensures forall k :: 0 <= k < |SplitSpaces(s)| ==> NoSpace(SplitSpaces(s)[k])
    decreases |s|
  {
    if s == [] {
    } else if IsSpace(s[0]) {
      SplitSpacesNoSpace(TrimStart(s));
    } else {
      var rest := SplitSpaces(s[1..]);
      SplitSpacesNoSpace(s[1..]);
      var r := [[s[0]] + rest[0]] + rest[1..];
      assert NoSpace(rest[0]);
      assert NoSpace(r[0]);
      forall k | 0 <= k < |r| ensures NoSpace(r[k]) {
        if k > 0 { assert r[k] == rest[k]; }
      }
    }
  }

  lemma ConcatCons(x: string, xs: seq<string>)
    ensures Concat([x] + xs) == x + Concat(xs)
  {
    assert ([x] + xs)[1..] == xs;
  }

  /** Together the pieces are exactly the non-space characters of `s`, in order. */
  lemma {:induction false} SplitSpacesConcat(s: string)
    ensures Concat(SplitSpaces(s)) == WithoutSpaces(s)
    decreases |s|
  {
    if s == [] {
    } else if IsSpace(s[0]) {
      var t := TrimStart(s);
      TrimStartSuffix(s);
      assert SplitSpaces(s) == [""] + SplitSpaces(t);
      SplitSpacesConcat(t);
      WithoutSpacesSkipsPrefix(s, |s| - |t|);
      ConcatCons("", SplitSpaces(t));
    } else {
      var rest := SplitSpaces(s[1..]);
      assert SplitSpaces(s) == [[s[0]] + rest[0]] + rest[1..];
      assert WithoutSpaces(s) == [s[0]] + WithoutSpaces(s[1..]);
      SplitSpacesConcat(s[1..]);
      ConcatCons([s[0]] + rest[0], rest[1..]);
      assert rest == [rest[0]] + rest[1..];
      ConcatCons(rest[0], rest[1..]);
    }
  }

  /** On a trimmed, non-empty string every piece is a non-empty word. */
  lemma {:induction false} SplitSpacesWords(s: string)
    requires s != [] && IsTrimmed(s)
    ensures forall k :: 0 <= k < |SplitSpaces(s)| ==> SplitSpaces(s)[k] != ""
  {
    SplitTailNonEmpty(s);
  }

  lemma {:induction false} SplitTailNonEmpty(s: string)
    requires s == [] || !IsSpace(s[|s| - 1])
    ensures s != [] && !IsSpace(s[0]) ==> SplitSpaces(s)[0] != ""
    ensures forall k :: 1 <= k < |SplitSpaces(s)| ==> SplitSpaces(s)[k] != ""
    decreases |s|
  {
    if s == [] {
    } else if IsSpace(s[0]) {
      var t := TrimStart(s);
      TrimStartSuffix(s);
      assert t != [];
      assert t[|t| - 1] == s[|s| - 1];
      SplitTailNonEmpty(t);
    } else {
      if |s| > 1 {
        assert s[1..][|s| - 2] == s[|s| - 1];
      }
      SplitTailNonEmpty(s[1..]);
    }
  }

  // ---------------------------------------------------------------- split on one character, join

  /** `s.split(c)` for a one-character separator. */
  function SplitOn(s: string, c: char): (r: seq<string>)
    ensures |r| >= 1
    decreases |s|
  {
    if s == [] then [""]
    else
      var rest := SplitOn(s[1..], c);
      if s[0] == c then [""] + rest else [[s[0]] + rest[0]] + rest[1..]
  }

  /** `xs.join(sep)`. */
  function Join(xs: seq<string>, sep: string): string {
    if xs == [] then "" else if |xs| == 1 then xs[0] else xs[0] + sep + Join(xs[1..], sep)
  }

  /** Splitting on `c` and joining with `c` gives the input back, and no
      piece contains the separator. */
  lemma {:induction false} SplitOnJoin(s: string, c: char)
    ensures Join(SplitOn(s, c), [c]) == s
    ensures forall k :: 0 <= k < |SplitOn(s, c)| ==> c !in SplitOn(s, c)[k]
    decreases |s|
  {
    if s != [] {
      var rest := SplitOn(s[1..], c);
      SplitOnJoin(s[1..], c);
      if s[0] == c {
        assert SplitOn(s, c) == [""] + rest;
        assert ([""] + rest)[1..] == rest;
      } else {
        var r := [[s[0]] + rest[0]] + rest[1..];
        assert SplitOn(s, c) == r;
        assert r[1..] == rest[1..];
        if |rest| > 1 {
          assert Join(rest, [c]) == rest[0] + [c] + Join(rest[1..], [c]);
        }
        forall k | 0 <= k < |r| ensures c !in r[k] {
          if k > 0 { assert r[k] == rest[k]; }
        }
      }
    }
  }

  /** A piece free of the separator, then the separator: the piece comes
      off the front of the split. */
  lemma {:induction false} SplitOnAfterPiece(a: string, b: string, c: char)
    requires c !in a
    ensures SplitOn(a + [c] + b, c) == [a] + SplitOn(b, c)
    decreases |a|
  {
    if a == [] {
      assert a + [c] + b == [c] + b;
      assert ([c] + b)[1..] == b;
    } else {
      SplitOnAfterPiece(a[1..], b, c);
      assert (a + [c] + b)[1..] == a[1..] + [c] + b;
      assert [a[0]] + a[1..] == a;
    }
  }

  /** Joining pieces free of the separator and splitting again gives the
      pieces back. */
  lemma {:induction false} JoinSplitOn(xs: seq<string>, c: char)
    requires |xs| >= 1 && forall k :: 0 <= k < |xs| ==> c !in xs[k]
    ensures SplitOn(Join(xs, [c]), c) == xs
    decreases |xs|
  {
    if |xs| == 1 {
      SplitOnWithout(xs[0], c);
    } else {
      JoinSplitOn(xs[1..], c);
      SplitOnAfterPiece(xs[0], Join(xs[1..], [c]), c);
      assert [xs[0]] + xs[1..] == xs;
    }
  }

  lemma {:induction false} SplitOnWithout(s: string, c: char)
    requires c !in s
    ensures SplitOn(s, c) == [s]
    decreases |s|
  {
    if s != [] {
      SplitOnWithout(s[1..], c);
      assert [s[0]] + s[1..] == s;
    }
  }

  /** Words without spaces, joined by single spaces and followed by a
      newline: trimming and splitting on the space gives the words back. */
  lemma SplitOutputLine(xs: seq<string>)
    requires |xs| >= 1 && forall k :: 0 <= k < |xs| ==> xs[k] != "" && NoSpace(xs[k])
    ensures SplitOn(Trim(Join(xs, " ") + "\n"), ' ') == xs
  {
    var line := Join(xs, " ");
    forall k | 0 <= k < |xs| ensures ' ' !in xs[k] {
      NoSpaceHasNoBlank(xs[k]);
    }
    JoinSplitOn(xs, ' ');
    FirstOfJoin(xs, " ");
    LastOfJoin(xs, " ");
    TrimNewline(line);
  }

  lemma NoSpaceHasNoBlank(s: string)
    requires NoSpace(s)
    ensures ' ' !in s
  {
  }

  /** The first character of a join is the first character of its first piece. */
  lemma FirstOfJoin(xs: seq<string>, sep: string)
    requires |xs| >= 1 && xs[0] != ""
    ensures Join(xs, sep) != "" && Join(xs, sep)[0] == xs[0][0]
  {
  }

  /** The last character of a join is the last character of its last piece. */
  lemma {:induction false} LastOfJoin(xs: seq<string>, sep: string)
    requires |xs| >= 1 && xs[|xs| - 1] != ""
    ensures var j := Join(xs, sep); j != "" && j[|j| - 1] == xs[|xs| - 1][|xs[|xs| - 1]| - 1]
    decreases |xs|
  {
    if |xs| > 1 {
      LastOfJoin(xs[1..], sep);
    }
  }

  /** A trimmed non-empty line followed by a newline trims back to itself. */
  lemma TrimNewline(line: string)
    requires line != "" && !IsSpace(line[0]) && !IsSpace(line[|line| - 1])
    ensures Trim(line + "\n") == line
  {
    var s := line + "\n";
    assert TrimStart(s) == s;
    assert s[..|s| - 1] == line;
    assert TrimEnd(s) == TrimEnd(line);
    TrimmedIsFixed(line);
  }

  // ---------------------------------------------------------------- substrings

  predicate StartsWith(s: string, prefix: string) {
    |prefix| <= |s| && s[..|prefix|] == prefix
  }

  /** `sub` occurs in `s` starting at index `i`. */
  predicate OccursAt(s: string, sub: string, i: int) {
    0 <= i <= |s| - |sub| && s[i..i + |sub|] == sub
  }

  /** `s.includes(sub)`. */
  predicate Contains(s: string, sub: string) {
    exists i :: 0 <= i <= |s| - |sub| && OccursAt(s, sub, i)
  }

  /** Every element of a joined list is a substring of the joined string. */
  lemma {:induction false} JoinContainsAll(xs: seq<string>, sep: string)
    ensures forall k :: 0 <= k < |xs| ==> Contains(Join(xs, sep), xs[k])
    decreases |xs|
  {
    if |xs| > 1 {
      var j := Join(xs, sep);
      var tail := Join(xs[1..], sep);
      JoinContainsAll(xs[1..], sep);
      assert j == xs[0] + sep + tail;
      assert j[0..|xs[0]|] == xs[0];
      forall k | 1 <= k < |xs| ensures Contains(j, xs[k]) {
        assert xs[k] == xs[1..][k - 1];
        assert Contains(tail, xs[1..][k - 1]);
        var i :| 0 <= i <= |tail| - |xs[k]| && OccursAt(tail, xs[k], i);
        var off := |xs[0]| + |sep|;
        assert |j| == off + |tail|;
        assert j[off + i..off + i + |xs[k]|] == tail[i..i + |xs[k]|];
        assert OccursAt(j, xs[k], off + i);
      }
      assert OccursAt(j, xs[0], 0);
    } else if |xs| == 1 {
      assert Join(xs, sep)[0..|xs[0]|] == xs[0];
      assert OccursAt(Join(xs, sep), xs[0], 0);
    }
  }

  // ---------------------------------------------------------------- numbers

  function DigitValue(c: char): (v: nat)
    requires IsDigit(c)
    ensures v < 10
  {
    c as int - '0' as int
  }

  function DigitChar(d: nat): (c: char)
    requires d < 10
    ensures IsDigit(c) && DigitValue(c) == d
  {
    ('0' as int + d) as char
  }

  /** The value of a run of decimal digits, most significant first. */
  function DecimalValue(ds: string): nat
    requires forall i :: 0 <= i < |ds| ==> IsDigit(ds[i])
  {
    if ds == [] then 0 else DecimalValue(ds[..|ds| - 1]) * 10 + DigitValue(ds[|ds| - 1])
  }

  /** The longest prefix of `s` made of decimal digits. */
  function DigitPrefix(s: string): (r: string)
    ensures |r| <= |s| && r == s[..|r|]
    ensures forall i :: 0 <= i < |r| ==> IsDigit(r[i])
    ensures |r| < |s| ==> !IsDigit(s[|r|])
  {
    if s != [] && IsDigit(s[0]) then [s[0]] + DigitPrefix(s[1..]) else ""
  }

  /** `String(n)` for a natural number. */
  function DecimalString(n: nat): (r: string)
    ensures |r| >= 1
    ensures forall i :: 0 <= i < |r| ==> IsDigit(r[i])
    ensures r[0] == '0' ==> n == 0
  {
    if n < 10 then [DigitChar(n)] else DecimalString(n / 10) + [DigitChar(n % 10)]
  }

  /** `parseInt(s)` with no radix, `None` standing for `NaN`: leading spaces
      are skipped, an optional sign is read, a `0x`/`0X` prefix switches to
      hexadecimal, and the longest run of digits that follows is converted. */
  function ParseInt(s: string): Option<int>
  {
    var t := TrimStart(s);
    var neg := t != [] && t[0] == '-';
    var u := if t != [] && (t[0] == '-' || t[0] == '+') then t[1..] else t;
    var mag :=
      if |u| >= 2 && u[0] == '0' && (u[1] == 'x' || u[1] == 'X') then HexPrefixValue(u[2..])
      else var ds := DigitPrefix(u); if ds == [] then None else Some(DecimalValue(ds) as int);
    match mag
    case None => None
    case Some(m) => Some(if neg then -m else m)
  }

  predicate IsHexDigit(c: char) { IsDigit(c) || 'a' <= c <= 'f' || 'A' <= c <= 'F' }

  function HexDigitValue(c: char): (v: nat)
    requires IsHexDigit(c)
    ensures v < 16
  {
    if IsDigit(c) then DigitValue(c) else if 'a' <= c <= 'f' then c as int - 'a' as int + 10 else c as int - 'A' as int + 10
  }

  function HexRun(s: string): (r: string)
    ensures |r| <= |s| && r == s[..|r|]
    ensures forall i :: 0 <= i < |r| ==> IsHexDigit(r[i])
  {
    if s != [] && IsHexDigit(s[0]) then [s[0]] + HexRun(s[1..]) else ""
  }

  function HexValue(ds: string): nat
    requires forall i :: 0 <= i < |ds| ==> IsHexDigit(ds[i])
  {
    if ds == [] then 0 else HexValue(ds[..|ds| - 1]) * 16 + HexDigitValue(ds[|ds| - 1])
  }

  function HexPrefixValue(s: string): Option<int> {
    var ds := HexRun(s);
    if ds == [] then None else Some(HexValue(ds) as int)
  }

  lemma {:induction false} DecimalValueOfString(n: nat)
    ensures DecimalValue(DecimalString(n)) == n
  {
    if n >= 10 {
      var r := DecimalString(n);
      assert r[..|r| - 1] == DecimalString(n / 10);
      DecimalValueOfString(n / 10);
    }
  }

  lemma {:induction false} DigitPrefixOfDigits(s: string)
    requires forall i :: 0 <= i < |s| ==> IsDigit(s[i])
    ensures DigitPrefix(s) == s
  {
    if s != [] {
      DigitPrefixOfDigits(s[1..]);
    }
  }

  /** `parseInt(String(n)) === n` for every natural number. */
  lemma ParseIntOfDecimal(n: nat)
    ensures ParseInt(DecimalString(n)) == Some(n)
  {
    var s := DecimalString(n);
    assert !IsSpace(s[0]) && s[0] != '-' && s[0] != '+';
    assert TrimStart(s) == s;
    DigitPrefixOfDigits(s);
    DecimalValueOfString(n);
    assert |s| >= 2 ==> s[1] != 'x' && s[1] != 'X';
  }

  // ---------------------------------------------------------------- hex encoding of random bytes

  newtype byte = x: int | 0 <= x < 256

  function HexChar(d: nat): (c: char)
    requires d < 16
    ensures '0' <= c <= '9' || 'a' <= c <= 'f'
  {
    if d < 10 then ('0' as int + d) as char else ('a' as int + d - 10) as char
  }

  predicate IsLowerHex(s: string) {
    forall i :: 0 <= i < |s| ==> '0' <= s[i] <= '9' || 'a' <= s[i] <= 'f'
  }

  /** `buffer.toString('hex')`: two lower-case hex digits per byte. */
  function ToHex(bs: seq<byte>): (r: string)
    ensures |r| == 2 * |bs|
    ensures IsLowerHex(r)
  {
    if bs == [] then "" else [HexChar(bs[0] as nat / 16), HexChar(bs[0] as nat % 16)] + ToHex(bs[1..])
  }

  function UnHexChar(c: char): Option<nat> {
    if '0' <= c <= '9' then Some(c as int - '0' as int)
    else if 'a' <= c <= 'f' then Some(c as int - 'a' as int + 10)
    else None
  }

  /** Decoding of lower-case hex, the inverse of `ToHex`. */
  function FromHex(s: string): Option<seq<byte>>
    decreases |s|
  {
    if s == [] then Some([])
    else if |s| == 1 then None
    else match (UnHexChar(s[0]), UnHexChar(s[1]), FromHex(s[2..]))
      case (Some(hi), Some(lo), Some(rest)) =>
        if hi * 16 + lo < 256 then Some([(hi * 16 + lo) as byte] + rest) else None
      case _ => None
  }

  /** Hex encoding loses nothing: it is decoded back to the same bytes, so
      distinct random byte strings give distinct tokens. */
  lemma {:induction false} HexRoundTrip(bs: seq<byte>)
    ensures FromHex(ToHex(bs)) == Some(bs)
  {
    if bs != [] {
      var b := bs[0] as nat;
      var h := ToHex(bs);
      assert h[2..] == ToHex(bs[1..]);
      HexRoundTrip(bs[1..]);
      assert UnHexChar(h[0]) == Some(b / 16);
      assert UnHexChar(h[1]) == Some(b % 16);
      assert [(b / 16 * 16 + b % 16) as byte] + bs[1..] == bs;
    }
  }

  lemma HexInjective(a: seq<byte>, b: seq<byte>)
    requires ToHex(a) == ToHex(b)
    ensures a == b
  {
    HexRoundTrip(a);
    HexRoundTrip(b);
  }
}
