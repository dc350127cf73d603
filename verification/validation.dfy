/** The input validators of the backend: an e-mail pattern check, a password
    strength check, and the registration validator that collects an error map. */
module Validation {
  import opened Common

  // ---------------------------------------------------------------------------
  // Character classes
  // ---------------------------------------------------------------------------

  /** Characters matched by `\s` in a JavaScript regular expression, which are
      also the characters `String.prototype.trim` removes: the WhiteSpace and
      LineTerminator productions of ECMAScript. */
  predicate IsJsSpace(c: char) {
    var n := c as int;
    || (9 <= n <= 13) || n == 0x20 || n == 0xA0 || n == 0x1680
    || (0x2000 <= n <= 0x200A) || n == 0x2028 || n == 0x2029
    || n == 0x202F || n == 0x205F || n == 0x3000 || n == 0xFEFF
  }

  /** Characters a regular-expression `.` refuses to match. */
  predicate IsLineTerminator(c: char) {
    c == '\n' || c == '\r' || c as int == 0x2028 || c as int == 0x2029
  }

  predicate IsLowerLetter(c: char) { 'a' <= c <= 'z' }
  predicate IsUpperLetter(c: char) { 'A' <= c <= 'Z' }
  predicate IsDigit(c: char) { '0' <= c <= '9' }

  /** The class `[a-zA-Z\d]`. */
  predicate IsAlnum(c: char) { IsLowerLetter(c) || IsUpperLetter(c) || IsDigit(c) }

  /** Lower-casing of one character (ASCII letters only). */
  function LowerChar(c: char): (r: char)
    ensures IsUpperLetter(c) ==> IsLowerLetter(r)
    ensures !IsUpperLetter(c) ==> r == c
  {
    if IsUpperLetter(c) then (c as int + 32) as char else c
  }

  /** `String.prototype.toLowerCase`, restricted to ASCII letters. */
  function Lower(s: string): (r: string)
    ensures |r| == |s|
    ensures forall i :: 0 <= i < |s| ==> r[i] == LowerChar(s[i])
  {
    seq(|s|, i requires 0 <= i < |s| => LowerChar(s[i]))
  }

  // ---------------------------------------------------------------------------
  // validateEmail
  // ---------------------------------------------------------------------------

  /** A character of the class `[^\s@]`. */
  predicate IsPlain(c: char) { !IsJsSpace(c) && c != '@' }

  predicate AllPlain(s: string) {
    forall i :: 0 <= i < |s| ==> IsPlain(s[i])
  }

  predicate NoSpace(s: string) {
    forall i :: 0 <= i < |s| ==> !IsJsSpace(s[i])
  }

  /** `s` splits at an `@` in position `at` and a `.` in position `dot` into
      three non-empty runs of plain characters. */
  ghost predicate PatternAt(s: string, at: int, dot: int) {
    && 0 < at && at + 1 < dot && dot + 1 < |s|
    && s[at] == '@' && s[dot] == '.'
    && AllPlain(s[..at]) && AllPlain(s[at + 1..dot]) && AllPlain(s[dot + 1..])
  }

  /** The language of `^[^\s@]+@[^\s@]+\.[^\s@]+$`. */
  ghost predicate MatchesEmailPattern(s: string) {
    exists at, dot :: PatternAt(s, at, dot)
  }

  /** `s[at]` is the only `@` of `s`, something precedes it, and `s[dot]` is a
      `.` of the domain that is neither its first nor its last character. */
  ghost predicate AddressAt(s: string, at: int, dot: int) {
    && 0 < at && at + 1 < dot < |s| - 1
    && s[at] == '@' && s[dot] == '.'
    && forall k :: 0 <= k < |s| && k != at ==> s[k] != '@'
  }

  /** The same language described address-wise: no whitespace, exactly one
      `@` with something before it, and a domain holding a `.` that is
      neither its first nor its last character. */
  ghost predicate WellFormedAddress(s: string) {
    NoSpace(s) && exists at, dot :: AddressAt(s, at, dot)
  }

  lemma PatternAtIffAddressAt(s: string, at: int, dot: int)
    ensures PatternAt(s, at, dot) <==> NoSpace(s) && AddressAt(s, at, dot)
  {
    if 0 < at && at + 1 < dot && dot + 1 < |s| {
      assert forall k :: 0 <= k < at ==> s[..at][k] == s[k];
      assert forall k :: at < k < dot ==> s[at + 1..dot][k - at - 1] == s[k];
      assert forall k :: dot < k < |s| ==> s[dot + 1..][k - dot - 1] == s[k];
    }
  }

  predicate IsAt(c: char) { c == '@' }

  /** The test the regular expression performs, on an already lower-cased
      string: locate the first `@`, then check the two sides. */
  function EmailVerdict(s: string): bool {
    match FirstIndex(s, IsAt)
    case None => false
    case Some(at) =>
      var domain := s[at + 1..];
      && 0 < at
      && NoSpace(s)
      && (forall i :: 0 <= i < |domain| ==> domain[i] != '@')
      && 3 <= |domain| && '.' in domain[1..|domain| - 1]
  }

  lemma EmailVerdictIffAddress(s: string)
    ensures EmailVerdict(s) <==> WellFormedAddress(s)
  {
    if EmailVerdict(s) {
      var at := FirstIndex(s, IsAt).value;
      var domain := s[at + 1..];
      var j :| 0 <= j < |domain| - 2 && domain[1..|domain| - 1][j] == '.';
      var dot := at + 2 + j;
      assert forall k :: at < k < |s| ==> s[k] == domain[k - at - 1];
      assert AddressAt(s, at, dot);
    }
    if WellFormedAddress(s) {
      var at, dot :| AddressAt(s, at, dot);
      assert IsAt(s[at]);
      assert FirstIndex(s, IsAt) == Some(at);
      var domain := s[at + 1..];
      assert domain[1..|domain| - 1][dot - at - 2] == '.';
    }
  }

  lemma PatternIffAddress(s: string)
    ensures MatchesEmailPattern(s) <==> WellFormedAddress(s)
  {
    if MatchesEmailPattern(s) {
      var at, dot :| PatternAt(s, at, dot);
      PatternAtIffAddressAt(s, at, dot);
    }
    if WellFormedAddress(s) {
      var at, dot :| AddressAt(s, at, dot);
      PatternAtIffAddressAt(s, at, dot);
    }
  }

  /** `validateEmail`: lower-case the input, then test it against the e-mail
      pattern. */
  function ValidateEmail(email: string): (ok: bool)
    ensures ok <==> MatchesEmailPattern(Lower(email))
    ensures ok <==> WellFormedAddress(Lower(email))
  {
    var s := Lower(email);
    EmailVerdictIffAddress(s);
    PatternIffAddress(s);
    EmailVerdict(s)
  }

  /** Lower-casing keeps every position's membership in `[^\s@]`, and keeps
      every `@` and `.` where it was. */
  lemma LowerKeepsPattern(s: string, at: int, dot: int)
    ensures PatternAt(Lower(s), at, dot) <==> PatternAt(s, at, dot)
  {
    var t := Lower(s);
    if 0 < at && at + 1 < dot && dot + 1 < |s| {
      assert forall k :: 0 <= k < at ==> t[..at][k] == t[k] && s[..at][k] == s[k];
      assert forall k :: at < k < dot ==> t[at + 1..dot][k - at - 1] == t[k] && s[at + 1..dot][k - at - 1] == s[k];
      assert forall k :: dot < k < |s| ==> t[dot + 1..][k - dot - 1] == t[k] && s[dot + 1..][k - dot - 1] == s[k];
    }
  }

  /** Lower-casing decides nothing: the verdict is the pattern itself applied
      to the raw input, and lower-casing the input first changes nothing. */
  lemma ValidateEmailIgnoresCase(email: string)
    ensures ValidateEmail(email) <==> MatchesEmailPattern(email)
    ensures ValidateEmail(email) == ValidateEmail(Lower(email))
  {
    if MatchesEmailPattern(email) {
      var at, dot :| PatternAt(email, at, dot);
      LowerKeepsPattern(email, at, dot);
    }
    if MatchesEmailPattern(Lower(email)) {
      var at, dot :| PatternAt(Lower(email), at, dot);
      LowerKeepsPattern(email, at, dot);
    }
    assert Lower(Lower(email)) == Lower(email);
  }

  // ---------------------------------------------------------------------------
  // validatePassword
  // ---------------------------------------------------------------------------

  /** The language of `^(?=.*[a-z])(?=.*[A-Z])(?=.*\d)[a-zA-Z\d]{8,}$`. Each
      look-ahead needs a character of its class reachable from the start
      through characters a `.` can match. */
  ghost predicate MatchesPasswordPattern(p: string) {
    && (exists i :: 0 <= i < |p| && IsLowerLetter(p[i]) && NoLineTerminator(p[..i]))
    && (exists i :: 0 <= i < |p| && IsUpperLetter(p[i]) && NoLineTerminator(p[..i]))
    && (exists i :: 0 <= i < |p| && IsDigit(p[i]) && NoLineTerminator(p[..i]))
    && 8 <= |p|
    && forall i :: 0 <= i < |p| ==> IsAlnum(p[i])
  }

  predicate NoLineTerminator(s: string) {
    forall i :: 0 <= i < |s| ==> !IsLineTerminator(s[i])
  }

  /** Which character classes occur in a string, gathered in one pass. */
  datatype Classes = Classes(lower: bool, upper: bool, digit: bool, onlyAlnum: bool)

  function Classify(p: string): (c: Classes)
    ensures c.lower <==> exists i :: 0 <= i < |p| && IsLowerLetter(p[i])
    ensures c.upper <==> exists i :: 0 <= i < |p| && IsUpperLetter(p[i])
    ensures c.digit <==> exists i :: 0 <= i < |p| && IsDigit(p[i])
    ensures c.onlyAlnum <==> forall i :: 0 <= i < |p| ==> IsAlnum(p[i])
  {
    if |p| == 0 then Classes(false, false, false, true)
    else
      var rest := Classify(p[1..]);
      assert forall i :: 0 < i < |p| ==> p[i] == p[1..][i - 1];
      var x := p[0];
      Classes(rest.lower || IsLowerLetter(x), rest.upper || IsUpperLetter(x),
              rest.digit || IsDigit(x), rest.onlyAlnum && IsAlnum(x))
  }

  /** `validatePassword`. */
  function ValidatePassword(password: string): (ok: bool)
    ensures ok <==> && 8 <= |password|
                    && (forall i :: 0 <= i < |password| ==> IsAlnum(password[i]))
                    && (exists i :: 0 <= i < |password| && IsLowerLetter(password[i]))
                    && (exists i :: 0 <= i < |password| && IsUpperLetter(password[i]))
                    && (exists i :: 0 <= i < |password| && IsDigit(password[i]))
  {
    var c := Classify(password);
    8 <= |password| && c.onlyAlnum && c.lower && c.upper && c.digit
  }

  /** The single-pass check accepts exactly the regular expression's language. */
  lemma ValidatePasswordMatchesPattern(p: string)
    ensures ValidatePassword(p) <==> MatchesPasswordPattern(p)
  {
    if ValidatePassword(p) {
      assert forall i :: 0 <= i <= |p| ==> NoLineTerminator(p[..i]) by {
        forall i | 0 <= i <= |p|
          ensures NoLineTerminator(p[..i])
        {
          assert forall k :: 0 <= k < i ==> p[..i][k] == p[k] && IsAlnum(p[k]);
        }
      }
    }
  }

  /** A character outside `[a-zA-Z0-9]` anywhere rejects the password, however
      long it is and whichever classes it covers. */
  lemma PasswordRejectsSymbols(p: string, i: nat)
    requires i < |p| && !IsAlnum(p[i])
    ensures !ValidatePassword(p)
  {
  }

  // ---------------------------------------------------------------------------
  // validateRegistrationInput
  // ---------------------------------------------------------------------------

  predicate IsBlank(s: string) {
    forall i :: 0 <= i < |s| ==> IsJsSpace(s[i])
  }

  /** Leading whitespace removed: the result is a suffix, what was dropped is
      blank, and the result does not start with whitespace. */
  function TrimStart(s: string): (r: string)
    ensures |r| <= |s| && r == s[|s| - |r|..]
    ensures IsBlank(s[..|s| - |r|])
    ensures r != [] ==> !IsJsSpace(r[0])
  {
    if |s| > 0 && IsJsSpace(s[0]) then
      var r := TrimStart(s[1..]);
      assert s[..|s| - |r|] == [s[0]] + s[1..][..|s| - 1 - |r|];
      r
    else s
  }

  /** Trailing whitespace removed: the result is a prefix, what was dropped is
      blank, and the result does not end with whitespace. */
  function TrimEnd(s: string): (r: string)
    ensures |r| <= |s| && r == s[..|r|]
    ensures IsBlank(s[|r|..])
    ensures r != [] ==> !IsJsSpace(r[|r| - 1])
  {
    if |s| > 0 && IsJsSpace(s[|s| - 1]) then
      var r := TrimEnd(s[..|s| - 1]);
      assert s[|r|..] == s[..|s| - 1][|r|..] + [s[|s| - 1]];
      r
    else s
  }

  /** `String.prototype.trim`. */
  function Trim(s: string): string {
    TrimEnd(TrimStart(s))
  }

  /** `trim()` yields the empty string exactly for blank strings. */
  lemma TrimEmptyIffBlank(s: string)
    ensures Trim(s) == "" <==> IsBlank(s)
  {
    var t := TrimStart(s);
    if Trim(s) == "" {
      assert forall i :: 0 <= i < |s| ==> s[i] == s[..|s| - |t|][i];
    }
  }

  datatype RegistrationData = RegistrationData(
    name: Option<string>,
    email: Option<string>,
    password: Option<string>,
    department: Option<string>,
    semester: Option<string>)

  datatype ValidationResult = ValidationResult(isValid: bool, errors: map<string, string>)

  const NameRequired := "Name is required"
  const EmailRequired := "Valid email is required"
  const PasswordRule := "Password must be at least 8 characters with uppercase, lowercase, and number"

  /** `validateRegistrationInput`: one entry per failed check, under a fixed
      key and with a fixed message. */
  function ValidateRegistrationInput(data: RegistrationData): (r: ValidationResult)
    ensures r.isValid <==> r.errors == map[]
    ensures r.errors.Keys <= {"name", "email", "password"}
    ensures "name" in r.errors <==> !Truthy(data.name) || IsBlank(data.name.value)
    ensures "email" in r.errors <==> !Truthy(data.email) || !ValidateEmail(data.email.value)
    ensures "password" in r.errors <==> !Truthy(data.password) || !ValidatePassword(data.password.value)
    ensures "name" in r.errors ==> r.errors["name"] == NameRequired
    ensures "email" in r.errors ==> r.errors["email"] == EmailRequired
    ensures "password" in r.errors ==> r.errors["password"] == PasswordRule
  {
    var noName :=
      (match data.name
       case None => true
       case Some(n) => TrimEmptyIffBlank(n); n == "" || Trim(n) == "");
    var e1: map<string, string> := if noName then map["name" := NameRequired] else map[];
    var e2 := if !Truthy(data.email) || !ValidateEmail(data.email.value) then e1["email" := EmailRequired] else e1;
    var e3 := if !Truthy(data.password) || !ValidatePassword(data.password.value) then e2["password" := PasswordRule] else e2;
    ValidationResult(|e3| == 0, e3)
  }

  /** Department and semester are never looked at. */
  lemma RegistrationIgnoresProfile(data: RegistrationData, department: Option<string>, semester: Option<string>)
    ensures ValidateRegistrationInput(data) == ValidateRegistrationInput(data.(department := department, semester := semester))
  {
  }
}
