/** The field validators of the sign-up form (utils/validation.js).

    Each validator maps a raw field value to an error message; the empty string means
    "valid". The regular expressions of the source are written out as predicates over
    characters, and `String.prototype.trim` as `Trim`, built on `SkipWhitespace` and
    `SkipWhitespaceBack`. One whitespace predicate serves both `trim` and the regex class
    `\s`. */
module Validation {

  // ---------------------------------------------------------------------------
  // Messages and limits
  // ---------------------------------------------------------------------------

  const NameTooShort := "Name must be at least 2 characters long"
  const NameBadChars := "Name can only contain letters and spaces"
  const EmailRequired := "Email is required"
  const EmailInvalid := "Please enter a valid email address"
  const PasswordRequired := "Password is required"
  const PasswordTooShort := "Password must be at least 8 characters long"
  const PasswordNoUpper := "Password must contain at least one uppercase letter"
  const PasswordNoLower := "Password must contain at least one lowercase letter"
  const PasswordNoDigit := "Password must contain at least one number"
  const ConfirmRequired := "Please confirm your password"
  const PasswordsDiffer := "Passwords do not match"
  const TermsRequired := "You must accept the terms and conditions"

  const MinNameLength := 2
  const MinPasswordLength := 8

  // ---------------------------------------------------------------------------
  // Character classes
  // ---------------------------------------------------------------------------

  /** The whitespace set used for both `trim()` and `\s` (ASCII whitespace only). */
  predicate IsWhitespace(c: char) {
    c == ' ' || c == '\t' || c == '\n' || c == '\r' || c == '\U{000B}' || c == '\U{000C}'
  }

  predicate IsUpper(c: char) { 'A' <= c <= 'Z' }

  predicate IsLower(c: char) { 'a' <= c <= 'z' }

  predicate IsDigit(c: char) { '0' <= c <= '9' }

  /** The class `[a-zA-Z\s]`. */
  predicate IsNameChar(c: char) { IsUpper(c) || IsLower(c) || IsWhitespace(c) }

  /** The class `[^\s@]`. */
  predicate IsEmailChar(c: char) { !IsWhitespace(c) && c != '@' }

  predicate AllWhitespace(s: string) {
    forall k :: 0 <= k < |s| ==> IsWhitespace(s[k])
  }

  // ---------------------------------------------------------------------------
  // trim()
  // ---------------------------------------------------------------------------

  /** The first index at or after `i` that does not hold whitespace (or `|s|`). */
  function SkipWhitespace(s: string, i: nat): (j: nat)
    requires i <= |s|
    ensures i <= j <= |s|
    ensures forall k :: i <= k < j ==> IsWhitespace(s[k])
    ensures j < |s| ==> !IsWhitespace(s[j])
    decreases |s| - i
  {
    if i < |s| && IsWhitespace(s[i]) then SkipWhitespace(s, i + 1) else i
  }

  /** Walking back from `j` towards `lo`: the end of the last character before `j` that
      does not hold whitespace (or `lo`). */
  function SkipWhitespaceBack(s: string, lo: nat, j: nat): (e: nat)
    requires lo <= j <= |s|
    ensures lo <= e <= j
    ensures forall k :: e <= k < j ==> IsWhitespace(s[k])
    ensures e > lo ==> !IsWhitespace(s[e - 1])
    decreases j
  {
    if j > lo && IsWhitespace(s[j - 1]) then SkipWhitespaceBack(s, lo, j - 1) else j
  }

  /** Number of leading whitespace characters that `trim()` drops. */
  function LeadingWhitespace(s: string): (a: nat)
    ensures a <= |s|
    ensures forall k :: 0 <= k < a ==> IsWhitespace(s[k])
    ensures a < |s| ==> !IsWhitespace(s[a])
  {
    SkipWhitespace(s, 0)
  }

  /** `s.trim()`: the slice of `s` from its first to its last character that is not
      whitespace; everything outside that slice is whitespace. */
  function Trim(s: string): (r: string)
    ensures LeadingWhitespace(s) + |r| <= |s|
    ensures r == s[LeadingWhitespace(s)..LeadingWhitespace(s) + |r|]
    ensures forall k :: 0 <= k < LeadingWhitespace(s) ==> IsWhitespace(s[k])
    ensures forall k :: LeadingWhitespace(s) + |r| <= k < |s| ==> IsWhitespace(s[k])
    ensures r != [] ==> !IsWhitespace(r[0]) && !IsWhitespace(r[|r| - 1])
  {
    var a := LeadingWhitespace(s);
    s[a..SkipWhitespaceBack(s, a, |s|)]
  }

  /** At least two characters of `s` are not whitespace. */
  predicate HasTwoNonWhitespace(s: string) {
    exists i, j :: 0 <= i < j < |s| && !IsWhitespace(s[i]) && !IsWhitespace(s[j])
  }

  /** The trimmed length is at least two exactly when two characters are not whitespace. */
  lemma TrimmedAtLeastTwo(s: string)
    ensures |Trim(s)| >= 2 <==> HasTwoNonWhitespace(s)
  {
    var r := Trim(s);
    var a := LeadingWhitespace(s);
    if |r| >= 2 {
      assert s[a] == r[0] && s[a + |r| - 1] == r[|r| - 1];
    }
    if HasTwoNonWhitespace(s) {
      var i, j :| 0 <= i < j < |s| && !IsWhitespace(s[i]) && !IsWhitespace(s[j]);
      assert a <= i && j < a + |r|;
    }
  }

  // ---------------------------------------------------------------------------
  // validateName
  // ---------------------------------------------------------------------------

  /** Every character of `name` is in `[a-zA-Z\s]`. */
  predicate AllNameChars(name: string) {
    forall k :: 0 <= k < |name| ==> IsNameChar(name[k])
  }

  /** `/^[a-zA-Z\s]+$/.test(name)`. */
  predicate MatchesNameRegex(name: string) {
    |name| > 0 && AllNameChars(name)
  }

  function ValidateName(name: string): (r: string)
    ensures r == "" || r == NameTooShort || r == NameBadChars
  {
    if name == "" || |Trim(name)| < MinNameLength then NameTooShort
    else if !MatchesNameRegex(name) then NameBadChars
    else ""
  }

  /** The length message wins exactly when fewer than two characters are not whitespace
      (this covers `""` and all-whitespace names); otherwise the name is valid iff every
      character is an ASCII letter or whitespace. */
  lemma NameVerdict(name: string)
    ensures ValidateName(name) == NameTooShort <==> |Trim(name)| < 2
    ensures ValidateName(name) == NameTooShort <==> !HasTwoNonWhitespace(name)
    ensures ValidateName(name) == NameBadChars <==>
              |Trim(name)| >= 2 && !AllNameChars(name)
    ensures ValidateName(name) == "" <==>
              |Trim(name)| >= 2 && AllNameChars(name)
  {
    TrimmedAtLeastTwo(name);
    if name == "" {
      assert |Trim(name)| == 0;
    }
    assert NameTooShort[0] != NameBadChars[0] || NameTooShort[5] != NameBadChars[5];
  }

  // ---------------------------------------------------------------------------
  // validateEmail
  // ---------------------------------------------------------------------------

  /** `[^\s@]+` matches `s[lo..hi]`: a non-empty run of characters that are neither
      whitespace nor `@`. */
  predicate EmailRun(s: string, lo: nat, hi: nat) {
    lo < hi <= |s| && forall m :: lo <= m < hi ==> IsEmailChar(s[m])
  }

  /** `/^[^\s@]+@[^\s@]+\.[^\s@]+$/.test(s)`: some `@` at `i` and some `.` at `j` split `s`
      into three runs of `[^\s@]+`. */
  ghost predicate MatchesEmailRegex(s: string) {
    exists i, j :: 0 <= i < j < |s| && s[i] == '@' && s[j] == '.'
                   && EmailRun(s, 0, i) && EmailRun(s, i + 1, j) && EmailRun(s, j + 1, |s|)
  }

  /** Index of the first `c` in `s`, or `|s|` when there is none. */
  function IndexOf(s: string, c: char): (r: nat)
    ensures r <= |s|
    ensures r < |s| ==> s[r] == c
    ensures forall k :: 0 <= k < r ==> s[k] != c
  {
    if s == [] then 0
    else if s[0] == c then 0
    else 1 + IndexOf(s[1..], c)
  }

  predicate NoWhitespace(s: string) {
    forall k :: 0 <= k < |s| ==> !IsWhitespace(s[k])
  }

  /** No `@` at index `lo` or later. */
  predicate NoAtFrom(s: string, lo: nat) {
    forall k :: lo <= k < |s| ==> s[k] != '@'
  }

  /** A `.` after index `lo` with at least one character between it and `lo`, and at least
      one after it. */
  predicate HasInnerDotAfter(s: string, lo: nat) {
    exists j :: lo < j < |s| - 1 && s[j] == '.'
  }

  /** The email shape checked directly: no whitespace, exactly one `@` (nothing after the
      first `@` is another `@`), a non-empty local part, and a `.` inside the domain with
      text on both sides. */
  predicate EmailShape(s: string) {
    var at := IndexOf(s, '@');
    NoWhitespace(s) && 0 < at < |s| && NoAtFrom(s, at + 1) && HasInnerDotAfter(s, at + 1)
  }

  /** A string of the direct shape matches the source's regular expression. */
  lemma EmailShapeIsRegexMatch(s: string)
    requires EmailShape(s)
    ensures MatchesEmailRegex(s)
  {
    var at := IndexOf(s, '@');
    var j :| at + 1 < j < |s| - 1 && s[j] == '.';
    assert EmailRun(s, 0, at) && EmailRun(s, at + 1, j) && EmailRun(s, j + 1, |s|);
  }

  /** A string the source's regular expression matches has the direct shape. */
  lemma RegexMatchIsEmailShape(s: string)
    requires MatchesEmailRegex(s)
    ensures EmailShape(s)
  {
    var i, j :| 0 <= i < j < |s| && s[i] == '@' && s[j] == '.'
                && EmailRun(s, 0, i) && EmailRun(s, i + 1, j) && EmailRun(s, j + 1, |s|);
    var at := IndexOf(s, '@');
    assert at == i;
    forall k | 0 <= k < |s| ensures !IsWhitespace(s[k]) {
      if k != i && k != j {
        assert IsEmailChar(s[k]);
      }
    }
    assert HasInnerDotAfter(s, at + 1);
  }

  /** The direct shape check agrees with the source's regular expression on every string. */
  lemma EmailShapeMatchesRegex(s: string)
    ensures EmailShape(s) <==> MatchesEmailRegex(s)
  {
    if EmailShape(s) {
      EmailShapeIsRegexMatch(s);
    }
    if MatchesEmailRegex(s) {
      RegexMatchIsEmailShape(s);
    }
  }

  function ValidateEmail(email: string): (r: string)
    ensures r == "" || r == EmailRequired || r == EmailInvalid
  {
    if email == "" then EmailRequired
    else if !EmailShape(email) then EmailInvalid
    else ""
  }

  /** The empty email is "required"; any other email is valid iff it matches the source's
      regular expression, and gets the format message otherwise. */
  lemma EmailVerdict(email: string)
    ensures email == "" ==> ValidateEmail(email) == EmailRequired
    ensures email != "" ==> (ValidateEmail(email) == "" <==> MatchesEmailRegex(email))
    ensures email != "" ==> (ValidateEmail(email) == EmailInvalid <==> !MatchesEmailRegex(email))
  {
    EmailShapeMatchesRegex(email);
  }

  // ---------------------------------------------------------------------------
  // validatePassword
  // ---------------------------------------------------------------------------

  predicate HasUpper(s: string) { exists k :: 0 <= k < |s| && IsUpper(s[k]) }

  predicate HasLower(s: string) { exists k :: 0 <= k < |s| && IsLower(s[k]) }

  predicate HasDigit(s: string) { exists k :: 0 <= k < |s| && IsDigit(s[k]) }

  function ValidatePassword(password: string): (r: string)
    ensures r in {"", PasswordRequired, PasswordTooShort, PasswordNoUpper, PasswordNoLower, PasswordNoDigit}
  {
    if password == "" then PasswordRequired
    else if |password| < MinPasswordLength then PasswordTooShort
    else if !HasUpper(password) then PasswordNoUpper
    else if !HasLower(password) then PasswordNoLower
    else if !HasDigit(password) then PasswordNoDigit
    else ""
  }

  /** The rules are checked in a fixed order and only the first one that fails is reported;
      the password is valid iff it has 8 characters, an uppercase letter, a lowercase letter
      and a digit. */
  lemma PasswordVerdict(password: string)
    ensures ValidatePassword(password) == PasswordRequired <==> password == ""
    ensures ValidatePassword(password) == PasswordTooShort <==> 0 < |password| < 8
    ensures ValidatePassword(password) == PasswordNoUpper <==>
              |password| >= 8 && !HasUpper(password)
    ensures ValidatePassword(password) == PasswordNoLower <==>
              |password| >= 8 && HasUpper(password) && !HasLower(password)
    ensures ValidatePassword(password) == PasswordNoDigit <==>
              |password| >= 8 && HasUpper(password) && HasLower(password) && !HasDigit(password)
    ensures ValidatePassword(password) == "" <==>
              |password| >= 8 && HasUpper(password) && HasLower(password) && HasDigit(password)
  {
    assert |PasswordRequired| != |PasswordTooShort|;
    assert PasswordNoUpper[35] != PasswordNoLower[35];
    assert |PasswordNoUpper| != |PasswordNoDigit| && |PasswordNoLower| != |PasswordNoDigit|;
    assert |PasswordRequired| != |PasswordNoUpper| && |PasswordRequired| != |PasswordNoDigit|;
    assert |PasswordTooShort| != |PasswordNoUpper| && |PasswordTooShort| != |PasswordNoDigit|;
  }

  // ---------------------------------------------------------------------------
  // validatePasswordMatch and validateTerms
  // ---------------------------------------------------------------------------

  function ValidatePasswordMatch(password: string, confirmPassword: string): (r: string)
    ensures r == "" || r == ConfirmRequired || r == PasswordsDiffer
  {
    if confirmPassword == "" then ConfirmRequired
    else if password != confirmPassword then PasswordsDiffer
    else ""
  }

  /** An empty confirmation is reported first, whatever the password; otherwise the two
      strings are compared exactly. */
  lemma PasswordMatchVerdict(password: string, confirmPassword: string)
    ensures confirmPassword == "" <==> ValidatePasswordMatch(password, confirmPassword) == ConfirmRequired
    ensures confirmPassword != "" ==>
              (ValidatePasswordMatch(password, confirmPassword) == PasswordsDiffer <==> password != confirmPassword)
    ensures ValidatePasswordMatch(password, confirmPassword) == "" <==>
              confirmPassword != "" && password == confirmPassword
  {
    assert |ConfirmRequired| != |PasswordsDiffer|;
  }

  function ValidateTerms(accepted: bool): (r: string)
    ensures r == "" <==> accepted
    ensures r == "" || r == TermsRequired
  {
    if !accepted then TermsRequired else ""
  }

  // ---------------------------------------------------------------------------
  // Worked examples
  // ---------------------------------------------------------------------------

  lemma NameExamplesTooShort()
    ensures ValidateName("") == NameTooShort
    ensures ValidateName("A") == NameTooShort
  {
    NameVerdict("");
    NameVerdict("A");
  }

  lemma NameExampleBlank()
    ensures ValidateName("   ") == NameTooShort
  {
    NameVerdict("   ");
    assert !HasTwoNonWhitespace("   ") by {
      assert forall k :: 0 <= k < 3 ==> IsWhitespace("   "[k]);
    }
  }

  lemma NameExampleShortest()
    ensures ValidateName("Al") == ""
  {
    var n := "Al";
    assert !IsWhitespace(n[0]) && !IsWhitespace(n[1]);
    TrimmedAtLeastTwo(n);
    assert MatchesNameRegex(n) by {
      assert IsNameChar(n[0]) && IsNameChar(n[1]);
    }
  }

  lemma NameExampleDigit()
    ensures ValidateName("Al3x") == NameBadChars
  {
    var n := "Al3x";
    assert !IsWhitespace(n[0]) && !IsWhitespace(n[1]);
    TrimmedAtLeastTwo(n);
    assert !IsNameChar(n[2]);
  }

  lemma NameExampleFull()
    ensures ValidateName("Jane Doe") == ""
  {
    var n := "Jane Doe";
    assert !IsWhitespace(n[0]) && !IsWhitespace(n[1]);
    TrimmedAtLeastTwo(n);
    assert MatchesNameRegex(n) by {
      assert forall k :: 0 <= k < 8 ==> IsNameChar(n[k]);
    }
  }

  lemma EmailExamplesInvalid()
    ensures ValidateEmail("") == EmailRequired
    ensures ValidateEmail("a@b") == EmailInvalid
    ensures ValidateEmail("a b@c.d") == EmailInvalid
  {
    assert IndexOf("a@b", '@') == 1;
    assert IsWhitespace("a b@c.d"[1]);
  }

  lemma EmailExampleValid(email: string)
    requires email == "a@b.com"
    ensures ValidateEmail(email) == ""
  {
    assert email[1] == '@' && email[0] != '@';
    assert IndexOf(email, '@') == 1;
    assert email[3] == '.';
    assert forall k :: 0 <= k < |email| ==> !IsWhitespace(email[k]);
    assert forall k :: 2 <= k < |email| ==> email[k] != '@';
  }

  lemma PasswordExamplesEarlyRules()
    ensures ValidatePassword("") == PasswordRequired
    ensures ValidatePassword("short1A") == PasswordTooShort
  {
  }

  lemma PasswordExampleNoUpper(p: string)
    requires p == "longenough"
    ensures ValidatePassword(p) == PasswordNoUpper
  {
    assert forall k :: 0 <= k < |p| ==> !IsUpper(p[k]);
  }

  lemma PasswordExampleNoLower(p: string)
    requires p == "LONGENOUGH"
    ensures ValidatePassword(p) == PasswordNoLower
  {
    assert IsUpper(p[0]);
    assert forall k :: 0 <= k < |p| ==> !IsLower(p[k]);
  }

  lemma PasswordExampleNoDigit(p: string)
    requires p == "LongEnough"
    ensures ValidatePassword(p) == PasswordNoDigit
  {
    assert IsUpper(p[0]) && IsLower(p[1]);
    assert forall k :: 0 <= k < |p| ==> !IsDigit(p[k]);
  }

  lemma PasswordExampleValid(p: string)
    requires p == "LongEnough1"
    ensures ValidatePassword(p) == ""
  {
    assert IsUpper(p[0]) && IsLower(p[1]) && IsDigit(p[10]);
  }

  lemma MatchAndTermsExamples()
    ensures ValidatePasswordMatch("x", "y") == PasswordsDiffer
    ensures ValidatePasswordMatch("x", "x") == ""
    ensures ValidatePasswordMatch("x", "") == ConfirmRequired
    ensures ValidateTerms(false) == TermsRequired
    ensures ValidateTerms(true) == ""
  {
  }
}
