/** The checks that handleLogin and handleSignup of app.js run before they
    send anything to the server: each chain stops at the first failing check
    and shows its message. */
module AppValidation {
  import opened JsRuntime

  const FillAllFields := "Please fill in all fields"
  const PasswordTooShort := "Password must be at least 6 characters"
  const PasswordMismatch := "Passwords do not match"
  const InvalidEmail := "Please enter a valid email"
  const MinPasswordLength := 6

  // ------------------------------------------------------------------- email

  /** The class `[^\s@]`. */
  predicate EmailChar(c: char) {
    !IsSpace(c) && c != '@'
  }

  /** `[^\s@]+` matches all of `x`. */
  ghost predicate EmailRun(x: string) {
    |x| >= 1 && forall k :: 0 <= k < |x| ==> EmailChar(x[k])
  }

  /** `^[^\s@]+@[^\s@]+\.[^\s@]+$` matches `s`, reading its '@' at `i` and
      the '.' it needs at `j`. */
  ghost predicate EmailSplit(s: string, i: int, j: int) {
    0 <= i < j < |s| && s[i] == '@' && s[j] == '.' &&
    EmailRun(s[..i]) && EmailRun(s[i + 1..j]) && EmailRun(s[j + 1..])
  }

  /** The email pattern of handleSignup matches `s`. */
  ghost predicate EmailRegexMatches(s: string) {
    exists i, j :: EmailSplit(s, i, j)
  }

  /** The first index of `c` in `s`. */
  function IndexOf(s: string, c: char): (k: nat)
    requires c in s
    ensures k < |s| && s[k] == c && c !in s[..k]
  {
    if s[0] == c then 0
    else
      var k := IndexOf(s[1..], c);
      assert s[..k + 1] == [s[0]] + s[1..][..k];
      k + 1
  }

  /** The email test, stated without the regular expression: no whitespace,
      exactly one '@', something before it, and a '.' inside the domain with
      something on either side of it. */
  predicate EmailShape(s: string) {
    (forall k :: 0 <= k < |s| ==> !IsSpace(s[k])) &&
    '@' in s &&
    var a := IndexOf(s, '@');
    '@' !in s[a + 1..] && 0 < a && a + 3 <= |s| && '.' in s[a + 2..|s| - 1]
  }

  lemma EmailShapeMatches(s: string)
    requires EmailShape(s)
    ensures EmailRegexMatches(s)
  {
    var a := IndexOf(s, '@');
    var m :| 0 <= m < |s[a + 2..|s| - 1]| && s[a + 2..|s| - 1][m] == '.';
    var j := a + 2 + m;
    assert s[j] == '.';
    assert forall k :: 0 <= k < a ==> s[..a][k] == s[k] && s[k] != '@';
    assert forall k :: a + 1 <= k < |s| ==> s[k] != '@' by {
      forall k | a + 1 <= k < |s| ensures s[k] != '@' {
        assert s[a + 1..][k - a - 1] == s[k];
      }
    }
    assert EmailRun(s[a + 1..j]);
    assert EmailRun(s[j + 1..]);
    assert EmailSplit(s, a, j);
  }

  /** What a match says about each character: none is whitespace, the '@'
      read is the only one, and each of the three runs is non-empty. */
  lemma EmailSplitChars(s: string, i: int, j: int)
    requires EmailSplit(s, i, j)
    ensures forall k :: 0 <= k < |s| ==> !IsSpace(s[k])
    ensures forall k :: 0 <= k < |s| && k != i ==> s[k] != '@'
    ensures 0 < i && i + 2 <= j < |s| - 1
  {
    forall k | 0 <= k < |s| ensures !IsSpace(s[k]) && (k != i ==> s[k] != '@') {
      if k < i {
        assert s[k] == s[..i][k];
      } else if i < k < j {
        assert s[k] == s[i + 1..j][k - i - 1];
      } else if j < k {
        assert s[k] == s[j + 1..][k - j - 1];
      }
    }
  }

  lemma EmailMatchesShape(s: string)
    requires EmailRegexMatches(s)
    ensures EmailShape(s)
  {
    var i, j :| EmailSplit(s, i, j);
    EmailSplitChars(s, i, j);
    assert s[i] == '@';
    var a := IndexOf(s, '@');
    assert a == i;
    assert s[a + 2..|s| - 1][j - a - 2] == '.';
  }

  /** The computable test agrees with the regular expression. */
  lemma EmailShapeIsRegex(s: string)
    ensures EmailShape(s) <==> EmailRegexMatches(s)
  {
    if EmailShape(s) { EmailShapeMatches(s); }
    if EmailRegexMatches(s) { EmailMatchesShape(s); }
  }

  // ------------------------------------------------------------------- login

  datatype LoginOutcome =
    | LoginError(message: string)
    | LoginRequest(username: string, password: string)

  /** handleLogin up to the request: the username field is trimmed, the
      password is sent as typed. */
  function CheckLogin(usernameField: string, passwordField: string): (r: LoginOutcome)
    ensures r.LoginError? <==> AllSpace(usernameField) || passwordField == []
    ensures r.LoginError? ==> r.message == FillAllFields
    ensures r.LoginRequest? ==>
      r.username != [] && IsTrimOf(r.username, usernameField) && r.password == passwordField
  {
    var username := Trim(usernameField);
    if username == [] || passwordField == [] then LoginError(FillAllFields)
    else LoginRequest(username, passwordField)
  }

  // ------------------------------------------------------------------ signup

  /** The four fields of the signup form, as typed. */
  datatype SignupFields = SignupFields(
    username: string, email: string, password: string, passwordConfirm: string)

  datatype SignupOutcome =
    | SignupError(message: string)
    | SignupRequest(username: string, email: string, password: string)

  /** No field is left empty (username and email after trimming). */
  ghost predicate AllFilled(f: SignupFields) {
    !AllSpace(f.username) && !AllSpace(f.email) && f.password != [] && f.passwordConfirm != []
  }

  /** handleSignup up to the request. */
  function CheckSignup(f: SignupFields): (r: SignupOutcome)
    ensures r == SignupError(FillAllFields) <==> !AllFilled(f)
    ensures r == SignupError(PasswordTooShort) <==>
      AllFilled(f) && Utf16Length(f.password) < MinPasswordLength
    ensures r == SignupError(PasswordMismatch) <==>
      AllFilled(f) && Utf16Length(f.password) >= MinPasswordLength && f.password != f.passwordConfirm
    ensures r == SignupError(InvalidEmail) <==>
      AllFilled(f) && Utf16Length(f.password) >= MinPasswordLength && f.password == f.passwordConfirm &&
      !EmailRegexMatches(Trim(f.email))
    ensures r.SignupRequest? <==>
      AllFilled(f) && Utf16Length(f.password) >= MinPasswordLength && f.password == f.passwordConfirm &&
      EmailRegexMatches(Trim(f.email))
    ensures r.SignupRequest? ==>
      IsTrimOf(r.username, f.username) && IsTrimOf(r.email, f.email) && r.password == f.password
  {
    var username := Trim(f.username);
    var email := Trim(f.email);
    EmailShapeIsRegex(email);
    if username == [] || email == [] || f.password == [] || f.passwordConfirm == [] then
      SignupError(FillAllFields)
    else if Utf16Length(f.password) < MinPasswordLength then
      SignupError(PasswordTooShort)
    else if f.password != f.passwordConfirm then
      SignupError(PasswordMismatch)
    else if !EmailShape(email) then
      SignupError(InvalidEmail)
    else
      SignupRequest(username, email, f.password)
  }

  /** A signed-up email, as sent: no whitespace, exactly one '@' with
      something before it, and a '.' strictly inside the part after it. */
  lemma SignupEmailShape(f: SignupFields)
    requires CheckSignup(f).SignupRequest?
    ensures EmailShape(CheckSignup(f).email)
  {
    EmailShapeIsRegex(Trim(f.email));
  }

  lemma TrimOfTrimmed(s: string)
    requires s != [] && !IsSpace(s[0]) && !IsSpace(s[|s| - 1])
    ensures Trim(s) == s
  {
    assert SkipSpace(s, 0) == 0;
    assert SkipSpaceBack(s, |s|) == |s|;
    assert s[0..|s|] == s;
  }

  /** After a successful signup the login form is filled with the username
      and password that were sent (app.js:201-203); the login check then
      lets them through unchanged. */
  lemma SignupThenLogin(f: SignupFields)
    requires CheckSignup(f).SignupRequest?
    ensures var r := CheckSignup(f);
      CheckLogin(r.username, r.password) == LoginRequest(r.username, r.password)
  {
    var r := CheckSignup(f);
    TrimOfTrimmed(r.username);
  }
}
