/** `ReactiveFormsDemoComponent`: the registration form's own validators
    (password strength, password match) and the patterns the form gives
    to the framework's pattern validator (username, zip code, phone),
    together with submit and reset. The framework validators `required`,
    `email`, `minLength` and `maxLength` are used only as far as the
    username rule needs them; overall form validity is an input. */
module ReactiveForms {
  import opened Common
  import Text

  datatype ValidationError = PasswordStrength | PasswordMismatch

  // ---------------------------------------------------------------------
  // passwordStrengthValidator

  predicate HasUpper(s: String) { exists i :: 0 <= i < |s| && Text.IsUpper(s[i]) }
  predicate HasLower(s: String) { exists i :: 0 <= i < |s| && Text.IsLower(s[i]) }
  predicate HasDigit(s: String) { exists i :: 0 <= i < |s| && Text.IsDigit(s[i]) }

  /** `passwordStrengthValidator`: an empty value is left to `required`;
      any other value needs an ASCII upper-case letter, an ASCII lower-case
      letter and a digit. A `null` control value is the empty string. */
  function PasswordStrengthError(value: String): (r: Option<ValidationError>)
    ensures value == "" ==> r.None?
    ensures value != "" ==> (r.Some? <==> !(HasUpper(value) && HasLower(value) && HasDigit(value)))
    ensures r.Some? ==> r.value == PasswordStrength
  {
    if value == "" then None
    else if HasUpper(value) && HasLower(value) && HasDigit(value) then None
    else Some(PasswordStrength)
  }

  /** The three character-class tests of `passwordStrengthValidator`, done
      in one pass over the value. */
  method CheckStrength(value: String) returns (r: Option<ValidationError>)
    ensures r == PasswordStrengthError(value)
  {
    if value == "" {
      return None;
    }
    var upper, lower, digit := false, false, false;
    var i := 0;
    while i < |value|
      invariant 0 <= i <= |value|
      invariant upper <==> exists j :: 0 <= j < i && Text.IsUpper(value[j])
      invariant lower <==> exists j :: 0 <= j < i && Text.IsLower(value[j])
      invariant digit <==> exists j :: 0 <= j < i && Text.IsDigit(value[j])
    {
      var c := value[i];
      upper := upper || Text.IsUpper(c);
      lower := lower || Text.IsLower(c);
      digit := digit || Text.IsDigit(c);
      i := i + 1;
    }
    if upper && lower && digit {
      r := None;
    } else {
      r := Some(PasswordStrength);
    }
  }

  // ---------------------------------------------------------------------
  // passwordMatchValidator

  /** `passwordMatchValidator` on the `passwords` group: a mismatch is
      reported only when both values are filled in and differ. */
  function PasswordMatchError(password: String, confirmPassword: String): (r: Option<ValidationError>)
    ensures r.Some? <==> password != "" && confirmPassword != "" && password != confirmPassword
    ensures r.Some? ==> r.value == PasswordMismatch
  {
    if password != "" && confirmPassword != "" && password != confirmPassword then Some(PasswordMismatch)
    else None
  }

  /** The match check is symmetric, and equal values never mismatch. */
  lemma PasswordMatchSymmetric(a: String, b: String)
    ensures PasswordMatchError(a, b) == PasswordMatchError(b, a)
    ensures PasswordMatchError(a, a).None?
  {
  }

  // ---------------------------------------------------------------------
  // Patterns

  /** `[a-zA-Z0-9_]`. */
  predicate IsWordChar(c: char) {
    Text.IsUpper(c) || Text.IsLower(c) || Text.IsDigit(c) || c == '_'
  }

  /** `/^[a-zA-Z0-9_]+$/`. */
  predicate UsernamePattern(v: String) {
    |v| > 0 && forall i :: 0 <= i < |v| ==> IsWordChar(v[i])
  }

  /** The framework's length and pattern validators skip an empty value,
      which only `required` rejects. */
  predicate UsernameAccepted(v: String) {
    && v != ""
    && (v == "" || |v| >= 3)
    && (v == "" || |v| <= 20)
    && (v == "" || UsernamePattern(v))
  }

  /** The username rules combined: 3 to 20 characters, each a letter,
      digit or underscore. The characters are all ASCII, so JavaScript's
      UTF-16 length is the character count. */
  lemma UsernameRule(v: String)
    ensures UsernameAccepted(v) <==> 3 <= |v| <= 20 && forall i :: 0 <= i < |v| ==> IsWordChar(v[i])
  {
  }

  /** `/^\d{5}(-\d{4})?$/`: five digits, optionally followed by a dash and
      four digits. `\d` is ASCII digits only without the `u` flag. */
  predicate ZipPattern(v: String) {
    || (|v| == 5 && Text.AllDigits(v))
    || (|v| == 10 && Text.AllDigits(v[..5]) && v[5] == '-' && Text.AllDigits(v[6..]))
  }

  /** What the scan expects at position `i` of a zip code. */
  predicate ZipCharOk(i: int, c: char) {
    if i == 5 then c == '-' else Text.IsDigit(c)
  }

  /** Matches the zip pattern in one left-to-right scan, stopping at the
      first character out of place. */
  method MatchZip(v: String) returns (ok: bool)
    ensures ok <==> ZipPattern(v)
  {
    if |v| != 5 && |v| != 10 {
      return false;
    }
    var good := true;
    var i := 0;
    while i < |v| && good
      invariant 0 <= i <= |v|
      invariant good <==> forall j :: 0 <= j < i ==> ZipCharOk(j, v[j])
    {
      good := ZipCharOk(i, v[i]);
      i := i + 1;
    }
    ok := good;
    if good {
      assert forall j :: 0 <= j < |v| ==> ZipCharOk(j, v[j]);
      if |v| == 10 {
        assert forall j :: 0 <= j < 5 ==> v[..5][j] == v[j];
        assert forall j :: 0 <= j < 4 ==> v[6..][j] == v[j + 6] && ZipCharOk(j + 6, v[j + 6]);
      }
    } else {
      var k :| 0 <= k < i && !ZipCharOk(k, v[k]);
      if |v| == 10 && k < 5 {
        assert v[..5][k] == v[k];
      } else if |v| == 10 && k > 5 {
        assert v[6..][k - 6] == v[k];
      }
    }
  }

  /** `zipCode` is required and must match its pattern. */
  predicate ZipAccepted(v: String) {
    v != "" && ZipPattern(v)
  }

  /** `[\d\s\-\+\(\)]`. */
  predicate IsPhoneChar(c: char) {
    Text.IsDigit(c) || Text.IsWhitespace(c) || c == '-' || c == '+' || c == '(' || c == ')'
  }

  /** `/^[\d\s\-\+\(\)]+$/`. */
  predicate PhonePattern(v: String) {
    |v| > 0 && forall i :: 0 <= i < |v| ==> IsPhoneChar(v[i])
  }

  /** `phone` is optional: the pattern validator skips an empty value. */
  predicate PhoneAccepted(v: String) {
    v == "" || PhonePattern(v)
  }

  /** Matches the phone pattern in one scan. */
  method MatchPhone(v: String) returns (ok: bool)
    ensures ok <==> PhonePattern(v)
  {
    ok := |v| > 0;
    var i := 0;
    while i < |v|
      invariant 0 <= i <= |v|
      invariant ok <==> |v| > 0 && forall j :: 0 <= j < i ==> IsPhoneChar(v[j])
    {
      ok := ok && IsPhoneChar(v[i]);
      i := i + 1;
    }
  }

  // ---------------------------------------------------------------------
  // Component state

  /** The form's value; `null` control values after a reset are `""` and
      `false`. */
  datatype Registration = Registration(
    username: String, email: String,
    password: String, confirmPassword: String,
    street: String, city: String, state: String, zipCode: String,
    phone: String, birthDate: String, agreeToTerms: bool)

  const EmptyRegistration := Registration("", "", "", "", "", "", "", "", "", "", false)

  datatype ReactiveFormsDemo = ReactiveFormsDemo(
    form: Registration,
    touched: bool,
    submitted: bool,
    submittedData: Option<Registration>)

  const Initial := ReactiveFormsDemo(EmptyRegistration, false, false, None)

  /** The errors of the repository's own validators for a form value. */
  function OwnErrors(f: Registration): (r: set<ValidationError>)
    ensures PasswordStrength in r <==> PasswordStrengthError(f.password).Some?
    ensures PasswordMismatch in r <==> PasswordMatchError(f.password, f.confirmPassword).Some?
  {
    (if PasswordStrengthError(f.password).Some? then {PasswordStrength} else {})
    + (if PasswordMatchError(f.password, f.confirmPassword).Some? then {PasswordMismatch} else {})
  }

  /** `onSubmit()` with the form's validity as computed by the framework: a
      valid form is recorded, an invalid one only marks the controls
      touched. */
  function OnSubmit(c: ReactiveFormsDemo, valid: bool): (r: ReactiveFormsDemo)
    ensures valid ==> r == c.(submitted := true, submittedData := Some(c.form))
    ensures !valid ==> r == c.(touched := true)
  {
    if valid then c.(submitted := true, submittedData := Some(c.form))
    else c.(touched := true)
  }

  /** `onReset()`: every control emptied and untouched, nothing submitted. */
  function OnReset(c: ReactiveFormsDemo): (r: ReactiveFormsDemo)
    ensures !r.submitted && r.submittedData.None? && !r.touched
    ensures r.form == EmptyRegistration
  {
    Initial
  }

  /** Resetting twice is resetting once, and a reset form reports no error
      of the repository's own validators. */
  lemma ResetIsClean(c: ReactiveFormsDemo)
    ensures OnReset(OnReset(c)) == OnReset(c)
    ensures OwnErrors(OnReset(c).form) == {}
  {
  }

  // ---------------------------------------------------------------------
  // Sessions of edits, submits and resets

  /** What the user does: change the form's value, press submit (the
      framework's validity at that moment is given), or press reset. */
  datatype Action = SetForm(form: Registration) | Submit(valid: bool) | Reset

  function Apply(c: ReactiveFormsDemo, a: Action): ReactiveFormsDemo {
    match a
    case SetForm(f) => c.(form := f)
    case Submit(valid) => OnSubmit(c, valid)
    case Reset => OnReset(c)
  }

  /** The component after `actions`, starting from the fresh component. */
  function Run(actions: seq<Action>): ReactiveFormsDemo {
    if actions == [] then Initial else Apply(Run(actions[..|actions| - 1]), Last(actions))
  }

  /** Reference definition of the form's value: the latest value set since
      the latest reset, or the empty form. */
  function FormAfter(actions: seq<Action>): Registration {
    if actions == [] then EmptyRegistration
    else
      match Last(actions)
      case SetForm(f) => f
      case Reset => EmptyRegistration
      case Submit(_) => FormAfter(actions[..|actions| - 1])
  }

  /** Reference definition of the recorded submission: the form's value at
      the latest submit made while the form was valid, unless a reset came
      after it. */
  function LastSubmission(actions: seq<Action>): Option<Registration> {
    if actions == [] then None
    else
      var p := actions[..|actions| - 1];
      match Last(actions)
      case Submit(valid) => if valid then Some(FormAfter(p)) else LastSubmission(p)
      case Reset => None
      case SetForm(_) => LastSubmission(p)
  }

  /** Over any session the component holds the reference form value and
      records exactly the latest valid submission not undone by a reset:
      an invalid submit never records anything, and `submitted` is set
      exactly when data is recorded. */
  lemma {:induction false} RunTracksSubmission(actions: seq<Action>)
    ensures Run(actions).form == FormAfter(actions)
    ensures Run(actions).submittedData == LastSubmission(actions)
    ensures Run(actions).submitted <==> Run(actions).submittedData.Some?
  {
    if actions != [] {
      RunTracksSubmission(actions[..|actions| - 1]);
    }
  }
}
