/** The field rules of the sign-up form (src/pages/SignUp.tsx) and the log-in
    form (src/pages/LogIn.tsx), as react-hook-form applies them on submit: an
    empty value fails `required`; a non-empty one is checked against
    `maxLength`, then `minLength`, then `pattern`; the first failing rule gives
    the field's error. */
module FormRules {
  import opened Optional

  /** JavaScript's `\s` class. */
  predicate IsSpace(c: char) {
    || c == ' ' || c == '\t' || c == '\n' || c == '\r' || c == '\U{000B}' || c == '\U{000C}'
    || c == '\U{00A0}' || c == '\U{1680}' || ('\U{2000}' <= c <= '\U{200A}')
    || c == '\U{2028}' || c == '\U{2029}' || c == '\U{202F}' || c == '\U{205F}'
    || c == '\U{3000}' || c == '\U{FEFF}'
  }

  /** Every character matches `\S`. */
  predicate NoSpace(s: string) {
    forall i :: 0 <= i < |s| ==> !IsSpace(s[i])
  }

  /** `/^\S+@\S+$/i` read off the pattern: a non-empty run of non-space
      characters, an `@`, and another non-empty run of non-space characters.
      The `i` flag changes nothing, the pattern has no letters. */
  predicate MatchesEmailPattern(s: string) {
    exists k :: 0 < k < |s| - 1 && s[k] == '@' && NoSpace(s[..k]) && NoSpace(s[k + 1..])
  }

  /** The flat description of the same set: no whitespace anywhere, and some
      `@` with at least one character on each side; more `@`s are allowed. */
  predicate EmailShape(s: string) {
    NoSpace(s) && exists k :: 0 < k < |s| - 1 && s[k] == '@'
  }

  datatype ErrorKind = Required | MaxLength | MinLength | Pattern

  /** The error react-hook-form records for a field: which rule failed and
      the message registered with it (`""` when the rule was given bare). */
  datatype FieldError = FieldError(kind: ErrorKind, message: string)

  datatype LengthRule = LengthRule(limit: nat, message: string)

  /** The options a field is registered with; `emailPattern` stands for
      `pattern: /^\S+@\S+$/i`, the only pattern the forms use. */
  datatype Rules = Rules(
    required: Option<string>,
    maxLength: Option<LengthRule>,
    minLength: Option<LengthRule>,
    emailPattern: Option<string>
  )

  /** The first rule the value breaks, if any. */
  function Validate(rules: Rules, value: string): Option<FieldError> {
    if value == "" then
      (if rules.required.Some? then Some(FieldError(Required, rules.required.value)) else None)
    else if rules.maxLength.Some? && |value| > rules.maxLength.value.limit then
      Some(FieldError(MaxLength, rules.maxLength.value.message))
    else if rules.minLength.Some? && |value| < rules.minLength.value.limit then
      Some(FieldError(MinLength, rules.minLength.value.message))
    else if rules.emailPattern.Some? && !MatchesEmailPattern(value) then
      Some(FieldError(Pattern, rules.emailPattern.value))
    else None
  }

  /** Sign-up `Username`: required, at most 50 characters. */
  const SignUpUsername: Rules := Rules(Some("Username is required"), Some(LengthRule(50, "Max length is 50")), None, None)

  /** `Email` on both forms: required, must match the email pattern. */
  const EmailRules: Rules := Rules(Some("Email is required"), None, None, Some("Email is not valid"))

  /** Sign-up `Password`: `required: true, minLength: 3`, no messages. */
  const SignUpPassword: Rules := Rules(Some(""), None, Some(LengthRule(3, "")), None)

  /** Log-in `Password`: required, at least 3 characters, with messages. */
  const LogInPassword: Rules :=
    Rules(Some("Password is required"), None, Some(LengthRule(3, "Password must be at least 3 characters")), None)

  function CheckUsername(value: string): (err: Option<FieldError>)
    ensures err.None? <==> 0 < |value| <= 50
    ensures value == "" ==> err == Some(FieldError(Required, "Username is required"))
    ensures |value| > 50 ==> err == Some(FieldError(MaxLength, "Max length is 50"))
  {
    Validate(SignUpUsername, value)
  }

  function CheckEmail(value: string): (err: Option<FieldError>)
    ensures err.None? <==> value != "" && EmailShape(value)
    ensures value == "" ==> err == Some(FieldError(Required, "Email is required"))
    ensures value != "" && !EmailShape(value) ==> err == Some(FieldError(Pattern, "Email is not valid"))
  {
    EmailPatternIsShape(value);
    Validate(EmailRules, value)
  }

  function CheckSignUpPassword(value: string): (err: Option<FieldError>)
    ensures err.None? <==> |value| >= 3
    ensures value == "" ==> err == Some(FieldError(Required, ""))
    ensures 0 < |value| < 3 ==> err == Some(FieldError(MinLength, ""))
  {
    Validate(SignUpPassword, value)
  }

  function CheckLogInPassword(value: string): (err: Option<FieldError>)
    ensures err.None? <==> |value| >= 3
    ensures value == "" ==> err == Some(FieldError(Required, "Password is required"))
    ensures 0 < |value| < 3 ==> err == Some(FieldError(MinLength, "Password must be at least 3 characters"))
  {
    Validate(LogInPassword, value)
  }

  // ---------------------------------------------------------------------
  // Properties
  // ---------------------------------------------------------------------

  /** The pattern read piece by piece accepts exactly the flat description. */
  lemma EmailPatternIsShape(s: string)
    ensures MatchesEmailPattern(s) <==> EmailShape(s)
  {
  }

  /** Sample emails: extra `@`s pass; a missing local part, a missing domain
      or a space fails. */
  lemma EmailExamples()
    ensures CheckEmail("a@b").None?
    ensures CheckEmail("a@b@c").None?
    ensures CheckEmail("@b") == Some(FieldError(Pattern, "Email is not valid"))
    ensures CheckEmail("a@") == Some(FieldError(Pattern, "Email is not valid"))
    ensures CheckEmail("a b@c") == Some(FieldError(Pattern, "Email is not valid"))
    ensures CheckEmail("") == Some(FieldError(Required, "Email is required"))
  {
    assert "a@b"[1] == '@';
    assert "a@b@c"[1] == '@';
    assert IsSpace("a b@c"[1]);
  }
}
