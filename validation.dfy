/** The form's validator, `validateForm`: a pure map from the two field
    values to field-level error messages. */
module Validation {
  import opened JsString

  /** The two inputs that can carry an error. */
  datatype Field = Username | Password

  const MinUsernameLength: nat := 3
  const MinPasswordLength: nat := 6

  const UsernameRequired := "Username is required"
  const UsernameTooShort := "Username must be at least 3 characters"
  const PasswordRequired := "Password is required"
  const PasswordTooShort := "Password must be at least 6 characters"

  function RequiredMessage(f: Field): string {
    match f
    case Username => UsernameRequired
    case Password => PasswordRequired
  }

  function TooShortMessage(f: Field): string {
    match f
    case Username => UsernameTooShort
    case Password => PasswordTooShort
  }

  /** JavaScript's truthiness test `errors.f`: an absent key reads as
      `undefined` and `''` is falsy, so only a non-empty message shows. */
  predicate HasError(errors: map<Field, string>, f: Field)
    ensures f !in errors ==> !HasError(errors, f)
    ensures f in errors && errors[f] == "" ==> !HasError(errors, f)
    ensures f in errors && |errors[f]| > 0 ==> HasError(errors, f)
  {
    f in errors && errors[f] != ""
  }

  /** The reference acceptance rule of one field value: not blank, and at
      least `min` UTF-16 code units long (blanks inside the value count). */
  predicate Acceptable(value: string, min: nat) {
    !AllWhitespace(value) && Utf16Length(value) >= min
  }

  /** The credentials a submit accepts. */
  predicate ValidCredentials(username: string, password: string) {
    Acceptable(username, MinUsernameLength) && Acceptable(password, MinPasswordLength)
  }

  /** `validateForm()`: the "required" message when the trimmed value is
      empty, otherwise the "too short" message when the raw length is under
      the field's minimum, otherwise no entry; the two fields independently. */
  function ValidateForm(username: string, password: string): (r: map<Field, string>)
    ensures Username in r <==> !Acceptable(username, MinUsernameLength)
    ensures Username in r ==>
      r[Username] == if AllWhitespace(username) then UsernameRequired else UsernameTooShort
    ensures Password in r <==> !Acceptable(password, MinPasswordLength)
    ensures Password in r ==>
      r[Password] == if AllWhitespace(password) then PasswordRequired else PasswordTooShort
    ensures forall f :: f in r ==> HasError(r, f)
    ensures |r| == 0 <==> ValidCredentials(username, password)
  {
    var afterUsername :=
      if Trim(username) == "" then map[Username := UsernameRequired]
      else if Utf16Length(username) < MinUsernameLength then map[Username := UsernameTooShort]
      else map[];
    var r :=
      if Trim(password) == "" then afterUsername[Password := PasswordRequired]
      else if Utf16Length(password) < MinPasswordLength then afterUsername[Password := PasswordTooShort]
      else afterUsername;
    assert |r| == 0 <==> r == map[];
    r
  }
}
