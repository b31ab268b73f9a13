/** The login form's state and its event handlers, as values: one function
    per handler of the component, each running to completion on the current
    state, the last write to a state cell winning.  The auto-reset that a
    successful submit schedules with a timer is the separate event
    `ResetTimerFired`, which may arrive at any point. */
module Form {
  import opened JsString
  import opened Validation

  /** The seven state cells of the component. */
  datatype FormState = FormState(
    username: string,
    password: string,
    showPassword: bool,
    errors: map<Field, string>,
    isSubmitted: bool,
    loginSuccess: bool,
    rememberMe: bool)

  const DemoUsername := "demouser"
  const DemoPassword := "demo123"

  /** The state on mount: empty fields, no errors, every flag false. */
  function Initial(): (s: FormState)
    ensures s.username == "" && s.password == "" && s.errors == map[]
    ensures !s.showPassword && !s.isSubmitted && !s.loginSuccess && !s.rememberMe
  {
    FormState("", "", false, map[], false, false, false)
  }

  /** `setErrors(prev => ({ ...prev, f: '' }))` when `errors.f` is truthy:
      the error of `f` stops showing, its key stays, the others are kept. */
  function ClearFieldError(errors: map<Field, string>, f: Field): (r: map<Field, string>)
    ensures r.Keys == errors.Keys
    ensures !HasError(r, f)
    ensures forall g :: g != f && g in errors ==> r[g] == errors[g]
    ensures !HasError(errors, f) ==> r == errors
    ensures HasError(errors, f) ==> r[f] == ""
  {
    if HasError(errors, f) then errors[f := ""] else errors
  }

  /** `handleUsernameChange`: store the value verbatim and hide a shown
      username error. */
  function HandleUsernameChange(s: FormState, value: string): (r: FormState)
    ensures r.username == value
    ensures r.errors == ClearFieldError(s.errors, Username)
    ensures r.(username := s.username, errors := s.errors) == s
  {
    s.(username := value, errors := ClearFieldError(s.errors, Username))
  }

  /** `handlePasswordChange`: store the value verbatim and hide a shown
      password error. */
  function HandlePasswordChange(s: FormState, value: string): (r: FormState)
    ensures r.password == value
    ensures r.errors == ClearFieldError(s.errors, Password)
    ensures r.(password := s.password, errors := s.errors) == s
  {
    s.(password := value, errors := ClearFieldError(s.errors, Password))
  }

  /** `handleSubmit`: mark the form submitted, then either succeed with no
      errors or record the validator's errors; the inputs are untouched. */
  function HandleSubmit(s: FormState): (r: FormState)
    ensures r.isSubmitted
    ensures r.loginSuccess <==> ValidCredentials(s.username, s.password)
    ensures r.loginSuccess ==> r.errors == map[]
    ensures !r.loginSuccess ==> r.errors == ValidateForm(s.username, s.password) && r.errors != map[]
    ensures r.username == s.username && r.password == s.password
    ensures r.rememberMe == s.rememberMe && r.showPassword == s.showPassword
  {
    var newErrors := ValidateForm(s.username, s.password);
    if |newErrors| == 0 then
      s.(loginSuccess := true, isSubmitted := true, errors := map[])
    else
      s.(loginSuccess := false, isSubmitted := true, errors := newErrors)
  }

  /** The body of the timer a successful submit schedules: empty the inputs
      and lower the flags, leaving `errors` and `showPassword` alone. */
  function ResetAfterSuccess(s: FormState): (r: FormState)
    ensures r.username == "" && r.password == ""
    ensures !r.rememberMe && !r.isSubmitted && !r.loginSuccess
    ensures r.errors == s.errors && r.showPassword == s.showPassword
  {
    s.(username := "", password := "", rememberMe := false, isSubmitted := false, loginSuccess := false)
  }

  /** `handleClearForm`: every cell back to its initial value except
      `showPassword`, which it does not reset. */
  function HandleClearForm(s: FormState): (r: FormState)
    ensures r == Initial().(showPassword := s.showPassword)
    ensures r == Initial() <==> !s.showPassword
  {
    s.(username := "", password := "", rememberMe := false, errors := map[],
       isSubmitted := false, loginSuccess := false)
  }

  /** `handleDemoLogin`: load the demo credentials, nothing else. */
  function HandleDemoLogin(s: FormState): (r: FormState)
    ensures r.username == DemoUsername && r.password == DemoPassword
    ensures r.(username := s.username, password := s.password) == s
  {
    s.(username := DemoUsername, password := DemoPassword)
  }

  /** The eye button: `setShowPassword(!showPassword)`. */
  function ToggleShowPassword(s: FormState): (r: FormState)
    ensures r.showPassword != s.showPassword
    ensures r.(showPassword := s.showPassword) == s
  {
    s.(showPassword := !s.showPassword)
  }

  /** The remember-me checkbox: `setRememberMe(e.target.checked)`. */
  function HandleRememberMeChange(s: FormState, checked: bool): (r: FormState)
    ensures r.rememberMe == checked
    ensures r.(rememberMe := s.rememberMe) == s
  {
    s.(rememberMe := checked)
  }

  /** What the user (or the timer) can do to the form. */
  datatype Event =
    | UsernameChanged(value: string)
    | PasswordChanged(value: string)
    | Submitted
    | Cleared
    | DemoRequested
    | ShowPasswordToggled
    | RememberMeChanged(checked: bool)
    | ResetTimerFired

  /** Every error recorded is the field's own "required" or "too short"
      message, or the empty string a change handler left behind. */
  predicate ErrorsWellFormed(errors: map<Field, string>) {
    forall f :: f in errors ==>
      errors[f] == "" || errors[f] == RequiredMessage(f) || errors[f] == TooShortMessage(f)
  }

  /** The invariant every handler keeps: well-formed errors, and the success
      banner only after a submit and with no error recorded. */
  predicate Consistent(s: FormState) {
    && ErrorsWellFormed(s.errors)
    && (s.loginSuccess ==> s.isSubmitted && s.errors == map[])
  }

  /** The handler an event triggers, as the component wires them up.  Each
      effect has only the events that can cause it: only a submit marks the
      form submitted, raises the banner or shows a new error; only the eye
      button changes visibility; only the checkbox ticks remember-me; and an
      input changes to anything but empty only by typing or demo-fill. */
  function Step(s: FormState, e: Event): (r: FormState)
    ensures r.isSubmitted && !s.isSubmitted ==> e.Submitted?
    ensures r.loginSuccess && !s.loginSuccess ==> e.Submitted?
    ensures !e.Submitted? ==> forall f :: HasError(r.errors, f) ==> HasError(s.errors, f)
    ensures r.showPassword != s.showPassword <==> e.ShowPasswordToggled?
    ensures r.rememberMe && !s.rememberMe ==> e.RememberMeChanged?
    ensures r.username != s.username && r.username != "" ==> e.UsernameChanged? || e.DemoRequested?
    ensures r.password != s.password && r.password != "" ==> e.PasswordChanged? || e.DemoRequested?
  {
    match e
    case UsernameChanged(v) => HandleUsernameChange(s, v)
    case PasswordChanged(v) => HandlePasswordChange(s, v)
    case Submitted => HandleSubmit(s)
    case Cleared => HandleClearForm(s)
    case DemoRequested => HandleDemoLogin(s)
    case ShowPasswordToggled => ToggleShowPassword(s)
    case RememberMeChanged(c) => HandleRememberMeChange(s, c)
    case ResetTimerFired => ResetAfterSuccess(s)
  }

  /** The validator only ever records the field's own messages. */
  lemma ValidateFormWellFormed(username: string, password: string)
    ensures ErrorsWellFormed(ValidateForm(username, password))
  {
  }

  /** Every handler keeps the invariant. */
  lemma StepKeepsConsistent(s: FormState, e: Event)
    requires Consistent(s)
    ensures Consistent(Step(s, e))
  {
    match e
    case Submitted => ValidateFormWellFormed(s.username, s.password);
    case _ =>
  }

  /** The state after handling `events` in order. */
  function Run(s: FormState, events: seq<Event>): FormState
    decreases |events|
  {
    if events == [] then s else Run(Step(s, events[0]), events[1..])
  }

  /** Any sequence of events keeps the invariant. */
  lemma {:induction false} RunKeepsConsistent(s: FormState, events: seq<Event>)
    requires Consistent(s)
    ensures Consistent(Run(s, events))
    decreases |events|
  {
    if events != [] {
      StepKeepsConsistent(s, events[0]);
      RunKeepsConsistent(Step(s, events[0]), events[1..]);
    }
  }

  /** Every state reachable from mount is consistent. */
  lemma ReachableIsConsistent(events: seq<Event>)
    ensures Consistent(Run(Initial(), events))
  {
    RunKeepsConsistent(Initial(), events);
  }

  /** Clear is idempotent. */
  lemma ClearIdempotent(s: FormState)
    ensures HandleClearForm(HandleClearForm(s)) == HandleClearForm(s)
  {
  }

  /** The show-password toggle is an involution. */
  lemma ToggleInvolution(s: FormState)
    ensures ToggleShowPassword(ToggleShowPassword(s)) == s
  {
  }

  /** The demo credentials pass validation. */
  lemma DemoCredentialsValid()
    ensures ValidateForm(DemoUsername, DemoPassword) == map[]
  {
  }

  /** A submit straight after demo-fill always succeeds. */
  lemma DemoThenSubmitSucceeds(s: FormState)
    ensures var r := HandleSubmit(HandleDemoLogin(s));
      && r.loginSuccess && r.isSubmitted && r.errors == map[]
      && r.username == DemoUsername && r.password == DemoPassword
  {
    DemoCredentialsValid();
  }

  /** A successful submit followed by its timer ends in the initial state,
      except that the password visibility stays as it was. */
  lemma SuccessThenReset(s: FormState)
    requires ValidCredentials(s.username, s.password)
    ensures ResetAfterSuccess(HandleSubmit(s)) == Initial().(showPassword := s.showPassword)
  {
  }

  /** Editing a field hides only that field's error: after a failed submit,
      a username change hides the username error and keeps the password
      error exactly as the validator left it. */
  lemma EditClearsOnlyItsOwnError(s: FormState, value: string)
    requires !ValidCredentials(s.username, s.password)
    ensures var failed := HandleSubmit(s);
      var r := HandleUsernameChange(failed, value);
      && !HasError(r.errors, Username)
      && (Password in failed.errors <==> Password in r.errors)
      && (Password in r.errors ==> r.errors[Password] == ValidateForm(s.username, s.password)[Password])
  {
  }

  /** Submitting an empty form records both "required" messages. */
  lemma SubmitEmptyForm(s: FormState)
    requires s.username == "" && s.password == ""
    ensures var r := HandleSubmit(s);
      && !r.loginSuccess && r.isSubmitted
      && r.errors == map[Username := UsernameRequired, Password := PasswordRequired]
  {
  }

  /** A two-character username with an acceptable password fails on the
      username alone. */
  lemma SubmitShortUsername(s: FormState)
    requires s.username == "ab" && Acceptable(s.password, MinPasswordLength)
    ensures var r := HandleSubmit(s);
      && !r.loginSuccess && r.errors == map[Username := UsernameTooShort]
  {
    assert !IsWhitespace(s.username[0]);
    Utf16LengthOfBmp(s.username);
  }

  /** "ab" with "abcdef" is one such case. */
  lemma SubmitShortUsernameAbcdef(s: FormState)
    requires s.username == "ab" && s.password == "abcdef"
    ensures HandleSubmit(s).errors == map[Username := UsernameTooShort]
  {
    assert !IsWhitespace(s.password[0]);
    Utf16LengthOfBmp(s.password);
    SubmitShortUsername(s);
  }

  /** The emptiness test trims but the length test does not: a username of
      two blanks and one letter is accepted. */
  lemma PaddedUsernameAccepted()
    ensures Username !in ValidateForm("  a", "")
  {
  }

  /** The length test counts UTF-16 code units: one letter and one
      astral-plane character make a three-unit username, which is accepted. */
  lemma AstralCharacterCountsTwice()
    ensures Username !in ValidateForm("a\U{1F600}", "")
  {
  }

  /** The five events of the scenario below: a demo login that succeeds, an
      edit to a too-short username, a failing resubmit, and then the timer
      of the first submit. */
  const StaleResetScenario: seq<Event> :=
    [DemoRequested, Submitted, UsernameChanged("ab"), Submitted, ResetTimerFired]

  /** The timer is never cancelled: if it fires after the user has started a
      new, failing attempt, it empties the inputs and lowers `isSubmitted`
      while the failed attempt's errors stay on screen. */
  lemma StaleResetAfterFailedSubmit()
    ensures var r := Run(Initial(), StaleResetScenario);
      && r.username == "" && r.password == "" && !r.isSubmitted && !r.loginSuccess
      && r.errors == map[Username := UsernameTooShort]
  {
    var s1 := HandleDemoLogin(Initial());
    DemoCredentialsValid();
    var s2 := HandleSubmit(s1);
    var s3 := HandleUsernameChange(s2, "ab");
    var s4 := HandleSubmit(s3);
    SubmitShortUsername(s3);
    var s5 := ResetAfterSuccess(s4);
    var es := StaleResetScenario;
    RunOne(s4, es[4]);
    RunCons(s3, es[3], es[4..]);
    RunCons(s2, es[2], es[3..]);
    RunCons(s1, es[1], es[2..]);
    RunCons(Initial(), es[0], es[1..]);
  }

  /** Running a single event is one step. */
  lemma RunOne(s: FormState, e: Event)
    ensures Run(s, [e]) == Step(s, e)
  {
  }

  /** Running a non-empty sequence is a step followed by running the rest. */
  lemma RunCons(s: FormState, e: Event, rest: seq<Event>)
    ensures Run(s, [e] + rest) == Run(Step(s, e), rest)
  {
  }
}
