/** The `LoginForm` component as an object: its seven state cells are fields
    and each handler changes them one setter at a time, in the order the
    component does.  Every method is specified by a `Form` function applied
    to the old state: each handler by its namesake, the timer body by
    `ResetAfterSuccess`, `Dispatch` by `Step` and the constructor by
    `Initial`, so the lemmas proved there hold of the object too. */
module Component {
  import opened Validation
  import opened Form

  class LoginForm {
    var username: string
    var password: string
    var showPassword: bool
    var errors: map<Field, string>
    var isSubmitted: bool
    var loginSuccess: bool
    var rememberMe: bool

    /** The current values of the seven cells. */
    function State(): FormState
      reads this
    {
      FormState(username, password, showPassword, errors, isSubmitted, loginSuccess, rememberMe)
    }

    /** Mounting: every cell at its `useState` initial value. */
    constructor ()
      ensures State() == Initial()
      ensures Consistent(State())
    {
      username := "";
      password := "";
      showPassword := false;
      errors := map[];
      isSubmitted := false;
      loginSuccess := false;
      rememberMe := false;
    }

    method HandleUsernameChange(value: string)
      modifies this
      ensures State() == Form.HandleUsernameChange(old(State()), value)
      ensures username == value && !HasError(errors, Username)
      ensures errors.Keys == old(errors).Keys
      ensures Password in errors ==> errors[Password] == old(errors)[Password]
    {
      username := value;
      if HasError(errors, Username) {
        errors := errors[Username := ""];
      }
    }

    method HandlePasswordChange(value: string)
      modifies this
      ensures State() == Form.HandlePasswordChange(old(State()), value)
      ensures password == value && !HasError(errors, Password)
      ensures errors.Keys == old(errors).Keys
      ensures Username in errors ==> errors[Username] == old(errors)[Username]
    {
      password := value;
      if HasError(errors, Password) {
        errors := errors[Password := ""];
      }
    }

    /** The submit handler.  `resetScheduled` is true when it arms the
        auto-reset timer; the timer's body is `ResetTimerFired`. */
    method HandleSubmit() returns (resetScheduled: bool)
      modifies this
      ensures State() == Form.HandleSubmit(old(State()))
      ensures resetScheduled == loginSuccess
      ensures resetScheduled <==> ValidCredentials(username, password)
      ensures isSubmitted && username == old(username) && password == old(password)
    {
      loginSuccess := false;
      isSubmitted := true;
      var newErrors := ValidateForm(username, password);
      if |newErrors| == 0 {
        loginSuccess := true;
        errors := map[];
      } else {
        errors := newErrors;
      }
      resetScheduled := loginSuccess;
    }

    /** The body of the timer armed by a successful submit. */
    method ResetTimerFired()
      modifies this
      ensures State() == ResetAfterSuccess(old(State()))
      ensures username == "" && password == ""
      ensures !rememberMe && !isSubmitted && !loginSuccess
      ensures errors == old(errors) && showPassword == old(showPassword)
    {
      username := "";
      password := "";
      rememberMe := false;
      isSubmitted := false;
      loginSuccess := false;
    }

    method HandleClearForm()
      modifies this
      ensures State() == Form.HandleClearForm(old(State()))
      ensures State() == Initial().(showPassword := old(showPassword))
    {
      username := "";
      password := "";
      rememberMe := false;
      errors := map[];
      isSubmitted := false;
      loginSuccess := false;
    }

    method HandleDemoLogin()
      modifies this
      ensures State() == Form.HandleDemoLogin(old(State()))
      ensures username == DemoUsername && password == DemoPassword
      ensures State().(username := old(username), password := old(password)) == old(State())
    {
      username := DemoUsername;
      password := DemoPassword;
    }

    /** The eye button's inline handler. */
    method ToggleShowPassword()
      modifies this
      ensures State() == Form.ToggleShowPassword(old(State()))
      ensures showPassword == !old(showPassword)
      ensures State().(showPassword := old(showPassword)) == old(State())
    {
      showPassword := !showPassword;
    }

    /** The remember-me checkbox's inline handler. */
    method HandleRememberMeChange(checked: bool)
      modifies this
      ensures State() == Form.HandleRememberMeChange(old(State()), checked)
      ensures rememberMe == checked
      ensures State().(rememberMe := old(rememberMe)) == old(State())
    {
      rememberMe := checked;
    }

    /** Delivers one event to the handler the component wires it to. */
    method Dispatch(e: Event)
      modifies this
      ensures State() == Step(old(State()), e)
      ensures Consistent(old(State())) ==> Consistent(State())
    {
      if Consistent(State()) {
        StepKeepsConsistent(State(), e);
      }
      match e
      case UsernameChanged(v) => HandleUsernameChange(v);
      case PasswordChanged(v) => HandlePasswordChange(v);
      case Submitted => var _ := HandleSubmit();
      case Cleared => HandleClearForm();
      case DemoRequested => HandleDemoLogin();
      case ShowPasswordToggled => ToggleShowPassword();
      case RememberMeChanged(c) => HandleRememberMeChange(c);
      case ResetTimerFired => ResetTimerFired();
    }
  }

  /** A client session: demo-fill, submit, and the timer, observed through
      the methods' contracts alone. */
  method DemoSession() returns (welcomed: bool, finalState: FormState)
    ensures welcomed
    ensures finalState == Initial()
  {
    var form := new LoginForm();
    form.HandleDemoLogin();
    DemoCredentialsValid();
    welcomed := form.HandleSubmit();
    form.ResetTimerFired();
    finalState := form.State();
  }
}
