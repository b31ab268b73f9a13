# Login form: validator and state machine

This project models the `LoginForm` component of a small React login page
(`app.js`). The component keeps seven state cells: `username`, `password`,
`showPassword`, `errors`, `isSubmitted`, `loginSuccess` and `rememberMe`.
Its event handlers change those cells, and a pure validator turns the two
field values into field-level error messages. Nothing is sent anywhere.
"Login" only means that both fields pass validation, which raises a success
banner and arms a timer that later empties the form.

The model is split into four modules.

- `JsString` (`js_string.dfy`) models the two JavaScript string operations
  the validator uses. `Trim` is `String.prototype.trim`. It strips
  ECMAScript's WhiteSpace and LineTerminator characters from both ends.
  `Utf16Length` is the `length` property. A Dafny `char` is a Unicode scalar
  value, but JavaScript counts UTF-16 code units, so a character outside the
  Basic Multilingual Plane counts twice.
- `Validation` (`validation.dfy`) models `validateForm`. It holds the field
  type, the four messages and the two minimum lengths (3 and 6). The
  validator's contract is stated against an independent reference:
  `AllWhitespace` for "empty after trimming" and `Acceptable` for a field
  that passes.
- `Form` (`form.dfy`) models the component's state as a value, reducer
  style. There is one function per handler. Each handler runs to completion
  on the current state, and within a handler the last write to a cell wins.
  The timer's callback is a separate `ResetTimerFired` event. `Step` wires
  each event to its handler and `Run` plays a sequence of events. The
  invariant `Consistent` is proved to hold in every reachable state. The
  remaining lemmas cover the promised behaviour: idempotent Clear,
  involutive toggle, demo-fill then submit succeeds, success then timer,
  and the concrete cases.
- `Component` (`component.dfy`) is the imperative form. Class `LoginForm`
  holds the seven cells as fields, and each handler is a method that
  assigns them one setter at a time, in the component's order. Each method's
  contract ties the new `State()` to the `Form` function applied to
  `old(State())`, so the `Form` lemmas also hold of the object.
  `HandleSubmit` returns `resetScheduled`, which stands for the
  `setTimeout` call. `DemoSession` is a client that relies on the contracts
  alone.

Details kept exactly as the code has them:

- The emptiness test uses `trim()`, but the length test uses the raw
  `length`. So `"  a"` is an accepted username (`PaddedUsernameAccepted`).
- The change handlers overwrite a shown error with `''` and keep its key.
  They never delete the key (`ClearFieldError`). "Has an error" means the
  key is present and its message is non-empty, which matches JavaScript
  truthiness.
- Clear does not reset `showPassword` (app.js:97-105, `Form.HandleClearForm`).
- The timer body touches neither `errors` nor `showPassword` (app.js:82-88,
  `Form.ResetAfterSuccess`). After a successful submit `errors` is already
  empty, so `SuccessThenReset` reaches the initial state except for
  `showPassword`.
- The timer is never cancelled. `StaleResetAfterFailedSubmit` shows the
  result: after a successful submit, an edit and a failing resubmit, the
  old timer still empties the inputs and lowers `isSubmitted`, while the
  new errors stay on screen.

## Model

| member | source | states |
|---|---|---|
| `JsString.IsWhitespace` | app.js:39 | the characters `trim()` strips: every one is a single UTF-16 code unit, no printable ASCII character is among them, and space, tab, line feed and carriage return are |
| `JsString.LeadingBlanks` | app.js:39 | the count of leading characters stripped by `trim()`: all of them whitespace, and the next character (if any) is not |
| `JsString.TrailingBlanks` | app.js:45 | the count of trailing characters stripped by `trim()`: all of them whitespace, and the character before them (if any) is not |
| `JsString.Trim` | app.js:39 | `s.trim()` is empty exactly when every character of `s` is ECMAScript whitespace |
| `JsString.TrimShape` | app.js:45 | the trimmed string is an infix of `s` that neither starts nor ends with whitespace, and everything removed on either side is whitespace |
| `JsString.Utf16Length` | app.js:41 | `s.length` counts UTF-16 code units: between the number of characters and twice that |
| `JsString.Utf16LengthOfBmp` | app.js:47 | `length` equals the character count exactly when no character needs a surrogate pair |
| `Validation.HasError` | app.js:18-19 | the truthiness test `errors.f` (also at line 30): false for an absent key and for `''`, true for any non-empty message |
| `Validation.ValidateForm` | app.js:36-52 | username: an entry exactly when the value is all whitespace or shorter than 3 code units; the entry is "Username is required" when all whitespace, else "Username must be at least 3 characters"; password: the same with 6 and the password messages; each entry depends only on its own field; every message is non-empty; the map is empty exactly when both fields are acceptable |
| `Form.Initial` | app.js:5-11 | on mount both fields are empty, no error is recorded and every flag is false |
| `Form.ClearFieldError` | app.js:19-20 | the keys stay the same, the field's error no longer shows, other fields' entries are untouched, and an error that was not showing leaves the map unchanged |
| `Form.HandleUsernameChange` | app.js:14-22 | the username is stored verbatim, the username error is hidden with its key kept, and every other cell, including the password error, is unchanged |
| `Form.HandlePasswordChange` | app.js:25-33 | the password is stored verbatim, the password error is hidden with its key kept, and every other cell, including the username error, is unchanged |
| `Form.HandleSubmit` | app.js:55-94 | the form is marked submitted; `loginSuccess` holds exactly when the credentials are acceptable; on success `errors` is emptied, otherwise it is the validator's (non-empty) result; the fields, `rememberMe` and `showPassword` are unchanged |
| `Form.ResetAfterSuccess` | app.js:82-88 | the timer body empties both fields and lowers `rememberMe`, `isSubmitted` and `loginSuccess`, leaving `errors` and `showPassword` as they were |
| `Form.HandleClearForm` | app.js:97-105 | from any state, the result is the initial state with `showPassword` kept, so it is the initial state exactly when the password was hidden |
| `Form.HandleDemoLogin` | app.js:108-112 | the username becomes "demouser", the password becomes "demo123", and every other cell is unchanged |
| `Form.ToggleShowPassword` | app.js:193 | visibility flips and every other cell is unchanged |
| `Form.HandleRememberMeChange` | app.js:216-219 | `rememberMe` takes the checkbox value and every other cell is unchanged |
| `Form.Step` | app.js:148-257 | each event runs the handler it is wired to; only a submit marks the form submitted, raises the banner or shows a new error; visibility changes exactly on the eye button; only the checkbox ticks remember-me; an input takes a new non-empty value only by typing or demo-fill |
| `Form.ValidateFormWellFormed` | app.js:36-52 | the validator records only each field's own "required" or "too short" message |
| `Form.StepKeepsConsistent` | app.js:148-257 | every handler wired to the form keeps the invariant: each recorded error is the field's own message or `''`, and the success banner shows only after a submit and with no error recorded |
| `Form.RunKeepsConsistent` | app.js:14-112 | any sequence of events keeps the invariant |
| `Form.ReachableIsConsistent` | app.js:5-11 | every state reachable from mount satisfies the invariant |
| `Form.ClearIdempotent` | app.js:97-105 | clearing twice is the same as clearing once |
| `Form.ToggleInvolution` | app.js:193 | toggling visibility twice restores the state |
| `Form.DemoCredentialsValid` | app.js:39-49 | "demouser" (8 code units) and "demo123" (7) produce no validation error |
| `Form.DemoThenSubmitSucceeds` | app.js:108-112 | a submit right after demo-fill always succeeds with no errors, from any state |
| `Form.SuccessThenReset` | app.js:78-88 | a successful submit followed by its timer yields the initial state, except that `showPassword` is kept |
| `Form.EditClearsOnlyItsOwnError` | app.js:19-20 | after a failed submit, editing the username hides its error and leaves the password error exactly as the validator produced it |
| `Form.SubmitEmptyForm` | app.js:39-46 | submitting two empty fields records both "required" messages and no success |
| `Form.SubmitShortUsername` | app.js:39-49 | a username of "ab" with any acceptable password fails on the username alone, with the "too short" message |
| `Form.SubmitShortUsernameAbcdef` | app.js:41-47 | "ab" with "abcdef" records only the username's "too short" message |
| `Form.PaddedUsernameAccepted` | app.js:39-41 | the username "  a" passes, because the emptiness test trims but the length test counts the raw value |
| `Form.AstralCharacterCountsTwice` | app.js:41 | a letter followed by one astral-plane character is three code units long, so it passes the length test |
| `Form.StaleResetAfterFailedSubmit` | app.js:82-88 | demo-fill, submit, edit to "ab", submit again, then the first timer: the inputs are empty and `isSubmitted` is false, while the second submit's username error is still recorded |
| `Component.LoginForm.constructor` | app.js:5-11 | a new form is in the initial state, which is consistent |
| `Component.LoginForm.HandleUsernameChange` | app.js:14-22 | the setters compute `Form.HandleUsernameChange`: the value is stored, the username error is hidden, the keys are kept and the password entry is untouched |
| `Component.LoginForm.HandlePasswordChange` | app.js:25-33 | the setters compute `Form.HandlePasswordChange`: the value is stored, the password error is hidden, the keys are kept and the username entry is untouched |
| `Component.LoginForm.HandleSubmit` | app.js:55-94 | the setter sequence computes `Form.HandleSubmit`; the reset timer is armed exactly when login succeeds, which is exactly when the credentials are acceptable; the form is submitted and the fields are unchanged |
| `Component.LoginForm.ResetTimerFired` | app.js:82-88 | the timer body's five setters give `Form.ResetAfterSuccess`, and `errors` and `showPassword` are untouched |
| `Component.LoginForm.HandleClearForm` | app.js:97-105 | the six setters give the initial state with `showPassword` kept |
| `Component.LoginForm.HandleDemoLogin` | app.js:108-112 | the two setters load the demo credentials and nothing else changes |
| `Component.LoginForm.ToggleShowPassword` | app.js:193 | visibility flips and nothing else changes |
| `Component.LoginForm.HandleRememberMeChange` | app.js:216-219 | `rememberMe` takes the checkbox value and nothing else changes |
| `Component.LoginForm.Dispatch` | app.js:148-257 | each event runs the handler the component wires it to, giving `Form.Step`, and keeps the invariant |
| `Component.DemoSession` | app.js:108-112 | a fresh form, demo-filled, submitted and then reset by its timer, shows the welcome and ends in the initial state |

## Left out

- JSX rendering and styling (app.js:114-285) is a projection of the state and changes nothing, apart from the inline toggle and checkbox handlers, which are modelled.
- The `console.log` calls and the `new Date().toLocaleString()` timestamp are diagnostic output with no effect on the state.
- The 2-second delay is not modelled. `ResetTimerFired` is an event that may arrive at any point, even when no timer is pending, so the model allows more interleavings than the component can produce. Pending timers are not counted and nothing cancels them.
- Component.LoginForm.HandleSubmit: the `setTimeout` call is represented only by the returned `resetScheduled` flag. The environment is expected to deliver `ResetTimerFired` later.
- React's `useState` mechanics (batching, re-renders, stale closures) are not modelled. Each handler runs on the current state and the last write to a cell wins, so in a successful submit `setLoginSuccess(false)` followed by `setLoginSuccess(true)` ends as `true`.
- Component unmount, which discards the state and any pending timer, is not modelled.
- The `lucide-react` icons and the inert "Forgot your password?" button carry no behaviour.
- `e.preventDefault()` is a DOM effect.
- JavaScript strings can hold lone surrogate code units. A Dafny `char` cannot, so those strings are outside the model. Every character `trim()` removes lies in the Basic Multilingual Plane, so trimming is unaffected for all other strings.
