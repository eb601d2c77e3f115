/** The submit logic of the sign-in / registration page (`AuthPage.jsx`): the client-side
    password checks, the mapping from failures to messages, and the redirect target. */
module AuthPage {
  import opened Wrappers
  import Text

  const MinPasswordLength := 6
  const DefaultTarget: string := "/dashboard"

  const PasswordsDiffer: string := "Passwords do not match"
  const PasswordTooShort: string := "Password must be at least 6 characters"
  const AuthenticationFailed: string := "Authentication failed"
  const AlreadyExists: string := "Email or username already exists"
  const GenericFailure: string := "An error occurred. Please try again."

  datatype Mode = SignIn | Register

  datatype AuthForm = AuthForm(email: string, password: string, confirmPassword: string, username: string)

  /** A failure thrown by the sign-in or registration call. */
  datatype Failure = Failure(status: Option<int>, message: Option<string>)

  /** `from`: the page the user was sent here from, or the dashboard. */
  function RedirectTarget(from: Option<string>): (target: string)
    ensures from.Some? && from.value != [] ==> target == from.value
    ensures from.None? || from.value == [] ==> target == DefaultTarget
  {
    Text.OrElse(from, DefaultTarget)
  }

  /** The checks made before registering: matching passwords first, then the length. Signing in
      makes neither check. */
  function RegistrationCheck(mode: Mode, f: AuthForm): (error: Option<string>)
    ensures mode == SignIn ==> error.None?
    ensures mode == Register && f.password != f.confirmPassword ==> error == Some(PasswordsDiffer)
    ensures mode == Register && f.password == f.confirmPassword && |f.password| < MinPasswordLength ==> error == Some(PasswordTooShort)
    ensures error.None? <==> mode == SignIn || (f.password == f.confirmPassword && |f.password| >= MinPasswordLength)
  {
    if mode == SignIn then None
    else if f.password != f.confirmPassword then Some(PasswordsDiffer)
    else if |f.password| < MinPasswordLength then Some(PasswordTooShort)
    else None
  }

  /** The `catch` block: 401 and 409 have fixed texts, otherwise the failure's own message if
      it has one, otherwise a generic text. */
  function FailureMessage(e: Failure): (m: string)
    ensures m != []
    ensures e.status == Some(401) ==> m == AuthenticationFailed
    ensures e.status == Some(409) ==> m == AlreadyExists
    ensures e.status != Some(401) && e.status != Some(409) && e.message.Some? && e.message.value != [] ==> m == e.message.value
    ensures e.status != Some(401) && e.status != Some(409) && (e.message.None? || e.message.value == []) ==> m == GenericFailure
  {
    if e.status == Some(401) then AuthenticationFailed
    else if e.status == Some(409) then AlreadyExists
    else Text.OrElse(e.message, GenericFailure)
  }

  /** What the server call returned. */
  datatype CallOutcome = Succeeded | Threw(failure: Failure)

  /** The page after a submit: the error it shows and where it navigates, if anywhere. */
  datatype AfterSubmit = AfterSubmit(error: string, navigateTo: Option<string>)

  /** `handleSubmit`: a failed client check shows its message and calls nothing; otherwise a
      successful call navigates to the redirect target and a failed one shows its message. */
  function Submit(mode: Mode, f: AuthForm, from: Option<string>, outcome: CallOutcome): (r: AfterSubmit)
    ensures RegistrationCheck(mode, f).Some? ==> r == AfterSubmit(RegistrationCheck(mode, f).value, None)
    ensures RegistrationCheck(mode, f).None? && outcome.Succeeded? ==> r == AfterSubmit("", Some(RedirectTarget(from)))
    ensures RegistrationCheck(mode, f).None? && outcome.Threw? ==> r.navigateTo.None? && r.error == FailureMessage(outcome.failure)
    ensures r.navigateTo.Some? <==> r.error == []
  {
    var check := RegistrationCheck(mode, f);
    if check.Some? then AfterSubmit(check.value, None)
    else match outcome
      case Succeeded => AfterSubmit("", Some(RedirectTarget(from)))
      case Threw(failure) => AfterSubmit(FailureMessage(failure), None)
  }

  /** Mismatched passwords are reported even when they are also too short. */
  lemma MismatchReportedFirst(f: AuthForm)
    requires f.password != f.confirmPassword && |f.password| < MinPasswordLength
    ensures RegistrationCheck(Register, f) == Some(PasswordsDiffer)
  {
  }

  /** Signing in never shows a client-side password error, whatever the form holds. */
  lemma SignInSkipsPasswordChecks(f: AuthForm, from: Option<string>)
    ensures Submit(SignIn, f, from, Succeeded).navigateTo == Some(RedirectTarget(from))
  {
  }
}
