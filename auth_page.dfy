/** The sign-in / sign-up page (frontend/src/pages/AuthPage.tsx): its state
    and the transitions of its handlers. Local storage is the page's
    `storedToken` field; navigation is recorded in `route`. */
module AuthPage {
  import opened Wrappers
  import opened JsText
  import opened Auth

  const PasswordsDiffer := "Passwords do not match"
  const PasswordUnder8 := "Password must be at least 8 characters long"
  const SignUpDone := "Account created successfully! Please check your email to confirm your account."
  const SignUpFallback := "Failed to create account. Please try again."
  const SignInFallback := "Invalid email or password. Please try again."
  const DashboardRoute := "/dashboard"

  datatype FormData = FormData(email: string, password: string, name: string, confirmPassword: string)

  const EmptyForm := FormData("", "", "", "")

  /** The fields the page edits. */
  datatype FormField = EmailField | PasswordField | NameField | ConfirmPasswordField

  /** The checks `handleSignUp` makes before calling the service: the
      confirmation first, then the 8-character minimum. */
  function PreCheck(f: FormData): (e: Option<string>)
    ensures f.password != f.confirmPassword ==> e == Some(PasswordsDiffer)
    ensures f.password == f.confirmPassword && |f.password| < 8 ==> e == Some(PasswordUnder8)
    ensures e.None? <==> f.password == f.confirmPassword && |f.password| >= 8
  {
    if f.password != f.confirmPassword then Some(PasswordsDiffer)
    else if |f.password| < 8 then Some(PasswordUnder8)
    else None
  }

  /** A form that passes the page's checks is never refused by the service
      for a short password. */
  lemma PageChecksSubsumeService(users: seq<User>, f: FormData)
    requires PreCheck(f).None?
    ensures Register(users, f.email, f.password, f.name).0 != Failure(PasswordTooShort)
  {
  }

  class PageState {
    var tabValue: int
    var loading: bool
    var error: Option<string>
    var success: Option<string>
    var form: FormData
    var storedToken: Option<string>
    var route: Option<string>

    constructor (storedToken: Option<string>)
      ensures tabValue == 0 && !loading && error.None? && success.None? && form == EmptyForm
      ensures this.storedToken == storedToken && route.None?
    {
      tabValue, loading, error, success, form := 0, false, None, None, EmptyForm;
      this.storedToken, route := storedToken, None;
    }

    /** `handleTabChange`: switch tab and clear the messages and every field. */
    method HandleTabChange(newValue: int)
      modifies this`tabValue, this`error, this`success, this`form
      ensures tabValue == newValue && error.None? && success.None? && form == EmptyForm
    {
      tabValue := newValue;
      error := None;
      success := None;
      form := EmptyForm;
    }

    /** `handleChange(field)`: that field takes the value, the others stay. */
    method HandleChange(field: FormField, value: string)
      modifies this`form
      ensures field == EmailField ==> form == old(form).(email := value)
      ensures field == PasswordField ==> form == old(form).(password := value)
      ensures field == NameField ==> form == old(form).(name := value)
      ensures field == ConfirmPasswordField ==> form == old(form).(confirmPassword := value)
    {
      match field
      case EmailField => form := form.(email := value);
      case PasswordField => form := form.(password := value);
      case NameField => form := form.(name := value);
      case ConfirmPasswordField => form := form.(confirmPassword := value);
    }

    /** `handleSignUp`: a failed pre-check shows its message and leaves the
      service untouched; otherwise the service's sign-up runs, and a success
      shows the confirmation, clears the form and returns to the sign-in tab,
      while a failure shows the service's message (or the fallback). Loading
      is off at the end of every path. */
    method HandleSignUp(auth: AuthService)
      requires auth.Valid()
      modifies this`loading, this`error, this`success, this`form, this`tabValue, auth
      ensures auth.Valid() && !loading
      ensures PreCheck(old(form)).Some? ==>
        error == PreCheck(old(form)) && success.None? && form == old(form) && tabValue == old(tabValue)
        && auth.mockUsers == old(auth.mockUsers)
      ensures PreCheck(old(form)).None? ==>
        var r := Register(old(auth.mockUsers), old(form).email, old(form).password, old(form).name);
        auth.mockUsers == r.1
        && (r.0.Success? ==> success == Some(SignUpDone) && error.None? && form == EmptyForm && tabValue == 0)
        && (r.0.Failure? ==> error == Some(OrElse(Some(r.0.error), SignUpFallback)) && success.None?
                             && form == old(form) && tabValue == old(tabValue))
    {
      loading := true;
      error := None;
      success := None;
      if form.password != form.confirmPassword {
        error := Some(PasswordsDiffer);
        loading := false;
        return;
      }
      if |form.password| < 8 {
        error := Some(PasswordUnder8);
        loading := false;
        return;
      }
      var result := auth.SignUp(form.email, form.password, form.name);
      if result.Success? {
        success := Some(SignUpDone);
        form := EmptyForm;
        tabValue := 0;
      } else {
        error := Some(OrElse(Some(result.error), SignUpFallback));
      }
      loading := false;
    }

    /** `handleSignIn`: on success store the session's token and go to the
      dashboard; on failure show the service's message (or the fallback).
      The session only echoes a token already stored, so the stored token
      is the same afterwards on every path. Loading is off at the end. */
    method HandleSignIn(auth: AuthService)
      modifies this`loading, this`error, this`success, this`storedToken, this`route
      ensures !loading && success.None? && storedToken == old(storedToken)
      ensures var o := Authenticate(auth.mockUsers, form.email, form.password);
        (o.Success? ==> error.None? && route == Some(DashboardRoute))
        && (o.Failure? ==> error == Some(OrElse(Some(o.error), SignInFallback)) && route == old(route))
    {
      loading := true;
      error := None;
      success := None;
      var result := auth.SignIn(form.email, form.password);
      if result.Success? {
        var session := CurrentSession(storedToken);
        if session.Ok? {
          storedToken := Some(session.value);
        }
        route := Some(DashboardRoute);
      } else {
        error := Some(OrElse(Some(result.error), SignInFallback));
      }
      loading := false;
    }
  }
}
