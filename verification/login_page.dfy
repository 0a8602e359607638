/**
 * The login form: a name and a profession; submitting hands the trimmed pair
 * to the router as the session user when both are non-blank.
 */
module LoginPage {
  import opened Wrappers
  import opened Text
  import App

  datatype LoginForm = LoginForm(name: string, profession: string)

  /** Both fields start empty. */
  function Initial(): (r: LoginForm)
    ensures r.name == "" && r.profession == ""
  {
    LoginForm("", "")
  }

  /**
   * `handleSubmit`: the user `onLogin` receives, if it is called at all. It is called
   * exactly when both trimmed fields are non-empty, with the trimmed fields.
   */
  function Submit(f: LoginForm): (r: Option<App.User>)
    ensures r.Some? <==> !IsBlank(f.name) && !IsBlank(f.profession)
    ensures r.Some? ==> r.value == App.User(Trim(f.name), Trim(f.profession))
  {
    if Trim(f.name) != "" && Trim(f.profession) != "" then
      Some(App.User(Trim(f.name), Trim(f.profession)))
    else
      None
  }

  /** Submitting the untouched form never logs in. */
  lemma InitialSubmitRejected()
    ensures Submit(Initial()).None?
  {
  }

  /** A logged-in user's fields are non-empty, have no white space at either end, and come from the form. */
  lemma SubmittedUserIsClean(f: LoginForm)
    requires Submit(f).Some?
    ensures var u := Submit(f).value;
      u.name != "" && u.profession != "" && IsTrimmed(u.name) && IsTrimmed(u.profession)
      && Trim(u.name) == u.name && Trim(u.profession) == u.profession
  {
    TrimIdempotent(f.name);
    TrimIdempotent(f.profession);
  }

  /** Non-empty fields without surrounding white space pass through unchanged. */
  lemma TrimmedInputsPassThrough(f: LoginForm)
    requires f.name != "" && f.profession != "" && IsTrimmed(f.name) && IsTrimmed(f.profession)
    ensures Submit(f) == Some(App.User(f.name, f.profession))
  {
    TrimOfTrimmed(f.name);
    TrimOfTrimmed(f.profession);
  }

  /** A successful login leads the router to render the dashboard with exactly that user. */
  lemma LoginReachesDashboard(f: LoginForm, s: App.AppState, now: nat)
    requires Submit(f).Some?
    ensures var r := App.HandleLogin(s, Submit(f).value);
      r.view == App.Dashboard && r.user == Submit(f)
      && App.Render(r, now) == App.DashboardScreen(Submit(f), App.UserId(Submit(f), now))
  {
  }
}
