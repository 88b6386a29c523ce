/**
 * The sign-in and sign-up page: the form rules, the field errors, the
 * choice of failure message, and the redirect of a signed-in user. Whether
 * an email address is well formed is an input here.
 */
module Auth {
  import opened Types
  import opened Text
  import opened FormErrors

  const EmailMessage := "Please enter a valid email address"
  const MinMessage := "Password must be at least 6 characters"
  const InvalidCredentials := "Invalid login credentials"
  const FriendlyCredentials := "Email or password is incorrect. Please try again."

  /** The login and the signup form; the display name is optional and never checked. */
  datatype AuthForm = AuthForm(email: string, password: string, displayName: Option<string>)

  /** The schema's issues in field order: email, then password. */
  function AuthIssues(f: AuthForm, emailOk: bool): seq<Issue>
  {
    (if !emailOk then [Issue(["email"], EmailMessage)] else [])
    + (if |f.password| < 6 then [Issue(["password"], MinMessage)] else [])
  }

  /** The error map spelled out. */
  function RuleErrors(f: AuthForm, emailOk: bool): map<string, string>
  {
    var e := if !emailOk then map["email" := EmailMessage] else map[];
    if |f.password| < 6 then e["password" := MinMessage] else e
  }

  lemma AuthErrorsAre(f: AuthForm, emailOk: bool)
    ensures ErrorsOf(AuthIssues(f, emailOk)) == RuleErrors(f, emailOk)
  {
    var a := if !emailOk then [Issue(["email"], EmailMessage)] else [];
    var b := if |f.password| < 6 then [Issue(["password"], MinMessage)] else [];
    assert AuthIssues(f, emailOk) == a + b;
    if a != [] { ErrorsOfSnoc([], a[0]); assert [] + a == a; }
    if b != [] { ErrorsOfSnoc(a, b[0]); } else { assert a + b == a; }
  }

  /**
   * A password under 6 characters is reported on `password` with its
   * message, a bad address on `email`, and the form passes iff neither.
   */
  lemma AuthErrors(f: AuthForm, emailOk: bool)
    ensures var e := ErrorsOf(AuthIssues(f, emailOk));
      && ("password" in e <==> |f.password| < 6)
      && ("password" in e ==> e["password"] == MinMessage)
      && ("email" in e <==> !emailOk)
      && ("email" in e ==> e["email"] == EmailMessage)
      && (AuthIssues(f, emailOk) == [] <==> emailOk && |f.password| >= 6)
      && (e == map[] <==> AuthIssues(f, emailOk) == [])
  {
    AuthErrorsAre(f, emailOk);
    var e := RuleErrors(f, emailOk);
    if e == map[] {
      assert "password" !in e && "email" !in e;
    }
  }

  /** The login failure description: the credentials message is reworded, any other is shown as is. */
  function LoginFailure(message: string): (r: Toast)
    ensures r.title == "Login failed" && r.destructive
    ensures message == InvalidCredentials ==> r.description == FriendlyCredentials
    ensures message != InvalidCredentials ==> r.description == message
  {
    Toast("Login failed", if message == InvalidCredentials then FriendlyCredentials else message, true)
  }

  /** The signup failure: an already registered address gets its own toast, any other error is shown as is. */
  function SignupFailure(message: string): (r: Toast)
    ensures r.destructive
    ensures r.title == "Account exists" <==> Contains(message, "already registered")
    ensures Contains(message, "already registered") ==>
            r == Toast("Account exists", "This email is already registered. Please login instead.", true)
    ensures !Contains(message, "already registered") ==> r == Toast("Signup failed", message, true)
  {
    if Contains(message, "already registered") then
      Toast("Account exists", "This email is already registered. Please login instead.", true)
    else
      Toast("Signup failed", message, true)
  }

  /** A message holding the phrase anywhere gets the 'Account exists' toast. */
  lemma RegisteredAnywhere(before: string, after: string)
    ensures SignupFailure(before + "already registered" + after).title == "Account exists"
  {
    ContainsInside(before, "already registered", after);
  }

  lemma {:induction false} ContainsInside(before: string, part: string, after: string)
    ensures Contains(before + part + after, part)
  {
    var s := before + part + after;
    if before == [] {
      assert s == part + after;
      assert s[..|part|] == part;
    } else {
      ContainsInside(before[1..], part, after);
      assert s[1..] == before[1..] + part + after;
    }
  }

  class AuthPage {
    var isSubmitting: bool
    var errors: map<string, string>
    var location: Option<string>

    constructor()
      ensures !isSubmitting && errors == map[] && location.None?
    {
      isSubmitting := false;
      errors := map[];
      location := None;
    }

    /** The user effect: a signed-in user is sent to the dashboard. */
    method OnUser(user: Option<User>)
      modifies this
      ensures location == if user.Some? then Some("/dashboard") else old(location)
      ensures isSubmitting == old(isSubmitting) && errors == old(errors)
    {
      if user.Some? {
        location := Some("/dashboard");
      }
    }

    /**
     * handleLogin and handleSignup up to their await: the errors are cleared
     * and filled from the failed rules; the auth call is made, with
     * submitting on, only when no rule failed.
     */
    method StartSubmit(f: AuthForm, emailOk: bool) returns (call: bool)
      modifies this
      ensures errors == ErrorsOf(AuthIssues(f, emailOk))
      ensures call <==> emailOk && |f.password| >= 6
      ensures isSubmitting == (old(isSubmitting) || call)
      ensures location == old(location)
    {
      errors := map[];
      var issues := AuthIssues(f, emailOk);
      if issues != [] {
        errors := CollectErrors(issues);
        return false;
      }
      assert ErrorsOf(issues) == map[];
      isSubmitting := true;
      call := true;
    }

    /** handleLogin after signIn returns: submitting ends and the outcome is toasted. */
    method FinishLogin(failure: Option<string>) returns (toast: Toast)
      modifies this
      ensures !isSubmitting
      ensures toast == if failure.Some? then LoginFailure(failure.value)
                       else Toast("Welcome back!", "You have successfully logged in.", false)
      ensures errors == old(errors) && location == old(location)
    {
      isSubmitting := false;
      if failure.Some? {
        toast := LoginFailure(failure.value);
      } else {
        toast := Toast("Welcome back!", "You have successfully logged in.", false);
      }
    }

    /** handleSignup after signUp returns: submitting ends and the outcome is toasted. */
    method FinishSignup(failure: Option<string>) returns (toast: Toast)
      modifies this
      ensures !isSubmitting
      ensures toast == if failure.Some? then SignupFailure(failure.value)
                       else Toast("Welcome!", "Your account has been created successfully.", false)
      ensures errors == old(errors) && location == old(location)
    {
      isSubmitting := false;
      if failure.Some? {
        toast := SignupFailure(failure.value);
      } else {
        toast := Toast("Welcome!", "Your account has been created successfully.", false);
      }
    }
  }
}
