/**
 * The password reset page: the new-password rules, the decision whether
 * the page holds a valid recovery session, and the submit handler.
 */
module ResetPassword {
  import opened Types
  import opened FormErrors

  const MinMessage := "Password must be at least 6 characters"
  const MismatchMessage := "Passwords don't match"

  /**
   * The issues of the password schema, in the order they are raised: the
   * two length rules, then the match rule on confirmPassword, which runs
   * even when a length rule already failed.
   */
  function ResetIssues(password: string, confirm: string): seq<Issue>
  {
    (if |password| < 6 then [Issue(["password"], MinMessage)] else [])
    + (if |confirm| < 6 then [Issue(["confirmPassword"], MinMessage)] else [])
    + (if password != confirm then [Issue(["confirmPassword"], MismatchMessage)] else [])
  }

  /**
   * The field errors shown: a short password is reported on `password`; on
   * `confirmPassword` a mismatch outranks a short confirmation; and there is
   * no error at all iff both are long enough and equal.
   */
  lemma ResetErrors(password: string, confirm: string)
    ensures var e := ErrorsOf(ResetIssues(password, confirm));
      && ("password" in e <==> |password| < 6)
      && ("password" in e ==> e["password"] == MinMessage)
      && ("confirmPassword" in e <==> |confirm| < 6 || password != confirm)
      && ("confirmPassword" in e ==> e["confirmPassword"] == if password != confirm then MismatchMessage else MinMessage)
      && (e == map[] <==> ResetIssues(password, confirm) == [])
      && (ResetIssues(password, confirm) == [] <==> |password| >= 6 && |confirm| >= 6 && password == confirm)
  {
    ResetErrorsAre(password, confirm);
    var e := RuleErrors(password, confirm);
    if e == map[] {
      assert "password" !in e && "confirmPassword" !in e;
    }
  }

  /** The error map spelled out: each failed rule overwrites the one before it on the same field. */
  function RuleErrors(password: string, confirm: string): map<string, string>
  {
    var e0 := if |password| < 6 then map["password" := MinMessage] else map[];
    var e1 := if |confirm| < 6 then e0["confirmPassword" := MinMessage] else e0;
    if password != confirm then e1["confirmPassword" := MismatchMessage] else e1
  }

  lemma ResetErrorsAre(password: string, confirm: string)
    ensures ErrorsOf(ResetIssues(password, confirm)) == RuleErrors(password, confirm)
  {
    var a := if |password| < 6 then [Issue(["password"], MinMessage)] else [];
    var b := if |confirm| < 6 then [Issue(["confirmPassword"], MinMessage)] else [];
    var c := if password != confirm then [Issue(["confirmPassword"], MismatchMessage)] else [];
    assert ResetIssues(password, confirm) == a + b + c;
    if a != [] { ErrorsOfSnoc([], a[0]); assert [] + a == a; }
    if b != [] { ErrorsOfSnoc(a, b[0]); }
    if c != [] { ErrorsOfSnoc(a + b, c[0]); }
    if b == [] { assert a + b == a; }
    if c == [] { assert a + b + c == a + b; }
  }

  /** The recovery parameters read from the URL hash. */
  datatype HashParams = HashParams(accessToken: Option<string>, kind: Option<string>)

  /** `accessToken && type === 'recovery'` */
  predicate IsRecoveryLink(h: HashParams)
  {
    h.accessToken.Some? && h.accessToken.value != "" && h.kind == Some("recovery")
  }

  /**
   * The redirect decision: a recovery link makes the session valid iff
   * setting it succeeds, without looking at an existing session; any other
   * visit is valid iff a session already exists.
   */
  function SessionValid(h: HashParams, setSessionOk: bool, hasSession: bool): (r: bool)
    ensures IsRecoveryLink(h) ==> (r <==> setSessionOk)
    ensures !IsRecoveryLink(h) ==> (r <==> hasSession)
  {
    if IsRecoveryLink(h) then setSessionOk else hasSession
  }

  class ResetPasswordPage {
    var isSubmitting: bool
    var errors: map<string, string>
    var isValidSession: bool
    var isLoading: bool
    var signedOut: bool
    var location: Option<string>

    constructor()
      ensures !isSubmitting && errors == map[] && !isValidSession && isLoading && !signedOut && location.None?
    {
      isSubmitting := false;
      errors := map[];
      isValidSession := false;
      isLoading := true;
      signedOut := false;
      location := None;
    }

    /**
     * handleAuthRedirect once its awaited call returned: the session only
     * ever becomes valid here, never invalid, and the page stops loading.
     * It reports whether setSession was the call made.
     */
    method HandleAuthRedirect(h: HashParams, setSessionOk: bool, hasSession: bool) returns (usedSetSession: bool)
      modifies this
      ensures usedSetSession <==> IsRecoveryLink(h)
      ensures isValidSession == (old(isValidSession) || SessionValid(h, setSessionOk, hasSession))
      ensures !isLoading
      ensures isSubmitting == old(isSubmitting) && errors == old(errors)
      ensures signedOut == old(signedOut) && location == old(location)
    {
      usedSetSession := IsRecoveryLink(h);
      if usedSetSession {
        if setSessionOk {
          isValidSession := true;
        }
        isLoading := false;
        return;
      }
      if hasSession {
        isValidSession := true;
      }
      isLoading := false;
    }

    /**
     * handleResetPassword up to its await: the errors are cleared and then
     * filled from the failed rules; the update is sent, and submitting
     * starts, only when no rule failed.
     */
    method StartReset(password: string, confirm: string) returns (update: Option<string>)
      modifies this
      ensures errors == ErrorsOf(ResetIssues(password, confirm))
      ensures update.Some? <==> ResetIssues(password, confirm) == []
      ensures update.Some? ==> update.value == password && isSubmitting
      ensures update.None? ==> isSubmitting == old(isSubmitting)
      ensures isValidSession == old(isValidSession) && isLoading == old(isLoading)
      ensures signedOut == old(signedOut) && location == old(location)
    {
      errors := map[];
      var issues := ResetIssues(password, confirm);
      if issues != [] {
        errors := CollectErrors(issues);
        return None;
      }
      assert ErrorsOf(issues) == map[];
      isSubmitting := true;
      update := Some(password);
    }

    /**
     * handleResetPassword after its await: submitting ends; a failure shows
     * its message; a success signs out and goes to the login page.
     */
    method FinishReset(failure: Option<string>) returns (toast: Toast)
      modifies this
      ensures !isSubmitting
      ensures failure.Some? ==> (toast == Toast("Error", failure.value, true)
                                 && signedOut == old(signedOut) && location == old(location))
      ensures failure.None? ==> (toast.title == "Password updated" && !toast.destructive
                                 && signedOut && location == Some("/auth"))
      ensures errors == old(errors) && isValidSession == old(isValidSession) && isLoading == old(isLoading)
    {
      isSubmitting := false;
      if failure.Some? {
        toast := Toast("Error", failure.value, true);
      } else {
        toast := Toast("Password updated", "Your password has been reset successfully. You can now login.", false);
        signedOut := true;
        location := Some("/auth");
      }
    }
  }
}
