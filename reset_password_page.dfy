/** The reset-password form's `handleResetPassword`. The account service's
    answer to the password update is a parameter. */
module ResetPasswordPage {
  import opened Oracle
  import opened Remote
  import opened PasswordRules

  const ResetFailed := "Failed to reset password"

  class ResetPasswordForm {
    const backend: Backend
    var newPassword: string
    var confirmPassword: string
    var loading: bool
    var error: string
    var success: bool
    /** The three-second redirect to the start page. */
    var redirectScheduled: bool

    constructor (backend: Backend)
      ensures this.backend == backend
      ensures newPassword == "" && confirmPassword == "" && !loading && error == "" && !success && !redirectScheduled
    {
      this.backend := backend;
      newPassword, confirmPassword := "", "";
      loading, error, success, redirectScheduled := false, "", false, false;
    }

    /** `handleResetPassword`: a failed check is reported without calling
        the service; otherwise `success` is set only when the update
        returns no error, and an error's message (or the fallback) is shown. */
    method HandleResetPassword(updateError: Option<string>)
      modifies this`loading, this`error, this`success, this`redirectScheduled, backend`calls
      ensures !loading
      ensures PasswordError(newPassword, confirmPassword).Some? ==>
        error == PasswordError(newPassword, confirmPassword).value
        && success == old(success) && redirectScheduled == old(redirectScheduled)
        && backend.calls == old(backend.calls)
      ensures PasswordError(newPassword, confirmPassword).None? ==>
        backend.calls == old(backend.calls) + [UpdatePassword]
      ensures PasswordError(newPassword, confirmPassword).None? && updateError.None? ==>
        success && redirectScheduled && error == ""
      ensures PasswordError(newPassword, confirmPassword).None? && updateError.Some? ==>
        error == MessageOr(updateError.value, ResetFailed)
        && success == old(success) && redirectScheduled == old(redirectScheduled)
    {
      loading, error := true, "";
      var invalid := PasswordError(newPassword, confirmPassword);
      if invalid.Some? {
        error, loading := invalid.value, false;
        return;
      }
      backend.calls := backend.calls + [UpdatePassword];
      if updateError.Some? {
        error := MessageOr(updateError.value, ResetFailed);
      } else {
        success, redirectScheduled := true, true;
      }
      loading := false;
    }
  }
}
