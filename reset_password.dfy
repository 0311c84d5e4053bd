/** The reset-password page, reached from the one-time-code step with `email` and `otp` in the query. */
module ResetPassword {
  import opened Wrappers
  import opened Forms
  import Text

  const Mismatch := "Passwords do not match"
  const ResetFailed := "Failed to reset password"
  const LoginRedirect := "/auth/login?message=Password reset successfully"

  /** The body of the reset request. */
  datatype ResetRequest = ResetRequest(email: string, otp: string, password: string)

  class ResetPasswordPage {
    var password: string
    var confirmPassword: string
    var error: string
    var email: string
    var otp: string

    constructor ()
      ensures password == "" && confirmPassword == "" && error == "" && email == "" && otp == ""
    {
      password, confirmPassword, error, email, otp := "", "", "", "", "";
    }

    /** `handleParamsLoaded`, called with the two query parameters read by `ResetPasswordForm`. */
    method HandleParamsLoaded(emailParam: Option<string>, otpParam: Option<string>)
      modifies this`email, this`otp
      ensures email == ParamOrEmpty(emailParam) && otp == ParamOrEmpty(otpParam)
    {
      email := ParamOrEmpty(emailParam);
      otp := ParamOrEmpty(otpParam);
    }

    /**
     * `handleSubmit`: mismatch first, then length; only then is `{email, otp, password}`
     * sent. Success redirects to the login page; failure shows the server's
     * message or the fallback. The form fields are never changed.
     */
    method HandleSubmit(remote: Outcome) returns (request: Option<ResetRequest>, redirect: Option<string>)
      modifies this`error
      ensures var check := PasswordCheck(password, confirmPassword, Mismatch);
        match check
        case Some(e) => request == None && redirect == None && error == e
        case None =>
          request == Some(ResetRequest(email, otp, password))
          && (remote.Success? ==> redirect == Some(LoginRedirect) && error == "")
          && (remote.Failure? ==> redirect == None && error == ErrorMessage(remote.message, ResetFailed))
    {
      error := "";
      redirect := None;
      if password != confirmPassword {
        error := Mismatch;
        return None, None;
      }
      if Text.JsLength(password) < MinPasswordLength {
        error := PasswordTooShort;
        return None, None;
      }
      request := Some(ResetRequest(email, otp, password));
      match remote
      case Success =>
        redirect := Some(LoginRedirect);
      case Failure(message) =>
        error := ErrorMessage(message, ResetFailed);
    }
  }
}
