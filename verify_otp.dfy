/** The one-time-code page: six characters, then on to the reset-password page. */
module VerifyOtp {
  import opened Wrappers
  import opened Forms
  import Text
  import Uri

  const OtpLength := 6
  const Incomplete := "Please enter the complete 6-digit OTP"
  const OtpFailed := "Invalid OTP. Please try again."

  /** The body of the verification request. */
  datatype VerifyRequest = VerifyRequest(email: string, otp: string)

  /** The single early return: anything but exactly six code units is rejected. */
  function OtpCheck(otp: string): (error: Option<string>)
    ensures error.None? <==> Text.JsLength(otp) == OtpLength
    ensures error.Some? ==> error.value == Incomplete
  {
    if Text.JsLength(otp) != OtpLength then Some(Incomplete) else None
  }

  /** The submit button's `disabled`: while a request is in flight, or while the code is not six long. */
  function SubmitDisabled(isLoading: bool, otp: string): (disabled: bool)
    ensures !disabled <==> !isLoading && OtpCheck(otp).None?
  {
    isLoading || Text.JsLength(otp) != OtpLength
  }

  const ResetPasswordPath := "/auth/reset-password?email="
  const OtpParameter := "&otp="

  /** `/auth/reset-password?email=${encodeURIComponent(email)}&otp=${otp}`: the code is appended as it is. */
  function ResetPasswordTarget(email: string, otp: string): (target: string)
    ensures Text.StartsWith(target, ResetPasswordPath)
    ensures |target| >= |otp| + |OtpParameter| && target[|target| - |otp| - |OtpParameter|..] == OtpParameter + otp
  {
    var encoded := Uri.EncodeUriComponent(email);
    var target := ResetPasswordPath + encoded + (OtpParameter + otp);
    assert target[..|ResetPasswordPath|] == ResetPasswordPath;
    assert target[|target| - |otp| - |OtpParameter|..] == OtpParameter + otp;
    target
  }

  /**
   * The encoded address holds no `&`, so the first `&` after `?email=` is the one
   * that starts the `otp` parameter.
   */
  lemma TargetSeparatesParameters(email: string, otp: string)
    ensures var encoded := Uri.EncodeUriComponent(email);
      var target := ResetPasswordTarget(email, otp);
      |target| == |ResetPasswordPath| + |encoded| + |OtpParameter| + |otp|
      && target[|ResetPasswordPath|..|ResetPasswordPath| + |encoded|] == encoded
      && '&' !in target[|ResetPasswordPath|..|ResetPasswordPath| + |encoded|]
      && target[|ResetPasswordPath| + |encoded|..] == OtpParameter + otp
  {
    var encoded := Uri.EncodeUriComponent(email);
    Uri.EncodedHasNoDelimiters(email);
    var target := ResetPasswordTarget(email, otp);
    assert target == ResetPasswordPath + encoded + (OtpParameter + otp);
    assert target[|ResetPasswordPath|..|ResetPasswordPath| + |encoded|] == encoded;
  }

  class VerifyOtpPage {
    var otp: string
    var error: string
    var email: string

    constructor ()
      ensures otp == "" && error == "" && email == ""
    {
      otp, error, email := "", "", "";
    }

    /** `handleEmailLoaded` with `searchParams.get('email') || ''`. */
    method HandleEmailLoaded(emailParam: Option<string>)
      modifies this`email
      ensures email == ParamOrEmpty(emailParam)
    {
      email := ParamOrEmpty(emailParam);
    }

    /**
     * `handleSubmit`: a code of the wrong length is rejected before any request;
     * otherwise `{email, otp}` is sent, success goes to the reset-password page
     * with both values, and failure shows the server's message or the fallback.
     */
    method HandleSubmit(remote: Outcome) returns (request: Option<VerifyRequest>, redirect: Option<string>)
      modifies this`error
      ensures OtpCheck(otp).Some? ==> request == None && redirect == None && error == OtpCheck(otp).value
      ensures OtpCheck(otp).None? ==>
        request == Some(VerifyRequest(email, otp))
        && (remote.Success? ==> redirect == Some(ResetPasswordTarget(email, otp)) && error == "")
        && (remote.Failure? ==> redirect == None && error == ErrorMessage(remote.message, OtpFailed))
    {
      error := "";
      redirect := None;
      var check := OtpCheck(otp);
      if check.Some? {
        error := check.value;
        return None, None;
      }
      request := Some(VerifyRequest(email, otp));
      match remote
      case Success =>
        redirect := Some(ResetPasswordTarget(email, otp));
      case Failure(message) =>
        error := ErrorMessage(message, OtpFailed);
    }
  }
}
