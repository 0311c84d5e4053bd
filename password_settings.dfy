/** The "Change Password" card of the settings area. */
module PasswordSettings {
  import opened Wrappers
  import opened Forms
  import Text

  const Mismatch := "New passwords do not match"
  const ChangeFailed := "Failed to change password"

  /** The body of the change-password request: the confirmation is not sent. */
  datatype ChangePasswordRequest = ChangePasswordRequest(currentPassword: string, newPassword: string)

  class PasswordSettingsCard {
    var currentPassword: string
    var newPassword: string
    var confirmPassword: string
    var passwordError: string

    constructor ()
      ensures currentPassword == "" && newPassword == "" && confirmPassword == "" && passwordError == ""
    {
      currentPassword, newPassword, confirmPassword, passwordError := "", "", "", "";
    }

    /**
     * `handlePasswordSubmit`. The error is cleared, then the checks run in order;
     * a failed check sets its message and no request is made. Otherwise the
     * request is sent and `remote` is its outcome: success empties the three
     * fields, failure shows the server's message or the fallback and keeps them.
     */
    method HandlePasswordSubmit(remote: Outcome) returns (request: Option<ChangePasswordRequest>)
      modifies this
      ensures var check := PasswordCheck(old(newPassword), old(confirmPassword), Mismatch);
        match check
        case Some(e) =>
          request == None && passwordError == e
          && currentPassword == old(currentPassword) && newPassword == old(newPassword) && confirmPassword == old(confirmPassword)
        case None =>
          request == Some(ChangePasswordRequest(old(currentPassword), old(newPassword)))
          && (remote.Success? ==> passwordError == "" && currentPassword == "" && newPassword == "" && confirmPassword == "")
          && (remote.Failure? ==>
                passwordError == ErrorMessage(remote.message, ChangeFailed)
                && currentPassword == old(currentPassword) && newPassword == old(newPassword) && confirmPassword == old(confirmPassword))
    {
      passwordError := "";
      if newPassword != confirmPassword {
        passwordError := Mismatch;
        return None;
      }
      if Text.JsLength(newPassword) < MinPasswordLength {
        passwordError := PasswordTooShort;
        return None;
      }
      request := Some(ChangePasswordRequest(currentPassword, newPassword));
      match remote
      case Success =>
        currentPassword, newPassword, confirmPassword := "", "", "";
      case Failure(message) =>
        passwordError := ErrorMessage(message, ChangeFailed);
    }
  }
}
