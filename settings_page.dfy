/** The settings page: profile, password, and the two content tabs. */
module SettingsPage {
  import opened Wrappers
  import opened Forms
  import Text
  import PasswordSettings

  const ProfileFailed := "Failed to update profile"

  /** The signed-in administrator the page shows (mock data in the page itself). */
  const CurrentUserName := "John Smith"
  const CurrentUserEmail := "john.smith@admin.com"

  /** The body of the profile update. */
  datatype ProfileData = ProfileData(name: string, email: string)

  /** The argument of `handleSaveContent`. */
  datatype ContentKind = Terms | Privacy

  const TermsTitle := "Terms & Conditions"
  const PrivacyTitle := "Privacy Policy"
  const SavedSuffix := " saved successfully!"

  /** The toast shown by `handleSaveContent`: the tab's title, then the fixed suffix. */
  function SaveContentMessage(kind: ContentKind): (message: string)
    ensures |message| > |SavedSuffix| && message[|message| - |SavedSuffix|..] == SavedSuffix
    ensures message[..|message| - |SavedSuffix|] == (if kind == Terms then TermsTitle else PrivacyTitle)
    ensures message[0] == (if kind == Terms then 'T' else 'P')
  {
    var title := if kind == Terms then TermsTitle else PrivacyTitle;
    var message := title + SavedSuffix;
    assert message[0] == title[0];
    assert message[|title|..] == SavedSuffix;
    assert message[..|title|] == title;
    message
  }

  /** The Privacy Policy toast, spelled out. */
  lemma PrivacyToast()
    ensures SaveContentMessage(Privacy) == "Privacy Policy saved successfully!"
  {
    var message := SaveContentMessage(Privacy);
    assert message == message[..|message| - |SavedSuffix|] + message[|message| - |SavedSuffix|..];
  }

  /** The two toasts are told apart: a message names the tab that was saved. */
  lemma SaveMessageNamesTab(a: ContentKind, b: ContentKind)
    ensures SaveContentMessage(a) == SaveContentMessage(b) <==> a == b
  {
    if a != b {
      assert SaveContentMessage(a)[0] != SaveContentMessage(b)[0];
    }
  }

  /** The avatar fallback of the profile tab: the initials of the current user. */
  lemma AvatarFallbackIsJS()
    ensures Text.Initials(CurrentUserName) == "JS"
  {
    Text.InitialsOfTwoWords("John", "Smith");
    assert "John" + " " + "Smith" == CurrentUserName;
  }

  class Settings {
    var profile: ProfileData
    var currentPassword: string
    var newPassword: string
    var confirmPassword: string
    var termsContent: string
    var privacyContent: string
    var profileError: string
    var passwordError: string

    /**
     * Both content tabs edit and save `termsContent`, so `privacyContent` keeps
     * its initial empty value for the life of the page.
     */
    ghost predicate Valid()
      reads this
    {
      privacyContent == ""
    }

    constructor ()
      ensures Valid()
      ensures profile == ProfileData(CurrentUserName, CurrentUserEmail)
      ensures currentPassword == "" && newPassword == "" && confirmPassword == ""
      ensures termsContent == "" && profileError == "" && passwordError == ""
    {
      profile := ProfileData(CurrentUserName, CurrentUserEmail);
      currentPassword, newPassword, confirmPassword := "", "", "";
      termsContent, privacyContent := "", "";
      profileError, passwordError := "", "";
    }

    /** `handleProfileSubmit`: always sends the profile; a failure shows the server's message or the fallback. */
    method HandleProfileSubmit(remote: Outcome) returns (request: ProfileData)
      requires Valid()
      modifies this`profileError
      ensures Valid()
      ensures request == profile
      ensures profileError == if remote.Success? then "" else ErrorMessage(remote.message, ProfileFailed)
    {
      profileError := "";
      request := profile;
      if remote.Failure? {
        profileError := ErrorMessage(remote.message, ProfileFailed);
      }
    }

    /** `handlePasswordSubmit`: the same checks, request and reset as the password card. */
    method HandlePasswordSubmit(remote: Outcome) returns (request: Option<PasswordSettings.ChangePasswordRequest>)
      requires Valid()
      modifies this`currentPassword, this`newPassword, this`confirmPassword, this`passwordError
      ensures Valid()
      ensures var check := PasswordCheck(old(newPassword), old(confirmPassword), PasswordSettings.Mismatch);
        match check
        case Some(e) =>
          request == None && passwordError == e
          && currentPassword == old(currentPassword) && newPassword == old(newPassword) && confirmPassword == old(confirmPassword)
        case None =>
          request == Some(PasswordSettings.ChangePasswordRequest(old(currentPassword), old(newPassword)))
          && (remote.Success? ==> passwordError == "" && currentPassword == "" && newPassword == "" && confirmPassword == "")
          && (remote.Failure? ==>
                passwordError == ErrorMessage(remote.message, PasswordSettings.ChangeFailed)
                && currentPassword == old(currentPassword) && newPassword == old(newPassword) && confirmPassword == old(confirmPassword))
    {
      passwordError := "";
      if newPassword != confirmPassword {
        passwordError := PasswordSettings.Mismatch;
        return None;
      }
      if Text.JsLength(newPassword) < MinPasswordLength {
        passwordError := PasswordTooShort;
        return None;
      }
      request := Some(PasswordSettings.ChangePasswordRequest(currentPassword, newPassword));
      match remote
      case Success =>
        currentPassword, newPassword, confirmPassword := "", "", "";
      case Failure(message) =>
        passwordError := ErrorMessage(message, PasswordSettings.ChangeFailed);
    }

    /** Typing in the Terms tab's text area. */
    method EditTermsTab(text: string)
      requires Valid()
      modifies this`termsContent
      ensures Valid() && termsContent == text
    {
      termsContent := text;
    }

    /** Typing in the Privacy Policy tab's text area, which is bound to `termsContent` as well. */
    method EditPolicyTab(text: string)
      requires Valid()
      modifies this`termsContent
      ensures Valid() && termsContent == text && privacyContent == ""
    {
      termsContent := text;
    }

    /** The save button of either tab calls `handleSaveContent('terms')`. */
    method SaveTab() returns (toast: string)
      requires Valid()
      ensures toast == SaveContentMessage(Terms) && toast == "Terms & Conditions saved successfully!"
    {
      toast := SaveContentMessage(Terms);
    }
  }
}
