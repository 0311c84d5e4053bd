/**
 * What the form handlers share: the outcome of a remote call, the message shown
 * when it fails, and the client-side checks run before any request is made.
 */
module Forms {
  import opened Wrappers
  import opened Text

  /** The settled result of an API mutation's `unwrap()`: success, or a rejection whose `data.message` may be absent. */
  datatype Outcome = Success | Failure(message: Option<string>)

  /**
   * `err.data?.message || fallback`: the server's message when it is a non-empty
   * string (the empty string is falsy), the page's fixed fallback otherwise.
   */
  function ErrorMessage(message: Option<string>, fallback: string): (shown: string)
    ensures shown == fallback || (message == Some(shown) && shown != "")
    ensures message.Some? && message.value != "" ==> shown == message.value
    ensures fallback != "" ==> shown != ""
  {
    match message
    case Some(m) => if m != "" then m else fallback
    case None => fallback
  }

  /** `searchParams.get(name) || ''`: a missing parameter (`null`) reads as the empty string. */
  function ParamOrEmpty(param: Option<string>): (value: string)
    ensures param.None? ==> value == ""
    ensures param.Some? ==> value == param.value
  {
    param.GetOr("")
  }

  const MinPasswordLength := 8
  const PasswordTooShort := "Password must be at least 8 characters long"

  /**
   * The two early returns of every password form: the confirmation must match,
   * and only then is the length (in UTF-16 units) checked. `None` means the
   * request is sent; `Some(e)` is the error shown instead.
   */
  function PasswordCheck(password: string, confirmation: string, mismatch: string): (error: Option<string>)
    ensures error.None? <==> password == confirmation && JsLength(password) >= MinPasswordLength
    ensures password != confirmation ==> error == Some(mismatch)
    ensures password == confirmation && JsLength(password) < MinPasswordLength ==> error == Some(PasswordTooShort)
  {
    if password != confirmation then Some(mismatch)
    else if JsLength(password) < MinPasswordLength then Some(PasswordTooShort)
    else None
  }

  /** Mismatch wins over length: a short pair that differs reports the mismatch. */
  lemma MismatchCheckedFirst(password: string, confirmation: string, mismatch: string)
    requires password != confirmation && JsLength(password) < MinPasswordLength
    ensures PasswordCheck(password, confirmation, mismatch) == Some(mismatch)
  {
  }

  /**
   * `.length` counts UTF-16 code units, so on text without astral characters a
   * confirmed password passes exactly when it has eight characters or more.
   */
  lemma BmpPasswordAccepted(password: string, mismatch: string)
    requires InBmp(password)
    ensures PasswordCheck(password, password, mismatch).None? <==> |password| >= MinPasswordLength
  {
    JsLengthInBmp(password);
  }

  /** An astral character counts twice: four emoji already make a long enough password. */
  lemma AstralCharactersCountTwice(password: string, mismatch: string)
    requires |password| == 4 && forall i :: 0 <= i < 4 ==> password[i] as int >= 0x1_0000
    ensures PasswordCheck(password, password, mismatch).None?
  {
    assert JsLength(password) == 2 + JsLength(password[1..]);
    assert JsLength(password[1..]) == 2 + JsLength(password[2..]);
    assert JsLength(password[2..]) == 2 + JsLength(password[3..]);
    assert JsLength(password[3..]) == 2 + JsLength(password[4..]);
  }
}
