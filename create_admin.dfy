/** The administrator page: the "create admin" dialog and the helpers that render the admin table's cells. */
module CreateAdmin {
  import opened Wrappers
  import opened Forms
  import opened Text

  const AllRequired := "All fields are required"
  const CreateFailed := "Failed to create admin"
  const Gray := "bg-gray-100 text-gray-800"

  /** The dialog's form; its value is also the body of the create request. */
  datatype AdminForm = AdminForm(name: string, email: string, role: string, password: string)

  datatype FormField = Name | Email | Role | Password

  const EmptyForm := AdminForm("", "", "", "")

  function Field(form: AdminForm, field: FormField): string {
    match field
    case Name => form.name
    case Email => form.email
    case Role => form.role
    case Password => form.password
  }

  /** `{ ...prev, [field]: value }`: the named field takes the value, the others are copied. */
  function WithField(form: AdminForm, field: FormField, value: string): (updated: AdminForm)
    ensures Field(updated, field) == value
    ensures forall other :: other != field ==> Field(updated, other) == Field(form, other)
  {
    match field
    case Name => form.(name := value)
    case Email => form.(email := value)
    case Role => form.(role := value)
    case Password => form.(password := value)
  }

  /** The early returns of `handleSubmit`: every field present (the empty string is falsy), then the length. */
  function AdminCheck(form: AdminForm): (error: Option<string>)
    ensures error.None? <==> (forall f :: Field(form, f) != "") && JsLength(form.password) >= MinPasswordLength
    ensures (exists f :: Field(form, f) == "") ==> error == Some(AllRequired)
    ensures (forall f :: Field(form, f) != "") && JsLength(form.password) < MinPasswordLength ==> error == Some(PasswordTooShort)
  {
    if form.name == "" || form.email == "" || form.role == "" || form.password == "" then
      assert Field(form, Name) == "" || Field(form, Email) == "" || Field(form, Role) == "" || Field(form, Password) == "";
      Some(AllRequired)
    else if JsLength(form.password) < MinPasswordLength then Some(PasswordTooShort)
    else None
  }

  /** A short password with another field missing reports the missing field, not the length. */
  lemma MissingFieldReportedFirst(form: AdminForm)
    requires exists f :: Field(form, f) == ""
    requires JsLength(form.password) < MinPasswordLength
    ensures AdminCheck(form) == Some(AllRequired)
  {
  }

  class CreateAdminPage {
    var isDialogOpen: bool
    var form: AdminForm
    var error: string

    constructor ()
      ensures !isDialogOpen && form == EmptyForm && error == ""
    {
      isDialogOpen, form, error := false, EmptyForm, "";
    }

    /** The dialog's `onOpenChange` and the Cancel button. */
    method SetDialogOpen(open: bool)
      modifies this`isDialogOpen
      ensures isDialogOpen == open
    {
      isDialogOpen := open;
    }

    /** `handleInputChange`: update the one field and clear the error. */
    method HandleInputChange(field: FormField, value: string)
      modifies this`form, this`error
      ensures form == WithField(old(form), field, value) && error == ""
      ensures Field(form, field) == value
      ensures forall other :: other != field ==> Field(form, other) == Field(old(form), other)
    {
      form := WithField(form, field, value);
      error := "";
    }

    /**
     * `handleSubmit`: a failed check shows its message and sends nothing.
     * Otherwise the whole form is sent; success closes the dialog and empties the
     * form, failure shows the server's message or the fallback and keeps both.
     */
    method HandleSubmit(remote: Outcome) returns (request: Option<AdminForm>)
      modifies this
      ensures match AdminCheck(old(form))
        case Some(e) => request == None && error == e && form == old(form) && isDialogOpen == old(isDialogOpen)
        case None =>
          request == Some(old(form))
          && (remote.Success? ==> !isDialogOpen && form == EmptyForm && error == "")
          && (remote.Failure? ==>
                isDialogOpen == old(isDialogOpen) && form == old(form) && error == ErrorMessage(remote.message, CreateFailed))
    {
      error := "";
      if form.name == "" || form.email == "" || form.role == "" || form.password == "" {
        error := AllRequired;
        return None;
      }
      if JsLength(form.password) < MinPasswordLength {
        error := PasswordTooShort;
        return None;
      }
      request := Some(form);
      match remote
      case Success =>
        isDialogOpen := false;
        form := EmptyForm;
      case Failure(message) =>
        error := ErrorMessage(message, CreateFailed);
    }
  }

  // ------------------------------------------------------------ cell renderers

  const RoleColors: map<string, string> := map[
    "super_admin" := "bg-purple-100 text-purple-800",
    "admin" := "bg-blue-100 text-blue-800",
    "moderator" := "bg-green-100 text-green-800"]

  const StatusColors: map<string, string> := map[
    "active" := "bg-green-100 text-green-800",
    "inactive" := "bg-gray-100 text-gray-800"]

  /** `colors[value] || 'bg-gray-100 text-gray-800'`. */
  function BadgeColor(colors: map<string, string>, value: string): (className: string)
    ensures value in colors && colors[value] != "" ==> className == colors[value]
    ensures value !in colors ==> className == Gray
  {
    if value in colors && colors[value] != "" then colors[value] else Gray
  }

  /** A role gets the gray badge iff it is not one of the three in the table. */
  lemma UnknownRolesAreGray(role: string)
    ensures BadgeColor(RoleColors, role) == Gray <==> role !in {"super_admin", "admin", "moderator"}
  {
  }

  /**
   * A status gets the gray badge iff it is not `active`: `inactive`'s own class
   * is the gray one, and every other status falls back to it.
   */
  lemma UnknownStatusesAreGray(status: string)
    ensures BadgeColor(StatusColors, status) == Gray <==> status != "active"
  {
  }

  datatype Icon = Shield | Gear | Eye

  /** The icon drawn before the role badge; none for other roles. */
  function RoleIcon(role: string): (icon: Option<Icon>)
    ensures icon == Some(Shield) <==> role == "super_admin"
    ensures icon == Some(Gear) <==> role == "admin"
    ensures icon == Some(Eye) <==> role == "moderator"
  {
    if role == "super_admin" then Some(Shield)
    else if role == "admin" then Some(Gear)
    else if role == "moderator" then Some(Eye)
    else None
  }

  /** `value.replace('_', ' ').toUpperCase()`. */
  function RoleLabel(role: string): (shown: string)
    ensures |shown| == |role|
    ensures forall k :: 0 <= k < |role| ==>
      shown[k] == (if role[k] == '_' && '_' !in role[..k] then ' ' else UpperChar(role[k]))
  {
    Upper(ReplaceFirst(role, '_', ' '))
  }

  /** Only the first underscore becomes a space; everything else is upper-cased, later underscores included. */
  lemma {:induction false} RoleLabelOfCompound(head: string, tail: string)
    requires '_' !in head
    ensures RoleLabel(head + "_" + tail) == Upper(head) + " " + Upper(tail)
  {
    var role := head + "_" + tail;
    var shown := RoleLabel(role);
    assert role[..|head|] == head;
    forall k | 0 <= k < |role|
      ensures shown[k] == (Upper(head) + " " + Upper(tail))[k]
    {
      if k > |head| {
        assert role[|head|] == '_' && role[k] == tail[k - |head| - 1];
        assert '_' in role[..k] by { assert role[..k][|head|] == '_'; }
      }
    }
  }

  lemma UpperSuperAdminWords()
    ensures Upper("super") == "SUPER" && Upper("admin") == "ADMIN"
  {
    var head, tail := Upper("super"), Upper("admin");
    assert head[0] == 'S' && head[1] == 'U' && head[2] == 'P' && head[3] == 'E' && head[4] == 'R';
    assert tail[0] == 'A' && tail[1] == 'D' && tail[2] == 'M' && tail[3] == 'I' && tail[4] == 'N';
  }

  /** The badge of `super_admin` reads "SUPER ADMIN". */
  lemma SuperAdminLabel()
    ensures RoleLabel("super_admin") == "SUPER ADMIN"
  {
    RoleLabelOfCompound("super", "admin");
    UpperSuperAdminWords();
    assert "super" + "_" + "admin" == "super_admin";
    assert "SUPER" + " " + "ADMIN" == "SUPER ADMIN";
  }

  /** `value.charAt(0).toUpperCase() + value.slice(1)`: only the first character changes. */
  function StatusLabel(status: string): (shown: string)
    ensures |shown| == |status|
    ensures status != "" ==> shown[0] == UpperChar(status[0]) && shown[1..] == status[1..]
  {
    if status == "" then "" else [UpperChar(status[0])] + status[1..]
  }

  /** The Last Login cell: a present date is formatted for the locale; the empty string shows "Never". */
  datatype LastLoginCell = Never | LocaleDate(raw: string)

  function LastLoginLabel(value: string): (cell: LastLoginCell)
    ensures cell == Never <==> value == ""
    ensures cell.LocaleDate? ==> cell.raw == value
  {
    if value == "" then Never else LocaleDate(value)
  }
}
