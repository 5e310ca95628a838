/**
 * RegisterForm: the self-registration form. handleSubmit compares the
 * password with its confirmation before anything is sent, then posts the
 * sign-up body with the chosen role as a one-element list. How the sign-up
 * request ends is a parameter; the two-second timer that switches back to
 * the login form is reported as scheduled.
 */
module RegisterForm {
  import opened Wrappers
  import opened JsValues
  import opened AuthService

  /** The formData object. */
  datatype RegisterData = RegisterData(
    username: string, email: string, password: string, confirmPassword: string,
    fullName: string, enrollmentDate: string, role: string)

  /** Every field empty, and the role select on its first option. */
  const InitialData: RegisterData := RegisterData("", "", "", "", "", "", "user")

  /** The inputs of the form, one per formData key. */
  datatype Input = UsernameInput | EmailInput | PasswordInput | ConfirmInput | FullNameInput | DateInput | RoleInput

  /** The formData value an input shows. */
  function Value(d: RegisterData, i: Input): string {
    match i
    case UsernameInput => d.username
    case EmailInput => d.email
    case PasswordInput => d.password
    case ConfirmInput => d.confirmPassword
    case FullNameInput => d.fullName
    case DateInput => d.enrollmentDate
    case RoleInput => d.role
  }

  /** An onChange handler: { ...formData, [key]: value }. The input shows the new value and no other input changes. */
  function Changed(d: RegisterData, i: Input, value: string): (r: RegisterData)
    ensures Value(r, i) == value
    ensures forall j :: j != i ==> Value(r, j) == Value(d, j)
  {
    match i
    case UsernameInput => d.(username := value)
    case EmailInput => d.(email := value)
    case PasswordInput => d.(password := value)
    case ConfirmInput => d.(confirmPassword := value)
    case FullNameInput => d.(fullName := value)
    case DateInput => d.(enrollmentDate := value)
    case RoleInput => d.(role := value)
  }

  const Mismatch: string := "Passwords do not match"
  const Registered: string := "Registration successful! Please log in."
  const RegistrationFailed: string := "Registration failed"

  /** The sign-up body handleSubmit posts: the six form values, the role as the list [formData.role]. */
  function Payload(d: RegisterData): (p: map<string, Json>)
    ensures "role" in p && p["role"] == JArr([JStr(d.role)])
    ensures "confirmPassword" !in p
    ensures "password" in p && p["password"] == JStr(d.password)
  {
    RegisterPayload(d.username, d.email, d.password, d.fullName, d.enrollmentDate, Some([d.role]))
  }

  /** A form whose role select was never touched sends what register sends when no roles are passed. */
  lemma UntouchedRoleIsDefault(d: RegisterData)
    requires d.role == InitialData.role
    ensures Payload(d) == RegisterPayload(d.username, d.email, d.password, d.fullName, d.enrollmentDate, None)
  {
  }

  /** The banner shown after a failed sign-up: the server's message when it is truthy, else the fallback. */
  function FailureText(h: HttpOutcome<()>): (r: string)
    ensures TruthyOpt(ServerMessage(h)) ==> r == ToJsString(ServerMessage(h).value)
    ensures !TruthyOpt(ServerMessage(h)) ==> r == RegistrationFailed
  {
    MessageOr(h, RegistrationFailed)
  }

  /** With no response at all there is no server message, so the fallback is shown. */
  lemma NoResponseShowsFallback()
    ensures FailureText(NoResponse) == RegistrationFailed
    ensures FailureText(Rejected(409, JObj(map[]))) == RegistrationFailed
  {
  }

  class Register {
    var formData: RegisterData
    var loading: bool
    var error: string
    var success: string

    constructor ()
      ensures formData == InitialData && !loading && error == "" && success == ""
    {
      formData := InitialData;
      loading := false;
      error := "";
      success := "";
    }

    method HandleChange(i: Input, value: string)
      modifies this
      ensures formData == Changed(old(formData), i, value)
      ensures loading == old(loading) && error == old(error) && success == old(success)
    {
      formData := Changed(formData, i, value);
    }

    /**
     * handleSubmit. registration is how the sign-up request ends. Returns
     * the body posted (None when no request was made) and whether the
     * switch back to the login form was scheduled.
     */
    method HandleSubmit(registration: HttpOutcome<()>) returns (sent: Option<map<string, Json>>, toggle: bool)
      modifies this
      ensures formData == old(formData) && !loading
      ensures error == "" || success == ""
      ensures old(formData).password != old(formData).confirmPassword ==>
        sent.None? && !toggle && error == Mismatch && success == ""
      ensures old(formData).password == old(formData).confirmPassword ==> sent == Some(Payload(old(formData)))
      ensures old(formData).password == old(formData).confirmPassword && registration.Resolved? ==>
        toggle && success == Registered && error == ""
      ensures old(formData).password == old(formData).confirmPassword && !registration.Resolved? ==>
        !toggle && error == FailureText(registration) && success == ""
    {
      loading := true;
      error := "";
      success := "";
      sent, toggle := None, false;
      if formData.password != formData.confirmPassword {
        error := Mismatch;
        loading := false;
        return;
      }
      sent := Some(Payload(formData));
      if registration.Resolved? {
        success := Registered;
        toggle := true;
      } else {
        error := FailureText(registration);
      }
      loading := false;
    }
  }
}
