/**
 * UserForm: the administrator's "Add New User" form. The form state is an
 * object whose text fields are named by the inputs' name attributes, plus
 * the selected roles. Its validator reads form.username, a property no
 * input ever sets (the input is named userName), so the call .trim() on
 * undefined throws; ValidateAsWritten models that, Validate the evidently
 * intended reading of userName, which the component model uses.
 */
module UserForm {
  import opened Wrappers
  import opened Text
  import opened Lists
  import opened JsValues
  import opened AuthService
  import opened UseMessages

  /**
   * The property names involved: the five the inputs' name attributes carry,
   * and "username", the one the validator reads.
   */
  datatype Key = FullNameKey | UserNameKey | PasswordKey | EmailKey | EnrollmentDateKey | UsernameKey

  /** The property name each key stands for. */
  function KeyName(k: Key): (r: string)
    ensures k == UserNameKey ==> r == "userName"
    ensures k == UsernameKey ==> r == "username"
  {
    match k
    case FullNameKey => "fullName"
    case UserNameKey => "userName"
    case PasswordKey => "password"
    case EmailKey => "email"
    case EnrollmentDateKey => "enrollmentDate"
    case UsernameKey => "username"
  }

  /** The two spellings are different property names: JavaScript property names are case-sensitive. */
  lemma SpellingsDiffer()
    ensures KeyName(UserNameKey) != KeyName(UsernameKey)
  {
    assert KeyName(UserNameKey)[4] != KeyName(UsernameKey)[4];
  }

  /** The text properties of the form object, and the selected roles. */
  datatype Form = Form(fields: map<Key, string>, roles: seq<string>)

  /** The name attributes of the form's text inputs. */
  const InputNames: set<Key> := {FullNameKey, UserNameKey, PasswordKey, EmailKey, EnrollmentDateKey}

  /** The initial state, and the state after a successful submit; today is the ISO date before its 'T'. */
  function Initial(today: string): (f: Form)
    ensures f.fields.Keys == InputNames && f.roles == ["user"]
    ensures f.fields[EnrollmentDateKey] == today
    ensures forall k :: k in f.fields && k != EnrollmentDateKey ==> f.fields[k] == ""
  {
    Form(map[FullNameKey := "", UserNameKey := "", PasswordKey := "", EmailKey := "", EnrollmentDateKey := today], ["user"])
  }

  /** handleChange: the named property takes the input's value. */
  function Changed(f: Form, name: Key, value: string): (r: Form)
    ensures r.fields == f.fields[name := value] && r.roles == f.roles
  {
    f.(fields := f.fields[name := value])
  }

  /** handleRoleChange: a checked value is appended, an unchecked one removed wherever it occurs. */
  function RoleChanged(f: Form, value: string, checked: bool): (r: Form)
    ensures r.fields == f.fields
    ensures checked ==> r.roles == f.roles + [value]
    ensures !checked ==> value !in r.roles && forall k :: 0 <= k < |f.roles| && f.roles[k] != value ==> f.roles[k] in r.roles
  {
    f.(roles := if checked then f.roles + [value] else Without(f.roles, value))
  }

  /** The states the inputs can put the form in: every input's property is set, and "username" never is. */
  predicate Reachable(f: Form) {
    InputNames <= f.fields.Keys && UsernameKey !in f.fields
  }

  lemma InitialReachable(today: string)
    ensures Reachable(Initial(today))
  {
  }

  lemma ChangeKeepsReachable(f: Form, name: Key, value: string, checked: bool)
    requires Reachable(f) && name in InputNames
    ensures Reachable(Changed(f, name, value))
    ensures Reachable(RoleChanged(f, value, checked))
  {
  }

  /** How validateForm ends: true, false after onError(message), or a thrown TypeError. */
  datatype Verdict = Pass | Fail(message: string) | Throws

  /** form.key as a JavaScript value: undefined when the property is not set. */
  function Prop(f: Form, key: Key): Option<string> {
    if key in f.fields then Some(f.fields[key]) else None
  }

  /** validateForm with the username check reading the given property. */
  function Checks(f: Form, usernameKey: Key): (r: Verdict) {
    var username := Prop(f, usernameKey);
    var email := Prop(f, EmailKey);
    var password := Prop(f, PasswordKey);
    var fullName := Prop(f, FullNameKey);
    var date := Prop(f, EnrollmentDateKey);
    if username.None? then Throws
    else if IsBlank(JavaScript, username.value) then Fail("Username is required")
    else if email.None? then Throws
    else if IsBlank(JavaScript, email.value) then Fail("Email is required")
    else if password.None? then Throws
    else if IsBlank(JavaScript, password.value) || |password.value| < 6 then Fail("Password must be at least 6 characters long")
    else if fullName.None? then Throws
    else if IsBlank(JavaScript, fullName.value) then Fail("Full name is required")
    else if date.None? || date.value == "" then Fail("Enrollment date is required")
    else if |f.roles| == 0 then Fail("At least one role must be selected")
    else Pass
  }

  /** validateForm as written: it reads form.username. */
  function ValidateAsWritten(f: Form): (r: Verdict)
    ensures UsernameKey !in f.fields ==> r == Throws
  {
    Checks(f, UsernameKey)
  }

  /** On every form the inputs can produce, the validator as written throws, so handleSubmit never sends. */
  lemma {:induction false} AsWrittenAlwaysThrows(f: Form)
    requires Reachable(f)
    ensures ValidateAsWritten(f) == Throws
  {
  }

  /** Even the untouched initial form makes the validator as written throw. */
  lemma InitialFormThrows(today: string)
    ensures ValidateAsWritten(Initial(today)) == Throws
  {
    InitialReachable(today);
    AsWrittenAlwaysThrows(Initial(today));
  }

  /** The property is set to a text that is not blank. */
  predicate Filled(f: Form, key: Key) {
    key in f.fields && !IsBlank(JavaScript, f.fields[key])
  }

  /** The checks pass exactly when every field is filled in, the password is long enough and a role is selected. */
  lemma {:induction false} ChecksPass(f: Form, usernameKey: Key)
    requires usernameKey in f.fields && InputNames <= f.fields.Keys
    ensures Checks(f, usernameKey) != Throws
    ensures Checks(f, usernameKey) == Pass <==>
      Filled(f, usernameKey) && Filled(f, EmailKey) && Filled(f, PasswordKey) && |f.fields[PasswordKey]| >= 6
      && Filled(f, FullNameKey) && f.fields[EnrollmentDateKey] != "" && |f.roles| > 0
  {
    assert EmailKey in InputNames && PasswordKey in InputNames && FullNameKey in InputNames && EnrollmentDateKey in InputNames;
    var u, e, p, n, d := f.fields[usernameKey], f.fields[EmailKey], f.fields[PasswordKey], f.fields[FullNameKey], f.fields[EnrollmentDateKey];
    var r := Checks(f, usernameKey);
    if IsBlank(JavaScript, u) {
      assert r == Fail("Username is required");
    } else if IsBlank(JavaScript, e) {
      assert r == Fail("Email is required");
    } else if IsBlank(JavaScript, p) || |p| < 6 {
      assert r.Fail?;
    } else if IsBlank(JavaScript, n) {
      assert r.Fail?;
    } else if d == "" || |f.roles| == 0 {
      assert r.Fail?;
    } else {
      assert r == Pass;
    }
  }

  /** The conditions the validator means to enforce, as a conjunction. */
  predicate Acceptable(f: Form) {
    && Filled(f, UserNameKey) && Filled(f, EmailKey)
    && Filled(f, PasswordKey) && |f.fields[PasswordKey]| >= 6
    && Filled(f, FullNameKey)
    && EnrollmentDateKey in f.fields && f.fields[EnrollmentDateKey] != ""
    && |f.roles| > 0
  }

  /** validateForm reading form.userName, the property the input sets. */
  function Validate(f: Form): (r: Verdict)
    ensures Reachable(f) ==> r != Throws
    ensures Reachable(f) ==> (r == Pass <==> Acceptable(f))
  {
    if Reachable(f) then
      assert UserNameKey in InputNames;
      ChecksPass(f, UserNameKey);
      Checks(f, UserNameKey)
    else Checks(f, UserNameKey)
  }

  /** Untouched, the corrected form stops at the username check. */
  lemma InitialFormNeedsUsername(today: string)
    ensures Validate(Initial(today)) == Fail("Username is required")
  {
    assert Trim(JavaScript, "") == "";
  }

  /** A password of fewer than six characters is refused even when the other fields are filled in. */
  lemma {:induction false} ShortPasswordRefused(f: Form)
    requires Reachable(f) && PasswordKey in f.fields && |f.fields[PasswordKey]| < 6
    ensures Validate(f) != Pass
  {
  }

  /** The headers of the sign-up request: JSON, plus Authorization when the stored user has a token. */
  function SignupHeaders(stored: Option<Json>): (r: Option<map<string, string>>)
    ensures r.None? <==> stored == Some(JNull)
    ensures r.Some? ==> "Content-Type" in r.value && r.value["Content-Type"] == "application/json"
    ensures r.Some? ==> ("Authorization" in r.value <==> TruthyOpt(Field(stored, "accessToken")))
  {
    if stored == Some(JNull) then None
    else
      var user := if stored.Some? then stored.value else JObj(map[]);
      var token := Field(Some(user), "accessToken");
      if TruthyOpt(token) then Some(map["Content-Type" := "application/json", "Authorization" := "Bearer " + ToJsString(token.value)])
      else Some(map["Content-Type" := "application/json"])
  }

  /** The hand-built header agrees with the shared getAuthHeader whenever it can be built. */
  lemma {:induction false} SignupHeadersAgree(stored: Option<Json>)
    requires stored != Some(JNull)
    ensures SignupHeaders(stored).value == map["Content-Type" := "application/json"] + AuthHeader(stored)
  {
    if stored.Some? && !Truthy(stored.value) {
      assert !stored.value.JObj?;
    }
  }

  /** How the fetch ended: a response with its ok flag and text, or a network failure. */
  datatype Reply = Responded(ok: bool, text: string) | NetworkError

  const Created: string := "User created successfully! Switching to User Management..."
  const CreateFailed: string := "Failed to create user"
  const BackendDown: string := "Failed to create user. Please ensure the backend is running."

  /** The banner set after a submit that got past validation. */
  function SubmitMessage(headers: Option<map<string, string>>, reply: Reply): (r: string)
    ensures headers.None? || reply.NetworkError? ==> r == BackendDown
    ensures headers.Some? && reply.Responded? && reply.ok ==> r == Created
    ensures headers.Some? && reply.Responded? && !reply.ok ==> r == (if reply.text == "" then CreateFailed else reply.text)
  {
    if headers.None? || reply.NetworkError? then BackendDown
    else if reply.ok then Created
    else if reply.text == "" then CreateFailed
    else reply.text
  }

  class AddUser {
    var form: Form
    const messages: Messages

    constructor (today: string, messages: Messages)
      ensures form == Initial(today) && this.messages == messages
    {
      form := Initial(today);
      this.messages := messages;
    }

    method HandleChange(name: Key, value: string)
      modifies this
      ensures form == Changed(old(form), name, value)
    {
      form := Changed(form, name, value);
    }

    method HandleRoleChange(value: string, checked: bool)
      modifies this
      ensures form == RoleChanged(old(form), value, checked)
    {
      form := RoleChanged(form, value, checked);
    }

    /**
     * handleSubmit with the corrected validator. today is the date used for
     * the reset, stored the localStorage user, reply how the fetch ended.
     * Returns the form sent (None when no request was made) and whether
     * onUserAdded was scheduled.
     */
    method HandleSubmit(today: string, stored: Option<Json>, reply: Reply, hasOnUserAdded: bool)
      returns (sent: Option<Form>, scheduled: bool)
      modifies this, messages
      ensures Validate(old(form)).Fail? ==>
        sent.None? && !scheduled && form == old(form)
        && messages.error == Some(Validate(old(form)).message) && messages.success == Some("")
      ensures Validate(old(form)).Pass? ==>
        (sent.Some? <==> SignupHeaders(stored).Some?) && (sent.Some? ==> sent.value == old(form))
      ensures Validate(old(form)).Pass? && SignupHeaders(stored).Some? && reply.Responded? && reply.ok ==>
        form == Initial(today) && scheduled == hasOnUserAdded
        && messages.success == Some(Created) && messages.error == Some("")
      ensures Validate(old(form)).Pass? && !(SignupHeaders(stored).Some? && reply.Responded? && reply.ok) ==>
        form == old(form) && !scheduled
        && messages.error == Some(SubmitMessage(SignupHeaders(stored), reply)) && messages.success == Some("")
      ensures Validate(old(form)).Throws? ==>
        sent.None? && !scheduled && form == old(form)
        && messages.error == old(messages.error) && messages.success == old(messages.success)
    {
      sent, scheduled := None, false;
      var verdict := Validate(form);
      if verdict.Throws? {
        return;
      }
      if verdict.Fail? {
        messages.ShowError(Some(verdict.message));
        return;
      }
      var headers := SignupHeaders(stored);
      if headers.None? {
        messages.ShowError(Some(BackendDown));
        return;
      }
      sent := Some(form);
      if reply.Responded? && reply.ok {
        messages.ShowSuccess(Some(Created));
        form := Initial(today);
        scheduled := hasOnUserAdded;
      } else {
        messages.ShowError(Some(SubmitMessage(headers, reply)));
      }
    }
  }
}
