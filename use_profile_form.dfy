/**
 * useProfileForm: the student form shared by the self-service profile and
 * the administrators' student editor. validateForm is a sequence of checks
 * that throws the first failure; handleSubmit routes by role, and maps a
 * failed request to the message of the Error it throws. A handler's result
 * is the Settled value its promise ends with.
 */
module UseProfileForm {
  import opened Wrappers
  import opened Text
  import opened JsValues
  import opened Dates
  import opened AuthService
  import opened UseAuth
  import opened UseStudentManagement
  import StudentModel

  /** The form object. confirmPassword is undefined (None) after an administrator's submit resets the form. */
  datatype ProfileForm = ProfileForm(
    username: string, fullName: string, email: string, enrollmentDate: string,
    password: string, confirmPassword: Option<string>)

  /** The initial form, and the one handleCancelEdit sets. */
  const BlankForm: ProfileForm := ProfileForm("", "", "", "", "", Some(""))

  /** The form an administrator's submit leaves: confirmPassword is not among its keys. */
  const ResetForm: ProfileForm := ProfileForm("", "", "", "", "", None)

  /** The input names handleChange can receive. */
  datatype ProfileKey = UsernameInput | FullNameInput | EmailInput | DateInput | PasswordInput | ConfirmInput

  /** What the input named k shows: form[k], which may be undefined only for confirmPassword. */
  function Value(f: ProfileForm, k: ProfileKey): Option<string> {
    match k
    case UsernameInput => Some(f.username)
    case FullNameInput => Some(f.fullName)
    case EmailInput => Some(f.email)
    case DateInput => Some(f.enrollmentDate)
    case PasswordInput => Some(f.password)
    case ConfirmInput => f.confirmPassword
  }

  /** handleChange: { ...form, [name]: value }. The named key holds the value and no other key changes. */
  function Changed(f: ProfileForm, name: ProfileKey, value: string): (r: ProfileForm)
    ensures Value(r, name) == Some(value)
    ensures forall k :: k != name ==> Value(r, k) == Value(f, k)
  {
    match name
    case UsernameInput => f.(username := value)
    case FullNameInput => f.(fullName := value)
    case EmailInput => f.(email := value)
    case DateInput => f.(enrollmentDate := value)
    case PasswordInput => f.(password := value)
    case ConfirmInput => f.(confirmPassword := Some(value))
  }

  /** Two forms that agree on every key are the same form, so Changed's two clauses determine it. */
  lemma ValuesDetermineForm(f: ProfileForm, g: ProfileForm)
    requires forall k :: Value(f, k) == Value(g, k)
    ensures f == g
  {
    assert Value(f, UsernameInput) == Value(g, UsernameInput) && Value(f, FullNameInput) == Value(g, FullNameInput);
    assert Value(f, EmailInput) == Value(g, EmailInput) && Value(f, DateInput) == Value(g, DateInput);
    assert Value(f, PasswordInput) == Value(g, PasswordInput) && Value(f, ConfirmInput) == Value(g, ConfirmInput);
  }

  // ---- validation --------------------------------------------------------

  /** `form.password && form.password.trim()`: a password was typed. */
  predicate PasswordGiven(f: ProfileForm) {
    !IsBlank(JavaScript, f.password)
  }

  /** What validateForm looks at: the trimmed lengths, the "@" test, and the password and date tests. */
  datatype Observed = Observed(
    username: nat, fullName: nat, email: nat, hasAt: bool, dateGiven: bool,
    passwordGiven: bool, password: nat, confirmed: bool, future: bool)

  function Observe(f: ProfileForm, today: int): (o: Observed)
    ensures o.username == |Trim(JavaScript, f.username)| && o.fullName == |Trim(JavaScript, f.fullName)|
    ensures o.email == |Trim(JavaScript, f.email)| && o.hasAt == Contains(f.email, "@")
    ensures o.dateGiven == (f.enrollmentDate != []) && o.passwordGiven == PasswordGiven(f)
    ensures o.password == |Trim(JavaScript, f.password)| && o.confirmed == (f.confirmPassword == Some(f.password))
    ensures o.future == IsAfter(f.enrollmentDate, today)
  {
    Observed(|Trim(JavaScript, f.username)|, |Trim(JavaScript, f.fullName)|, |Trim(JavaScript, f.email)|,
             Contains(f.email, "@"), f.enrollmentDate != [], PasswordGiven(f), |Trim(JavaScript, f.password)|,
             f.confirmPassword == Some(f.password), IsAfter(f.enrollmentDate, today))
  }

  /** The checks of validateForm. */
  datatype Check =
    | UsernameRequired | UsernameTooLong
    | FullNameRequired | FullNameTooShort | FullNameTooLong
    | EmailRequired | EmailWithoutAt | EmailTooLong
    | DateRequired | PasswordTooShort | PasswordMismatch | DateInFuture

  /** The check's condition taken on its own. */
  predicate Fails(o: Observed, c: Check) {
    match c
    case UsernameRequired => o.username == 0
    case UsernameTooLong => o.username > 20
    case FullNameRequired => o.fullName == 0
    case FullNameTooShort => o.fullName < 2
    case FullNameTooLong => o.fullName > 100
    case EmailRequired => o.email == 0
    case EmailWithoutAt => !o.hasAt
    case EmailTooLong => o.email > 50
    case DateRequired => !o.dateGiven
    case PasswordTooShort => o.passwordGiven && o.password < 6
    case PasswordMismatch => o.passwordGiven && !o.confirmed
    case DateInFuture => o.future
  }

  /** The Error message each check throws. */
  function Message(c: Check): string {
    match c
    case UsernameRequired => "Username is required"
    case UsernameTooLong => "Username must be 20 characters or less"
    case FullNameRequired => "Full name is required"
    case FullNameTooShort => "Full name must be at least 2 characters long"
    case FullNameTooLong => "Full name must not exceed 100 characters"
    case EmailRequired => "Email is required"
    case EmailWithoutAt => "Please enter a valid email address"
    case EmailTooLong => "Email must not exceed 50 characters"
    case DateRequired => "Enrollment date is required"
    case PasswordTooShort => "Password must be at least 6 characters long"
    case PasswordMismatch => "Passwords do not match"
    case DateInFuture => "Enrollment date cannot be in the future"
  }

  /** Where a check stands in the order in which validateForm makes them. */
  function Position(c: Check): nat {
    match c
    case UsernameRequired => 0
    case UsernameTooLong => 1
    case FullNameRequired => 2
    case FullNameTooShort => 3
    case FullNameTooLong => 4
    case EmailRequired => 5
    case EmailWithoutAt => 6
    case EmailTooLong => 7
    case DateRequired => 8
    case PasswordTooShort => 9
    case PasswordMismatch => 10
    case DateInFuture => 11
  }

  /** Every bound validateForm tests holds. */
  predicate Bounded(o: Observed) {
    && 1 <= o.username <= 20 && 2 <= o.fullName <= 100 && 1 <= o.email <= 50 && o.hasAt && o.dateGiven
    && (o.passwordGiven ==> o.password >= 6 && o.confirmed) && !o.future
  }

  /** The checks one after another, as the source makes them; None when every bound holds. */
  function FirstFailure(o: Observed): (r: Option<Check>)
    ensures r.None? <==> Bounded(o)
  {
    if o.username == 0 then Some(UsernameRequired)
    else if o.username > 20 then Some(UsernameTooLong)
    else if o.fullName == 0 then Some(FullNameRequired)
    else if o.fullName < 2 then Some(FullNameTooShort)
    else if o.fullName > 100 then Some(FullNameTooLong)
    else if o.email == 0 then Some(EmailRequired)
    else if !o.hasAt then Some(EmailWithoutAt)
    else if o.email > 50 then Some(EmailTooLong)
    else if !o.dateGiven then Some(DateRequired)
    else if o.passwordGiven && o.password < 6 then Some(PasswordTooShort)
    else if o.passwordGiven && !o.confirmed then Some(PasswordMismatch)
    else if o.future then Some(DateInFuture)
    else None
  }

  /** The reported check fails. */
  lemma ReportedCheckFails(o: Observed)
    ensures FirstFailure(o).Some? ==> Fails(o, FirstFailure(o).value)
  {
  }

  /** A failing check is reported, or one before it is: no failing check is skipped. */
  lemma NoFailureSkipped(o: Observed, c: Check)
    requires Fails(o, c)
    ensures FirstFailure(o).Some? && Position(FirstFailure(o).value) <= Position(c)
  {
  }

  /** validateForm: the first check that fails, or None; the Error it throws carries that check's Message. */
  function ValidateProfile(f: ProfileForm, today: int): (r: Option<Check>)
    ensures r.None? <==> Bounded(Observe(f, today))
    ensures r.Some? ==> Fails(Observe(f, today), r.value)
  {
    ReportedCheckFails(Observe(f, today));
    FirstFailure(Observe(f, today))
  }

  /** What an accepted form satisfies, as a conjunction. */
  predicate ProfileAcceptable(f: ProfileForm, today: int) {
    && 1 <= |Trim(JavaScript, f.username)| <= 20
    && 2 <= |Trim(JavaScript, f.fullName)| <= 100
    && 1 <= |Trim(JavaScript, f.email)| <= 50 && Contains(f.email, "@")
    && f.enrollmentDate != []
    && (PasswordGiven(f) ==> |Trim(JavaScript, f.password)| >= 6 && f.confirmPassword == Some(f.password))
    && !IsAfter(f.enrollmentDate, today)
  }

  /** validateForm lets a form through exactly when it is acceptable. */
  lemma ValidateProfileAccepts(f: ProfileForm, today: int)
    ensures ValidateProfile(f, today).None? <==> ProfileAcceptable(f, today)
  {
    AcceptableIsBounded(f, today);
    BoundedIsAcceptable(f, today);
  }

  lemma AcceptableIsBounded(f: ProfileForm, today: int)
    ensures ProfileAcceptable(f, today) ==> Bounded(Observe(f, today))
  {
  }

  lemma BoundedIsAcceptable(f: ProfileForm, today: int)
    ensures Bounded(Observe(f, today)) ==> ProfileAcceptable(f, today)
  {
  }

  /** A blank username is reported first, whatever else is wrong with the form. */
  lemma BlankUsernameFirst(f: ProfileForm, today: int)
    requires IsBlank(JavaScript, f.username)
    ensures ValidateProfile(f, today) == Some(UsernameRequired)
  {
    assert Observe(f, today).username == 0;
  }

  /** The "@" test on the untrimmed address agrees with the same test on the trimmed one: trim never drops an '@'. */
  lemma AtTestIgnoresTrim(s: string)
    ensures Contains(s, "@") <==> Contains(Trim(JavaScript, s), "@")
  {
    var i, j := TrimSlice(JavaScript, s);
    var t := Trim(JavaScript, s);
    HasAt(s);
    HasAt(t);
    if '@' in s {
      var k :| 0 <= k < |s| && s[k] == '@';
      assert !IsSpace(JavaScript, s[k]);
      SliceIndex(s, i, j, k - i);
    }
    if '@' in t {
      var k :| 0 <= k < |t| && t[k] == '@';
      SliceIndex(s, i, j, k);
    }
  }

  /** Containing "@" is having an '@' character. */
  lemma HasAt(s: string)
    ensures Contains(s, "@") <==> '@' in s
  {
    ContainsChars(s, "@");
    assert "@"[0] == '@';
    if '@' in s {
      var k :| 0 <= k < |s| && s[k] == '@';
      AtOccurs(s, k);
    }
  }

  /** A string with an '@' at position k contains "@". */
  lemma AtOccurs(s: string, k: int)
    requires 0 <= k < |s| && s[k] == '@'
    ensures Contains(s, "@")
  {
    assert OccursAt(s, "@", k);
    ContainsAt(s, "@");
  }

  /** The profile check is looser than the back end's email rule: an address that is just "@" passes it. */
  lemma AtAloneAccepted(f: ProfileForm, today: int)
    requires |f.email| == 1 && f.email[0] == '@'
    requires 1 <= |Trim(JavaScript, f.username)| <= 20 && 2 <= |Trim(JavaScript, f.fullName)| <= 100
    requires f.enrollmentDate != [] && !IsAfter(f.enrollmentDate, today) && !PasswordGiven(f)
    ensures ValidateProfile(f, today).None?
    ensures !StudentModel.EmailShape(f.email)
  {
    AtAlone(f.email);
    AcceptedWithoutPassword(f, today);
  }

  /** "@" on its own: one character that survives trim, contains "@", and is not an email address. */
  lemma AtAlone(e: string)
    requires |e| == 1 && e[0] == '@'
    ensures |Trim(JavaScript, e)| == 1 && Contains(e, "@") && !StudentModel.EmailShape(e)
  {
    AtOccurs(e, 0);
    TrimOfTrimmed(JavaScript, e);
  }

  /** A form without a password passes when the other fields are within their bounds. */
  lemma AcceptedWithoutPassword(f: ProfileForm, today: int)
    requires 1 <= |Trim(JavaScript, f.username)| <= 20 && 2 <= |Trim(JavaScript, f.fullName)| <= 100
    requires 1 <= |Trim(JavaScript, f.email)| <= 50 && Contains(f.email, "@")
    requires f.enrollmentDate != [] && !IsAfter(f.enrollmentDate, today) && !PasswordGiven(f)
    ensures ValidateProfile(f, today).None?
  {
    var o := Observe(f, today);
    assert Bounded(o);
    assert FirstFailure(o).None?;
  }

  /** A blank password is ignored: neither its length nor its confirmation is checked. */
  lemma BlankPasswordIgnored(f: ProfileForm, password: string, confirm: Option<string>, today: int)
    requires IsBlank(JavaScript, password)
    ensures ValidateProfile(f.(password := password, confirmPassword := confirm), today)
         == ValidateProfile(f.(password := "", confirmPassword := Some("")), today)
  {
    assert Trim(JavaScript, "") == "";
    var o1 := Observe(f.(password := password, confirmPassword := confirm), today);
    var o2 := Observe(f.(password := "", confirmPassword := Some("")), today);
    assert !o1.passwordGiven && !o2.passwordGiven;
    assert o1.(password := 0, confirmed := true) == o2.(password := 0, confirmed := true);
    PasswordUnread(o1, o2);
  }

  /** Without a typed password, the password's length and its confirmation are not looked at. */
  lemma PasswordUnread(o1: Observed, o2: Observed)
    requires !o1.passwordGiven && !o2.passwordGiven
    requires o1.(password := 0, confirmed := true) == o2.(password := 0, confirmed := true)
    ensures FirstFailure(o1) == FirstFailure(o2)
  {
    assert o1 == o2.(password := o1.password, confirmed := o1.confirmed);
  }

  /** The confirmation must equal the password exactly: a typed password with trailing space and a trimmed confirmation are refused. */
  lemma ConfirmationComparedUntrimmed(f: ProfileForm, today: int)
    requires PasswordGiven(f) && f.confirmPassword == Some(Trim(JavaScript, f.password)) && f.password != Trim(JavaScript, f.password)
    ensures ValidateProfile(f, today).Some?
  {
  }

  // ---- submitting --------------------------------------------------------

  /** The self-update body: trimmed fields, and the trimmed password only when one was typed. */
  datatype ProfileBody = ProfileBody(
    username: string, fullName: string, email: string, enrollmentDate: string, password: Option<string>)

  /** The request handleSubmit makes. */
  datatype Request =
    | ProfilePut(profile: ProfileBody)
    | StudentPut(id: Option<Json>, form: ProfileForm)
    | StudentPost(form: ProfileForm)

  function ProfileData(f: ProfileForm): (r: ProfileBody)
    ensures r.username == Trim(JavaScript, f.username) && r.fullName == Trim(JavaScript, f.fullName)
    ensures r.email == Trim(JavaScript, f.email) && r.enrollmentDate == f.enrollmentDate
    ensures r.password.Some? <==> PasswordGiven(f)
    ensures r.password.Some? ==> r.password.value == Trim(JavaScript, f.password)
  {
    ProfileBody(Trim(JavaScript, f.username), Trim(JavaScript, f.fullName), Trim(JavaScript, f.email), f.enrollmentDate,
                if PasswordGiven(f) then Some(Trim(JavaScript, f.password)) else None)
  }

  /** An accepted self-update sends fields that are trimmed and within the profile's length bounds. */
  lemma AcceptedProfileBody(f: ProfileForm, today: int)
    requires ValidateProfile(f, today).None?
    ensures var b := ProfileData(f);
      && 1 <= |b.username| <= 20 && IsTrimmed(JavaScript, b.username)
      && 2 <= |b.fullName| <= 100 && IsTrimmed(JavaScript, b.fullName)
      && 1 <= |b.email| <= 50 && IsTrimmed(JavaScript, b.email) && Contains(b.email, "@")
      && (b.password.Some? ==> |b.password.value| >= 6)
  {
    TrimIsTrimmed(JavaScript, f.username);
    TrimIsTrimmed(JavaScript, f.fullName);
    TrimIsTrimmed(JavaScript, f.email);
    AtTestIgnoresTrim(f.email);
  }

  /** The user data merged into the current user after a self-update: the profile without the password. */
  function SavedUserData(b: ProfileBody): (r: map<string, Json>)
    ensures "password" !in r
    ensures r.Keys == {"username", "fullName", "email", "enrollmentDate"}
    ensures r["username"] == JStr(b.username) && r["fullName"] == JStr(b.fullName)
    ensures r["email"] == JStr(b.email) && r["enrollmentDate"] == JStr(b.enrollmentDate)
  {
    map["username" := JStr(b.username), "fullName" := JStr(b.fullName),
        "email" := JStr(b.email), "enrollmentDate" := JStr(b.enrollmentDate)]
  }

  const SessionExpiredText: string := "Session expired. Please log in again."
  const NoPermission: string := "You don't have permission to perform this action."
  const NoServer: string := "No response from server. Please check if the backend is running."
  const ProfileUpdated: string := "Profile updated successfully!"

  /** The success text of an administrator's save: an update while editing, an addition otherwise. */
  function SavedText(editing: bool): string {
    if editing then "Student updated successfully!" else "Student added successfully!"
  }

  /** The message of the Error the catch block throws for a failed request. */
  function SubmitError<T>(h: HttpOutcome<T>): (r: string)
    requires !h.Resolved?
    ensures Status(h) == Some(401) ==> r == SessionExpiredText
    ensures h.Rejected? && h.status == 400 && Truthy(h.body) ==>
      r == (if TruthyOpt(Field(Some(h.body), "message")) then ToJsString(Field(Some(h.body), "message").value) else ToJsString(h.body))
    ensures Status(h) == Some(403) ==> r == NoPermission
    ensures h.Rejected? && h.status !in {400, 401, 403} ==> r == "Server error: " + IntToString(h.status)
    ensures h.Rejected? && h.status == 400 && !Truthy(h.body) ==> r == "Server error: 400"
    ensures h.NoResponse? ==> r == NoServer
    ensures h.SetupError? ==> r == (if h.message == "" then "Request setup error" else h.message)
  {
    match h
    case Rejected(status, body) =>
      if status == 401 then SessionExpiredText
      else if status == 400 && Truthy(body) then
        (if TruthyOpt(Field(Some(body), "message")) then ToJsString(Field(Some(body), "message").value) else ToJsString(body))
      else if status == 403 then NoPermission
      else "Server error: " + IntToString(status)
    case NoResponse => NoServer
    case SetupError(m) => if m == "" then "Request setup error" else m
  }

  /** A string body of a 400 becomes the message itself. */
  lemma StringBodyIsMessage(text: string)
    requires text != ""
    ensures SubmitError(HttpOutcome<()>.Rejected(400, JStr(text))) == text
  {
  }

  /** loadCurrentUserProfile's date: the part before 'T' of a text that reads as a date, otherwise empty. */
  function LoadedDate(v: Option<Json>): (r: string)
    ensures r != "" ==> DayKey(r).Some? && 'T' !in r
  {
    if TruthyOpt(v) && v.value.JStr? && DayKey(BeforeFirst(v.value.s, 'T')).Some? then BeforeFirst(v.value.s, 'T') else ""
  }

  /** `v || ""` for a text field. */
  function TextOrEmpty(v: Option<Json>): string {
    if v.Some? && v.value.JStr? then v.value.s else ""
  }

  /** The form loadCurrentUserProfile builds; the password fields are never filled in. */
  function LoadedForm(user: Json): (f: ProfileForm)
    ensures f.password == "" && f.confirmPassword == Some("")
    ensures f.username == TextOrEmpty(Field(Some(user), "username")) && f.email == TextOrEmpty(Field(Some(user), "email"))
    ensures f.fullName == TextOrEmpty(Field(Some(user), "fullName"))
    ensures f.enrollmentDate == LoadedDate(Field(Some(user), "enrollmentDate"))
  {
    ProfileForm(TextOrEmpty(Field(Some(user), "username")), TextOrEmpty(Field(Some(user), "fullName")),
                TextOrEmpty(Field(Some(user), "email")), LoadedDate(Field(Some(user), "enrollmentDate")), "", Some(""))
  }

  class Profile {
    var form: ProfileForm
    var editingStudent: Option<Json>
    var loading: bool
    const auth: Auth
    const students: StudentManagement

    constructor (auth: Auth, students: StudentManagement)
      ensures this.auth == auth && this.students == students
      ensures form == BlankForm && editingStudent.None? && !loading
    {
      this.auth := auth;
      this.students := students;
      form := BlankForm;
      editingStudent := None;
      loading := false;
    }

    /**
     * The profile effect. It runs after mount and again whenever currentUser
     * changes, since hasRole and loadCurrentUserProfile are memoised on it:
     * a profile-only caller's form is loaded from the current user.
     */
    method ProfileEffect()
      modifies this
      ensures TruthyOpt(auth.currentUser) && ProfileOnly(auth.currentUser) ==>
        form == LoadedForm(auth.currentUser.value)
      ensures !(TruthyOpt(auth.currentUser) && ProfileOnly(auth.currentUser)) ==> form == old(form)
      ensures form.password == old(form.password) || form.password == ""
      ensures editingStudent == old(editingStudent) && loading == old(loading)
    {
      if TruthyOpt(auth.currentUser) && ProfileOnly(auth.currentUser) {
        form := LoadedForm(auth.currentUser.value);
      }
    }

    method HandleChange(name: ProfileKey, value: string)
      modifies this
      ensures form == Changed(old(form), name, value)
      ensures editingStudent == old(editingStudent) && loading == old(loading)
    {
      form := Changed(form, name, value);
    }

    method SetEditingStudent(student: Option<Json>)
      modifies this
      ensures editingStudent == student && form == old(form) && loading == old(loading)
    {
      editingStudent := student;
    }

    method HandleCancelEdit()
      modifies this
      ensures form == BlankForm && editingStudent.None? && loading == old(loading)
    {
      form := BlankForm;
      editingStudent := None;
    }

    /** A failed request: 401 logs out; the form and the edited student are kept. */
    method Fail<T>(h: HttpOutcome<T>) returns (r: Settled)
      requires !h.Resolved?
      modifies auth, auth.storage
      ensures r == Thrown(SubmitError(h))
      ensures Status(h) == Some(401) ==> !auth.isAuthenticated && auth.storage.CurrentUser().None?
      ensures Status(h) != Some(401) ==> unchanged(auth) && auth.storage.items == old(auth.storage.items)
    {
      if Status(h) == Some(401) {
        auth.HandleLogout();
      }
      r := Thrown(SubmitError(h));
    }

    /**
     * The self-service path: PUT /students/profile with the body, then the
     * current user is updated and the password cleared. The new currentUser
     * re-runs the profile effect, which reloads the form from it.
     */
    method SubmitOwn(body: ProfileBody, put: HttpOutcome<()>) returns (r: Settled)
      modifies this, auth, auth.storage
      ensures put.Resolved? ==>
        && r == Fulfilled(Some(ProfileUpdated))
        && auth.currentUser == Some(JObj(Spread(old(auth.currentUser), SavedUserData(body))))
        && auth.storage.CurrentUser() == auth.currentUser
        && form == (if ProfileOnly(old(auth.currentUser)) then LoadedForm(auth.currentUser.value) else old(form).(password := ""))
      ensures !put.Resolved? ==> r == Thrown(SubmitError(put)) && form == old(form)
      ensures !put.Resolved? && Status(put) == Some(401) ==> !auth.isAuthenticated && auth.storage.CurrentUser().None?
      ensures editingStudent == old(editingStudent) && loading == old(loading)
    {
      if put.Resolved? {
        var before := auth.currentUser;
        auth.UpdateCurrentUser(SavedUserData(body));
        form := form.(password := "");
        SpreadKeepsRoles(before, SavedUserData(body));
        ProfileEffect();
        r := Fulfilled(Some(ProfileUpdated));
      } else {
        r := Fail(put);
      }
    }

    /**
     * The administrator's path: PUT /students/{id} while a student is being
     * edited (editingStudent is truthy), POST otherwise; then reset and refetch.
     */
    method SubmitStudent(request: HttpOutcome<()>, refetch: HttpOutcome<seq<StudentItem>>) returns (r: Settled, sent: Request)
      modifies this, auth, auth.storage, students, students.auth, students.auth.storage
      ensures TruthyOpt(old(editingStudent)) ==> sent == StudentPut(Field(old(editingStudent), "id"), old(form))
      ensures !TruthyOpt(old(editingStudent)) ==> sent == StudentPost(old(form))
      ensures request.Resolved? ==>
        form == ResetForm && editingStudent == (if TruthyOpt(old(editingStudent)) then None else old(editingStudent))
      ensures request.Resolved? && refetch.Resolved? ==>
        r == Fulfilled(Some(SavedText(TruthyOpt(old(editingStudent))))) && students.students == refetch.data
      ensures request.Resolved? && !refetch.Resolved? ==>
        r == Thrown(if Status(refetch) == Some(401) then SessionExpired else UseStudentManagement.FetchFailed)
      ensures !request.Resolved? ==> r == Thrown(SubmitError(request)) && form == old(form) && editingStudent == old(editingStudent)
      ensures Status(request) == Some(401) ==> !auth.isAuthenticated && auth.storage.CurrentUser().None?
      ensures loading == old(loading)
      ensures request.Resolved? ==> !students.loading
      ensures !request.Resolved? ==> students.loading == old(students.loading)
    {
      var editing := TruthyOpt(editingStudent);
      sent := if editing then StudentPut(Field(editingStudent, "id"), form) else StudentPost(form);
      if !request.Resolved? {
        r := Fail(request);
        return;
      }
      if editing {
        editingStudent := None;
      }
      form := ResetForm;
      var fetched := students.FetchStudents(refetch);
      if fetched.Thrown? {
        r := Thrown(if fetched.message == "" then "Request setup error" else fetched.message);
      } else {
        r := Fulfilled(Some(SavedText(editing)));
      }
    }

    /** The try block: loading is set, the caller's roles pick the route, and loading ends false. */
    method Route(body: ProfileBody, request: HttpOutcome<()>, refetch: HttpOutcome<seq<StudentItem>>)
      returns (r: Settled, sent: Request)
      modifies this, auth, auth.storage, students, students.auth, students.auth.storage
      ensures !loading
      ensures students.loading ==> old(students.loading)
      ensures Status(request) == Some(401) ==>
        r == Thrown(SessionExpiredText) && !auth.isAuthenticated && auth.storage.CurrentUser().None?
      ensures !request.Resolved? ==> r == Thrown(SubmitError(request)) && form == old(form) && editingStudent == old(editingStudent)
      // a profile-only caller updates their own profile
      ensures ProfileOnly(old(auth.currentUser)) ==> sent == ProfilePut(body) && editingStudent == old(editingStudent)
      ensures ProfileOnly(old(auth.currentUser)) && request.Resolved? ==>
        && r == Fulfilled(Some(ProfileUpdated))
        && auth.currentUser == Some(JObj(Spread(old(auth.currentUser), SavedUserData(body))))
        && auth.storage.CurrentUser() == auth.currentUser
        && form == LoadedForm(auth.currentUser.value)
      // everyone else saves a student
      ensures !ProfileOnly(old(auth.currentUser)) ==>
        sent == (if TruthyOpt(old(editingStudent)) then StudentPut(Field(old(editingStudent), "id"), old(form)) else StudentPost(old(form)))
      ensures !ProfileOnly(old(auth.currentUser)) && request.Resolved? ==>
        form == ResetForm && editingStudent == (if TruthyOpt(old(editingStudent)) then None else old(editingStudent))
      ensures !ProfileOnly(old(auth.currentUser)) && request.Resolved? && refetch.Resolved? ==>
        r == Fulfilled(Some(SavedText(TruthyOpt(old(editingStudent))))) && students.students == refetch.data
      ensures !ProfileOnly(old(auth.currentUser)) && request.Resolved? && !refetch.Resolved? ==>
        r == Thrown(if Status(refetch) == Some(401) then SessionExpired else UseStudentManagement.FetchFailed)
    {
      loading := true;
      if ProfileOnly(auth.currentUser) {
        r := SubmitOwn(body, request);
        sent := ProfilePut(body);
      } else {
        r, sent := SubmitStudent(request, refetch);
      }
      loading := false;
    }

    /**
     * handleSubmit. A form that fails validation throws before the try block:
     * no request, and loading, the form and the auth state are unchanged. An
     * accepted form is routed with its trimmed profile data.
     */
    method HandleSubmit(today: int, request: HttpOutcome<()>, refetch: HttpOutcome<seq<StudentItem>>)
      returns (r: Settled, sent: Option<Request>)
      modifies this, auth, auth.storage, students, students.auth, students.auth.storage
      ensures ValidateProfile(old(form), today).Some? ==>
        r == Thrown(Message(ValidateProfile(old(form), today).value)) && sent.None?
        && form == old(form) && loading == old(loading) && editingStudent == old(editingStudent)
        && unchanged(auth) && auth.storage.items == old(auth.storage.items) && students.loading == old(students.loading)
      ensures students.loading ==> old(students.loading)
      ensures ValidateProfile(old(form), today).None? ==> sent.Some? && !loading
      ensures ValidateProfile(old(form), today).None? && Status(request) == Some(401) ==>
        r == Thrown(SessionExpiredText) && !auth.isAuthenticated && auth.storage.CurrentUser().None?
      ensures ValidateProfile(old(form), today).None? && !request.Resolved? ==>
        r == Thrown(SubmitError(request)) && form == old(form) && editingStudent == old(editingStudent)
      // a profile-only caller updates their own profile
      ensures ValidateProfile(old(form), today).None? && ProfileOnly(old(auth.currentUser)) ==>
        sent == Some(ProfilePut(ProfileData(old(form)))) && editingStudent == old(editingStudent)
      ensures ValidateProfile(old(form), today).None? && ProfileOnly(old(auth.currentUser)) && request.Resolved? ==>
        && r == Fulfilled(Some(ProfileUpdated))
        && auth.currentUser == Some(JObj(Spread(old(auth.currentUser), SavedUserData(ProfileData(old(form))))))
        && auth.storage.CurrentUser() == auth.currentUser
        && form == LoadedForm(auth.currentUser.value)
      // everyone else saves a student
      ensures ValidateProfile(old(form), today).None? && !ProfileOnly(old(auth.currentUser)) ==>
        sent == Some(if TruthyOpt(old(editingStudent)) then StudentPut(Field(old(editingStudent), "id"), old(form))
                     else StudentPost(old(form)))
      ensures ValidateProfile(old(form), today).None? && !ProfileOnly(old(auth.currentUser)) && request.Resolved? ==>
        form == ResetForm && editingStudent == (if TruthyOpt(old(editingStudent)) then None else old(editingStudent))
      ensures ValidateProfile(old(form), today).None? && !ProfileOnly(old(auth.currentUser)) && request.Resolved? && refetch.Resolved? ==>
        r == Fulfilled(Some(SavedText(TruthyOpt(old(editingStudent))))) && students.students == refetch.data
      ensures ValidateProfile(old(form), today).None? && !ProfileOnly(old(auth.currentUser)) && request.Resolved? && !refetch.Resolved? ==>
        r == Thrown(if Status(refetch) == Some(401) then SessionExpired else UseStudentManagement.FetchFailed)
    {
      var failure := ValidateProfile(form, today);
      if failure.Some? {
        return Thrown(Message(failure.value)), None;
      }
      var req;
      r, req := Route(ProfileData(form), request, refetch);
      sent := Some(req);
    }
  }
}
